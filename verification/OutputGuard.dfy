/** The guard on native tool output: every text is capped and redacted in a copy of the
    output, and the copy is written back onto the host's own object.

    JavaScript values live on Dafny's heap, so identity and aliasing are the source's. `Tree`
    is the deep value of an acyclic value, and `GuardTree` what the guard should make of it. */
module OutputGuard {
  import opened Text

  // ---------------------------------------------------------------- one text

  const MAX_CHARS := 262144

  function Marker(omitted: nat): string {
    "\n[aidocs output guard: truncated " + Decimal(omitted) + " chars over the 262144-char cap]"
  }

  function Cap(text: string): string {
    if |text| <= MAX_CHARS then text else text[..MAX_CHARS] + Marker(|text| - MAX_CHARS)
  }

  /** The redactor's answer, None when it gave none. */
  type Redactor = string -> Option<string>

  /** The bridge is not asked about an empty text. */
  function Ask(redact: Redactor, text: string): Option<string> {
    if text == "" then None else redact(text)
  }

  function GuardText(redact: Redactor, text: string): string {
    var capped := Cap(text);
    match Ask(redact, capped)
    case Some(redacted) => if redacted != "" then redacted else capped
    case None => capped
  }

  function TextGuard(redact: Redactor): string -> string {
    text => GuardText(redact, text)
  }

  /** The longest string there can be (ECMA-262, section 6.1.4). */
  const MAX_LENGTH := 0x1F_FFFF_FFFF_FFFF

  /** The cap and the longest marker: 65 characters and 16 digits. */
  const MAX_CAPPED := 262225

  function PowerOfTen(k: nat): nat {
    if k == 0 then 1 else 10 * PowerOfTen(k - 1)
  }

  lemma {:induction false} DecimalLength(n: nat, k: nat)
    requires 1 <= k && n < PowerOfTen(k)
    ensures |Decimal(n)| <= k
    decreases k
  {
    if n >= 10 {
      DecimalLength(n / 10, k - 1);
    }
  }

  lemma SixteenDigits()
    ensures MAX_LENGTH < PowerOfTen(16)
  {
    assert PowerOfTen(4) == 10 * (10 * (10 * (10 * PowerOfTen(0))));
    assert PowerOfTen(8) == 10 * (10 * (10 * (10 * PowerOfTen(4))));
    assert PowerOfTen(12) == 10 * (10 * (10 * (10 * PowerOfTen(8))));
    assert PowerOfTen(16) == 10 * (10 * (10 * (10 * PowerOfTen(12))));
  }

  /** No capped text of any string is longer than the cap and one marker. */
  lemma CappedIsBounded(text: string)
    requires |text| <= MAX_LENGTH
    ensures |Cap(text)| <= MAX_CAPPED
  {
    if |text| > MAX_CHARS {
      SixteenDigits();
      DecimalLength(|text| - MAX_CHARS, 16);
    }
  }

  /** Two texts are capped alike exactly when they are equal or differ only beyond the cap. */
  lemma CappedAlikeIff(a: string, b: string)
    ensures Cap(a) == Cap(b) <==> a == b || (|a| == |b| > MAX_CHARS && a[..MAX_CHARS] == b[..MAX_CHARS])
  {
    if |a| > MAX_CHARS && |b| > MAX_CHARS && Cap(a) == Cap(b) {
      CutAlike(a[..MAX_CHARS], |a| - MAX_CHARS, b[..MAX_CHARS], |b| - MAX_CHARS);
    }
  }

  lemma CutAlike(a: string, m: nat, b: string, n: nat)
    requires |a| == |b| && a + Marker(m) == b + Marker(n)
    ensures a == b && m == n
  {
    assert a == (a + Marker(m))[..|a|] == (b + Marker(n))[..|b|] == b;
    assert Marker(m) == (a + Marker(m))[|a|..] == (b + Marker(n))[|b|..] == Marker(n);
    SameMarker(m, n);
  }

  lemma SameMarker(m: nat, n: nat)
    requires Marker(m) == Marker(n)
    ensures m == n
  {
    var head, tail := "\n[aidocs output guard: truncated ", " chars over the 262144-char cap]";
    assert Decimal(m) == Marker(m)[|head|..|Marker(m)| - |tail|];
    assert Decimal(n) == Marker(n)[|head|..|Marker(n)| - |tail|];
    DecimalInjective(m, n);
  }

  /** Up to the cap the redactor is asked about the text itself: what it answers, if that is not
      empty, is what comes out, and otherwise the text does. */
  lemma ShortTextComesOut(redact: Redactor, text: string)
    requires |text| <= 262144
    ensures GuardText(redact, text) ==
            if text != "" && redact(text).Some? && redact(text).value != "" then redact(text).value else text
  {
  }

  /** A longer text for which the redactor has no answer comes out as its first 262144 characters
      and a note with the number of the others. */
  lemma LongTextIsCut(redact: Redactor, text: string)
    requires 262144 < |text| <= MAX_LENGTH
    requires var answer := redact(Cap(text)); answer.None? || answer.value == ""
    ensures var out := GuardText(redact, text);
            && text[..262144] <= out && 262144 < |out| <= 262225
            && Includes(out[262144..], " " + Decimal(|text| - 262144) + " ")
  {
    CappedIsBounded(text);
    var n := Decimal(|text| - 262144);
    var head, tail := "\n[aidocs output guard: truncated", "chars over the 262144-char cap]";
    assert Marker(|text| - 262144) == head + (" " + n + " ") + tail;
    IncludesMiddle(head, " " + n + " ", tail);
    assert Cap(text)[262144..] == Marker(|text| - 262144);
  }

  /** Texts of the same capped form are indistinguishable to the guard, whatever the redactor. */
  lemma DroppedTextIsNeverRead(redact: Redactor, a: string, b: string)
    requires |a| == |b| > MAX_CHARS && a[..MAX_CHARS] == b[..MAX_CHARS]
    ensures GuardText(redact, a) == GuardText(redact, b)
  {
  }

  // ---------------------------------------------------------------- deep values

  /** An object's keys and values stand side by side. */
  datatype Tree =
    | Leaf(token: nat)
    | Txt(text: string)
    | Arr(items: seq<Tree>)
    | Obj(keys: seq<string>, vals: seq<Tree>)

  /** Where the key stands, or the number of keys. */
  function Find(keys: seq<string>, key: string): (i: nat)
    ensures i <= |keys|
    ensures i < |keys| ==> keys[i] == key
    ensures forall j | 0 <= j < i :: keys[j] != key
  {
    if keys == [] || keys[0] == key then 0 else 1 + Find(keys[1..], key)
  }

  /** An object whose own property `text` is a string. */
  predicate HasText(t: Tree) {
    t.Obj? && var i := Find(t.keys, "text"); i < |t.keys| && i < |t.vals| && t.vals[i].Txt?
  }

  function GuardTree(guard: string -> string, t: Tree): Tree {
    match t
    case Leaf(_) => t
    case Txt(text) => Txt(guard(text))
    case Arr(items) => Arr(GuardItems(guard, items))
    case Obj(keys, vals) =>
      if HasText(t) then
        var i := Find(keys, "text");
        Obj(keys, vals[i := Txt(guard(vals[i].text))])
      else
        Obj(keys, GuardItems(guard, vals))
  }

  function GuardItems(guard: string -> string, ts: seq<Tree>): (r: seq<Tree>)
    ensures |r| == |ts|
    ensures forall i | 0 <= i < |r| :: r[i] == GuardTree(guard, ts[i])
  {
    if ts == [] then [] else [GuardTree(guard, ts[0])] + GuardItems(guard, ts[1..])
  }

  /** The texts the guard passes to the capping and redacting of one text, in order. */
  function Seen(t: Tree): seq<string> {
    match t
    case Leaf(_) => []
    case Txt(text) => [text]
    case Arr(items) => SeenAll(items)
    case Obj(keys, vals) => if HasText(t) then [vals[Find(keys, "text")].text] else SeenAll(vals)
  }

  function SeenAll(ts: seq<Tree>): seq<string> {
    if ts == [] then [] else Seen(ts[0]) + SeenAll(ts[1..])
  }

  /** All texts of a value, in order. */
  function Texts(t: Tree): seq<string> {
    match t
    case Leaf(_) => []
    case Txt(text) => [text]
    case Arr(items) => TextsAll(items)
    case Obj(_, vals) => TextsAll(vals)
  }

  function TextsAll(ts: seq<Tree>): seq<string> {
    if ts == [] then [] else Texts(ts[0]) + TextsAll(ts[1..])
  }

  /** A value without its texts: its shape, keys, lengths and other primitives. */
  function Shape(t: Tree): Tree {
    match t
    case Leaf(_) => t
    case Txt(_) => Txt("")
    case Arr(items) => Arr(ShapeAll(items))
    case Obj(keys, vals) => Obj(keys, ShapeAll(vals))
  }

  function ShapeAll(ts: seq<Tree>): (r: seq<Tree>)
    ensures |r| == |ts| && forall i | 0 <= i < |r| :: r[i] == Shape(ts[i])
  {
    if ts == [] then [] else [Shape(ts[0])] + ShapeAll(ts[1..])
  }

  function MapTexts(f: string -> string, texts: seq<string>): seq<string> {
    seq(|texts|, i requires 0 <= i < |texts| => f(texts[i]))
  }

  /** The guard keeps the shape of any value. */
  lemma {:induction false} GuardKeepsShape(guard: string -> string, t: Tree)
    ensures Shape(GuardTree(guard, t)) == Shape(t)
    decreases t
  {
    var ts := if t.Arr? then t.items else if t.Obj? then t.vals else [];
    forall i | 0 <= i < |ts| ensures Shape(GuardTree(guard, ts[i])) == Shape(ts[i]) {
      GuardKeepsShape(guard, ts[i]);
    }
    if t.Obj? && HasText(t) {
      assert ShapeAll(GuardTree(guard, t).vals) == ShapeAll(t.vals);
    } else if t.Arr? || t.Obj? {
      assert ShapeAll(GuardItems(guard, ts)) == ShapeAll(ts);
    }
  }

  lemma TextsOfCons(t: Tree, ts: seq<Tree>)
    ensures TextsAll([t] + ts) == Texts(t) + TextsAll(ts)
  {
    assert ([t] + ts)[1..] == ts;
  }

  lemma {:induction false} TextsAllConcat(a: seq<Tree>, b: seq<Tree>)
    ensures TextsAll(a + b) == TextsAll(a) + TextsAll(b)
  {
    if a == [] {
      assert a + b == b;
    } else {
      TextsAllConcat(a[1..], b);
      TextsOfCons(a[0], a[1..] + b);
      assert a + b == [a[0]] + (a[1..] + b);
    }
  }

  /** The texts of a list around a text in it. */
  lemma TextsAround(vals: seq<Tree>, i: nat)
    requires i < |vals| && vals[i].Txt?
    ensures TextsAll(vals) == TextsAll(vals[..i]) + [vals[i].text] + TextsAll(vals[i + 1..])
  {
    TextsAllConcat(vals[..i], vals[i..]);
    assert vals == vals[..i] + vals[i..] && vals[i..][1..] == vals[i + 1..];
  }

  lemma TextsAroundNew(vals: seq<Tree>, i: nat, text: string)
    requires i < |vals|
    ensures TextsAll(vals[i := Txt(text)]) == TextsAll(vals[..i]) + [text] + TextsAll(vals[i + 1..])
  {
    var more := vals[i := Txt(text)];
    TextsAround(more, i);
    assert more[..i] == vals[..i] && more[i + 1..] == vals[i + 1..];
  }

  /** The texts of an object with a string `text`, before and after. */
  lemma TextsOfTextObject(guard: string -> string, t: Tree) returns (before: seq<string>, text: string, after: seq<string>)
    requires HasText(t)
    ensures Texts(t) == before + [text] + after && Seen(t) == [text]
    ensures Texts(GuardTree(guard, t)) == before + [guard(text)] + after
  {
    var i := Find(t.keys, "text");
    before, text, after := TextsAll(t.vals[..i]), t.vals[i].text, TextsAll(t.vals[i + 1..]);
    TextsAround(t.vals, i);
    TextsAroundNew(t.vals, i, guard(text));
  }

  /** `outs` are the texts with the seen ones replaced by their guarded forms. */
  predicate Replaced(guard: string -> string, outs: seq<string>, seen: seq<string>, texts: seq<string>) {
    multiset(outs) + multiset(seen) == multiset(texts) + multiset(MapTexts(guard, seen))
  }

  /** The texts come out again with exactly those seen replaced, for any value and any guard. */
  lemma {:induction false} OnlySeenTextsChange(guard: string -> string, t: Tree)
    ensures Replaced(guard, Texts(GuardTree(guard, t)), Seen(t), Texts(t))
    decreases t
  {
    match t
    case Leaf(_) =>
    case Txt(text) => assert MapTexts(guard, [text]) == [guard(text)];
    case Arr(items) => OnlySeenChange(guard, items);
    case Obj(_, vals) =>
      if HasText(t) {
        var before, text, after := TextsOfTextObject(guard, t);
        OneReplaced(guard, before, text, after);
      } else {
        OnlySeenChange(guard, vals);
      }
  }

  lemma {:induction false} OnlySeenChange(guard: string -> string, ts: seq<Tree>)
    ensures Replaced(guard, TextsAll(GuardItems(guard, ts)), SeenAll(ts), TextsAll(ts))
    decreases ts
  {
    if ts == [] {
      assert GuardItems(guard, ts) == [] && MapTexts(guard, []) == [];
    } else {
      OnlySeenTextsChange(guard, ts[0]);
      OnlySeenChange(guard, ts[1..]);
      TextsOfCons(GuardTree(guard, ts[0]), GuardItems(guard, ts[1..]));
      BothReplaced(guard, Texts(GuardTree(guard, ts[0])), Seen(ts[0]), Texts(ts[0]),
                   TextsAll(GuardItems(guard, ts[1..])), SeenAll(ts[1..]), TextsAll(ts[1..]));
    }
  }

  lemma OneReplaced(guard: string -> string, before: seq<string>, text: string, after: seq<string>)
    ensures Replaced(guard, before + [guard(text)] + after, [text], before + [text] + after)
  {
    assert MapTexts(guard, [text]) == [guard(text)];
  }

  lemma BothReplaced(guard: string -> string, outs: seq<string>, seen: seq<string>, texts: seq<string>,
                     outs': seq<string>, seen': seq<string>, texts': seq<string>)
    requires Replaced(guard, outs, seen, texts) && Replaced(guard, outs', seen', texts')
    ensures Replaced(guard, outs + outs', seen + seen', texts + texts')
  {
    MapTextsConcat(guard, seen, seen');
    assert multiset(outs + outs') + multiset(seen + seen') ==
           (multiset(outs) + multiset(seen)) + (multiset(outs') + multiset(seen'));
    assert multiset(texts + texts') + multiset(MapTexts(guard, seen + seen')) ==
           (multiset(texts) + multiset(MapTexts(guard, seen))) + (multiset(texts') + multiset(MapTexts(guard, seen')));
  }

  lemma MapTextsConcat(f: string -> string, a: seq<string>, b: seq<string>)
    ensures MapTexts(f, a + b) == MapTexts(f, a) + MapTexts(f, b)
  {
  }

  // ---------------------------------------------------------------- when no raw text is left

  /** Every text of the value comes out guarded, in its place, whatever the guard. */
  ghost predicate GuardsEveryText(t: Tree) {
    forall guard: string -> string :: Texts(GuardTree(guard, t)) == MapTexts(guard, Texts(t))
  }

  /** A string `text` is the only text of its object. */
  predicate TextsAlone(t: Tree) {
    match t
    case Arr(items) => forall i | 0 <= i < |items| :: TextsAlone(items[i])
    case Obj(_, vals) =>
      if HasText(t) then |TextsAll(vals)| == 1 else forall i | 0 <= i < |vals| :: TextsAlone(vals[i])
    case _ => true
  }

  lemma {:induction false} SeenCount(t: Tree)
    ensures |Seen(t)| <= |Texts(t)|
    ensures |Seen(t)| == |Texts(t)| <==> TextsAlone(t)
    ensures TextsAlone(t) ==> Seen(t) == Texts(t)
    decreases t
  {
    if t.Arr? {
      SeenAllCount(t.items);
    } else if t.Obj? && HasText(t) {
      var before, text, after := TextsOfTextObject(x => x, t);
    } else if t.Obj? {
      SeenAllCount(t.vals);
    }
  }

  lemma {:induction false} SeenAllCount(ts: seq<Tree>)
    ensures |SeenAll(ts)| <= |TextsAll(ts)|
    ensures |SeenAll(ts)| == |TextsAll(ts)| <==> forall i | 0 <= i < |ts| :: TextsAlone(ts[i])
    ensures (forall i | 0 <= i < |ts| :: TextsAlone(ts[i])) ==> SeenAll(ts) == TextsAll(ts)
    decreases ts
  {
    if ts != [] {
      SeenCount(ts[0]);
      SeenAllCount(ts[1..]);
      assert (forall i | 0 <= i < |ts| :: TextsAlone(ts[i])) <==>
             TextsAlone(ts[0]) && forall i | 0 <= i < |ts[1..]| :: TextsAlone(ts[1..][i]) by {
        assert forall i | 0 <= i < |ts[1..]| :: ts[1..][i] == ts[i + 1];
      }
    }
  }

  lemma {:induction false} AloneIsGuarded(guard: string -> string, t: Tree)
    requires TextsAlone(t)
    ensures Texts(GuardTree(guard, t)) == MapTexts(guard, Texts(t))
    decreases t
  {
    if t.Arr? {
      AllAloneAreGuarded(guard, t.items);
    } else if t.Obj? && HasText(t) {
      var before, text, after := TextsOfTextObject(guard, t);
      assert before == after == [];
    } else if t.Obj? {
      AllAloneAreGuarded(guard, t.vals);
    }
  }

  lemma {:induction false} AllAloneAreGuarded(guard: string -> string, ts: seq<Tree>)
    requires forall i | 0 <= i < |ts| :: TextsAlone(ts[i])
    ensures TextsAll(GuardItems(guard, ts)) == MapTexts(guard, TextsAll(ts))
    decreases ts
  {
    if ts != [] {
      AloneIsGuarded(guard, ts[0]);
      AllAloneAreGuarded(guard, ts[1..]);
      MapTextsConcat(guard, Texts(ts[0]), TextsAll(ts[1..]));
      TextsOfCons(GuardTree(guard, ts[0]), GuardItems(guard, ts[1..]));
    }
  }

  function Total(texts: seq<string>): nat {
    if texts == [] then 0 else |texts[0]| + Total(texts[1..])
  }

  lemma {:induction false} TotalConcat(a: seq<string>, b: seq<string>)
    ensures Total(a + b) == Total(a) + Total(b)
  {
    if a == [] {
      assert a + b == b;
    } else {
      TotalConcat(a[1..], b);
      assert (a + b)[1..] == a[1..] + b;
    }
  }

  /** A guard that leaves a trace in each text it gets. */
  function Stamp(): string -> string {
    text => text + "!"
  }

  lemma {:induction false} StampedTexts(texts: seq<string>)
    ensures Total(MapTexts(Stamp(), texts)) == Total(texts) + |texts|
  {
    if texts != [] {
      StampedTexts(texts[1..]);
      assert MapTexts(Stamp(), texts)[1..] == MapTexts(Stamp(), texts[1..]);
    }
  }

  lemma {:induction false} StampCounts(t: Tree)
    ensures Total(Texts(GuardTree(Stamp(), t))) == Total(Texts(t)) + |Seen(t)|
    decreases t
  {
    if t.Arr? {
      StampCountsAll(t.items);
    } else if t.Obj? && HasText(t) {
      var before, text, after := TextsOfTextObject(Stamp(), t);
      TotalAround(before, text, after);
      TotalAround(before, text + "!", after);
    } else if t.Obj? {
      StampCountsAll(t.vals);
    }
  }

  lemma TotalAround(before: seq<string>, text: string, after: seq<string>)
    ensures Total(before + [text] + after) == Total(before) + |text| + Total(after)
  {
    TotalConcat(before + [text], after);
    TotalConcat(before, [text]);
  }

  lemma {:induction false} StampCountsAll(ts: seq<Tree>)
    ensures Total(TextsAll(GuardItems(Stamp(), ts))) == Total(TextsAll(ts)) + |SeenAll(ts)|
    decreases ts
  {
    if ts != [] {
      StampCounts(ts[0]);
      StampCountsAll(ts[1..]);
      TextsOfCons(GuardTree(Stamp(), ts[0]), GuardItems(Stamp(), ts[1..]));
      TotalConcat(Texts(GuardTree(Stamp(), ts[0])), TextsAll(GuardItems(Stamp(), ts[1..])));
      TotalConcat(Texts(ts[0]), TextsAll(ts[1..]));
    }
  }

  /** No text of a value gets past the guard exactly when the guard sees them all, which is when
      every string `text` is the only text of its object. */
  lemma EveryTextIsGuardedIff(t: Tree)
    ensures GuardsEveryText(t) <==> Seen(t) == Texts(t)
    ensures GuardsEveryText(t) <==> TextsAlone(t)
  {
    SeenCount(t);
    if TextsAlone(t) {
      forall guard: string -> string ensures Texts(GuardTree(guard, t)) == MapTexts(guard, Texts(t)) {
        AloneIsGuarded(guard, t);
      }
    }
    if GuardsEveryText(t) {
      assert Texts(GuardTree(Stamp(), t)) == MapTexts(Stamp(), Texts(t));
      StampCounts(t);
      StampedTexts(Texts(t));
    }
  }

  /** Beside a string `text`, a text of any length reaches the host as it was. */
  lemma SiblingStaysRaw(guard: string -> string, text: string, raw: string)
    ensures var t := Obj(["text", "raw"], [Txt(text), Txt(raw)]);
            raw in Texts(GuardTree(guard, t)) && !GuardsEveryText(t)
  {
    var vals := [Txt(text), Txt(raw)];
    var t := Obj(["text", "raw"], vals);
    TextsAround(vals, 0);
    TextsAround(vals[1..], 0);
    EveryTextIsGuardedIff(t);
    TextsAround(GuardTree(guard, t).vals, 1);
  }

  /** The guard depends on its function only through the texts it sees. */
  lemma {:induction false} GuardSeesOnly(f: string -> string, g: string -> string, t: Tree)
    requires forall text | text in Seen(t) :: f(text) == g(text)
    ensures GuardTree(f, t) == GuardTree(g, t)
    decreases t
  {
    if t.Arr? {
      AllSeeOnly(f, g, t.items);
    } else if t.Obj? && !HasText(t) {
      AllSeeOnly(f, g, t.vals);
    }
  }

  lemma {:induction false} AllSeeOnly(f: string -> string, g: string -> string, ts: seq<Tree>)
    requires forall text | text in SeenAll(ts) :: f(text) == g(text)
    ensures GuardItems(f, ts) == GuardItems(g, ts)
    decreases ts
  {
    if ts != [] {
      GuardSeesOnly(f, g, ts[0]);
      AllSeeOnly(f, g, ts[1..]);
    }
  }

  /** Redactors that agree on the capped forms of the texts seen guard a value alike: nothing
      else ever reaches the redactor. */
  lemma RedactorGetsOnlyCappedTexts(redact: Redactor, redact': Redactor, t: Tree)
    requires forall text | text in Seen(t) :: redact(Cap(text)) == redact'(Cap(text))
    ensures GuardTree(TextGuard(redact), t) == GuardTree(TextGuard(redact'), t)
  {
    forall text | text in Seen(t) ensures TextGuard(redact)(text) == TextGuard(redact')(text) {
      assert redact(Cap(text)) == redact'(Cap(text));
    }
    GuardSeesOnly(TextGuard(redact), TextGuard(redact'), t);
  }

  /** So no string over the bound ever does, cut down or not. */
  lemma RedactorGetsNothingLonger(redact: Redactor, redact': Redactor, t: Tree)
    requires forall text | text in Seen(t) :: |text| <= MAX_LENGTH
    requires forall asked: string | |asked| <= MAX_CAPPED :: redact(asked) == redact'(asked)
    ensures GuardTree(TextGuard(redact), t) == GuardTree(TextGuard(redact'), t)
  {
    forall text | text in Seen(t) ensures redact(Cap(text)) == redact'(Cap(text)) {
      CappedIsBounded(text);
    }
    RedactorGetsOnlyCappedTexts(redact, redact', t);
  }

  // ---------------------------------------------------------------- what the host keeps

  /** The redactor answers every text with one that does not contain the secret. */
  ghost predicate Redacts(redact: Redactor, secret: string) {
    secret != "" && forall asked: string | asked != "" ::
      redact(asked).Some? && redact(asked).value != "" && !Includes(redact(asked).value, secret)
  }

  /** The texts of a value that the guard does not see. */
  function Unseen(t: Tree): multiset<string> {
    multiset(Texts(t)) - multiset(Seen(t))
  }

  lemma RedactedIsFree(redact: Redactor, secret: string, text: string)
    requires Redacts(redact, secret)
    ensures !Includes(GuardText(redact, text), secret)
  {
    if text == "" {
      assert forall i: nat | i <= |text| :: !MatchesAt(text, secret, i);
    } else {
      assert Cap(text) != "";
    }
  }

  lemma MappedIsFree(redact: Redactor, secret: string, seen: seq<string>)
    requires Redacts(redact, secret)
    ensures forall text | text in MapTexts(TextGuard(redact), seen) :: !Includes(text, secret)
  {
    forall text | text in MapTexts(TextGuard(redact), seen) ensures !Includes(text, secret) {
      var i :| 0 <= i < |seen| && text == TextGuard(redact)(seen[i]);
      RedactedIsFree(redact, secret, seen[i]);
    }
  }

  lemma ComesFrom(outs: seq<string>, seen: seq<string>, texts: seq<string>, mapped: seq<string>, x: string)
    requires multiset(outs) + multiset(seen) == multiset(texts) + multiset(mapped)
    requires multiset(seen) <= multiset(texts)
    ensures x in outs <==> x in multiset(texts) - multiset(seen) || x in mapped
  {
    assert (multiset(outs) + multiset(seen))[x] == (multiset(texts) + multiset(mapped))[x];
    assert multiset(seen)[x] <= multiset(texts)[x];
    assert x in outs <==> multiset(outs)[x] > 0;
    assert x in mapped <==> multiset(mapped)[x] > 0;
  }

  /** With such a redactor a secret is left in the guarded value if and only if a text that the
      guard does not see contains it. */
  lemma SecretIsLeftIff(redact: Redactor, secret: string, t: Tree)
    requires Redacts(redact, secret)
    ensures (exists text :: text in Texts(GuardTree(TextGuard(redact), t)) && Includes(text, secret)) <==>
            exists text :: text in Unseen(t) && Includes(text, secret)
  {
    var outs, seen := Texts(GuardTree(TextGuard(redact), t)), Seen(t);
    var mapped := MapTexts(TextGuard(redact), seen);
    OnlySeenTextsChange(TextGuard(redact), t);
    SeenAmongTexts(t);
    MappedIsFree(redact, secret, seen);
    forall text ensures text in outs <==> text in Unseen(t) || text in mapped {
      ComesFrom(outs, seen, Texts(t), mapped, text);
    }
  }

  lemma {:induction false} SeenAmongTexts(t: Tree)
    ensures multiset(Seen(t)) <= multiset(Texts(t))
    decreases t
  {
    if t.Arr? {
      AllSeenAmongTexts(t.items);
    } else if t.Obj? && HasText(t) {
      var before, text, after := TextsOfTextObject(x => x, t);
    } else if t.Obj? {
      AllSeenAmongTexts(t.vals);
    }
  }

  lemma {:induction false} AllSeenAmongTexts(ts: seq<Tree>)
    ensures multiset(SeenAll(ts)) <= multiset(TextsAll(ts))
    decreases ts
  {
    if ts != [] {
      SeenAmongTexts(ts[0]);
      AllSeenAmongTexts(ts[1..]);
    }
  }

  /** So where every string `text` is the only text of its object no secret is left. */
  lemma NoSecretIsLeft(redact: Redactor, secret: string, t: Tree)
    requires Redacts(redact, secret) && TextsAlone(t)
    ensures forall text | text in Texts(GuardTree(TextGuard(redact), t)) :: !Includes(text, secret)
  {
    SecretIsLeftIff(redact, secret, t);
    SeenCount(t);
    assert Unseen(t) == multiset{};
  }

  lemma {:induction false} IdentityGuards(t: Tree)
    ensures GuardTree(text => text, t) == t
    decreases t
  {
    var ts := if t.Arr? then t.items else if t.Obj? then t.vals else [];
    forall i | 0 <= i < |ts| ensures GuardTree(text => text, ts[i]) == ts[i] {
      IdentityGuards(ts[i]);
    }
    assert GuardItems(text => text, ts) == ts;
  }

  /** Where the redactor has nothing to say about texts within the cap, the value stays as it is. */
  lemma QuietRedactorChangesNothing(redact: Redactor, t: Tree)
    requires forall text | text in Seen(t) :: |text| <= 262144 && (redact(text).None? || redact(text).value == "")
    ensures GuardTree(TextGuard(redact), t) == t
  {
    forall text | text in Seen(t) ensures TextGuard(redact)(text) == text {
      ShortTextComesOut(redact, text);
    }
    var same: string -> string := text => text;
    GuardSeesOnly(TextGuard(redact), same, t);
    IdentityGuards(t);
  }

  // ---------------------------------------------------------------- the heap

  /** The value of an own property. */
  function Property(keys: seq<string>, vals: seq<Value>, key: string): Option<Value>
    requires |keys| == |vals|
  {
    var i := Find(keys, key);
    if i < |keys| then Some(vals[i]) else None
  }

  lemma PropertyAt(keys: seq<string>, vals: seq<Value>, i: nat)
    requires |keys| == |vals| && DistinctKeys(keys) && i < |keys|
    ensures Find(keys, keys[i]) == i && Property(keys, vals, keys[i]) == Some(vals[i])
  {
  }

  datatype Value = Prim(token: nat) | Str(text: string) | Ref(o: JsObject)

  /** An array, or an object with own `keys`; `vals` are the elements or the property values.
      `rank` certifies that the value is acyclic: children rank lower. */
  class JsObject {
    const isArray: bool
    var keys: seq<string>
    var vals: seq<Value>
    ghost const rank: nat

    constructor (isArray: bool, keys: seq<string>, vals: seq<Value>, ghost rank: nat)
      ensures this.isArray == isArray && this.keys == keys && this.vals == vals && this.rank == rank
    {
      this.isArray, this.keys, this.vals, this.rank := isArray, keys, vals, rank;
    }

    /** `delete this[key]` */
    method Delete(key: string)
      requires |keys| == |vals| && DistinctKeys(keys)
      modifies this
      ensures |keys| == |vals| && DistinctKeys(keys)
      ensures key !in old(keys) ==> keys == old(keys) && vals == old(vals)
      ensures forall k | k != key :: Property(keys, vals, k) == old(Property(keys, vals, k))
      ensures key !in keys
    {
      var i := Find(keys, key);
      if i < |keys| {
        ghost var ks, vs := keys, vals;
        keys, vals := keys[..i] + keys[i + 1..], vals[..i] + vals[i + 1..];
        forall k | k != key ensures Property(keys, vals, k) == Property(ks, vs, k) {
          if k in keys {
            var j := Find(keys, k);
            PropertyAt(keys, vals, j);
            PropertyAt(ks, vs, if j < i then j else j + 1);
          } else {
            assert k in ks ==> Find(ks, k) != i;
          }
        }
      }
    }

    /** `this[key] = value`: in place when the key is there, at the end otherwise. */
    method Put(key: string, value: Value)
      requires |keys| == |vals| && DistinctKeys(keys)
      modifies this
      ensures |keys| == |vals| && DistinctKeys(keys)
      ensures Property(keys, vals, key) == Some(value)
      ensures forall k | k != key :: Property(keys, vals, k) == old(Property(keys, vals, k))
      ensures key in old(keys) ==> keys == old(keys) && vals == old(vals)[Find(keys, key) := value]
    {
      var i := Find(keys, key);
      if i < |keys| {
        vals := vals[i := value];
      } else {
        ghost var ks, vs := keys, vals;
        keys, vals := keys + [key], vals + [value];
        PropertyAt(keys, vals, |ks|);
        forall k | k != key ensures Property(keys, vals, k) == Property(ks, vs, k) {
          if k in ks {
            PropertyAt(keys, vals, Find(ks, k));
          }
        }
      }
    }
  }

  ghost predicate Inside(v: Value, S: set<JsObject>) {
    v.Ref? ==> v.o in S
  }

  ghost predicate Children(vs: seq<Value>, rank: nat, S: set<JsObject>) {
    forall i | 0 <= i < |vs| && vs[i].Ref? :: vs[i].o in S && vs[i].o.rank < rank
  }

  ghost predicate DistinctKeys(keys: seq<string>) {
    forall i, j | 0 <= i < j < |keys| :: keys[i] != keys[j]
  }

  ghost predicate Node(o: JsObject, S: set<JsObject>)
    reads o
  {
    && Children(o.vals, o.rank, S)
    && (if o.isArray then o.keys == [] else |o.keys| == |o.vals| && DistinctKeys(o.keys))
  }

  ghost predicate Acyclic(S: set<JsObject>)
    reads S
  {
    forall o | o in S :: Node(o, S)
  }

  ghost function Deep(v: Value, S: set<JsObject>): Tree
    requires Acyclic(S) && Inside(v, S)
    reads S
    decreases if v.Ref? then v.o.rank + 1 else 0, 0
  {
    match v
    case Prim(token) => Leaf(token)
    case Str(text) => Txt(text)
    case Ref(o) =>
      assert Node(o, S);
      if o.isArray then Arr(DeepAll(o.vals, o.rank, S)) else Obj(o.keys, DeepAll(o.vals, o.rank, S))
  }

  ghost function DeepAll(vs: seq<Value>, rank: nat, S: set<JsObject>): (r: seq<Tree>)
    requires Acyclic(S) && Children(vs, rank, S)
    reads S
    ensures |r| == |vs|
    ensures forall i | 0 <= i < |r| :: Inside(vs[i], S) && r[i] == Deep(vs[i], S)
    decreases rank, |vs| + 1
  {
    if vs == [] then [] else [Deep(vs[0], S)] + DeepAll(vs[1..], rank, S)
  }

  /** The deep value of a value does not depend on objects it does not reach. */
  lemma {:induction false} DeepGrows(v: Value, S: set<JsObject>, T: set<JsObject>)
    requires Acyclic(S) && Acyclic(T) && S <= T && Inside(v, S)
    ensures Deep(v, S) == Deep(v, T)
    decreases if v.Ref? then v.o.rank + 1 else 0
  {
    if v.Ref? {
      var vs := v.o.vals;
      assert Node(v.o, S) && Node(v.o, T);
      forall i | 0 <= i < |vs| ensures Deep(vs[i], S) == Deep(vs[i], T) {
        DeepGrows(vs[i], S, T);
      }
      assert DeepAll(vs, v.o.rank, S) == DeepAll(vs, v.o.rank, T);
    }
  }

  /** A new object over `S` joins it. */
  lemma Joins(o: JsObject, S: set<JsObject>)
    requires Acyclic(S) && o !in S && Node(o, S)
    ensures Acyclic(S + {o})
  {
    forall p | p in S + {o} ensures Node(p, S + {o}) {
      assert p in S ==> Node(p, S);
    }
  }

  /** `outs` have the deep values that the guard makes of `ts`. */
  ghost predicate Guarded(guard: string -> string, outs: seq<Value>, ts: seq<Tree>, rank: nat, P: set<JsObject>)
    reads P
  {
    && |outs| == |ts| && Acyclic(P) && Children(outs, rank, P)
    && forall j | 0 <= j < |outs| :: Inside(outs[j], P) && Deep(outs[j], P) == GuardTree(guard, ts[j])
  }

  lemma GuardedGrows(
    guard: string -> string, outs: seq<Value>, ts: seq<Tree>, rank: nat, P: set<JsObject>, Q: set<JsObject>)
    requires Guarded(guard, outs, ts, rank, P) && P <= Q && Acyclic(Q)
    ensures Guarded(guard, outs, ts, rank, Q)
  {
    forall j | 0 <= j < |outs| ensures Deep(outs[j], Q) == GuardTree(guard, ts[j]) {
      DeepGrows(outs[j], P, Q);
    }
  }

  /** A new array or object whose values are guarded is itself guarded. */
  lemma Assemble(guard: string -> string, copy: JsObject, ts: seq<Tree>, P: set<JsObject>)
    requires Guarded(guard, copy.vals, ts, copy.rank, P) && copy !in P
    requires if copy.isArray then copy.keys == [] else |copy.keys| == |copy.vals| && DistinctKeys(copy.keys)
    ensures Acyclic(P + {copy})
    ensures Deep(Ref(copy), P + {copy}) ==
            if copy.isArray then Arr(GuardItems(guard, ts)) else Obj(copy.keys, GuardItems(guard, ts))
  {
    Joins(copy, P);
    GuardedGrows(guard, copy.vals, ts, copy.rank, P, P + {copy});
    assert DeepAll(copy.vals, copy.rank, P + {copy}) == GuardItems(guard, ts);
  }

  // ---------------------------------------------------------------- the guard

  /** `guardNativeToolOutput`: builds a guarded copy and changes no object that was there.
      `P` is `S` with the objects it allocated. */
  method Guard(v: Value, guard: string -> string, ghost S: set<JsObject>) returns (r: Value, ghost P: set<JsObject>)
    requires Acyclic(S) && Inside(v, S)
    ensures S <= P && fresh(P - S) && Acyclic(S) && Acyclic(P) && Inside(r, P)
    ensures v.Ref? <==> r.Ref?
    ensures v.Ref? ==> r.o.rank == v.o.rank && r.o.isArray == v.o.isArray && r.o.keys == v.o.keys
    ensures Deep(r, P) == GuardTree(guard, old(Deep(v, S)))
    decreases if v.Ref? then v.o.rank + 1 else 0, 0
  {
    P := S;
    match v {
      case Prim(_) => r := v;
      case Str(text) => r := Str(guard(text));
      case Ref(o) =>
        assert Node(o, S);
        if o.isArray {
          r, P := GuardArray(o, guard, S);
        } else {
          var i := Find(o.keys, "text");
          if i < |o.keys| && o.vals[i].Str? {
            r, P := GuardTextOf(o, i, guard, S);
          } else {
            r, P := GuardFields(o, guard, S);
          }
        }
    }
  }

  method GuardArray(o: JsObject, guard: string -> string, ghost S: set<JsObject>)
    returns (r: Value, ghost P: set<JsObject>)
    requires Acyclic(S) && o in S && o.isArray && Node(o, S)
    ensures S <= P && fresh(P - S) && Acyclic(S) && Acyclic(P) && Inside(r, P)
    ensures r.Ref? && r.o.rank == o.rank && r.o.isArray && r.o.keys == o.keys
    ensures Deep(r, P) == GuardTree(guard, old(Deep(Ref(o), S)))
    decreases o.rank, 2
  {
    ghost var ts := DeepAll(o.vals, o.rank, S);
    var mapped := [];
    P := S;
    for i := 0 to |o.vals|
      invariant S <= P && fresh(P - S) && Acyclic(S)
      invariant Guarded(guard, mapped, ts[..i], o.rank, P)
    {
      TakeOneMore(ts, i);
      var item;
      item, P := GuardNext(o.vals[i], guard, mapped, ts[..i], ts[i], o.rank, S, P);
      mapped := mapped + [item];
    }
    assert ts[..|o.vals|] == ts;
    var copy := new JsObject(true, [], mapped, o.rank);
    Assemble(guard, copy, ts, P);
    r, P := Ref(copy), P + {copy};
  }

  lemma TakeOneMore<T>(s: seq<T>, i: nat)
    requires i < |s|
    ensures s[..i] + [s[i]] == s[..i + 1]
  {
  }

  /** One round of either loop. */
  method GuardNext(v: Value, guard: string -> string, ghost done: seq<Value>, ghost ts: seq<Tree>, ghost t: Tree,
                   ghost rank: nat, ghost S: set<JsObject>, ghost P: set<JsObject>)
    returns (item: Value, ghost Q: set<JsObject>)
    requires Acyclic(S) && Inside(v, S) && S <= P && Guarded(guard, done, ts, rank, P)
    requires t == Deep(v, S) && (v.Ref? ==> v.o.rank < rank)
    ensures P <= Q && fresh(Q - P) && Acyclic(S)
    ensures Guarded(guard, done + [item], ts + [t], rank, Q)
    decreases if v.Ref? then v.o.rank + 1 else 0, 1
  {
    DeepGrows(v, S, P);
    item, Q := Guard(v, guard, P);
    GuardedGrows(guard, done, ts, rank, P, Q);
  }

  /** An object with a string `text`: the object itself when the text needs no change, else a
      shallow copy with the guarded text. */
  method GuardTextOf(o: JsObject, i: nat, guard: string -> string, ghost S: set<JsObject>)
    returns (r: Value, ghost P: set<JsObject>)
    requires Acyclic(S) && o in S && !o.isArray && Node(o, S)
    requires i == Find(o.keys, "text") < |o.keys| && o.vals[i].Str?
    ensures S <= P && fresh(P - S) && Acyclic(S) && Acyclic(P) && Inside(r, P)
    ensures r.Ref? && r.o.rank == o.rank && !r.o.isArray && r.o.keys == o.keys
    ensures Deep(r, P) == GuardTree(guard, old(Deep(Ref(o), S)))
  {
    var guarded := guard(o.vals[i].text);
    if guarded == o.vals[i].text {
      r, P := Ref(o), S;
    } else {
      var copy := new JsObject(false, o.keys, o.vals[i := Str(guarded)], o.rank);
      Joins(copy, S);
      forall j | 0 <= j < |o.vals| ensures Deep(o.vals[j], S + {copy}) == Deep(o.vals[j], S) {
        DeepGrows(o.vals[j], S, S + {copy});
      }
      r, P := Ref(copy), S + {copy};
    }
  }

  /** Any other object: a shallow copy whose values are then guarded one by one. */
  method GuardFields(o: JsObject, guard: string -> string, ghost S: set<JsObject>)
    returns (r: Value, ghost P: set<JsObject>)
    requires Acyclic(S) && o in S && !o.isArray && Node(o, S)
    requires var i := Find(o.keys, "text"); i < |o.keys| ==> !o.vals[i].Str?
    ensures S <= P && fresh(P - S) && Acyclic(S) && Acyclic(P) && Inside(r, P)
    ensures r.Ref? && r.o.rank == o.rank && !r.o.isArray && r.o.keys == o.keys
    ensures Deep(r, P) == GuardTree(guard, old(Deep(Ref(o), S)))
    decreases o.rank, 2
  {
    ghost var ts := DeepAll(o.vals, o.rank, S);
    var copy := new JsObject(false, o.keys, o.vals, o.rank);
    ghost var done := [];
    P := S;
    for i := 0 to |o.keys|
      invariant S <= P && fresh(P - S) && copy !in P && Acyclic(S)
      invariant copy.keys == o.keys && |copy.vals| == |o.vals| && |done| == i
      invariant forall j | 0 <= j < |o.vals| :: copy.vals[j] == if j < i then done[j] else o.vals[j]
      invariant Guarded(guard, done, ts[..i], o.rank, P)
    {
      TakeOneMore(ts, i);
      var item;
      item, P := GuardNext(copy.vals[i], guard, done, ts[..i], ts[i], o.rank, S, P);
      copy.vals, done := copy.vals[i := item], done + [item];
    }
    assert copy.vals == done && ts[..|o.keys|] == ts;
    Assemble(guard, copy, ts, P);
    r, P := Ref(copy), P + {copy};
  }

  // ---------------------------------------------------------------- writing back

  /** `applyGuardedOutputInPlace`: the host's object takes over the elements or properties of
      the guarded one; a primitive cannot be changed in place. */
  method ApplyInPlace(host: Value, guarded: Value) returns (r: Value)
    requires host.Ref? && !host.o.isArray ==> |host.o.keys| == |host.o.vals| && DistinctKeys(host.o.keys)
    requires guarded.Ref? && !guarded.o.isArray ==> |guarded.o.keys| == |guarded.o.vals| && DistinctKeys(guarded.o.keys)
    modifies if host.Ref? then {host.o} else {}
    ensures !host.Ref? || !guarded.Ref? || host.o.isArray != guarded.o.isArray ==>
              r == guarded && (host.Ref? ==> host.o.keys == old(host.o.keys) && host.o.vals == old(host.o.vals))
    ensures host.Ref? && guarded.Ref? && host.o.isArray == guarded.o.isArray ==> r == host
    ensures host.Ref? && guarded.Ref? && host.o.isArray && guarded.o.isArray ==>
              host.o.keys == old(host.o.keys) && host.o.vals == old(guarded.o.vals)
    ensures host.Ref? && guarded.Ref? && !host.o.isArray && !guarded.o.isArray ==>
              && |host.o.keys| == |host.o.vals| && DistinctKeys(host.o.keys)
              && (forall k :: Property(host.o.keys, host.o.vals, k) ==
                              old(Property(guarded.o.keys, guarded.o.vals, k)))
              && (old(host.o.keys) == old(guarded.o.keys) ==>
                    host.o.keys == old(host.o.keys) && host.o.vals == old(guarded.o.vals))
  {
    if guarded == host || !host.Ref? {
      return guarded;
    }
    if guarded.Ref? && host.o.isArray && guarded.o.isArray {
      ReplaceElements(host.o, guarded.o);
      return host;
    }
    if guarded.Ref? && !host.o.isArray && !guarded.o.isArray {
      DropMissing(host.o, guarded.o);
      AssignAll(host.o, guarded.o);
      return host;
    }
    return guarded;
  }

  method ReplaceElements(host: JsObject, guarded: JsObject)
    requires host != guarded
    modifies host
    ensures host.keys == old(host.keys) && host.vals == guarded.vals
  {
    host.vals := [];
    for i := 0 to |guarded.vals|
      invariant host.keys == old(host.keys) && host.vals == guarded.vals[..i]
    {
      host.vals := host.vals + [guarded.vals[i]];
    }
  }

  /** Deletes the properties that the guarded object does not have. */
  method DropMissing(host: JsObject, guarded: JsObject)
    requires host != guarded && |host.keys| == |host.vals| && DistinctKeys(host.keys)
    modifies host
    ensures |host.keys| == |host.vals| && DistinctKeys(host.keys)
    ensures forall k | k !in guarded.keys :: Property(host.keys, host.vals, k) == None
    ensures (forall k | k in old(host.keys) :: k in guarded.keys) ==>
              host.keys == old(host.keys) && host.vals == old(host.vals)
  {
    var keys := host.keys;
    for i := 0 to |keys|
      invariant |host.keys| == |host.vals| && DistinctKeys(host.keys)
      invariant forall k | k !in guarded.keys && k !in keys[i..] :: Property(host.keys, host.vals, k) == None
      invariant (forall k | k in keys :: k in guarded.keys) ==>
                  host.keys == old(host.keys) && host.vals == old(host.vals)
    {
      if keys[i] !in guarded.keys {
        host.Delete(keys[i]);
      }
    }
  }

  method AssignAll(host: JsObject, guarded: JsObject)
    requires host != guarded && |host.keys| == |host.vals| && DistinctKeys(host.keys)
    requires |guarded.keys| == |guarded.vals| && DistinctKeys(guarded.keys)
    requires forall k | k !in guarded.keys :: Property(host.keys, host.vals, k) == None
    modifies host
    ensures |host.keys| == |host.vals| && DistinctKeys(host.keys)
    ensures forall k :: Property(host.keys, host.vals, k) == Property(guarded.keys, guarded.vals, k)
    ensures old(host.keys) == guarded.keys ==> host.keys == guarded.keys && host.vals == guarded.vals
  {
    for i := 0 to |guarded.keys|
      invariant |host.keys| == |host.vals| && DistinctKeys(host.keys)
      invariant forall k | k !in guarded.keys :: Property(host.keys, host.vals, k) == None
      invariant forall j | 0 <= j < i :: Property(host.keys, host.vals, guarded.keys[j]) == Some(guarded.vals[j])
      invariant old(host.keys) == guarded.keys ==>
                  host.keys == guarded.keys && host.vals[..i] == guarded.vals[..i]
    {
      host.Put(guarded.keys[i], guarded.vals[i]);
      PropertyAt(guarded.keys, guarded.vals, i);
    }
    forall k ensures Property(host.keys, host.vals, k) == Property(guarded.keys, guarded.vals, k) {
      if k in guarded.keys {
        PropertyAt(guarded.keys, guarded.vals, Find(guarded.keys, k));
      }
    }
  }

  ghost function Below(P: set<JsObject>, rank: nat): set<JsObject> {
    set o | o in P && o.rank < rank
  }

  /** Lower ranks are a world of their own. */
  lemma BelowIsAcyclic(P: set<JsObject>, rank: nat)
    requires Acyclic(P)
    ensures Acyclic(Below(P, rank))
  {
    forall o | o in Below(P, rank) ensures Node(o, Below(P, rank)) {
      assert Node(o, P);
    }
  }

  lemma DeepBelow(vs: seq<Value>, rank: nat, P: set<JsObject>)
    requires Acyclic(P) && Acyclic(Below(P, rank)) && Children(vs, rank, P)
    ensures DeepAll(vs, rank, P) == DeepAll(vs, rank, Below(P, rank))
  {
    forall j | 0 <= j < |vs| ensures Deep(vs[j], P) == Deep(vs[j], Below(P, rank)) {
      DeepGrows(vs[j], Below(P, rank), P);
    }
  }

  /** The hook's call on a host output in the acyclic world `S`: the same reference comes back
      with the guarded deep value, and of the objects that were there only the host's changed. */
  method GuardHostOutput(host: Value, redact: Redactor, ghost S: set<JsObject>)
    returns (r: Value, ghost P: set<JsObject>)
    requires Acyclic(S) && Inside(host, S)
    modifies if host.Ref? then {host.o} else {}
    ensures S <= P && fresh(P - S) && Acyclic(P) && Inside(r, P)
    ensures host.Ref? ==> r == host
    ensures Deep(r, P) == GuardTree(TextGuard(redact), old(Deep(host, S)))
    ensures forall secret | Redacts(redact, secret) && TextsAlone(old(Deep(host, S))) ::
              forall text | text in Texts(Deep(r, P)) :: !Includes(text, secret)
  {
    var guarded;
    ghost var before := Deep(host, S);
    forall secret | Redacts(redact, secret) && TextsAlone(before)
      ensures forall text | text in Texts(GuardTree(TextGuard(redact), before)) :: !Includes(text, secret)
    {
      NoSecretIsLeft(redact, secret, before);
    }
    guarded, P := Guard(host, TextGuard(redact), S);
    if host.Ref? {
      r := WriteBack(host, guarded, P);
    } else {
      r := ApplyInPlace(host, guarded);
    }
  }

  method WriteBack(host: Value, guarded: Value, ghost P: set<JsObject>) returns (r: Value)
    requires Acyclic(P) && host.Ref? && guarded.Ref? && host.o in P && guarded.o in P
    requires host.o.rank == guarded.o.rank && host.o.isArray == guarded.o.isArray && host.o.keys == guarded.o.keys
    modifies host.o
    ensures r == host && Acyclic(P) && Deep(host, P) == old(Deep(guarded, P))
  {
    assert Node(host.o, P) && Node(guarded.o, P);
    ghost var vs, rank := guarded.o.vals, host.o.rank;
    BelowIsAcyclic(P, rank);
    DeepBelow(vs, rank, P);
    r := ApplyInPlace(host, guarded);
    forall o | o in P ensures Node(o, P) {
      assert old(Node(o, P));
    }
    DeepBelow(vs, rank, P);
  }
}
