/** The TOML line tokenizer: what each of its patterns matches, one call of `token`, and a
    whole line, against a quote automaton that reads one character at a time. */
module TomlLexer {
  import opened Text

  datatype Style =
    | Keyword | StringStyle | LineComment | Heading | PropertyName | Punctuation
    | Bool | Number | SquareBracket | Plain

  /** None outside a string, else the quote that opened it. */
  type Quote = Option<char>

  predicate IsQuote(c: char) {
    c == '"' || c == '\''
  }

  predicate IsLetter(c: char) {
    'a' <= c <= 'z' || 'A' <= c <= 'Z'
  }

  predicate IsDigit(c: char) {
    '0' <= c <= '9'
  }

  predicate IsWord(c: char) {
    IsLetter(c) || IsDigit(c) || c == '_'
  }

  predicate IsNamePart(c: char) {
    IsWord(c) || c == '.' || c == '-'
  }

  predicate IsClosing(c: char) {
    c == ']'
  }

  /** `\b` after a word character. */
  predicate Boundary(s: string, i: nat) {
    i >= |s| || !IsWord(s[i])
  }

  /** How many characters from `i` on satisfy `p` without a gap. */
  function Run(s: string, i: nat, p: char -> bool): (n: nat)
    requires i <= |s|
    ensures i + n <= |s|
    decreases |s| - i
  {
    if i < |s| && p(s[i]) then 1 + Run(s, i + 1, p) else 0
  }

  lemma {:induction false} RunIsLongest(s: string, i: nat, p: char -> bool)
    requires i <= |s|
    ensures forall k | i <= k < i + Run(s, i, p) :: p(s[k])
    ensures i + Run(s, i, p) < |s| ==> !p(s[i + Run(s, i, p)])
    decreases |s| - i
  {
    if i < |s| && p(s[i]) {
      RunIsLongest(s, i + 1, p);
    }
  }

  function Lower(c: char): char {
    if 'A' <= c <= 'Z' then c - 'A' + 'a' else c
  }

  /** "aidocs" stands at `i`, ASCII case aside. */
  predicate AidocsAt(s: string, i: nat) {
    && i + 6 <= |s| && Lower(s[i]) == 'a' && Lower(s[i + 1]) == 'i' && Lower(s[i + 2]) == 'd'
    && Lower(s[i + 3]) == 'o' && Lower(s[i + 4]) == 'c' && Lower(s[i + 5]) == 's'
  }

  /** "mcp" stands at `i`, ASCII case aside. */
  predicate McpAt(s: string, i: nat) {
    i + 3 <= |s| && Lower(s[i]) == 'm' && Lower(s[i + 1]) == 'c' && Lower(s[i + 2]) == 'p'
  }

  predicate IsTrue(s: string) {
    |s| >= 4 && s[0] == 't' && s[1] == 'r' && s[2] == 'u' && s[3] == 'e'
  }

  predicate IsFalse(s: string) {
    |s| >= 5 && s[0] == 'f' && s[1] == 'a' && s[2] == 'l' && s[3] == 's' && s[4] == 'e'
  }

  // The match lengths of the patterns at the start of `s`; 0 where there is no match.

  /** Where the keyword proper starts: after a slash, if there is one. */
  function AfterSlash(s: string): nat {
    if s != [] && s[0] == '/' then 1 else 0
  }

  // `/^\/?aidocs(\s+mcp)?\b/i`
  function AidocsLen(s: string): (n: nat)
    ensures n <= |s|
  {
    var i := AfterSlash(s);
    if !AidocsAt(s, i) then 0
    else
      var w := Run(s, i + 6, IsSpace);
      if w > 0 && McpAt(s, i + 6 + w) && Boundary(s, i + 6 + w + 3) then i + 6 + w + 3
      else if Boundary(s, i + 6) then i + 6
      else 0
  }

  // `/^\[+[^\]]*\]+/`
  function HeadingLen(s: string): (n: nat)
    ensures n <= |s|
  {
    var k := First(s, ']');
    if s == [] || s[0] != '[' || k == |s| then 0 else k + Run(s, k, IsClosing)
  }

  // `/^[a-zA-Z_][a-zA-Z0-9_.-]*/`
  function PropertyLen(s: string): (n: nat)
    ensures n <= |s|
  {
    if s == [] || !(IsLetter(s[0]) || s[0] == '_') then 0 else 1 + Run(s, 1, IsNamePart)
  }

  // `/^(true|false)\b/`
  function BoolLen(s: string): (n: nat)
    ensures n <= |s|
  {
    if IsTrue(s) && Boundary(s, 4) then 4
    else if IsFalse(s) && Boundary(s, 5) then 5
    else 0
  }

  // `/^-?\d+(\.\d+)?/`
  function NumberLen(s: string): (n: nat)
    ensures n <= |s|
  {
    var i := AfterMinus(s);
    var d := Run(s, i, IsDigit);
    if d == 0 then 0 else i + d + FractionLen(s, i + d)
  }

  function AfterMinus(s: string): (i: nat)
    ensures i <= |s|
  {
    if s != [] && s[0] == '-' then 1 else 0
  }

  /** A point and digits at `j`, or nothing. */
  function FractionLen(s: string, j: nat): (n: nat)
    requires j <= |s|
    ensures j + n <= |s|
  {
    if j < |s| && s[j] == '.' then
      var d := Run(s, j + 1, IsDigit);
      if d > 0 then 1 + d else 0
    else 0
  }

  /** The keyword matches exactly when "aidocs", after at most one slash, ends at a word boundary;
      the optional " mcp" decides only how long the match is, and it too ends at a boundary. */
  lemma KeywordMatches(s: string)
    ensures var i := AfterSlash(s);
            && (AidocsLen(s) > 0 <==> AidocsAt(s, i) && Boundary(s, i + 6))
            && (AidocsLen(s) > 0 ==> AidocsLen(s) >= i + 6 && Boundary(s, AidocsLen(s)))
  {
    if AidocsAt(s, AfterSlash(s)) {
      RunIsLongest(s, AfterSlash(s) + 6, IsSpace);
    }
  }

  /** "mcp" stands at `m`, spaces only between it and the keyword, and a word ends after it. */
  ghost predicate McpFollows(s: string, m: nat) {
    && AfterSlash(s) + 6 < m <= |s| && McpAt(s, m) && Boundary(s, m + 3)
    && forall k | AfterSlash(s) + 6 <= k < m :: IsSpace(s[k])
  }

  /** The match takes " mcp" whenever that follows, and nothing else beyond the keyword. */
  lemma KeywordTakesMcp(s: string, m: nat)
    requires AidocsLen(s) > 0
    ensures McpFollows(s, m) ==> AidocsLen(s) == m + 3
    ensures AidocsLen(s) == AfterSlash(s) + 6 || (AidocsLen(s) > 3 && McpFollows(s, AidocsLen(s) - 3))
  {
    var i := AfterSlash(s) + 6;
    RunIsLongest(s, i, IsSpace);
    if McpFollows(s, m) {
      McpIsNoSpace(s, m);
      RunIs(s, i, IsSpace, m);
    }
  }

  lemma McpIsNoSpace(s: string, m: nat)
    requires McpAt(s, m)
    ensures !IsSpace(s[m])
  {
  }

  lemma {:induction false} RunIs(s: string, i: nat, p: char -> bool, m: nat)
    requires i <= m <= |s| && (forall k | i <= k < m :: p(s[k])) && (m < |s| ==> !p(s[m]))
    ensures Run(s, i, p) == m - i
    decreases m - i
  {
    if i < m {
      RunIs(s, i + 1, p, m);
    }
  }

  /** A number is an optional minus and at least one digit; it ends with a digit, no digit
      follows it, and a point with a digit after it is not left behind. */
  lemma NumberMatches(s: string)
    ensures var n := NumberLen(s);
            && (n > 0 <==> s != [] && (IsDigit(s[0]) || (|s| > 1 && s[0] == '-' && IsDigit(s[1]))))
            && (n > 0 ==> IsDigit(s[n - 1]) && (n < |s| ==> !IsDigit(s[n])))
            && (n > 0 && n + 1 < |s| && s[n] == '.' && IsDigit(s[n + 1]) ==>
                  exists k | 0 <= k < n :: s[k] == '.')
  {
    var i := AfterMinus(s);
    var j := i + Run(s, i, IsDigit);
    RunIsLongest(s, i, IsDigit);
    if j < |s| {
      RunIsLongest(s, j + 1, IsDigit);
    }
  }

  /** Digits from `i` to `j`, and up to `n` nothing, or a point and more digits. */
  ghost predicate DigitsAround(s: string, i: nat, j: nat, n: nat) {
    && i < j <= n <= |s|
    && (forall k | i <= k < j :: IsDigit(s[k]))
    && (j < n ==> s[j] == '.' && j + 1 < n && forall k | j < k < n :: IsDigit(s[k]))
  }

  /** And it is made of digits, after the minus, with at most one point that has digits around it. */
  lemma NumberText(s: string)
    requires NumberLen(s) > 0
    ensures var i, n := if s[0] == '-' then 1 else 0, NumberLen(s);
            exists j | i < j <= n :: DigitsAround(s, i, j, n)
  {
    var i := AfterMinus(s);
    var j := i + Run(s, i, IsDigit);
    RunIsLongest(s, i, IsDigit);
    if j < |s| {
      RunIsLongest(s, j + 1, IsDigit);
    }
    assert DigitsAround(s, i, j, NumberLen(s));
  }

  /** A property name starts with a letter or underscore and takes every name character. */
  lemma PropertyMatches(s: string)
    ensures var n := PropertyLen(s);
            && (n > 0 <==> s != [] && (IsLetter(s[0]) || s[0] == '_'))
            && (forall k | 0 < k < n :: IsNamePart(s[k]))
            && (0 < n < |s| ==> !IsNamePart(s[n]))
  {
    if s != [] {
      RunIsLongest(s, 1, IsNamePart);
    }
  }

  /** A heading is an opening bracket with a closing one somewhere after it, and ends with the
      whole first run of closing brackets. */
  lemma HeadingMatches(s: string)
    ensures var n := HeadingLen(s);
            && (n > 0 <==> s != [] && s[0] == '[' && ']' in s)
            && (n > 0 ==> s[n - 1] == ']' && (n < |s| ==> s[n] != ']'))
            && forall i, j | 0 <= i <= j < n && s[i] == ']' :: s[j] == ']'
  {
    var k := First(s, ']');
    FirstIsFirst(s, ']');
    RunIsLongest(s, k, IsClosing);
    if k < |s| {
      assert IsClosing(s[k]) && Run(s, k, IsClosing) > 0;
      assert forall j | k <= j < k + Run(s, k, IsClosing) :: IsClosing(s[j]);
    }
  }

  /** One token: how far the stream moves, its style, and the state after it. */
  datatype Token = Token(len: nat, style: Style, quote: Quote)

  /** `token` on the rest `s` of a line, which is never empty; `sol` at the line's start. */
  function Next(s: string, sol: bool, quote: Quote): (t: Token)
    requires s != []
    ensures 0 < t.len <= |s|
  {
    if quote.Some? then
      if AidocsLen(s) > 0 then Token(AidocsLen(s), Keyword, quote)
      else if s[0] == quote.value then Token(1, StringStyle, None)
      else Token(1, StringStyle, quote)
    else if sol && s[0] == '#' then Token(|s|, LineComment, None)
    else if sol && HeadingLen(s) > 0 then Token(HeadingLen(s), Heading, None)
    else if sol && PropertyLen(s) > 0 then Token(PropertyLen(s), PropertyName, None)
    else if s[0] == '=' then Token(1, Punctuation, None)
    else if IsQuote(s[0]) then Token(1, StringStyle, Some(s[0]))
    else if BoolLen(s) > 0 then Token(BoolLen(s), Bool, None)
    else if NumberLen(s) > 0 then Token(NumberLen(s), Number, None)
    else if s[0] == '[' || s[0] == ']' then Token(1, SquareBracket, None)
    else if s[0] == ',' || s[0] == '{' || s[0] == '}' then Token(1, Punctuation, None)
    else if AidocsLen(s) > 0 then Token(AidocsLen(s), Keyword, None)
    else Token(1, Plain, None)
  }

  /** How the two words are spelled. */
  lemma Spelling(s: string, i: nat)
    ensures AidocsAt(s, i) <==>
              && i + 6 <= |s| && s[i] in "aA" && s[i + 1] in "iI" && s[i + 2] in "dD"
              && s[i + 3] in "oO" && s[i + 4] in "cC" && s[i + 5] in "sS"
    ensures McpAt(s, i) <==> i + 3 <= |s| && s[i] in "mM" && s[i + 1] in "cC" && s[i + 2] in "pP"
    ensures AfterSlash(s) == if "/" <= s then 1 else 0
  {
  }

  /** The keyword stands at the start, after at most one slash. */
  predicate KeywordHere(s: string) {
    AidocsAt(s, AfterSlash(s)) && Boundary(s, AfterSlash(s) + 6)
  }

  predicate StartsName(c: char) {
    IsLetter(c) || c == '_'
  }

  /** What each style says about a token: whether the line was in a string, whether it is the first
      token, and what stands there. No two styles can compete for one token. */
  lemma StyleSays(s: string, sol: bool, quote: Quote)
    requires s != []
    ensures var style, c, inside := Next(s, sol, quote).style, s[0], quote.Some?;
            && (style == StringStyle <==> if inside then !KeywordHere(s) else IsQuote(c))
            && (style == Keyword <==> KeywordHere(s) && (inside || !(sol && StartsName(c))))
            && (style == LineComment <==> !inside && sol && c == '#')
            && (style == Heading <==> !inside && sol && c == '[' && ']' in s)
            && (style == PropertyName <==> !inside && sol && StartsName(c))
            && (style == Bool <==>
                  !inside && !sol && (("true" <= s && Boundary(s, 4)) || ("false" <= s && Boundary(s, 5))))
            && (style == Number <==> !inside && (IsDigit(c) || (c == '-' && |s| > 1 && IsDigit(s[1]))))
            && (style == Punctuation <==> !inside && c in "=,{}")
            && (style == SquareBracket <==> !inside && c in "[]" && !(sol && c == '[' && ']' in s))
  {
    KeywordMatches(s);
    HeadingMatches(s);
    PropertyMatches(s);
    NumberMatches(s);
    assert IsTrue(s) <==> "true" <= s;
    assert IsFalse(s) <==> "false" <= s;
  }

  /** And how far it reaches: a comment to the end of the line, a name as far as it goes, a literal
      over its word, every other single character by itself. */
  lemma StyleReaches(s: string, sol: bool, quote: Quote)
    requires s != []
    ensures var t := Next(s, sol, quote);
            match t.style
            case LineComment => t.len == |s|
            case Heading => s[t.len - 1] == ']' && (t.len < |s| ==> s[t.len] != ']')
            case PropertyName => (forall k | 0 <= k < t.len :: IsNamePart(s[k])) && (t.len < |s| ==> !IsNamePart(s[t.len]))
            case Bool => s[..t.len] == "true" || s[..t.len] == "false"
            case Number => IsDigit(s[t.len - 1]) && (t.len < |s| ==> !IsDigit(s[t.len]))
            case Keyword => t.len >= AfterSlash(s) + 6 && Boundary(s, t.len)
            case _ => t.len == 1
  {
    KeywordMatches(s);
    HeadingMatches(s);
    PropertyMatches(s);
    NumberMatches(s);
  }

  // ---------------------------------------------------------------- the quote automaton

  function Read(quote: Quote, c: char): Quote {
    match quote
    case None => if IsQuote(c) then Some(c) else None
    case Some(q) => if c == q then None else quote
  }

  /** The automaton's state after reading `line` from `pos` on. */
  function ReadFrom(quote: Quote, line: string, pos: nat): Quote
    decreases |line| - pos
  {
    if pos >= |line| then quote else ReadFrom(Read(quote, line[pos]), line, pos + 1)
  }

  /** No quote stands from `a` up to `b`. */
  ghost predicate Clean(s: string, a: nat, b: nat) {
    b <= |s| && forall i | a <= i < b :: !IsQuote(s[i])
  }

  ghost predicate Legal(quote: Quote) {
    quote.Some? ==> IsQuote(quote.value)
  }

  lemma {:induction false} NothingToRead(quote: Quote, line: string, pos: nat, end: nat)
    requires pos <= end && Legal(quote) && Clean(line, pos, end)
    ensures ReadFrom(quote, line, pos) == ReadFrom(quote, line, end)
    decreases end - pos
  {
    if pos < end {
      assert !IsQuote(line[pos]) && Read(quote, line[pos]) == quote;
      NothingToRead(quote, line, pos + 1, end);
    }
  }

  /** What is clean in the rest of a text is clean in the text. */
  lemma CleanRest(s: string, from: nat, n: nat)
    requires from <= |s| && Clean(s[from..], 0, n)
    ensures Clean(s, from, from + n)
  {
    var rest := s[from..];
    forall i | from <= i < from + n ensures !IsQuote(s[i]) {
      assert s[i] == rest[i - from];
    }
  }

  lemma CleanRun(s: string, from: nat, p: char -> bool)
    requires from <= |s| && forall c | p(c) :: !IsQuote(c)
    ensures Clean(s, from, from + Run(s, from, p))
  {
    RunIsLongest(s, from, p);
  }

  lemma KeywordIsClean(s: string)
    ensures Clean(s, 0, AidocsLen(s))
  {
    if AidocsLen(s) > 0 {
      var i := AfterSlash(s);
      var w := Run(s, i + 6, IsSpace);
      CleanAidocs(s);
      CleanRun(s, i + 6, IsSpace);
      CleanMcp(s, i + 6 + w);
    }
  }

  lemma CleanAidocs(s: string)
    requires AidocsAt(s, AfterSlash(s))
    ensures Clean(s, 0, AfterSlash(s) + 6)
  {
  }

  lemma CleanMcp(s: string, i: nat)
    ensures McpAt(s, i) ==> Clean(s, i, i + 3)
  {
  }

  lemma PropertyIsClean(s: string)
    ensures Clean(s, 0, PropertyLen(s))
  {
    if PropertyLen(s) > 0 {
      CleanRun(s, 1, IsNamePart);
    }
  }

  lemma NumberIsClean(s: string)
    ensures Clean(s, 0, NumberLen(s))
  {
    if NumberLen(s) > 0 {
      var i := AfterMinus(s);
      var j := i + Run(s, i, IsDigit);
      CleanRun(s, i, IsDigit);
      if j < |s| {
        CleanRun(s, j + 1, IsDigit);
      }
    }
  }

  /** The tokens that skip text the automaton would read: a comment or heading at the start of
      a line that does not start inside a string. */
  predicate Skips(s: string, sol: bool, quote: Quote) {
    sol && quote.None? && s != [] && (s[0] == '#' || HeadingLen(s) > 0)
  }

  /** How long a token of more than one kind of character is. */
  lemma TokenLength(s: string, sol: bool, quote: Quote)
    requires s != []
    ensures var t := Next(s, sol, quote);
            match t.style
            case Keyword => t.len == AidocsLen(s) && t.quote == quote
            case PropertyName => t.len == PropertyLen(s) && t.quote == quote
            case Number => t.len == NumberLen(s) && t.quote == quote
            case Bool => Clean(s, 0, t.len) && t.quote == quote
            case LineComment => Skips(s, sol, quote) && t.quote == None
            case Heading => Skips(s, sol, quote) && t.quote == None
            case _ => t.len == 1 && t.quote == Read(quote, s[0])
  {
  }

  /** Each token changes the state as the automaton does on its characters. */
  lemma TokenReads(line: string, pos: nat, quote: Quote, t: Token)
    requires pos < |line| && Legal(quote) && t == Next(line[pos..], pos == 0, quote)
    ensures Legal(t.quote)
    ensures !Skips(line[pos..], pos == 0, quote) ==>
              ReadFrom(quote, line, pos) == ReadFrom(t.quote, line, pos + t.len)
  {
    var s := line[pos..];
    TokenLength(s, pos == 0, quote);
    match t.style
    case Keyword =>
      KeywordIsClean(s);
      PassesOver(quote, line, pos, t.len);
    case PropertyName =>
      PropertyIsClean(s);
      PassesOver(quote, line, pos, t.len);
    case Number =>
      NumberIsClean(s);
      PassesOver(quote, line, pos, t.len);
    case Bool => PassesOver(quote, line, pos, t.len);
    case _ =>
  }

  lemma PassesOver(quote: Quote, line: string, pos: nat, n: nat)
    requires pos <= |line| && Legal(quote) && Clean(line[pos..], 0, n)
    ensures ReadFrom(quote, line, pos) == ReadFrom(quote, line, pos + n)
  {
    CleanRest(line, pos, n);
    NothingToRead(quote, line, pos, pos + n);
  }

  // ---------------------------------------------------------------- a line

  /** How much of a line that starts in state `quote` the automaton does not get to read. */
  function Skipped(line: string, quote: Quote): (n: nat)
    ensures n <= |line|
  {
    if quote.Some? || line == [] then 0
    else if line[0] == '#' then |line|
    else HeadingLen(line)
  }

  class StringStream {
    const line: string
    var pos: nat
    var inString: Quote

    predicate Valid()
      reads this
    {
      pos <= |line|
    }

    constructor (line: string, inString: Quote)
      ensures Valid() && this.line == line && pos == 0 && this.inString == inString
    {
      this.line, this.pos, this.inString := line, 0, inString;
    }

    /** Moves over `n` matched characters, if any. */
    method Match(n: nat) returns (matched: bool)
      requires Valid() && pos + n <= |line|
      modifies this`pos
      ensures Valid() && pos == old(pos) + n && matched == (n > 0)
    {
      pos := pos + n;
      matched := n > 0;
    }

    /** One call of `token`. */
    method NextToken(ghost t: Token) returns (style: Style)
      requires Valid() && pos < |line| && t == Next(line[pos..], pos == 0, inString)
      modifies this`pos, this`inString
      ensures Valid() && pos == old(pos) + t.len && style == t.style && inString == t.quote
    {
      var s, sol := line[pos..], pos == 0;
      if inString.Some? {
        var keyword := Match(AidocsLen(s));
        if keyword {
          return Keyword;
        }
        if s[0] == inString.value {
          inString := None;
        }
        pos := pos + 1;
        return StringStyle;
      }
      if sol && s[0] == '#' {
        pos := |line|;
        return LineComment;
      }
      if sol {
        var heading := Match(HeadingLen(s));
        if heading {
          return Heading;
        }
        var property := Match(PropertyLen(s));
        if property {
          return PropertyName;
        }
      }
      if s[0] == '=' {
        pos := pos + 1;
        return Punctuation;
      }
      if IsQuote(s[0]) {
        inString := Some(s[0]);
        pos := pos + 1;
        return StringStyle;
      }
      style := Rest(s);
    }

    method Rest(s: string) returns (style: Style)
      requires Valid() && pos < |line| && s == line[pos..]
      requires s[0] != '=' && !IsQuote(s[0])
      modifies this`pos
      ensures Valid()
      ensures forall sol | sol ==> s[0] != '#' && HeadingLen(s) == 0 && PropertyLen(s) == 0 ::
                var t := Next(s, sol, None); pos == old(pos) + t.len && style == t.style && t.quote == None
    {
      var bool_ := Match(BoolLen(s));
      if bool_ {
        return Bool;
      }
      var number := Match(NumberLen(s));
      if number {
        return Number;
      }
      if s[0] == '[' || s[0] == ']' {
        pos := pos + 1;
        return SquareBracket;
      }
      if s[0] == ',' || s[0] == '{' || s[0] == '}' {
        pos := pos + 1;
        return Punctuation;
      }
      var keyword := Match(AidocsLen(s));
      if keyword {
        return Keyword;
      }
      pos := pos + 1;
      return Plain;
    }
  }

  /** The tokenizer has come to `pos` in state `quote`, and the automaton agrees. */
  ghost predicate Along(line: string, inString: Quote, pos: nat, quote: Quote) {
    && pos <= |line| && Legal(quote)
    && (pos == 0 ==> quote == inString)
    && (pos > 0 ==> ReadFrom(quote, line, pos) == ReadFrom(inString, line, Skipped(line, inString)))
  }

  lemma AlongStep(line: string, inString: Quote, pos: nat, quote: Quote, t: Token)
    requires Along(line, inString, pos, quote) && pos < |line| && t == Next(line[pos..], pos == 0, quote)
    ensures Along(line, inString, pos + t.len, t.quote)
  {
    TokenReads(line, pos, quote, t);
    if pos == 0 {
      assert line[0..] == line;
    }
  }

  datatype Piece = Piece(text: string, style: Style)

  /** A `token` function as the editor drives it: it moves at least one character and stays on
      the line. */
  type Mode = (string, bool, Quote) --> Token

  ghost predicate Progresses(mode: Mode) {
    forall s, sol, quote | s != [] ::
      mode.requires(s, sol, quote) && 0 < mode(s, sol, quote).len <= |s|
  }

  lemma NextProgresses()
    ensures Progresses(Next)
  {
  }

  /** The tokens of a line from `pos` on, under any such function. */
  ghost function Pieces(mode: Mode, line: string, pos: nat, quote: Quote): seq<Piece>
    requires Progresses(mode)
    decreases |line| - pos
  {
    if pos >= |line| then []
    else
      var t := mode(line[pos..], pos == 0, quote);
      [Piece(line[pos..pos + t.len], t.style)] + Pieces(mode, line, pos + t.len, t.quote)
  }

  function Join(pieces: seq<Piece>): string {
    if pieces == [] then [] else pieces[0].text + Join(pieces[1..])
  }

  /** The tokens make up the text, each has a character at least, so there are no more of them
      than characters. */
  lemma {:induction false} PiecesLoseNothing(mode: Mode, line: string, pos: nat, quote: Quote)
    requires Progresses(mode) && pos <= |line|
    ensures Join(Pieces(mode, line, pos, quote)) == line[pos..]
    ensures |Pieces(mode, line, pos, quote)| <= |line| - pos
    ensures forall piece | piece in Pieces(mode, line, pos, quote) :: piece.text != []
    decreases |line| - pos
  {
    if pos < |line| {
      var t := mode(line[pos..], pos == 0, quote);
      PiecesLoseNothing(mode, line, pos + t.len, t.quote);
      assert line[pos..] == line[pos..pos + t.len] + line[pos + t.len..];
    }
  }

  lemma Regroup<T>(done: seq<T>, x: T, before: seq<T>, rest: seq<T>)
    requires before == [x] + rest
    ensures done + before == (done + [x]) + rest
  {
  }

  lemma FirstPiece(mode: Mode, line: string, pos: nat, quote: Quote, t: Token)
    requires Progresses(mode) && pos < |line| && t == mode(line[pos..], pos == 0, quote)
    ensures pos + t.len <= |line|
    ensures Pieces(mode, line, pos, quote) ==
            [Piece(line[pos..pos + t.len], t.style)] + Pieces(mode, line, pos + t.len, t.quote)
  {
  }

  lemma NothingLeft(mode: Mode, line: string, quote: Quote)
    requires Progresses(mode)
    ensures Pieces(mode, line, |line|, quote) == []
  {
  }

  method Advance(stream: StringStream, ghost inString: Quote, ghost mode: Mode) returns (piece: Piece)
    requires stream.Valid() && stream.pos < |stream.line| && Progresses(mode)
    requires mode(stream.line[stream.pos..], stream.pos == 0, stream.inString) ==
             Next(stream.line[stream.pos..], stream.pos == 0, stream.inString)
    requires Along(stream.line, inString, stream.pos, stream.inString)
    modifies stream
    ensures stream.Valid() && Along(stream.line, inString, stream.pos, stream.inString)
    ensures old(stream.pos) < stream.pos
    ensures old(Pieces(mode, stream.line, stream.pos, stream.inString)) ==
            [piece] + Pieces(mode, stream.line, stream.pos, stream.inString)
  {
    var start := stream.pos;
    ghost var t := Next(stream.line[start..], start == 0, stream.inString);
    AlongStep(stream.line, inString, start, stream.inString, t);
    FirstPiece(mode, stream.line, start, stream.inString, t);
    var style := stream.NextToken(t);
    piece := Piece(stream.line[start..stream.pos], style);
  }

  /** A whole line: the calls end, give the line's tokens, and leave the automaton's state. */
  method TokenizeLine(line: string, inString: Quote) returns (pieces: seq<Piece>, after: Quote)
    requires Legal(inString)
    ensures Progresses(Next) && pieces == Pieces(Next, line, 0, inString)
    ensures Legal(after) && after == ReadFrom(inString, line, Skipped(line, inString))
  {
    NextProgresses();
    var stream := new StringStream(line, inString);
    pieces := [];
    while stream.pos < |line|
      invariant stream.Valid() && stream.line == line
      invariant Along(line, inString, stream.pos, stream.inString)
      invariant pieces + Pieces(Next, line, stream.pos, stream.inString) == Pieces(Next, line, 0, inString)
      decreases |line| - stream.pos
    {
      ghost var before := Pieces(Next, line, stream.pos, stream.inString);
      var piece := Advance(stream, inString, Next);
      Regroup(pieces, piece, before, Pieces(Next, line, stream.pos, stream.inString));
      pieces := pieces + [piece];
    }
    after := stream.inString;
    NothingLeft(Next, line, after);
  }

  /** Outside the skipped beginnings the tokenizer's state is the plain automaton's. */
  lemma UsuallyNothingIsSkipped(line: string, inString: Quote)
    ensures Skipped(line, inString) == 0 <==> !Skips(line, true, inString)
  {
  }
}
