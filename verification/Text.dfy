/** Strings as the dashboard and the installer handle them: trimming, decimal
    rendering and prefix/suffix tests, shared by the other modules. */
module Text {

  datatype Option<+T> = None | Some(value: T)

  /** The white space and line terminators that `String.prototype.trim` strips. */
  predicate IsSpace(c: char) {
    || c in "\t\n\U{000B}\U{000C}\r \U{00A0}\U{1680}\U{2028}\U{2029}\U{202F}\U{205F}\U{3000}\U{FEFF}"
    || '\U{2000}' <= c <= '\U{200A}'
  }

  function TrimStart(s: string): string {
    if s != [] && IsSpace(s[0]) then TrimStart(s[1..]) else s
  }

  function TrimEnd(s: string): string {
    if s != [] && IsSpace(s[|s| - 1]) then TrimEnd(s[..|s| - 1]) else s
  }

  function Trim(s: string): string {
    TrimEnd(TrimStart(s))
  }

  function Digit(d: nat): char
    requires d < 10
  {
    "0123456789"[d]
  }

  function Decimal(n: nat): (s: string)
    ensures s != []
    ensures forall i | 0 <= i < |s| :: '0' <= s[i] <= '9'
  {
    if n < 10 then [Digit(n)] else Decimal(n / 10) + [Digit(n % 10)]
  }

  lemma {:induction false} DecimalInjective(m: nat, n: nat)
    requires Decimal(m) == Decimal(n)
    ensures m == n
    decreases m
  {
    var a, b := Decimal(m), Decimal(n);
    assert a[|a| - 1] == Digit(m % 10) && b[|b| - 1] == Digit(n % 10);
    if m >= 10 && n >= 10 {
      assert Decimal(m / 10) == a[..|a| - 1] == Decimal(n / 10);
      DecimalInjective(m / 10, n / 10);
    }
  }

  predicate StartsWith(s: string, p: string) {
    p <= s
  }

  predicate EndsWith(s: string, p: string) {
    |p| <= |s| && s[|s| - |p|..] == p
  }

  predicate MatchesAt(s: string, t: string, i: nat) {
    i + |t| <= |s| && s[i..i + |t|] == t
  }

  /** `s.includes(t)` */
  predicate Includes(s: string, t: string) {
    exists i: nat | i <= |s| :: MatchesAt(s, t, i)
  }

  lemma IncludesMiddle(a: string, t: string, b: string)
    ensures Includes(a + t + b, t)
  {
    assert MatchesAt(a + t + b, t, |a|);
  }

  /** What is in a text is in every text around it. */
  lemma IncludesWithin(a: string, s: string, b: string, t: string)
    requires Includes(s, t)
    ensures Includes(a + s + b, t)
  {
    var i: nat :| i <= |s| && MatchesAt(s, t, i);
    var whole := a + s + b;
    assert whole[|a| + i..|a| + i + |t|] == s[i..i + |t|];
    assert MatchesAt(whole, t, |a| + i);
  }

  /** Where the first `c` stands, or the length. */
  function First(s: string, c: char): (i: nat)
    ensures i <= |s|
  {
    if s == [] || s[0] == c then 0 else 1 + First(s[1..], c)
  }

  lemma {:induction false} FirstIsFirst(s: string, c: char)
    ensures forall j | 0 <= j < First(s, c) :: s[j] != c
    ensures First(s, c) < |s| ==> s[First(s, c)] == c
  {
    if s != [] && s[0] != c {
      FirstIsFirst(s[1..], c);
    }
  }

  lemma FirstAbsent(s: string, c: char)
    ensures First(s, c) == |s| <==> c !in s
  {
    FirstIsFirst(s, c);
    if c in s {
      var j :| 0 <= j < |s| && s[j] == c;
    }
  }

  /** A text with a `c` is cut at the first one. */
  lemma FirstCuts(s: string, c: char)
    requires c in s
    ensures var i := First(s, c); i < |s| && s == s[..i] + [c] + s[i + 1..] && c !in s[..i]
  {
    FirstIsFirst(s, c);
    FirstAbsent(s, c);
  }

  lemma FirstSeparator(a: string, b: string, c: char)
    requires c !in a
    ensures var s := a + [c] + b; First(s, c) == |a| && s[..|a|] == a && s[|a| + 1..] == b
  {
    var s := a + [c] + b;
    FirstIsFirst(s, c);
    assert s[|a|] == c;
    assert forall j | 0 <= j < |a| :: s[j] == a[j] && a[j] in a;
  }

  /** What stands before the first `c`, and what after it, is determined by the whole. */
  lemma SeparatorSplits(a: string, b: string, a': string, b': string, c: char)
    requires c !in a && c !in a' && a + [c] + b == a' + [c] + b'
    ensures a == a' && b == b'
  {
    FirstSeparator(a, b, c);
    FirstSeparator(a', b', c);
  }

  lemma IncludesInside(a: string, head: string, t: string, tail: string)
    ensures Includes(a + (head + t + tail), t)
  {
    var whole := a + (head + t + tail);
    assert whole == (a + head) + t + tail;
    IncludesMiddle(a + head, t, tail);
  }

  /** Two texts joined by a separator give the same whole exactly when they are the same, or one
      first text continues the other across a separator and the second texts make up for it. */
  lemma JoinsMeetIff(a: string, b: string, a': string, b': string, c: char)
    ensures a + [c] + b == a' + [c] + b' <==>
            || (a == a' && b == b')
            || (exists m :: a' == a + [c] + m && b == m + [c] + b')
            || (exists m :: a == a' + [c] + m && b' == m + [c] + b)
  {
    if a + [c] + b == a' + [c] + b' {
      if |a| == |a'| {
        CutAlike(a, b, a', b', c);
      } else if |a| < |a'| {
        CutShorter(a, b, a', b', c);
      } else {
        CutShorter(a', b', a, b, c);
      }
    }
    forall m | a' == a + [c] + m && b == m + [c] + b' ensures a + [c] + b == a' + [c] + b' {
    }
    forall m | a == a' + [c] + m && b' == m + [c] + b ensures a + [c] + b == a' + [c] + b' {
    }
  }

  lemma CutAlike(a: string, b: string, a': string, b': string, c: char)
    requires a + [c] + b == a' + [c] + b' && |a| == |a'|
    ensures a == a' && b == b'
  {
    var whole := a + [c] + b;
    assert a == whole[..|a|] == a' && b == whole[|a| + 1..] == b';
  }

  lemma CutShorter(a: string, b: string, a': string, b': string, c: char)
    requires a + [c] + b == a' + [c] + b' && |a| < |a'|
    ensures exists m :: a' == a + [c] + m && b == m + [c] + b'
  {
    var whole, m := a + [c] + b, a'[|a| + 1..];
    assert whole[|a|] == c && a' == whole[..|a'|];
    assert a' == a + [c] + m;
    assert b == whole[|a| + 1..] == m + [c] + b';
  }

  /** Trimming takes away white space at both ends, all of it and nothing else. */
  lemma TrimCuts(s: string) returns (before: string, after: string)
    ensures s == before + Trim(s) + after
    ensures forall i | 0 <= i < |before| :: IsSpace(before[i])
    ensures forall i | 0 <= i < |after| :: IsSpace(after[i])
    ensures Trim(s) != "" ==> !IsSpace(Trim(s)[0]) && !IsSpace(Trim(s)[|Trim(s)| - 1])
  {
    before := TrimStartCuts(s);
    var rest := TrimStart(s);
    after := TrimEndCuts(rest);
    assert rest == Trim(s) + after;
    assert s == before + Trim(s) + after;
    assert Trim(s) != "" ==> Trim(s)[0] == rest[0];
  }

  lemma {:induction false} TrimStartCuts(s: string) returns (before: string)
    ensures s == before + TrimStart(s) && forall i | 0 <= i < |before| :: IsSpace(before[i])
    ensures TrimStart(s) != "" ==> !IsSpace(TrimStart(s)[0])
  {
    before := "";
    if s != [] && IsSpace(s[0]) {
      var rest := TrimStartCuts(s[1..]);
      before := [s[0]] + rest;
      assert s == [s[0]] + s[1..];
    }
  }

  lemma {:induction false} TrimEndCuts(s: string) returns (after: string)
    ensures s == TrimEnd(s) + after && forall i | 0 <= i < |after| :: IsSpace(after[i])
    ensures TrimEnd(s) != "" ==> !IsSpace(TrimEnd(s)[|TrimEnd(s)| - 1])
  {
    after := "";
    if s != [] && IsSpace(s[|s| - 1]) {
      var rest := TrimEndCuts(s[..|s| - 1]);
      after := rest + [s[|s| - 1]];
      assert s == s[..|s| - 1] + [s[|s| - 1]];
    }
  }
}
