/** The command palette's fuzzy search: scoring one text, ranking the commands, grouping the
    ranked list. Texts are lower case already; `title` is a command's label. */
module CommandPalette {
  import opened Sorting
  import opened Text

  // ---------------------------------------------------------------- scoring

  /** `pos` picks the characters of `n` out of `h`, left to right. */
  ghost predicate Embeds(n: string, h: string, pos: seq<nat>) {
    && |pos| == |n|
    && (forall i | 0 <= i < |pos| :: pos[i] < |h| && h[pos[i]] == n[i])
    && (forall i | 0 < i < |pos| :: pos[i - 1] < pos[i])
  }

  ghost predicate Subsequence(n: string, h: string) {
    exists pos :: Embeds(n, h, pos)
  }

  /** `h.indexOf(n)` from position `from` on, for an `n` that occurs there. */
  function IndexOf(h: string, n: string, from: nat): (i: nat)
    requires exists j: nat | j <= |h| :: from <= j && MatchesAt(h, n, j)
    ensures from <= i && MatchesAt(h, n, i) && forall j: nat | from <= j < i :: !MatchesAt(h, n, j)
    decreases |h| - from
  {
    if MatchesAt(h, n, from) then from else IndexOf(h, n, from + 1)
  }

  /** A substring scores more the earlier it stands. */
  function SubstringScore(at: nat): (score: real)
    ensures 200.0 < score <= 300.0
  {
    200.0 + Fraction(1 + at) * 100.0
  }

  function Fraction(d: nat): (f: real)
    requires d > 0
    ensures 0.0 < f <= 1.0
  {
    1.0 / d as real
  }

  /** What the score means. */
  ghost function Score(h: string, needle: string): real {
    var n := Trim(needle);
    if n == "" then 1.0
    else if h == n then 1000.0
    else if StartsWith(h, n) then 500.0
    else if Includes(h, n) then SubstringScore(IndexOf(h, n, 0))
    else if Subsequence(n, h) then 50.0
    else 0.0
  }

  /** The greedy scan: each character is taken at its first chance, and no other choice would
      succeed where this one fails. */
  method Scan(h: string, n: string) returns (found: bool)
    ensures found <==> Subsequence(n, h)
  {
    var hi, matched := 0, 0;
    ghost var pos: seq<nat> := [];
    for ni := 0 to |n|
      invariant hi <= |h| && matched == ni
      invariant Embeds(n[..ni], h, pos) && (ni > 0 ==> pos[ni - 1] < hi)
      invariant forall p | Embeds(n, h, p) && ni < |n| :: p[ni] >= hi
    {
      while hi < |h| && h[hi] != n[ni]
        invariant hi <= |h|
        invariant ni > 0 ==> pos[ni - 1] < hi
        invariant forall p | Embeds(n, h, p) :: p[ni] >= hi
      {
        hi := hi + 1;
      }
      if hi >= |h| {
        return false;
      }
      pos := pos + [hi];
      assert forall p | Embeds(n, h, p) && ni + 1 < |n| :: p[ni] < p[ni + 1];
      matched := matched + 1;
      hi := hi + 1;
    }
    assert n[..|n|] == n;
    found := matched == |n|;
  }

  /** `fuzzyScore`, whose greedy scan finds every subsequence. */
  method FuzzyScore(h: string, needle: string) returns (score: real)
    ensures score == Score(h, needle)
  {
    var n := Trim(needle);
    if n == "" {
      return 1.0;
    }
    if h == n {
      return 1000.0;
    }
    if StartsWith(h, n) {
      return 500.0;
    }
    if Includes(h, n) {
      return SubstringScore(IndexOf(h, n, 0));
    }
    var found := Scan(h, n);
    score := if found then 50.0 else 0.0;
  }

  lemma IncludedIsSubsequence(h: string, n: string, i: nat)
    requires MatchesAt(h, n, i)
    ensures Subsequence(n, h)
  {
    var pos := seq(|n|, k requires 0 <= k < |n| => i + k);
    var found := h[i..i + |n|];
    assert forall k | 0 <= k < |n| :: found[k] == h[pos[k]];
    assert Embeds(n, h, pos);
  }

  /** A score is positive exactly when the trimmed needle is a subsequence. */
  lemma PositiveIffSubsequence(h: string, needle: string)
    ensures Score(h, needle) > 0.0 <==> Subsequence(Trim(needle), h)
    ensures 0.0 <= Score(h, needle) <= 1000.0
    ensures Trim(needle) != "" && h != Trim(needle) ==> Score(h, needle) <= 500.0
  {
    var n := Trim(needle);
    if n == "" {
      assert Embeds(n, h, []);
    } else if StartsWith(h, n) {
      IncludedIsSubsequence(h, n, 0);
    } else if Includes(h, n) {
      var i := IndexOf(h, n, 0);
      IncludedIsSubsequence(h, n, i);
    }
  }

  /** Where the query first stands in a text decides its score: alone, at the start, or the
      earlier the better; a text it is only scattered over scores less than any of these. */
  lemma ScoreOfFirstPlace(h: string, needle: string, at: nat)
    requires Trim(needle) != "" && MatchesAt(h, Trim(needle), at)
    requires forall j: nat | j < at :: !MatchesAt(h, Trim(needle), j)
    ensures Score(h, needle) ==
            if h == Trim(needle) then 1000.0
            else if at == 0 then 500.0
            else 200.0 + 100.0 / (at + 1) as real
  {
    var n := Trim(needle);
    assert StartsWith(h, n) <==> MatchesAt(h, n, 0);
    if at > 0 {
      assert IndexOf(h, n, 0) == at;
    }
  }

  lemma EarlierScoresMore(at: nat, at': nat)
    requires at < at'
    ensures 200.0 + 100.0 / (at + 1) as real > 200.0 + 100.0 / (at' + 1) as real > 200.0
  {
    var a, b := (at + 1) as real, (at' + 1) as real;
    assert 100.0 / a - 100.0 / b == 100.0 * (b - a) / (a * b);
  }

  lemma ScatteredScores(h: string, needle: string)
    requires Trim(needle) != "" && !Includes(h, Trim(needle))
    ensures Score(h, needle) == if Subsequence(Trim(needle), h) then 50.0 else 0.0
  {
    assert StartsWith(h, Trim(needle)) ==> MatchesAt(h, Trim(needle), 0);
  }

  // ---------------------------------------------------------------- ranking

  datatype Kind = Navigate | Setting | Action
  datatype Command = Command(id: string, kind: Kind, title: string, subtitle: string)

  function Max(a: real, b: real): real {
    if a >= b then a else b
  }

  ghost function RowScore(c: Command, query: string): real {
    var subtitleScore := if c.subtitle != "" then Score(c.subtitle, query) * 0.5 else 0.0;
    Max(Score(c.title, query), Max(subtitleScore, Score(c.id, query) * 0.7))
  }

  /** A row scores what its best text does: the label in full, the id seven tenths, a subtitle half. */
  lemma BestTextCounts(c: Command, query: string)
    ensures var row, half := RowScore(c, query), if c.subtitle == "" then 0.0 else Score(c.subtitle, query) / 2.0;
            var title, id := Score(c.title, query), Score(c.id, query) * 7.0 / 10.0;
            && row >= title && row >= id && row >= half
            && (row == title || row == id || row == half)
  {
  }

  ghost function Better(query: string): (Command, Command) -> bool {
    (c: Command, d: Command) => RowScore(c, query) > RowScore(d, query)
  }

  ghost function Scored(query: string): Command -> bool {
    (c: Command) => RowScore(c, query) > 0.0
  }

  function OfKind(kind: Kind): Command -> bool {
    (c: Command) => c.kind == kind
  }

  function OfFilter(commands: seq<Command>, kindFilter: Option<Kind>): seq<Command> {
    if kindFilter.Some? then Filter(OfKind(kindFilter.value), commands) else commands
  }

  ghost function Ranked(commands: seq<Command>, query: string, kindFilter: Option<Kind>): seq<Command> {
    var filtered := OfFilter(commands, kindFilter);
    if Trim(query) == "" then filtered else Sort(Better(query), Filter(Scored(query), filtered))
  }

  ghost predicate Falling(cs: seq<Command>, query: string) {
    forall i, j | 0 <= i < j < |cs| :: RowScore(cs[i], query) >= RowScore(cs[j], query)
  }

  lemma SortSorts(cs: seq<Command>, query: string)
    ensures var sorted := Sort(Better(query), cs); Falling(sorted, query) && multiset(sorted) == multiset(cs)
  {
    Sorting.SortSorts(Better(query), cs);
    var sorted := Sort(Better(query), cs);
    assert forall i, j | 0 <= i < j < |sorted| :: !Better(query)(sorted[j], sorted[i]);
  }

  ghost function Scoring(query: string, score: real): Command -> bool {
    (c: Command) => RowScore(c, query) == score
  }

  /** Commands of equal score keep their order, and those that score nothing are gone. */
  lemma RankedIsStable(commands: seq<Command>, query: string, kindFilter: Option<Kind>, score: real)
    requires Trim(query) != "" && score > 0.0
    ensures Filter(Scoring(query, score), Ranked(commands, query, kindFilter)) ==
            Filter(Scoring(query, score), OfFilter(commands, kindFilter))
  {
    var filtered := OfFilter(commands, kindFilter);
    Sorting.SortIsStable(Better(query), Scoring(query, score), Filter(Scored(query), filtered));
    FilterTwice(Scoring(query, score), Scored(query), filtered);
  }

  lemma EmptyHasNoSubsequence(n: string)
    requires n != ""
    ensures !Subsequence(n, "")
  {
    forall pos | Embeds(n, "", pos) ensures false {
      EmbeddingFits(n, "", pos);
    }
  }

  lemma EmbeddingFits(n: string, h: string, pos: seq<nat>)
    requires n != "" && Embeds(n, h, pos)
    ensures h != ""
  {
    assert pos[0] < |h|;
  }

  lemma ScoredIff(c: Command, query: string)
    requires Trim(query) != ""
    ensures RowScore(c, query) > 0.0 <==>
            || Subsequence(Trim(query), c.title)
            || Subsequence(Trim(query), c.subtitle)
            || Subsequence(Trim(query), c.id)
  {
    PositiveIffSubsequence(c.title, query);
    PositiveIffSubsequence(c.subtitle, query);
    PositiveIffSubsequence(c.id, query);
    EmptyHasNoSubsequence(Trim(query));
  }

  /** For a query that is not blank, a command is kept exactly when the query is a subsequence
      of its label, subtitle or id, and the kept ones come by falling score. */
  lemma RankedKeepsMatches(commands: seq<Command>, query: string, kindFilter: Option<Kind>, c: Command)
    requires Trim(query) != ""
    ensures var ranked := Ranked(commands, query, kindFilter);
            && Falling(ranked, query)
            && (c in ranked <==>
                  && c in commands && (kindFilter.Some? ==> c.kind == kindFilter.value)
                  && (|| Subsequence(Trim(query), c.title)
                      || Subsequence(Trim(query), c.subtitle)
                      || Subsequence(Trim(query), c.id)))
  {
    var filtered := OfFilter(commands, kindFilter);
    var kept := Filter(Scored(query), filtered);
    SortSorts(kept, query);
    assert c in Sort(Better(query), kept) <==> c in multiset(kept);
    InFilter(Scored(query), filtered, c);
    if kindFilter.Some? {
      InFilter(OfKind(kindFilter.value), commands, c);
    }
    ScoredIff(c, query);
  }

  /** The ranked list has each positively scored command of the filter's kind as often as the
      list had. */
  lemma RankedIsPermutation(commands: seq<Command>, query: string, kindFilter: Option<Kind>, c: Command)
    requires Trim(query) != ""
    ensures multiset(Ranked(commands, query, kindFilter))[c] ==
            if RowScore(c, query) > 0.0 && (kindFilter.Some? ==> c.kind == kindFilter.value) then multiset(commands)[c]
            else 0
  {
    SortSorts(Filter(Scored(query), OfFilter(commands, kindFilter)), query);
    CountFiltered(Scored(query), OfFilter(commands, kindFilter), c);
    if kindFilter.Some? {
      CountFiltered(OfKind(kindFilter.value), commands, c);
    }
  }

  lemma {:induction false} CountFiltered<T>(keep: T -> bool, s: seq<T>, x: T)
    ensures multiset(Filter(keep, s))[x] == if keep(x) then multiset(s)[x] else 0
  {
    if s != [] {
      CountFiltered(keep, s[1..], x);
      assert s == [s[0]] + s[1..];
    }
  }

  /** A blank query leaves the list as it is, but for the kind filter. */
  lemma BlankQueryKeepsTheList(commands: seq<Command>, query: string, kindFilter: Option<Kind>)
    requires Trim(query) == ""
    ensures kindFilter == None ==> Ranked(commands, query, kindFilter) == commands
    ensures kindFilter.Some? ==>
              && (forall c :: multiset(Ranked(commands, query, kindFilter))[c] ==
                              if c.kind == kindFilter.value then multiset(commands)[c] else 0)
              && (forall i, j | 0 <= i < j < |commands|
                                && commands[i].kind == commands[j].kind == kindFilter.value ::
                    Stands(Ranked(commands, query, kindFilter), commands[i], commands[j]))
  {
    if kindFilter.Some? {
      forall c ensures multiset(Filter(OfKind(kindFilter.value), commands))[c] ==
                       if c.kind == kindFilter.value then multiset(commands)[c] else 0 {
        CountFiltered(OfKind(kindFilter.value), commands, c);
      }
      forall i, j | 0 <= i < j < |commands| && commands[i].kind == commands[j].kind == kindFilter.value
        ensures Stands(Filter(OfKind(kindFilter.value), commands), commands[i], commands[j])
      {
        FilterInOrder(OfKind(kindFilter.value), commands, i, j);
      }
    }
  }

  /** One of the first stands before one of the second. */
  ghost predicate Stands(list: seq<Command>, first: Command, second: Command) {
    exists k, l | 0 <= k < l < |list| :: list[k] == first && list[l] == second
  }

  /** A label equal to the query scores 1000, anything else at most 700. */
  lemma ExactBeats(c: Command, query: string)
    requires Trim(query) != ""
    ensures if c.title == Trim(query) then RowScore(c, query) == 1000.0 else RowScore(c, query) <= 700.0
  {
    PositiveIffSubsequence(c.title, query);
    PositiveIffSubsequence(c.subtitle, query);
    PositiveIffSubsequence(c.id, query);
  }

  lemma ExactFirst(ranked: seq<Command>, query: string, i: nat, j: nat)
    requires Trim(query) != "" && Falling(ranked, query) && i < |ranked| && j < |ranked|
    requires ranked[i].title == Trim(query) != ranked[j].title
    ensures i < j
  {
    ExactBeats(ranked[i], query);
    ExactBeats(ranked[j], query);
  }

  /** A label equal to the query beats everything else. */
  lemma ExactLabelsFirst(commands: seq<Command>, query: string, kindFilter: Option<Kind>, i: nat, j: nat)
    requires Trim(query) != ""
    requires var ranked := Ranked(commands, query, kindFilter);
             && i < |ranked| && j < |ranked| && ranked[i].title == Trim(query) != ranked[j].title
    ensures i < j
  {
    var ranked := Ranked(commands, query, kindFilter);
    RankedKeepsMatches(commands, query, kindFilter, ranked[i]);
    ExactFirst(ranked, query, i, j);
  }

  // ---------------------------------------------------------------- grouping

  datatype Group = Group(kind: Kind, items: seq<Command>)

  const KIND_ORDER := [Action, Navigate, Setting]

  function Groups(ranked: seq<Command>, kinds: seq<Kind>): seq<Group> {
    if kinds == [] then []
    else
      var items := Filter(OfKind(kinds[0]), ranked);
      (if items != [] then [Group(kinds[0], items)] else []) + Groups(ranked, kinds[1..])
  }

  lemma {:induction false} FilterSnoc<T>(keep: T -> bool, s: seq<T>, x: T)
    ensures Filter(keep, s + [x]) == Filter(keep, s) + if keep(x) then [x] else []
  {
    if s == [] {
      assert [] + [x] == [x];
    } else {
      FilterSnoc(keep, s[1..], x);
      FilterCons(keep, s[0], s[1..] + [x]);
      assert s + [x] == [s[0]] + (s[1..] + [x]);
    }
  }

  /** One pass fills a list per kind. */
  method FillGroups(ranked: seq<Command>) returns (groups: map<Kind, seq<Command>>)
    ensures forall k :: Listed(groups, k) == Filter(OfKind(k), ranked)
    ensures forall k | k in groups :: groups[k] != []
  {
    groups := map[];
    for i := 0 to |ranked|
      invariant forall k :: Listed(groups, k) == Filter(OfKind(k), ranked[..i])
      invariant forall k | k in groups :: groups[k] != []
    {
      var c := ranked[i];
      assert ranked[..i + 1] == ranked[..i] + [c];
      forall k: Kind
        ensures Filter(OfKind(k), ranked[..i + 1]) ==
                Filter(OfKind(k), ranked[..i]) + if k == c.kind then [c] else []
      {
        FilterSnoc(OfKind(k), ranked[..i], c);
      }
      groups := groups[c.kind := Listed(groups, c.kind) + [c]];
    }
    assert ranked[..|ranked|] == ranked;
  }

  function Listed(groups: map<Kind, seq<Command>>, k: Kind): seq<Command> {
    if k in groups then groups[k] else []
  }

  /** The kinds that have a list, in the fixed order. */
  function Arrange(groups: map<Kind, seq<Command>>, kinds: seq<Kind>): seq<Group> {
    if kinds == [] then []
    else (if kinds[0] in groups then [Group(kinds[0], groups[kinds[0]])] else []) + Arrange(groups, kinds[1..])
  }

  lemma {:induction false} ArrangedGroups(groups: map<Kind, seq<Command>>, ranked: seq<Command>, kinds: seq<Kind>)
    requires forall k :: Listed(groups, k) == Filter(OfKind(k), ranked)
    requires forall k | k in groups :: groups[k] != []
    ensures Arrange(groups, kinds) == Groups(ranked, kinds)
  {
    if kinds != [] {
      assert Listed(groups, kinds[0]) == Filter(OfKind(kinds[0]), ranked);
      ArrangedGroups(groups, ranked, kinds[1..]);
    }
  }

  /** The groups split the ranked list: every command is in the group of its kind, in order,
      and nothing is lost or doubled. */
  lemma {:induction false} GroupsPartition(ranked: seq<Command>)
    ensures multiset(Filter(OfKind(Action), ranked)) + multiset(Filter(OfKind(Navigate), ranked))
            + multiset(Filter(OfKind(Setting), ranked)) == multiset(ranked)
  {
    if ranked != [] {
      GroupsPartition(ranked[1..]);
      assert ranked == [ranked[0]] + ranked[1..];
    }
  }

  function AllItems(groups: seq<Group>): seq<Command> {
    if groups == [] then [] else groups[0].items + AllItems(groups[1..])
  }

  /** Actions come first, then the pages to go to, then the settings. */
  function Place(kind: Kind): nat {
    match kind
    case Action => 0
    case Navigate => 1
    case Setting => 2
  }

  /** A group has commands, of its kind only, in the order of the ranked list. */
  ghost predicate GroupOf(group: Group, ranked: seq<Command>) {
    && group.items != []
    && (forall c | c in group.items :: c.kind == group.kind)
    && (forall i, j | 0 <= i < j < |ranked| && ranked[i].kind == ranked[j].kind == group.kind ::
          Stands(group.items, ranked[i], ranked[j]))
  }

  lemma FilteredGroup(ranked: seq<Command>, kind: Kind)
    requires Filter(OfKind(kind), ranked) != []
    ensures GroupOf(Group(kind, Filter(OfKind(kind), ranked)), ranked)
  {
    var items := Filter(OfKind(kind), ranked);
    forall c | c in items ensures c.kind == kind {
      InFilter(OfKind(kind), ranked, c);
    }
    forall i, j | 0 <= i < j < |ranked| && ranked[i].kind == ranked[j].kind == kind
      ensures Stands(items, ranked[i], ranked[j])
    {
      FilterInOrder(OfKind(kind), ranked, i, j);
    }
  }

  lemma {:induction false} GroupsOf(ranked: seq<Command>, kinds: seq<Kind>)
    ensures forall g | g in Groups(ranked, kinds) :: g.kind in kinds && GroupOf(g, ranked)
  {
    if kinds != [] {
      GroupsOf(ranked, kinds[1..]);
      if Filter(OfKind(kinds[0]), ranked) != [] {
        FilteredGroup(ranked, kinds[0]);
      }
    }
  }

  lemma GroupsUnfold(ranked: seq<Command>, kind: Kind, rest: seq<Kind>)
    ensures var items := Filter(OfKind(kind), ranked);
            Groups(ranked, [kind] + rest) == (if items != [] then [Group(kind, items)] else []) + Groups(ranked, rest)
    ensures AllItems(Groups(ranked, [kind] + rest)) == Filter(OfKind(kind), ranked) + AllItems(Groups(ranked, rest))
  {
    assert ([kind] + rest)[1..] == rest;
    var items, more := Filter(OfKind(kind), ranked), Groups(ranked, rest);
    assert ([Group(kind, items)] + more)[1..] == more && [] + more == more && [] + AllItems(more) == AllItems(more);
  }

  lemma NothingIsLost(ranked: seq<Command>)
    ensures multiset(AllItems(Groups(ranked, KIND_ORDER))) == multiset(ranked)
  {
    var setting := [Setting] + [];
    var navigate := [Navigate] + setting;
    GroupsUnfold(ranked, Setting, []);
    GroupsUnfold(ranked, Navigate, setting);
    GroupsUnfold(ranked, Action, navigate);
    assert KIND_ORDER == [Action] + navigate;
    GroupsPartition(ranked);
  }

  ghost predicate InPlace(groups: seq<Group>) {
    forall i, j | 0 <= i < j < |groups| :: Place(groups[i].kind) < Place(groups[j].kind)
  }

  /** The groups of a kind and of kinds after it. */
  lemma GroupBefore(ranked: seq<Command>, kind: Kind, rest: seq<Kind>)
    requires InPlace(Groups(ranked, rest)) && forall k | k in rest :: Place(kind) < Place(k)
    ensures InPlace(Groups(ranked, [kind] + rest))
  {
    var items, more := Filter(OfKind(kind), ranked), Groups(ranked, rest);
    GroupsUnfold(ranked, kind, rest);
    GroupsOf(ranked, rest);
    assert forall j | 0 <= j < |more| :: more[j] in more && Place(kind) < Place(more[j].kind);
    assert Groups(ranked, [kind] + rest) == if items != [] then [Group(kind, items)] + more else more;
  }

  lemma GroupsInPlace(ranked: seq<Command>)
    ensures InPlace(Groups(ranked, KIND_ORDER))
  {
    GroupBefore(ranked, Setting, []);
    GroupBefore(ranked, Navigate, [Setting] + []);
    GroupBefore(ranked, Action, [Navigate] + ([Setting] + []));
    assert KIND_ORDER == [Action] + ([Navigate] + ([Setting] + []));
  }

  /** The groups hold exactly the ranked commands, each group those of one kind in ranked order;
      no group is empty, no kind has two, and they come in the fixed order of kinds. */
  method Grouped(ranked: seq<Command>) returns (result: seq<Group>)
    ensures multiset(AllItems(result)) == multiset(ranked)
    ensures forall g | g in result :: GroupOf(g, ranked)
    ensures InPlace(result)
    ensures result == Groups(ranked, KIND_ORDER)
  {
    var groups := FillGroups(ranked);
    ArrangedGroups(groups, ranked, KIND_ORDER);
    result := Arrange(groups, KIND_ORDER);
    GroupsOf(ranked, KIND_ORDER);
    GroupsInPlace(ranked);
    NothingIsLost(ranked);
  }
}
