/** The signature by which a live refresh decides whether the graph changed: a djb2 hash over
    the node and edge texts under JavaScript's 32-bit arithmetic, with the two counts. */
module GraphSignature {
  import opened Text

  const TWO_31 := 0x8000_0000
  const TWO_32 := 0x1_0000_0000
  const TWO_53 := 0x20_0000_0000_0000

  /** ToInt32, section 7.1.6 of ECMA-262. */
  function ToInt32(x: int): (r: int)
    ensures -TWO_31 <= r < TWO_31
    ensures (r - x) % TWO_32 == 0
  {
    var m := x % TWO_32;
    if m >= TWO_31 then m - TWO_32 else m
  }

  /** `x >>> 0` */
  function ToUint32(x: int): (r: nat)
    ensures r < TWO_32
  {
    x % TWO_32
  }

  /** A UTF-16 code unit, as charCodeAt returns it. */
  type CodeUnit = c: nat | c < 0x1_0000
  type Units = seq<CodeUnit>

  datatype Node = Node(id: Units, kind: Units, name: Units)
  datatype Edge = Edge(from: Units, to: Units, kind: Units)
  datatype Payload = Payload(nodes: seq<Node>, edges: seq<Edge>)

  function NodeUnits(nodes: seq<Node>): Units {
    if nodes == [] then []
    else NodeUnits(nodes[..|nodes| - 1]) + TextOfNode(nodes[|nodes| - 1])
  }

  function TextOfNode(n: Node): Units {
    n.id + n.kind + n.name
  }

  function EdgeUnits(edges: seq<Edge>): Units {
    if edges == [] then []
    else EdgeUnits(edges[..|edges| - 1]) + TextOfEdge(edges[|edges| - 1])
  }

  function TextOfEdge(e: Edge): Units {
    e.from + e.to + e.kind
  }

  /** Everything that is mixed in, in order. */
  function Mixed(g: Payload): Units {
    NodeUnits(g.nodes) + EdgeUnits(g.edges)
  }

  function Pow33(n: nat): nat {
    if n == 0 then 1 else 33 * Pow33(n - 1)
  }

  /** Each unit times 33 to the number of units after it. */
  function Weighted(cs: Units): nat {
    if cs == [] then 0 else cs[0] * Pow33(|cs| - 1) + Weighted(cs[1..])
  }

  function Polynomial(cs: Units): nat {
    5381 * Pow33(|cs|) + Weighted(cs)
  }

  lemma {:induction false} WeightedSnoc(cs: Units, c: CodeUnit)
    ensures Weighted(cs + [c]) == 33 * Weighted(cs) + c
  {
    if cs == [] {
      assert [] + [c] == [c] && ([c])[1..] == [];
    } else {
      assert (cs + [c])[1..] == cs[1..] + [c];
      WeightedSnoc(cs[1..], c);
      assert cs[0] * Pow33(|cs|) == 33 * (cs[0] * Pow33(|cs| - 1)) by {
        assert Pow33(|cs|) == 33 * Pow33(|cs| - 1);
      }
    }
  }

  /** The running hash is the polynomial, seen as a 32-bit integer. */
  ghost predicate Hashes(h: int, cs: Units) {
    -TWO_31 <= h < TWO_31 && (h - Polynomial(cs)) % TWO_32 == 0
  }

  lemma OneUnit(h: int, cs: Units, c: CodeUnit)
    requires Hashes(h, cs)
    ensures Hashes(ToInt32(ToInt32(h * 32) + h + c), cs + [c])
  {
    WeightedSnoc(cs, c);
    assert Pow33(|cs + [c]|) == 33 * Pow33(|cs|);
    OneUnitMod(h, Polynomial(cs), c);
  }

  lemma Wraps(x: int) returns (k: int)
    ensures ToInt32(x) == x + TWO_32 * k
  {
    k := (ToInt32(x) - x) / TWO_32;
  }

  lemma OneUnitMod(h: int, p: nat, c: CodeUnit)
    requires (h - p) % TWO_32 == 0
    ensures (ToInt32(ToInt32(h * 32) + h + c) - (33 * p + c)) % TWO_32 == 0
  {
    var q := (h - p) / TWO_32;
    var k := Wraps(h * 32);
    var m := Wraps(ToInt32(h * 32) + h + c);
    assert ToInt32(ToInt32(h * 32) + h + c) - (33 * p + c) == TWO_32 * (33 * q + k + m);
    Multiple(33 * q + k + m);
  }

  lemma Multiple(k: int)
    ensures (TWO_32 * k) % TWO_32 == 0
  {
  }

  /** One call of `mix`; no intermediate value leaves the exact integers of a double. */
  method Mix(h0: int, s: Units, ghost before: Units) returns (h: int)
    requires Hashes(h0, before)
    ensures Hashes(h, before + s)
  {
    h := h0;
    assert before + s[..0] == before;
    for i := 0 to |s|
      invariant Hashes(h, before + s[..i])
    {
      OneUnit(h, before + s[..i], s[i]);
      assert before + s[..i] + [s[i]] == before + s[..i + 1];
      var shifted := ToInt32(h * 32);
      var sum := shifted + h + s[i];
      assert -TWO_53 < shifted + h < TWO_53 && -TWO_53 < sum < TWO_53;
      h := ToInt32(sum);
    }
    assert s[..|s|] == s;
  }

  function HashOf(g: Payload): nat {
    Polynomial(Mixed(g)) % TWO_32
  }

  function Signature(g: Payload): string {
    Decimal(|g.nodes|) + [':'] + (Decimal(|g.edges|) + [':'] + Decimal(HashOf(g)))
  }

  method GraphSignature(g: Payload) returns (signature: string)
    ensures signature == Signature(g)
  {
    var h := 5381;
    for i := 0 to |g.nodes|
      invariant Hashes(h, NodeUnits(g.nodes[..i]))
    {
      var n := g.nodes[i];
      assert g.nodes[..i + 1][..i] == g.nodes[..i];
      h := Mix(h, n.id + n.kind + n.name, NodeUnits(g.nodes[..i]));
    }
    assert g.nodes[..|g.nodes|] == g.nodes;
    assert NodeUnits(g.nodes) + EdgeUnits([]) == NodeUnits(g.nodes);
    for i := 0 to |g.edges|
      invariant Hashes(h, NodeUnits(g.nodes) + EdgeUnits(g.edges[..i]))
    {
      var e := g.edges[i];
      assert g.edges[..i + 1][..i] == g.edges[..i];
      h := Mix(h, e.from + e.to + e.kind, NodeUnits(g.nodes) + EdgeUnits(g.edges[..i]));
      assert NodeUnits(g.nodes) + EdgeUnits(g.edges[..i]) + TextOfEdge(e)
          == NodeUnits(g.nodes) + EdgeUnits(g.edges[..i + 1]);
    }
    assert g.edges[..|g.edges|] == g.edges;
    SameResidue(h, Polynomial(Mixed(g)));
    signature := Decimal(|g.nodes|) + [':'] + (Decimal(|g.edges|) + [':'] + Decimal(ToUint32(h)));
  }

  lemma SameResidue(h: int, p: nat)
    requires (h - p) % TWO_32 == 0
    ensures h % TWO_32 == p % TWO_32
  {
    var q := (h - p) / TWO_32;
    assert h == p + TWO_32 * q;
  }

  /** Two payloads have the same signature exactly when they have as many nodes and edges and
      their polynomials agree modulo 2^32. */
  lemma SameSignatureIff(g: Payload, g': Payload)
    ensures Signature(g) == Signature(g') <==>
            |g.nodes| == |g'.nodes| && |g.edges| == |g'.edges| && HashOf(g) == HashOf(g')
  {
    if Signature(g) == Signature(g') {
      var rest := Decimal(|g.edges|) + [':'] + Decimal(HashOf(g));
      var rest' := Decimal(|g'.edges|) + [':'] + Decimal(HashOf(g'));
      SeparatorSplits(Decimal(|g.nodes|), rest, Decimal(|g'.nodes|), rest', ':');
      SeparatorSplits(Decimal(|g.edges|), Decimal(HashOf(g)), Decimal(|g'.edges|), Decimal(HashOf(g')), ':');
      DecimalInjective(|g.nodes|, |g'.nodes|);
      DecimalInjective(|g.edges|, |g'.edges|);
      DecimalInjective(HashOf(g), HashOf(g'));
    }
  }

  /** The refresh tick: rebuilds exactly when the signature changed, so never for the payload
      that is rendered, and misses a change that leaves counts and polynomial residue alone. */
  method Tick(rendered: string, ghost shown: Payload, fetched: Payload) returns (rebuild: bool)
    requires rendered == Signature(shown)
    ensures fetched == shown ==> !rebuild
    ensures rebuild <==>
            |fetched.nodes| != |shown.nodes| || |fetched.edges| != |shown.edges| || HashOf(fetched) != HashOf(shown)
  {
    SameSignatureIff(fetched, shown);
    var signature := GraphSignature(fetched);
    rebuild := signature != rendered;
  }

  // ---------------------------------------------------------------- what is noticed

  /** 33 has an inverse modulo 2^32. */
  const INVERSE := 1041204193
  const INVERSE_WRAPS := 8

  lemma Without33(d: int)
    requires (33 * d) % TWO_32 == 0
    ensures d % TWO_32 == 0
  {
    var q := 33 * d / TWO_32;
    assert 33 * INVERSE == 1 + INVERSE_WRAPS * TWO_32;
    assert d == TWO_32 * (INVERSE * q - INVERSE_WRAPS * d);
    Multiple(INVERSE * q - INVERSE_WRAPS * d);
  }

  lemma {:induction false} WithoutPow33(d: int, k: nat)
    requires (d * Pow33(k)) % TWO_32 == 0
    ensures d % TWO_32 == 0
    decreases k
  {
    if k > 0 {
      assert d * Pow33(k) == 33 * (d * Pow33(k - 1)) by {
        assert Pow33(k) == 33 * Pow33(k - 1);
      }
      Without33(d * Pow33(k - 1));
      WithoutPow33(d, k - 1);
    }
  }

  lemma {:induction false} WeightedChange(cs: Units, i: nat, c: CodeUnit)
    requires i < |cs|
    ensures Weighted(cs[i := c]) == Weighted(cs) + (c - cs[i]) * Pow33(|cs| - 1 - i)
  {
    if i == 0 {
      assert cs[0 := c][1..] == cs[1..];
      assert c * Pow33(|cs| - 1) == cs[0] * Pow33(|cs| - 1) + (c - cs[0]) * Pow33(|cs| - 1);
    } else {
      WeightedChange(cs[1..], i - 1, c);
      assert cs[i := c][1..] == cs[1..][i - 1 := c];
    }
  }

  /** The texts differ in one unit. */
  ghost predicate OneUnitApart(u: Units, u': Units) {
    exists i | 0 <= i < |u| :: DifferAt(u, u', i)
  }

  ghost predicate DifferAt(u: Units, u': Units, i: nat) {
    i < |u| == |u'| && u[i] != u'[i] && forall j | 0 <= j < |u| && j != i :: u[j] == u'[j]
  }

  /** One unit decides the residue of the polynomial. */
  lemma ApartInResidue(u: Units, u': Units)
    requires OneUnitApart(u, u')
    ensures Polynomial(u) % TWO_32 != Polynomial(u') % TWO_32
  {
    var i :| 0 <= i < |u| && DifferAt(u, u', i);
    assert u' == u[i := u'[i]];
    WeightedChange(u, i, u'[i]);
    var d: int := u'[i] as int - u[i] as int;
    var k := |u| - 1 - i;
    if Polynomial(u) % TWO_32 == Polynomial(u') % TWO_32 {
      assert (d * Pow33(k)) % TWO_32 == 0 by {
        SameDifference(Polynomial(u'), Polynomial(u));
      }
      WithoutPow33(d, k);
      assert false;
    }
  }

  lemma SameDifference(p: int, q: int)
    requires p % TWO_32 == q % TWO_32
    ensures (p - q) % TWO_32 == 0
  {
    Multiple(p / TWO_32 - q / TWO_32);
    assert p - q == TWO_32 * (p / TWO_32 - q / TWO_32);
  }

  lemma ApartBehind(a: Units, u: Units, u': Units)
    requires OneUnitApart(u, u')
    ensures OneUnitApart(a + u, a + u')
  {
    var i :| 0 <= i < |u| && DifferAt(u, u', i);
    assert DifferAt(a + u, a + u', |a| + i);
  }

  lemma ApartBefore(u: Units, u': Units, b: Units)
    requires OneUnitApart(u, u')
    ensures OneUnitApart(u + b, u' + b)
  {
    var i :| 0 <= i < |u| && DifferAt(u, u', i);
    assert DifferAt(u + b, u' + b, i);
  }

  lemma {:induction false} NodeUnitsApart(nodes: seq<Node>, i: nat, n: Node)
    requires i < |nodes| && OneUnitApart(TextOfNode(nodes[i]), TextOfNode(n))
    ensures OneUnitApart(NodeUnits(nodes), NodeUnits(nodes[i := n]))
  {
    var last, more := |nodes| - 1, nodes[i := n];
    if i == last {
      assert more[..last] == nodes[..last];
      ApartBehind(NodeUnits(nodes[..last]), TextOfNode(nodes[i]), TextOfNode(n));
    } else {
      NodeUnitsApart(nodes[..last], i, n);
      assert more[..last] == nodes[..last][i := n];
      ApartBefore(NodeUnits(nodes[..last]), NodeUnits(more[..last]), TextOfNode(nodes[last]));
    }
  }

  lemma {:induction false} EdgeUnitsApart(edges: seq<Edge>, i: nat, e: Edge)
    requires i < |edges| && OneUnitApart(TextOfEdge(edges[i]), TextOfEdge(e))
    ensures OneUnitApart(EdgeUnits(edges), EdgeUnits(edges[i := e]))
  {
    var last, more := |edges| - 1, edges[i := e];
    if i == last {
      assert more[..last] == edges[..last];
      ApartBehind(EdgeUnits(edges[..last]), TextOfEdge(edges[i]), TextOfEdge(e));
    } else {
      EdgeUnitsApart(edges[..last], i, e);
      assert more[..last] == edges[..last][i := e];
      ApartBefore(EdgeUnits(edges[..last]), EdgeUnits(more[..last]), TextOfEdge(edges[last]));
    }
  }

  /** One unit changed in the id, type or label of a node changes the signature. */
  lemma NodeChangeIsNoticed(g: Payload, i: nat, n: Node)
    requires i < |g.nodes|
    requires var was := g.nodes[i];
             || (OneUnitApart(was.id, n.id) && was.kind == n.kind && was.name == n.name)
             || (was.id == n.id && OneUnitApart(was.kind, n.kind) && was.name == n.name)
             || (was.id == n.id && was.kind == n.kind && OneUnitApart(was.name, n.name))
    ensures Signature(g.(nodes := g.nodes[i := n])) != Signature(g)
  {
    var was, g' := g.nodes[i], g.(nodes := g.nodes[i := n]);
    TextApart(was.id, was.kind, was.name, n.id, n.kind, n.name);
    NodeUnitsApart(g.nodes, i, n);
    ApartBefore(NodeUnits(g.nodes), NodeUnits(g'.nodes), EdgeUnits(g.edges));
    ApartInResidue(Mixed(g), Mixed(g'));
    SameSignatureIff(g, g');
  }

  /** One unit changed in an end or the type of an edge does too. */
  lemma EdgeChangeIsNoticed(g: Payload, i: nat, e: Edge)
    requires i < |g.edges|
    requires var was := g.edges[i];
             || (OneUnitApart(was.from, e.from) && was.to == e.to && was.kind == e.kind)
             || (was.from == e.from && OneUnitApart(was.to, e.to) && was.kind == e.kind)
             || (was.from == e.from && was.to == e.to && OneUnitApart(was.kind, e.kind))
    ensures Signature(g.(edges := g.edges[i := e])) != Signature(g)
  {
    var was, g' := g.edges[i], g.(edges := g.edges[i := e]);
    TextApart(was.from, was.to, was.kind, e.from, e.to, e.kind);
    EdgeUnitsApart(g.edges, i, e);
    ApartBehind(NodeUnits(g.nodes), EdgeUnits(g.edges), EdgeUnits(g'.edges));
    ApartInResidue(Mixed(g), Mixed(g'));
    SameSignatureIff(g, g');
  }

  lemma TextApart(a: Units, b: Units, c: Units, a': Units, b': Units, c': Units)
    requires || (OneUnitApart(a, a') && b == b' && c == c')
             || (a == a' && OneUnitApart(b, b') && c == c')
             || (a == a' && b == b' && OneUnitApart(c, c'))
    ensures OneUnitApart(a + b + c, a' + b' + c')
  {
    if OneUnitApart(a, a') && b == b' && c == c' {
      ApartBefore(a, a', b);
      ApartBefore(a + b, a' + b, c);
    } else if a == a' && OneUnitApart(b, b') && c == c' {
      ApartBehind(a, b, b');
      ApartBefore(a + b, a + b', c);
    } else {
      ApartBehind(a + b, c, c');
    }
  }

  /** The hash of nothing is 5381, and of one unit 33 times that plus the unit. */
  lemma SmallHashes(c: CodeUnit)
    ensures HashOf(Payload([], [])) == 5381
    ensures HashOf(Payload([Node([c], [], [])], [])) == 33 * 5381 + c
  {
    var n := Node([c], [], []);
    assert TextOfNode(n) == [c] && [n][..0] == [];
    assert Mixed(Payload([], [])) == [] && Mixed(Payload([n], [])) == [c];
    assert ([c])[1..] == [] && Pow33(1) == 33 * Pow33(0);
  }

  /** Where one text ends and the next begins is not part of the signature. */
  lemma BoundariesAreNotSigned(a: Node, b: Node, rest: seq<Edge>, c: CodeUnit)
    ensures var g := Payload([a.(name := a.name + [c]), b], rest);
            var g' := Payload([a, b.(id := [c] + b.id)], rest);
            g != g' && Signature(g) == Signature(g')
  {
    var g := Payload([a.(name := a.name + [c]), b], rest);
    var g' := Payload([a, b.(id := [c] + b.id)], rest);
    assert |g.nodes[0].name| != |g'.nodes[0].name|;
    assert g.nodes[..1] == [g.nodes[0]] && g'.nodes[..1] == [a];
    assert ([g.nodes[0]])[..0] == [] && ([a])[..0] == [];
    assert NodeUnits([g.nodes[0]]) == TextOfNode(g.nodes[0]);
    assert NodeUnits([a]) == TextOfNode(a);
    assert NodeUnits(g.nodes) == NodeUnits(g'.nodes);
    assert Mixed(g) == Mixed(g');
  }
}
