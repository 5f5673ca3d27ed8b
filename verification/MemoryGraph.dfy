/** The memory graph in explore mode: the adjacency lists built from the edges, the revealed
    set that grows as nodes are clicked, and what is shown.

    The network is drawn by an effect that runs on a refresh, and its click handler keeps the
    search text of that moment; the sidebar and the search box use the current one. Explore mode
    stays on and every load brings the same graph. */
module MemoryGraph {
  import opened Text

  type Id = string
  datatype Kind = Memory | Unit | Keyword
  datatype Node = Node(id: Id, kind: Kind)
  datatype Edge = Edge(from: Id, to: Id)
  datatype Graph = Graph(nodes: seq<Node>, edges: seq<Edge>)

  type Adjacency = map<Id, seq<Id>>

  predicate HasNode(g: Graph, id: Id) {
    exists i | 0 <= i < |g.nodes| :: g.nodes[i].id == id
  }

  predicate IsMemory(g: Graph, id: Id) {
    exists i | 0 <= i < |g.nodes| :: g.nodes[i] == Node(id, Memory)
  }

  predicate Linked(g: Graph, a: Id, b: Id) {
    exists i | 0 <= i < |g.edges| :: g.edges[i] == Edge(a, b) || g.edges[i] == Edge(b, a)
  }

  /** The ids adjacent to `id`, one for each end of an edge at it, in edge order. */
  function Ends(edges: seq<Edge>, id: Id): seq<Id> {
    if edges == [] then []
    else
      var e := edges[|edges| - 1];
      Ends(edges[..|edges| - 1], id) + (if e.from == id then [e.to] else []) + (if e.to == id then [e.from] else [])
  }

  function Neighbours(adj: Adjacency, id: Id): seq<Id> {
    if id in adj then adj[id] else []
  }

  lemma {:induction false} EndsAreLinked(g: Graph, id: Id, nb: Id)
    ensures nb in Ends(g.edges, id) <==> Linked(g, id, nb)
    decreases |g.edges|
  {
    if g.edges != [] {
      var last := |g.edges| - 1;
      var shorter := g.(edges := g.edges[..last]);
      EndsAreLinked(shorter, id, nb);
      assert Linked(g, id, nb) <==>
        Linked(shorter, id, nb) || g.edges[last] == Edge(id, nb) || g.edges[last] == Edge(nb, id);
    }
  }

  lemma CountOneMore<T>(s: seq<T>, x: T, y: T)
    ensures multiset(s + [x])[y] == multiset(s)[y] + if x == y then 1 else 0
  {
  }

  lemma EndsCountStep(front: seq<Id>, e: Edge, id: Id, nb: Id)
    ensures multiset(front + (if e.from == id then [e.to] else []) + (if e.to == id then [e.from] else []))[nb] ==
            multiset(front)[nb] + (if e == Edge(id, nb) then 1 else 0) + (if e == Edge(nb, id) then 1 else 0)
  {
    var middle := if e.from == id then front + [e.to] else front;
    CountOneMore(front, e.to, nb);
    CountOneMore(middle, e.from, nb);
    assert front + [] == front && middle + [] == middle;
  }

  /** And as often as edges join them; an edge from a node to itself puts it there twice. */
  lemma {:induction false} EndsCount(edges: seq<Edge>, id: Id, nb: Id)
    ensures multiset(Ends(edges, id))[nb] == multiset(edges)[Edge(id, nb)] + multiset(edges)[Edge(nb, id)]
  {
    if edges != [] {
      var front, e := edges[..|edges| - 1], edges[|edges| - 1];
      EndsCount(front, id, nb);
      EndsCountStep(Ends(front, id), e, id, nb);
      CountOneMore(front, e, Edge(id, nb));
      CountOneMore(front, e, Edge(nb, id));
      assert edges == front + [e];
    }
  }

  method AddEdge(adj: Adjacency, e: Edge) returns (more: Adjacency)
    ensures forall id :: Neighbours(more, id) ==
              Neighbours(adj, id) + (if e.from == id then [e.to] else []) + (if e.to == id then [e.from] else [])
  {
    more := adj[e.from := Neighbours(adj, e.from) + [e.to]];
    more := more[e.to := Neighbours(more, e.to) + [e.from]];
  }

  lemma EndsOneMore(edges: seq<Edge>, i: nat, id: Id)
    requires i < |edges|
    ensures Ends(edges[..i + 1], id) ==
            Ends(edges[..i], id) + (if edges[i].from == id then [edges[i].to] else [])
            + (if edges[i].to == id then [edges[i].from] else [])
  {
    assert edges[..i + 1][..i] == edges[..i];
  }

  method BuildAdjacency(g: Graph) returns (adj: Adjacency)
    ensures forall id :: Neighbours(adj, id) == Ends(g.edges, id)
  {
    adj := map[];
    for i := 0 to |g.edges|
      invariant forall id :: Neighbours(adj, id) == Ends(g.edges[..i], id)
    {
      adj := AddEdge(adj, g.edges[i]);
      forall id ensures Neighbours(adj, id) == Ends(g.edges[..i + 1], id) {
        EndsOneMore(g.edges, i, id);
      }
    }
    assert g.edges[..|g.edges|] == g.edges;
  }

  // ---------------------------------------------------------------- the page as a system

  /** What a search text matches; a blank one matches everything. */
  type Search = Id -> bool

  function Everything(): Search {
    id => true
  }

  /** `applyVisibility` leaves the node unhidden: a memory, or revealed, and matching the search. */
  predicate Visible(g: Graph, revealed: set<Id>, search: Search, id: Id) {
    HasNode(g, id) && (IsMemory(g, id) || id in revealed) && search(id)
  }

  function VisibleIds(g: Graph, revealed: set<Id>, search: Search): set<Id> {
    set i | 0 <= i < |g.nodes| && Visible(g, revealed, search, g.nodes[i].id) :: g.nodes[i].id
  }

  lemma VisibleIdsAre(g: Graph, revealed: set<Id>, search: Search, id: Id)
    ensures id in VisibleIds(g, revealed, search) <==> Visible(g, revealed, search, id)
  {
  }

  function Reveal(g: Graph, revealed: set<Id>, id: Id): set<Id> {
    revealed + {id} + set nb | nb in Ends(g.edges, id)
  }

  function Pruned(g: Graph, revealed: set<Id>): set<Id> {
    set id | id in revealed && HasNode(g, id)
  }

  /** `shown` are the nodes whose hidden flag is off. `canvas` is the search that the click
      handler of the drawn network applies, None while no network is drawn; `loading` is the one
      the handler of a network still being loaded will apply. */
  datatype State = State(
    revealed: set<Id>, search: Search, selected: Option<Id>, shown: set<Id>,
    canvas: Option<Search>, loading: Option<Search>)

  datatype Step =
    | CanvasClick(id: Id)
    | SidebarClick(id: Id)
    | Deselect
    | Type(search: Search)
    | Refresh
    | Loaded
    | Failed

  /** Only a drawn node can be clicked; the sidebar lists the selected node's neighbours, hidden
      ones too. */
  predicate Enabled(g: Graph, s: State, step: Step) {
    match step
    case CanvasClick(id) => s.canvas.Some? && id in s.shown
    case SidebarClick(id) => s.selected.Some? && id in Ends(g.edges, s.selected.value) && HasNode(g, id)
    case Deselect => s.canvas.Some?
    case Type(_) => true
    case Refresh => true
    case Loaded => s.loading.Some?
    case Failed => s.loading.Some?
  }

  /** `selectNode`, in a closure that has `search`. */
  function Selected(g: Graph, s: State, id: Id, search: Search): State {
    var revealed := Reveal(g, s.revealed, id);
    s.(selected := Some(id), revealed := revealed, shown := VisibleIds(g, revealed, search))
  }

  /** The first flags of a network do not depend on the search. */
  function Drawn(g: Graph, s: State): State {
    var revealed := Pruned(g, s.revealed);
    s.(revealed := revealed, shown := VisibleIds(g, revealed, Everything()), canvas := s.loading, loading := None)
  }

  function Next(g: Graph, s: State, step: Step): State
    requires Enabled(g, s, step)
  {
    match step
    case CanvasClick(id) => Selected(g, s, id, s.canvas.value)
    case SidebarClick(id) => Selected(g, s, id, s.search)
    case Deselect => s.(selected := None)
    case Type(search) => s.(search := search, shown := VisibleIds(g, s.revealed, search))
    case Refresh => s.(canvas := None, loading := Some(s.search))
    case Loaded => Drawn(g, s)
    case Failed => s.(loading := None)
  }

  /** The page after its first load, begun with a blank box; `typed` came while it ran. */
  function Fresh(g: Graph, typed: Search): State {
    State({}, typed, None, VisibleIds(g, {}, Everything()), Some(Everything()), None)
  }

  predicate CanRun(g: Graph, s: State, steps: seq<Step>)
    decreases |steps|
  {
    steps == [] || (Enabled(g, s, steps[0]) && CanRun(g, Next(g, s, steps[0]), steps[1..]))
  }

  function Run(g: Graph, s: State, steps: seq<Step>): State
    requires CanRun(g, s, steps)
    decreases |steps|
  {
    if steps == [] then s else Run(g, Next(g, s, steps[0]), steps[1..])
  }

  lemma RunCons(g: Graph, s: State, step: Step, rest: seq<Step>)
    requires Enabled(g, s, step) && CanRun(g, Next(g, s, step), rest)
    ensures CanRun(g, s, [step] + rest) && Run(g, s, [step] + rest) == Run(g, Next(g, s, step), rest)
  {
    assert ([step] + rest)[1..] == rest;
  }

  /** What is shown after each step: a click or a change of the box filters the memories and all
      that is revealed by then with its search, a load shows them unfiltered and has forgotten
      nothing, and nothing else changes what is shown. */
  lemma ShownAfterStep(g: Graph, s: State, step: Step, id: Id)
    requires Enabled(g, s, step)
    ensures var t := Next(g, s, step);
            id in t.shown <==>
              match step
              case CanvasClick(at) =>
                && HasNode(g, id) && s.canvas.value(id)
                && (IsMemory(g, id) || id in s.revealed || id == at || Linked(g, at, id))
              case SidebarClick(at) =>
                && HasNode(g, id) && s.search(id)
                && (IsMemory(g, id) || id in s.revealed || id == at || Linked(g, at, id))
              case Type(search) => HasNode(g, id) && search(id) && (IsMemory(g, id) || id in s.revealed)
              case Loaded => HasNode(g, id) && (IsMemory(g, id) || id in s.revealed)
              case _ => id in s.shown
  {
    if IsClick(step) {
      EndsAreLinked(g, step.id, id);
    }
  }

  predicate IsClick(step: Step) {
    step.CanvasClick? || step.SidebarClick?
  }

  /** What is selected decides which nodes the sidebar offers: the neighbours of the node clicked
      last, and none after a deselection. */
  lemma SidebarOffers(g: Graph, s: State, step: Step, id: Id)
    requires Enabled(g, s, step)
    ensures var t := Next(g, s, step);
            Enabled(g, t, SidebarClick(id)) <==>
              match step
              case CanvasClick(at) => HasNode(g, id) && Linked(g, at, id)
              case SidebarClick(at) => HasNode(g, id) && Linked(g, at, id)
              case Deselect => false
              case _ => Enabled(g, s, SidebarClick(id))
  {
    if IsClick(step) {
      EndsAreLinked(g, step.id, id);
    }
  }

  /** A node once revealed stays revealed over any run, refreshes included. */
  lemma {:induction false} RevealedStays(g: Graph, s: State, steps: seq<Step>, id: Id)
    requires CanRun(g, s, steps) && HasNode(g, id) && id in s.revealed
    ensures id in Run(g, s, steps).revealed
    decreases |steps|
  {
    if steps != [] {
      RevealedStays(g, Next(g, s, steps[0]), steps[1..], id);
    }
  }

  /** A new network applies the text that was in the box at the last refresh, whatever was typed
      and clicked in the sidebar since. */
  lemma {:induction false} LoadKeepsTheRefreshText(g: Graph, s: State, steps: seq<Step>)
    requires CanRun(g, Next(g, s, Refresh), steps)
    requires forall i | 0 <= i < |steps| :: steps[i].Type? || steps[i].SidebarClick?
    ensures var t := Run(g, Next(g, s, Refresh), steps);
            && t.canvas == None && Enabled(g, t, Loaded) && Next(g, t, Loaded).canvas == Some(s.search)
  {
    LoadingStays(g, Next(g, s, Refresh), steps);
  }

  lemma {:induction false} LoadingStays(g: Graph, s: State, steps: seq<Step>)
    requires CanRun(g, s, steps) && forall i | 0 <= i < |steps| :: steps[i].Type? || steps[i].SidebarClick?
    ensures Run(g, s, steps).loading == s.loading && Run(g, s, steps).canvas == s.canvas
    decreases |steps|
  {
    if steps != [] {
      LoadingStays(g, Next(g, s, steps[0]), steps[1..]);
    }
  }

  ghost predicate OnlyClicks(steps: seq<Step>) {
    forall i | 0 <= i < |steps| :: IsClick(steps[i])
  }

  ghost predicate OnlyCanvas(steps: seq<Step>) {
    forall i | 0 <= i < |steps| :: steps[i].CanvasClick?
  }

  // ---------------------------------------------------------------- only what is connected

  /** A path of nodes, each linked to the next, from a memory to `id`. */
  ghost predicate PathTo(g: Graph, path: seq<Id>, id: Id) {
    && path != [] && IsMemory(g, path[0]) && path[|path| - 1] == id
    && (forall i | 0 <= i < |path| :: HasNode(g, path[i]))
    && (forall i | 0 < i < |path| :: Linked(g, path[i - 1], path[i]))
  }

  ghost predicate Connected(g: Graph, id: Id) {
    exists path :: PathTo(g, path, id)
  }

  /** Whatever is revealed and a node of the graph is connected to a memory. */
  ghost predicate OnlyConnected(g: Graph, revealed: set<Id>) {
    forall id | id in revealed && HasNode(g, id) :: Connected(g, id)
  }

  /** What is shown is a memory or revealed, and what is selected is connected. */
  ghost predicate Sound(g: Graph, s: State) {
    && OnlyConnected(g, s.revealed)
    && (forall id | id in s.shown :: Visible(g, s.revealed, Everything(), id))
    && (s.selected.Some? ==> Connected(g, s.selected.value))
  }

  lemma VisibleIsConnected(g: Graph, revealed: set<Id>, search: Search, id: Id)
    requires OnlyConnected(g, revealed) && Visible(g, revealed, search, id)
    ensures Connected(g, id)
  {
    if IsMemory(g, id) {
      assert PathTo(g, [id], id);
    }
  }

  lemma NeighbourIsConnected(g: Graph, id: Id, nb: Id)
    requires Connected(g, id) && nb in Ends(g.edges, id) && HasNode(g, nb)
    ensures Connected(g, nb)
  {
    var path :| PathTo(g, path, id);
    EndsAreLinked(g, id, nb);
    assert PathTo(g, path + [nb], nb);
  }

  lemma SelectedIsSound(g: Graph, s: State, id: Id, search: Search)
    requires OnlyConnected(g, s.revealed) && Connected(g, id)
    ensures Sound(g, Selected(g, s, id, search))
  {
    forall nb | nb in Ends(g.edges, id) && HasNode(g, nb) ensures Connected(g, nb) {
      NeighbourIsConnected(g, id, nb);
    }
  }

  lemma SoundStep(g: Graph, s: State, step: Step)
    requires Sound(g, s) && Enabled(g, s, step)
    ensures Sound(g, Next(g, s, step))
  {
    match step
    case CanvasClick(id) =>
      VisibleIsConnected(g, s.revealed, Everything(), id);
      SelectedIsSound(g, s, id, s.canvas.value);
    case SidebarClick(id) =>
      NeighbourIsConnected(g, s.selected.value, id);
      SelectedIsSound(g, s, id, s.search);
    case _ =>
  }

  lemma {:induction false} SoundRun(g: Graph, s: State, steps: seq<Step>)
    requires Sound(g, s) && CanRun(g, s, steps)
    ensures Sound(g, Run(g, s, steps))
    decreases |steps|
  {
    if steps != [] {
      SoundStep(g, s, steps[0]);
      SoundRun(g, Next(g, s, steps[0]), steps[1..]);
    }
  }

  /** After any clicks on the canvas and in the sidebar, searches and refreshes, every shown node
      is connected by a path to a memory. */
  lemma AfterAnyRun(g: Graph, typed: Search, steps: seq<Step>, id: Id)
    requires CanRun(g, Fresh(g, typed), steps) && id in Run(g, Fresh(g, typed), steps).shown
    ensures Connected(g, id)
  {
    SoundRun(g, Fresh(g, typed), steps);
    VisibleIsConnected(g, Run(g, Fresh(g, typed), steps).revealed, Everything(), id);
  }

  // ---------------------------------------------------------------- all that is connected

  ghost predicate Path(g: Graph, path: seq<Id>) {
    && path != []
    && (forall i | 0 <= i < |path| :: HasNode(g, path[i]))
    && (forall i | 0 < i < |path| :: Linked(g, path[i - 1], path[i]))
  }

  lemma PathRest(g: Graph, path: seq<Id>)
    requires Path(g, path) && |path| > 1
    ensures Path(g, path[1..]) && path[1] in Ends(g.edges, path[0])
  {
    assert Linked(g, path[0], path[1]);
    EndsAreLinked(g, path[0], path[1]);
    var rest := path[1..];
    forall i | 0 < i < |rest| ensures Linked(g, rest[i - 1], rest[i]) {
      assert Linked(g, path[i], path[i + 1]);
    }
  }

  /** On a network loaded with a blank box, clicking along a path shows its end. */
  lemma {:induction false} CanvasAlong(g: Graph, s: State, path: seq<Id>) returns (steps: seq<Step>)
    requires Path(g, path) && s.canvas == Some(Everything()) && path[0] in s.shown
    ensures CanRun(g, s, steps) && path[|path| - 1] in Run(g, s, steps).shown
    ensures OnlyCanvas(steps)
    decreases |path|
  {
    steps := [];
    if |path| > 1 {
      PathRest(g, path);
      var rest := CanvasAlong(g, Next(g, s, CanvasClick(path[0])), path[1..]);
      RunCons(g, s, CanvasClick(path[0]), rest);
      steps := [CanvasClick(path[0])] + rest;
    }
  }

  /** With a blank box, so does clicking along it in the sidebar. */
  lemma {:induction false} SidebarAlong(g: Graph, s: State, path: seq<Id>) returns (steps: seq<Step>)
    requires Path(g, path) && |path| > 1 && s.search == Everything() && s.selected == Some(path[0])
    ensures CanRun(g, s, steps) && path[|path| - 1] in Run(g, s, steps).shown
    ensures OnlyClicks(steps)
    decreases |path|
  {
    PathRest(g, path);
    var step, rest := SidebarClick(path[1]), [];
    if |path| > 2 {
      rest := SidebarAlong(g, Next(g, s, step), path[1..]);
    }
    RunCons(g, s, step, rest);
    steps := [step] + rest;
  }

  /** With a blank box and the memories shown, clicks alone show any connected node, whatever
      search the drawn network applies. */
  lemma ClicksReveal(g: Graph, s: State, id: Id) returns (steps: seq<Step>)
    requires Connected(g, id) && s.search == Everything() && s.canvas.Some?
    requires forall x | IsMemory(g, x) :: x in s.shown
    ensures CanRun(g, s, steps) && id in Run(g, s, steps).shown
    ensures OnlyClicks(steps)
  {
    var path :| PathTo(g, path, id);
    steps := [];
    if |path| > 1 {
      var rest := SidebarAlong(g, Next(g, s, CanvasClick(path[0])), path);
      RunCons(g, s, CanvasClick(path[0]), rest);
      steps := [CanvasClick(path[0])] + rest;
    }
  }

  /** From any state at all a connected node can be shown: clear the box, refresh and click. */
  lemma ConnectedCanBeRevealed(g: Graph, s: State, id: Id) returns (steps: seq<Step>)
    requires Connected(g, id)
    ensures CanRun(g, s, steps) && id in Run(g, s, steps).shown
  {
    var path :| PathTo(g, path, id);
    var s1 := Next(g, s, Type(Everything()));
    var s2 := Next(g, s1, Refresh);
    var s3 := Next(g, s2, Loaded);
    var clicks := CanvasAlong(g, s3, path);
    RunCons(g, s2, Loaded, clicks);
    RunCons(g, s1, Refresh, [Loaded] + clicks);
    RunCons(g, s, Type(Everything()), [Refresh] + ([Loaded] + clicks));
    steps := [Type(Everything())] + ([Refresh] + ([Loaded] + clicks));
  }

  /** On a fresh page some clicks show a node exactly when it is connected to a memory. */
  lemma RevealableIffConnected(g: Graph, typed: Search, id: Id)
    ensures Connected(g, id) <==>
            exists steps :: && OnlyClicks(steps) && CanRun(g, Fresh(g, typed), steps)
                            && id in Run(g, Fresh(g, typed), steps).shown
  {
    if Connected(g, id) {
      var path :| PathTo(g, path, id);
      var steps := CanvasAlong(g, Fresh(g, typed), path);
      assert OnlyClicks(steps);
    }
    forall steps | CanRun(g, Fresh(g, typed), steps) && id in Run(g, Fresh(g, typed), steps).shown
      ensures Connected(g, id)
    {
      AfterAnyRun(g, typed, steps, id);
    }
  }

  // ---------------------------------------------------------------- what a click hides

  /** The search that a click applies. */
  function Applied(s: State, click: Step): Search
    requires IsClick(click) && (click.CanvasClick? ==> s.canvas.Some?)
  {
    if click.CanvasClick? then s.canvas.value else s.search
  }

  /** A click hides nothing exactly when all that is shown matches the search it applies. */
  lemma ClickHidesNothingIff(g: Graph, s: State, click: Step)
    requires Sound(g, s) && IsClick(click) && Enabled(g, s, click)
    ensures s.shown <= Next(g, s, click).shown <==> forall id | id in s.shown :: Applied(s, click)(id)
    ensures forall id | id in Next(g, s, click).shown :: Applied(s, click)(id)
  {
    var t, search := Next(g, s, click), Applied(s, click);
    forall id | id in s.shown ensures id in t.shown <==> search(id) {
      VisibleIdsAre(g, t.revealed, search, id);
      assert Visible(g, s.revealed, Everything(), id);
    }
  }

  /** Clicks only add to what is shown while all of it matches the search the network was loaded
      with, and, for clicks in the sidebar, that is also the text in the box. */
  lemma {:induction false} NothingIsHiddenAgain(g: Graph, s: State, steps: seq<Step>)
    requires Sound(g, s) && s.canvas.Some? && CanRun(g, s, steps)
    requires OnlyClicks(steps) && (OnlyCanvas(steps) || s.canvas.value == s.search)
    requires forall id | id in s.shown :: s.canvas.value(id)
    ensures s.shown <= Run(g, s, steps).shown
    decreases |steps|
  {
    if steps != [] {
      ClickHidesNothingIff(g, s, steps[0]);
      SoundStep(g, s, steps[0]);
      NothingIsHiddenAgain(g, Next(g, s, steps[0]), steps[1..]);
    }
  }

  ghost predicate NeverHides(g: Graph, s: State) {
    forall steps | OnlyCanvas(steps) && CanRun(g, s, steps) ::
      s.shown <= Run(g, s, steps).shown
  }

  /** No run of canvas clicks hides anything if and only if all that is shown matches the search
      the network was loaded with. */
  lemma CanvasNeverHidesIff(g: Graph, s: State)
    requires Sound(g, s) && s.canvas.Some?
    ensures NeverHides(g, s) <==> forall id | id in s.shown :: s.canvas.value(id)
  {
    if forall id | id in s.shown :: s.canvas.value(id) {
      forall steps | OnlyCanvas(steps) && CanRun(g, s, steps)
        ensures s.shown <= Run(g, s, steps).shown
      {
        NothingIsHiddenAgain(g, s, steps);
      }
    }
    if NeverHides(g, s) {
      forall id | id in s.shown ensures s.canvas.value(id) {
        RunCons(g, s, CanvasClick(id), []);
        var steps := [CanvasClick(id)] + [];
        assert s.shown <= Run(g, s, steps).shown;
        ClickHidesNothingIff(g, s, CanvasClick(id));
      }
    }
  }

  const TWO := Graph([Node("a", Memory), Node("b", Memory)], [])

  function OnlyA(): Search {
    id => id == "a"
  }

  /** Search, refresh, clear the box: both memories are shown again, and a click on either hides
      one of them. */
  lemma StaleSearchHides(clicked: Id)
    requires clicked == "a" || clicked == "b"
    ensures var steps := [Type(OnlyA()), Refresh, Loaded, Type(Everything())];
            && CanRun(TWO, Fresh(TWO, Everything()), steps)
            && var s := Run(TWO, Fresh(TWO, Everything()), steps);
            && s.search == Everything() && s.shown == {"a", "b"}
            && Enabled(TWO, s, CanvasClick(clicked)) && Next(TWO, s, CanvasClick(clicked)).shown == {"a"}
  {
    var s0 := Fresh(TWO, Everything());
    var s1 := Next(TWO, s0, Type(OnlyA()));
    var s2 := Next(TWO, s1, Refresh);
    var s3 := Next(TWO, s2, Loaded);
    RunCons(TWO, s3, Type(Everything()), []);
    RunCons(TWO, s2, Loaded, [Type(Everything())] + []);
    RunCons(TWO, s1, Refresh, [Loaded] + ([Type(Everything())] + []));
    RunCons(TWO, s0, Type(OnlyA()), [Refresh] + ([Loaded] + ([Type(Everything())] + [])));
    assert [Type(OnlyA())] + ([Refresh] + ([Loaded] + ([Type(Everything())] + []))) ==
           [Type(OnlyA()), Refresh, Loaded, Type(Everything())];
    assert TWO.nodes[0].id == "a" && TWO.nodes[1].id == "b";
  }

  /** The pruning of a refresh hides nothing and reveals nothing, whatever the new graph. */
  lemma PruningIsInvisible(g: Graph, revealed: set<Id>, search: Search, id: Id)
    ensures Visible(g, Pruned(g, revealed), search, id) <==> Visible(g, revealed, search, id)
    ensures OnlyConnected(g, Pruned(g, revealed)) <==> OnlyConnected(g, revealed)
  {
    if OnlyConnected(g, Pruned(g, revealed)) {
      forall x | x in revealed && HasNode(g, x) ensures Connected(g, x) {
        assert x in Pruned(g, revealed);
      }
    }
  }

  // ---------------------------------------------------------------- the page

  ghost predicate DistinctIds(g: Graph) {
    forall i, j | 0 <= i < j < |g.nodes| :: g.nodes[i].id != g.nodes[j].id
  }

  class MemoryPage {
    var graph: Graph
    var adj: Adjacency
    var revealed: set<Id>
    var search: Search
    var selected: Option<Id>
    var shown: set<Id>
    var canvas: Option<Search>
    var loading: Option<Search>

    ghost predicate Valid()
      reads this
    {
      (forall id :: Neighbours(adj, id) == Ends(graph.edges, id)) && DistinctIds(graph)
    }

    function View(): State
      reads this
    {
      State(revealed, search, selected, shown, canvas, loading)
    }

    /** The page whose first load brought `g`. */
    constructor (g: Graph, typed: Search)
      requires DistinctIds(g)
      ensures Valid() && graph == g && View() == Fresh(g, typed)
    {
      graph, revealed, search, selected, shown, loading := g, {}, typed, None, {}, Some(Everything());
      canvas, adj := None, map[];
      new;
      Load(g);
    }

    /** The load effect once its answer is there: a refresh keeps the revealed ids that still
        are nodes, and the new network gets the handler of the render that asked for it. */
    method Load(g: Graph)
      requires loading.Some? && DistinctIds(g)
      modifies this
      ensures Valid() && graph == g && View() == Drawn(g, old(View()))
    {
      graph := g;
      var ids := set i | 0 <= i < |g.nodes| :: g.nodes[i].id;
      revealed := set id | id in revealed && id in ids;
      adj := BuildAdjacency(g);
      canvas, loading := loading, None;
      ApplyVisibility(Everything());
    }

    method RevealNeighbors(id: Id)
      requires Valid()
      modifies this`revealed
      ensures revealed == Reveal(graph, old(revealed), id)
    {
      revealed := revealed + {id};
      var nbs := Neighbours(adj, id);
      for i := 0 to |nbs|
        invariant revealed == old(revealed) + {id} + set nb | nb in nbs[..i]
      {
        revealed := revealed + {nbs[i]};
        assert nbs[..i + 1] == nbs[..i] + [nbs[i]];
      }
      assert nbs[..|nbs|] == nbs;
    }

    /** `applyVisibility`: sets the hidden flag of every node. */
    method ApplyVisibility(search: Search)
      requires DistinctIds(graph)
      modifies this`shown
      ensures shown == VisibleIds(graph, revealed, search)
    {
      shown := {};
      for i := 0 to |graph.nodes|
        invariant shown ==
          set j | 0 <= j < i && Visible(graph, revealed, search, graph.nodes[j].id) :: graph.nodes[j].id
      {
        var n, hidden := graph.nodes[i], false;
        assert HasNode(graph, n.id) && (IsMemory(graph, n.id) <==> n.kind == Memory);
        if n.kind != Memory && n.id !in revealed {
          hidden := true;
        }
        if !search(n.id) {
          hidden := true;
        }
        if !hidden {
          shown := shown + {n.id};
        }
      }
    }

    /** `selectNode` as the closure of a render with `search` has it. */
    method SelectNode(id: Id, search: Search)
      requires Valid()
      modifies this`selected, this`revealed, this`shown
      ensures View() == Selected(graph, old(View()), id, search)
    {
      selected := Some(id);
      RevealNeighbors(id);
      ApplyVisibility(search);
    }

    method OnCanvasClick(id: Id)
      requires Valid() && Enabled(graph, View(), CanvasClick(id))
      modifies this`selected, this`revealed, this`shown
      ensures View() == Next(graph, old(View()), CanvasClick(id))
    {
      SelectNode(id, canvas.value);
    }

    method OnSidebarClick(id: Id)
      requires Valid() && Enabled(graph, View(), SidebarClick(id))
      modifies this`selected, this`revealed, this`shown
      ensures View() == Next(graph, old(View()), SidebarClick(id))
    {
      SelectNode(id, search);
    }

    /** A change of the box renders, and the effect on `applyVisibility` applies it. */
    method OnType(search: Search)
      requires Valid()
      modifies this`search, this`shown
      ensures View() == Next(graph, old(View()), Type(search))
    {
      this.search := search;
      ApplyVisibility(search);
    }

    method OnDeselect()
      requires Enabled(graph, View(), Deselect)
      modifies this`selected
      ensures View() == Next(graph, old(View()), Deselect)
    {
      selected := None;
    }

    /** A new run of the load effect tears the network down first. */
    method OnRefresh()
      modifies this`canvas, this`loading
      ensures View() == Next(graph, old(View()), Refresh)
    {
      canvas := None;
      loading := Some(search);
    }
  }
}
