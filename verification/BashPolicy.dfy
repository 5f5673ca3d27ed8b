/** The shell policy grid: an optimistic overlay over the server's policy, cells that cycle on
    click, and commands added before the server knows them. */
module BashPolicy {
  import opened Text
  import opened StringOrder

  datatype TriState = Allow | Deny | Bubble
  datatype Layer = Global | Project | Session

  /** A row of the policy. Its list of patterns equals no cell state, so it is left out. */
  datatype Row = Row(factory: TriState, global: TriState, project: TriState, session: TriState, effective: TriState)

  /** The commands in the snapshot's own order. */
  datatype Entry = Entry(cmd: string, row: Row)
  type Policy = seq<Entry>
  type Overlay = map<string, TriState>

  function LayerName(layer: Layer): string {
    match layer
    case Global => "global"
    case Project => "project"
    case Session => "session"
  }

  function Cell(row: Row, layer: Layer): TriState {
    match layer
    case Global => row.global
    case Project => row.project
    case Session => row.session
  }

  /** `row[name]` for any text. */
  function Field(row: Row, name: string): Option<TriState> {
    if name == "factory" then Some(row.factory)
    else if name == "global" then Some(row.global)
    else if name == "project" then Some(row.project)
    else if name == "session" then Some(row.session)
    else if name == "effective" then Some(row.effective)
    else None
  }

  lemma FieldOfLayer(row: Row, layer: Layer)
    ensures Field(row, LayerName(layer)) == Some(Cell(row, layer))
  {
  }

  function RowOf(policy: Policy, cmd: string): Option<Row> {
    if policy == [] then None
    else if policy[0].cmd == cmd then Some(policy[0].row)
    else RowOf(policy[1..], cmd)
  }

  function Names(policy: Policy): seq<string> {
    if policy == [] then [] else [policy[0].cmd] + Names(policy[1..])
  }

  function Key(cmd: string, layer: Layer): string {
    cmd + [':'] + LayerName(layer)
  }

  /** The first two parts of `key.split(":")`. */
  function SplitKey(key: string): (string, string) {
    var i := First(key, ':');
    if i == |key| then (key, "")
    else var rest := key[i + 1..]; (key[..i], rest[..First(rest, ':')])
  }

  /** What the reconciliation takes for the server's state of an overlay key. */
  function ServerState(policy: Policy, key: string): Option<TriState> {
    var (cmd, layer) := SplitKey(key);
    match RowOf(policy, cmd)
    case None => None
    case Some(row) => Field(row, layer)
  }

  /** The policy's cell, bubble for a command it does not know. */
  function PolicyCell(policy: Policy, cmd: string, layer: Layer): TriState {
    match RowOf(policy, cmd)
    case None => Bubble
    case Some(row) => Cell(row, layer)
  }

  /** `readState`: the displayed cell. */
  function Displayed(policy: Policy, overlay: Overlay, cmd: string, layer: Layer): TriState {
    if Key(cmd, layer) in overlay then overlay[Key(cmd, layer)] else PolicyCell(policy, cmd, layer)
  }

  function Reconciled(policy: Policy, overlay: Overlay): Overlay {
    map k | k in overlay && ServerState(policy, k) != Some(overlay[k]) :: overlay[k]
  }

  /** `nextStateForward` */
  function Cycle(t: TriState): TriState {
    match t
    case Bubble => Allow
    case Allow => Deny
    case Deny => Bubble
  }

  // ---------------------------------------------------------------- keys

  lemma SplitOfKey(cmd: string, layer: Layer)
    requires ':' !in cmd
    ensures SplitKey(Key(cmd, layer)) == (cmd, LayerName(layer))
  {
    FirstSeparator(cmd, LayerName(layer), ':');
    var name := LayerName(layer);
    assert name[..|name|] == name;
    assert forall i | 0 <= i < |name| :: name[i] != ':';
    FirstAbsent(name, ':');
  }

  /** Different cells have different keys, colons in command names or not. */
  lemma KeyInjective(cmd: string, layer: Layer, cmd': string, layer': Layer)
    ensures Key(cmd, layer) == Key(cmd', layer') <==> cmd == cmd' && layer == layer'
  {
    var k, k' := Key(cmd, layer), Key(cmd', layer');
    var n, n' := LayerName(layer), LayerName(layer');
    assert k[|k| - 1] == n[|n| - 1] && k'[|k'| - 1] == n'[|n'| - 1];
    assert k[..|cmd|] == cmd && k'[..|cmd'|] == cmd';
  }

  // ---------------------------------------------------------------- reconciling

  /** An override stays exactly where it disagrees with an explicit cell or has no row. */
  predicate StaysIffDisagrees(policy: Policy, overlay: Overlay, cmd: string, layer: Layer) {
    Key(cmd, layer) in Reconciled(policy, overlay) <==>
      && Key(cmd, layer) in overlay
      && (RowOf(policy, cmd).Some? ==> Cell(RowOf(policy, cmd).value, layer) != overlay[Key(cmd, layer)])
  }

  /** For a command name without a colon no displayed cell changes, and an override stays only
      where it disagrees with the policy. */
  lemma ReconcileIsInvisible(policy: Policy, overlay: Overlay, cmd: string, layer: Layer)
    requires ':' !in cmd
    ensures Displayed(policy, Reconciled(policy, overlay), cmd, layer) == Displayed(policy, overlay, cmd, layer)
    ensures StaysIffDisagrees(policy, overlay, cmd, layer)
  {
    SplitOfKey(cmd, layer);
    if RowOf(policy, cmd).Some? {
      FieldOfLayer(RowOf(policy, cmd).value, layer);
    }
  }

  /** What stands between a name's first colon and its second, or its end. */
  function SecondPart(cmd: string): string
    requires ':' in cmd
  {
    FirstCuts(cmd, ':');
    var rest := cmd[First(cmd, ':') + 1..];
    rest[..First(rest, ':')]
  }

  predicate IsField(name: string) {
    name in {"factory", "global", "project", "session", "effective"}
  }

  /** The name's overlay keys are taken for those of another command's row. */
  predicate Misread(cmd: string) {
    ':' in cmd && IsField(SecondPart(cmd))
  }

  lemma SplitAfterColon(a: string, rest: string)
    requires ':' !in a
    ensures SplitKey(a + [':'] + rest) == (a, rest[..First(rest, ':')])
  {
    FirstSeparator(a, rest, ':');
  }

  /** What is put behind another colon does not change what stands before the first one. */
  lemma FirstPartStays(rest: string, tail: string)
    ensures var longer := rest + [':'] + tail; longer[..First(longer, ':')] == rest[..First(rest, ':')]
  {
    if ':' in rest {
      FirstCuts(rest, ':');
      var j := First(rest, ':');
      assert rest + [':'] + tail == rest[..j] + [':'] + (rest[j + 1..] + [':'] + tail);
      FirstSeparator(rest[..j], rest[j + 1..] + [':'] + tail, ':');
    } else {
      FirstAbsent(rest, ':');
      FirstSeparator(rest, tail, ':');
    }
  }

  lemma Regroup(a: string, rest: string, tail: string)
    ensures (a + [':'] + rest) + [':'] + tail == a + [':'] + (rest + [':'] + tail)
  {
  }

  /** With a colon in the name the layer does not even reach the lookup. */
  lemma SplitOfColonKey(cmd: string, layer: Layer)
    requires ':' in cmd
    ensures SplitKey(Key(cmd, layer)) == (cmd[..First(cmd, ':')], SecondPart(cmd))
  {
    FirstCuts(cmd, ':');
    var i := First(cmd, ':');
    var rest := cmd[i + 1..];
    Regroup(cmd[..i], rest, LayerName(layer));
    SplitAfterColon(cmd[..i], rest + [':'] + LayerName(layer));
    FirstPartStays(rest, LayerName(layer));
  }

  lemma FieldIff(row: Row, name: string)
    ensures Field(row, name).Some? <==> IsField(name)
  {
  }

  const ALLOWED := Row(Allow, Allow, Allow, Allow, Allow)

  /** A misread override of a command the policy does not know is dropped as soon as the other
      command's row has the same state, and the cell falls back to bubble. */
  lemma MisreadLosesOverride(cmd: string, layer: Layer)
    requires Misread(cmd)
    ensures var policy := [Entry(cmd[..First(cmd, ':')], ALLOWED)];
            var overlay := map[Key(cmd, layer) := Allow];
            && RowOf(policy, cmd) == None
            && Reconciled(policy, overlay) == map[]
            && Displayed(policy, overlay, cmd, layer) == Allow
            && Displayed(policy, Reconciled(policy, overlay), cmd, layer) == Bubble
  {
    SplitOfColonKey(cmd, layer);
    FirstCuts(cmd, ':');
    FieldIff(ALLOWED, SecondPart(cmd));
  }

  ghost predicate CellsSurvive(cmd: string) {
    forall policy: Policy, overlay: Overlay, layer: Layer ::
      Displayed(policy, Reconciled(policy, overlay), cmd, layer) == Displayed(policy, overlay, cmd, layer)
  }

  /** Every cell of a command survives every reconciliation exactly when its keys are not
      misread: no colon, or no field of a row between the first colon and the next. */
  lemma CellsSurviveIff(cmd: string)
    ensures CellsSurvive(cmd) <==> !Misread(cmd)
  {
    if Misread(cmd) {
      MisreadLosesOverride(cmd, Global);
      var policy := [Entry(cmd[..First(cmd, ':')], ALLOWED)];
      var overlay := map[Key(cmd, Global) := Allow];
      assert Displayed(policy, Reconciled(policy, overlay), cmd, Global) != Displayed(policy, overlay, cmd, Global);
    } else {
      forall policy: Policy, overlay: Overlay, layer: Layer
        ensures Displayed(policy, Reconciled(policy, overlay), cmd, layer) == Displayed(policy, overlay, cmd, layer)
      {
        CellSurvives(policy, overlay, cmd, layer);
      }
    }
  }

  lemma CellSurvives(policy: Policy, overlay: Overlay, cmd: string, layer: Layer)
    requires !Misread(cmd)
    ensures Displayed(policy, Reconciled(policy, overlay), cmd, layer) == Displayed(policy, overlay, cmd, layer)
  {
    if ':' in cmd {
      SplitOfColonKey(cmd, layer);
      var row := RowOf(policy, cmd[..First(cmd, ':')]);
      if row.Some? {
        FieldIff(row.value, SecondPart(cmd));
      }
    } else {
      ReconcileIsInvisible(policy, overlay, cmd, layer);
    }
  }

  /** Misread, the override goes although its command has no row; otherwise it stays although it
      agrees with the row. */
  lemma ColonOverrideIsOff(cmd: string) returns (policy: Policy)
    requires ':' in cmd
    ensures !StaysIffDisagrees(policy, map[Key(cmd, Global) := Allow], cmd, Global)
  {
    if Misread(cmd) {
      policy := [Entry(cmd[..First(cmd, ':')], ALLOWED)];
      MisreadLosesOverride(cmd, Global);
    } else {
      policy := [Entry(cmd, ALLOWED)];
      SplitOfColonKey(cmd, Global);
      FirstCuts(cmd, ':');
    }
  }

  ghost predicate OverridesReconcile(cmd: string) {
    forall policy: Policy, overlay: Overlay, layer: Layer :: StaysIffDisagrees(policy, overlay, cmd, layer)
  }

  /** Every reconciliation keeps just the overrides of a command that disagree with its own row
      exactly when the name has no colon. */
  lemma OverridesReconcileIff(cmd: string)
    ensures OverridesReconcile(cmd) <==> ':' !in cmd
  {
    if ':' in cmd {
      var policy := ColonOverrideIsOff(cmd);
      assert !StaysIffDisagrees(policy, map[Key(cmd, Global) := Allow], cmd, Global);
    } else {
      forall policy: Policy, overlay: Overlay, layer: Layer ensures StaysIffDisagrees(policy, overlay, cmd, layer) {
        ReconcileIsInvisible(policy, overlay, cmd, layer);
      }
    }
  }

  // ---------------------------------------------------------------- the panel as a system

  predicate IsNameChar(c: char) {
    'a' <= c <= 'z' || 'A' <= c <= 'Z' || '0' <= c <= '9' || c == '.' || c == '_' || c == '-'
  }

  /** `^[A-Za-z0-9][A-Za-z0-9._-]{0,63}$` */
  predicate ValidName(name: string) {
    && 1 <= |name| <= 64
    && name[0] !in "._-"
    && forall i | 0 <= i < |name| :: IsNameChar(name[i])
  }

  datatype Save = Save(cmd: string, layer: Layer, state: TriState)

  datatype State = State(policy: Policy, overlay: Overlay, pending: seq<string>, saves: seq<Save>)

  /** A new snapshot, a click on an editable cell, a typed command name (lower-cased). */
  datatype Step = Snapshot(policy: Policy) | Click(cmd: string, layer: Layer) | Add(name: string, layer: Layer)

  function Missing(names: seq<string>, known: seq<string>): seq<string> {
    if names == [] then []
    else (if names[0] in known then [] else [names[0]]) + Missing(names[1..], known)
  }

  /** `allCommands` */
  function AllCommands(s: State): seq<string> {
    Sort(Names(s.policy) + Missing(s.pending, Names(s.policy)))
  }

  predicate Adds(s: State, name: string) {
    var cmd := Trim(name);
    cmd != "" && ValidName(cmd) && cmd !in AllCommands(s)
  }

  function Put(s: State, cmd: string, layer: Layer, t: TriState): State {
    s.(overlay := s.overlay[Key(cmd, layer) := t], saves := s.saves + [Save(cmd, layer, t)])
  }

  function Next(s: State, step: Step): State {
    match step
    case Snapshot(policy) => s.(policy := policy, overlay := Reconciled(policy, s.overlay))
    case Click(cmd, layer) => Put(s, cmd, layer, Cycle(Displayed(s.policy, s.overlay, cmd, layer)))
    case Add(name, layer) =>
      if Adds(s, name) then Put(s.(pending := s.pending + [Trim(name)]), Trim(name), layer, Allow) else s
  }

  function Run(s: State, steps: seq<Step>): State
    decreases |steps|
  {
    if steps == [] then s else Run(Next(s, steps[0]), steps[1..])
  }

  ghost predicate GoodStep(step: Step) {
    step.Snapshot? ==> Distinct(Names(step.policy))
  }

  /** A new snapshot moves no cell of a command without a colon away from what it shows over the
      new policy, and leaves it an override only where it disagrees with the policy. */
  lemma SnapshotStep(s: State, policy: Policy, cmd: string, layer: Layer)
    requires ':' !in cmd
    ensures var t := Next(s, Snapshot(policy));
            && t.policy == policy && t.pending == s.pending && t.saves == s.saves
            && Displayed(t.policy, t.overlay, cmd, layer) == Displayed(policy, s.overlay, cmd, layer)
            && (Key(cmd, layer) in t.overlay <==>
                  && Key(cmd, layer) in s.overlay
                  && (RowOf(policy, cmd).Some? ==>
                        PolicyCell(policy, cmd, layer) != s.overlay[Key(cmd, layer)]))
  {
    ReconcileIsInvisible(policy, s.overlay, cmd, layer);
  }

  // ---------------------------------------------------------------- clicks

  function CycleTimes(n: nat, t: TriState): TriState {
    if n == 0 then t else Cycle(CycleTimes(n - 1, t))
  }

  function ClickTimes(n: nat, s: State, cmd: string, layer: Layer): State {
    if n == 0 then s else Next(ClickTimes(n - 1, s, cmd, layer), Click(cmd, layer))
  }

  /** Between snapshots n clicks show and save the cycle applied n times, and no other cell of
      the grid moves. */
  lemma {:induction false} ClicksCycle(n: nat, s: State, cmd: string, layer: Layer, other: string, otherLayer: Layer)
    ensures var t := ClickTimes(n, s, cmd, layer);
            && t.policy == s.policy && t.pending == s.pending
            && Displayed(t.policy, t.overlay, cmd, layer) == CycleTimes(n, Displayed(s.policy, s.overlay, cmd, layer))
            && (other != cmd || otherLayer != layer ==>
                  Displayed(t.policy, t.overlay, other, otherLayer) == Displayed(s.policy, s.overlay, other, otherLayer))
            && |t.saves| == |s.saves| + n
            && (n > 0 ==> t.saves[|t.saves| - 1] == Save(cmd, layer, Displayed(t.policy, t.overlay, cmd, layer)))
  {
    if n > 0 {
      ClicksCycle(n - 1, s, cmd, layer, other, otherLayer);
      KeyInjective(cmd, layer, other, otherLayer);
    }
  }

  /** Three clicks come back. */
  lemma ThreeClicksComeBack(s: State, cmd: string, layer: Layer)
    ensures var t := ClickTimes(3, s, cmd, layer);
            Displayed(t.policy, t.overlay, cmd, layer) == Displayed(s.policy, s.overlay, cmd, layer)
  {
    ClicksCycle(3, s, cmd, layer, cmd, layer);
    var d := Displayed(s.policy, s.overlay, cmd, layer);
    assert CycleTimes(3, d) == Cycle(CycleTimes(2, d)) == Cycle(Cycle(CycleTimes(1, d))) == Cycle(Cycle(Cycle(d)));
  }

  /** From a cell that shows bubble the clicks show allow, deny and bubble in turn, from any other
      cell they go on from there. */
  lemma {:induction false} ClicksShow(n: nat, s: State, cmd: string, layer: Layer, shift: nat)
    requires shift < 3 && Displayed(s.policy, s.overlay, cmd, layer) == [Bubble, Allow, Deny][shift]
    ensures var t := ClickTimes(n, s, cmd, layer);
            Displayed(t.policy, t.overlay, cmd, layer) == [Bubble, Allow, Deny][(n + shift) % 3]
  {
    if n > 0 {
      ClicksShow(n - 1, s, cmd, layer, shift);
    }
  }

  lemma {:induction false} RowAt(policy: Policy, i: nat)
    requires Distinct(Names(policy)) && i < |policy|
    ensures RowOf(policy, policy[i].cmd) == Some(policy[i].row)
  {
    NamesAre(policy);
    if i > 0 {
      assert Names(policy)[0] != Names(policy)[i];
      var rest := policy[1..];
      NamesAre(rest);
      assert forall j, k | 0 <= j < k < |rest| :: Names(rest)[j] == Names(policy)[j + 1] && Names(rest)[k] == Names(policy)[k + 1];
      RowAt(rest, i - 1);
    }
  }

  lemma {:induction false} NamesAre(policy: Policy)
    ensures |Names(policy)| == |policy| && forall i | 0 <= i < |policy| :: Names(policy)[i] == policy[i].cmd
  {
    if policy != [] {
      NamesAre(policy[1..]);
    }
  }

  lemma {:induction false} NoRow(policy: Policy, cmd: string)
    requires forall i | 0 <= i < |policy| :: policy[i].cmd != cmd
    ensures RowOf(policy, cmd) == None
  {
    if policy != [] {
      NoRow(policy[1..], cmd);
    }
  }

  /** Without overrides a cell shows the policy: the layer's own state in the command's row. */
  lemma PolicyIsShown(policy: Policy, i: nat)
    requires Distinct(Names(policy)) && i < |policy|
    ensures Displayed(policy, map[], policy[i].cmd, Global) == policy[i].row.global
    ensures Displayed(policy, map[], policy[i].cmd, Project) == policy[i].row.project
    ensures Displayed(policy, map[], policy[i].cmd, Session) == policy[i].row.session
  {
    RowAt(policy, i);
  }

  /** And bubble for a command that has no row. */
  lemma UnknownShowsBubble(policy: Policy, cmd: string, layer: Layer)
    requires forall i | 0 <= i < |policy| :: policy[i].cmd != cmd
    ensures Displayed(policy, map[], cmd, layer) == Bubble
  {
    NoRow(policy, cmd);
  }

  // ---------------------------------------------------------------- the command list

  lemma {:induction false} MissingOnly(names: seq<string>, known: seq<string>)
    requires Distinct(names)
    ensures Distinct(Missing(names, known))
    ensures forall x :: x in Missing(names, known) <==> x in names && x !in known
  {
    if names != [] {
      MissingOnly(names[1..], known);
      assert forall x :: x in names <==> x == names[0] || x in names[1..];
    }
  }

  /** The list has every known or pending command, once, in order. */
  lemma CommandsListed(s: State)
    requires Distinct(Names(s.policy)) && Distinct(s.pending)
    ensures Distinct(AllCommands(s)) && Sorted(AllCommands(s))
    ensures forall x :: x in AllCommands(s) <==> x in Names(s.policy) || x in s.pending
  {
    var known := Names(s.policy);
    MissingOnly(s.pending, known);
    DistinctConcat(known, Missing(s.pending, known));
    SortSorts(known + Missing(s.pending, known));
    SortKeepsDistinct(known + Missing(s.pending, known));
  }

  ghost predicate Listed(s: State) {
    && Distinct(Names(s.policy)) && Distinct(s.pending)
    && forall x | x in s.pending :: ValidName(x) && ':' !in x
  }

  lemma ListedStep(s: State, step: Step)
    requires Listed(s) && GoodStep(step)
    ensures Listed(Next(s, step))
  {
    CommandsListed(s);
    if step.Add? && Adds(s, step.name) {
      var cmd := Trim(step.name);
      assert forall i | 0 <= i < |cmd| :: IsNameChar(cmd[i]) && cmd[i] != ':';
    }
  }

  /** Over any run of adds, clicks and snapshots no command is listed twice. */
  lemma {:induction false} NoDuplicatesInAnyRun(s: State, steps: seq<Step>)
    requires Listed(s) && forall step | step in steps :: GoodStep(step)
    ensures Listed(Run(s, steps)) && Distinct(AllCommands(Run(s, steps)))
    decreases |steps|
  {
    if steps == [] {
      CommandsListed(s);
    } else {
      assert GoodStep(steps[0]);
      ListedStep(s, steps[0]);
      NoDuplicatesInAnyRun(Next(s, steps[0]), steps[1..]);
    }
  }

  /** A typed name is added exactly when it is new and, trimmed, one to 64 letters, digits, points,
      dashes and underscores, the first a letter or digit; otherwise nothing changes at all. */
  lemma AddedIff(s: State, name: string, layer: Layer)
    requires Listed(s)
    ensures var cmd := Trim(name);
            Next(s, Add(name, layer)) != s <==>
              && 1 <= |cmd| <= 64
              && (forall i | 0 <= i < |cmd| ::
                    'a' <= cmd[i] <= 'z' || 'A' <= cmd[i] <= 'Z' || '0' <= cmd[i] <= '9' || cmd[i] in "._-")
              && cmd[0] !in "._-"
              && cmd !in Names(s.policy) && cmd !in s.pending
  {
    CommandsListed(s);
    if Adds(s, name) {
      assert |Next(s, Add(name, layer)).saves| == |s.saves| + 1;
    }
  }

  /** An added command is listed at once and shows what was saved for it. */
  lemma AddedIsShown(s: State, name: string, layer: Layer)
    requires Listed(s) && Adds(s, name)
    ensures var t := Next(s, Add(name, layer));
            && Trim(name) in AllCommands(t)
            && Displayed(t.policy, t.overlay, Trim(name), layer) == Allow
            && t.saves == s.saves + [Save(Trim(name), layer, Allow)]
  {
    ListedStep(s, Add(name, layer));
    CommandsListed(Next(s, Add(name, layer)));
  }

  // ---------------------------------------------------------------- the component

  class BashPolicyPanel {
    var policy: Policy
    var optimistic: Overlay
    var pendingAdds: seq<string>
    ghost var saves: seq<Save>

    ghost function View(): State
      reads this
    {
      State(policy, optimistic, pendingAdds, saves)
    }

    constructor (policy: Policy)
      ensures View() == State(policy, map[], [], [])
    {
      this.policy, optimistic, pendingAdds, saves := policy, map[], [], [];
    }

    /** A new policy arrives: the memo walks the overlay and drops what the server caught up to. */
    method Receive(policy: Policy)
      modifies this`policy, this`optimistic
      ensures View() == Next(old(View()), Snapshot(policy))
    {
      this.policy := policy;
      var next: Overlay := map[];
      var changed, keys := false, optimistic.Keys;
      while keys != {}
        invariant keys <= optimistic.Keys && optimistic == old(optimistic) && this.policy == policy
        invariant next == map k | k in optimistic && k !in keys && ServerState(policy, k) != Some(optimistic[k]) :: optimistic[k]
        invariant !changed ==> forall k | k in optimistic && k !in keys :: k in next
        decreases keys
      {
        var k :| k in keys;
        keys := keys - {k};
        if ServerState(policy, k) == Some(optimistic[k]) {
          changed := true;
        } else {
          next := next[k := optimistic[k]];
        }
      }
      if changed {
        optimistic := next;
      }
    }

    method SetCommandState(cmd: string, layer: Layer, state: TriState)
      modifies this`optimistic, this`saves
      ensures View() == Put(old(View()), cmd, layer, state)
    {
      optimistic := optimistic[Key(cmd, layer) := state];
      saves := saves + [Save(cmd, layer, state)];
    }

    method HandleCellClick(cmd: string, layer: Layer, editable: bool)
      modifies this`optimistic, this`saves
      ensures View() == if editable then Next(old(View()), Click(cmd, layer)) else old(View())
    {
      if !editable {
        return;
      }
      var current := Displayed(policy, optimistic, cmd, layer);
      SetCommandState(cmd, layer, Cycle(current));
    }

    /** Some(true) when the name was added, Some(false) with an error shown, None for a blank. */
    method HandleAddCommand(name: string, layer: Layer) returns (added: Option<bool>)
      modifies this`pendingAdds, this`optimistic, this`saves
      ensures View() == Next(old(View()), Add(name, layer))
      ensures added == if Trim(name) == "" then None else Some(Adds(old(View()), name))
    {
      var cmd := Trim(name);
      if cmd == "" {
        return None;
      }
      if !ValidName(cmd) {
        return Some(false);
      }
      var known := Names(policy);
      if cmd in Sort(known + Missing(pendingAdds, known)) {
        return Some(false);
      }
      pendingAdds := pendingAdds + [cmd];
      SetCommandState(cmd, layer, Allow);
      added := Some(true);
    }
  }
}
