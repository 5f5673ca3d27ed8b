/** What the anchor-admin panel keeps: invariants of every step, safety over whole runs, and the
    one step, a reset that fires on a request of the new visit, that gets round one of them. */
module AnchorAdminRuns {
  import opened Text
  import opened AnchorAdmin

  // ---------------------------------------------------------------- what every step keeps

  function LabelOf(r: Request): string {
    match r
    case ListRequest(_, scope, _) => scope
    case PreviewRequest(_, _, made) => made.scope
    case ApplyRequest(_, p) => p.made.scope
    case RelistRequest(_, p) => p.made.scope
  }

  /** A thing on the panel belongs to the visit that wrote it: to the current visit and its
      scope, or, only until the pending reset, to an earlier visit of another scope. */
  predicate Belongs(s: State, visit: nat, scope: string) {
    || (visit == s.visit && scope == s.scope)
    || (s.resetPending && visit < s.visit && scope != s.scope)
  }

  /** Requests never come from a later visit, and those of the current one carry its scope. */
  ghost predicate WireScoped(inFlight: map<nat, Request>, visit: nat, scope: string) {
    forall id | id in inFlight ::
      inFlight[id].visit <= visit && (inFlight[id].visit == visit ==> LabelOf(inFlight[id]) == scope)
  }

  ghost predicate PanelScoped(s: State) {
    && (s.rows.Some? ==> Belongs(s, s.rows.value.visit, s.rows.value.scope))
    && (s.plan.Some? ==> Belongs(s, s.plan.value.visit, s.plan.value.made.scope))
    && (s.notice.Some? ==> s.notice.value.visit == s.visit || (s.resetPending && s.notice.value.visit < s.visit))
  }

  ghost predicate Scoped(s: State) {
    s.visitScope == s.scope == ProjectScope(s.root, s.viewed) && WireScoped(s.inFlight, s.visit, s.scope) && PanelScoped(s)
  }

  lemma ScopedStep(s: State, step: Step)
    requires Scoped(s) && Enabled(s, step)
    ensures Scoped(Next(s, step))
  {
    match step
    case Render(viewed, root) => ScopedRender(s, viewed, root);
    case Deliver(id, answer) => ScopedDeliver(s, id, answer);
    case List => ScopedStart(s, step);
    case Preview => ScopedStart(s, step);
    case Apply => ScopedStart(s, step);
    case _ =>
  }

  lemma ScopedRender(s: State, viewed: string, root: string)
    requires Scoped(s) && !s.resetPending
    ensures Scoped(Rendered(s, viewed, root))
  {
  }

  lemma ScopedStart(s: State, step: Step)
    requires Scoped(s) && Enabled(s, step) && (step.List? || step.Preview? || step.Apply?)
    ensures Scoped(Next(s, step))
  {
  }

  lemma ScopedDeliver(s: State, id: nat, answer: Answer)
    requires Scoped(s) && id in s.inFlight
    ensures Scoped(Next(s, Deliver(id, answer)))
  {
    var r := s.inFlight[id];
    if r.visit == s.visit {
      var t := Answered(Recorded(s.(inFlight := s.inFlight - {id}), id, r, answer), id, r, answer);
      assert LabelOf(r) == s.scope;
      assert PanelScoped(t);
      assert WireScoped(t.inFlight, t.visit, t.scope);
    }
  }

  // ---------------------------------------------------------------- busy

  /** The requests in flight that the current visit began. */
  function Live(s: State): set<nat> {
    set id | id in s.inFlight && s.inFlight[id].visit == s.visit
  }

  /** Busy exactly when one request of the current visit is in flight, and never two. */
  ghost predicate BusyExact(s: State) {
    if s.busy then exists id :: Live(s) == {id} else Live(s) == {}
  }

  /** Busy is exact once no reset is due; until then it may only be left on by the visit that
      ended, never off under a request of the new one. */
  ghost predicate Settled(s: State) {
    && (if s.resetPending then Live(s) == {} || (s.busy && exists id :: Live(s) == {id}) else BusyExact(s))
    && (forall id | id in s.inFlight :: id < s.next)
  }

  /** The reset of a switch runs while a request of the new visit is in flight. */
  predicate CutsOff(s: State, step: Step) {
    step.Reset? && Live(s) != {}
  }

  /** That is the only step that spoils the busy flag, and it always does. */
  lemma SettledStep(s: State, step: Step)
    requires Scoped(s) && Settled(s) && Enabled(s, step)
    ensures Settled(Next(s, step)) <==> !CutsOff(s, step)
    ensures CutsOff(s, step) ==> !BusyExact(Next(s, step))
  {
    var t := Next(s, step);
    match step
    case List => SettledIssue(s, t);
    case Preview => SettledIssue(s, t);
    case Apply => if SendsApply(s) { SettledIssue(s, t); } else { assert Live(t) == Live(s); }
    case Render(_, _) => assert t.visit == s.visit ==> Live(t) == Live(s);
    case Deliver(id, answer) => SettledDeliver(s, id, answer);
    case Fail(id, _) => SettledLeaves(s, t, id);
    case _ => assert Live(t) == Live(s);
  }

  lemma SettledIssue(s: State, t: State)
    requires Settled(s) && !s.busy && t.visit == s.visit && t.resetPending == s.resetPending && t.busy
    requires exists r: Request :: r.visit == s.visit && t.inFlight == s.inFlight[s.next := r]
    requires t.next == s.next + 1
    ensures Settled(t)
  {
    assert Live(t) == {s.next};
  }

  /** A request of the current visit was the only one, and busy is off once it has left. */
  lemma SettledLeaves(s: State, t: State, id: nat)
    requires Settled(s) && id in s.inFlight && t.inFlight == s.inFlight - {id} && t.visit == s.visit
    requires t.next == s.next && t.resetPending == s.resetPending
    requires t.busy == (s.busy && s.inFlight[id].visit != s.visit)
    ensures Settled(t)
  {
    assert Live(t) == Live(s) - {id};
    assert id in Live(s) <==> s.inFlight[id].visit == s.visit;
  }

  lemma SettledDeliver(s: State, id: nat, answer: Answer)
    requires Settled(s) && id in s.inFlight
    ensures Settled(Next(s, Deliver(id, answer)))
  {
    var r, t := s.inFlight[id], Next(s, Deliver(id, answer));
    if r.visit == s.visit && r.ApplyRequest? {
      assert id in Live(s);
      assert Live(s) == {id};
      assert Live(t) == {s.next};
    } else {
      SettledLeaves(s, t, id);
    }
  }

  // ---------------------------------------------------------------- apply messages

  /** The message repeats one answered preview of its own visit, made for the project the
      message goes to. */
  ghost predicate Faithful(m: Message, answered: map<nat, Plan>) {
    && m.preview in answered
    && var p := answered[m.preview];
    && p.visit == m.visit
    && p.made == Made(m.scope, m.target, m.op, m.to)
    && p.result.fingerprint == m.fingerprint != ""
  }

  ghost predicate AllFaithful(sent: seq<Message>, answered: map<nat, Plan>) {
    forall i | 0 <= i < |sent| :: Faithful(sent[i], answered)
  }

  /** Request numbers are never used twice. */
  ghost predicate Numbered(inFlight: map<nat, Request>, answered: map<nat, Plan>, next: nat) {
    && (forall id | id in inFlight :: id < next && id !in answered)
    && (forall id | id in answered :: id < next)
  }

  predicate Known(plan: Option<Plan>, answered: map<nat, Plan>) {
    plan.Some? ==> plan.value.id in answered && answered[plan.value.id] == plan.value
  }

  ghost predicate SentFaithfully(s: State) {
    && Numbered(s.inFlight, s.answered, s.next)
    && Known(s.plan, s.answered)
    && AllFaithful(s.sent, s.answered)
  }

  lemma FaithfulStep(s: State, step: Step)
    requires Scoped(s) && SentFaithfully(s) && Enabled(s, step)
    ensures SentFaithfully(Next(s, step))
  {
    match step
    case Deliver(id, answer) => FaithfulDeliver(s, id, answer);
    case Apply =>
      if SendsApply(s) {
        FaithfulApply(s);
      }
    case List => NumberedIssue(s.inFlight, s.answered, s.next, Next(s, step).inFlight[s.next]);
    case Preview => NumberedIssue(s.inFlight, s.answered, s.next, Next(s, step).inFlight[s.next]);
    case Fail(id, _) => NumberedLeaves(s.inFlight, id, s.answered, s.answered, s.next);
    case _ =>
  }

  lemma FaithfulApply(s: State)
    requires Scoped(s) && SentFaithfully(s) && Enabled(s, Apply) && SendsApply(s)
    ensures SentFaithfully(Next(s, Apply))
  {
    NumberedIssue(s.inFlight, s.answered, s.next, ApplyRequest(s.visit, s.plan.value));
    assert Faithful(MessageOf(s, s.plan.value), s.answered);
  }

  lemma NumberedIssue(inFlight: map<nat, Request>, answered: map<nat, Plan>, next: nat, r: Request)
    requires Numbered(inFlight, answered, next)
    ensures Numbered(inFlight[next := r], answered, next + 1)
  {
  }

  lemma NumberedLeaves(
    inFlight: map<nat, Request>, id: nat, answered: map<nat, Plan>, more: map<nat, Plan>, next: nat)
    requires Numbered(inFlight, answered, next) && id in inFlight
    requires more.Keys <= answered.Keys + {id}
    ensures Numbered(inFlight - {id}, more, next)
  {
  }

  lemma FaithfulDeliver(s: State, id: nat, answer: Answer)
    requires Scoped(s) && SentFaithfully(s) && id in s.inFlight
    ensures SentFaithfully(Next(s, Deliver(id, answer)))
  {
    var r := s.inFlight[id];
    var t := Recorded(s.(inFlight := s.inFlight - {id}), id, r, answer);
    NumberedLeaves(s.inFlight, id, s.answered, t.answered, s.next);
    MoreAnswers(s.sent, s.answered, t.answered);
    assert Known(s.plan, t.answered);
    if r.visit == s.visit && r.ApplyRequest? {
      NumberedIssue(t.inFlight, t.answered, s.next, RelistRequest(r.visit, r.plan));
    }
  }

  lemma MoreAnswers(sent: seq<Message>, answered: map<nat, Plan>, more: map<nat, Plan>)
    requires AllFaithful(sent, answered)
    requires forall id | id in answered :: id in more && more[id] == answered[id]
    ensures AllFaithful(sent, more)
  {
    forall i | 0 <= i < |sent| ensures Faithful(sent[i], more) {
      assert Faithful(sent[i], answered);
    }
  }

  /** Every preview in flight or answered was asked of the project it is labelled with. */
  ghost predicate AskedAsLabelled(inFlight: map<nat, Request>, answered: map<nat, Plan>) {
    && (forall id | id in inFlight :: inFlight[id].PreviewRequest? ==> inFlight[id].asked == inFlight[id].made.scope)
    && (forall id | id in answered :: answered[id].asked == answered[id].made.scope)
  }

  /** No press falls between the change of the viewed project and the panel's render of it. */
  lemma AskedStep(s: State, step: Step)
    requires Scoped(s) && Numbered(s.inFlight, s.answered, s.next)
    requires AskedAsLabelled(s.inFlight, s.answered) && Enabled(s, step)
    ensures AskedAsLabelled(Next(s, step).inFlight, Next(s, step).answered)
  {
    match step
    case Preview => AskedPreview(s);
    case Deliver(id, answer) => AskedDeliver(s, id, answer);
    case _ =>
  }

  lemma AskedPreview(s: State)
    requires Scoped(s) && AskedAsLabelled(s.inFlight, s.answered)
    ensures AskedAsLabelled(PreviewBegun(s).inFlight, PreviewBegun(s).answered)
  {
  }

  lemma AskedDeliver(s: State, id: nat, answer: Answer)
    requires Numbered(s.inFlight, s.answered, s.next) && AskedAsLabelled(s.inFlight, s.answered) && id in s.inFlight
    ensures var t := Next(s, Deliver(id, answer)); AskedAsLabelled(t.inFlight, t.answered)
  {
    var r := s.inFlight[id];
    var t := Recorded(s.(inFlight := s.inFlight - {id}), id, r, answer);
    assert AskedAsLabelled(t.inFlight, t.answered);
  }

  ghost predicate Distinct(ids: seq<nat>) {
    forall i, j | 0 <= i < j < |ids| :: ids[i] != ids[j]
  }

  predicate Applies(inFlight: map<nat, Request>, id: nat, plan: nat) {
    id in inFlight && inFlight[id].ApplyRequest? && inFlight[id].plan.id == plan
  }

  /** An answered plan is applied by at most one request in flight, and by none once applied. */
  ghost predicate WireOnce(inFlight: map<nat, Request>, applied: seq<nat>, answered: map<nat, Plan>) {
    && (forall id, p | Applies(inFlight, id, p) :: p in answered && p !in applied)
    && (forall id, id', p | Applies(inFlight, id, p) && Applies(inFlight, id', p) :: id == id')
  }

  /** No preview is applied twice, and none is both applied and being applied, or being applied
      by two requests. */
  ghost predicate Single(s: State) {
    Distinct(s.applied) && WireOnce(s.inFlight, s.applied, s.answered)
  }

  /** The plan of the current visit is not applied yet, nor being applied from elsewhere. */
  ghost predicate PlanOnce(s: State) {
    s.plan.Some? && s.plan.value.visit == s.visit ==>
      && s.plan.value.id !in s.applied
      && forall id | Applies(s.inFlight, id, s.plan.value.id) :: s.inFlight[id].visit == s.visit
  }

  ghost predicate AppliedOnce(s: State) {
    && Single(s)
    && (forall p | p in s.applied :: p in s.answered)
    && PlanOnce(s)
  }

  /** The plan about to be sent is already on its way. */
  ghost predicate SendsAgain(s: State, step: Step)
    requires Enabled(s, step)
  {
    step.Apply? && SendsApply(s) && exists id :: Applies(s.inFlight, id, s.plan.value.id)
  }

  /** Only such a press can make one preview be applied twice, and any such press breaks the rule
      that at most one request applies a plan. */
  lemma OnceStep(s: State, step: Step)
    requires Scoped(s) && SentFaithfully(s) && AppliedOnce(s) && Enabled(s, step)
    ensures AppliedOnce(Next(s, step)) <==> !SendsAgain(s, step)
    ensures SendsAgain(s, step) ==> !Single(Next(s, step))
  {
    match step
    case Apply => OnceApply(s);
    case List => OnceStart(s, step);
    case Preview => OnceStart(s, step);
    case Deliver(id, answer) => OnceDeliver(s, id, answer);
    case Fail(id, _) => OnceLeaves(s.inFlight, id, s.applied, s.answered, s.answered);
    case _ =>
  }

  lemma OnceStart(s: State, step: Step)
    requires AppliedOnce(s) && SentFaithfully(s) && Enabled(s, step) && (step.List? || step.Preview?)
    ensures AppliedOnce(Next(s, step))
  {
    OnceIssue(s.inFlight, s.next, Next(s, step).inFlight[s.next], s.applied, s.answered);
  }

  lemma OnceApply(s: State)
    requires Scoped(s) && SentFaithfully(s) && AppliedOnce(s) && Enabled(s, Apply)
    ensures AppliedOnce(Next(s, Apply)) <==> !SendsAgain(s, Apply)
    ensures SendsAgain(s, Apply) ==> !Single(Next(s, Apply))
  {
    if SendsAgain(s, Apply) {
      var id :| Applies(s.inFlight, id, s.plan.value.id);
      TwiceOnTheWire(s.inFlight, id, s.next, ApplyRequest(s.visit, s.plan.value), s.applied, s.answered);
    } else if SendsApply(s) {
      OnceIssue(s.inFlight, s.next, ApplyRequest(s.visit, s.plan.value), s.applied, s.answered);
    }
  }

  lemma TwiceOnTheWire(
    inFlight: map<nat, Request>, id: nat, next: nat, r: Request, applied: seq<nat>, answered: map<nat, Plan>)
    requires r.ApplyRequest? && Applies(inFlight, id, r.plan.id) && next !in inFlight
    ensures !WireOnce(inFlight[next := r], applied, answered)
  {
    var more := inFlight[next := r];
    assert Applies(more, id, r.plan.id) && Applies(more, next, r.plan.id);
  }

  /** While busy can be trusted nobody can press Apply on a plan that is on its way. */
  lemma SettledNeverSendsAgain(s: State, step: Step)
    requires Scoped(s) && Settled(s) && AppliedOnce(s) && Enabled(s, step)
    ensures !SendsAgain(s, step)
  {
    assert forall id | id in s.inFlight && s.inFlight[id].visit == s.visit :: id in Live(s);
  }

  lemma OnceIssue(inFlight: map<nat, Request>, next: nat, r: Request, applied: seq<nat>, answered: map<nat, Plan>)
    requires WireOnce(inFlight, applied, answered) && next !in inFlight
    requires r.ApplyRequest? ==>
      && r.plan.id in answered && r.plan.id !in applied
      && forall id :: !Applies(inFlight, id, r.plan.id)
    ensures WireOnce(inFlight[next := r], applied, answered)
    ensures !r.ApplyRequest? ==> forall id, p :: Applies(inFlight[next := r], id, p) <==> Applies(inFlight, id, p)
  {
    var more := inFlight[next := r];
    assert forall id, p :: Applies(more, id, p) <==>
      if id == next then r.ApplyRequest? && r.plan.id == p else Applies(inFlight, id, p);
  }

  lemma OnceLeaves(
    inFlight: map<nat, Request>, id: nat, applied: seq<nat>, answered: map<nat, Plan>, more: map<nat, Plan>)
    requires WireOnce(inFlight, applied, answered) && id in inFlight && answered.Keys <= more.Keys
    ensures WireOnce(inFlight - {id}, applied, more)
    ensures inFlight[id].ApplyRequest? ==> WireOnce(inFlight - {id}, applied + [inFlight[id].plan.id], more)
    ensures forall i, p :: Applies(inFlight - {id}, i, p) <==> Applies(inFlight, i, p) && i != id
  {
    assert inFlight[id].ApplyRequest? ==> Applies(inFlight, id, inFlight[id].plan.id);
    assert forall i, p :: Applies(inFlight - {id}, i, p) <==> Applies(inFlight, i, p) && i != id;
  }

  lemma OnceDeliver(s: State, id: nat, answer: Answer)
    requires Scoped(s) && SentFaithfully(s) && AppliedOnce(s) && id in s.inFlight
    ensures AppliedOnce(Next(s, Deliver(id, answer)))
  {
    var r, t := s.inFlight[id], Next(s, Deliver(id, answer));
    OnceLeaves(s.inFlight, id, s.applied, s.answered, t.answered);
    match r
    case ApplyRequest(_, p) =>
      assert Applies(s.inFlight, id, p.id);
      if r.visit == s.visit {
        OnceIssue(s.inFlight - {id}, s.next, RelistRequest(r.visit, p), t.applied, t.answered);
      }
    case PreviewRequest(_, _, _) =>
      assert forall i :: !Applies(s.inFlight, i, id);
    case _ =>
  }

  // ---------------------------------------------------------------- whole runs

  /** What the panel holds was written by the current visit, and what it shows always is. */
  ghost predicate OfThisVisit(s: State) {
    && (s.rows.Some? && !s.resetPending ==> s.rows.value.visit == s.visit)
    && (s.plan.Some? && !s.resetPending ==> s.plan.value.visit == s.visit)
    && (s.notice.Some? && !s.resetPending ==> s.notice.value.visit == s.visit)
    && (Shown(s).Some? ==> Shown(s).value.visit == s.visit)
    && (Current(s).Some? ==> Current(s).value.visit == s.visit)
  }

  lemma {:induction false} KeptByRun(s: State, steps: seq<Step>)
    requires Scoped(s) && SentFaithfully(s) && CanRun(s, steps)
    ensures Scoped(Run(s, steps)) && SentFaithfully(Run(s, steps))
    decreases |steps|
  {
    if steps != [] {
      ScopedStep(s, steps[0]);
      FaithfulStep(s, steps[0]);
      KeptByRun(Next(s, steps[0]), steps[1..]);
    }
  }

  /** Any interleaving of switches, edits, presses, answers and errors. */
  lemma SafeInEveryRun(viewed: string, root: string, steps: seq<Step>)
    requires CanRun(Init(viewed, root), steps)
    ensures var t := Run(Init(viewed, root), steps); OfThisVisit(t) && AllFaithful(t.sent, t.answered)
  {
    KeptByRun(Init(viewed, root), steps);
  }

  /** No reset of the run fires on a request of the current visit. */
  ghost predicate Uncut(s: State, steps: seq<Step>)
    requires CanRun(s, steps)
    decreases |steps|
  {
    steps == [] || (!CutsOff(s, steps[0]) && Uncut(Next(s, steps[0]), steps[1..]))
  }

  /** Busy is exact in every state of the run with no reset due. */
  ghost predicate ExactThroughout(s: State, steps: seq<Step>)
    requires CanRun(s, steps)
    decreases |steps|
  {
    && (s.resetPending || BusyExact(s))
    && (steps == [] || ExactThroughout(Next(s, steps[0]), steps[1..]))
  }

  lemma {:induction false} ExactIffUncut(s: State, steps: seq<Step>)
    requires Scoped(s) && Settled(s) && CanRun(s, steps)
    ensures ExactThroughout(s, steps) <==> Uncut(s, steps)
    decreases |steps|
  {
    if steps != [] {
      ScopedStep(s, steps[0]);
      SettledStep(s, steps[0]);
      if !CutsOff(s, steps[0]) {
        ExactIffUncut(Next(s, steps[0]), steps[1..]);
      }
    }
  }

  /** Throughout a run, busy is on exactly while one request of the current visit is in flight,
      if and only if no reset of the run fires on such a request. */
  lemma BusyInRunsIff(viewed: string, root: string, steps: seq<Step>)
    requires CanRun(Init(viewed, root), steps)
    ensures ExactThroughout(Init(viewed, root), steps) <==> Uncut(Init(viewed, root), steps)
  {
    assert Live(Init(viewed, root)) == {};
    ExactIffUncut(Init(viewed, root), steps);
  }

  ghost predicate SingleThroughout(s: State, steps: seq<Step>)
    requires CanRun(s, steps)
    decreases |steps|
  {
    Single(s) && (steps == [] || SingleThroughout(Next(s, steps[0]), steps[1..]))
  }

  ghost predicate NeverSentAgain(s: State, steps: seq<Step>)
    requires CanRun(s, steps)
    decreases |steps|
  {
    steps == [] || (!SendsAgain(s, steps[0]) && NeverSentAgain(Next(s, steps[0]), steps[1..]))
  }

  lemma {:induction false} SingleIffNeverSentAgain(s: State, steps: seq<Step>)
    requires Scoped(s) && SentFaithfully(s) && AppliedOnce(s) && CanRun(s, steps)
    ensures SingleThroughout(s, steps) <==> NeverSentAgain(s, steps)
    decreases |steps|
  {
    if steps != [] {
      ScopedStep(s, steps[0]);
      FaithfulStep(s, steps[0]);
      OnceStep(s, steps[0]);
      if !SendsAgain(s, steps[0]) {
        SingleIffNeverSentAgain(Next(s, steps[0]), steps[1..]);
      }
    }
  }

  /** Throughout a run each preview has at most one apply, answered or on its way, if and only if
      Apply is never pressed on a plan that is already on its way. */
  lemma OnceInRunsIff(viewed: string, root: string, steps: seq<Step>)
    requires CanRun(Init(viewed, root), steps)
    ensures SingleThroughout(Init(viewed, root), steps) <==> NeverSentAgain(Init(viewed, root), steps)
  {
    SingleIffNeverSentAgain(Init(viewed, root), steps);
  }

  lemma {:induction false} KeptByUncutRun(s: State, steps: seq<Step>)
    requires Scoped(s) && SentFaithfully(s) && Settled(s) && AppliedOnce(s)
    requires CanRun(s, steps) && Uncut(s, steps)
    ensures NeverSentAgain(s, steps) && AppliedOnce(Run(s, steps))
    decreases |steps|
  {
    if steps != [] {
      ScopedStep(s, steps[0]);
      FaithfulStep(s, steps[0]);
      SettledStep(s, steps[0]);
      SettledNeverSendsAgain(s, steps[0]);
      OnceStep(s, steps[0]);
      KeptByUncutRun(Next(s, steps[0]), steps[1..]);
    }
  }

  /** Where no reset fires on a live request that never happens, and no preview is successfully
      applied twice. */
  lemma OnceInUncutRuns(viewed: string, root: string, steps: seq<Step>)
    requires CanRun(Init(viewed, root), steps) && Uncut(Init(viewed, root), steps)
    ensures NeverSentAgain(Init(viewed, root), steps) && Distinct(Run(Init(viewed, root), steps).applied)
  {
    assert Live(Init(viewed, root)) == {};
    KeptByUncutRun(Init(viewed, root), steps);
  }

  lemma {:induction false} AskedInRun(s: State, steps: seq<Step>)
    requires Scoped(s) && SentFaithfully(s) && AskedAsLabelled(s.inFlight, s.answered) && CanRun(s, steps)
    ensures AskedAsLabelled(Run(s, steps).inFlight, Run(s, steps).answered)
    decreases |steps|
  {
    if steps != [] {
      ScopedStep(s, steps[0]);
      FaithfulStep(s, steps[0]);
      AskedStep(s, steps[0]);
      AskedInRun(Next(s, steps[0]), steps[1..]);
    }
  }

  /** In every run every apply goes to the project that answered its preview, and the panel's
      second look at the project never stops one: a current plan is sent if it has a fingerprint. */
  lemma AppliesWhereAsked(viewed: string, root: string, steps: seq<Step>)
    requires CanRun(Init(viewed, root), steps)
    ensures var t := Run(Init(viewed, root), steps);
            && (forall m | m in t.sent :: m.preview in t.answered && t.answered[m.preview].asked == m.scope)
            && (Current(t).Some? ==> (SendsApply(t) <==> Current(t).value.result.fingerprint != ""))
  {
    var t := Run(Init(viewed, root), steps);
    KeptByRun(Init(viewed, root), steps);
    AskedInRun(Init(viewed, root), steps);
    forall m | m in t.sent ensures m.preview in t.answered && t.answered[m.preview].asked == m.scope {
      var i :| 0 <= i < |t.sent| && t.sent[i] == m;
      assert Faithful(t.sent[i], t.answered);
    }
  }

  /** An answer or error that comes after its visit ended changes nothing on the panel. */
  lemma LateAnswerIsIgnored(s: State, step: Step)
    requires Enabled(s, step) && (step.Deliver? || step.Fail?) && s.inFlight[step.id].visit != s.visit
    ensures var t := Next(s, step);
            t == s.(inFlight := s.inFlight - {step.id}, answered := t.answered, applied := t.applied)
  {
  }

  /** A preview answered with the form untouched is shown, offered to Apply and leaves the
      panel free. */
  lemma PreviewIsOffered(s: State, answer: Answer)
    requires Scoped(s) && Enabled(s, Preview)
    ensures var t := Next(Next(s, Preview), Deliver(s.next, answer));
            && Shown(t) == Some(Rows(s.visit, s.scope, answer.anchors))
            && Current(t).Some? && Current(t).value.result == answer
            && t.notice == None && !t.busy
  {
  }

  /** An edit of the target made meanwhile withdraws the offer, unless only blanks changed. */
  lemma EditWithdrawsOffer(s: State, target: string, answer: Answer)
    requires Scoped(s) && Enabled(s, Preview)
    ensures var t := Next(Next(Next(s, Preview), EditTarget(target)), Deliver(s.next, answer));
            Current(t).Some? <==> Trim(target) == Trim(s.target)
  {
  }

  lemma ApplyAnswered(s: State, answer: Answer)
    requires Scoped(s) && Enabled(s, Apply) && SendsApply(s)
    ensures var t := Next(Next(s, Apply), Deliver(s.next, answer));
            && t.plan == None && t.applied == s.applied + [s.plan.value.id]
            && t.notice == Some(Notice(s.visit, AppliedText(answer)))
            && t.visit == s.visit && t.scope == s.scope
            && s.next + 1 in t.inFlight && t.inFlight[s.next + 1] == RelistRequest(s.visit, s.plan.value)
  {
  }

  /** An apply that is sent and answered spends the plan, says so and lists the target anew. */
  lemma ApplySpendsThePlan(s: State, answer: Answer, relisted: Answer)
    requires Scoped(s) && Enabled(s, Apply) && SendsApply(s)
    ensures var t := Next(Next(s, Apply), Deliver(s.next, answer));
            && Enabled(t, Deliver(s.next + 1, relisted))
            && var u := Next(t, Deliver(s.next + 1, relisted));
            && u.plan == None && u.applied == s.applied + [s.plan.value.id]
            && u.notice == Some(Notice(s.visit, if answer.message != "" then Said(answer.message) else AppliedCount(answer.count)))
            && Shown(u) == Some(Rows(s.visit, s.scope, relisted.anchors)) && !u.busy
  {
    ApplyAnswered(s, answer);
    RelistShown(Next(Next(s, Apply), Deliver(s.next, answer)), s.next + 1, s.plan.value, relisted);
  }

  lemma RelistShown(t: State, id: nat, p: Plan, relisted: Answer)
    requires id in t.inFlight && t.inFlight[id] == RelistRequest(t.visit, p) && p.made.scope == t.scope
    ensures var u := Next(t, Deliver(id, relisted));
            && u.plan == t.plan && u.applied == t.applied && u.notice == t.notice
            && Shown(u) == Some(Rows(t.visit, t.scope, relisted.anchors)) && !u.busy
  {
  }

  // ---------------------------------------------------------------- a request in the reset window

  lemma {:induction false} Extend(s: State, steps: seq<Step>, step: Step)
    requires CanRun(s, steps) && Enabled(Run(s, steps), step)
    ensures CanRun(s, steps + [step]) && Run(s, steps + [step]) == Next(Run(s, steps), step)
    decreases |steps|
  {
    if steps == [] {
      assert ([step])[1..] == [];
    } else {
      assert (steps + [step])[1..] == steps[1..] + [step];
      Extend(Next(s, steps[0]), steps[1..], step);
    }
  }

  /** The step is allowed and leads from `s` to `t`. */
  predicate Leads(s: State, step: Step, t: State) {
    Enabled(s, step) && Next(s, step) == t
  }

  const PRESSED := PreviewRequest(1, "b\n", Made("b\n", "x", Downgrade, "semantic_guess"))
  const ANSWER := Answer([7], [7], "f", 1, "")
  const ANSWERED := Plan(0, 1, "b\n", Made("b\n", "x", Downgrade, "semantic_guess"), ANSWER)

  /** The panel after a switch from project "a" to "b", with target "x" typed before it. */
  function AtX(busy: bool, inFlight: map<nat, Request>, next: nat): State {
    Init("", "a").(target := "x", root := "b", scope := "b\n", visit := 1, visitScope := "b\n",
                   resetPending := false, busy := busy, inFlight := inFlight, next := next)
  }

  /** The same panel once it holds the first preview's answer. */
  function WithPlan(busy: bool, inFlight: map<nat, Request>, next: nat, sent: seq<Message>): State {
    AtX(busy, inFlight, next).(
      rows := Some(Rows(1, "b\n", [7])), plan := Some(ANSWERED), answered := map[0 := ANSWERED], sent := sent)
  }

  lemma TrimX()
    ensures Trim("x") == "x" && ProjectScope("a", "") == "a\n" && ProjectScope("b", "") == "b\n"
  {
    assert TrimStart("x") == "x";
  }

  lemma Then(steps: seq<Step>, step: Step, t: State) returns (more: seq<Step>)
    requires CanRun(Init("", "a"), steps) && Leads(Run(Init("", "a"), steps), step, t)
    ensures CanRun(Init("", "a"), more) && Run(Init("", "a"), more) == t
  {
    Extend(Init("", "a"), steps, step);
    more := steps + [step];
  }

  /** A preview pressed between a switch and its reset loses its busy flag to that reset. */
  lemma HastyRunIsNotBusy() returns (steps: seq<Step>)
    ensures CanRun(Init("", "a"), steps)
    ensures Run(Init("", "a"), steps) == AtX(false, map[0 := PRESSED], 1)
    ensures var t := Run(Init("", "a"), steps); !t.resetPending && !t.busy && Live(t) == {0}
  {
    TrimX();
    var ready := Init("", "a").(target := "x", resetPending := false);
    steps := Then([], Reset, Init("", "a").(resetPending := false));
    steps := Then(steps, EditTarget("x"), ready);
    steps := Then(steps, Render("", "b"), AtX(false, map[], 0).(resetPending := true));
    steps := Then(steps, Preview, AtX(true, map[0 := PRESSED], 1).(resetPending := true));
    steps := Then(steps, Reset, AtX(false, map[0 := PRESSED], 1));
    assert 0 in Live(AtX(false, map[0 := PRESSED], 1));
  }

  const APPLYING := ApplyRequest(1, ANSWERED)
  const APPLY_MESSAGE := Message(1, "b\n", "x", Downgrade, "semantic_guess", "f", 0)

  function FailedPreview(): State {
    WithPlan(false, map[2 := APPLYING], 3, [APPLY_MESSAGE]).(notice := Some(Notice(1, Said("e"))))
  }

  function BothApplying(): State {
    WithPlan(true, map[2 := APPLYING, 3 := APPLYING], 4, [APPLY_MESSAGE, APPLY_MESSAGE])
  }

  lemma OverlappingPreviews()
    ensures Leads(AtX(false, map[0 := PRESSED], 1), Preview, AtX(true, map[0 := PRESSED, 1 := PRESSED], 2))
    ensures Leads(AtX(true, map[0 := PRESSED, 1 := PRESSED], 2), Deliver(0, ANSWER),
                  WithPlan(false, map[1 := PRESSED], 2, []))
  {
    TrimX();
  }

  lemma OverlappingApplies()
    ensures Leads(WithPlan(false, map[1 := PRESSED], 2, []), Apply,
                  WithPlan(true, map[1 := PRESSED, 2 := APPLYING], 3, [APPLY_MESSAGE]))
    ensures Leads(WithPlan(true, map[1 := PRESSED, 2 := APPLYING], 3, [APPLY_MESSAGE]), Fail(1, "e"), FailedPreview())
  {
    TrimX();
  }

  lemma SecondApply()
    ensures Leads(FailedPreview(), Apply, BothApplying())
  {
    TrimX();
  }

  lemma HastyRunOverlaps() returns (steps: seq<Step>)
    ensures CanRun(Init("", "a"), steps) && Run(Init("", "a"), steps) == BothApplying()
  {
    steps := HastyRunIsNotBusy();
    OverlappingPreviews();
    OverlappingApplies();
    SecondApply();
    steps := Then(steps, Preview, AtX(true, map[0 := PRESSED, 1 := PRESSED], 2));
    steps := Then(steps, Deliver(0, ANSWER), WithPlan(false, map[1 := PRESSED], 2, []));
    steps := Then(steps, Apply, WithPlan(true, map[1 := PRESSED, 2 := APPLYING], 3, [APPLY_MESSAGE]));
    steps := Then(steps, Fail(1, "e"), FailedPreview());
    steps := Then(steps, Apply, BothApplying());
  }

  /** A second preview then overlaps the first, and its error frees the Apply button while
      the first apply is still in flight. */
  lemma HastyRunAppliesTwice() returns (steps: seq<Step>)
    ensures CanRun(Init("", "a"), steps)
    ensures Run(Init("", "a"), steps).applied == [0, 0]
  {
    steps := HastyRunOverlaps();
    Extend(Init("", "a"), steps, Deliver(2, ANSWER));
    steps := steps + [Deliver(2, ANSWER)];
    Extend(Init("", "a"), steps, Deliver(3, ANSWER));
    steps := steps + [Deliver(3, ANSWER)];
  }
}
