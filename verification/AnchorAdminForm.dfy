/** What the operator chose is what is asked and sent: the anchor-admin panel's requests and apply
    messages against the history of edits, and when an answered preview is offered to Apply. */
module AnchorAdminForm {
  import opened Text
  import opened AnchorAdmin
  import opened AnchorAdminRuns

  // ---------------------------------------------------------------- the history of edits

  function LastTarget(steps: seq<Step>): string {
    if steps == [] then ""
    else
      var last := |steps| - 1;
      if steps[last].EditTarget? then steps[last].target else LastTarget(steps[..last])
  }

  function LastOp(steps: seq<Step>): Op {
    if steps == [] then Downgrade
    else
      var last := |steps| - 1;
      if steps[last].EditOp? then steps[last].op else LastOp(steps[..last])
  }

  function LastTier(steps: seq<Step>): string {
    if steps == [] then "semantic_guess"
    else
      var last := |steps| - 1;
      if steps[last].EditTier? then steps[last].to else LastTier(steps[..last])
  }

  /** The viewed project and root of the last render. */
  function LastProject(viewed: string, root: string, steps: seq<Step>): (string, string) {
    if steps == [] then (viewed, root)
    else
      var last := |steps| - 1;
      if steps[last].Render? then (steps[last].viewed, steps[last].root) else LastProject(viewed, root, steps[..last])
  }

  /** What the edits of a run chose, for a project; only downgrade and unpin have a tier. */
  function Chosen(scope: string, steps: seq<Step>): Made {
    var op := LastOp(steps);
    Made(scope, Trim(LastTarget(steps)), op, if op.Downgrade? || op.Unpin? then LastTier(steps) else "")
  }

  function ScopeOf(viewed: string, root: string, steps: seq<Step>): string {
    var (v, r) := LastProject(viewed, root, steps);
    r + "\n" + v
  }

  lemma {:induction false} RunFront(s: State, steps: seq<Step>)
    requires CanRun(s, steps) && steps != []
    ensures var front, last := steps[..|steps| - 1], steps[|steps| - 1];
            CanRun(s, front) && Enabled(Run(s, front), last) && Run(s, steps) == Next(Run(s, front), last)
    decreases |steps|
  {
    var front := steps[..|steps| - 1];
    if front != [] {
      assert steps[1..][..|steps| - 2] == front[1..];
      RunFront(Next(s, steps[0]), steps[1..]);
    } else {
      assert steps[1..] == [];
    }
  }

  lemma StepKeepsForm(s: State, step: Step)
    requires Enabled(s, step)
    ensures var t := Next(s, step);
            && t.target == (if step.EditTarget? then step.target else s.target)
            && t.op == (if step.EditOp? then step.op else s.op)
            && t.to == (if step.EditTier? then step.to else s.to)
            && t.viewed == (if step.Render? then step.viewed else s.viewed)
            && t.root == (if step.Render? then step.root else s.root)
  {
    match step
    case Deliver(id, answer) => DeliverKeepsForm(s, id, answer);
    case _ =>
  }

  lemma DeliverKeepsForm(s: State, id: nat, answer: Answer)
    requires id in s.inFlight
    ensures var t := Next(s, Deliver(id, answer));
            t.target == s.target && t.op == s.op && t.to == s.to && t.viewed == s.viewed && t.root == s.root
  {
  }

  lemma {:induction false} FormIsLastEdits(viewed: string, root: string, steps: seq<Step>)
    requires CanRun(Init(viewed, root), steps)
    ensures var t := Run(Init(viewed, root), steps);
            && t.target == LastTarget(steps) && t.op == LastOp(steps) && t.to == LastTier(steps)
            && (t.viewed, t.root) == LastProject(viewed, root, steps)
    decreases |steps|
  {
    if steps != [] {
      var front := steps[..|steps| - 1];
      RunFront(Init(viewed, root), steps);
      FormIsLastEdits(viewed, root, front);
      StepKeepsForm(Run(Init(viewed, root), front), steps[|steps| - 1]);
    }
  }

  // ---------------------------------------------------------------- what is asked and sent

  /** In every run a list asks for the target last typed, trimmed, and a preview for all that the
      operator last chose, of the project last rendered. */
  lemma AsksForTheForm(viewed: string, root: string, steps: seq<Step>, press: Step)
    requires CanRun(Init(viewed, root), steps) && Enabled(Run(Init(viewed, root), steps), press)
    requires press.List? || press.Preview?
    ensures var t, scope := Run(Init(viewed, root), steps), ScopeOf(viewed, root, steps);
            var u := Next(t, press);
            && u.inFlight == t.inFlight[t.next :=
                 if press.List? then ListRequest(t.visit, scope, Trim(LastTarget(steps)))
                 else PreviewRequest(t.visit, scope, Chosen(scope, steps))]
            && Trim(LastTarget(steps)) != ""
  {
    KeptByRun(Init(viewed, root), steps);
    FormIsLastEdits(viewed, root, steps);
  }

  /** In every run a press of Apply sends at most one message, exactly if the plan has a
      fingerprint, and the message says what the operator last chose, not what was previewed once. */
  lemma ApplySendsTheForm(viewed: string, root: string, steps: seq<Step>)
    requires CanRun(Init(viewed, root), steps) && Enabled(Run(Init(viewed, root), steps), Apply)
    ensures var t := Run(Init(viewed, root), steps);
            var u, chosen := Next(t, Apply), Chosen(ScopeOf(viewed, root, steps), steps);
            && t.plan.Some?
            && var fingerprint := t.plan.value.result.fingerprint;
            u.sent == if fingerprint == "" then t.sent
                      else t.sent + [Message(t.visit, chosen.scope, chosen.target, chosen.op, chosen.to,
                                             fingerprint, t.plan.value.id)]
  {
    KeptByRun(Init(viewed, root), steps);
    FormIsLastEdits(viewed, root, steps);
  }

  /** Nothing but a press of Apply sends an apply message. */
  lemma OnlyApplySends(s: State, step: Step)
    requires Enabled(s, step) && !step.Apply?
    ensures Next(s, step).sent == s.sent
  {
  }

  // ---------------------------------------------------------------- what is offered

  predicate IsEdit(step: Step) {
    step.EditTarget? || step.EditOp? || step.EditTier?
  }

  predicate OnlyEdits(steps: seq<Step>) {
    forall i | 0 <= i < |steps| :: IsEdit(steps[i])
  }

  lemma {:induction false} EditsKeepTheRest(s: State, edits: seq<Step>)
    requires CanRun(s, edits) && OnlyEdits(edits) && s.plan == None
    ensures var u := Run(s, edits); u == s.(target := u.target, op := u.op, to := u.to)
    decreases |edits|
  {
    if edits != [] {
      EditsKeepTheRest(Next(s, edits[0]), edits[1..]);
    }
  }

  /** A preview answered after any edits is offered to Apply if and only if it has changes and
      the trimmed target, the operation and the tier in force are those of the press. */
  lemma OfferFollowsTheForm(s: State, edits: seq<Step>, answer: Answer)
    requires Scoped(s) && Enabled(s, Preview) && CanRun(Next(s, Preview), edits) && OnlyEdits(edits)
    ensures var u := Run(Next(s, Preview), edits);
            && Enabled(u, Deliver(s.next, answer))
            && (Enabled(Next(u, Deliver(s.next, answer)), Apply) <==>
                  && answer.changes != []
                  && Trim(u.target) == Trim(s.target) && u.op == s.op
                  && (u.op.Downgrade? || u.op.Unpin? ==> u.to == s.to))
  {
    EditsKeepTheRest(Next(s, Preview), edits);
  }

  /** No preview of the current visit is answered in the run. */
  predicate NoPreviewAnswered(s: State, steps: seq<Step>)
    requires CanRun(s, steps)
    decreases |steps|
  {
    || steps == []
    || (&& !(steps[0].Deliver? && s.inFlight[steps[0].id].PreviewRequest? && s.inFlight[steps[0].id].visit == s.visit)
        && NoPreviewAnswered(Next(s, steps[0]), steps[1..]))
  }

  lemma {:induction false} PlanStaysAway(s: State, steps: seq<Step>)
    requires CanRun(s, steps) && s.plan == None && NoPreviewAnswered(s, steps)
    ensures Run(s, steps).plan == None
    decreases |steps|
  {
    if steps != [] {
      PlanStaysAway(Next(s, steps[0]), steps[1..]);
    }
  }

  /** After any edit, even back to what it was, after a press of Preview, even one that fails, and
      after a reset, Apply stays disabled until another preview is answered. */
  lemma OfferNeedsANewPreview(s: State, step: Step, steps: seq<Step>)
    requires IsEdit(step) || step.Preview? || step.Reset?
    requires Enabled(s, step) && CanRun(Next(s, step), steps) && NoPreviewAnswered(Next(s, step), steps)
    ensures !Enabled(Run(Next(s, step), steps), Apply)
  {
    PlanStaysAway(Next(s, step), steps);
  }

  // ---------------------------------------------------------------- lists, errors and switches

  /** An answered list is shown, drops the plan and leaves the panel free. */
  lemma ListIsShown(s: State, answer: Answer)
    requires Scoped(s) && Enabled(s, List)
    ensures var t := Next(Next(s, List), Deliver(s.next, answer));
            && Shown(t) == Some(Rows(s.visit, s.scope, answer.anchors))
            && t.plan == None && t.notice == None && !t.busy && t.inFlight == s.inFlight - {s.next}
  {
  }

  /** An error of the current visit is shown and frees the panel; rows and plan stay, and nothing
      was applied. */
  lemma ErrorIsShown(s: State, id: nat, error: string)
    requires id in s.inFlight && s.inFlight[id].visit == s.visit
    ensures var t := Next(s, Fail(id, error));
            && t.notice == Some(Notice(s.visit, Said(error))) && !t.busy
            && t.rows == s.rows && t.plan == s.plan && t.applied == s.applied && t.answered == s.answered
            && t.inFlight == s.inFlight - {id}
  {
  }

  /** A render starts a new visit, and schedules the reset, exactly when root and viewed project
      changed, but for pairs that read the same once joined. */
  lemma SwitchStartsAVisitIff(s: State, viewed: string, root: string)
    requires Scoped(s) && Enabled(s, Render(viewed, root))
    ensures var t := Next(s, Render(viewed, root));
            && (t.visit == s.visit <==>
                  || (root == s.root && viewed == s.viewed)
                  || (exists m :: root == s.root + ['\n'] + m && s.viewed == m + ['\n'] + viewed)
                  || (exists m :: s.root == root + ['\n'] + m && viewed == m + ['\n'] + s.viewed))
            && (t.resetPending <==> t.visit != s.visit)
  {
    JoinsMeetIff(s.root, s.viewed, root, viewed, '\n');
    assert ProjectScope(s.root, s.viewed) == s.root + ['\n'] + s.viewed;
    assert ProjectScope(root, viewed) == root + ['\n'] + viewed;
  }
}
