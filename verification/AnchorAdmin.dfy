/** The anchor-admin panel: list, preview and apply requests that stay in flight
    while the operator switches project and edits the form.

    `State` and `Next` give the protocol as a transition system; `AnchorPanel`
    performs the same steps field by field, as the component does. A render, an
    effect, an event handler and the continuation after an await are one step each. */
module AnchorAdmin {
  import opened Text

  datatype Op = Pin | Unpin | Downgrade | Delete

  /** An anchor row; its columns play no part in the protocol. */
  type Row = nat

  /** A successful answer. A missing list is [], a missing text "". */
  datatype Answer = Answer(anchors: seq<Row>, changes: seq<Row>, fingerprint: string, count: nat, message: string)

  /** What a preview was made for. */
  datatype Made = Made(scope: string, target: string, op: Op, to: string)

  /** `id` stands for the identity of the plan object: the number of the request that
      answered it. `visit` is the visit in which that request began, `asked` the project it was
      sent to. */
  datatype Plan = Plan(id: nat, visit: nat, asked: string, made: Made, result: Answer)
  datatype Rows = Rows(visit: nat, scope: string, anchors: seq<Row>)
  datatype Notice = Notice(visit: nat, text: NoticeText)

  /** A text of the server or of an error, or the count the panel words itself. */
  datatype NoticeText = Said(text: string) | AppliedCount(count: nat)

  datatype Request =
    | ListRequest(visit: nat, scope: string, target: string)
    | PreviewRequest(visit: nat, asked: string, made: Made)
    | ApplyRequest(visit: nat, plan: Plan)
    | RelistRequest(visit: nat, plan: Plan)

  /** An apply message as it leaves: where it goes and what it says. */
  datatype Message = Message(
    visit: nat, scope: string, target: string, op: Op, to: string, fingerprint: string, preview: nat)

  /** The panel. `viewed` is the transport's viewed project and `root` the panel's own; the
      dashboard sets both in one render, from which `scope` is. `sent`, `answered` and `applied` are the
      history of apply messages, answered previews and successfully applied previews. */
  datatype State = State(
    viewed: string, root: string, scope: string,
    visit: nat, visitScope: string, resetPending: bool,
    target: string, op: Op, to: string,
    rows: Option<Rows>, plan: Option<Plan>, notice: Option<Notice>, busy: bool,
    inFlight: map<nat, Request>, next: nat,
    sent: seq<Message>, answered: map<nat, Plan>, applied: seq<nat>)

  datatype Step =
    | Render(viewed: string, root: string)
    | Reset
    | EditTarget(target: string)
    | EditOp(op: Op)
    | EditTier(to: string)
    | List
    | Preview
    | Apply
    | Deliver(id: nat, answer: Answer)
    | Fail(id: nat, error: string)

  function ProjectScope(root: string, viewed: string): string {
    root + "\n" + viewed
  }

  predicate NeedsTier(op: Op) {
    op.Downgrade? || op.Unpin?
  }

  function Tier(s: State): string {
    if NeedsTier(s.op) then s.to else ""
  }

  /** What a preview started now would be made for. */
  function Form(s: State): Made {
    Made(s.scope, Trim(s.target), s.op, Tier(s))
  }

  /** The plan the form still agrees with. */
  function Current(s: State): Option<Plan> {
    if s.plan.Some? && s.plan.value.made == Form(s) then s.plan else None
  }

  /** The rows the panel shows. */
  function Shown(s: State): Option<Rows> {
    if s.rows.Some? && s.rows.value.scope == s.scope then s.rows else None
  }

  function Init(viewed: string, root: string): State {
    var scope := ProjectScope(root, viewed);
    State(viewed, root, scope, 0, scope, true, "", Downgrade, "semantic_guess",
          None, None, None, false, map[], 0, [], map[], [])
  }

  /** A button that is not disabled, an edit the form offers, an outstanding request. React
      runs the pending effect of one render before it starts another. */
  predicate Enabled(s: State, step: Step) {
    match step
    case Render(_, _) => !s.resetPending
    case Reset => s.resetPending
    case EditTarget(_) => true
    case EditOp(_) => true
    case EditTier(_) => NeedsTier(s.op)
    case List => !s.busy && Trim(s.target) != ""
    case Preview => !s.busy && Trim(s.target) != ""
    case Apply => !s.busy && Current(s).Some? && Current(s).value.result.changes != []
    case Deliver(id, _) => id in s.inFlight
    case Fail(id, _) => id in s.inFlight
  }

  function AppliedText(answer: Answer): NoticeText {
    if answer.message != "" then Said(answer.message) else AppliedCount(answer.count)
  }

  /** A request joins the ones in flight. */
  function Issue(s: State, r: Request): State {
    s.(inFlight := s.inFlight[s.next := r], next := s.next + 1)
  }

  predicate SendsApply(s: State)
    requires Current(s).Some?
  {
    var p := Current(s).value;
    p.result.fingerprint != "" && p.made.scope == ProjectScope(s.root, s.viewed)
  }

  function MessageOf(s: State, p: Plan): Message {
    Message(s.visit, ProjectScope(s.root, s.viewed), p.made.target, p.made.op, p.made.to, p.result.fingerprint, p.id)
  }

  /** A scope the visit does not carry starts a new visit. */
  function Entered(s: State): State {
    if s.visitScope != s.scope then s.(visit := s.visit + 1, visitScope := s.scope) else s
  }

  /** A changed scope schedules the reset. */
  function Rendered(s: State, viewed: string, root: string): State {
    var scope := ProjectScope(root, viewed);
    Entered(s.(viewed := viewed, root := root, scope := scope, resetPending := scope != s.scope))
  }

  function PreviewBegun(s: State): State {
    Issue(s.(busy := true, notice := None, plan := None),
          PreviewRequest(s.visit, ProjectScope(s.root, s.viewed), Form(s)))
  }

  /** Sends nothing when the plan has no fingerprint or the viewed project moved on. */
  function ApplyBegun(s: State): State
    requires Current(s).Some?
  {
    var p := Current(s).value;
    if SendsApply(s) then
      Issue(s.(busy := true, notice := None, sent := s.sent + [MessageOf(s, p)]), ApplyRequest(s.visit, p))
    else
      s.(notice := None, busy := false)
  }

  function Next(s: State, step: Step): State
    requires Enabled(s, step)
  {
    match step
    case Render(viewed, root) => Rendered(s, viewed, root)
    case Reset => s.(rows := None, plan := None, notice := None, busy := false, resetPending := false)
    case EditTarget(t) => s.(target := t, plan := None)
    case EditOp(op) => s.(op := op, plan := None)
    case EditTier(to) => s.(to := to, plan := None)
    case List => Issue(s.(busy := true, notice := None), ListRequest(s.visit, s.scope, Trim(s.target)))
    case Preview => PreviewBegun(s)
    case Apply => ApplyBegun(s)
    case Deliver(id, answer) =>
      var r := s.inFlight[id];
      var t := Recorded(s.(inFlight := s.inFlight - {id}), id, r, answer);
      if r.visit != s.visit then t else Answered(t, id, r, answer)
    case Fail(id, error) =>
      var r := s.inFlight[id];
      var t := s.(inFlight := s.inFlight - {id});
      if r.visit != s.visit then t else t.(notice := Some(Notice(r.visit, Said(error))), busy := false)
  }

  /** What the server's answer adds to the history, whether or not the panel still listens. */
  function Recorded(s: State, id: nat, r: Request, answer: Answer): State {
    match r
    case PreviewRequest(v, asked, made) => s.(answered := s.answered[id := Plan(id, v, asked, made, answer)])
    case ApplyRequest(_, p) => s.(applied := s.applied + [p.id])
    case _ => s
  }

  /** What a live answer changes. */
  function Answered(s: State, id: nat, r: Request, answer: Answer): State {
    match r
    case ListRequest(v, scope, _) =>
      s.(rows := Some(Rows(v, scope, answer.anchors)), plan := None, busy := false)
    case PreviewRequest(v, asked, made) =>
      s.(rows := Some(Rows(v, made.scope, answer.anchors)), plan := Some(Plan(id, v, asked, made, answer)), busy := false)
    case ApplyRequest(v, p) =>
      Issue(s.(plan := None, notice := Some(Notice(v, AppliedText(answer)))), RelistRequest(v, p))
    case RelistRequest(v, p) =>
      s.(rows := Some(Rows(v, p.made.scope, answer.anchors)), busy := false)
  }

  predicate CanRun(s: State, steps: seq<Step>)
    decreases |steps|
  {
    steps == [] || (Enabled(s, steps[0]) && CanRun(Next(s, steps[0]), steps[1..]))
  }

  function Run(s: State, steps: seq<Step>): State
    requires CanRun(s, steps)
    decreases |steps|
  {
    if steps == [] then s else Run(Next(s, steps[0]), steps[1..])
  }

  // ---------------------------------------------------------------- the component

  /** The panel's refs and state hooks, updated one by one as the component does. */
  class AnchorPanel {
    var viewed: string
    var root: string
    var scope: string
    var visit: nat
    var visitScope: string
    var resetPending: bool
    var target: string
    var op: Op
    var to: string
    var rows: Option<Rows>
    var plan: Option<Plan>
    var notice: Option<Notice>
    var busy: bool
    var inFlight: map<nat, Request>
    var next: nat
    var sent: seq<Message>
    var answered: map<nat, Plan>
    var applied: seq<nat>

    function View(): State
      reads this
    {
      State(viewed, root, scope, visit, visitScope, resetPending, target, op, to,
            rows, plan, notice, busy, inFlight, next, sent, answered, applied)
    }

    constructor (viewed: string, root: string)
      ensures View() == Init(viewed, root)
    {
      this.viewed, this.root := viewed, root;
      scope, visitScope := ProjectScope(root, viewed), ProjectScope(root, viewed);
      visit, resetPending := 0, true;
      target, op, to := "", Downgrade, "semantic_guess";
      rows, plan, notice, busy := None, None, None, false;
      inFlight, next := map[], 0;
      sent, answered, applied := [], map[], [];
    }

    method Enter()
      modifies this`visit, this`visitScope
      ensures View() == Entered(old(View()))
    {
      if visitScope != scope {
        visit, visitScope := visit + 1, scope;
      }
    }

    /** One render of the dashboard, which sets the viewed project, down to the panel; a scope
        it has not seen replaces the visit and schedules the reset. */
    method RenderPanel(viewed: string, root: string)
      requires !resetPending
      modifies this`viewed, this`root, this`scope, this`visit, this`visitScope, this`resetPending
      ensures View() == Rendered(old(View()), viewed, root)
    {
      var before := scope;
      this.viewed, this.root, scope := viewed, root, ProjectScope(root, viewed);
      resetPending := scope != before;
      Enter();
    }

    method ResetEffect()
      requires resetPending
      modifies this`rows, this`plan, this`notice, this`busy, this`resetPending
      ensures View() == Next(old(View()), Reset)
    {
      rows := None;
      plan := None;
      notice := None;
      busy := false;
      resetPending := false;
    }

    method ChangeTarget(target: string)
      modifies this`target, this`plan
      ensures View() == Next(old(View()), EditTarget(target))
    {
      this.target := target;
      plan := None;
    }

    method ChangeOp(op: Op)
      modifies this`op, this`plan
      ensures View() == Next(old(View()), EditOp(op))
    {
      this.op := op;
      plan := None;
    }

    method ChangeTier(to: string)
      requires Enabled(View(), EditTier(to))
      modifies this`to, this`plan
      ensures View() == Next(old(View()), EditTier(to))
    {
      this.to := to;
      plan := None;
    }

    method Begin()
      modifies this`busy, this`notice
      ensures View() == old(View()).(busy := true, notice := None)
    {
      busy := true;
      notice := None;
    }

    method Send(r: Request)
      modifies this`inFlight, this`next
      ensures View() == Issue(old(View()), r)
    {
      inFlight := inFlight[next := r];
      next := next + 1;
    }

    method PressList()
      requires Enabled(View(), List)
      modifies this`busy, this`notice, this`inFlight, this`next
      ensures View() == Next(old(View()), List)
    {
      Begin();
      Send(ListRequest(visit, scope, Trim(target)));
    }

    method PressPreview()
      requires Enabled(View(), Preview)
      modifies this`busy, this`notice, this`plan, this`inFlight, this`next
      ensures View() == PreviewBegun(old(View()))
    {
      Begin();
      plan := None;
      Send(PreviewRequest(visit, ProjectScope(root, viewed), Form(View())));
    }

    method PressApply()
      requires Enabled(View(), Apply)
      modifies this`busy, this`notice, this`sent, this`inFlight, this`next
      ensures View() == ApplyBegun(old(View()))
    {
      var p := Current(View()).value;
      Begin();
      if p.result.fingerprint == "" || p.made.scope != ProjectScope(root, viewed) {
        busy := false;
      } else {
        sent := sent + [Message(visit, ProjectScope(root, viewed), p.made.target, p.made.op, p.made.to,
                                p.result.fingerprint, p.id)];
        Send(ApplyRequest(visit, p));
      }
    }

    method Record(id: nat, r: Request, answer: Answer)
      modifies this`answered, this`applied
      ensures View() == Recorded(old(View()), id, r, answer)
    {
      match r {
        case PreviewRequest(v, asked, made) => answered := answered[id := Plan(id, v, asked, made, answer)];
        case ApplyRequest(_, p) => applied := applied + [p.id];
        case _ =>
      }
    }

    /** The rest of the step once `live()` has held. */
    method Continue(id: nat, r: Request, answer: Answer)
      modifies this`rows, this`plan, this`notice, this`busy, this`inFlight, this`next
      ensures View() == Answered(old(View()), id, r, answer)
    {
      match r {
        case ListRequest(v, at, _) =>
          rows := Some(Rows(v, at, answer.anchors));
          plan := None;
          busy := false;
        case PreviewRequest(v, asked, made) =>
          rows := Some(Rows(v, made.scope, answer.anchors));
          plan := Some(Plan(id, v, asked, made, answer));
          busy := false;
        case ApplyRequest(v, p) =>
          plan := None;
          notice := Some(Notice(v, AppliedText(answer)));
          Send(RelistRequest(v, p));
        case RelistRequest(v, p) =>
          rows := Some(Rows(v, p.made.scope, answer.anchors));
          busy := false;
      }
    }

    /** The continuation after an await: a request of an ended visit returns at once. */
    method Receive(id: nat, answer: Answer)
      requires Enabled(View(), Deliver(id, answer))
      modifies this`inFlight, this`answered, this`applied, this`rows, this`plan, this`notice, this`busy, this`next
      ensures View() == Next(old(View()), Deliver(id, answer))
    {
      var r := inFlight[id];
      inFlight := inFlight - {id};
      Record(id, r, answer);
      if r.visit == visit {
        Continue(id, r, answer);
      }
    }

    method ReceiveError(id: nat, error: string)
      requires Enabled(View(), Fail(id, error))
      modifies this`inFlight, this`notice, this`busy
      ensures View() == Next(old(View()), Fail(id, error))
    {
      var r := inFlight[id];
      inFlight := inFlight - {id};
      if r.visit == visit {
        notice := Some(Notice(r.visit, Said(error)));
        busy := false;
      }
    }
  }
}
