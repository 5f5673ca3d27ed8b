/** The plugin's per-session state: prompt contexts, classifications, active commands, and the
    sessions that already got their once-per-session blocks. Every handler is one event; what
    its awaited calls answer comes with the event. */
module HookState {
  import opened Text

  type Session = string

  /** What `chat.message` learns. `blocked` covers both enforcement branches; `context` is what
      buildPromptContext returned; `startup` is its three-part condition but for the session
      being new; block texts are already joined, "" for none. */
  datatype Prompt = Prompt(
    blocked: bool, isAidocs: bool, context: string, startup: bool, startBlocks: string, skillBlocks: string,
    managed: bool, actionKind: string)

  datatype Event =
    | ChatMessage(session: Session, prompt: Prompt)
    | CommandBefore(session: Session, command: string, meta: string)
    | CommandExecuted(session: Session)
    | Compacting(session: Session)
    | Advise(session: Session, advisory: string)
    | EditDone(session: Session)

  /** What the history remembers of a session: a prompt that got a context, the two blocks
      injected with one, a compaction. */
  datatype Mark = Prompted(s: Session) | StartInjected(s: Session) | SkillsInjected(s: Session) | Compacted(s: Session)

  datatype State = State(
    contexts: map<Session, string>, kinds: map<Session, string>,
    commands: map<Session, string>, metas: map<Session, string>,
    injected: set<Session>, log: seq<Mark>)

  const START_HEADING := "\n\nSession start context for this conversation:\n"
  const SKILLS_HEADING := "\n\nLearned AIDOCS helper skills for this conversation:\n"
  const ACTIVE_HEADING := "Active AIDOCS helper skill guidance:"
  const REMINDER_KEY := "task_complete"
  const REMINDER_HEAD := " Remember to call `"
  const REMINDER_TAIL := "` when the edit task is done."
  const REMINDER := REMINDER_HEAD + REMINDER_KEY + REMINDER_TAIL
  const NOTICE_HEAD := "CRITICAL: The user typed "
  const NOTICE_KEY := "`/aidocs`"
  const NOTICE_TAIL := "."
  const AIDOCS_NOTICE := NOTICE_HEAD + NOTICE_KEY + NOTICE_TAIL

  function Get(m: map<Session, string>, s: Session): string {
    if s in m then m[s] else ""
  }

  predicate InjectsStart(p: Prompt, first: bool) {
    p.startup && first && p.startBlocks != ""
  }

  function WithStart(p: Prompt, first: bool): string {
    if InjectsStart(p, first) then p.context + START_HEADING + p.startBlocks else p.context
  }

  predicate InjectsSkills(p: Prompt, first: bool) {
    first && p.skillBlocks != "" && !Includes(WithStart(p, first), ACTIVE_HEADING)
  }

  function FinalContext(p: Prompt, first: bool): string {
    if InjectsSkills(p, first) then WithStart(p, first) + SKILLS_HEADING + p.skillBlocks else WithStart(p, first)
  }

  /** The prompt gets as far as being given a context. */
  predicate GetsContext(st: State, s: Session, p: Prompt) {
    !p.blocked && !(s !in st.commands && p.isAidocs) && p.context != ""
  }

  function Marks(s: Session, p: Prompt, first: bool): seq<Mark> {
    [Prompted(s)]
    + (if InjectsStart(p, first) then [StartInjected(s)] else [])
    + (if InjectsSkills(p, first) then [SkillsInjected(s)] else [])
  }

  function Contextualise(st: State, s: Session, p: Prompt): State {
    var first := s !in st.injected;
    st.(injected := st.injected + {s},
        log := st.log + Marks(s, p, first),
        contexts := st.contexts[s := FinalContext(p, first)],
        kinds := if p.managed && p.actionKind != "" then st.kinds[s := p.actionKind] else st.kinds - {s})
  }

  function Next(st: State, event: Event): State {
    match event
    case ChatMessage(s, p) =>
      if p.blocked then st.(contexts := st.contexts - {s}, kinds := st.kinds - {s})
      else if s !in st.commands && p.isAidocs then
        st.(commands := st.commands[s := "aidocs"], metas := st.metas[s := "aidocs"],
            contexts := st.contexts[s := AIDOCS_NOTICE])
      else if p.context != "" then Contextualise(st, s, p)
      else st.(contexts := st.contexts - {s}, kinds := st.kinds - {s})
    case CommandBefore(s, command, meta) => st.(commands := st.commands[s := command], metas := st.metas[s := meta])
    case CommandExecuted(s) => st.(commands := st.commands - {s}, metas := st.metas - {s})
    case Compacting(s) => st.(injected := st.injected - {s}, log := st.log + [Compacted(s)])
    case Advise(s, advisory) =>
      var existing := Get(st.contexts, s);
      if advisory == "" || Includes(existing, advisory) then st
      else st.(contexts := st.contexts[s := advisory + if existing != "" then "\n" + existing else ""])
    case EditDone(s) =>
      var existing := Get(st.contexts, s);
      if Includes(existing, REMINDER_KEY) then st else st.(contexts := st.contexts[s := existing + REMINDER])
  }

  function Run(st: State, events: seq<Event>): State
    decreases |events|
  {
    if events == [] then st else Run(Next(st, events[0]), events[1..])
  }

  function Init(): State {
    State(map[], map[], map[], map[], {}, [])
  }

  // ---------------------------------------------------------------- what every run keeps

  /** How often the mark was made for its session since that session's last compaction. */
  function Since(log: seq<Mark>, mark: Mark): nat {
    if log == [] then 0
    else
      var last := log[|log| - 1];
      if last == Compacted(mark.s) then 0
      else Since(log[..|log| - 1], mark) + if last == mark then 1 else 0
  }

  ghost predicate Consistent(st: State) {
    && st.kinds.Keys <= st.contexts.Keys
    && st.commands.Keys == st.metas.Keys
    && (forall s :: s in st.injected <==> Since(st.log, Prompted(s)) > 0)
    && (forall s :: s !in st.injected ==> Since(st.log, StartInjected(s)) == Since(st.log, SkillsInjected(s)) == 0)
    && (forall s :: Since(st.log, StartInjected(s)) <= 1 && Since(st.log, SkillsInjected(s)) <= 1)
  }

  lemma OneMark(log: seq<Mark>, last: Mark, mark: Mark)
    ensures Since(log + [last], mark) ==
            if last == Compacted(mark.s) then 0 else Since(log, mark) + if last == mark then 1 else 0
  {
    assert (log + [last])[..|log|] == log;
  }

  lemma MarksAdd(log: seq<Mark>, s: Session, p: Prompt, first: bool, mark: Mark)
    requires !mark.Compacted?
    ensures Since(log + Marks(s, p, first), mark) ==
            Since(log, mark)
            + (if mark == Prompted(s) then 1 else 0)
            + (if mark == StartInjected(s) && InjectsStart(p, first) then 1 else 0)
            + (if mark == SkillsInjected(s) && InjectsSkills(p, first) then 1 else 0)
  {
    var l1 := log + [Prompted(s)];
    OneMark(log, Prompted(s), mark);
    var l2 := if InjectsStart(p, first) then l1 + [StartInjected(s)] else l1;
    OneMark(l1, StartInjected(s), mark);
    OneMark(l2, SkillsInjected(s), mark);
    assert log + Marks(s, p, first) == if InjectsSkills(p, first) then l2 + [SkillsInjected(s)] else l2;
  }

  lemma ConsistentStep(st: State, event: Event)
    requires Consistent(st)
    ensures Consistent(Next(st, event))
  {
    match event
    case ChatMessage(s, p) =>
      if GetsContext(st, s, p) {
        ConsistentPrompt(st, s, p);
      }
    case Compacting(s) => ConsistentCompaction(st, s);
    case _ =>
  }

  lemma ConsistentCompaction(st: State, s: Session)
    requires Consistent(st)
    ensures Consistent(Next(st, Compacting(s)))
  {
    forall mark: Mark | !mark.Compacted?
      ensures Since(st.log + [Compacted(s)], mark) == if mark.s == s then 0 else Since(st.log, mark)
    {
      OneMark(st.log, Compacted(s), mark);
    }
  }

  lemma ConsistentPrompt(st: State, s: Session, p: Prompt)
    requires Consistent(st)
    ensures Consistent(Contextualise(st, s, p))
  {
    var first := s !in st.injected;
    var log := st.log + Marks(s, p, first);
    forall t: Session
      ensures Since(log, Prompted(t)) == Since(st.log, Prompted(t)) + if t == s then 1 else 0
      ensures t != s ==> Since(log, StartInjected(t)) == Since(st.log, StartInjected(t))
      ensures t != s ==> Since(log, SkillsInjected(t)) == Since(st.log, SkillsInjected(t))
    {
      MarksAdd(st.log, s, p, first, Prompted(t));
      MarksAdd(st.log, s, p, first, StartInjected(t));
      MarksAdd(st.log, s, p, first, SkillsInjected(t));
    }
    MarksAdd(st.log, s, p, first, StartInjected(s));
    MarksAdd(st.log, s, p, first, SkillsInjected(s));
  }

  lemma {:induction false} ConsistentRun(st: State, events: seq<Event>)
    requires Consistent(st)
    ensures Consistent(Run(st, events))
    decreases |events|
  {
    if events != [] {
      ConsistentStep(st, events[0]);
      ConsistentRun(Next(st, events[0]), events[1..]);
    }
  }

  /** In every run a classified session has a prompt context, and each block was injected at
      most once since the session's last compaction. */
  lemma InEveryRun(events: seq<Event>, s: Session)
    ensures var st := Run(Init(), events);
            && (s in st.kinds ==> s in st.contexts)
            && Since(st.log, StartInjected(s)) <= 1 && Since(st.log, SkillsInjected(s)) <= 1
  {
    ConsistentRun(Init(), events);
  }

  /** A prompt injects a block exactly when it gets a context, is the session's first one that does
      since the last compaction, and the block is there to inject: the start block on a ready
      startup, the skills block if no guidance stands in the context already. */
  lemma InjectsExactlyWhenFirst(events: seq<Event>, s: Session, p: Prompt)
    ensures var st := Run(Init(), events);
            var log, first := Next(st, ChatMessage(s, p)).log, Since(st.log, Prompted(s)) == 0;
            var due := first && !p.blocked && (s in st.commands || !p.isAidocs) && p.context != "";
            var start := due && p.startup && p.startBlocks != "";
            var soFar := p.context + if start then "\n\nSession start context for this conversation:\n" + p.startBlocks else "";
            && Since(log, StartInjected(s)) - Since(st.log, StartInjected(s)) == (if start then 1 else 0)
            && Since(log, SkillsInjected(s)) - Since(st.log, SkillsInjected(s)) ==
               (if due && p.skillBlocks != "" && !Includes(soFar, "Active AIDOCS helper skill guidance:") then 1 else 0)
  {
    var st := Run(Init(), events);
    ConsistentRun(Init(), events);
    if GetsContext(st, s, p) {
      var first := s !in st.injected;
      MarksAdd(st.log, s, p, first, StartInjected(s));
      MarksAdd(st.log, s, p, first, SkillsInjected(s));
      Grouped(p.context, START_HEADING, p.startBlocks);
      assert WithStart(p, first) == p.context + if InjectsStart(p, first) then START_HEADING + p.startBlocks else "";
    }
  }

  /** The number of marks that a prompt makes: 0 or 1. */
  function Made(st: State, s: Session, p: Prompt, mark: Mark): int {
    Since(Next(st, ChatMessage(s, p)).log, mark) - Since(st.log, mark)
  }

  /** A mark stands for its block: the context a prompt leaves is what was built for it, then the
      start block with its heading exactly if that was marked, then the skills block likewise. */
  lemma MarksStandForBlocks(events: seq<Event>, s: Session, p: Prompt)
    ensures var st := Run(Init(), events);
            GetsContext(st, s, p) ==>
              && s in Next(st, ChatMessage(s, p)).contexts
              && Next(st, ChatMessage(s, p)).contexts[s] ==
                 p.context
                 + (if Made(st, s, p, StartInjected(s)) == 1
                    then "\n\nSession start context for this conversation:\n" + p.startBlocks else "")
                 + (if Made(st, s, p, SkillsInjected(s)) == 1
                    then "\n\nLearned AIDOCS helper skills for this conversation:\n" + p.skillBlocks else "")
  {
    var st := Run(Init(), events);
    ConsistentRun(Init(), events);
    if GetsContext(st, s, p) {
      MadeWhenInjected(st, s, p);
      BlocksOfContext(p, s !in st.injected);
    }
  }

  lemma MadeWhenInjected(st: State, s: Session, p: Prompt)
    requires GetsContext(st, s, p)
    ensures Made(st, s, p, StartInjected(s)) == if InjectsStart(p, s !in st.injected) then 1 else 0
    ensures Made(st, s, p, SkillsInjected(s)) == if InjectsSkills(p, s !in st.injected) then 1 else 0
  {
    MarksAdd(st.log, s, p, s !in st.injected, StartInjected(s));
    MarksAdd(st.log, s, p, s !in st.injected, SkillsInjected(s));
  }

  lemma BlocksOfContext(p: Prompt, first: bool)
    ensures FinalContext(p, first) ==
            p.context
            + (if InjectsStart(p, first) then START_HEADING + p.startBlocks else "")
            + (if InjectsSkills(p, first) then SKILLS_HEADING + p.skillBlocks else "")
  {
    Grouped(p.context, START_HEADING, p.startBlocks);
    Grouped(WithStart(p, first), SKILLS_HEADING, p.skillBlocks);
  }

  lemma Grouped(a: string, b: string, c: string)
    ensures a + b + c == a + (b + c) && a + "" == a
  {
  }

  /** Until the session's next prompt whatever stands in its context stays there: advisories and
      reminders are put around it. */
  lemma {:induction false} ContextStands(st: State, events: seq<Event>, s: Session, block: string)
    requires s in st.contexts && Includes(st.contexts[s], block)
    requires forall i | 0 <= i < |events| :: events[i].session == s ==> !events[i].ChatMessage?
    ensures var t := Run(st, events); s in t.contexts && Includes(t.contexts[s], block)
    decreases |events|
  {
    if events != [] {
      ContextStandsStep(st, events[0], s, block);
      ContextStands(Next(st, events[0]), events[1..], s, block);
    }
  }

  lemma ContextStandsStep(st: State, event: Event, s: Session, block: string)
    requires s in st.contexts && Includes(st.contexts[s], block)
    requires event.session == s ==> !event.ChatMessage?
    ensures var t := Next(st, event); s in t.contexts && Includes(t.contexts[s], block)
  {
    if event.session != s {
      SessionsAreIsolated(st, event, s);
    } else if event.Advise? {
      var existing := st.contexts[s];
      IncludesWithin(event.advisory + "\n", existing, "", block);
      assert event.advisory + ("\n" + existing) == (event.advisory + "\n") + existing + "";
      assert existing == "" ==> block == "" && MatchesAt(event.advisory + "", block, 0);
    } else if event.EditDone? {
      IncludesWithin("", st.contexts[s], REMINDER, block);
      assert "" + st.contexts[s] + REMINDER == st.contexts[s] + REMINDER;
    }
  }

  /** An injected block stands in the session's context until its next prompt. */
  lemma InjectedBlockStands(events: seq<Event>, s: Session, p: Prompt, later: seq<Event>)
    requires forall i | 0 <= i < |later| :: later[i].session == s ==> !later[i].ChatMessage?
    ensures var st := Run(Init(), events);
            var t := Run(Next(st, ChatMessage(s, p)), later);
            && (Made(st, s, p, StartInjected(s)) == 1 ==>
                  s in t.contexts && Includes(t.contexts[s], START_HEADING + p.startBlocks))
            && (Made(st, s, p, SkillsInjected(s)) == 1 ==>
                  s in t.contexts && Includes(t.contexts[s], SKILLS_HEADING + p.skillBlocks))
  {
    var st := Run(Init(), events);
    var st' := Next(st, ChatMessage(s, p));
    var start, skills := START_HEADING + p.startBlocks, SKILLS_HEADING + p.skillBlocks;
    MarksStandForBlocks(events, s, p);
    InjectsExactlyWhenFirst(events, s, p);
    var skillsPart := if Made(st, s, p, SkillsInjected(s)) == 1 then skills else "";
    if Made(st, s, p, StartInjected(s)) == 1 {
      IncludesMiddle(p.context, start, skillsPart);
      ContextStands(st', later, s, start);
    }
    if Made(st, s, p, SkillsInjected(s)) == 1 {
      var startPart := if Made(st, s, p, StartInjected(s)) == 1 then start else "";
      IncludesMiddle(p.context + startPart, skills, "");
      assert p.context + startPart + skills + "" == p.context + startPart + skills;
      ContextStands(st', later, s, skills);
    }
  }

  /** What a session sees of the state. */
  function ViewOf(st: State, s: Session): (Option<string>, Option<string>, Option<string>, Option<string>, bool) {
    (At(st.contexts, s), At(st.kinds, s), At(st.commands, s), At(st.metas, s), s in st.injected)
  }

  function At(m: map<Session, string>, s: Session): Option<string> {
    if s in m then Some(m[s]) else None
  }

  /** No event of one session touches the entries of another. */
  lemma SessionsAreIsolated(st: State, event: Event, s: Session)
    requires s != event.session
    ensures ViewOf(Next(st, event), s) == ViewOf(st, s)
  {
  }

  /** Over a whole run a session sees the effect of its own events only. */
  lemma {:induction false} OnlyOwnEventsMatter(st: State, st': State, events: seq<Event>, s: Session)
    requires ViewOf(st, s) == ViewOf(st', s)
    ensures ViewOf(Run(st, events), s) == ViewOf(Run(st', Own(events, s)), s)
    decreases |events|
  {
    if events != [] {
      if events[0].session == s {
        SameForOwn(st, st', events[0]);
        assert Own(events, s)[1..] == Own(events[1..], s);
        OnlyOwnEventsMatter(Next(st, events[0]), Next(st', events[0]), events[1..], s);
      } else {
        SessionsAreIsolated(st, events[0], s);
        assert Own(events, s) == Own(events[1..], s);
        OnlyOwnEventsMatter(Next(st, events[0]), st', events[1..], s);
      }
    }
  }

  function Own(events: seq<Event>, s: Session): seq<Event>
    decreases |events|
  {
    if events == [] then []
    else (if events[0].session == s then [events[0]] else []) + Own(events[1..], s)
  }

  lemma SameForOwn(st: State, st': State, event: Event)
    requires ViewOf(st, event.session) == ViewOf(st', event.session)
    ensures ViewOf(Next(st, event), event.session) == ViewOf(Next(st', event), event.session)
  {
    match event
    case ChatMessage(s, p) => SameForPrompt(st, st', s, p);
    case Advise(s, _) => SameForNudge(st, st', event);
    case EditDone(s) => SameForNudge(st, st', event);
    case _ =>
  }

  lemma SameForPrompt(st: State, st': State, s: Session, p: Prompt)
    requires ViewOf(st, s) == ViewOf(st', s)
    ensures ViewOf(Next(st, ChatMessage(s, p)), s) == ViewOf(Next(st', ChatMessage(s, p)), s)
  {
    if GetsContext(st, s, p) {
      SameContext(st, st', s, p);
    }
  }

  lemma SameForNudge(st: State, st': State, event: Event)
    requires (event.Advise? || event.EditDone?) && ViewOf(st, event.session) == ViewOf(st', event.session)
    ensures ViewOf(Next(st, event), event.session) == ViewOf(Next(st', event), event.session)
  {
    assert Get(st.contexts, event.session) == Get(st'.contexts, event.session);
  }

  lemma SameContext(st: State, st': State, s: Session, p: Prompt)
    requires ViewOf(st, s) == ViewOf(st', s)
    ensures ViewOf(Contextualise(st, s, p), s) == ViewOf(Contextualise(st', s, p), s)
  {
  }

  /** Repeating an advisory adds nothing. */
  lemma AdvisoryIsNotRepeated(st: State, s: Session, advisory: string)
    ensures var t := Next(st, Advise(s, advisory)); Next(t, Advise(s, advisory)) == t
  {
    var existing := Get(st.contexts, s);
    var tail := if existing != "" then "\n" + existing else "";
    IncludesMiddle("", advisory, tail);
    assert "" + advisory == advisory;
  }

  /** Nor does another edit after the reminder. */
  lemma ReminderIsNotRepeated(st: State, s: Session)
    ensures var t := Next(st, EditDone(s)); Next(t, EditDone(s)) == t
  {
    IncludesInside(Get(st.contexts, s), REMINDER_HEAD, REMINDER_KEY, REMINDER_TAIL);
  }

  // ---------------------------------------------------------------- what each entry says

  /** A session's classification is that of its last prompt: the action kind of a managed one that
      got a context, none after a blocked one or one without; the `/aidocs` prompt leaves it. */
  lemma ClassificationAfterPrompt(st: State, s: Session, p: Prompt)
    ensures var t := Next(st, ChatMessage(s, p));
            At(t.kinds, s) ==
            if !p.blocked && p.isAidocs && s !in st.commands then At(st.kinds, s)
            else if !p.blocked && p.context != "" && p.managed && p.actionKind != "" then Some(p.actionKind)
            else None
  {
  }

  /** A prompt that is blocked, or has no context, leaves none behind. */
  lemma NoContextIsLeft(st: State, s: Session, p: Prompt)
    requires p.blocked || (p.context == "" && !(p.isAidocs && s !in st.commands))
    ensures s !in Next(st, ChatMessage(s, p)).contexts
  {
  }

  predicate IsPromptOf(event: Event, s: Session) {
    event.ChatMessage? && event.session == s
  }

  predicate IsCommandOf(event: Event, s: Session) {
    (event.CommandBefore? || event.CommandExecuted?) && event.session == s
  }

  /** And it stands until the next prompt, whatever happens in between. */
  lemma {:induction false} ClassificationStands(st: State, events: seq<Event>, s: Session)
    requires forall i | 0 <= i < |events| :: !IsPromptOf(events[i], s)
    ensures At(Run(st, events).kinds, s) == At(st.kinds, s)
    decreases |events|
  {
    if events != [] {
      assert !IsPromptOf(events[0], s);
      ClassificationStands(Next(st, events[0]), events[1..], s);
    }
  }

  /** From its start to its end a command is the session's active one, whatever is prompted in
      between, `/aidocs` too; and once ended, none is. */
  lemma {:induction false} CommandStands(st: State, events: seq<Event>, s: Session, command: string, meta: string)
    requires At(st.commands, s) == Some(command) && At(st.metas, s) == Some(meta)
    requires forall i | 0 <= i < |events| :: !IsCommandOf(events[i], s)
    ensures var t := Run(st, events); At(t.commands, s) == Some(command) && At(t.metas, s) == Some(meta)
    decreases |events|
  {
    if events != [] {
      assert !IsCommandOf(events[0], s);
      CommandStandsStep(st, events[0], s);
      CommandStands(Next(st, events[0]), events[1..], s, command, meta);
    }
  }

  lemma CommandStandsStep(st: State, event: Event, s: Session)
    requires s in st.commands && s in st.metas && !IsCommandOf(event, s)
    ensures var t := Next(st, event); At(t.commands, s) == At(st.commands, s) && At(t.metas, s) == At(st.metas, s)
  {
  }

  lemma ActiveCommand(st: State, events: seq<Event>, s: Session, command: string, meta: string)
    requires forall i | 0 <= i < |events| :: !IsCommandOf(events[i], s)
    ensures var t := Run(Next(st, CommandBefore(s, command, meta)), events);
            At(t.commands, s) == Some(command) && At(t.metas, s) == Some(meta)
  {
    CommandStands(Next(st, CommandBefore(s, command, meta)), events, s, command, meta);
  }

  lemma EndedCommand(st: State, s: Session)
    ensures var t := Next(st, CommandExecuted(s)); s !in t.commands && s !in t.metas
  {
  }

  /** Typing `/aidocs` makes that the active command until one ends or starts, with its notice as
      the context; where a command is active already it is a prompt like any other. */
  lemma AidocsOpens(st: State, events: seq<Event>, s: Session, p: Prompt)
    requires !p.blocked && p.isAidocs && s !in st.commands
    requires forall i | 0 <= i < |events| :: !IsCommandOf(events[i], s)
    ensures var t := Next(st, ChatMessage(s, p));
            && At(t.contexts, s) == Some(AIDOCS_NOTICE) && t.log == st.log && t.injected == st.injected
            && At(Run(t, events).commands, s) == Some("aidocs")
  {
    OpenedByAidocs(st, s, p);
    CommandStands(Next(st, ChatMessage(s, p)), events, s, "aidocs", "aidocs");
  }

  lemma OpenedByAidocs(st: State, s: Session, p: Prompt)
    requires !p.blocked && p.isAidocs && s !in st.commands
    ensures var t := Next(st, ChatMessage(s, p));
            && At(t.contexts, s) == Some(AIDOCS_NOTICE) && t.log == st.log && t.injected == st.injected
            && At(t.commands, s) == At(t.metas, s) == Some("aidocs")
  {
  }

  lemma AdviceIsThere(st: State, s: Session, advisory: string)
    requires advisory != ""
    ensures var t := Next(st, Advise(s, advisory)); s in t.contexts && Includes(t.contexts[s], advisory)
    ensures !Includes(Get(st.contexts, s), advisory) ==> advisory <= Next(st, Advise(s, advisory)).contexts[s]
  {
    var existing := Get(st.contexts, s);
    if !Includes(existing, advisory) {
      var tail := if existing != "" then "\n" + existing else "";
      assert MatchesAt(advisory + tail, advisory, 0);
    } else if s !in st.contexts {
      NothingIn(advisory);
    }
  }

  /** An advisory stands in the context, before what was there, until the next prompt. */
  lemma AdviceStands(st: State, s: Session, advisory: string, events: seq<Event>)
    requires advisory != ""
    requires forall i | 0 <= i < |events| :: !IsPromptOf(events[i], s)
    ensures var t := Run(Next(st, Advise(s, advisory)), events);
            s in t.contexts && Includes(t.contexts[s], advisory)
    ensures !Includes(Get(st.contexts, s), advisory) ==> advisory <= Next(st, Advise(s, advisory)).contexts[s]
  {
    AdviceIsThere(st, s, advisory);
    ContextStands(Next(st, Advise(s, advisory)), events, s, advisory);
  }

  /** The empty text includes no other. */
  lemma NothingIn(t: string)
    requires Includes("", t)
    ensures t == ""
  {
    var i: nat :| i <= 0 && MatchesAt("", t, i);
  }

  /** And the reminder, after what was there. */
  lemma ReminderStands(st: State, s: Session, events: seq<Event>)
    requires forall i | 0 <= i < |events| :: !IsPromptOf(events[i], s)
    ensures var t := Run(Next(st, EditDone(s)), events); s in t.contexts && Includes(t.contexts[s], "task_complete")
    ensures Get(st.contexts, s) <= Next(st, EditDone(s)).contexts[s]
  {
    var existing := Get(st.contexts, s);
    if !Includes(existing, REMINDER_KEY) {
      IncludesInside(existing, REMINDER_HEAD, REMINDER_KEY, REMINDER_TAIL);
    } else if s !in st.contexts {
      NothingIn(REMINDER_KEY);
    }
    ContextStands(Next(st, EditDone(s)), events, s, REMINDER_KEY);
  }

  // ---------------------------------------------------------------- the handlers

  class Hooks {
    var contexts: map<Session, string>
    var kinds: map<Session, string>
    var commands: map<Session, string>
    var metas: map<Session, string>
    var injected: set<Session>
    ghost var log: seq<Mark>

    ghost function View(): State
      reads this
    {
      State(contexts, kinds, commands, metas, injected, log)
    }

    constructor ()
      ensures View() == Init()
    {
      contexts, kinds, commands, metas, injected, log := map[], map[], map[], map[], {}, [];
    }

    method OnChatMessage(s: Session, p: Prompt)
      modifies this
      ensures View() == Next(old(View()), ChatMessage(s, p))
    {
      if p.blocked {
        contexts := contexts - {s};
        kinds := kinds - {s};
        return;
      }
      if s !in commands && p.isAidocs {
        commands := commands[s := "aidocs"];
        metas := metas[s := "aidocs"];
        contexts := contexts[s := AIDOCS_NOTICE];
        return;
      }
      if p.context != "" {
        GiveContext(s, p);
      } else {
        contexts := contexts - {s};
        kinds := kinds - {s};
      }
    }

    method GiveContext(s: Session, p: Prompt)
      modifies this`contexts, this`kinds, this`injected, this`log
      ensures View() == Contextualise(old(View()), s, p)
    {
      var final, first := p.context, s !in injected;
      ghost var marks := Marks(s, p, first);
      if p.startup && first {
        if p.startBlocks != "" {
          final := p.context + START_HEADING + p.startBlocks;
        }
      }
      if first {
        if p.skillBlocks != "" && !Includes(final, ACTIVE_HEADING) {
          final := final + SKILLS_HEADING + p.skillBlocks;
        }
        injected := injected + {s};
      }
      log := log + marks;
      contexts := contexts[s := final];
      if p.managed && p.actionKind != "" {
        kinds := kinds[s := p.actionKind];
      } else {
        kinds := kinds - {s};
      }
    }

    method OnCommandBefore(s: Session, command: string, meta: string)
      modifies this`commands, this`metas
      ensures View() == Next(old(View()), CommandBefore(s, command, meta))
    {
      commands := commands[s := command];
      metas := metas[s := meta];
    }

    method OnCommandExecuted(s: Session)
      modifies this`commands, this`metas
      ensures View() == Next(old(View()), CommandExecuted(s))
    {
      commands := commands - {s};
      metas := metas - {s};
    }

    method OnCompacting(s: Session)
      modifies this`injected, this`log
      ensures View() == Next(old(View()), Compacting(s))
    {
      injected := injected - {s};
      log := log + [Compacted(s)];
    }

    method OnAdvisory(s: Session, advisory: string)
      modifies this`contexts
      ensures View() == Next(old(View()), Advise(s, advisory))
    {
      var existing := Get(contexts, s);
      if advisory != "" && !Includes(existing, advisory) {
        contexts := contexts[s := advisory + if existing != "" then "\n" + existing else ""];
      }
    }

    method OnEditDone(s: Session)
      modifies this`contexts
      ensures View() == Next(old(View()), EditDone(s))
    {
      var existing := Get(contexts, s);
      if !Includes(existing, REMINDER_KEY) {
        contexts := contexts[s := existing + REMINDER];
      }
    }
  }
}
