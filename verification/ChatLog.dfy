/** The conductor's chat log: appending batches of messages, against the one-pass removal of
    adjacent repeats, and the log kept per (project, session) scope beside the one on screen. */
module ChatLog {
  import opened Text

  /** `tag` stands for the optional message role, which does not count in comparisons. */
  datatype Message = Message(role: string, text: string, tag: nat)

  predicate Same(a: Message, b: Message) {
    a.role == b.role && a.text == b.text
  }

  /** The stream without each message that repeats the one right before it. */
  function Distilled(stream: seq<Message>): seq<Message> {
    if stream == [] then []
    else
      var last := |stream| - 1;
      Distilled(stream[..last]) + if last > 0 && Same(stream[last - 1], stream[last]) then [] else [stream[last]]
  }

  ghost predicate RepeatFree(log: seq<Message>) {
    forall i | 0 < i < |log| :: !Same(log[i - 1], log[i])
  }

  lemma {:induction false} DistilledEnds(stream: seq<Message>)
    ensures RepeatFree(Distilled(stream))
    ensures stream == [] <==> Distilled(stream) == []
    ensures stream != [] ==> Same(Distilled(stream)[|Distilled(stream)| - 1], stream[|stream| - 1])
    ensures stream != [] ==> Distilled(stream)[0] == stream[0]
  {
    if stream != [] {
      DistilledEnds(stream[..|stream| - 1]);
    }
  }

  /** A log that is free of repeats is its own distillate. */
  lemma {:induction false} RepeatFreeStays(log: seq<Message>)
    requires RepeatFree(log)
    ensures Distilled(log) == log
  {
    if log != [] {
      RepeatFreeStays(log[..|log| - 1]);
      assert log == log[..|log| - 1] + [log[|log| - 1]];
    }
  }

  /** One message joins the log unless it repeats the last one there. */
  function Push(log: seq<Message>, item: Message): seq<Message> {
    if log != [] && Same(log[|log| - 1], item) then log else log + [item]
  }

  function Appended(log: seq<Message>, incoming: seq<Message>): seq<Message> {
    if incoming == [] then log
    else Push(Appended(log, incoming[..|incoming| - 1]), incoming[|incoming| - 1])
  }

  lemma AppendOne(log: seq<Message>, item: Message)
    requires log == [] || !Same(log[|log| - 1], item)
    ensures Appended(log, [item]) == log + [item]
  {
    assert [item][..0] == [];
  }

  lemma LastIsKept(stream: seq<Message>)
    requires stream != []
    ensures var log := Distilled(stream); log != [] && Same(log[|log| - 1], stream[|stream| - 1])
  {
    DistilledEnds(stream);
  }

  lemma DistilledOneMore(stream: seq<Message>, item: Message)
    ensures Distilled(stream + [item]) == Push(Distilled(stream), item)
  {
    if stream != [] {
      LastIsKept(stream);
    }
    assert (stream + [item])[..|stream|] == stream;
  }

  lemma AppendedOneMore(log: seq<Message>, start: seq<Message>, item: Message)
    ensures Appended(log, start + [item]) == Push(Appended(log, start), item)
  {
    assert (start + [item])[..|start|] == start;
  }

  /** Appending to the distillate of a stream gives the distillate of the longer stream. */
  lemma {:induction false} AppendedDistils(stream: seq<Message>, incoming: seq<Message>)
    ensures Appended(Distilled(stream), incoming) == Distilled(stream + incoming)
    decreases |incoming|
  {
    if incoming == [] {
      assert stream + incoming == stream;
    } else {
      var start, item := incoming[..|incoming| - 1], incoming[|incoming| - 1];
      AppendedDistils(stream, start);
      AppendedOneMore(Distilled(stream), start, item);
      DistilledOneMore(stream + start, item);
      assert incoming == start + [item];
      assert stream + (start + [item]) == (stream + start) + [item];
    }
  }

  /** A message is dropped exactly when role and text are those of the last one in the log. */
  lemma OnlyRepeatsAreDropped(log: seq<Message>, item: Message)
    ensures Appended(log, [item]) ==
            if log != [] && log[|log| - 1].role == item.role && log[|log| - 1].text == item.text then log
            else log + [item]
  {
    assert [item][..0] == [];
  }

  /** The loop of `appendMessages`. */
  method AppendMessages(previous: seq<Message>, ghost stream: seq<Message>, incoming: seq<Message>)
    returns (next: seq<Message>)
    ensures next == Appended(previous, incoming)
    ensures previous == Distilled(stream) ==> next == Distilled(stream + incoming)
    ensures previous <= next && (RepeatFree(previous) ==> RepeatFree(next))
  {
    next := previous;
    for i := 0 to |incoming|
      invariant next == Appended(previous, incoming[..i])
      invariant previous <= next && (RepeatFree(previous) ==> RepeatFree(next))
    {
      var item := incoming[i];
      assert incoming[..i + 1][..i] == incoming[..i];
      if next != [] && Same(next[|next| - 1], item) {
        continue;
      }
      next := next + [item];
    }
    assert incoming[..|incoming|] == incoming;
    AppendedDistils(stream, incoming);
  }

  function Concat(batches: seq<seq<Message>>): seq<Message> {
    if batches == [] then [] else Concat(batches[..|batches| - 1]) + batches[|batches| - 1]
  }

  lemma OneMoreBatch(log: seq<Message>, batches: seq<seq<Message>>, i: nat)
    requires i < |batches|
    ensures log + Concat(batches[..i + 1]) == log + Concat(batches[..i]) + batches[i]
  {
    assert batches[..i + 1][..i] == batches[..i];
  }

  /** Any batching of a stream gives the distillate of the whole stream. */
  method AppendBatches(log: seq<Message>, batches: seq<seq<Message>>) returns (next: seq<Message>)
    requires RepeatFree(log)
    ensures next == Distilled(log + Concat(batches))
  {
    next := log;
    RepeatFreeStays(log);
    assert log + Concat([]) == log;
    for i := 0 to |batches|
      invariant next == Distilled(log + Concat(batches[..i]))
    {
      next := AppendMessages(next, log + Concat(batches[..i]), batches[i]);
      OneMoreBatch(log, batches, i);
    }
    assert batches[..|batches|] == batches;
  }

  // ---------------------------------------------------------------- scopes

  function ScopeKey(root: string, session: string): Option<string> {
    if root == "" || session == "" then None else Some(root + ['|'] + session)
  }

  /** Two different scopes share a key exactly when one project root continues the other across a
      separator and the session of the other begins with what it adds, or neither has a key. */
  lemma ScopeKeysMeetIff(r: string, s: string, r': string, s': string)
    ensures ScopeKey(r, s) == ScopeKey(r', s') <==>
            if r == "" || s == "" then r' == "" || s' == ""
            else
              && r' != "" && s' != ""
              && (|| (r == r' && s == s')
                  || (exists m :: r' == r + ['|'] + m && s == m + ['|'] + s')
                  || (exists m :: r == r' + ['|'] + m && s' == m + ['|'] + s))
  {
    JoinsMeetIff(r, s, r', s', '|');
  }

  datatype Scope = Scope(messages: seq<Message>, lastTimestamp: nat, running: bool, backend: string, model: string)

  // ---------------------------------------------------------------- the chat as a system

  /** `entries` is the module's map, `key` that of the last render, `shown` the messages of the
      one mounted component and `owner` the scope they were last loaded from. The history:
      `streams` has what was written for each scope, `loose` what was written for none since. */
  datatype State = State(
    entries: map<string, Scope>, key: Option<string>, shown: seq<Message>, owner: Option<string>,
    streams: map<string, seq<Message>>, loose: seq<Message>)

  /** A render for another scope, the effect that loads its log, and what handlers and
      continuations of any earlier render write: those keep the key of their own render. */
  datatype Step =
    | Switch(key: Option<string>, backend: string, model: string)
    | Rehydrate(backend: string, model: string)
    | Append(closure: Option<string>, incoming: seq<Message>)
    | Start(writer: string, first: Message, backend: string, model: string)

  predicate Enabled(s: State, step: Step) {
    match step
    case Start(key, _, _, _) => key in s.entries
    case _ => true
  }

  function Created(s: State, key: string, backend: string, model: string): State {
    if key in s.entries then s
    else s.(entries := s.entries[key := Scope([], 0, false, backend, model)], streams := s.streams[key := []])
  }

  function Rehydrated(s: State, backend: string, model: string): State {
    if s.key.None? then s.(owner := None, loose := [], shown := [])
    else
      var t := Created(s, s.key.value, backend, model);
      t.(owner := s.key, loose := [], shown := t.entries[s.key.value].messages)
  }

  /** The log on screen grows, and the scope of the closure gets the result. */
  function AppendedTo(s: State, key: Option<string>, incoming: seq<Message>): State {
    var next := Appended(s.shown, incoming);
    if incoming == [] then s
    else if key.None? then s.(shown := next, loose := s.loose + incoming)
    else if key.value !in s.entries then s.(shown := next)
    else
      var k := key.value;
      s.(shown := next,
         entries := s.entries[k := s.entries[k].(messages := next)],
         streams := s.streams[k := (if k in s.streams then s.streams[k] else []) + incoming])
  }

  /** A start replaces the log on screen and that of the closure's scope. */
  function Started(s: State, key: string, first: Message, backend: string, model: string): State {
    s.(shown := [first], entries := s.entries[key := Scope([first], 0, true, backend, model)],
       streams := s.streams[key := [first]])
  }

  function Next(s: State, step: Step): State
    requires Enabled(s, step)
  {
    match step
    case Switch(key, backend, model) =>
      (if key.Some? then Created(s, key.value, backend, model) else s).(key := key)
    case Rehydrate(backend, model) => Rehydrated(s, backend, model)
    case Append(key, incoming) => AppendedTo(s, key, incoming)
    case Start(key, first, backend, model) => Started(s, key, first, backend, model)
  }

  predicate CanRun(s: State, steps: seq<Step>)
    decreases |steps|
  {
    steps == [] || (Enabled(s, steps[0]) && CanRun(Next(s, steps[0]), steps[1..]))
  }

  function Run(s: State, steps: seq<Step>): State
    requires CanRun(s, steps)
    decreases |steps|
  {
    if steps == [] then s else Run(Next(s, steps[0]), steps[1..])
  }

  /** A component mounted before any scope was used. */
  function Init(): State {
    State(map[], None, [], None, map[], [])
  }

  /** What was written for the scope on screen. */
  function OwnStream(s: State): seq<Message> {
    if s.owner.None? then s.loose else if s.owner.value in s.streams then s.streams[s.owner.value] else []
  }

  predicate LogsRight(entries: map<string, Scope>, streams: map<string, seq<Message>>) {
    entries.Keys == streams.Keys && forall k | k in entries :: entries[k].messages == Distilled(streams[k])
  }

  /** Every scope's log is the distillate of what was written for that scope, and so is the log
      on screen. */
  predicate Right(s: State) {
    && LogsRight(s.entries, s.streams)
    && (s.key.Some? ==> s.key.value in s.entries) && (s.owner.Some? ==> s.owner.value in s.entries)
    && s.shown == Distilled(OwnStream(s))
  }

  /** The write goes to the scope on screen, or makes no difference there and leaves the other
      scope's log as the one on screen. */
  predicate Fits(s: State, step: Step)
    requires Enabled(s, step)
  {
    match step
    case Append(key, incoming) =>
      || incoming == [] || key == s.owner
      || (&& Appended(s.shown, incoming) == s.shown
          && (key.Some? && key.value in s.entries ==> Appended(s.entries[key.value].messages, incoming) == s.shown))
    case Start(key, first, _, _) => Some(key) == s.owner || s.shown == [first]
    case _ => true
  }

  /** A step keeps all logs right exactly when it fits. */
  lemma RightStepIff(s: State, step: Step)
    requires Right(s) && Enabled(s, step)
    ensures Right(Next(s, step)) <==> Fits(s, step)
  {
    match step
    case Append(key, incoming) => RightAppendIff(s, key, incoming);
    case Start(key, first, backend, model) => RightStartIff(s, key, first, backend, model);
    case _ =>
  }

  lemma RightAppendIff(s: State, key: Option<string>, incoming: seq<Message>)
    requires Right(s) && Enabled(s, Append(key, incoming))
    ensures Right(AppendedTo(s, key, incoming)) <==> Fits(s, Append(key, incoming))
  {
    if incoming != [] {
      if key.None? {
        AppendedDistils(OwnStream(s), incoming);
      } else if key.value !in s.entries {
        assert OwnStream(AppendedTo(s, key, incoming)) == OwnStream(s);
      } else if key == s.owner {
        RightOwnAppend(s, key.value, incoming);
      } else {
        RightStrayAppendIff(s, key.value, incoming);
      }
    }
  }

  lemma RightOwnAppend(s: State, k: string, incoming: seq<Message>)
    requires Right(s) && s.owner == Some(k) && incoming != []
    ensures Right(AppendedTo(s, s.owner, incoming))
  {
    var next := Appended(s.shown, incoming);
    AppendedDistils(s.streams[k], incoming);
    LogsRightIff(s.entries, s.streams, k, s.entries[k].(messages := next), s.streams[k] + incoming);
  }

  lemma RightStrayAppendIff(s: State, k: string, incoming: seq<Message>)
    requires Right(s) && k in s.entries && s.owner != Some(k) && incoming != []
    ensures Right(AppendedTo(s, Some(k), incoming)) <==>
            Appended(s.shown, incoming) == s.shown == Appended(s.entries[k].messages, incoming)
  {
    var next := Appended(s.shown, incoming);
    AppendedDistils(s.streams[k], incoming);
    LogsRightIff(s.entries, s.streams, k, s.entries[k].(messages := next), s.streams[k] + incoming);
    assert OwnStream(AppendedTo(s, Some(k), incoming)) == OwnStream(s);
  }

  lemma LogsRightIff(
    entries: map<string, Scope>, streams: map<string, seq<Message>>, k: string, log: Scope, stream: seq<Message>)
    requires LogsRight(entries, streams) && k in entries
    ensures LogsRight(entries[k := log], streams[k := stream]) <==> log.messages == Distilled(stream)
  {
    var more, longer := entries[k := log], streams[k := stream];
    assert more[k] == log && longer[k] == stream;
  }

  lemma RightStartIff(s: State, k: string, first: Message, backend: string, model: string)
    requires Right(s) && k in s.entries
    ensures Right(Started(s, k, first, backend, model)) <==> Some(k) == s.owner || s.shown == [first]
  {
    var t := Started(s, k, first, backend, model);
    OneIsDistilled(first);
    LogsRightIff(s.entries, s.streams, k, Scope([first], 0, true, backend, model), [first]);
    assert LogsRight(t.entries, t.streams);
    StreamAfterStart(s, k, first, backend, model);
  }

  lemma StreamAfterStart(s: State, k: string, first: Message, backend: string, model: string)
    requires Right(s) && k in s.entries
    ensures OwnStream(Started(s, k, first, backend, model)) == if s.owner == Some(k) then [first] else OwnStream(s)
  {
  }

  lemma OneIsDistilled(item: Message)
    ensures Distilled([item]) == [item]
  {
    assert [item][..0] == [];
  }

  /** A closure can append anything safely exactly when its scope is the one last loaded. */
  lemma AnyAppendIsRightIff(s: State, key: Option<string>)
    requires Right(s)
    ensures (forall incoming :: Right(AppendedTo(s, key, incoming))) <==> key == s.owner
  {
    forall incoming | key == s.owner ensures Right(AppendedTo(s, key, incoming)) {
      RightAppendIff(s, key, incoming);
    }
    if key != s.owner {
      var text := if s.shown == [] then "" else s.shown[|s.shown| - 1].text + "x";
      var incoming := [Message("agent", text, 0)];
      AppendOne(s.shown, incoming[0]);
      RightAppendIff(s, key, incoming);
      assert !Right(AppendedTo(s, key, incoming));
    }
  }

  predicate RightThroughout(s: State, steps: seq<Step>)
    requires CanRun(s, steps)
    decreases |steps|
  {
    Right(s) && (steps == [] || RightThroughout(Next(s, steps[0]), steps[1..]))
  }

  predicate FitsThroughout(s: State, steps: seq<Step>)
    requires CanRun(s, steps)
    decreases |steps|
  {
    steps == [] || (Fits(s, steps[0]) && FitsThroughout(Next(s, steps[0]), steps[1..]))
  }

  /** Throughout a run every log is right if and only if every write fits. */
  lemma {:induction false} RightInRunsIff(s: State, steps: seq<Step>)
    requires Right(s) && CanRun(s, steps)
    ensures RightThroughout(s, steps) <==> FitsThroughout(s, steps)
    decreases |steps|
  {
    if steps != [] {
      RightStepIff(s, steps[0]);
      if Fits(s, steps[0]) {
        RightInRunsIff(Next(s, steps[0]), steps[1..]);
      }
    }
  }

  const BLANK := Scope([], 0, false, "", "")

  /** Scope `a` was on screen and scope `b` is, both still empty. */
  function SwitchedTo(a: string, b: string): State {
    State(map[a := BLANK, b := BLANK], Some(b), [], Some(b), map[a := [], b := []], [])
  }

  function Switches(a: string, b: string): seq<Step> {
    [Switch(Some(a), "", ""), Rehydrate("", ""), Switch(Some(b), "", ""), Rehydrate("", "")]
  }

  lemma SwitchesRun(a: string, b: string)
    requires a != b
    ensures CanRun(Init(), Switches(a, b)) && Run(Init(), Switches(a, b)) == SwitchedTo(a, b)
  {
    var steps := [Switch(Some(a), "", "")];
    assert steps == [] + steps;
    Extend(Init(), [], Switch(Some(a), "", ""));
    Extend(Init(), steps, Rehydrate("", ""));
    Extend(Init(), steps + [Rehydrate("", "")], Switch(Some(b), "", ""));
    Extend(Init(), steps + [Rehydrate("", "")] + [Switch(Some(b), "", "")], Rehydrate("", ""));
    assert Switches(a, b) == steps + [Rehydrate("", "")] + [Switch(Some(b), "", "")] + [Rehydrate("", "")];
  }

  /** A poll of one scope answers after the switch to another: the other's log, with the late
      line, becomes the first scope's, and the late line shows in the other. */
  lemma LateLinesMixLogs(a: string, b: string, x: Message, y: Message)
    requires a != b && !Same(x, y)
    ensures var steps := Switches(a, b) + [Append(Some(b), [x])] + [Append(Some(a), [y])];
            && CanRun(Init(), steps)
            && var t := Run(Init(), steps);
            && t.entries == map[a := BLANK.(messages := [x, y]), b := BLANK.(messages := [x])]
            && t.streams == map[a := [y], b := [x]]
            && t.owner == Some(b) && t.shown == [x, y]
  {
    SwitchesRun(a, b);
    Extend(Init(), Switches(a, b), Append(Some(b), [x]));
    Extend(Init(), Switches(a, b) + [Append(Some(b), [x])], Append(Some(a), [y]));
    FirstLine(a, b, x);
    LateLine(a, b, x, y);
  }

  function OneLine(a: string, b: string, x: Message): State {
    SwitchedTo(a, b).(
      shown := [x], entries := map[a := BLANK, b := BLANK.(messages := [x])], streams := map[a := [], b := [x]])
  }

  lemma FirstLine(a: string, b: string, x: Message)
    requires a != b
    ensures AppendedTo(SwitchedTo(a, b), Some(b), [x]) == OneLine(a, b, x)
  {
    AppendOne([], x);
    assert [] + [x] == [x];
  }

  lemma LateLine(a: string, b: string, x: Message, y: Message)
    requires a != b && !Same(x, y)
    ensures var t := AppendedTo(OneLine(a, b, x), Some(a), [y]);
            && t.entries == map[a := BLANK.(messages := [x, y]), b := BLANK.(messages := [x])]
            && t.streams == map[a := [y], b := [x]]
            && t.owner == Some(b) && t.shown == [x, y]
  {
    AppendOne([x], y);
    assert [x] + [y] == [x, y] && [] + [y] == [y];
  }

  lemma {:induction false} Extend(s: State, steps: seq<Step>, step: Step)
    requires CanRun(s, steps) && Enabled(Run(s, steps), step)
    ensures CanRun(s, steps + [step]) && Run(s, steps + [step]) == Next(Run(s, steps), step)
    decreases |steps|
  {
    if steps == [] {
      assert ([step])[1..] == [];
    } else {
      assert (steps + [step])[1..] == steps[1..] + [step];
      Extend(Next(s, steps[0]), steps[1..], step);
    }
  }

  // ---------------------------------------------------------------- the component

  /** The mounted component and the module-level map beside it. */
  class ConductorChat {
    var entries: map<string, Scope>
    var key: Option<string>
    var messages: seq<Message>
    ghost var owner: Option<string>
    ghost var streams: map<string, seq<Message>>
    ghost var loose: seq<Message>

    ghost function View(): State
      reads this
    {
      State(entries, key, messages, owner, streams, loose)
    }

    constructor ()
      ensures View() == Init()
    {
      entries, key, messages, owner, streams, loose := map[], None, [], None, map[], [];
    }

    /** `getOrCreateScope`: an existing entry is returned as it is. */
    method GetOrCreate(key: string, backend: string, model: string) returns (scope: Scope)
      modifies this`entries, this`streams
      ensures View() == Created(old(View()), key, backend, model)
      ensures key in entries && scope == entries[key]
      ensures key in old(entries) ==> entries == old(entries)
      ensures key !in old(entries) ==> entries == old(entries)[key := Scope([], 0, false, backend, model)]
    {
      if key !in entries {
        entries := entries[key := Scope([], 0, false, backend, model)];
        streams := streams[key := []];
      }
      scope := entries[key];
    }

    method Render(key: Option<string>, backend: string, model: string)
      modifies this`entries, this`streams, this`key
      ensures View() == Next(old(View()), Switch(key, backend, model))
    {
      if key.Some? {
        var scope := GetOrCreate(key.value, backend, model);
      }
      this.key := key;
    }

    method OnScopeChange(backend: string, model: string)
      modifies this`messages, this`owner, this`loose, this`entries, this`streams
      ensures View() == Rehydrated(old(View()), backend, model)
    {
      if key.None? {
        messages := [];
      } else {
        var scope := GetOrCreate(key.value, backend, model);
        messages := scope.messages;
      }
      owner, loose := key, [];
    }

    /** `appendMessages` of a render whose key was `closure`: it reads the messages on screen. */
    method AppendFrom(closure: Option<string>, incoming: seq<Message>)
      modifies this`messages, this`entries, this`streams, this`loose
      ensures View() == Next(old(View()), Append(closure, incoming))
    {
      if incoming == [] {
        return;
      }
      var next := AppendMessages(messages, [], incoming);
      if closure.Some? {
        var k := closure.value;
        if k in entries {
          entries := entries[k := entries[k].(messages := next)];
          streams := streams[k := (if k in streams then streams[k] else []) + incoming];
        }
      } else {
        loose := loose + incoming;
      }
      messages := next;
    }

    /** `handleStart` once the process runs. */
    method OnStarted(closure: string, first: Message, backend: string, model: string)
      requires closure in entries
      modifies this`messages, this`entries, this`streams
      ensures View() == Next(old(View()), Start(closure, first, backend, model))
    {
      messages := [first];
      entries := entries[closure := Scope([first], 0, true, backend, model)];
      streams := streams[closure := [first]];
    }
  }
}
