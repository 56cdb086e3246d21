/**
 * The transcript on the screen (cli/src/tui/state.ts): a pure fold of what the
 * loop reports and what the user does. Everything before the entry being streamed
 * has been printed for good (cli/src/tui/app.tsx), so it may only ever grow.
 */
module Scrollback {
  import opened Common
  import A = AgentLoop
  import ChatAdapter

  datatype Entry =
    | UserEntry(text: string)
    | AssistantEntry(text: string, streaming: bool, gap: bool)
    | ToolEntry(summary: string, brief: string)
    | ToolErrorEntry(summary: string, output: string)
    | ErrorEntry(text: string)
    | NoticeEntry(text: string)

  datatype State = State(entries: seq<Entry>, busy: bool, statusLabel: string, streamingIndex: Option<nat>)

  const INITIAL := State([], false, "Thinking", None)

  datatype Action = Loop(event: A.Event) | SubmitUser(text: string) | Notice(text: string) | TurnDone | Clear

  /** How tool names, summaries and outputs are worded on the screen. */
  datatype Wording = Wording(doing: (string, string) -> string, brief: (string, string) -> string, steps: nat -> string)

  function Append(s: State, e: Entry): State {
    s.(entries := s.entries + [e])
  }

  predicate IsTool(e: Entry) {
    e.ToolEntry? || e.ToolErrorEntry?
  }

  function Reduce(s: State, a: Action, words: Wording): State {
    match a
    case SubmitUser(text) => Append(s, UserEntry(text))
    case Notice(text) => Append(s, NoticeEntry(text))
    case TurnDone => s.(busy := false, statusLabel := "Thinking", streamingIndex := None)
    case Clear => INITIAL
    case Loop(StepBegin) => s.(busy := true, statusLabel := "Thinking")
    case Loop(Delta(text)) =>
      if s.streamingIndex.None? then
        var gap := s.entries != [] && IsTool(s.entries[|s.entries| - 1]);
        Append(s, AssistantEntry(text, true, gap)).(streamingIndex := Some(|s.entries|))
      else if s.streamingIndex.value < |s.entries| && s.entries[s.streamingIndex.value].AssistantEntry? then
        var cur := s.entries[s.streamingIndex.value];
        s.(entries := s.entries[s.streamingIndex.value := cur.(text := cur.text + text)])
      else s
    case Loop(StepEnd) =>
      if s.streamingIndex.None? then s
      else if s.streamingIndex.value < |s.entries| && s.entries[s.streamingIndex.value].AssistantEntry? then
        var cur := s.entries[s.streamingIndex.value];
        s.(entries := s.entries[s.streamingIndex.value := cur.(streaming := false)], streamingIndex := None)
      else s.(streamingIndex := None)
    case Loop(ToolsBegin) => s
    case Loop(ToolBegin(name, summary)) => s.(statusLabel := words.doing(name, summary))
    case Loop(ToolDone(name, summary, output, isError)) =>
      Append(s, if isError then ToolErrorEntry(summary, output) else ToolEntry(summary, words.brief(name, output)))
    case Loop(ModelError(message)) => Append(s, ErrorEntry(message))
    case Loop(Exhausted(max)) => Append(s, ErrorEntry(words.steps(max)))
  }

  function Fold(s: State, actions: seq<Action>, words: Wording): State {
    if actions == [] then s else Reduce(Fold(s, actions[..|actions| - 1], words), actions[|actions| - 1], words)
  }

  /** What has been printed for good. */
  function Committed(s: State): seq<Entry> {
    if s.streamingIndex.Some? && s.streamingIndex.value <= |s.entries| then s.entries[..s.streamingIndex.value]
    else s.entries
  }

  // ---- The traces the app can produce, without `clear` ----

  /** Idle; asked but not started; in a turn whose loop is at some phase; or out of order. */
  datatype Stage = Idle | Asked | Turn(phase: A.Phase) | Lost

  /** Notices and submissions are refused while a turn runs; a turn begins with a step of its own, for feedback. */
  function NextStage(st: Stage, a: Action): Stage {
    match st
    case Lost => Lost
    case Idle => if a.SubmitUser? then Asked else if a.Notice? then Idle else Lost
    case Asked => if a == Loop(A.StepBegin) then Turn(A.Between) else Lost
    case Turn(phase) =>
      if a == TurnDone && phase == A.Between then Idle
      else if a.Loop? && A.Next(phase, a.event) != A.Broken then Turn(A.Next(phase, a.event))
      else Lost
  }

  function StageAfter(st: Stage, actions: seq<Action>): Stage {
    if actions == [] then st else NextStage(StageAfter(st, actions[..|actions| - 1]), actions[|actions| - 1])
  }

  // ---- The invariant ----

  predicate NoneStreams(entries: seq<Entry>) {
    forall i :: 0 <= i < |entries| ==> !(entries[i].AssistantEntry? && entries[i].streaming)
  }

  /**
   * While a step has streamed something, the last entry and only the last is
   * streaming and holds exactly its deltas; at any other time nothing streams.
   */
  predicate Agrees(s: State, st: Stage) {
    match st
    case Lost => true
    case Turn(InStep(deltas)) =>
      s.busy &&
      if deltas == [] then s.streamingIndex == None && NoneStreams(s.entries)
      else
        && s.entries != [] && s.streamingIndex == Some(|s.entries| - 1)
        && NoneStreams(s.entries[..|s.entries| - 1])
        && var last := s.entries[|s.entries| - 1];
        last.AssistantEntry? && last.streaming && last.text == ChatAdapter.Concat(deltas)
    case Turn(_) => s.busy && s.streamingIndex == None && NoneStreams(s.entries)
    case _ => !s.busy && s.streamingIndex == None && NoneStreams(s.entries)
  }

  lemma ConcatMore(deltas: seq<string>, d: string)
    ensures ChatAdapter.Concat(deltas + [d]) == ChatAdapter.Concat(deltas) + d
  {
    assert (deltas + [d])[..|deltas|] == deltas;
  }

  lemma DeltaAgrees(s: State, deltas: seq<string>, d: string, words: Wording)
    requires Agrees(s, Turn(A.InStep(deltas)))
    ensures Agrees(Reduce(s, Loop(A.Delta(d)), words), Turn(A.InStep(deltas + [d])))
    ensures Committed(s) <= Committed(Reduce(s, Loop(A.Delta(d)), words))
  {
    ConcatMore(deltas, d);
    if deltas == [] {
      assert [] + [d] == [d];
    }
  }

  lemma StepEndAgrees(s: State, deltas: seq<string>, words: Wording)
    requires Agrees(s, Turn(A.InStep(deltas)))
    ensures Agrees(Reduce(s, Loop(A.StepEnd), words), Turn(A.Between))
    ensures Committed(s) <= Committed(Reduce(s, Loop(A.StepEnd), words))
  {
  }

  lemma ReduceAgrees(s: State, st: Stage, a: Action, words: Wording)
    requires Agrees(s, st) && NextStage(st, a) != Lost
    ensures Agrees(Reduce(s, a, words), NextStage(st, a))
    ensures Committed(s) <= Committed(Reduce(s, a, words))
  {
    if st.Turn? && st.phase.InStep? {
      if a.event.Delta? {
        DeltaAgrees(s, st.phase.deltas, a.event.text, words);
      } else {
        StepEndAgrees(s, st.phase.deltas, words);
      }
    }
  }

  /** The last entry is still being streamed. */
  predicate EndsStreaming(entries: seq<Entry>) {
    entries != [] && entries[|entries| - 1].AssistantEntry? && entries[|entries| - 1].streaming
  }

  lemma AllButStreamingIsCommitted(s: State, st: Stage)
    requires Agrees(s, st) && st != Lost
    ensures Committed(s) == if EndsStreaming(s.entries) then s.entries[..|s.entries| - 1] else s.entries
  {
    if !(st.Turn? && st.phase.InStep? && st.phase.deltas != []) && s.entries != [] {
      assert NoneStreams(s.entries);
    }
  }

  // ---- Main results ----

  lemma {:induction false} LostStaysLost(actions: seq<Action>)
    ensures StageAfter(Idle, actions) != Lost ==>
      forall k :: 0 <= k <= |actions| ==> StageAfter(Idle, actions[..k]) != Lost
  {
    if actions != [] && StageAfter(Idle, actions) != Lost {
      var before := actions[..|actions| - 1];
      LostStaysLost(before);
      forall k | 0 <= k <= |actions| ensures StageAfter(Idle, actions[..k]) != Lost {
        if k < |actions| {
          assert before[..k] == actions[..k];
        } else {
          assert actions[..k] == actions;
        }
      }
    }
  }

  /**
   * At every point of a trace the streaming entry, if any, is the last one and
   * says just what this step has streamed.
   */
  lemma {:induction false} ScreenAgrees(actions: seq<Action>, words: Wording)
    requires StageAfter(Idle, actions) != Lost
    ensures Agrees(Fold(INITIAL, actions, words), StageAfter(Idle, actions))
  {
    if actions != [] {
      ScreenAgrees(actions[..|actions| - 1], words);
      ReduceAgrees(Fold(INITIAL, actions[..|actions| - 1], words), StageAfter(Idle, actions[..|actions| - 1]),
                   actions[|actions| - 1], words);
    }
  }

  /** What has been printed is never changed, only added to. */
  lemma {:induction false} CommittedOnlyGrows(actions: seq<Action>, k: nat, words: Wording)
    requires StageAfter(Idle, actions) != Lost && k <= |actions|
    ensures Committed(Fold(INITIAL, actions[..k], words)) <= Committed(Fold(INITIAL, actions, words))
  {
    if k == |actions| {
      assert actions[..k] == actions;
    } else {
      var before := actions[..|actions| - 1];
      LostStaysLost(actions);
      assert before[..k] == actions[..k];
      CommittedOnlyGrows(before, k, words);
      ScreenAgrees(before, words);
      ReduceAgrees(Fold(INITIAL, before, words), StageAfter(Idle, before), actions[|actions| - 1], words);
    }
  }

  predicate GapAgrees(entries: seq<Entry>, i: nat)
    requires i < |entries|
  {
    entries[i].AssistantEntry? ==>
      (entries[i].gap <==> i > 0 && (entries[i - 1].ToolEntry? || entries[i - 1].ToolErrorEntry?))
  }

  /** An assistant entry stands off from what is above it exactly when that is a tool's. */
  predicate GapsAgree(entries: seq<Entry>) {
    forall i :: 0 <= i < |entries| ==> GapAgrees(entries, i)
  }

  lemma ReduceKeepsGaps(s: State, a: Action, words: Wording)
    requires GapsAgree(s.entries)
    ensures GapsAgree(Reduce(s, a, words).entries)
  {
    var after := Reduce(s, a, words).entries;
    forall i | 0 <= i < |after| ensures GapAgrees(after, i) {
      if i < |s.entries| {
        assert GapAgrees(s.entries, i);
        assert i > 0 ==> (IsTool(after[i - 1]) <==> IsTool(s.entries[i - 1]));
      } else {
        assert i > 0 ==> after[i - 1] == s.entries[i - 1];
      }
    }
  }

  /** So it is after any actions at all, `clear` and actions out of order included. */
  lemma {:induction false} GapsFollowTools(actions: seq<Action>, words: Wording)
    ensures GapsAgree(Fold(INITIAL, actions, words).entries)
  {
    if actions != [] {
      GapsFollowTools(actions[..|actions| - 1], words);
      ReduceKeepsGaps(Fold(INITIAL, actions[..|actions| - 1], words), actions[|actions| - 1], words);
    }
  }

  /**
   * After any actions at all the index of the streaming entry, if there is one, is that of
   * an assistant's entry being streamed, so the branches for a stale index are never
   * taken; and there is none once a step or a turn has ended.
   */
  lemma {:induction false} IndexIsNeverStale(actions: seq<Action>, words: Wording)
    ensures var s := Fold(INITIAL, actions, words);
      && (s.streamingIndex.Some? ==>
            s.streamingIndex.value < |s.entries|
            && s.entries[s.streamingIndex.value].AssistantEntry? && s.entries[s.streamingIndex.value].streaming)
      && (actions != [] && (actions[|actions| - 1].TurnDone? || actions[|actions| - 1] == Loop(A.StepEnd)) ==>
            s.streamingIndex.None?)
  {
    if actions != [] {
      IndexIsNeverStale(actions[..|actions| - 1], words);
    }
  }

  // ---- What the screen says ----

  /** What is to be read on the screen: the letters of the model's text, and entries of one line. */
  datatype Item = Letter(c: char) | Line(entry: Entry)

  function Letters(text: string): seq<Item> {
    seq(|text|, i requires 0 <= i < |text| => Letter(text[i]))
  }

  function Screen(entries: seq<Entry>): seq<Item> {
    if entries == [] then []
    else
      var last := entries[|entries| - 1];
      Screen(entries[..|entries| - 1]) + if last.AssistantEntry? then Letters(last.text) else [Line(last)]
  }

  /** What each action has to tell. */
  function Told(a: Action, words: Wording): seq<Item> {
    match a
    case SubmitUser(text) => [Line(UserEntry(text))]
    case Notice(text) => [Line(NoticeEntry(text))]
    case Loop(Delta(text)) => Letters(text)
    case Loop(ToolDone(name, summary, output, isError)) =>
      [Line(if isError then ToolErrorEntry(summary, output) else ToolEntry(summary, words.brief(name, output)))]
    case Loop(ModelError(message)) => [Line(ErrorEntry(message))]
    case Loop(Exhausted(max)) => [Line(ErrorEntry(words.steps(max)))]
    case _ => []
  }

  function Story(actions: seq<Action>, words: Wording): seq<Item> {
    if actions == [] then []
    else Story(actions[..|actions| - 1], words) + Told(actions[|actions| - 1], words)
  }

  lemma ScreenMore(entries: seq<Entry>, e: Entry)
    ensures Screen(entries + [e]) == Screen(entries) + if e.AssistantEntry? then Letters(e.text) else [Line(e)]
  {
    assert (entries + [e])[..|entries|] == entries;
  }

  lemma LettersAdd(text: string, more: string)
    ensures Letters(text + more) == Letters(text) + Letters(more)
  {
  }

  /** The last entry, an assistant's, with more text. */
  lemma ScreenGrows(entries: seq<Entry>, last: Entry, next: Entry, more: string)
    requires last.AssistantEntry? && next.AssistantEntry? && next.text == last.text + more
    ensures Screen(entries + [next]) == Screen(entries + [last]) + Letters(more)
  {
    ScreenMore(entries, last);
    ScreenMore(entries, next);
    LettersAdd(last.text, more);
    var above, text := Screen(entries), Letters(last.text);
    assert above + (text + Letters(more)) == (above + text) + Letters(more);
  }

  lemma DeltaIsShown(s: State, deltas: seq<string>, d: string, words: Wording)
    requires Agrees(s, Turn(A.InStep(deltas)))
    ensures Screen(Reduce(s, Loop(A.Delta(d)), words).entries) == Screen(s.entries) + Letters(d)
  {
    if deltas == [] {
      var gap := s.entries != [] && IsTool(s.entries[|s.entries| - 1]);
      ScreenMore(s.entries, AssistantEntry(d, true, gap));
    } else {
      var n := |s.entries| - 1;
      var last := s.entries[n];
      var next := last.(text := last.text + d);
      assert s.entries == s.entries[..n] + [last] && s.entries[n := next] == s.entries[..n] + [next];
      ScreenGrows(s.entries[..n], last, next, d);
    }
  }

  lemma StepEndIsShown(s: State, deltas: seq<string>, words: Wording)
    requires Agrees(s, Turn(A.InStep(deltas)))
    ensures Screen(Reduce(s, Loop(A.StepEnd), words).entries) == Screen(s.entries)
  {
    if deltas != [] {
      var n := |s.entries| - 1;
      var last := s.entries[n];
      var next := last.(streaming := false);
      assert s.entries == s.entries[..n] + [last] && s.entries[n := next] == s.entries[..n] + [next];
      assert last.text + "" == last.text && Letters("") == [];
      ScreenGrows(s.entries[..n], last, next, "");
    }
  }

  lemma ActionIsShown(s: State, st: Stage, a: Action, words: Wording)
    requires Agrees(s, st) && st != Lost && NextStage(st, a) != Lost
    ensures Screen(Reduce(s, a, words).entries) == Screen(s.entries) + Told(a, words)
  {
    if st.Turn? && st.phase.InStep? {
      if a.event.Delta? {
        DeltaIsShown(s, st.phase.deltas, a.event.text, words);
      } else {
        StepEndIsShown(s, st.phase.deltas, words);
      }
    } else if Told(a, words) != [] {
      ScreenMore(s.entries, Told(a, words)[0].entry);
    }
  }

  /**
   * The screen says what happened and nothing else, in the order it happened: every
   * message, notice, tool result and error, and every letter the model streamed.
   */
  lemma {:induction false} ScreenTellsTheStory(actions: seq<Action>, words: Wording)
    requires StageAfter(Idle, actions) != Lost
    ensures Screen(Fold(INITIAL, actions, words).entries) == Story(actions, words)
  {
    if actions != [] {
      var before, a := actions[..|actions| - 1], actions[|actions| - 1];
      LostStaysLost(actions);
      ScreenTellsTheStory(before, words);
      ScreenAgrees(before, words);
      ActionIsShown(Fold(INITIAL, before, words), StageAfter(Idle, before), a, words);
    }
  }

  /** The status: the tool running now, else "Thinking". */
  function Status(actions: seq<Action>, words: Wording): string {
    if actions == [] then "Thinking"
    else
      match actions[|actions| - 1]
      case Loop(ToolBegin(name, summary)) => words.doing(name, summary)
      case Loop(StepBegin) => "Thinking"
      case TurnDone => "Thinking"
      case Clear => "Thinking"
      case _ => Status(actions[..|actions| - 1], words)
  }

  lemma {:induction false} StatusFollowsTools(actions: seq<Action>, words: Wording)
    ensures Fold(INITIAL, actions, words).statusLabel == Status(actions, words)
  {
    if actions != [] {
      StatusFollowsTools(actions[..|actions| - 1], words);
    }
  }

  // ---- Every session produces such a trace ----

  function Loops(events: seq<A.Event>): seq<Action> {
    seq(|events|, i requires 0 <= i < |events| => Loop(events[i]))
  }

  lemma {:induction false} StagesInTwo(st: Stage, first: seq<Action>, second: seq<Action>)
    ensures StageAfter(st, first + second) == StageAfter(StageAfter(st, first), second)
  {
    if second == [] {
      assert first + [] == first;
    } else {
      var all := first + second;
      assert all[..|all| - 1] == first + second[..|second| - 1];
      StagesInTwo(st, first, second[..|second| - 1]);
    }
  }

  lemma {:induction false} LoopStages(phase: A.Phase, events: seq<A.Event>)
    requires A.Track(phase, events) != A.Broken
    ensures StageAfter(Turn(phase), Loops(events)) == Turn(A.Track(phase, events))
  {
    if events != [] {
      LoopStages(phase, events[..|events| - 1]);
      assert Loops(events)[..|events| - 1] == Loops(events[..|events| - 1]);
    }
  }

  /** What the user does between turns: ask something, or run a local command that leaves a notice. */
  datatype Input = Say(text: string) | Command(notice: string)

  datatype Session = Session(messages: seq<A.Message>, trace: seq<Action>)

  /** The conversation with the user's message in it, as the loop is handed it. */
  function Handed(messages: seq<A.Message>, text: string): seq<A.Message> {
    messages + [A.Message(A.User, [A.Text(text)])]
  }

  function TurnTrace(text: string, events: seq<A.Event>): seq<Action> {
    [SubmitUser(text), Loop(A.StepBegin)] + Loops(events) + [TurnDone]
  }

  function Enter(w: A.World, s: Session, input: Input, maxSteps: nat): Session {
    match input
    case Command(notice) => s.(trace := s.trace + [Notice(notice)])
    case Say(text) =>
      var r := A.Loop(w, Handed(s.messages, text), maxSteps);
      Session(r.messages, s.trace + TurnTrace(text, r.events))
  }

  function Play(w: A.World, inputs: seq<Input>, maxSteps: nat): Session {
    if inputs == [] then Session([], [])
    else Enter(w, Play(w, inputs[..|inputs| - 1], maxSteps), inputs[|inputs| - 1], maxSteps)
  }

  lemma TurnReturnsToIdle(text: string, events: seq<A.Event>)
    requires A.Track(A.Between, events) == A.Between
    ensures StageAfter(Idle, TurnTrace(text, events)) == Idle
  {
    var start := [SubmitUser(text), Loop(A.StepBegin)];
    assert start[..1] == [SubmitUser(text)] && [SubmitUser(text)][..0] == [];
    assert StageAfter(Idle, [SubmitUser(text)]) == Asked;
    assert StageAfter(Idle, start) == NextStage(Asked, Loop(A.StepBegin));
    LoopStages(A.Between, events);
    StagesInTwo(Idle, start, Loops(events));
    StagesInTwo(Idle, start + Loops(events), [TurnDone]);
    assert [TurnDone][..0] == [];
  }

  lemma HandedIsPaired(messages: seq<A.Message>, text: string)
    requires A.Paired(messages)
    ensures A.Paired(Handed(messages, text))
  {
    var after := Handed(messages, text);
    var n := |messages|;
    forall i | 0 <= i < |after| && A.Asks(after, i)
      ensures i + 1 < |after| && after[i + 1].role == A.User && A.Answers(after[i + 1].content, A.AskedIds(after, i))
    {
      assert i < n && A.Asks(messages, i);
    }
    forall i | 0 <= i < |after| && after[i].role == A.User && A.HasResults(after[i].content)
      ensures 0 < i && A.Asks(after, i - 1)
    {
      assert i < n;
      assert A.Asks(messages, i - 1);
    }
  }

  /** Whatever the user, the model and the tools do: between inputs the app is idle and the conversation paired. */
  lemma {:induction false} EverySessionIsInOrder(w: A.World, inputs: seq<Input>, maxSteps: nat)
    ensures var s := Play(w, inputs, maxSteps); StageAfter(Idle, s.trace) == Idle && A.Paired(s.messages)
  {
    if inputs != [] {
      EverySessionIsInOrder(w, inputs[..|inputs| - 1], maxSteps);
      var before := Play(w, inputs[..|inputs| - 1], maxSteps);
      match inputs[|inputs| - 1]
      case Command(notice) =>
        StagesInTwo(Idle, before.trace, [Notice(notice)]);
        assert [Notice(notice)][..0] == [];
      case Say(text) =>
        var handed := Handed(before.messages, text);
        HandedIsPaired(before.messages, text);
        A.LoopKeepsPaired(w, handed, maxSteps);
        A.LoopReportsInOrder(w, handed, maxSteps);
        var events := A.Loop(w, handed, maxSteps).events;
        TurnReturnsToIdle(text, events);
        StagesInTwo(Idle, before.trace, TurnTrace(text, events));
    }
  }

  /** What the user was seen to do. */
  function Given(trace: seq<Action>): seq<Input> {
    if trace == [] then []
    else
      var before := Given(trace[..|trace| - 1]);
      match trace[|trace| - 1]
      case SubmitUser(text) => before + [Say(text)]
      case Notice(text) => before + [Command(text)]
      case _ => before
  }

  lemma {:induction false} GivenInTwo(first: seq<Action>, second: seq<Action>)
    ensures Given(first + second) == Given(first) + Given(second)
  {
    if second == [] {
      assert first + [] == first;
    } else {
      assert (first + second)[..|first + second| - 1] == first + second[..|second| - 1];
      GivenInTwo(first, second[..|second| - 1]);
    }
  }

  lemma {:induction false} LoopGivesNothing(events: seq<A.Event>)
    ensures Given(Loops(events)) == []
  {
    if events != [] {
      assert Loops(events)[..|events| - 1] == Loops(events[..|events| - 1]);
      LoopGivesNothing(events[..|events| - 1]);
    }
  }

  lemma TurnGivesQuestion(text: string, events: seq<A.Event>)
    ensures Given(TurnTrace(text, events)) == [Say(text)]
  {
    var start := [SubmitUser(text), Loop(A.StepBegin)];
    assert start[..1] == [SubmitUser(text)] && [SubmitUser(text)][..0] == [] && [TurnDone][..0] == [];
    assert Given(start[..1]) == [Say(text)];
    LoopGivesNothing(events);
    GivenInTwo(start, Loops(events));
    GivenInTwo(start + Loops(events), [TurnDone]);
  }

  /** What the user said to the model. */
  function Questions(inputs: seq<Input>): seq<seq<A.Block>> {
    if inputs == [] then []
    else
      var last := inputs[|inputs| - 1];
      Questions(inputs[..|inputs| - 1]) + if last.Say? then [[A.Text(last.text)]] else []
  }

  lemma EnteringKeepsWhatWasSaid(w: A.World, s: Session, input: Input, maxSteps: nat)
    ensures var after := Enter(w, s, input, maxSteps);
      && Given(after.trace) == Given(s.trace) + [input]
      && A.Questions(after.messages)
         == A.Questions(s.messages) + if input.Say? then [[A.Text(input.text)]] else []
  {
    match input
    case Command(notice) => assert (s.trace + [Notice(notice)])[..|s.trace|] == s.trace;
    case Say(text) =>
      var r := A.Loop(w, Handed(s.messages, text), maxSteps);
      A.QuestionsMore(s.messages, A.Message(A.User, [A.Text(text)]));
      A.LoopAsksNothing(w, Handed(s.messages, text), maxSteps);
      TurnGivesQuestion(text, r.events);
      GivenInTwo(s.trace, TurnTrace(text, r.events));
  }

  /**
   * Nothing the user says is lost or made up: the trace has each input once, in
   * order, and the conversation each question, word for word.
   */
  lemma {:induction false} SessionsKeepWhatWasSaid(w: A.World, inputs: seq<Input>, maxSteps: nat)
    ensures var s := Play(w, inputs, maxSteps);
      Given(s.trace) == inputs && A.Questions(s.messages) == Questions(inputs)
  {
    if inputs != [] {
      var before, last := inputs[..|inputs| - 1], inputs[|inputs| - 1];
      SessionsKeepWhatWasSaid(w, before, maxSteps);
      EnteringKeepsWhatWasSaid(w, Play(w, before, maxSteps), last, maxSteps);
      assert inputs == before + [last];
    }
  }

  /**
   * So at every point of every session all but the entry being streamed has been
   * printed, what is printed has only grown, and between turns nothing is left streaming.
   */
  lemma {:induction false} ScrollbackIsAppendOnly(w: A.World, inputs: seq<Input>, maxSteps: nat, words: Wording,
                                                  j: nat, k: nat)
    requires j <= k <= |Play(w, inputs, maxSteps).trace|
    ensures var trace := Play(w, inputs, maxSteps).trace;
      var entries := Fold(INITIAL, trace[..k], words).entries;
      && Committed(Fold(INITIAL, trace[..j], words)) <= Committed(Fold(INITIAL, trace[..k], words))
      && Committed(Fold(INITIAL, trace[..k], words))
         == (if EndsStreaming(entries) then entries[..|entries| - 1] else entries)
      && Agrees(Fold(INITIAL, trace[..k], words), StageAfter(Idle, trace[..k])) && StageAfter(Idle, trace[..k]) != Lost
      && NoneStreams(Fold(INITIAL, trace, words).entries)
      && Screen(entries) == Story(trace[..k], words)
  {
    var trace := Play(w, inputs, maxSteps).trace;
    EverySessionIsInOrder(w, inputs, maxSteps);
    LostStaysLost(trace);
    assert trace[..k][..j] == trace[..j];
    CommittedOnlyGrows(trace[..k], j, words);
    ScreenAgrees(trace[..k], words);
    AllButStreamingIsCommitted(Fold(INITIAL, trace[..k], words), StageAfter(Idle, trace[..k]));
    ScreenTellsTheStory(trace[..k], words);
    ScreenAgrees(trace, words);
  }
}
