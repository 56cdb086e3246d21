/**
 * The agent's tool-call loop (cli/src/agent/loop.ts): what it asks, what it appends
 * to the conversation, and what it reports, for every way a model and its tools
 * can behave.
 */
module AgentLoop {
  import opened Common

  type Json = string

  datatype Block =
    | Text(text: string)
    | ToolUse(id: string, name: string, input: Json)
    | ToolResult(useId: string, output: string, isError: bool)

  datatype Role = User | Assistant

  datatype Message = Message(role: Role, content: seq<Block>)

  datatype Event =
    | StepBegin
    | Delta(text: string)
    | StepEnd
    | ModelError(message: string)
    | ToolsBegin
    | ToolBegin(name: string, summary: string)
    | ToolDone(name: string, summary: string, output: string, isError: bool)
    | Exhausted(maxSteps: nat)

  /** A completion: what it streams, then an answer or a failure. */
  datatype Reply =
    | Answered(deltas: seq<string>, content: seq<Block>)
    | Failed(deltas: seq<string>, message: string)

  /** How a tool that exists can end: it returns, refuses with a ToolError, or throws something else. */
  datatype Outcome = Returned(output: string) | Refused(message: string) | Threw(message: string)

  /**
   * Everything outside the loop. The conversation only grows, so functions of it
   * cover a model and tools that answer differently every time they are asked.
   */
  datatype World = World(
    chat: seq<Message> -> Reply,
    tools: (seq<Message>, nat) -> set<string>,
    run: (seq<Message>, nat) -> Outcome,
    summarize: (string, Json) -> string)

  const WHITESPACE: set<char> := {
    '\U{0009}', '\U{000A}', '\U{000B}', '\U{000C}', '\U{000D}', '\U{0020}', '\U{00A0}', '\U{1680}', '\U{2000}',
    '\U{2001}', '\U{2002}', '\U{2003}', '\U{2004}', '\U{2005}', '\U{2006}', '\U{2007}', '\U{2008}', '\U{2009}',
    '\U{200A}', '\U{2028}', '\U{2029}', '\U{202F}', '\U{205F}', '\U{3000}', '\U{FEFF}'}

  predicate Blank(s: string) {
    forall i :: 0 <= i < |s| ==> s[i] in WHITESPACE
  }

  // ---- Blocks ----

  function Kept(content: seq<Block>): seq<Block> {
    if content == [] then []
    else
      var before, last := Kept(content[..|content| - 1]), content[|content| - 1];
      if last.Text? && Blank(last.text) then before else before + [last]
  }

  function TextOf(content: seq<Block>): string {
    if content == [] then ""
    else
      var last := content[|content| - 1];
      TextOf(content[..|content| - 1]) + if last.Text? then last.text else ""
  }

  function ToolUses(content: seq<Block>): seq<Block> {
    if content == [] then []
    else
      var before, last := ToolUses(content[..|content| - 1]), content[|content| - 1];
      if last.ToolUse? then before + [last] else before
  }

  lemma {:induction false} ToolUsesAreUses(content: seq<Block>)
    ensures forall i :: 0 <= i < |ToolUses(content)| ==> ToolUses(content)[i].ToolUse?
  {
    if content != [] {
      ToolUsesAreUses(content[..|content| - 1]);
    }
  }

  // ---- Running tools ----

  /** What the i-th tool use of a step comes to, None where there is no such tool. */
  function Ran(w: World, messages: seq<Message>, use: Block, i: nat): Option<Outcome>
    requires use.ToolUse?
  {
    if use.name in w.tools(messages, i) then Some(w.run(messages, i)) else None
  }

  function ResultOf(use: Block, ran: Option<Outcome>): (r: Block)
    requires use.ToolUse?
    ensures r.ToolResult? && r.useId == use.id
  {
    match ran
    case None => ToolResult(use.id, "Unknown tool: " + use.name, true)
    case Some(Returned(output)) => ToolResult(use.id, output, false)
    case Some(Refused(message)) => ToolResult(use.id, message, true)
    case Some(Threw(message)) => ToolResult(use.id, "Tool failed: " + message, true)
  }

  function ToolEvents(w: World, use: Block, ran: Option<Outcome>): seq<Event>
    requires use.ToolUse?
  {
    var r := ResultOf(use, ran);
    if ran.None? then [ToolDone(use.name, r.output, r.output, true)]
    else
      var summary := w.summarize(use.name, use.input);
      [ToolBegin(use.name, summary), ToolDone(use.name, summary, r.output, r.isError)]
  }

  ghost predicate AllUses(uses: seq<Block>) {
    forall i :: 0 <= i < |uses| ==> uses[i].ToolUse?
  }

  datatype Tooling = Tooling(results: seq<Block>, events: seq<Event>)

  function RunTools(w: World, messages: seq<Message>, uses: seq<Block>): Tooling
    requires AllUses(uses)
  {
    if uses == [] then Tooling([], [])
    else
      var n := |uses| - 1;
      var before, ran := RunTools(w, messages, uses[..n]), Ran(w, messages, uses[n], n);
      Tooling(before.results + [ResultOf(uses[n], ran)], before.events + ToolEvents(w, uses[n], ran))
  }

  // ---- The loop ----

  function Deltas(deltas: seq<string>): seq<Event> {
    seq(|deltas|, i requires 0 <= i < |deltas| => Delta(deltas[i]))
  }

  /** What a step reports while the model answers. */
  function Asked(deltas: seq<string>): seq<Event> {
    [StepBegin] + Deltas(deltas) + [StepEnd]
  }

  /** One iteration: what it leaves, what it reports, the text it said, whether the loop ends here. */
  datatype Iteration = Iteration(messages: seq<Message>, events: seq<Event>, text: string, done: bool)

  function Iterate(w: World, messages: seq<Message>): Iteration {
    var reply := w.chat(messages);
    var asked := Asked(reply.deltas);
    match reply
    case Failed(_, message) => Iteration(messages, asked + [ModelError(message)], "", true)
    case Answered(_, all) =>
      var content := Kept(all);
      var said := messages + [Message(Assistant, content)];
      var uses := ToolUses(content);
      ToolUsesAreUses(content);
      if uses == [] then Iteration(said, asked, TextOf(content), true)
      else
        var tooling := RunTools(w, said, uses);
        Iteration(said + [Message(User, tooling.results)], asked + [ToolsBegin] + tooling.events,
                  TextOf(content), false)
  }

  datatype Result = Result(messages: seq<Message>, events: seq<Event>, finalText: string, requests: nat)

  /** The final text after an iteration. */
  function Taken(it: Iteration, before: string): string {
    if Blank(it.text) then before else it.text
  }

  /** Steps taken one after another, `left` more of `maxSteps` at most, until one ends the loop. */
  function Repeat(step: seq<Message> -> Iteration, messages: seq<Message>, left: nat, maxSteps: nat,
                  finalText: string): Result
    decreases left
  {
    if left == 0 then Result(messages, [Exhausted(maxSteps)], finalText, 0)
    else
      var it := step(messages);
      var text := Taken(it, finalText);
      if it.done then Result(it.messages, it.events, text, 1)
      else
        var rest := Repeat(step, it.messages, left - 1, maxSteps, text);
        Result(rest.messages, it.events + rest.events, rest.finalText, rest.requests + 1)
  }

  function Stepper(w: World): seq<Message> -> Iteration {
    messages => Iterate(w, messages)
  }

  function Loop(w: World, messages: seq<Message>, maxSteps: nat): Result {
    Repeat(Stepper(w), messages, maxSteps, maxSteps, "")
  }

  // ---- The conversation ----

  function Ids(uses: seq<Block>): seq<string>
    requires AllUses(uses)
  {
    seq(|uses|, i requires 0 <= i < |uses| => uses[i].id)
  }

  /** These blocks answer these tool uses, one each, in order, and are nothing else. */
  predicate Answers(content: seq<Block>, ids: seq<string>) {
    |content| == |ids| && forall i :: 0 <= i < |ids| ==> content[i].ToolResult? && content[i].useId == ids[i]
  }

  predicate HasResults(content: seq<Block>) {
    exists i :: 0 <= i < |content| && content[i].ToolResult?
  }

  /**
   * Every assistant message that uses tools is followed by a user message that
   * answers exactly its uses in order, and no other user message has tool results.
   */
  ghost predicate Paired(messages: seq<Message>) {
    && (forall i :: 0 <= i < |messages| && Asks(messages, i) ==>
          i + 1 < |messages| && messages[i + 1].role == User && Answers(messages[i + 1].content, AskedIds(messages, i)))
    && (forall i :: 0 <= i < |messages| && messages[i].role == User && HasResults(messages[i].content) ==>
          0 < i && Asks(messages, i - 1))
  }

  predicate Asks(messages: seq<Message>, i: nat)
    requires i < |messages|
  {
    messages[i].role == Assistant && ToolUses(messages[i].content) != []
  }

  function AskedIds(messages: seq<Message>, i: nat): seq<string>
    requires i < |messages|
  {
    ToolUsesAreUses(messages[i].content);
    Ids(ToolUses(messages[i].content))
  }

  lemma {:induction false} ToolsAnswer(w: World, messages: seq<Message>, uses: seq<Block>)
    requires AllUses(uses)
    ensures Answers(RunTools(w, messages, uses).results, Ids(uses))
  {
    if uses != [] {
      ToolsAnswer(w, messages, uses[..|uses| - 1]);
    }
  }

  lemma IterationKeepsPaired(w: World, messages: seq<Message>)
    requires Paired(messages)
    ensures Paired(Iterate(w, messages).messages) && messages <= Iterate(w, messages).messages
  {
    var reply := w.chat(messages);
    if reply.Answered? {
      var content := Kept(reply.content);
      var said := messages + [Message(Assistant, content)];
      var uses := ToolUses(content);
      ToolUsesAreUses(content);
      var after := Iterate(w, messages).messages;
      if uses != [] {
        ToolsAnswer(w, said, uses);
        assert after == said + [Message(User, RunTools(w, said, uses).results)];
      }
      var n := |messages|;
      forall i | 0 <= i < |after| && Asks(after, i)
        ensures i + 1 < |after| && after[i + 1].role == User && Answers(after[i + 1].content, AskedIds(after, i))
      {
        if i < n {
          assert Asks(messages, i) && after[i] == messages[i];
        } else {
          assert i == n;
        }
      }
      forall i | 0 <= i < |after| && after[i].role == User && HasResults(after[i].content)
        ensures 0 < i && Asks(after, i - 1)
      {
        if i < n {
          assert after[i] == messages[i];
          assert Asks(messages, i - 1);
        } else {
          assert i == n + 1;
          assert Asks(after, n);
        }
      }
    }
  }

  // ---- Main results ----

  ghost predicate PairingStep(step: seq<Message> -> Iteration) {
    forall m :: Paired(m) ==> Paired(step(m).messages) && m <= step(m).messages
  }

  lemma {:induction false} RepeatKeepsPaired(step: seq<Message> -> Iteration, messages: seq<Message>, left: nat,
                                             maxSteps: nat, finalText: string)
    requires PairingStep(step) && Paired(messages)
    ensures var r := Repeat(step, messages, left, maxSteps, finalText);
      r.requests <= left && Paired(r.messages) && messages <= r.messages
    decreases left
  {
    if left > 0 && !step(messages).done {
      var it := step(messages);
      RepeatKeepsPaired(step, it.messages, left - 1, maxSteps, Taken(it, finalText));
    }
  }

  lemma StepperPairs(w: World)
    ensures PairingStep(Stepper(w))
  {
    forall m | Paired(m) ensures Paired(Stepper(w)(m).messages) && m <= Stepper(w)(m).messages {
      IterationKeepsPaired(w, m);
    }
  }

  /**
   * However model and tools behave: at most `maxSteps` requests, and a paired
   * conversation stays paired and only grows.
   */
  lemma {:induction false} LoopKeepsPaired(w: World, messages: seq<Message>, maxSteps: nat)
    requires Paired(messages)
    ensures var r := Loop(w, messages, maxSteps);
      r.requests <= maxSteps && Paired(r.messages) && messages <= r.messages
  {
    StepperPairs(w);
    RepeatKeepsPaired(Stepper(w), messages, maxSteps, maxSteps, "");
  }

  // ---- What was asked ----

  /** What the user said: the user messages that answer no tool. */
  function Questions(messages: seq<Message>): seq<seq<Block>> {
    if messages == [] then []
    else
      var last := messages[|messages| - 1];
      Questions(messages[..|messages| - 1])
      + if last.role == User && !HasResults(last.content) then [last.content] else []
  }

  lemma QuestionsMore(messages: seq<Message>, last: Message)
    ensures Questions(messages + [last])
         == Questions(messages) + if last.role == User && !HasResults(last.content) then [last.content] else []
  {
    assert (messages + [last])[..|messages|] == messages;
  }

  lemma IterationAsksNothing(w: World, messages: seq<Message>)
    ensures Questions(Iterate(w, messages).messages) == Questions(messages)
  {
    var reply := w.chat(messages);
    if reply.Answered? {
      var content := Kept(reply.content);
      var said, uses := messages + [Message(Assistant, content)], ToolUses(content);
      ToolUsesAreUses(content);
      QuestionsMore(messages, Message(Assistant, content));
      if uses != [] {
        ToolsAnswer(w, said, uses);
        var results := RunTools(w, said, uses).results;
        assert results[0].ToolResult?;
        QuestionsMore(said, Message(User, results));
      }
    }
  }

  lemma {:induction false} RepeatAsksNothing(step: seq<Message> -> Iteration, messages: seq<Message>, left: nat,
                                             maxSteps: nat, finalText: string)
    requires forall m :: Questions(step(m).messages) == Questions(m)
    ensures Questions(Repeat(step, messages, left, maxSteps, finalText).messages) == Questions(messages)
    decreases left
  {
    if left > 0 && !step(messages).done {
      var it := step(messages);
      RepeatAsksNothing(step, it.messages, left - 1, maxSteps, Taken(it, finalText));
    }
  }

  /** The loop puts no words into the user's mouth and takes none away. */
  lemma {:induction false} LoopAsksNothing(w: World, messages: seq<Message>, maxSteps: nat)
    ensures Questions(Loop(w, messages, maxSteps).messages) == Questions(messages)
  {
    forall m ensures Questions(Stepper(w)(m).messages) == Questions(m) {
      IterationAsksNothing(w, m);
    }
    RepeatAsksNothing(Stepper(w), messages, maxSteps, maxSteps, "");
  }

  // ---- What is reported ----

  /** Where a trace of events stands: between steps, or inside one that has streamed these deltas. */
  datatype Phase = Between | InStep(deltas: seq<string>) | Broken

  function Next(p: Phase, e: Event): Phase {
    match p
    case Broken => Broken
    case Between => (match e
      case StepBegin => InStep([])
      case Delta(_) => Broken
      case StepEnd => Broken
      case _ => Between)
    case InStep(deltas) => (match e
      case Delta(d) => InStep(deltas + [d])
      case StepEnd => Between
      case _ => Broken)
  }

  function Track(p: Phase, events: seq<Event>): Phase {
    if events == [] then p else Next(Track(p, events[..|events| - 1]), events[|events| - 1])
  }

  lemma {:induction false} TrackInTwo(p: Phase, first: seq<Event>, second: seq<Event>)
    ensures Track(p, first + second) == Track(Track(p, first), second)
  {
    if second == [] {
      assert first + [] == first;
    } else {
      var all := first + second;
      assert all[..|all| - 1] == first + second[..|second| - 1];
      TrackInTwo(p, first, second[..|second| - 1]);
    }
  }

  lemma {:induction false} TrackDeltas(deltas: seq<string>)
    ensures Track(InStep([]), Deltas(deltas)) == InStep(deltas)
  {
    if deltas != [] {
      var before := deltas[..|deltas| - 1];
      TrackDeltas(before);
      assert Deltas(deltas)[..|before|] == Deltas(before);
      assert deltas == before + [deltas[|before|]];
    }
  }

  lemma TrackAsking(deltas: seq<string>)
    ensures Track(Between, Asked(deltas)) == Between
  {
    TrackDeltas(deltas);
    assert Track(Between, [StepBegin]) == InStep([]) by {
      assert [StepBegin][..0] == [];
    }
    TrackInTwo(Between, [StepBegin], Deltas(deltas));
    TrackInTwo(Between, [StepBegin] + Deltas(deltas), [StepEnd]);
  }

  /** Events that belong between steps. */
  ghost predicate Quiet(events: seq<Event>) {
    forall i :: 0 <= i < |events| ==> !events[i].StepBegin? && !events[i].Delta? && !events[i].StepEnd?
  }

  lemma {:induction false} TrackQuiet(events: seq<Event>)
    requires Quiet(events)
    ensures Track(Between, events) == Between
  {
    if events != [] {
      TrackQuiet(events[..|events| - 1]);
    }
  }

  lemma {:induction false} ToolsAreQuiet(w: World, messages: seq<Message>, uses: seq<Block>)
    requires AllUses(uses)
    ensures Quiet(RunTools(w, messages, uses).events)
  {
    if uses != [] {
      ToolsAreQuiet(w, messages, uses[..|uses| - 1]);
    }
  }

  lemma TrackIteration(w: World, messages: seq<Message>)
    ensures Track(Between, Iterate(w, messages).events) == Between
  {
    var reply := w.chat(messages);
    var asked := Asked(reply.deltas);
    TrackAsking(reply.deltas);
    if reply.Failed? {
      TrackInTwo(Between, asked, [ModelError(reply.message)]);
      TrackQuiet([ModelError(reply.message)]);
    } else {
      var content := Kept(reply.content);
      var uses := ToolUses(content);
      ToolUsesAreUses(content);
      if uses != [] {
        var said := messages + [Message(Assistant, content)];
        ToolsAreQuiet(w, said, uses);
        var quiet := [ToolsBegin] + RunTools(w, said, uses).events;
        TrackQuiet(quiet);
        TrackInTwo(Between, asked, quiet);
        assert asked + [ToolsBegin] + RunTools(w, said, uses).events == asked + quiet;
      }
    }
  }

  lemma {:induction false} RepeatReportsInOrder(step: seq<Message> -> Iteration, messages: seq<Message>, left: nat,
                                                maxSteps: nat, finalText: string)
    requires forall m :: Track(Between, step(m).events) == Between
    ensures Track(Between, Repeat(step, messages, left, maxSteps, finalText).events) == Between
    decreases left
  {
    if left == 0 {
      TrackQuiet([Exhausted(maxSteps)]);
    } else if !step(messages).done {
      var it := step(messages);
      var text := Taken(it, finalText);
      RepeatReportsInOrder(step, it.messages, left - 1, maxSteps, text);
      TrackInTwo(Between, it.events, Repeat(step, it.messages, left - 1, maxSteps, text).events);
    }
  }

  /** Steps never nest, text only streams inside a step, and every step that begins ends. */
  lemma {:induction false} LoopReportsInOrder(w: World, messages: seq<Message>, maxSteps: nat)
    ensures Track(Between, Loop(w, messages, maxSteps).events) == Between
  {
    forall m ensures Track(Between, Stepper(w)(m).events) == Between {
      TrackIteration(w, m);
    }
    RepeatReportsInOrder(Stepper(w), messages, maxSteps, maxSteps, "");
  }

  // ---- What is reported is what is recorded ----

  datatype Report = Report(output: string, isError: bool)

  function Reports(events: seq<Event>): seq<Report> {
    if events == [] then []
    else
      var before, last := Reports(events[..|events| - 1]), events[|events| - 1];
      if last.ToolDone? then before + [Report(last.output, last.isError)] else before
  }

  function ResultsIn(content: seq<Block>): seq<Report> {
    if content == [] then []
    else
      var before, last := ResultsIn(content[..|content| - 1]), content[|content| - 1];
      if last.ToolResult? then before + [Report(last.output, last.isError)] else before
  }

  /** The tool results of a conversation: those in user messages. */
  function Recorded(messages: seq<Message>): seq<Report> {
    if messages == [] then []
    else
      var before, last := Recorded(messages[..|messages| - 1]), messages[|messages| - 1];
      if last.role == User then before + ResultsIn(last.content) else before
  }

  lemma {:induction false} ReportsInTwo(first: seq<Event>, second: seq<Event>)
    ensures Reports(first + second) == Reports(first) + Reports(second)
  {
    if second == [] {
      assert first + [] == first;
    } else {
      var all := first + second;
      assert all[..|all| - 1] == first + second[..|second| - 1];
      ReportsInTwo(first, second[..|second| - 1]);
    }
  }

  ghost predicate NoneDone(events: seq<Event>) {
    forall i :: 0 <= i < |events| ==> !events[i].ToolDone?
  }

  lemma {:induction false} AskingReportsNothing(events: seq<Event>)
    requires NoneDone(events)
    ensures Reports(events) == []
  {
    if events != [] {
      AskingReportsNothing(events[..|events| - 1]);
    }
  }

  lemma {:induction false} ToolsReportResults(w: World, messages: seq<Message>, uses: seq<Block>)
    requires AllUses(uses)
    ensures Reports(RunTools(w, messages, uses).events) == ResultsIn(RunTools(w, messages, uses).results)
  {
    if uses != [] {
      var n := |uses| - 1;
      var before, ran := RunTools(w, messages, uses[..n]), Ran(w, messages, uses[n], n);
      ToolsReportResults(w, messages, uses[..n]);
      var one, r := ToolEvents(w, uses[n], ran), ResultOf(uses[n], ran);
      ReportsInTwo(before.events, one);
      assert Reports(one) == [Report(r.output, r.isError)] by {
        AskingReportsNothing(one[..|one| - 1]);
      }
      assert (before.results + [r])[..n] == before.results by {
        ToolsAnswer(w, messages, uses[..n]);
      }
    }
  }

  lemma RecordedMore(messages: seq<Message>, m: Message)
    ensures m.role == User ==> Recorded(messages + [m]) == Recorded(messages) + ResultsIn(m.content)
    ensures m.role == Assistant ==> Recorded(messages + [m]) == Recorded(messages)
  {
    assert (messages + [m])[..|messages|] == messages;
  }

  lemma ReportsAfterQuiet(quiet: seq<Event>, events: seq<Event>)
    requires NoneDone(quiet)
    ensures Reports(quiet + events) == Reports(events)
  {
    AskingReportsNothing(quiet);
    ReportsInTwo(quiet, events);
    assert [] + Reports(events) == Reports(events);
  }

  /** A step with tool calls. */
  lemma ToolStepReports(messages: seq<Message>, said: Message, tooling: Tooling, asked: seq<Event>)
    requires said.role == Assistant && Reports(tooling.events) == ResultsIn(tooling.results) && NoneDone(asked)
    ensures Recorded(messages + [said] + [Message(User, tooling.results)])
      == Recorded(messages) + Reports(asked + tooling.events)
  {
    RecordedMore(messages, said);
    RecordedMore(messages + [said], Message(User, tooling.results));
    ReportsAfterQuiet(asked, tooling.events);
  }

  lemma AskedReportsNothing(deltas: seq<string>, more: seq<Event>)
    requires NoneDone(more)
    ensures NoneDone(Asked(deltas) + more) && Reports(Asked(deltas) + more) == []
  {
    AskingReportsNothing(Asked(deltas) + more);
  }

  lemma FailedIterationReports(w: World, messages: seq<Message>)
    requires w.chat(messages).Failed?
    ensures Recorded(Iterate(w, messages).messages) == Recorded(messages) + Reports(Iterate(w, messages).events)
  {
    AskedReportsNothing(w.chat(messages).deltas, [ModelError(w.chat(messages).message)]);
  }

  lemma LastIterationReports(w: World, messages: seq<Message>)
    requires w.chat(messages).Answered? && ToolUses(Kept(w.chat(messages).content)) == []
    ensures Recorded(Iterate(w, messages).messages) == Recorded(messages) + Reports(Iterate(w, messages).events)
  {
    RecordedMore(messages, Message(Assistant, Kept(w.chat(messages).content)));
    AskedReportsNothing(w.chat(messages).deltas, []);
    assert Asked(w.chat(messages).deltas) + [] == Asked(w.chat(messages).deltas);
  }

  lemma ToolIterationShape(w: World, messages: seq<Message>, said: Message, uses: seq<Block>)
    requires w.chat(messages).Answered? && said == Message(Assistant, Kept(w.chat(messages).content))
    requires uses == ToolUses(said.content) && uses != [] && AllUses(uses)
    ensures var tooling := RunTools(w, messages + [said], uses);
      && Iterate(w, messages).messages == messages + [said] + [Message(User, tooling.results)]
      && Iterate(w, messages).events == Asked(w.chat(messages).deltas) + [ToolsBegin] + tooling.events
  {
  }

  lemma ToolIterationReports(w: World, messages: seq<Message>, said: Message, uses: seq<Block>, it: Iteration,
                             asked: seq<Event>)
    requires said.role == Assistant && AllUses(uses) && NoneDone(asked)
    requires it.messages == messages + [said] + [Message(User, RunTools(w, messages + [said], uses).results)]
    requires it.events == asked + RunTools(w, messages + [said], uses).events
    ensures Recorded(it.messages) == Recorded(messages) + Reports(it.events)
  {
    ToolsReportResults(w, messages + [said], uses);
    ToolStepReports(messages, said, RunTools(w, messages + [said], uses), asked);
  }

  lemma IterationReportsResults(w: World, messages: seq<Message>)
    ensures Recorded(Iterate(w, messages).messages) == Recorded(messages) + Reports(Iterate(w, messages).events)
  {
    var reply := w.chat(messages);
    if reply.Failed? {
      FailedIterationReports(w, messages);
    } else if ToolUses(Kept(reply.content)) == [] {
      LastIterationReports(w, messages);
    } else {
      var said := Message(Assistant, Kept(reply.content));
      ToolUsesAreUses(said.content);
      ToolIterationShape(w, messages, said, ToolUses(said.content));
      AskedReportsNothing(reply.deltas, [ToolsBegin]);
      ToolIterationReports(w, messages, said, ToolUses(said.content), Iterate(w, messages),
                           Asked(reply.deltas) + [ToolsBegin]);
    }
  }

  lemma ReportsGoOn(recorded: seq<Report>, once: seq<Event>, rest: seq<Event>, middle: seq<Report>, all: seq<Report>)
    requires middle == recorded + Reports(once) && all == middle + Reports(rest)
    ensures all == recorded + Reports(once + rest)
  {
    ReportsInTwo(once, rest);
    assert recorded + Reports(once) + Reports(rest) == recorded + (Reports(once) + Reports(rest));
  }

  lemma {:induction false} RepeatReportsResults(step: seq<Message> -> Iteration, messages: seq<Message>, left: nat,
                                                maxSteps: nat, finalText: string)
    requires forall m :: Recorded(step(m).messages) == Recorded(m) + Reports(step(m).events)
    ensures var r := Repeat(step, messages, left, maxSteps, finalText);
      Recorded(r.messages) == Recorded(messages) + Reports(r.events)
    decreases left
  {
    if left == 0 {
      AskingReportsNothing([Exhausted(maxSteps)]);
      assert Recorded(messages) + [] == Recorded(messages);
    } else if !step(messages).done {
      var it := step(messages);
      var rest := Repeat(step, it.messages, left - 1, maxSteps, Taken(it, finalText));
      RepeatReportsResults(step, it.messages, left - 1, maxSteps, Taken(it, finalText));
      ReportsGoOn(Recorded(messages), it.events, rest.events, Recorded(it.messages), Recorded(rest.messages));
    }
  }

  /** The user sees the outcome of every tool call as the model will, in the same order. */
  lemma {:induction false} LoopReportsResults(w: World, messages: seq<Message>, maxSteps: nat)
    ensures var r := Loop(w, messages, maxSteps);
      Recorded(r.messages) == Recorded(messages) + Reports(r.events)
  {
    forall m ensures Recorded(Stepper(w)(m).messages) == Recorded(m) + Reports(Stepper(w)(m).events) {
      IterationReportsResults(w, m);
    }
    RepeatReportsResults(Stepper(w), messages, maxSteps, maxSteps, "");
  }

  // ---- What is returned ----

  /** The text of the last assistant message that says anything, or the given text. */
  function LastSaid(messages: seq<Message>, otherwise: string): string {
    if messages == [] then otherwise
    else
      var last := messages[|messages| - 1];
      if last.role == Assistant && !Blank(TextOf(last.content)) then TextOf(last.content)
      else LastSaid(messages[..|messages| - 1], otherwise)
  }

  lemma {:induction false} LastSaidInTwo(first: seq<Message>, second: seq<Message>, otherwise: string)
    ensures LastSaid(first + second, otherwise) == LastSaid(second, LastSaid(first, otherwise))
  {
    if second == [] {
      assert first + [] == first;
    } else {
      var all := first + second;
      assert all[..|all| - 1] == first + second[..|second| - 1];
      LastSaidInTwo(first, second[..|second| - 1], otherwise);
    }
  }

  lemma IterationSays(w: World, messages: seq<Message>, finalText: string)
    ensures var it := Iterate(w, messages);
      && messages <= it.messages
      && LastSaid(it.messages[|messages|..], finalText) == Taken(it, finalText)
  {
    var it, reply := Iterate(w, messages), w.chat(messages);
    if reply.Answered? {
      var m := Message(Assistant, Kept(reply.content));
      var more := it.messages[|messages|..];
      assert more[0] == m && more[..1] == [m] && [m][..0] == [];
      assert LastSaid([m], finalText) == Taken(it, finalText);
      assert more == [m] || (|more| == 2 && more[1].role == User && more[..1] == [m]);
    }
  }

  lemma SaidInTwo(start: seq<Message>, middle: seq<Message>, end: seq<Message>, otherwise: string, said: string)
    requires start <= middle <= end && LastSaid(middle[|start|..], otherwise) == said
    ensures start <= end && LastSaid(end[|start|..], otherwise) == LastSaid(end[|middle|..], said)
  {
    assert end[|start|..] == middle[|start|..] + end[|middle|..];
    LastSaidInTwo(middle[|start|..], end[|middle|..], otherwise);
  }

  predicate SaysLast(step: seq<Message> -> Iteration, m: seq<Message>, before: string) {
    m <= step(m).messages && LastSaid(step(m).messages[|m|..], before) == Taken(step(m), before)
  }

  lemma {:induction false} RepeatReturnsLastSaid(step: seq<Message> -> Iteration, messages: seq<Message>, left: nat,
                                                 maxSteps: nat, finalText: string)
    requires forall m, t :: SaysLast(step, m, t)
    ensures var r := Repeat(step, messages, left, maxSteps, finalText);
      messages <= r.messages && r.finalText == LastSaid(r.messages[|messages|..], finalText)
    decreases left
  {
    if left > 0 {
      var it, text := step(messages), Taken(step(messages), finalText);
      assert SaysLast(step, messages, finalText);
      if !it.done {
        RepeatReturnsLastSaid(step, it.messages, left - 1, maxSteps, text);
        var r := Repeat(step, it.messages, left - 1, maxSteps, text);
        SaidInTwo(messages, it.messages, r.messages, finalText, text);
      }
    }
  }

  /** The loop returns what the model last said in it. */
  lemma {:induction false} LoopReturnsLastSaid(w: World, messages: seq<Message>, maxSteps: nat)
    ensures var r := Loop(w, messages, maxSteps);
      messages <= r.messages && r.finalText == LastSaid(r.messages[|messages|..], "")
  {
    forall m, t ensures SaysLast(Stepper(w), m, t) {
      IterationSays(w, m, t);
    }
    RepeatReturnsLastSaid(Stepper(w), messages, maxSteps, maxSteps, "");
  }

  // ---- Every answer is taken down, and every tool asked for is run ----

  /** A block that says something or asks for something. */
  predicate Speaks(b: Block) {
    b.Text? ==> exists i :: 0 <= i < |b.text| && b.text[i] !in WHITESPACE
  }

  predicate IsUse(b: Block) {
    b.ToolUse?
  }

  lemma SpeaksMeans(b: Block)
    ensures Speaks(b) <==> !(b.Text? && Blank(b.text))
  {
  }

  lemma KeepsOneMore(content: seq<Block>, before: seq<Block>, b: Block, kept: seq<Block>, more: seq<Block>)
    requires content == before + [b] && Picks(before, kept, Speaks)
    requires more == if b.Text? && Blank(b.text) then kept else kept + [b]
    ensures Picks(content, more, Speaks)
  {
    SpeaksMeans(b);
    PicksMore(before, kept, Speaks, b);
  }

  lemma {:induction false} KeptSpeaks(content: seq<Block>)
    ensures Picks(content, Kept(content), Speaks)
  {
    if content == [] {
      PicksNone(Speaks);
    } else {
      var before, last := content[..|content| - 1], content[|content| - 1];
      KeptSpeaks(before);
      KeepsOneMore(content, before, last, Kept(before), Kept(content));
    }
  }

  lemma {:induction false} UsesOfKept(content: seq<Block>)
    ensures Picks(content, ToolUses(Kept(content)), IsUse)
    ensures ToolUses(Kept(content)) == ToolUses(content)
    ensures ToolUses(content) == [] <==> forall b :: b in content ==> !b.ToolUse?
  {
    if content == [] {
      PicksNone(IsUse);
    } else {
      var before, last := content[..|content| - 1], content[|content| - 1];
      UsesOfKept(before);
      PicksMore(before, ToolUses(Kept(before)), IsUse, last);
      assert content == before + [last];
      if !(last.Text? && Blank(last.text)) {
        assert (Kept(before) + [last])[..|Kept(before)|] == Kept(before);
      }
    }
  }

  /** What the model is answered for its `i`-th tool use, the conversation so far ending with its own message. */
  function ToolAnswer(w: World, said: seq<Message>, use: Block, i: nat): Block
    requires use.ToolUse?
  {
    if use.name !in w.tools(said, i) then ToolResult(use.id, "Unknown tool: " + use.name, true)
    else
      match w.run(said, i)
      case Returned(output) => ToolResult(use.id, output, false)
      case Refused(message) => ToolResult(use.id, message, true)
      case Threw(message) => ToolResult(use.id, "Tool failed: " + message, true)
  }

  /** One answer for each tool use, from that tool. */
  predicate AnswersUses(w: World, said: seq<Message>, uses: seq<Block>, results: seq<Block>) {
    && |results| == |uses|
    && forall i :: 0 <= i < |uses| ==> uses[i].ToolUse? && results[i] == ToolAnswer(w, said, uses[i], i)
  }

  lemma {:induction false} ToolsAreRun(w: World, said: seq<Message>, uses: seq<Block>)
    requires AllUses(uses)
    ensures AnswersUses(w, said, uses, RunTools(w, said, uses).results)
  {
    if uses != [] {
      ToolsAreRun(w, said, uses[..|uses| - 1]);
    }
  }

  /** What is reported of a tool: a name nobody knows, or that it began and how it ended. */
  lemma EachToolIsReported(w: World, said: seq<Message>, uses: seq<Block>, n: nat)
    requires AllUses(uses) && n < |uses|
    ensures var use, answer := uses[n], ToolAnswer(w, said, uses[n], n);
      var summary := w.summarize(use.name, use.input);
      RunTools(w, said, uses[..n + 1]).events == RunTools(w, said, uses[..n]).events +
        if use.name !in w.tools(said, n) then [ToolDone(use.name, answer.output, answer.output, true)]
        else [ToolBegin(use.name, summary), ToolDone(use.name, summary, answer.output, answer.isError)]
  {
    assert uses[..n + 1][..n] == uses[..n];
  }

  /** The model says that it is done, or fails. */
  predicate Ends(reply: Reply) {
    reply.Failed? || forall b :: b in reply.content ==> !b.ToolUse?
  }

  /** An answer with tool uses: the conversation goes on with what it says and with the results of its tools. */
  ghost predicate Exchange(w: World, before: seq<Message>, after: seq<Message>) {
    var reply, n := w.chat(before), |before|;
    && reply.Answered? && before <= after && |after| == n + 2
    && after[n].role == Assistant && Picks(reply.content, after[n].content, Speaks)
    && after[n + 1].role == User
    && exists uses :: Picks(reply.content, uses, IsUse) && AnswersUses(w, after[..n + 1], uses, after[n + 1].content)
  }

  /** The last answer: what it says is taken down too. */
  ghost predicate LastAnswer(w: World, before: seq<Message>, after: seq<Message>) {
    var reply, n := w.chat(before), |before|;
    if reply.Failed? then after == before
    else
      before <= after && |after| == n + 1 && after[n].role == Assistant
      && Picks(reply.content, after[n].content, Speaks)
  }

  /** An iteration ends the loop exactly when the model ends it, and otherwise is one exchange. */
  ghost predicate StepsRight(w: World, step: seq<Message> -> Iteration, before: seq<Message>) {
    && (step(before).done <==> Ends(w.chat(before)))
    && (if step(before).done then LastAnswer(w, before, step(before).messages)
        else Exchange(w, before, step(before).messages))
  }

  lemma ToolStepIsExchange(w: World, before: seq<Message>, content: seq<Block>, uses: seq<Block>, after: seq<Message>)
    requires w.chat(before).Answered? && Picks(w.chat(before).content, content, Speaks)
    requires AllUses(uses) && Picks(w.chat(before).content, uses, IsUse)
    requires var said := before + [Message(Assistant, content)];
      after == said + [Message(User, RunTools(w, said, uses).results)]
    ensures Exchange(w, before, after)
  {
    var said := before + [Message(Assistant, content)];
    ToolsAreRun(w, said, uses);
    assert after[..|before| + 1] == said;
    assert AnswersUses(w, after[..|before| + 1], uses, after[|before| + 1].content);
  }

  lemma PlainStepIsLast(w: World, before: seq<Message>, content: seq<Block>, after: seq<Message>)
    requires w.chat(before).Answered? && Picks(w.chat(before).content, content, Speaks)
    requires after == before + [Message(Assistant, content)]
    ensures LastAnswer(w, before, after)
  {
  }

  lemma IterationEnds(w: World, before: seq<Message>)
    ensures Iterate(w, before).done <==> Ends(w.chat(before))
  {
    if w.chat(before).Answered? {
      UsesOfKept(w.chat(before).content);
    }
  }

  lemma DoneIsLast(w: World, before: seq<Message>)
    requires Iterate(w, before).done
    ensures LastAnswer(w, before, Iterate(w, before).messages)
  {
    var reply := w.chat(before);
    if reply.Answered? {
      KeptSpeaks(reply.content);
      PlainStepIsLast(w, before, Kept(reply.content), Iterate(w, before).messages);
    }
  }

  lemma NotDoneIsExchange(w: World, before: seq<Message>)
    requires !Iterate(w, before).done
    ensures Exchange(w, before, Iterate(w, before).messages)
  {
    var reply := w.chat(before);
    var content := Kept(reply.content);
    KeptSpeaks(reply.content);
    UsesOfKept(reply.content);
    ToolUsesAreUses(content);
    ToolStepIsExchange(w, before, content, ToolUses(content), Iterate(w, before).messages);
  }

  lemma IterationStepsRight(w: World, before: seq<Message>)
    ensures StepsRight(w, Stepper(w), before)
  {
    IterationEnds(w, before);
    assert Stepper(w)(before) == Iterate(w, before);
    if Iterate(w, before).done {
      DoneIsLast(w, before);
    } else {
      NotDoneIsExchange(w, before);
    }
  }

  /** A step as it is reported: it begins, streams its deltas, ends, and then come these events. */
  predicate ReportsStep(events: seq<Event>, deltas: seq<string>, rest: seq<Event>) {
    var n := |deltas|;
    && |events| >= n + 2 && events[0] == StepBegin && events[n + 1] == StepEnd
    && (forall i :: 0 <= i < n ==> events[i + 1] == Delta(deltas[i]))
    && events[n + 2..] == rest
  }

  lemma AskedReportsStep(deltas: seq<string>, rest: seq<Event>)
    ensures ReportsStep(Asked(deltas) + rest, deltas, rest)
  {
    var events := Asked(deltas) + rest;
    forall i | 0 <= i < |deltas| ensures events[i + 1] == Delta(deltas[i]) {
      assert events[i + 1] == Deltas(deltas)[i];
    }
  }

  lemma ToolStepReportsStep(w: World, before: seq<Message>, content: seq<Block>, uses: seq<Block>)
    requires w.chat(before).Answered? && content == Kept(w.chat(before).content)
    requires uses == ToolUses(content) && uses != [] && AllUses(uses)
    ensures var ran := RunTools(w, Iterate(w, before).messages[..|before| + 1], uses);
      ReportsStep(Iterate(w, before).events, w.chat(before).deltas, [ToolsBegin] + ran.events)
  {
    var said := before + [Message(Assistant, content)];
    assert Iterate(w, before).messages[..|before| + 1] == said;
    var asked, ran := Asked(w.chat(before).deltas), RunTools(w, said, uses);
    AskedReportsStep(w.chat(before).deltas, [ToolsBegin] + ran.events);
    assert asked + [ToolsBegin] + ran.events == asked + ([ToolsBegin] + ran.events);
  }

  /** What is reported of one request: the step with all its deltas, then the failure or the tools. */
  lemma IterationReports(w: World, before: seq<Message>)
    ensures var reply, it := w.chat(before), Iterate(w, before);
      if reply.Failed? then ReportsStep(it.events, reply.deltas, [ModelError(reply.message)])
      else if Ends(reply) then ReportsStep(it.events, reply.deltas, [])
      else
        && AllUses(ToolUses(reply.content)) && |it.messages| > |before|
        && ReportsStep(it.events, reply.deltas,
                       [ToolsBegin] + RunTools(w, it.messages[..|before| + 1], ToolUses(reply.content)).events)
  {
    var reply := w.chat(before);
    if reply.Failed? {
      AskedReportsStep(reply.deltas, [ModelError(reply.message)]);
    } else {
      UsesOfKept(reply.content);
      ToolUsesAreUses(reply.content);
      if Ends(reply) {
        AskedReportsStep(reply.deltas, []);
        assert Asked(reply.deltas) + [] == Asked(reply.deltas);
      } else {
        ToolStepReportsStep(w, before, Kept(reply.content), ToolUses(reply.content));
      }
    }
  }

  /** The conversations the loop sends, request by request. */
  function Sent(step: seq<Message> -> Iteration, messages: seq<Message>, left: nat): seq<seq<Message>>
    decreases left
  {
    if left == 0 then []
    else
      var it := step(messages);
      [messages] + if it.done then [] else Sent(step, it.messages, left - 1)
  }

  /** From one request to the next: the model went on, and this is the exchange. */
  ghost function Link(w: World): (seq<Message>, seq<Message>) -> bool {
    (before: seq<Message>, after: seq<Message>) => !Ends(w.chat(before)) && Exchange(w, before, after)
  }

  /** How a run ends that has sent its last request: with an answer, or with its steps used up. */
  ghost predicate Finishes(w: World, last: seq<Message>, r: Result, usedUp: bool, maxSteps: nat) {
    if Ends(w.chat(last)) then LastAnswer(w, last, r.messages)
    else
      usedUp && Exchange(w, last, r.messages) && r.events != [] && r.events[|r.events| - 1] == Exhausted(maxSteps)
  }

  ghost function Finish(w: World, maxSteps: nat): (seq<Message>, Result, bool) -> bool {
    (last: seq<Message>, r: Result, usedUp: bool) => Finishes(w, last, r, usedUp, maxSteps)
  }

  /** A run of the loop, request by request: the first, the links between them, and the end. */
  ghost predicate Follows(link: (seq<Message>, seq<Message>) -> bool, finish: (seq<Message>, Result, bool) -> bool,
                          messages: seq<Message>, left: nat, sent: seq<seq<Message>>, r: Result, maxSteps: nat)
  {
    && |sent| == r.requests <= left
    && (sent == [] <==> left == 0)
    && (sent == [] ==> r.messages == messages && r.events == [Exhausted(maxSteps)])
    && (sent != [] ==> sent[0] == messages && finish(sent[|sent| - 1], r, |sent| == left))
    && forall i :: 0 <= i < |sent| - 1 ==> link(sent[i], sent[i + 1])
  }

  lemma FollowsOn(link: (seq<Message>, seq<Message>) -> bool, finish: (seq<Message>, Result, bool) -> bool,
                  messages: seq<Message>, left: nat, rest: seq<seq<Message>>, next: seq<Message>, r: Result,
                  all: Result, maxSteps: nat)
    requires left > 0 && link(messages, next) && Follows(link, finish, next, left - 1, rest, r, maxSteps)
    requires all.requests == r.requests + 1
    requires if rest == [] then finish(messages, all, left == 1) else finish(rest[|rest| - 1], all, |rest| == left - 1)
    ensures Follows(link, finish, messages, left, [messages] + rest, all, maxSteps)
  {
    var sent := [messages] + rest;
    if rest != [] {
      assert sent[|sent| - 1] == rest[|rest| - 1];
    }
    forall i | 0 <= i < |sent| - 1 ensures link(sent[i], sent[i + 1]) {
      if i > 0 {
        assert sent[i] == rest[i - 1] && sent[i + 1] == rest[i];
      }
    }
  }

  /** Two results with the same messages and the same last report. */
  ghost predicate EndsAlike(r: Result, all: Result) {
    && all.messages == r.messages
    && (r.events != [] ==> all.events != [] && all.events[|all.events| - 1] == r.events[|r.events| - 1])
  }

  /** What a step and an end have to be for a run of them to follow. */
  ghost predicate StepFits(link: (seq<Message>, seq<Message>) -> bool, finish: (seq<Message>, Result, bool) -> bool,
                           step: seq<Message> -> Iteration, m: seq<Message>, maxSteps: nat)
  {
    if step(m).done then forall r: Result, usedUp: bool :: r.messages == step(m).messages ==> finish(m, r, usedUp)
    else
      && link(m, step(m).messages)
      && forall r :: EndsAlike(Result(step(m).messages, [Exhausted(maxSteps)], "", 0), r) ==> finish(m, r, true)
  }

  lemma {:induction false} RepeatFollows(
      link: (seq<Message>, seq<Message>) -> bool, finish: (seq<Message>, Result, bool) -> bool,
      step: seq<Message> -> Iteration, messages: seq<Message>, left: nat, maxSteps: nat, finalText: string)
    requires forall m :: StepFits(link, finish, step, m, maxSteps)
    requires forall last, r: Result, all: Result, usedUp ::
      finish(last, r, usedUp) && EndsAlike(r, all) ==> finish(last, all, usedUp)
    ensures Follows(link, finish, messages, left, Sent(step, messages, left),
                    Repeat(step, messages, left, maxSteps, finalText), maxSteps)
    decreases left
  {
    if left > 0 {
      var it, all := step(messages), Repeat(step, messages, left, maxSteps, finalText);
      assert StepFits(link, finish, step, messages, maxSteps);
      if !it.done {
        var text, sent := Taken(it, finalText), Sent(step, it.messages, left - 1);
        var rest := Repeat(step, it.messages, left - 1, maxSteps, text);
        RepeatFollows(link, finish, step, it.messages, left - 1, maxSteps, text);
        if sent == [] {
          assert EndsAlike(Result(it.messages, [Exhausted(maxSteps)], "", 0), all);
        } else {
          assert EndsAlike(rest, all);
        }
        FollowsOn(link, finish, messages, left, sent, it.messages, rest, all, maxSteps);
      }
    }
  }

  lemma ModelStepFits(w: World, m: seq<Message>, maxSteps: nat)
    ensures StepFits(Link(w), Finish(w, maxSteps), Stepper(w), m, maxSteps)
  {
    IterationStepsRight(w, m);
    var step := Stepper(w);
    if step(m).done {
      forall r: Result, usedUp: bool | r.messages == step(m).messages ensures Finish(w, maxSteps)(m, r, usedUp) {
      }
    } else {
      assert Link(w)(m, step(m).messages);
      forall r | EndsAlike(Result(step(m).messages, [Exhausted(maxSteps)], "", 0), r)
        ensures Finish(w, maxSteps)(m, r, true)
      {
      }
    }
  }

  /**
   * The loop, request by request: everything a model says or asks for is taken
   * down as it answered it, blank text apart; every tool it asks for is run and
   * answered; it is asked again with the results; and the loop ends when it fails
   * or asks for no tool, or when the steps are used up, which is then reported.
   */
  lemma {:induction false} LoopFollowsTheModel(w: World, messages: seq<Message>, maxSteps: nat)
    ensures Follows(Link(w), Finish(w, maxSteps), messages, maxSteps, Sent(Stepper(w), messages, maxSteps),
                    Loop(w, messages, maxSteps), maxSteps)
  {
    forall m ensures StepFits(Link(w), Finish(w, maxSteps), Stepper(w), m, maxSteps) {
      ModelStepFits(w, m, maxSteps);
    }
    RepeatFollows(Link(w), Finish(w, maxSteps), Stepper(w), messages, maxSteps, maxSteps, "");
  }

  /** The text of some blocks is that of its text blocks, one after another. */
  lemma TextAdds(content: seq<Block>, b: Block)
    ensures TextOf([]) == ""
    ensures TextOf(content + [b]) == TextOf(content) + if b.Text? then b.text else ""
  {
    assert (content + [b])[..|content|] == content;
  }
}
