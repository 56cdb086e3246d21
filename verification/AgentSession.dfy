/**
 * The loop as it runs (cli/src/agent/loop.ts, cli/src/agent/session.ts): it pushes
 * to a conversation it was handed and calls the reporter as it goes.
 */
module AgentSession {
  import opened AgentLoop

  const MAX_STEPS: nat := 50

  class Session {
    var messages: seq<Message>
    var events: seq<Event>       // every reporter call so far
    var requests: nat            // every completion request so far
    const world: World

    constructor (world: World)
      ensures messages == [] && events == [] && requests == 0 && this.world == world
    {
      messages, events, requests, this.world := [], [], 0, world;
    }

    method RunTool(use: Block, i: nat) returns (r: Block)
      requires use.ToolUse?
      modifies this`events
      ensures r == ResultOf(use, Ran(world, messages, use, i))
      ensures events == old(events) + ToolEvents(world, use, Ran(world, messages, use, i))
    {
      if use.name !in world.tools(messages, i) {
        var unknown := "Unknown tool: " + use.name;
        events := events + [ToolDone(use.name, unknown, unknown, true)];
        return ToolResult(use.id, unknown, true);
      }
      var summary := world.summarize(use.name, use.input);
      events := events + [ToolBegin(use.name, summary)];
      match world.run(messages, i)
      case Returned(output) =>
        events := events + [ToolDone(use.name, summary, output, false)];
        r := ToolResult(use.id, output, false);
      case Refused(message) =>
        events := events + [ToolDone(use.name, summary, message, true)];
        r := ToolResult(use.id, message, true);
      case Threw(cause) =>
        var message := "Tool failed: " + cause;
        events := events + [ToolDone(use.name, summary, message, true)];
        r := ToolResult(use.id, message, true);
    }

    method RunEach(uses: seq<Block>) returns (results: seq<Block>)
      requires AllUses(uses)
      modifies this`events
      ensures Tooling(results, events) == Tooling(RunTools(world, messages, uses).results,
                                                  old(events) + RunTools(world, messages, uses).events)
    {
      results := [];
      var i := 0;
      while i < |uses|
        invariant 0 <= i <= |uses| && results == RunTools(world, messages, uses[..i]).results
        invariant events == old(events) + RunTools(world, messages, uses[..i]).events
      {
        assert uses[..i + 1][..i] == uses[..i];
        var r := RunTool(uses[i], i);
        results := results + [r];
        i := i + 1;
      }
      assert uses[..i] == uses;
    }

    /** Asks the model, reporting each delta as it comes. */
    method Ask() returns (reply: Reply)
      modifies this`events, this`requests
      ensures reply == world.chat(messages) && requests == old(requests) + 1
      ensures events == old(events) + Asked(reply.deltas)
    {
      events := events + [StepBegin];
      reply := world.chat(messages);
      requests := requests + 1;
      var i := 0;
      while i < |reply.deltas|
        invariant 0 <= i <= |reply.deltas| && requests == old(requests) + 1
        invariant events == old(events) + [StepBegin] + Deltas(reply.deltas[..i])
      {
        events := events + [Delta(reply.deltas[i])];
        i := i + 1;
      }
      assert reply.deltas[..i] == reply.deltas;
      events := events + [StepEnd];
      assert events == old(events) + Asked(reply.deltas);
    }

    /** One iteration of the loop; `done` if it is the last. */
    method TakeStep() returns (text: string, done: bool)
      modifies this`messages, this`events, this`requests
      ensures var it := Iterate(world, old(messages));
        && messages == it.messages && events == old(events) + it.events && requests == old(requests) + 1
        && text == it.text && done == it.done
    {
      var reply := Ask();
      if reply.Failed? {
        events := events + [ModelError(reply.message)];
        return "", true;
      }
      var content := Kept(reply.content);
      messages := messages + [Message(Assistant, content)];
      text := TextOf(content);
      var uses := ToolUses(content);
      if uses == [] {
        return text, true;
      }
      ToolUsesAreUses(content);
      events := events + [ToolsBegin];
      ghost var asked := Asked(reply.deltas);
      ghost var ran := RunTools(world, messages, uses);
      Associative(old(events), asked, [ToolsBegin]);
      Associative(old(events), asked + [ToolsBegin], ran.events);
      var results := RunEach(uses);
      messages := messages + [Message(User, results)];
      done := false;
    }

    method RunAgentLoop(maxSteps: nat) returns (finalText: string)
      modifies this`messages, this`events, this`requests
      ensures Result(messages, events, finalText, requests)
           == Owed(Loop(world, old(messages), maxSteps), old(events), old(requests))
    {
      finalText := "";
      var step := 0;
      ghost var stepper := Stepper(world);
      ghost var left := maxSteps;
      ghost var owed := Owed(Repeat(stepper, messages, left, maxSteps, ""), events, requests);
      while step < maxSteps
        invariant left == maxSteps - step
        invariant Owed(Repeat(stepper, messages, left, maxSteps, finalText), events, requests) == owed
      {
        var done;
        finalText, done := TakeCountedStep(finalText, left, maxSteps, stepper);
        if done {
          return finalText;
        }
        step, left := step + 1, left - 1;
      }
      NothingLeft(stepper, messages, maxSteps, finalText, events, requests);
      events := events + [Exhausted(maxSteps)];
    }

    /** An iteration with its text taken over, unless it is blank, as the final text. */
    method TakeCountedStep(before: string, ghost left: nat, ghost maxSteps: nat,
                           ghost stepper: seq<Message> -> Iteration)
      returns (finalText: string, done: bool)
      requires left > 0 && stepper == Stepper(world)
      modifies this`messages, this`events, this`requests
      ensures old(Owed(Repeat(stepper, messages, left, maxSteps, before), events, requests)) ==
        if done then Result(messages, events, finalText, requests)
        else Owed(Repeat(stepper, messages, left - 1, maxSteps, finalText), events, requests)
    {
      OwedNext(stepper, messages, left, maxSteps, before, events, requests);
      var text;
      text, done := TakeStep();
      finalText := if Blank(text) then before else text;
    }

    /** One turn of the user's. */
    method Send(userText: string) returns (finalText: string)
      modifies this`messages, this`events, this`requests
      ensures Result(messages, events, finalText, requests)
           == Owed(Loop(world, old(messages) + [Message(User, [Text(userText)])], 50),
                   old(events), old(requests))
    {
      messages := messages + [Message(User, [Text(userText)])];
      finalText := RunAgentLoop(MAX_STEPS);
    }
  }

  lemma Associative<T>(a: seq<T>, b: seq<T>, c: seq<T>)
    ensures a + b + c == a + (b + c)
  {
  }

  /** The state a loop will leave, given what had been reported and requested before it. */
  function Owed(r: Result, events: seq<Event>, requests: nat): Result {
    Result(r.messages, events + r.events, r.finalText, requests + r.requests)
  }

  lemma NothingLeft(step: seq<Message> -> Iteration, messages: seq<Message>, maxSteps: nat, finalText: string,
                    events: seq<Event>, requests: nat)
    ensures Owed(Repeat(step, messages, 0, maxSteps, finalText), events, requests)
         == Result(messages, events + [Exhausted(maxSteps)], finalText, requests)
  {
  }

  /** One iteration leaves the same owed, or is the end of it. */
  lemma OwedNext(step: seq<Message> -> Iteration, messages: seq<Message>, left: nat, maxSteps: nat, finalText: string,
                 events: seq<Event>, requests: nat)
    requires left > 0
    ensures var it := step(messages); var text := Taken(it, finalText);
      Owed(Repeat(step, messages, left, maxSteps, finalText), events, requests) ==
      (if it.done then Result(it.messages, events + it.events, text, requests + 1)
       else Owed(Repeat(step, it.messages, left - 1, maxSteps, text), events + it.events, requests + 1))
  {
    var it := step(messages);
    if !it.done {
      var rest := Repeat(step, it.messages, left - 1, maxSteps, Taken(it, finalText));
      Associative(events, it.events, rest.events);
    }
  }
}
