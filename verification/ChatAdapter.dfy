/**
 * The adapter between the agent's conversation and the chat-completions protocol
 * (cli/src/providers/openai-compatible.ts): messages out, streamed fragments in.
 */
module ChatAdapter {
  import opened Common
  import opened AgentLoop

  // ---- Messages out ----

  datatype CallOut = CallOut(id: string, name: string, arguments: string)

  datatype Wire =
    | SystemOut(text: string)
    | UserOut(text: string)
    | AssistantOut(content: Option<string>, calls: seq<CallOut>)
    | ToolOut(id: string, output: string)

  function CallsOut(content: seq<Block>, stringify: Json -> string): seq<CallOut> {
    if content == [] then []
    else
      var before, last := CallsOut(content[..|content| - 1], stringify), content[|content| - 1];
      if last.ToolUse? then before + [CallOut(last.id, last.name, stringify(last.input))] else before
  }

  function ResultsOut(content: seq<Block>): seq<Wire> {
    if content == [] then []
    else
      var before, last := ResultsOut(content[..|content| - 1]), content[|content| - 1];
      if last.ToolResult? then before + [ToolOut(last.useId, last.output)] else before
  }

  /** One message: an assistant entry, or its tool results and then its text. */
  function TranslateOne(m: Message, stringify: Json -> string): seq<Wire> {
    var text := TextOf(m.content);
    match m.role
    case Assistant => [AssistantOut(if text == "" then None else Some(text), CallsOut(m.content, stringify))]
    case User => ResultsOut(m.content) + if text == "" then [] else [UserOut(text)]
  }

  function Translate(system: string, messages: seq<Message>, stringify: Json -> string): seq<Wire> {
    if messages == [] then [SystemOut(system)]
    else Translate(system, messages[..|messages| - 1], stringify) + TranslateOne(messages[|messages| - 1], stringify)
  }

  method SendResults(content: seq<Block>) returns (out: seq<Wire>)
    ensures out == ResultsOut(content)
  {
    out := [];
    var i := 0;
    while i < |content|
      invariant 0 <= i <= |content| && out == ResultsOut(content[..i])
    {
      assert content[..i + 1][..i] == content[..i];
      if content[i].ToolResult? {
        out := out + [ToolOut(content[i].useId, content[i].output)];
      }
      i := i + 1;
    }
    assert content[..i] == content;
  }

  method SendMessage(m: Message, stringify: Json -> string) returns (out: seq<Wire>)
    ensures out == TranslateOne(m, stringify)
  {
    var text := TextOf(m.content);
    if m.role == Assistant {
      return [AssistantOut(if text == "" then None else Some(text), CallsOut(m.content, stringify))];
    }
    var results := SendResults(m.content);
    return results + if text == "" then [] else [UserOut(text)];
  }

  lemma TranslateMore(system: string, messages: seq<Message>, n: nat, stringify: Json -> string)
    requires n < |messages|
    ensures Translate(system, messages[..n + 1], stringify)
         == Translate(system, messages[..n], stringify) + TranslateOne(messages[n], stringify)
  {
    assert messages[..n + 1][..n] == messages[..n];
  }

  method ToOpenAIMessages(system: string, messages: seq<Message>, stringify: Json -> string) returns (out: seq<Wire>)
    ensures out == Translate(system, messages, stringify)
  {
    out := [SystemOut(system)];
    var i := 0;
    while i < |messages|
      invariant 0 <= i <= |messages| && out == Translate(system, messages[..i], stringify)
    {
      TranslateMore(system, messages, i, stringify);
      var more := SendMessage(messages[i], stringify);
      out := out + more;
      i := i + 1;
    }
    assert messages[..i] == messages;
  }

  // ---- Tool calls stay paired ----

  /** The ids still to be answered after some entries, None once an entry has come out of place. */
  function Pending(out: seq<Wire>): Option<seq<string>> {
    if out == [] then Some([]) else Await(Pending(out[..|out| - 1]), out[|out| - 1])
  }

  function Await(ids: Option<seq<string>>, entry: Wire): Option<seq<string>> {
    if ids.None? then None
    else match entry
      case ToolOut(id, _) => if ids.value != [] && ids.value[0] == id then Some(ids.value[1..]) else None
      case AssistantOut(_, calls) => if ids.value == [] then Some(CallIds(calls)) else None
      case _ => if ids.value == [] then Some([]) else None
  }

  function CallIds(calls: seq<CallOut>): seq<string> {
    seq(|calls|, i requires 0 <= i < |calls| => calls[i].id)
  }

  /**
   * Tool entries come straight after the assistant entry that called them, one for
   * each call, in order, and nowhere else.
   */
  predicate WirePaired(out: seq<Wire>) {
    Pending(out) == Some([])
  }

  lemma PendingMore(out: seq<Wire>, entry: Wire)
    ensures Pending(out + [entry]) == Await(Pending(out), entry)
  {
    assert (out + [entry])[..|out|] == out;
  }

  /** The entries after `i`, as far as there are any, are the answers to its calls, in order. */
  predicate AnswersFollow(out: seq<Wire>, i: nat)
    requires i < |out| && out[i].AssistantOut?
  {
    forall k :: i < k < |out| && k <= i + |out[i].calls| ==>
      out[k].ToolOut? && out[k].id == out[i].calls[k - i - 1].id
  }

  /** If `i` is an assistant entry its calls are answered, all of them or all but these. */
  predicate Owes(out: seq<Wire>, i: nat, ids: seq<string>) {
    i < |out| && out[i].AssistantOut? ==>
      AnswersFollow(out, i)
      && (i + |out[i].calls| < |out| || (ids != [] && ids == CallIds(out[i].calls)[|out| - i - 1..]))
  }

  /** Entry `k` is in the place of an answer to a call of the assistant entry at `i`. */
  predicate InPlace(out: seq<Wire>, i: nat, k: nat) {
    i < k < |out| && out[i].AssistantOut? && k <= i + |out[i].calls|
  }

  ghost predicate HasPlace(out: seq<Wire>, k: nat) {
    k < |out| && out[k].ToolOut? ==> exists i: nat :: InPlace(out, i, k)
  }

  /** What is still to be answered is owed by some entry. */
  predicate Debtor(out: seq<Wire>, i: nat) {
    i < |out| && out[i].AssistantOut? && i + |out[i].calls| >= |out|
  }

  lemma OneEntryMore(out: seq<Wire>, entry: Wire, ids: seq<string>, i: nat)
    requires Owes(out, i, ids) && Await(Some(ids), entry).Some?
    ensures Owes(out + [entry], i, Await(Some(ids), entry).value)
  {
    if i < |out| && out[i].AssistantOut? && i + |out[i].calls| >= |out| {
      assert ids[0] == out[i].calls[|out| - i - 1].id;
    }
  }

  lemma OnePlaceMore(out: seq<Wire>, entry: Wire, ids: seq<string>, k: nat)
    requires HasPlace(out, k) && Await(Some(ids), entry).Some?
    requires ids != [] ==> exists i: nat :: Debtor(out, i)
    ensures HasPlace(out + [entry], k)
  {
    var more := out + [entry];
    if k < |out| && out[k].ToolOut? {
      var i: nat :| InPlace(out, i, k);
      assert InPlace(more, i, k);
    } else if k == |out| && entry.ToolOut? {
      var i: nat :| Debtor(out, i);
      assert InPlace(more, i, k);
    }
  }

  lemma DebtorMore(out: seq<Wire>, entry: Wire, ids: seq<string>)
    requires Await(Some(ids), entry).Some? && Await(Some(ids), entry).value != []
    requires ids != [] ==> exists i: nat :: Debtor(out, i) && Owes(out, i, ids)
    ensures exists i: nat :: Debtor(out + [entry], i) && Owes(out + [entry], i, Await(Some(ids), entry).value)
  {
    var more, left := out + [entry], Await(Some(ids), entry).value;
    if ids != [] {
      var i: nat :| Debtor(out, i) && Owes(out, i, ids);
      OneEntryMore(out, entry, ids, i);
      assert |ids| == i + |out[i].calls| + 1 - |out|;
      assert Debtor(more, i) && Owes(more, i, left);
    } else {
      assert Debtor(more, |out|) && Owes(more, |out|, left);
    }
  }

  /** What it means that just these are still to be answered. */
  lemma {:induction false} PendingMeans(out: seq<Wire>, i: nat, k: nat)
    requires Pending(out).Some?
    ensures Owes(out, i, Pending(out).value) && HasPlace(out, k)
    ensures Pending(out).value != [] ==> exists i: nat :: Debtor(out, i) && Owes(out, i, Pending(out).value)
  {
    if out != [] {
      var before, entry := out[..|out| - 1], out[|out| - 1];
      assert out == before + [entry];
      PendingMeans(before, i, k);
      var ids := Pending(before).value;
      OneEntryMore(before, entry, ids, i);
      OnePlaceMore(before, entry, ids, k);
      if Pending(out).value != [] {
        DebtorMore(before, entry, ids);
      }
    }
  }

  /**
   * So in a paired request each call of an assistant entry has its answer in the
   * entries right behind it, in order, and every answer stands in such a place.
   */
  lemma {:induction false} WirePairedMeans(out: seq<Wire>, i: nat, k: nat)
    requires WirePaired(out)
    ensures i < |out| && out[i].AssistantOut? ==> i + |out[i].calls| < |out| && AnswersFollow(out, i)
    ensures k < |out| && out[k].ToolOut? ==> exists i: nat :: InPlace(out, i, k)
  {
    PendingMeans(out, i, k);
  }

  lemma {:induction false} CallsAreUses(content: seq<Block>, stringify: Json -> string)
    ensures AllUses(ToolUses(content)) && CallIds(CallsOut(content, stringify)) == Ids(ToolUses(content))
  {
    ToolUsesAreUses(content);
    if content != [] {
      CallsAreUses(content[..|content| - 1], stringify);
      var before := CallsOut(content[..|content| - 1], stringify);
      assert CallIds(CallsOut(content, stringify))[..|before|] == CallIds(before);
    }
    assert CallIds(CallsOut(content, stringify)) == Ids(ToolUses(content));
  }

  lemma {:induction false} AnswersSettle(out: seq<Wire>, content: seq<Block>, ids: seq<string>, n: nat)
    requires Pending(out) == Some(ids) && Answers(content, ids) && n <= |ids|
    ensures Pending(out + ResultsOut(content[..n])) == Some(ids[n..])
  {
    if n == 0 {
      assert out + [] == out;
    } else {
      var before, last := ResultsOut(content[..n - 1]), ToolOut(content[n - 1].useId, content[n - 1].output);
      assert content[..n][..n - 1] == content[..n - 1];
      AnswersSettle(out, content, ids, n - 1);
      PendingMore(out + before, last);
      assert out + before + [last] == out + ResultsOut(content[..n]);
      assert ids[n - 1..][1..] == ids[n..];
    }
  }

  lemma {:induction false} NoResultsOut(content: seq<Block>)
    requires !HasResults(content)
    ensures ResultsOut(content) == []
  {
    if content != [] {
      assert forall i :: 0 <= i < |content| - 1 ==> content[..|content| - 1][i] == content[i];
      NoResultsOut(content[..|content| - 1]);
    }
  }

  lemma {:induction false} AnswersSayNothing(content: seq<Block>)
    requires forall i :: 0 <= i < |content| ==> content[i].ToolResult?
    ensures TextOf(content) == ""
  {
    if content != [] {
      AnswersSayNothing(content[..|content| - 1]);
    }
  }

  /** What the first n messages of a paired conversation leave to be answered: the uses of the last of them. */
  function OpenAfter(messages: seq<Message>, n: nat): seq<string>
    requires n <= |messages|
  {
    if n > 0 && Asks(messages, n - 1) then AskedIds(messages, n - 1) else []
  }

  lemma AssistantOpens(out: seq<Wire>, messages: seq<Message>, i: nat, stringify: Json -> string)
    requires i < |messages| && messages[i].role == Assistant && Pending(out) == Some([])
    ensures Pending(out + TranslateOne(messages[i], stringify)) == Some(OpenAfter(messages, i + 1))
  {
    var content := messages[i].content;
    var text := TextOf(content);
    CallsAreUses(content, stringify);
    PendingMore(out, AssistantOut(if text == "" then None else Some(text), CallsOut(content, stringify)));
  }

  lemma UserAnswers(out: seq<Wire>, m: Message, ids: seq<string>, stringify: Json -> string)
    requires m.role == User && Answers(m.content, ids) && Pending(out) == Some(ids)
    ensures Pending(out + TranslateOne(m, stringify)) == Some([])
  {
    AnswersSettle(out, m.content, ids, |ids|);
    assert m.content[..|ids|] == m.content && ids[|ids|..] == [];
    AnswersSayNothing(m.content);
    assert TranslateOne(m, stringify) == ResultsOut(m.content);
  }

  lemma UserSpeaks(out: seq<Wire>, m: Message, stringify: Json -> string)
    requires m.role == User && !HasResults(m.content) && Pending(out) == Some([])
    ensures Pending(out + TranslateOne(m, stringify)) == Some([])
  {
    NoResultsOut(m.content);
    var text := TextOf(m.content);
    if text == "" {
      assert out + TranslateOne(m, stringify) == out;
    } else {
      assert TranslateOne(m, stringify) == [UserOut(text)];
      PendingMore(out, UserOut(text));
    }
  }

  /** One more message of a paired conversation. */
  lemma MessagePending(out: seq<Wire>, messages: seq<Message>, i: nat, stringify: Json -> string)
    requires Paired(messages) && i < |messages| && Pending(out) == Some(OpenAfter(messages, i))
    ensures Pending(out + TranslateOne(messages[i], stringify)) == Some(OpenAfter(messages, i + 1))
  {
    if messages[i].role == Assistant {
      assert i == 0 || !Asks(messages, i - 1);
      AssistantOpens(out, messages, i, stringify);
    } else if i > 0 && Asks(messages, i - 1) {
      UserAnswers(out, messages[i], AskedIds(messages, i - 1), stringify);
    } else {
      assert !HasResults(messages[i].content);
      UserSpeaks(out, messages[i], stringify);
    }
  }

  lemma {:induction false} PrefixPending(system: string, messages: seq<Message>, stringify: Json -> string, n: nat)
    requires Paired(messages) && n <= |messages|
    ensures Pending(Translate(system, messages[..n], stringify)) == Some(OpenAfter(messages, n))
  {
    if n == 0 {
      PendingMore([], SystemOut(system));
      assert [] + [SystemOut(system)] == [SystemOut(system)];
    } else {
      var out := Translate(system, messages[..n - 1], stringify);
      TranslateMore(system, messages, n - 1, stringify);
      assert Translate(system, messages[..n], stringify) == out + TranslateOne(messages[n - 1], stringify);
      PrefixPending(system, messages, stringify, n - 1);
      MessagePending(out, messages, n - 1, stringify);
    }
  }

  /** A paired conversation is translated to a paired one. */
  lemma {:induction false} TranslationKeepsPairs(system: string, messages: seq<Message>, stringify: Json -> string)
    requires Paired(messages)
    ensures WirePaired(Translate(system, messages, stringify))
  {
    PrefixPending(system, messages, stringify, |messages|);
    assert messages[..|messages|] == messages;
    assert messages == [] || !Asks(messages, |messages| - 1);
  }

  lemma {:induction false} SentIsPaired(step: seq<Message> -> Iteration, messages: seq<Message>, left: nat)
    requires PairingStep(step) && Paired(messages)
    ensures |Sent(step, messages, left)| <= left
    ensures forall m :: m in Sent(step, messages, left) ==> Paired(m)
    decreases left
  {
    if left > 0 && !step(messages).done {
      SentIsPaired(step, step(messages).messages, left - 1);
    }
  }

  /** Every request the loop makes is well formed for the protocol, whatever the model and the tools did before it. */
  lemma {:induction false} EveryRequestIsPaired(w: World, messages: seq<Message>, maxSteps: nat, system: string,
                                                stringify: Json -> string)
    requires Paired(messages)
    ensures |Sent(Stepper(w), messages, maxSteps)| <= maxSteps
    ensures forall m :: m in Sent(Stepper(w), messages, maxSteps) ==> WirePaired(Translate(system, m, stringify))
  {
    StepperPairs(w);
    SentIsPaired(Stepper(w), messages, maxSteps);
    forall m | m in Sent(Stepper(w), messages, maxSteps) ensures WirePaired(Translate(system, m, stringify)) {
      TranslationKeepsPairs(system, m, stringify);
    }
  }

  // ---- Nothing said is lost ----

  /** What a conversation says, calls and answers, in order. */
  datatype Act = Says(role: Role, text: string) | Calls(call: CallOut) | Gives(id: string, output: string)

  function Saying(role: Role, text: string): seq<Act> {
    if text == "" then [] else [Says(role, text)]
  }

  function BlockActs(content: seq<Block>, role: Role, stringify: Json -> string): seq<Act> {
    if content == [] then []
    else
      var before, last := BlockActs(content[..|content| - 1], role, stringify), content[|content| - 1];
      match role
      case Assistant =>
        if last.ToolUse? then before + [Calls(CallOut(last.id, last.name, stringify(last.input)))] else before
      case User => if last.ToolResult? then before + [Gives(last.useId, last.output)] else before
  }

  /** An assistant speaks before it calls; a user message answers before it speaks. */
  function MessageActs(m: Message, stringify: Json -> string): seq<Act> {
    var blocks, said := BlockActs(m.content, m.role, stringify), Saying(m.role, TextOf(m.content));
    if m.role == Assistant then said + blocks else blocks + said
  }

  function Acts(messages: seq<Message>, stringify: Json -> string): seq<Act> {
    if messages == [] then []
    else Acts(messages[..|messages| - 1], stringify) + MessageActs(messages[|messages| - 1], stringify)
  }

  function EntryActs(entry: Wire): seq<Act> {
    match entry
    case SystemOut(_) => []
    case UserOut(text) => [Says(User, text)]
    case AssistantOut(content, calls) =>
      (if content.Some? then [Says(Assistant, content.value)] else [])
      + seq(|calls|, i requires 0 <= i < |calls| => Calls(calls[i]))
    case ToolOut(id, output) => [Gives(id, output)]
  }

  /** What each element gives, one after another. */
  function Flat<A, B>(f: A -> seq<B>, xs: seq<A>): seq<B> {
    if xs == [] then [] else Flat(f, xs[..|xs| - 1]) + f(xs[|xs| - 1])
  }

  lemma FlatMore<A, B>(f: A -> seq<B>, xs: seq<A>, x: A)
    ensures Flat(f, xs + [x]) == Flat(f, xs) + f(x)
  {
    assert (xs + [x])[..|xs|] == xs;
  }

  lemma {:induction false} FlatInTwo<A, B>(f: A -> seq<B>, first: seq<A>, second: seq<A>)
    ensures Flat(f, first + second) == Flat(f, first) + Flat(f, second)
  {
    if second == [] {
      assert first + [] == first && Flat(f, first) + [] == Flat(f, first);
    } else {
      var before, last := second[..|second| - 1], second[|second| - 1];
      FlatInTwo(f, first, before);
      FlatMore(f, first + before, last);
      assert first + second == first + before + [last];
      assert Flat(f, first) + Flat(f, before) + f(last) == Flat(f, first) + (Flat(f, before) + f(last));
    }
  }

  function WireActs(out: seq<Wire>): seq<Act> {
    Flat(EntryActs, out)
  }

  lemma WireActsInTwo(first: seq<Wire>, second: seq<Wire>)
    ensures WireActs(first + second) == WireActs(first) + WireActs(second)
  {
    FlatInTwo(EntryActs, first, second);
  }

  lemma {:induction false} CallsAreActs(content: seq<Block>, stringify: Json -> string)
    ensures var calls := CallsOut(content, stringify);
      BlockActs(content, Assistant, stringify) == seq(|calls|, i requires 0 <= i < |calls| => Calls(calls[i]))
  {
    if content != [] {
      CallsAreActs(content[..|content| - 1], stringify);
    }
  }

  lemma {:induction false} ResultsAreActs(content: seq<Block>, stringify: Json -> string)
    ensures BlockActs(content, User, stringify) == WireActs(ResultsOut(content))
  {
    if content != [] {
      var before := ResultsOut(content[..|content| - 1]);
      ResultsAreActs(content[..|content| - 1], stringify);
      assert ResultsOut(content) == before || ResultsOut(content)[..|before|] == before;
    }
  }

  lemma OneEntryActs(entry: Wire)
    ensures WireActs([entry]) == EntryActs(entry)
  {
    FlatMore(EntryActs, [], entry);
    assert [] + [entry] == [entry] && [] + EntryActs(entry) == EntryActs(entry);
  }

  lemma MessageIsTranslated(m: Message, stringify: Json -> string)
    ensures WireActs(TranslateOne(m, stringify)) == MessageActs(m, stringify)
  {
    var text := TextOf(m.content);
    if m.role == Assistant {
      CallsAreActs(m.content, stringify);
      OneEntryActs(AssistantOut(if text == "" then None else Some(text), CallsOut(m.content, stringify)));
    } else {
      ResultsAreActs(m.content, stringify);
      if text == "" {
        assert TranslateOne(m, stringify) == ResultsOut(m.content);
      } else {
        WireActsInTwo(ResultsOut(m.content), [UserOut(text)]);
        OneEntryActs(UserOut(text));
      }
    }
  }

  /** The translation of any conversation says, calls and answers what the conversation does, in the same order. */
  lemma {:induction false} TranslationKeepsActs(system: string, messages: seq<Message>, stringify: Json -> string)
    ensures WireActs(Translate(system, messages, stringify)) == Acts(messages, stringify)
  {
    if messages == [] {
      OneEntryActs(SystemOut(system));
    } else {
      var before, m := messages[..|messages| - 1], messages[|messages| - 1];
      TranslationKeepsActs(system, before, stringify);
      WireActsInTwo(Translate(system, before, stringify), TranslateOne(m, stringify));
      MessageIsTranslated(m, stringify);
    }
  }

  lemma {:induction false} ResultsAreTools(content: seq<Block>)
    ensures forall i :: 0 <= i < |ResultsOut(content)| ==> ResultsOut(content)[i].ToolOut?
  {
    if content != [] {
      ResultsAreTools(content[..|content| - 1]);
    }
  }

  /** The system text comes first, and only there. */
  lemma {:induction false} SystemComesFirst(system: string, messages: seq<Message>, stringify: Json -> string)
    ensures var out := Translate(system, messages, stringify);
      && out != [] && out[0] == SystemOut(system)
      && forall i :: 0 < i < |out| ==> !out[i].SystemOut?
  {
    if messages != [] {
      SystemComesFirst(system, messages[..|messages| - 1], stringify);
      ResultsAreTools(messages[|messages| - 1].content);
    }
  }

  // ---- Fragments in ----

  /** Where a field is absent or empty the source skips it, so "" stands for both. */
  datatype Fragment = Fragment(index: int, id: string, name: string, args: string)

  datatype Chunk = NoChoice | Chunk(content: string, calls: seq<Fragment>)

  datatype Slot = Slot(id: string, name: string, args: string)

  const EMPTY_SLOT := Slot("", "", "")

  function Fill(slot: Slot, f: Fragment): Slot {
    Slot(if f.id != "" then f.id else slot.id, if f.name != "" then f.name else slot.name, slot.args + f.args)
  }

  type Slots = map<int, Slot>

  function Take(slots: Slots, f: Fragment): Slots {
    slots[f.index := Fill(if f.index in slots then slots[f.index] else EMPTY_SLOT, f)]
  }

  function TakeAll(slots: Slots, fragments: seq<Fragment>): Slots {
    if fragments == [] then slots
    else Take(TakeAll(slots, fragments[..|fragments| - 1]), fragments[|fragments| - 1])
  }

  function Fragments(chunks: seq<Chunk>): seq<Fragment> {
    if chunks == [] then []
    else
      var last := chunks[|chunks| - 1];
      Fragments(chunks[..|chunks| - 1]) + if last.Chunk? then last.calls else []
  }

  function StreamText(chunks: seq<Chunk>): string {
    if chunks == [] then ""
    else
      var last := chunks[|chunks| - 1];
      StreamText(chunks[..|chunks| - 1]) + if last.Chunk? then last.content else ""
  }

  function StreamDeltas(chunks: seq<Chunk>): seq<string> {
    if chunks == [] then []
    else
      var before, last := StreamDeltas(chunks[..|chunks| - 1]), chunks[|chunks| - 1];
      if last.Chunk? && last.content != "" then before + [last.content] else before
  }

  predicate IsLeast(keys: set<int>, k: int) {
    k in keys && forall j :: j in keys ==> k <= j
  }

  lemma EmptyOrNot(keys: set<int>)
    ensures keys == {} || exists k :: k in keys
  {
    if forall k :: k !in keys {
      assert keys == {};
    }
  }

  lemma {:induction false} FindLeast(keys: set<int>) returns (least: int)
    requires keys != {}
    ensures IsLeast(keys, least)
    decreases |keys|
  {
    EmptyOrNot(keys);
    var k :| k in keys;
    var rest := keys - {k};
    assert keys == rest + {k};
    if rest == {} {
      least := k;
    } else {
      var m := FindLeast(rest);
      least := if k < m then k else m;
    }
  }

  lemma LeastExists(keys: set<int>)
    requires keys != {}
    ensures exists k :: IsLeast(keys, k)
  {
    var k := FindLeast(keys);
  }

  /** A set of indices in increasing order. */
  function Sorted(keys: set<int>): seq<int>
    decreases |keys|
  {
    if keys == {} then []
    else
      LeastExists(keys);
      var k :| IsLeast(keys, k);
      [k] + Sorted(keys - {k})
  }

  function ToolBlocks(slots: Slots, order: seq<int>, parse: string -> Json): seq<Block>
    requires forall i :: 0 <= i < |order| ==> order[i] in slots
  {
    seq(|order|, i requires 0 <= i < |order| =>
      ToolUse(slots[order[i]].id, slots[order[i]].name, parse(slots[order[i]].args)))
  }

  ghost predicate Ascending(s: seq<int>) {
    forall i, j :: 0 <= i < j < |s| ==> s[i] < s[j]
  }

  lemma LeastAndRest(k: int, rest: seq<int>)
    requires Ascending(rest) && forall x :: x in rest ==> k < x
    ensures Ascending([k] + rest)
  {
    assert forall i :: 0 <= i < |rest| ==> rest[i] in rest;
  }

  lemma {:induction false} SortedIsExact(keys: set<int>)
    ensures Ascending(Sorted(keys)) && forall k :: k in Sorted(keys) <==> k in keys
    decreases |keys|
  {
    if keys != {} {
      LeastExists(keys);
      var k := Sorted(keys)[0];
      var rest := Sorted(keys - {k});
      assert Sorted(keys) == [k] + rest && IsLeast(keys, k);
      SortedIsExact(keys - {k});
      LeastAndRest(k, rest);
    }
  }

  /** The blocks a stream's text and slots amount to. */
  function Assemble(text: string, slots: Slots, parse: string -> Json): seq<Block> {
    SortedIsExact(slots.Keys);
    (if text == "" then [] else [Text(text)]) + ToolBlocks(slots, Sorted(slots.Keys), parse)
  }

  function ContentOf(chunks: seq<Chunk>, parse: string -> Json): seq<Block> {
    Assemble(StreamText(chunks), TakeAll(map[], Fragments(chunks)), parse)
  }

  /** The stream's text grows, and is shown as it grows, while fragments fill the slot of their index. */
  method Chat(chunks: seq<Chunk>, parse: string -> Json) returns (content: seq<Block>, deltas: seq<string>)
    ensures content == ContentOf(chunks, parse) && deltas == StreamDeltas(chunks)
  {
    var text := "";
    var slots: Slots := map[];
    deltas := [];
    var i := 0;
    while i < |chunks|
      invariant 0 <= i <= |chunks| && text == StreamText(chunks[..i]) && deltas == StreamDeltas(chunks[..i])
      invariant slots == TakeAll(map[], Fragments(chunks[..i]))
    {
      assert chunks[..i + 1] == chunks[..i] + [chunks[i]];
      StreamMore(chunks[..i], chunks[i]);
      if chunks[i].Chunk? {
        if chunks[i].content != "" {
          text, deltas := text + chunks[i].content, deltas + [chunks[i].content];
        }
        TakeAllInTwo(map[], Fragments(chunks[..i]), chunks[i].calls);
        slots := FillSlots(slots, chunks[i].calls);
      }
      i := i + 1;
    }
    assert chunks[..i] == chunks;
    content := if text == "" then [] else [Text(text)];
    SortedIsExact(slots.Keys);
    content := content + ToolBlocks(slots, Sorted(slots.Keys), parse);
  }

  lemma StreamMore(chunks: seq<Chunk>, c: Chunk)
    ensures Fragments(chunks + [c]) == if c.Chunk? then Fragments(chunks) + c.calls else Fragments(chunks)
    ensures StreamText(chunks + [c]) == if c.Chunk? then StreamText(chunks) + c.content else StreamText(chunks)
    ensures StreamDeltas(chunks + [c])
         == if c.Chunk? && c.content != "" then StreamDeltas(chunks) + [c.content] else StreamDeltas(chunks)
  {
    assert (chunks + [c])[..|chunks|] == chunks;
  }

  lemma TakeMore(slots: Slots, calls: seq<Fragment>, n: nat)
    requires n < |calls|
    ensures TakeAll(slots, calls[..n + 1]) == Take(TakeAll(slots, calls[..n]), calls[n])
  {
    assert calls[..n + 1][..n] == calls[..n];
  }

  method FillSlots(before: Slots, calls: seq<Fragment>) returns (slots: Slots)
    ensures slots == TakeAll(before, calls)
  {
    slots := before;
    var i := 0;
    while i < |calls|
      invariant 0 <= i <= |calls| && slots == TakeAll(before, calls[..i])
    {
      TakeMore(before, calls, i);
      var f := calls[i];
      var slot := if f.index in slots then slots[f.index] else EMPTY_SLOT;
      if f.id != "" {
        slot := slot.(id := f.id);
      }
      if f.name != "" {
        slot := slot.(name := f.name);
      }
      slot := slot.(args := slot.args + f.args);
      slots := slots[f.index := slot];
      i := i + 1;
    }
    assert calls[..i] == calls;
  }

  lemma {:induction false} TakeAllInTwo(slots: Slots, first: seq<Fragment>, second: seq<Fragment>)
    ensures TakeAll(slots, first + second) == TakeAll(TakeAll(slots, first), second)
  {
    if second == [] {
      assert first + [] == first;
    } else {
      var all := first + second;
      assert all[..|all| - 1] == first + second[..|second| - 1];
      TakeAllInTwo(slots, first, second[..|second| - 1]);
    }
  }

  // ---- Only the order within an index matters ----

  function OfIndex(fragments: seq<Fragment>, index: int): seq<Fragment> {
    if fragments == [] then []
    else
      var before, last := OfIndex(fragments[..|fragments| - 1], index), fragments[|fragments| - 1];
      if last.index == index then before + [last] else before
  }

  function FillAll(slot: Slot, fragments: seq<Fragment>): Slot {
    if fragments == [] then slot
    else Fill(FillAll(slot, fragments[..|fragments| - 1]), fragments[|fragments| - 1])
  }

  /** A slot is there when its index has a fragment, and holds what those fragments alone make. */
  lemma {:induction false} SlotsAreProjections(fragments: seq<Fragment>, index: int)
    ensures var slots := TakeAll(map[], fragments);
      && (index in slots <==> OfIndex(fragments, index) != [])
      && (index in slots ==> slots[index] == FillAll(EMPTY_SLOT, OfIndex(fragments, index)))
  {
    if fragments != [] {
      var before, last := fragments[..|fragments| - 1], fragments[|fragments| - 1];
      SlotsAreProjections(before, index);
      if last.index == index {
        assert OfIndex(fragments, index)[..|OfIndex(before, index)|] == OfIndex(before, index);
      }
    }
  }

  function AtIndex(index: int): Fragment -> bool {
    (f: Fragment) => f.index == index
  }

  lemma OneMoreOfIndex(fragments: seq<Fragment>, before: seq<Fragment>, f: Fragment, some: seq<Fragment>,
                       more: seq<Fragment>, index: int)
    requires fragments == before + [f] && Picks(before, some, AtIndex(index))
    requires more == if f.index == index then some + [f] else some
    ensures Picks(fragments, more, AtIndex(index))
  {
    PicksMore(before, some, AtIndex(index), f);
  }

  lemma {:induction false} OfIndexPicks(fragments: seq<Fragment>, index: int)
    ensures Picks(fragments, OfIndex(fragments, index), AtIndex(index))
  {
    if fragments == [] {
      PicksNone(AtIndex(index));
    } else {
      var before, last := fragments[..|fragments| - 1], fragments[|fragments| - 1];
      OfIndexPicks(before, index);
      OneMoreOfIndex(fragments, before, last, OfIndex(before, index), OfIndex(fragments, index), index);
    }
  }

  /** The last text given, "" where none is. */
  ghost predicate LastGiven(given: seq<string>, t: string) {
    if t == "" then forall i :: 0 <= i < |given| ==> given[i] == ""
    else exists k :: 0 <= k < |given| && given[k] == t && forall i :: k < i < |given| ==> given[i] == ""
  }

  lemma LastGivenMore(given: seq<string>, t: string, next: string, longer: seq<string>, after: string)
    requires LastGiven(given, t) && longer == given + [next]
    requires after == if next != "" then next else t
    ensures LastGiven(longer, after)
  {
    if next != "" {
      assert longer[|given|] == after;
    } else if t != "" {
      var k :| 0 <= k < |given| && given[k] == t && forall i :: k < i < |given| ==> given[i] == "";
      assert longer[k] == t;
    }
  }

  function IdsOf(fs: seq<Fragment>): seq<string> {
    seq(|fs|, i requires 0 <= i < |fs| => fs[i].id)
  }

  function NamesOf(fs: seq<Fragment>): seq<string> {
    seq(|fs|, i requires 0 <= i < |fs| => fs[i].name)
  }

  function ArgsOf(fs: seq<Fragment>): seq<string> {
    seq(|fs|, i requires 0 <= i < |fs| => fs[i].args)
  }

  /** A slot has the last id and the last name given, and all the arguments, one after another. */
  lemma {:induction false} SlotIsSpelled(fs: seq<Fragment>)
    ensures var slot := FillAll(EMPTY_SLOT, fs);
      LastGiven(IdsOf(fs), slot.id) && LastGiven(NamesOf(fs), slot.name) && slot.args == Concat(ArgsOf(fs))
  {
    if fs != [] {
      var before, f := fs[..|fs| - 1], fs[|fs| - 1];
      var was, slot := FillAll(EMPTY_SLOT, before), FillAll(EMPTY_SLOT, fs);
      SlotIsSpelled(before);
      LastGivenMore(IdsOf(before), was.id, f.id, IdsOf(fs), slot.id);
      LastGivenMore(NamesOf(before), was.name, f.name, NamesOf(fs), slot.name);
      assert ArgsOf(fs)[..|before|] == ArgsOf(before);
    }
  }

  ghost predicate Spells(fs: seq<Fragment>, call: Block, parse: string -> Json) {
    && call.ToolUse? && LastGiven(IdsOf(fs), call.id) && LastGiven(NamesOf(fs), call.name)
    && call.input == parse(Concat(ArgsOf(fs)))
  }

  /**
   * The tool call of an index, from all that was streamed: the fragments of that
   * index and no others, with the last id and name they gave and all their arguments.
   */
  lemma {:induction false} CallIsSpelled(fragments: seq<Fragment>, index: int, parse: string -> Json)
    ensures exists fs :: Picks(fragments, fs, AtIndex(index)) && Spells(fs, CallOf(fragments, index, parse), parse)
  {
    OfIndexPicks(fragments, index);
    SlotIsSpelled(OfIndex(fragments, index));
  }

  /** Two streams with the same text and, index by index, the same fragments come to the same content. */
  lemma {:induction false} OnlyProjectionsMatter(first: seq<Chunk>, second: seq<Chunk>, parse: string -> Json)
    requires StreamText(first) == StreamText(second)
    requires forall index :: OfIndex(Fragments(first), index) == OfIndex(Fragments(second), index)
    ensures ContentOf(first, parse) == ContentOf(second, parse)
  {
    var f, g := TakeAll(map[], Fragments(first)), TakeAll(map[], Fragments(second));
    forall index ensures index in f <==> index in g {
      SlotsAreProjections(Fragments(first), index);
      SlotsAreProjections(Fragments(second), index);
    }
    forall index | index in f ensures f[index] == g[index] {
      SlotsAreProjections(Fragments(first), index);
      SlotsAreProjections(Fragments(second), index);
    }
    assert f.Keys == g.Keys;
    assert f == g;
  }

  /** The tool call that the fragments of one index spell. */
  function CallOf(fragments: seq<Fragment>, index: int, parse: string -> Json): Block {
    var slot := FillAll(EMPTY_SLOT, OfIndex(fragments, index));
    ToolUse(slot.id, slot.name, parse(slot.args))
  }

  /**
   * One tool block for each index that has a fragment, in increasing order of
   * index, after the text if there is any.
   */
  lemma {:induction false} OneBlockPerIndex(chunks: seq<Chunk>, parse: string -> Json)
    ensures var fragments := Fragments(chunks);
      var order := Sorted(TakeAll(map[], fragments).Keys);
      && Ascending(order) && (forall index :: index in order <==> OfIndex(fragments, index) != [])
      && ContentOf(chunks, parse) == (if StreamText(chunks) == "" then [] else [Text(StreamText(chunks))])
           + seq(|order|, i requires 0 <= i < |order| => CallOf(fragments, order[i], parse))
  {
    var fragments := Fragments(chunks);
    var slots := TakeAll(map[], fragments);
    SortedIsExact(slots.Keys);
    forall index ensures index in Sorted(slots.Keys) <==> OfIndex(fragments, index) != [] {
      SlotsAreProjections(fragments, index);
    }
    BlocksAreCalls(fragments, Sorted(slots.Keys), parse);
  }

  lemma BlocksAreCalls(fragments: seq<Fragment>, order: seq<int>, parse: string -> Json)
    requires forall i :: 0 <= i < |order| ==> order[i] in TakeAll(map[], fragments)
    ensures ToolBlocks(TakeAll(map[], fragments), order, parse)
         == seq(|order|, i requires 0 <= i < |order| => CallOf(fragments, order[i], parse))
  {
    forall i | 0 <= i < |order|
      ensures ToolBlocks(TakeAll(map[], fragments), order, parse)[i] == CallOf(fragments, order[i], parse)
    {
      SlotsAreProjections(fragments, order[i]);
    }
  }

  lemma {:induction false} FragmentsInTwo(first: seq<Chunk>, second: seq<Chunk>)
    ensures Fragments(first + second) == Fragments(first) + Fragments(second)
  {
    if second == [] {
      assert first + [] == first;
    } else {
      var all := first + second;
      assert all[..|all| - 1] == first + second[..|second| - 1];
      FragmentsInTwo(first, second[..|second| - 1]);
    }
  }

  lemma {:induction false} TextInTwo(first: seq<Chunk>, second: seq<Chunk>)
    ensures StreamText(first + second) == StreamText(first) + StreamText(second)
  {
    if second == [] {
      assert first + [] == first;
    } else {
      var rest, last := second[..|second| - 1], second[|second| - 1];
      TextInTwo(first, rest);
      assert first + second == first + rest + [last] && (first + rest + [last])[..|first + rest|] == first + rest;
      var a, b, c := StreamText(first), StreamText(rest), if last.Chunk? then last.content else "";
      assert StreamText(second) == b + c;
      assert StreamText(first + rest + [last]) == (a + b) + c;
      assert (a + b) + c == a + (b + c);
    }
  }

  lemma StreamInTwo(first: seq<Chunk>, second: seq<Chunk>)
    ensures Fragments(first + second) == Fragments(first) + Fragments(second)
    ensures StreamText(first + second) == StreamText(first) + StreamText(second)
  {
    FragmentsInTwo(first, second);
    TextInTwo(first, second);
  }

  /** The two fragments that an arguments fragment comes in when it is cut. */
  function FirstHalf(f: Fragment, cut: nat): Fragment
    requires cut <= |f.args|
  {
    f.(args := f.args[..cut])
  }

  function SecondHalf(f: Fragment, cut: nat): Fragment
    requires cut <= |f.args|
  {
    Fragment(f.index, "", "", f.args[cut..])
  }

  lemma HalvesFillAlike(slots: Slots, before: seq<Fragment>, f: Fragment, cut: nat, after: seq<Fragment>)
    requires cut <= |f.args|
    ensures TakeAll(slots, before + [f] + after)
         == TakeAll(slots, before + [FirstHalf(f, cut), SecondHalf(f, cut)] + after)
  {
    var halves := [FirstHalf(f, cut), SecondHalf(f, cut)];
    TakeAllInTwo(slots, before + [f], after);
    TakeAllInTwo(slots, before + halves, after);
    TakeAllInTwo(slots, before, [f]);
    TakeAllInTwo(slots, before, halves);
    TakeHalves(TakeAll(slots, before), f, cut);
  }

  lemma {:induction false} MiddleOfStream(before: seq<Chunk>, middle: seq<Chunk>, after: seq<Chunk>)
    ensures Fragments(before + middle + after) == Fragments(before) + Fragments(middle) + Fragments(after)
    ensures StreamText(before + middle + after) == StreamText(before) + StreamText(middle) + StreamText(after)
  {
    StreamInTwo(before + middle, after);
    StreamInTwo(before, middle);
  }

  /** Two streams that differ in one stretch, where their text and the slots they fill agree, have one content. */
  lemma {:induction false} SameStretch(before: seq<Chunk>, one: seq<Chunk>, other: seq<Chunk>, after: seq<Chunk>,
                                       parse: string -> Json)
    requires StreamText(one) == StreamText(other)
    requires forall slots: Slots :: TakeAll(slots, Fragments(one)) == TakeAll(slots, Fragments(other))
    ensures ContentOf(before + one + after, parse) == ContentOf(before + other + after, parse)
  {
    MiddleOfStream(before, one, after);
    MiddleOfStream(before, other, after);
    var fragments := Fragments(before);
    TakeAllInTwo(map[], fragments + Fragments(one), Fragments(after));
    TakeAllInTwo(map[], fragments + Fragments(other), Fragments(after));
    TakeAllInTwo(map[], fragments, Fragments(one));
    TakeAllInTwo(map[], fragments, Fragments(other));
  }

  lemma {:induction false} ChunkOf(c: Chunk)
    requires c.Chunk?
    ensures Fragments([c]) == c.calls && StreamText([c]) == c.content
  {
    assert [c][..0] == [];
    assert [] + c.calls == c.calls && "" + c.content == c.content;
  }

  lemma {:induction false} ChunksOf(c: Chunk, d: Chunk)
    requires c.Chunk? && d.Chunk?
    ensures Fragments([c, d]) == c.calls + d.calls && StreamText([c, d]) == c.content + d.content
  {
    assert [c, d] == [c] + [d];
    StreamInTwo([c], [d]);
    ChunkOf(c);
    ChunkOf(d);
  }

  /**
   * Where the service cuts its stream makes no difference: an arguments fragment
   * may come in two pieces, in one chunk or in two, and the text with it.
   */
  lemma {:induction false} SplittingChangesNothing(
    before: seq<Chunk>, text: string, calls: seq<Fragment>, f: Fragment, rest: string, others: seq<Fragment>,
    after: seq<Chunk>, cut: nat, parse: string -> Json)
    requires cut <= |f.args|
    ensures
      var a, b := FirstHalf(f, cut), SecondHalf(f, cut);
      var whole := ContentOf(before + [Chunk(text + rest, calls + [f] + others)] + after, parse);
      && ContentOf(before + [Chunk(text + rest, calls + [a, b] + others)] + after, parse) == whole
      && ContentOf(before + [Chunk(text, calls + [a]), Chunk(rest, [b] + others)] + after, parse) == whole
  {
    var a, b := FirstHalf(f, cut), SecondHalf(f, cut);
    var whole := Chunk(text + rest, calls + [f] + others);
    var halved := Chunk(text + rest, calls + [a, b] + others);
    var first, second := Chunk(text, calls + [a]), Chunk(rest, [b] + others);
    ChunkOf(whole);
    ChunkOf(halved);
    ChunksOf(first, second);
    assert first.calls + second.calls == halved.calls;
    forall slots: Slots ensures TakeAll(slots, whole.calls) == TakeAll(slots, halved.calls) {
      HalvesFillAlike(slots, calls, f, cut, others);
    }
    SameStretch(before, [whole], [halved], after, parse);
    SameStretch(before, [whole], [first, second], after, parse);
  }

  lemma TakeHalves(slots: Slots, f: Fragment, cut: nat)
    requires cut <= |f.args|
    ensures TakeAll(slots, [FirstHalf(f, cut), SecondHalf(f, cut)]) == TakeAll(slots, [f])
  {
    var a, b := FirstHalf(f, cut), SecondHalf(f, cut);
    assert [a, b][..1] == [a] && [a][..0] == [] && [f][..0] == [];
    assert f.args == f.args[..cut] + f.args[cut..];
    var was := if f.index in slots then slots[f.index].args else "";
    assert was + f.args == was + f.args[..cut] + f.args[cut..];
    assert TakeAll(slots, [a]) == Take(slots, a);
    assert Take(Take(slots, a), b) == Take(slots, f);
  }

  function Concat(parts: seq<string>): string {
    if parts == [] then "" else Concat(parts[..|parts| - 1]) + parts[|parts| - 1]
  }

  lemma ContentsMore(chunks: seq<Chunk>)
    requires chunks != []
    ensures var n := |chunks| - 1; Contents(chunks) == Contents(chunks[..n]) + [Contents(chunks)[n]]
  {
  }

  /** The text of each chunk, "" where it has none. */
  function Contents(chunks: seq<Chunk>): seq<string> {
    seq(|chunks|, i requires 0 <= i < |chunks| => if chunks[i].Chunk? then chunks[i].content else "")
  }

  predicate SomeText(s: string) {
    s != ""
  }

  /** What was shown while it streamed, chunk by chunk, is the text that is kept. */
  lemma {:induction false} DeltasAreTheText(chunks: seq<Chunk>)
    ensures Concat(StreamDeltas(chunks)) == StreamText(chunks)
    ensures Picks(Contents(chunks), StreamDeltas(chunks), SomeText)
  {
    if chunks == [] {
      PicksNone(SomeText);
    } else {
      var before := StreamDeltas(chunks[..|chunks| - 1]);
      DeltasAreTheText(chunks[..|chunks| - 1]);
      ContentsMore(chunks);
      PicksMore(Contents(chunks[..|chunks| - 1]), before, SomeText, Contents(chunks)[|chunks| - 1]);
      assert StreamDeltas(chunks) == before || StreamDeltas(chunks)[..|before|] == before;
    }
  }
}
