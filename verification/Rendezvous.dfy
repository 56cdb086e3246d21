/**
 * The question-and-answer rendezvous of one job (server/src/lib/bus.ts): answers
 * that arrive before anyone waits are buffered, waits that arrive before an answer
 * are queued, and cancelling empties both.
 */
module Rendezvous {
  import opened Common

  /** What the bus keeps for one job. A waiter is the number of the wait that queued it. */
  datatype Room = Room(cancelled: bool, active: Option<string>, waiters: seq<nat>, pending: seq<string>)

  const EMPTY := Room(false, None, [], [])

  function Register(r: Room, question: string): Room {
    r.(active := Some(question), pending := [])
  }

  function Clear(r: Room, question: string): Room {
    if r.active == Some(question) then r.(active := None, pending := []) else r
  }

  predicate Accepts(r: Room, question: string) {
    !r.cancelled && r.active == Some(question)
  }

  function Push(r: Room, question: string, answer: string): Room {
    if !Accepts(r, question) then r
    else if r.waiters != [] then r.(waiters := r.waiters[1..])
    else r.(pending := r.pending + [answer])
  }

  /** The waiter, if any, that an answer goes to. */
  function Receiver(r: Room, question: string): Option<nat> {
    if Accepts(r, question) && r.waiters != [] then Some(r.waiters[0]) else None
  }

  datatype Reply = Now(answer: Option<string>) | Later

  function ReplyTo(r: Room): Reply {
    if r.cancelled then Now(None) else if r.pending != [] then Now(Some(r.pending[0])) else Later
  }

  function Wait(r: Room, waiter: nat): Room {
    if r.cancelled then r
    else if r.pending != [] then r.(pending := r.pending[1..])
    else r.(waiters := r.waiters + [waiter])
  }

  /** Removes the first occurrence, if there is one. */
  function Without(waiters: seq<nat>, waiter: nat): seq<nat> {
    if waiters == [] then []
    else if waiters[0] == waiter then waiters[1..]
    else [waiters[0]] + Without(waiters[1..], waiter)
  }

  function Leave(r: Room, waiter: nat): Room {
    r.(waiters := Without(r.waiters, waiter))
  }

  function Cancel(r: Room): Room {
    Room(true, None, [], [])
  }

  // ---- A job's whole history ----

  datatype Answer = Answer(question: string, text: string)

  datatype Delivery = Delivery(number: nat, text: string)

  /**
   * A room with its past: how many waits there were, every answer that was taken
   * in, the numbers of the buffered ones, the numbers of those thrown away, and
   * how each settled wait ended.
   */
  datatype Desk = Desk(
    room: Room, issued: nat, accepted: seq<Answer>, numbers: seq<nat>, discarded: set<nat>,
    outcomes: map<nat, Option<Delivery>>)

  datatype Action =
    | DoRegister(question: string)
    | DoClear(question: string)
    | DoPush(question: string, text: string)
    | DoWait
    | DoTimeout(waiter: nat)
    | DoCancel
    | DoSweep

  const INIT := Desk(EMPTY, 0, [], [], {}, map[])

  function Elements(s: seq<nat>): set<nat> {
    set x | x in s
  }

  /** The room changed to one whose buffer is either the same or empty. */
  function Become(d: Desk, room: Room): Desk {
    if room.pending == d.room.pending then d.(room := room)
    else d.(room := room, numbers := [], discarded := d.discarded + Elements(d.numbers))
  }

  function SettleAll<T>(outcomes: map<nat, Option<T>>, waiters: seq<nat>): map<nat, Option<T>> {
    map w | w in outcomes.Keys + Elements(waiters) :: if w in outcomes then outcomes[w] else None
  }

  function Step(d: Desk, a: Action): Desk {
    match a
    case DoRegister(q) => Become(d, Register(d.room, q))
    case DoClear(q) => Become(d, Clear(d.room, q))
    case DoPush(q, text) =>
      if !Accepts(d.room, q) then d.(room := Push(d.room, q, text))
      else
        var n := |d.accepted|;
        var to := Receiver(d.room, q);
        d.(room := Push(d.room, q, text), accepted := d.accepted + [Answer(q, text)],
           numbers := if to.None? then d.numbers + [n] else d.numbers,
           outcomes := if to.None? then d.outcomes else d.outcomes[to.value := Some(Delivery(n, text))])
    case DoWait =>
      var w := d.issued;
      var after := d.(room := Wait(d.room, w), issued := w + 1);
      (match ReplyTo(d.room)
       case Later => after
       case Now(None) => after.(outcomes := d.outcomes[w := None])
       case Now(Some(text)) =>
         if d.numbers == [] then after
         else after.(numbers := d.numbers[1..], outcomes := d.outcomes[w := Some(Delivery(d.numbers[0], text))]))
    case DoTimeout(w) =>
      if w >= d.issued || w in d.outcomes then d
      else d.(room := Leave(d.room, w), outcomes := d.outcomes[w := None])
    case DoCancel => Become(d, Cancel(d.room)).(outcomes := SettleAll(d.outcomes, d.room.waiters))
    case DoSweep => Become(d, EMPTY)
  }

  function Run(d: Desk, actions: seq<Action>): Desk {
    if actions == [] then d else Step(Run(d, actions[..|actions| - 1]), actions[|actions| - 1])
  }

  // ---- The invariant ----

  datatype Aspect = OneSide | QueueOrder | BufferOrder | Buffered | Outcomes | Order | Accounted

  ghost predicate Increasing(s: seq<nat>) {
    forall i, j :: 0 <= i < j < |s| ==> s[i] < s[j]
  }

  predicate Served(d: Desk, w: nat) {
    w in d.outcomes && d.outcomes[w].Some?
  }

  predicate WasServed(d: Desk, n: nat) {
    exists w :: w in d.outcomes && d.outcomes[w].Some? && d.outcomes[w].value.number == n
  }

  ghost predicate Holds(d: Desk, aspect: Aspect) {
    match aspect
    case OneSide =>
      && (d.room.waiters == [] || d.room.pending == [])
      && (d.room.cancelled ==> d.room.waiters == [] && d.room.pending == [])
    case QueueOrder =>
      && Increasing(d.room.waiters)
      && forall i :: 0 <= i < |d.room.waiters| ==> d.room.waiters[i] < d.issued && d.room.waiters[i] !in d.outcomes
    case BufferOrder =>
      && Increasing(d.numbers)
      && forall i :: 0 <= i < |d.numbers| ==> d.numbers[i] < |d.accepted|
    case Buffered =>
      && |d.numbers| == |d.room.pending|
      && forall i :: 0 <= i < |d.numbers| ==>
           d.numbers[i] < |d.accepted| && d.room.active == Some(d.accepted[d.numbers[i]].question)
           && d.room.pending[i] == d.accepted[d.numbers[i]].text
    case Outcomes =>
      && (forall w :: w in d.outcomes ==> w < d.issued)
      && forall w :: Served(d, w) ==>
           var sent := d.outcomes[w].value;
           sent.number < |d.accepted| && sent.text == d.accepted[sent.number].text
    case Order =>
      && (forall v, w :: Served(d, v) && Served(d, w) && v < w ==>
            d.outcomes[v].value.number < d.outcomes[w].value.number)
      && (forall w, i :: Served(d, w) && 0 <= i < |d.numbers| ==> d.outcomes[w].value.number < d.numbers[i])
      && (forall w, i :: Served(d, w) && 0 <= i < |d.room.waiters| ==> w < d.room.waiters[i])
    case Accounted =>
      && (forall n :: n in d.discarded ==> n < |d.accepted| && !WasServed(d, n) && n !in d.numbers)
      && forall n :: 0 <= n < |d.accepted| ==> n in d.discarded || n in d.numbers || WasServed(d, n)
  }

  ghost predicate Inv(d: Desk) {
    forall aspect: Aspect :: Holds(d, aspect)
  }

  // ---- Every step keeps it ----

  lemma {:induction false} WithoutSubset(waiters: seq<nat>, w: nat)
    ensures forall x :: x in Without(waiters, w) ==> x in waiters
    ensures forall x :: x in waiters && x != w ==> x in Without(waiters, w)
  {
    if waiters != [] {
      assert waiters == [waiters[0]] + waiters[1..];
      WithoutSubset(waiters[1..], w);
    }
  }

  lemma ConsIncreasing(x: nat, rest: seq<nat>)
    requires Increasing(rest) && forall y :: y in rest ==> x < y
    ensures Increasing([x] + rest)
  {
    assert forall i :: 0 <= i < |rest| ==> rest[i] in rest;
  }

  lemma {:induction false} WithoutKeepsOrder(waiters: seq<nat>, w: nat)
    requires Increasing(waiters)
    ensures Increasing(Without(waiters, w)) && w !in Without(waiters, w)
    ensures forall x :: x in Without(waiters, w) ==> x in waiters
    ensures forall x :: x in waiters && x != w ==> x in Without(waiters, w)
    ensures waiters == [] ==> Without(waiters, w) == []
  {
    WithoutSubset(waiters, w);
    if waiters != [] {
      var rest := waiters[1..];
      assert forall x :: x in rest ==> x > waiters[0];
      if waiters[0] != w {
        WithoutKeepsOrder(rest, w);
        ConsIncreasing(waiters[0], Without(rest, w));
      }
    }
  }

  lemma {:induction false} WithoutAbsent(waiters: seq<nat>, w: nat)
    requires w !in waiters
    ensures Without(waiters, w) == waiters
  {
    if waiters != [] {
      WithoutAbsent(waiters[1..], w);
    }
  }

  /** The buffer stays as it is under the same question, or is thrown away. */
  predicate Keeps(before: Room, after: Room) {
    && (after.waiters == before.waiters || after.waiters == [])
    && (after.pending == [] || (after.pending == before.pending && after.active == before.active))
    && (after.cancelled ==> after.waiters == [] && after.pending == [])
  }

  lemma BecomeKeeps(d: Desk, room: Room, aspect: Aspect)
    requires Inv(d) && Keeps(d.room, room)
    ensures Holds(Become(d, room), aspect)
  {
    assert Holds(d, aspect);
    var after := Become(d, room);
    match aspect
    case Order =>
      assert forall w :: Served(after, w) <==> Served(d, w);
    case Outcomes =>
      assert forall w :: Served(after, w) <==> Served(d, w);
    case Buffered =>
    case Accounted =>
      BecomeAccounts(d, room);
    case _ =>
  }

  lemma BecomeAccounts(d: Desk, room: Room)
    requires Inv(d)
    ensures Holds(Become(d, room), Accounted)
  {
    var after := Become(d, room);
    assert forall n :: WasServed(after, n) <==> WasServed(d, n);
    assert Holds(d, Accounted);
    assert Holds(d, BufferOrder);
    forall n | n in d.numbers ensures !WasServed(d, n) {
      assert Holds(d, Order);
      if w :| w in d.outcomes && d.outcomes[w].Some? && d.outcomes[w].value.number == n {
        assert Served(d, w);
      }
    }
  }

  lemma QueuedPushKeeps(d: Desk, q: string, text: string, aspect: Aspect)
    requires Inv(d) && Accepts(d.room, q) && d.room.waiters == []
    ensures Holds(Step(d, DoPush(q, text)), aspect)
  {
    var after := Step(d, DoPush(q, text));
    assert Holds(d, aspect);
    assert forall w :: Served(after, w) <==> Served(d, w);
    match aspect
    case BufferOrder =>
    case Buffered => assert Holds(d, Buffered);
    case Order => assert Holds(d, Outcomes);
    case Accounted =>
      assert forall n :: WasServed(after, n) <==> WasServed(d, n);
      assert |d.accepted| in after.numbers;
      forall n | n in after.discarded ensures n !in after.numbers && n < |d.accepted| {
      }
    case _ =>
  }

  /** An answer handed straight to a waiter. */
  lemma HandedPushKeeps(d: Desk, q: string, text: string, aspect: Aspect)
    requires Inv(d) && Accepts(d.room, q) && d.room.waiters != []
    ensures Holds(Step(d, DoPush(q, text)), aspect)
  {
    var after := Step(d, DoPush(q, text));
    var w0 := d.room.waiters[0];
    assert Holds(d, aspect);
    assert Holds(d, QueueOrder);
    assert d.room.waiters[0] < d.issued && w0 !in d.outcomes;
    match aspect
    case Outcomes =>
      assert forall w :: Served(after, w) <==> Served(d, w) || w == w0;
    case Order =>
      assert forall w :: Served(after, w) <==> Served(d, w) || w == w0;
      assert Holds(d, Outcomes);
      assert Holds(d, OneSide);
      assert Holds(d, Buffered);
    case Accounted =>
      SettledIsServed(d, after, w0, |d.accepted|);
    case Buffered =>
    case _ =>
  }

  lemma SettledIsServed(d: Desk, after: Desk, w: nat, n: nat)
    requires w !in d.outcomes && after.outcomes.Keys == d.outcomes.Keys + {w}
    requires forall v :: v in d.outcomes ==> after.outcomes[v] == d.outcomes[v]
    requires after.outcomes[w].Some? && after.outcomes[w].value.number == n
    ensures forall m :: WasServed(after, m) <==> WasServed(d, m) || m == n
  {
    forall m ensures WasServed(after, m) <==> WasServed(d, m) || m == n {
      if m == n { assert w in after.outcomes; }
      if v :| v in d.outcomes && d.outcomes[v].Some? && d.outcomes[v].value.number == m {
        assert v in after.outcomes;
      }
      if v :| v in after.outcomes && after.outcomes[v].Some? && after.outcomes[v].value.number == m {
        assert v == w || v in d.outcomes;
      }
    }
  }

  lemma QueuedWaitKeeps(d: Desk, aspect: Aspect)
    requires Inv(d) && ReplyTo(d.room).Later?
    ensures Holds(Step(d, DoWait), aspect)
  {
    var after := Step(d, DoWait);
    assert Holds(d, aspect);
    assert Holds(d, Outcomes);
    assert forall w :: Served(after, w) <==> Served(d, w);
    assert forall n :: WasServed(after, n) <==> WasServed(d, n);
    match aspect
    case QueueOrder =>
    case Buffered =>
    case _ =>
  }

  lemma RefusedWaitKeeps(d: Desk, aspect: Aspect)
    requires Inv(d) && d.room.cancelled
    ensures Holds(Step(d, DoWait), aspect)
  {
    var after := Step(d, DoWait);
    assert Holds(d, aspect);
    assert Holds(d, Outcomes);
    assert d.issued !in d.outcomes;
    assert forall w :: Served(after, w) <==> Served(d, w);
    assert forall n :: WasServed(after, n) <==> WasServed(d, n) by {
      SameServices(d, after);
    }
    match aspect
    case QueueOrder => assert Holds(d, OneSide);
    case _ =>
  }

  lemma SameServices(d: Desk, after: Desk)
    requires forall w :: Served(after, w) <==> Served(d, w)
    requires forall w :: Served(d, w) && Served(after, w) ==> after.outcomes[w] == d.outcomes[w]
    ensures forall n :: WasServed(after, n) <==> WasServed(d, n)
  {
    forall n ensures WasServed(after, n) <==> WasServed(d, n) {
      if w :| w in d.outcomes && d.outcomes[w].Some? && d.outcomes[w].value.number == n {
        assert Served(d, w);
        assert w in after.outcomes;
      }
      if w :| w in after.outcomes && after.outcomes[w].Some? && after.outcomes[w].value.number == n {
        assert Served(after, w);
        assert w in d.outcomes;
      }
    }
  }

  /** A wait that finds an answer already there. */
  lemma AnsweredWaitKeeps(d: Desk, aspect: Aspect)
    requires Inv(d) && !d.room.cancelled && d.room.pending != []
    ensures Holds(Step(d, DoWait), aspect)
  {
    var after := Step(d, DoWait);
    assert Holds(d, aspect);
    assert Holds(d, Outcomes);
    assert Holds(d, Buffered);
    assert Holds(d, OneSide);
    assert d.issued !in d.outcomes;
    assert forall w :: Served(after, w) <==> Served(d, w) || w == d.issued;
    match aspect
    case Order => assert Holds(d, BufferOrder);
    case Accounted =>
      SettledIsServed(d, after, d.issued, d.numbers[0]);
      assert Holds(d, BufferOrder);
      assert forall n :: n in d.numbers <==> n in after.numbers || n == d.numbers[0];
    case Outcomes =>
    case _ =>
  }

  lemma TimeoutKeeps(d: Desk, w: nat, aspect: Aspect)
    requires Inv(d) && w < d.issued && w !in d.outcomes
    ensures Holds(Step(d, DoTimeout(w)), aspect)
  {
    var after := Step(d, DoTimeout(w));
    assert Holds(d, aspect);
    assert Holds(d, QueueOrder);
    WithoutKeepsOrder(d.room.waiters, w);
    assert forall v :: Served(after, v) <==> Served(d, v);
    SameServices(d, after);
    match aspect
    case QueueOrder =>
      forall i | 0 <= i < |after.room.waiters|
        ensures after.room.waiters[i] < d.issued && after.room.waiters[i] !in after.outcomes
      {
        assert after.room.waiters[i] in d.room.waiters;
      }
    case Order =>
      forall v, i | Served(after, v) && 0 <= i < |after.room.waiters| ensures v < after.room.waiters[i] {
        assert after.room.waiters[i] in d.room.waiters;
      }
    case _ =>
  }

  lemma CancelKeeps(d: Desk, aspect: Aspect)
    requires Inv(d)
    ensures Holds(Step(d, DoCancel), aspect)
  {
    var mid, after := Become(d, Cancel(d.room)), Step(d, DoCancel);
    BecomeKeeps(d, Cancel(d.room), aspect);
    assert Holds(d, QueueOrder);
    assert forall w :: Served(after, w) <==> Served(d, w);
    SameServices(mid, after);
    if aspect == Outcomes {
      assert Holds(d, Outcomes);
    }
  }

  lemma StepKeepsInv(d: Desk, a: Action)
    requires Inv(d)
    ensures Inv(Step(d, a))
  {
    forall aspect: Aspect ensures Holds(Step(d, a), aspect) {
      match a
      case DoRegister(q) =>
        assert Holds(d, OneSide);
        BecomeKeeps(d, Register(d.room, q), aspect);
      case DoClear(q) =>
        assert Holds(d, OneSide);
        BecomeKeeps(d, Clear(d.room, q), aspect);
      case DoSweep => BecomeKeeps(d, EMPTY, aspect);
      case DoCancel => CancelKeeps(d, aspect);
      case DoTimeout(w) =>
        assert Holds(d, aspect);
        if w < d.issued && w !in d.outcomes { TimeoutKeeps(d, w, aspect); }
      case DoWait =>
        if d.room.cancelled { RefusedWaitKeeps(d, aspect); }
        else if d.room.pending != [] { AnsweredWaitKeeps(d, aspect); }
        else { QueuedWaitKeeps(d, aspect); }
      case DoPush(q, text) =>
        assert Holds(d, aspect);
        if Accepts(d.room, q) {
          if d.room.waiters == [] { QueuedPushKeeps(d, q, text, aspect); } else { HandedPushKeeps(d, q, text, aspect); }
        }
    }
  }

  lemma {:induction false} EveryRunKeepsInv(actions: seq<Action>)
    ensures Inv(Run(INIT, actions))
  {
    if actions == [] {
      forall aspect: Aspect ensures Holds(INIT, aspect) {
      }
    } else {
      EveryRunKeepsInv(actions[..|actions| - 1]);
      StepKeepsInv(Run(INIT, actions[..|actions| - 1]), actions[|actions| - 1]);
    }
  }

  // ---- Main results ----

  /** Never both an answer and a wait held back; what is buffered belongs to the question now active. */
  lemma {:induction false} RendezvousIsSafe(actions: seq<Action>)
    ensures var d := Run(INIT, actions);
      && (d.room.waiters == [] || d.room.pending == [])
      && |d.numbers| == |d.room.pending|
      && (forall i :: 0 <= i < |d.numbers| ==>
            && d.numbers[i] < |d.accepted|
            && d.accepted[d.numbers[i]] == Answer(d.accepted[d.numbers[i]].question, d.room.pending[i])
            && d.room.active == Some(d.accepted[d.numbers[i]].question))
  {
    EveryRunKeepsInv(actions);
    var d := Run(INIT, actions);
    assert Holds(d, OneSide) && Holds(d, Buffered);
  }

  /**
   * Answers reach waits first in, first out on both sides, so an answer reaches at
   * most one wait; and each answer taken in was served, is buffered, or was thrown
   * away, exactly one of the three.
   */
  lemma {:induction false} AnswersAreServedInOrder(actions: seq<Action>)
    ensures var d := Run(INIT, actions);
      && (forall v, w :: Served(d, v) && Served(d, w) ==>
            (v < w <==> d.outcomes[v].value.number < d.outcomes[w].value.number))
      && (forall w :: Served(d, w) ==>
            var sent := d.outcomes[w].value;
            sent.number < |d.accepted| && d.accepted[sent.number].text == sent.text)
      && (forall n :: 0 <= n < |d.accepted| ==>
            && (WasServed(d, n) || n in d.numbers || n in d.discarded)
            && !(WasServed(d, n) && n in d.numbers)
            && !(WasServed(d, n) && n in d.discarded)
            && !(n in d.numbers && n in d.discarded))
  {
    EveryRunKeepsInv(actions);
    var d := Run(INIT, actions);
    assert Holds(d, Order);
    assert Holds(d, Outcomes);
    assert Holds(d, Accounted);
  }

  // ---- Which answers are taken in ----

  /** The question open after some actions: the last registered, unless cleared, cancelled or forgotten since. */
  function OpenAfter(actions: seq<Action>): Option<string> {
    if actions == [] then None
    else
      var before := OpenAfter(actions[..|actions| - 1]);
      match actions[|actions| - 1]
      case DoRegister(q) => Some(q)
      case DoClear(q) => if before == Some(q) then None else before
      case DoCancel => None
      case DoSweep => None
      case _ => before
  }

  /** Whether the job has been cancelled since it was last forgotten. */
  predicate CancelledAfter(actions: seq<Action>) {
    actions != [] &&
    match actions[|actions| - 1]
    case DoCancel => true
    case DoSweep => false
    case _ => CancelledAfter(actions[..|actions| - 1])
  }

  /** The answers that were given to the question open at the time, in a job not cancelled. */
  function TakenIn(actions: seq<Action>): seq<Answer> {
    if actions == [] then []
    else
      var before, last := actions[..|actions| - 1], actions[|actions| - 1];
      if last.DoPush? && OpenAfter(before) == Some(last.question) && !CancelledAfter(before)
      then TakenIn(before) + [Answer(last.question, last.text)]
      else TakenIn(before)
  }

  lemma StepTakesIn(d: Desk, a: Action)
    ensures Step(d, a).room.active ==
      match a
      case DoRegister(q) => Some(q)
      case DoClear(q) => if d.room.active == Some(q) then None else d.room.active
      case DoCancel => None
      case DoSweep => None
      case _ => d.room.active
    ensures Step(d, a).room.cancelled <==> a.DoCancel? || (!a.DoSweep? && d.room.cancelled)
    ensures Step(d, a).accepted == d.accepted +
      if a.DoPush? && d.room.active == Some(a.question) && !d.room.cancelled then [Answer(a.question, a.text)] else []
  {
  }

  /** An answer is taken in if and only if it answers the question that is open when it comes. */
  lemma {:induction false} OnlyOpenQuestionsAreAnswered(actions: seq<Action>)
    ensures var d := Run(INIT, actions);
      && d.room.active == OpenAfter(actions) && d.room.cancelled == CancelledAfter(actions)
      && d.accepted == TakenIn(actions)
  {
    if actions != [] {
      var before := actions[..|actions| - 1];
      OnlyOpenQuestionsAreAnswered(before);
      StepTakesIn(Run(INIT, before), actions[|actions| - 1]);
    }
  }

  // ---- Which waits are left ----

  /** Every wait made so far has ended or is in the queue. */
  ghost predicate NoneLost(d: Desk) {
    forall w: nat :: w < d.issued ==> w in d.outcomes || w in d.room.waiters
  }

  lemma StepLosesNone(d: Desk, a: Action)
    requires Inv(d) && NoneLost(d) && !a.DoSweep?
    ensures NoneLost(Step(d, a))
  {
    assert Holds(d, Buffered);
    var after := Step(d, a);
    match a
    case DoTimeout(w) => WithoutSubset(d.room.waiters, w);
    case DoPush(q, text) =>
      forall w: nat | w < d.issued ensures w in after.outcomes || w in after.room.waiters {
        if d.room.waiters != [] {
          assert d.room.waiters == [d.room.waiters[0]] + d.room.waiters[1..];
        }
      }
    case _ =>
  }

  /** Until the sweep forgets the job, every wait has ended or is in the queue, where the next answers go. */
  lemma {:induction false} NoWaitIsLost(actions: seq<Action>)
    requires forall i :: 0 <= i < |actions| ==> !actions[i].DoSweep?
    ensures NoneLost(Run(INIT, actions))
  {
    if actions != [] {
      NoWaitIsLost(actions[..|actions| - 1]);
      EveryRunKeepsInv(actions[..|actions| - 1]);
      StepLosesNone(Run(INIT, actions[..|actions| - 1]), actions[|actions| - 1]);
    }
  }

  lemma {:induction false} WithoutOne(waiters: seq<nat>, i: nat)
    requires i < |waiters| && forall j :: 0 <= j < i ==> waiters[j] != waiters[i]
    ensures Without(waiters, waiters[i]) == waiters[..i] + waiters[i + 1..]
  {
    if i > 0 {
      var rest := waiters[1..];
      assert rest[i - 1] == waiters[i] && waiters[0] != waiters[i];
      WithoutOne(rest, i - 1);
      assert waiters[..i] == [waiters[0]] + rest[..i - 1] && waiters[i + 1..] == rest[i..];
    }
  }

  /** A wait that times out in the queue ends with no answer; the others wait on in order, and nothing else changes. */
  lemma TimeoutEndsTheWait(d: Desk, i: nat)
    requires Inv(d) && i < |d.room.waiters|
    ensures var waiters := d.room.waiters;
      Step(d, DoTimeout(waiters[i])) ==
      d.(room := d.room.(waiters := waiters[..i] + waiters[i + 1..]), outcomes := d.outcomes[waiters[i] := None])
  {
    assert Holds(d, QueueOrder);
    WithoutOne(d.room.waiters, i);
  }

  /** An answer to the open question ends the longest wait with it, and leaves the others waiting in order. */
  lemma AnswerEndsLongestWait(d: Desk, q: string, text: string)
    requires Inv(d) && !d.room.cancelled && d.room.active == Some(q) && d.room.waiters != []
    ensures var after := Step(d, DoPush(q, text)); var first := d.room.waiters[0];
      && (forall w :: w in d.room.waiters ==> first <= w)
      && after.outcomes == d.outcomes[first := Some(Delivery(|d.accepted|, text))]
      && d.room.waiters == [first] + after.room.waiters && after.room.pending == []
  {
    assert Holds(d, QueueOrder);
    assert Holds(d, OneSide);
  }

  /** A wait that has settled never settles again. */
  lemma {:induction false} WaitsSettleOnce(d: Desk, actions: seq<Action>, w: nat)
    requires Inv(d) && w in d.outcomes
    ensures w in Run(d, actions).outcomes && Run(d, actions).outcomes[w] == d.outcomes[w]
    ensures Inv(Run(d, actions))
  {
    if actions != [] {
      var before := Run(d, actions[..|actions| - 1]);
      WaitsSettleOnce(d, actions[..|actions| - 1], w);
      assert Holds(before, QueueOrder);
      assert Holds(before, Outcomes);
      StepKeepsInv(before, actions[|actions| - 1]);
    }
  }

  /** Cancelled and emptied, with nothing taken in and every wait since `from` ended with no answer. */
  ghost predicate Closed(d: Desk, accepted: seq<Answer>, from: nat) {
    && d.room.cancelled && d.room.waiters == [] && d.room.pending == [] && d.accepted == accepted
    && forall w :: from <= w < d.issued ==> w in d.outcomes && d.outcomes[w] == None
  }

  lemma StepKeepsClosed(d: Desk, a: Action, accepted: seq<Answer>, from: nat)
    requires Closed(d, accepted, from) && !a.DoSweep?
    ensures Closed(Step(d, a), accepted, from)
  {
  }

  /**
   * Cancelling ends every wait at once with no answer, and until the sweep forgets
   * the job no wait queues, no answer is taken in, and every new wait ends at once.
   */
  lemma {:induction false} CancelIsFinal(d: Desk, actions: seq<Action>)
    requires Inv(d) && forall i :: 0 <= i < |actions| ==> !actions[i].DoSweep?
    ensures var c := Step(d, DoCancel);
      && (forall w :: w in d.room.waiters ==> w in c.outcomes && c.outcomes[w] == None)
      && Closed(Run(c, actions), d.accepted, d.issued)
  {
    if actions == [] {
      assert Holds(d, QueueOrder);
    } else {
      CancelIsFinal(d, actions[..|actions| - 1]);
      StepKeepsClosed(Run(Step(d, DoCancel), actions[..|actions| - 1]), actions[|actions| - 1], d.accepted, d.issued);
    }
  }

  /** The answer pushed by a user whose agent asks only afterwards is the one the agent gets. */
  lemma EarlyAnswerIsKept(d: Desk, q: string, text: string)
    requires Inv(d) && !d.room.cancelled && d.room.waiters == []
    ensures var asked := Step(d, DoRegister(q)); var after := Step(Step(asked, DoPush(q, text)), DoWait);
      d.issued in after.outcomes && after.outcomes[d.issued] == Some(Delivery(|d.accepted|, text))
  {
    assert Holds(d, Buffered);
  }
}
