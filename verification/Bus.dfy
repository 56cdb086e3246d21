/**
 * The in-process bus itself (server/src/lib/bus.ts): the object every job shares,
 * with each method proved to do to its own job what EventStream and Rendezvous
 * say, and nothing to any other job. Promises are numbered by the wait that made
 * them, and a settled one is an entry of `promises`.
 */
module Bus {
  import opened Common
  import opened EventStream
  import R = Rendezvous

  type JobId = string

  datatype Activity = Activity(lastEventAt: int, eventCount: nat)

  /** The waiters of a job, none if it has no entry. */
  function Queue(waiters: map<JobId, seq<nat>>, job: JobId): seq<nat> {
    if job in waiters then waiters[job] else []
  }

  predicate Fresh(queue: seq<nat>, promises: map<nat, Option<string>>, issued: nat) {
    forall w :: w in queue ==> w < issued && w !in promises
  }

  datatype Rule = InOrder | Waiting | OnePlace | Issued

  /** Every queued waiter is queued in one place only, in the order of the waits, and is still unsettled. */
  ghost predicate Obeys(rule: Rule, waiters: map<JobId, seq<nat>>, promises: map<nat, Option<string>>, issued: nat) {
    match rule
    case InOrder => forall j :: R.Increasing(Queue(waiters, j))
    case Waiting => forall j :: Fresh(Queue(waiters, j), promises, issued)
    case OnePlace => forall j, k, w :: w in Queue(waiters, j) && w in Queue(waiters, k) ==> j == k
    case Issued => forall w :: w in promises ==> w < issued
  }

  ghost predicate Sound(waiters: map<JobId, seq<nat>>, promises: map<nat, Option<string>>, issued: nat) {
    forall rule: Rule :: Obeys(rule, waiters, promises, issued)
  }

  /** The facts about one job's queue. */
  lemma QueueFacts(waiters: map<JobId, seq<nat>>, promises: map<nat, Option<string>>, issued: nat, job: JobId)
    requires Sound(waiters, promises, issued)
    ensures R.Increasing(Queue(waiters, job))
    ensures Fresh(Queue(waiters, job), promises, issued)
    ensures forall j, w :: j != job && w in Queue(waiters, job) ==> w !in Queue(waiters, j)
  {
    assert Obeys(InOrder, waiters, promises, issued);
    assert Obeys(Waiting, waiters, promises, issued);
    assert Obeys(OnePlace, waiters, promises, issued);
  }

  ghost predicate TakenOff(waiters: map<JobId, seq<nat>>, after: map<JobId, seq<nat>>, job: JobId, w: nat) {
    forall j :: Queue(after, j) == if j == job then R.Without(Queue(waiters, job), w) else Queue(waiters, j)
  }

  /** Settling a wait that is queued nowhere else, and taking it off the queue, keeps the queues sound. */
  lemma SettlingKeepsSound(waiters: map<JobId, seq<nat>>, after: map<JobId, seq<nat>>,
                           promises: map<nat, Option<string>>, issued: nat, job: JobId, w: nat, v: Option<string>)
    requires Sound(waiters, promises, issued) && w < issued
    requires TakenOff(waiters, after, job, w)
    requires forall j :: j != job ==> w !in Queue(waiters, j)
    ensures Sound(after, promises[w := v], issued)
  {
    QueueFacts(waiters, promises, issued, job);
    R.WithoutKeepsOrder(Queue(waiters, job), w);
    forall j, x | x in Queue(after, j) ensures x in Queue(waiters, j) && x != w {
    }
    var settled := promises[w := v];
    forall rule: Rule ensures Obeys(rule, after, settled, issued) {
      assert Obeys(rule, waiters, promises, issued);
      match rule
      case InOrder =>
      case _ =>
    }
  }

  lemma QueueingKeepsSound(waiters: map<JobId, seq<nat>>, promises: map<nat, Option<string>>, issued: nat, job: JobId)
    requires Sound(waiters, promises, issued)
    ensures Sound(waiters[job := Queue(waiters, job) + [issued]], promises, issued + 1)
  {
    var queue := Queue(waiters, job);
    var after, next := waiters[job := queue + [issued]], issued + 1;
    assert Obeys(Waiting, waiters, promises, issued);
    assert Obeys(Issued, waiters, promises, issued);
    forall j, x | x in Queue(after, j) ensures x in Queue(waiters, j) || (j == job && x == issued) {
    }
    assert forall k :: Fresh(Queue(waiters, k), promises, issued);
    assert forall k :: issued !in Queue(waiters, k);
    forall rule: Rule ensures Obeys(rule, after, promises, next) {
      assert Obeys(rule, waiters, promises, issued);
      match rule
      case InOrder =>
        forall j ensures R.Increasing(Queue(after, j)) {
          assert R.Increasing(Queue(waiters, j));
          assert forall i :: 0 <= i < |queue| ==> queue[i] in queue;
        }
      case OnePlace =>
        forall j, k, x | x in Queue(after, j) && x in Queue(after, k) ensures j == k {
          assert x in Queue(waiters, j) || (j == job && x == issued);
          assert x in Queue(waiters, k) || (k == job && x == issued);
        }
      case _ =>
    }
  }

  lemma IssuingKeepsSound(waiters: map<JobId, seq<nat>>, promises: map<nat, Option<string>>, issued: nat,
                          v: Option<string>)
    requires Sound(waiters, promises, issued)
    ensures Sound(waiters, promises[issued := v], issued + 1)
  {
    assert Obeys(Waiting, waiters, promises, issued);
    var settled, next := promises[issued := v], issued + 1;
    forall rule: Rule ensures Obeys(rule, waiters, settled, next) {
      assert Obeys(rule, waiters, promises, issued);
      match rule
      case InOrder =>
      case _ =>
    }
  }

  lemma ForgettingKeepsSound(waiters: map<JobId, seq<nat>>, promises: map<nat, Option<string>>, issued: nat, job: JobId)
    requires Sound(waiters, promises, issued)
    ensures Sound(waiters - {job}, promises, issued)
  {
    var after := waiters - {job};
    assert forall j :: Queue(after, j) == if j == job then [] else Queue(waiters, j);
    forall rule: Rule ensures Obeys(rule, after, promises, issued) {
      assert Obeys(rule, waiters, promises, issued);
      match rule
      case InOrder =>
      case _ =>
    }
  }

  lemma SettleOneMore(promises: map<nat, Option<string>>, done: seq<nat>, w: nat)
    requires w !in promises && w !in done
    ensures R.SettleAll(promises, done + [w]) == R.SettleAll(promises, done)[w := None]
  {
  }

  class InProcessBus {
    var buffers: map<JobId, Buffer>
    var cancelled: set<JobId>
    var waiters: map<JobId, seq<nat>>
    var pendingAnswers: map<JobId, seq<string>>
    var activeQuestions: map<JobId, string>
    var resident: map<JobId, Activity>
    var listeners: map<JobId, map<ConnId, seq<Message>>>
    var promises: map<nat, Option<string>>
    var issued: nat

    constructor ()
      ensures Valid()
      ensures forall j :: BufferOf(j) == None && RoomOf(j) == R.EMPTY
    {
      buffers, cancelled, waiters, pendingAnswers := map[], {}, map[], map[];
      activeQuestions, resident, listeners, promises, issued := map[], map[], map[], map[], 0;
    }

    function BufferOf(job: JobId): Option<Buffer>
      reads this`buffers
    {
      if job in buffers then Some(buffers[job]) else None
    }

    function WaitersOf(job: JobId): seq<nat>
      reads this`waiters
    {
      Queue(waiters, job)
    }

    function RoomOf(job: JobId): R.Room
      reads this
    {
      R.Room(job in cancelled,
             if job in activeQuestions then Some(activeQuestions[job]) else None,
             WaitersOf(job),
             if job in pendingAnswers then pendingAnswers[job] else [])
    }

    function ListenersOf(job: JobId): map<ConnId, seq<Message>>
      reads this`listeners
    {
      if job in listeners then listeners[job] else map[]
    }

    ghost predicate Valid()
      reads this
    {
      Sound(waiters, promises, issued)
    }

    // ---- Frames ----

    method NextIndex(job: JobId, now: int) returns (index: int)
      modifies this`buffers
      ensures var b := BufferFor(old(BufferOf(job)), now);
        index == b.nextIndex && buffers == old(buffers)[job := Allocated(b, now)]
    {
      if job !in buffers {
        buffers := buffers[job := NewBuffer(now)];
      }
      index := buffers[job].nextIndex;
      buffers := buffers[job := buffers[job].(lastTouched := now, nextIndex := index + 1)];
    }

    method Emit(job: JobId, e: Frame, now: int)
      modifies this`buffers, this`resident, this`listeners
      ensures buffers == old(buffers)[job := Emitted(BufferFor(old(BufferOf(job)), now), e, now)]
      ensures ListenersOf(job) == Broadcast(old(ListenersOf(job)), Data(e))
      ensures forall j :: j != job ==> ListenersOf(j) == old(ListenersOf(j))
      ensures resident ==
        if job in old(resident) then old(resident)[job := Activity(now, old(resident)[job].eventCount + 1)]
                          else old(resident)
    {
      if job !in buffers {
        buffers := buffers[job := NewBuffer(now)];
      }
      var buf := buffers[job];
      var events, next := buf.events + [e], buf.nextIndex;
      if e.index >= next {
        next := e.index + 1;
      }
      if |events| > RING_MAX {
        events := events[|events| - RING_MAX..];
      }
      buffers := buffers[job := Buffer(events, now, next, buf.terminal)];
      if job in resident {
        resident := resident[job := Activity(now, resident[job].eventCount + 1)];
      }
      Notify(job, Data(e));
    }

    /** Every subscriber attached to the job receives the message. */
    method Notify(job: JobId, m: Message)
      modifies this`listeners
      ensures ListenersOf(job) == Broadcast(old(ListenersOf(job)), m)
      ensures forall j :: j != job ==> ListenersOf(j) == old(ListenersOf(j))
    {
      if job in listeners {
        listeners := listeners[job := Broadcast(listeners[job], m)];
      }
    }

    /** Allocates and emits in one step, as every caller must. */
    method Publish(job: JobId, body: string, now: int)
      modifies this`buffers, this`resident, this`listeners
      ensures var b := BufferFor(old(BufferOf(job)), now);
        && buffers == old(buffers)[job := Published(b, body, now)]
        && ListenersOf(job) == Broadcast(old(ListenersOf(job)), Data(Frame(b.nextIndex, body)))
      ensures forall j :: j != job ==> ListenersOf(j) == old(ListenersOf(j))
    {
      var index := NextIndex(job, now);
      Emit(job, Frame(index, body), now);
    }

    method ClaimTerminal(job: JobId, now: int) returns (won: bool)
      modifies this`buffers
      ensures var b := BufferFor(old(BufferOf(job)), now);
        won == !b.terminal && buffers == old(buffers)[job := b.(terminal := true)]
    {
      if job !in buffers {
        buffers := buffers[job := NewBuffer(now)];
      }
      if buffers[job].terminal {
        return false;
      }
      buffers := buffers[job := buffers[job].(terminal := true)];
      return true;
    }

    method SendNewer(events: seq<Frame>, fromIndex: int) returns (sent: seq<Message>)
      ensures sent == Newer(events, fromIndex)
    {
      sent := [];
      var i := 0;
      while i < |events|
        invariant 0 <= i <= |events|
        invariant sent + Newer(events[i..], fromIndex) == Newer(events, fromIndex)
      {
        assert events[i..][1..] == events[i + 1..];
        if events[i].index > fromIndex {
          sent := sent + [Data(events[i])];
        }
        i := i + 1;
      }
    }

    /** Replays what the caller has not seen, or asks it to resync, and attaches it. */
    method Subscribe(job: JobId, fromIndex: int, conn: ConnId)
      requires conn !in ListenersOf(job)
      modifies this`listeners
      ensures ListenersOf(job) == old(ListenersOf(job))[conn := Replay(BufferOf(job), fromIndex)]
      ensures forall j :: j != job ==> ListenersOf(j) == old(ListenersOf(j))
    {
      var sent: seq<Message> := [];
      var events := if job in buffers then buffers[job].events else [];
      if events == [] {
        if fromIndex >= 0 {
          sent := [Resync];
        }
      } else if events[0].index > fromIndex + 1 || fromIndex > events[|events| - 1].index {
        sent := [Resync];
      } else {
        sent := SendNewer(events, fromIndex);
      }
      listeners := listeners[job := ListenersOf(job)[conn := sent]];
    }

    method Unsubscribe(job: JobId, conn: ConnId)
      modifies this`listeners
      ensures ListenersOf(job) == old(ListenersOf(job)) - {conn}
      ensures forall j :: j != job ==> ListenersOf(j) == old(ListenersOf(j))
    {
      listeners := listeners[job := ListenersOf(job) - {conn}];
    }

    method MarkResident(job: JobId, now: int)
      modifies this`resident
      ensures resident == old(resident)[job := Activity(now, 0)]
    {
      resident := resident[job := Activity(now, 0)];
    }

    method ClearResident(job: JobId)
      modifies this`resident
      ensures resident == old(resident) - {job}
    {
      resident := resident - {job};
    }

    // ---- Questions, answers, cancelling ----

    twostate predicate OthersAsBefore(job: JobId)
      reads this
    {
      forall j :: j != job ==> RoomOf(j) == old(RoomOf(j))
    }

    method RegisterQuestion(job: JobId, question: string)
      requires Valid()
      modifies this`activeQuestions, this`pendingAnswers
      ensures Valid()
      ensures RoomOf(job) == R.Register(old(RoomOf(job)), question) && OthersAsBefore(job)
    {
      activeQuestions := activeQuestions[job := question];
      pendingAnswers := pendingAnswers - {job};
    }

    method ClearQuestion(job: JobId, question: string)
      requires Valid()
      modifies this`activeQuestions, this`pendingAnswers
      ensures Valid()
      ensures RoomOf(job) == R.Clear(old(RoomOf(job)), question) && OthersAsBefore(job)
    {
      if job in activeQuestions && activeQuestions[job] == question {
        activeQuestions := activeQuestions - {job};
        pendingAnswers := pendingAnswers - {job};
      }
    }

    method PushUserResponse(job: JobId, question: string, answer: string)
      requires Valid()
      modifies this`waiters, this`pendingAnswers, this`promises
      ensures Valid()
      ensures RoomOf(job) == R.Push(old(RoomOf(job)), question, answer) && OthersAsBefore(job)
      ensures var to := R.Receiver(old(RoomOf(job)), question);
        promises == if to.Some? then old(promises)[to.value := Some(answer)] else old(promises)
    {
      if job in cancelled || job !in activeQuestions || activeQuestions[job] != question {
        return;
      }
      if job in waiters && |waiters[job]| > 0 {
        var w := waiters[job][0];
        ghost var queue := waiters[job];
        assert w in WaitersOf(job);
        QueueFacts(waiters, promises, issued, job);
        SettlingKeepsSound(waiters, waiters[job := queue[1..]], promises, issued, job, w, Some(answer));
        waiters := waiters[job := waiters[job][1..]];
        R.WithoutAbsent(waiters[job], w);
        Finish(job, w, Some(answer));
        return;
      }
      var pending := if job in pendingAnswers then pendingAnswers[job] else [];
      pendingAnswers := pendingAnswers[job := pending + [answer]];
    }

    /** Settles a wait unless it is settled already, and takes it off its job's queue. */
    method Finish(job: JobId, w: nat, v: Option<string>)
      modifies this`waiters, this`promises
      ensures w in old(promises) ==> promises == old(promises) && waiters == old(waiters)
      ensures w !in old(promises) ==>
        && promises == old(promises)[w := v]
        && TakenOff(old(waiters), waiters, job, w)
        && (R.Without(old(WaitersOf(job)), w) == old(WaitersOf(job)) ==> waiters == old(waiters))
    {
      if w in promises {
        return;
      }
      if job in waiters {
        waiters := waiters[job := R.Without(waiters[job], w)];
      }
      promises := promises[w := v];
    }

    /** The wait's number; its answer, if there is one already, is in `promises`. */
    method WaitForUserResponse(job: JobId) returns (w: nat)
      requires Valid()
      modifies this`waiters, this`pendingAnswers, this`promises, this`issued
      ensures Valid() && w == old(issued) && issued == w + 1
      ensures RoomOf(job) == R.Wait(old(RoomOf(job)), w) && OthersAsBefore(job)
      ensures match R.ReplyTo(old(RoomOf(job)))
        case Later => promises == old(promises)
        case Now(v) => promises == old(promises)[w := v]
    {
      w := issued;
      issued := issued + 1;
      if job in cancelled {
        IssuingKeepsSound(waiters, promises, w, None);
        promises := promises[w := None];
        return;
      }
      if job in pendingAnswers && |pendingAnswers[job]| > 0 {
        IssuingKeepsSound(waiters, promises, w, Some(pendingAnswers[job][0]));
        promises := promises[w := Some(pendingAnswers[job][0])];
        pendingAnswers := pendingAnswers[job := pendingAnswers[job][1..]];
        return;
      }
      QueueingKeepsSound(waiters, promises, w, job);
      waiters := waiters[job := WaitersOf(job) + [w]];
    }

    /** The timer of a wait of this job goes off. */
    method Timeout(job: JobId, w: nat)
      requires Valid() && w < issued
      requires forall j :: j != job ==> w !in Queue(waiters, j)
      modifies this`waiters, this`promises
      ensures Valid() && OthersAsBefore(job)
      ensures promises == if w in old(promises) then old(promises) else old(promises)[w := None]
      ensures RoomOf(job) == if w in old(promises) then old(RoomOf(job)) else R.Leave(old(RoomOf(job)), w)
    {
      ghost var before := waiters;
      ghost var settled := promises;
      Finish(job, w, None);
      if w !in settled {
        SettlingKeepsSound(before, waiters, settled, issued, job, w, None);
      }
    }

    /** Every wait queued for the job ends with no answer. */
    method ReleaseWaiters(job: JobId)
      requires Valid()
      modifies this`waiters, this`promises
      ensures Valid()
      ensures forall j :: Queue(waiters, j) == if j == job then [] else Queue(old(waiters), j)
      ensures promises == R.SettleAll(old(promises), Queue(old(waiters), job))
    {
      var copy := WaitersOf(job);
      assert R.SettleAll(promises, copy[..0]) == promises;
      var i := 0;
      while i < |copy|
        invariant 0 <= i <= |copy| && Valid()
        invariant forall j :: Queue(waiters, j) == if j == job then copy[i..] else Queue(old(waiters), j)
        invariant promises == R.SettleAll(old(promises), copy[..i])
      {
        ghost var before, settled := waiters, promises;
        QueueFacts(before, settled, issued, job);
        assert copy[i] in Queue(before, job);
        Finish(job, copy[i], None);
        SettlingKeepsSound(before, waiters, settled, issued, job, copy[i], None);
        SettleOneMore(old(promises), copy[..i], copy[i]);
        assert copy[..i + 1] == copy[..i] + [copy[i]];
        i := i + 1;
      }
      assert copy[..i] == copy;
    }

    method RequestCancel(job: JobId)
      requires Valid()
      modifies this`cancelled, this`waiters, this`pendingAnswers, this`activeQuestions, this`promises
      ensures Valid()
      ensures RoomOf(job) == R.Cancel(old(RoomOf(job))) && OthersAsBefore(job)
      ensures promises == R.SettleAll(old(promises), old(RoomOf(job)).waiters)
    {
      cancelled := cancelled + {job};
      ReleaseWaiters(job);
      pendingAnswers := pendingAnswers - {job};
      activeQuestions := activeQuestions - {job};
    }

    // ---- Eviction ----

    /** The jobs that are idle and not running here. */
    function StaleJobs(now: int): set<JobId>
      reads this`buffers, this`resident
    {
      set j | j in buffers && j !in resident && now - buffers[j].lastTouched > RING_TTL_MS
    }

    /** What is kept for a job, apart from its residency and its listeners. */
    function TraceOf(job: JobId): (Option<Buffer>, R.Room)
      reads this
    {
      (BufferOf(job), RoomOf(job))
    }

    method Forget(job: JobId)
      requires Valid()
      modifies this`buffers, this`cancelled, this`waiters, this`pendingAnswers, this`activeQuestions
      ensures Valid()
      ensures forall j :: TraceOf(j) == if j == job then (None, R.EMPTY) else old(TraceOf(j))
    {
      ForgettingKeepsSound(waiters, promises, issued, job);
      buffers := buffers - {job};
      cancelled := cancelled - {job};
      waiters := waiters - {job};
      pendingAnswers := pendingAnswers - {job};
      activeQuestions := activeQuestions - {job};
    }

    /** Forgets every stale job, and touches no other. */
    method Sweep(now: int)
      requires Valid()
      modifies this`buffers, this`cancelled, this`waiters, this`pendingAnswers, this`activeQuestions
      ensures Valid()
      ensures forall j ::
        if j in old(buffers) && j !in resident && now > old(buffers)[j].lastTouched + 3_600_000
        then TraceOf(j) == (None, R.Room(false, None, [], []))
        else TraceOf(j) == old(TraceOf(j))
    {
      ghost var stale := StaleJobs(now);
      var todo := buffers.Keys;
      while todo != {}
        invariant Valid()
        invariant todo <= old(buffers).Keys && stale <= old(buffers).Keys
        invariant forall j :: TraceOf(j) == if j in stale && j !in todo then (None, R.EMPTY) else old(TraceOf(j))
        decreases |todo|
      {
        var job :| job in todo;
        todo := todo - {job};
        assert TraceOf(job) == old(TraceOf(job));
        if job !in resident && now - buffers[job].lastTouched > RING_TTL_MS {
          Forget(job);
        }
      }
    }
  }
}
