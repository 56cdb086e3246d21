/**
 * One job's event stream (server/src/lib/bus.ts) and a client that reconnects to
 * it (web/src/features/project/useJobStream.ts): a capped ring of frames, indices
 * from one counter, replay on subscribe, de-duplication by watermark.
 */
module EventStream {
  import opened Common

  const RING_MAX: nat := 10_000
  const RING_TTL_MS := 60 * 60 * 1000

  datatype Frame = Frame(index: int, body: string)

  datatype Buffer = Buffer(events: seq<Frame>, lastTouched: int, nextIndex: int, terminal: bool)

  function NewBuffer(now: int): Buffer {
    Buffer([], now, 0, false)
  }

  /** The last RING_MAX elements. */
  function Ring<T>(s: seq<T>): seq<T> {
    if |s| > RING_MAX then s[|s| - RING_MAX..] else s
  }

  function Allocated(b: Buffer, now: int): Buffer {
    b.(lastTouched := now, nextIndex := b.nextIndex + 1)
  }

  function Emitted(b: Buffer, e: Frame, now: int): Buffer {
    b.(events := Ring(b.events + [e]), lastTouched := now,
       nextIndex := if e.index >= b.nextIndex then e.index + 1 else b.nextIndex)
  }

  /** `publish`: allocate the next index and emit the frame under it. */
  function Published(b: Buffer, body: string, now: int): Buffer {
    Emitted(Allocated(b, now), Frame(b.nextIndex, body), now)
  }

  datatype Message = Data(frame: Frame) | Resync

  /** What a subscriber from `fromIndex` is sent before it is attached. */
  function Replay(buffer: Option<Buffer>, fromIndex: int): seq<Message> {
    if (buffer.None? || buffer.value.events == []) && fromIndex >= 0 then [Resync]
    else if buffer.None? || buffer.value.events == [] then []
    else
      var events := buffer.value.events;
      if events[0].index > fromIndex + 1 || fromIndex > events[|events| - 1].index then [Resync]
      else Newer(events, fromIndex)
  }

  function Newer(events: seq<Frame>, fromIndex: int): seq<Message> {
    if events == [] then []
    else if events[0].index > fromIndex then [Data(events[0])] + Newer(events[1..], fromIndex)
    else Newer(events[1..], fromIndex)
  }

  // ---- The counter stays ahead, whatever index is emitted ----

  predicate Ahead(b: Buffer) {
    forall i :: 0 <= i < |b.events| ==> b.events[i].index < b.nextIndex
  }

  /** The counter is the least number it may be, and handing out or emitting an index counts as activity. */
  lemma CounterStaysAhead(b: Buffer, e: Frame, now: int, n: int)
    requires Ahead(b)
    ensures Ahead(Allocated(b, now)) && Ahead(Emitted(b, e, now))
    ensures Emitted(b, e, now).nextIndex <= n <==> b.nextIndex <= n && e.index < n
    ensures Allocated(b, now).lastTouched == now == Emitted(b, e, now).lastTouched
  {
  }

  // ---- A stream and its client ----

  type ConnId = nat

  /**
   * `published` are the frames of the current buffer lifetime, `lifetime` counts
   * the lifetimes. The client belongs to the lifetime it was loaded in; `wires` holds what each of its open
   * connections has been sent and the client has not read yet.
   */
  datatype Stream = Stream(
    buffer: Option<Buffer>, published: seq<Frame>, lifetime: nat, resident: bool,
    client: Client)

  datatype Client = Client(lifetime: nat, watermark: int, applied: seq<Frame>, resynced: bool,
                           wires: map<ConnId, seq<Message>>)

  datatype Action =
    | Publish(body: string, now: int)
    | Burn(now: int)               // an index handed out and never emitted
    | ClaimTerminal(now: int)
    | MarkResident | ClearResident
    | Sweep(now: int)
    | Load                         // a fresh page: nothing applied, no connection
    | Connect(conn: ConnId)
    | Disconnect(conn: ConnId)     // what the wire still carries is lost
    | Deliver(conn: ConnId)

  const INIT := Stream(None, [], 0, false, Client(0, -1, [], false, map[]))

  function BufferFor(buffer: Option<Buffer>, now: int): Buffer {
    if buffer.Some? then buffer.value else NewBuffer(now)
  }

  function Broadcast(wires: map<ConnId, seq<Message>>, m: Message): map<ConnId, seq<Message>> {
    map c | c in wires :: wires[c] + [m]
  }

  /** The client reads one message: a frame at or below its watermark is dropped. */
  function Read(c: Client, m: Message): Client {
    match m
    case Resync => c.(resynced := true)
    case Data(f) =>
      if f.index <= c.watermark then c
      else c.(watermark := f.index, applied := c.applied + [f])
  }

  function Step(s: Stream, a: Action): Stream {
    match a
    case Publish(body, now) =>
      var b := BufferFor(s.buffer, now);
      var f := Frame(b.nextIndex, body);
      s.(buffer := Some(Published(b, body, now)), published := s.published + [f],
         client := s.client.(wires := Broadcast(s.client.wires, Data(f))))
    case Burn(now) => s.(buffer := Some(Allocated(BufferFor(s.buffer, now), now)))
    case ClaimTerminal(now) =>
      var b := BufferFor(s.buffer, now);
      s.(buffer := Some(b.(terminal := true)))
    case MarkResident => s.(resident := true)
    case ClearResident => s.(resident := false)
    case Sweep(now) =>
      if s.resident || s.buffer.None? || now - s.buffer.value.lastTouched <= RING_TTL_MS then s
      else s.(buffer := None, published := [], lifetime := s.lifetime + 1)
    case Load => s.(client := Client(s.lifetime, -1, [], false, map[]))
    case Connect(c) =>
      s.(client := s.client.(wires := s.client.wires[c := Replay(s.buffer, s.client.watermark)]))
    case Disconnect(c) => s.(client := s.client.(wires := s.client.wires - {c}))
    case Deliver(c) =>
      if c in s.client.wires && s.client.wires[c] != [] then
        s.(client := Read(s.client.(wires := s.client.wires[c := s.client.wires[c][1..]]), s.client.wires[c][0]))
      else s
  }

  function Run(s: Stream, actions: seq<Action>): Stream {
    if actions == [] then s else Step(Run(s, actions[..|actions| - 1]), actions[|actions| - 1])
  }

  // ---- The invariant ----

  predicate Increasing(frames: seq<Frame>) {
    forall i, j :: 0 <= i < j < |frames| ==> frames[i].index < frames[j].index
  }

  /** The buffer is the ring of what was published, under indices below the counter. */
  predicate Buffers(b: Buffer, published: seq<Frame>) {
    && b.events == Ring(published)
    && b.nextIndex >= 0
    && (forall i :: 0 <= i < |published| ==> 0 <= published[i].index < b.nextIndex)
    && Increasing(published)
  }

  predicate BufferAgrees(s: Stream) {
    if s.buffer.Some? then Buffers(s.buffer.value, s.published) else s.published == []
  }

  function Watermark(applied: seq<Frame>): int {
    if applied == [] then -1 else applied[|applied| - 1].index
  }

  /** What is on a wire: a resync first, or all that was published from a frame the client has or needs next. */
  predicate WireAgrees(wire: seq<Message>, published: seq<Frame>, applied: nat) {
    (wire != [] && wire[0].Resync?)
    || (|published| - applied <= |wire| <= |published|
        && forall i :: 0 <= i < |wire| ==> wire[i] == Data(published[|published| - |wire| + i]))
  }

  predicate Exact(s: Stream) {
    && |s.client.applied| <= |s.published|
    && s.client.applied == s.published[..|s.client.applied|]
    && s.client.watermark == Watermark(s.client.applied)
    && forall c :: c in s.client.wires ==> WireAgrees(s.client.wires[c], s.published, |s.client.applied|)
  }

  predicate Inv(s: Stream) {
    && BufferAgrees(s)
    && s.client.lifetime <= s.lifetime
    && (s.client.lifetime == s.lifetime && !s.client.resynced ==> Exact(s))
  }

  lemma RingOfAppend<T>(s: seq<T>, x: T)
    ensures Ring(Ring(s) + [x]) == Ring(s + [x])
  {
  }

  lemma PublishKeepsBuffer(b: Buffer, published: seq<Frame>, body: string, now: int)
    requires Buffers(b, published)
    ensures Buffers(Published(b, body, now), published + [Frame(b.nextIndex, body)])
  {
    RingOfAppend(published, Frame(b.nextIndex, body));
  }

  lemma WireAfterPublish(wire: seq<Message>, published: seq<Frame>, applied: nat, f: Frame)
    requires WireAgrees(wire, published, applied)
    ensures WireAgrees(wire + [Data(f)], published + [f], applied)
  {
  }

  lemma PublishKeepsInv(s: Stream, body: string, now: int)
    requires Inv(s)
    ensures Inv(Step(s, Publish(body, now)))
  {
    PublishKeepsBuffer(BufferFor(s.buffer, now), s.published, body, now);
    if s.client.lifetime == s.lifetime && !s.client.resynced {
      assert Exact(Step(s, Publish(body, now))) by {
        var f := Frame(BufferFor(s.buffer, now).nextIndex, body);
        assert s.client.applied == (s.published + [f])[..|s.client.applied|];
        forall c | c in s.client.wires
          ensures WireAgrees(s.client.wires[c] + [Data(f)], s.published + [f], |s.client.applied|)
        {
          WireAfterPublish(s.client.wires[c], s.published, |s.client.applied|, f);
        }
      }
    }
  }

  /** The watermark separates what was applied from what was not. */
  lemma WatermarkSeparates(published: seq<Frame>, applied: nat)
    requires Increasing(published) && applied <= |published|
    requires forall i :: 0 <= i < |published| ==> published[i].index >= 0
    ensures var w := Watermark(published[..applied]);
      forall i :: 0 <= i < |published| ==> (published[i].index <= w <==> i < applied)
  {
  }

  /** The frames on a wire. */
  function Frames(frames: seq<Frame>): seq<Message> {
    seq(|frames|, i requires 0 <= i < |frames| => Data(frames[i]))
  }

  /** The frames of a ring after the first `k`, where those are the ones at or below `fromIndex`. */
  lemma {:induction false} NewerIsTail(events: seq<Frame>, fromIndex: int, k: nat)
    requires k <= |events| && forall i :: 0 <= i < |events| ==> (events[i].index <= fromIndex <==> i < k)
    ensures Newer(events, fromIndex) == Frames(events[k..])
  {
    if events != [] {
      var rest := events[1..];
      assert forall i :: 0 <= i < |rest| ==> rest[i] == events[i + 1];
      if k == 0 {
        NewerIsTail(rest, fromIndex, 0);
        assert events[0..] == events && rest[0..] == rest;
        assert Frames(events) == [Data(events[0])] + Frames(rest);
      } else {
        NewerIsTail(rest, fromIndex, k - 1);
        assert rest[k - 1..] == events[k..];
      }
    }
  }

  lemma SuffixAgrees(published: seq<Frame>, from: nat, applied: nat)
    requires Increasing(published) && from <= applied <= |published|
    requires forall i :: 0 <= i < |published| ==> published[i].index >= 0
    ensures WireAgrees(Newer(published[from..], Watermark(published[..applied])), published, applied)
  {
    WatermarkSeparates(published, applied);
    NewerIsTail(published[from..], Watermark(published[..applied]), applied - from);
    assert published[from..][applied - from..] == published[applied..];
  }

  /** Subscribing from the watermark sends a resync or exactly what is missing: never a gap. */
  lemma ReplayAgrees(buffer: Option<Buffer>, published: seq<Frame>, applied: nat)
    requires Increasing(published) && applied <= |published|
    requires forall i :: 0 <= i < |published| ==> published[i].index >= 0
    requires if buffer.None? then published == [] else buffer.value.events == Ring(published)
    ensures WireAgrees(Replay(buffer, Watermark(published[..applied])), published, applied)
  {
    if published != [] {
      var w, from := Watermark(published[..applied]), if |published| > RING_MAX then |published| - RING_MAX else 0;
      assert buffer.value.events == published[from..];
      if from <= applied {
        SuffixAgrees(published, from, applied);
      } else {
        assert published[from].index > published[applied].index > w by {
          WatermarkSeparates(published, applied);
        }
      }
    }
  }

  lemma WireAfterReading(wire: seq<Message>, published: seq<Frame>, applied: nat)
    requires WireAgrees(wire, published, applied) && wire != [] && wire[0].Data? && applied <= |published|
    ensures |wire| <= |published| && wire[0].frame == published[|published| - |wire|]
    ensures |published| - |wire| <= applied
    ensures WireAgrees(wire[1..], published, if |published| - |wire| < applied then applied else applied + 1)
  {
  }

  lemma WireAllowsMore(wire: seq<Message>, published: seq<Frame>, applied: nat)
    requires WireAgrees(wire, published, applied)
    ensures WireAgrees(wire, published, applied + 1)
  {
  }

  lemma DeliverKeepsExact(s: Stream, c: ConnId)
    requires BufferAgrees(s) && Exact(s) && c in s.client.wires && s.client.wires[c] != []
    requires s.client.wires[c][0].Data?
    ensures Exact(Step(s, Deliver(c)))
  {
    var wire, k, n := s.client.wires[c], |s.client.applied|, |s.published|;
    WireAfterReading(wire, s.published, k);
    WatermarkSeparates(s.published, k);
    var s' := Step(s, Deliver(c));
    if n - |wire| == k {
      NextFrameKeepsExact(s, c);
    }
  }

  /** The frame at the head of the wire is the next one. */
  lemma NextFrameKeepsExact(s: Stream, c: ConnId)
    requires BufferAgrees(s) && Exact(s) && c in s.client.wires && s.client.wires[c] != []
    requires |s.published| - |s.client.wires[c]| == |s.client.applied| && s.client.wires[c][0].Data?
    ensures Exact(Step(s, Deliver(c)))
  {
    var wire, k := s.client.wires[c], |s.client.applied|;
    WireAfterReading(wire, s.published, k);
    WatermarkSeparates(s.published, k);
    var s' := Step(s, Deliver(c));
    assert wire[0] == Data(s.published[k]);
    assert s.published[..k + 1] == s.client.applied + [s.published[k]];
    forall d | d in s'.client.wires ensures WireAgrees(s'.client.wires[d], s.published, k + 1) {
      if d != c { WireAllowsMore(s.client.wires[d], s.published, k); }
    }
  }

  lemma DeliverKeepsInv(s: Stream, c: ConnId)
    requires Inv(s)
    ensures Inv(Step(s, Deliver(c)))
  {
    if s.client.lifetime == s.lifetime && !s.client.resynced && c in s.client.wires && s.client.wires[c] != [] {
      if s.client.wires[c][0].Data? { DeliverKeepsExact(s, c); }
    }
  }

  lemma StepKeepsInv(s: Stream, a: Action)
    requires Inv(s)
    ensures Inv(Step(s, a))
  {
    match a
    case Publish(body, now) => PublishKeepsInv(s, body, now);
    case Deliver(c) => DeliverKeepsInv(s, c);
    case Connect(c) =>
      if s.client.lifetime == s.lifetime && !s.client.resynced {
        ReplayAgrees(s.buffer, s.published, |s.client.applied|);
      }
    case _ =>
  }

  lemma {:induction false} EveryRunKeepsInv(actions: seq<Action>)
    ensures Inv(Run(INIT, actions))
  {
    if actions != [] {
      EveryRunKeepsInv(actions[..|actions| - 1]);
      StepKeepsInv(Run(INIT, actions[..|actions| - 1]), actions[|actions| - 1]);
    }
  }

  // ---- Main results ----

  /**
   * Reconnecting delivery: whatever connects, drops and reconnects, a client
   * loaded in the current lifetime that has read no resync has applied exactly
   * the frames published so far up to its watermark, in order, each once; and it
   * is up to date as soon as a connection without a resync has nothing unread.
   */
  lemma {:induction false} DeliveryIsExact(actions: seq<Action>)
    ensures var s := Run(INIT, actions);
      s.client.lifetime == s.lifetime && !s.client.resynced ==>
        && s.client.applied <= s.published
        && (forall i :: 0 <= i < |s.published| ==>
              (s.published[i].index <= s.client.watermark <==> i < |s.client.applied|))
        && (forall c :: c in s.client.wires && s.client.wires[c] == [] ==> s.client.applied == s.published)
  {
    EveryRunKeepsInv(actions);
    var s := Run(INIT, actions);
    if s.client.lifetime == s.lifetime && !s.client.resynced {
      ExactMeans(s, s.published, s.client);
    }
  }

  lemma ExactMeans(s: Stream, published: seq<Frame>, client: Client)
    requires BufferAgrees(s) && Exact(s) && s.published == published && s.client == client
    ensures client.applied <= published
    ensures forall i :: 0 <= i < |published| ==> (published[i].index <= client.watermark <==> i < |client.applied|)
    ensures forall c :: c in client.wires && client.wires[c] == [] ==> client.applied == published
  {
    WatermarkSeparates(published, |client.applied|);
    forall c | c in client.wires && client.wires[c] == [] ensures client.applied == published {
      assert WireAgrees(client.wires[c], published, |client.applied|);
      assert |client.applied| == |published|;
    }
  }

  // ---- When a subscriber is replayed, and when it is told to resync ----

  /**
   * Any subscriber, from any index: with nothing buffered it is told to resync if
   * it has seen a frame; else it is told so if and only if the ring starts beyond
   * its next frame or ends before its last, and otherwise it is sent what is newer.
   */
  lemma SubscriberIsSent(events: seq<Frame>, now: int, next: int, terminal: bool, fromIndex: int, k: nat)
    requires k <= |events| && forall i :: 0 <= i < |events| ==> (events[i].index <= fromIndex <==> i < k)
    ensures Replay(None, fromIndex) == if fromIndex >= 0 then [Resync] else []
    ensures events == [] ==> Replay(Some(Buffer([], now, next, terminal)), fromIndex) == Replay(None, fromIndex)
    ensures events != [] ==>
      Replay(Some(Buffer(events, now, next, terminal)), fromIndex) ==
      if events[0].index > fromIndex + 1 || events[|events| - 1].index < fromIndex then [Resync]
      else Frames(events[k..])
  {
    NewerIsTail(events, fromIndex, k);
  }

  /** Where the ring starts among the frames published. */
  function RingStart(published: seq<Frame>): nat {
    if |published| > RING_MAX then |published| - RING_MAX else 0
  }

  lemma RingSeparates(published: seq<Frame>, applied: nat, k: nat)
    requires Increasing(published) && published != [] && applied <= |published|
    requires forall i :: 0 <= i < |published| ==> published[i].index >= 0
    requires k == if RingStart(published) <= applied then applied - RingStart(published) else 0
    ensures var w, first, events := Watermark(published[..applied]), RingStart(published), Ring(published);
      && events == published[first..] && events != []
      && (forall i :: 0 <= i < |events| ==> (events[i].index <= w <==> i < k))
      && events[|events| - 1].index >= w
      && (events[0].index > w + 1 <==>
            |published| - applied > RING_MAX
            || (applied == first < |published| && published[first].index != w + 1))
  {
    WatermarkSeparates(published, applied);
    var first := RingStart(published);
    if first > applied {
      assert published[first].index > published[applied].index > Watermark(published[..applied]);
    }
  }

  /**
   * What a client that has applied the first `applied` frames is sent when it
   * subscribes. Where indices were burnt it may also be told to resync although
   * the ring still has its next frame, if that is the first in the ring.
   */
  lemma ReplayIsExact(buffer: Option<Buffer>, published: seq<Frame>, applied: nat)
    requires Increasing(published) && applied <= |published|
    requires forall i :: 0 <= i < |published| ==> published[i].index >= 0
    requires if buffer.None? then published == [] else buffer.value.events == Ring(published)
    ensures var w, first := Watermark(published[..applied]), RingStart(published);
      Replay(buffer, w) ==
      if |published| - applied > RING_MAX
         || (applied == first < |published| && published[first].index != w + 1)
      then [Resync] else Frames(published[applied..])
  {
    if published != [] {
      var b := buffer.value;
      assert b == Buffer(b.events, b.lastTouched, b.nextIndex, b.terminal);
      RingIsReplayed(b, published, applied);
    }
  }

  lemma RingIsReplayed(b: Buffer, published: seq<Frame>, applied: nat)
    requires Increasing(published) && published != [] && applied <= |published| && b.events == Ring(published)
    requires forall i :: 0 <= i < |published| ==> published[i].index >= 0
    ensures var w, first := Watermark(published[..applied]), RingStart(published);
      Replay(Some(b), w) ==
      if |published| - applied > RING_MAX
         || (applied == first < |published| && published[first].index != w + 1)
      then [Resync] else Frames(published[applied..])
  {
    var w, first := Watermark(published[..applied]), RingStart(published);
    var k := if first <= applied then applied - first else 0;
    RingSeparates(published, applied, k);
    SubscriberIsSent(b.events, b.lastTouched, b.nextIndex, b.terminal, w, k);
    if first <= applied {
      assert b.events[k..] == published[applied..];
    }
  }

  /**
   * Reconnecting: a client of this lifetime that has read no resync is told to
   * resync if and only if the ring has dropped its next frame, or holds it first
   * and an index before it was burnt; and is otherwise sent exactly what it lacks.
   */
  lemma {:induction false} ReconnectingIsExact(actions: seq<Action>, conn: ConnId)
    requires var s := Run(INIT, actions); s.client.lifetime == s.lifetime && !s.client.resynced
    ensures var s := Run(INIT, actions);
      var k, n := |s.client.applied|, |s.published|;
      var atRingStart := n == k + 10_000 || (k == 0 && n <= 10_000);
      var gap := k < n && atRingStart && s.published[k].index != s.client.watermark + 1;
      var wires := Step(s, Connect(conn)).client.wires;
      && conn in wires && k <= n
      && wires[conn] == if n - k > 10_000 || gap then [Resync] else Frames(s.published[k..])
  {
    EveryRunKeepsInv(actions);
    var s := Run(INIT, actions);
    ReplayIsExact(s.buffer, s.published, |s.client.applied|);
  }

  /** With no index burnt, it is told to resync if and only if it is more than a whole ring behind. */
  lemma {:induction false} ResyncOnlyWhenDropped(actions: seq<Action>, conn: ConnId)
    requires forall i :: 0 <= i < |actions| ==> !actions[i].Burn?
    requires var s := Run(INIT, actions); s.client.lifetime == s.lifetime && !s.client.resynced
    ensures var s := Run(INIT, actions);
      var k, n := |s.client.applied|, |s.published|;
      var wires := Step(s, Connect(conn)).client.wires;
      && conn in wires && k <= n
      && wires[conn] == if n - k > 10_000 then [Resync] else Frames(s.published[k..])
  {
    ReconnectingIsExact(actions, conn);
    IndicesAreDense(actions);
    EveryRunKeepsInv(actions);
    var s := Run(INIT, actions);
    assert s.client.watermark == |s.client.applied| - 1;
  }

  function Deliveries(conn: ConnId, n: nat): seq<Action> {
    seq(n, i => Deliver(conn))
  }

  lemma DeliveryPops(s: Stream, conn: ConnId)
    requires conn in s.client.wires && s.client.wires[conn] != []
    ensures var s', wire := Step(s, Deliver(conn)), s.client.wires[conn];
      && s' == s.(client := s'.client) && s'.client.lifetime == s.client.lifetime
      && conn in s'.client.wires && s'.client.wires[conn] == wire[1..]
      && (s'.client.resynced <==> s.client.resynced || wire[0] == Resync)
  {
  }

  lemma {:induction false} DeliveriesEmptyTheWire(s: Stream, conn: ConnId, n: nat)
    requires conn in s.client.wires && n <= |s.client.wires[conn]|
    ensures var s', wire := Run(s, Deliveries(conn, n)), s.client.wires[conn];
      && s' == s.(client := s'.client) && s'.client.lifetime == s.client.lifetime
      && conn in s'.client.wires && s'.client.wires[conn] == wire[n..]
      && (s'.client.resynced <==> s.client.resynced || Resync in wire[..n])
      && (Inv(s) ==> Inv(s'))
  {
    if n > 0 {
      var before := Deliveries(conn, n - 1);
      assert Deliveries(conn, n)[..n - 1] == before;
      DeliveriesEmptyTheWire(s, conn, n - 1);
      var mid, wire := Run(s, before), s.client.wires[conn];
      DeliveryPops(mid, conn);
      assert wire[n - 1..][1..] == wire[n..] && wire[..n] == wire[..n - 1] + [wire[n - 1]];
      if Inv(mid) {
        StepKeepsInv(mid, Deliver(conn));
      }
    }
  }

  /** A client that connects and reads all it is sent has then applied all there is, or been told to resync. */
  lemma {:induction false} ReconnectingCatchesUp(actions: seq<Action>, conn: ConnId)
    requires forall i :: 0 <= i < |actions| ==> !actions[i].Burn?
    requires var s := Run(INIT, actions); s.client.lifetime == s.lifetime && !s.client.resynced
    ensures var s := Run(INIT, actions);
      var up := Step(s, Connect(conn));
      var after := Run(up, Deliveries(conn, |up.client.wires[conn]|));
      && conn in up.client.wires && after == s.(client := after.client)
      && (after.client.resynced <==> |s.published| - |s.client.applied| > 10_000)
      && (!after.client.resynced ==> after.client.applied == s.published)
  {
    EveryRunKeepsInv(actions);
    ResyncOnlyWhenDropped(actions, conn);
    var s := Run(INIT, actions);
    var up := Step(s, Connect(conn));
    StepKeepsInv(s, Connect(conn));
    DeliveriesEmptyTheWire(up, conn, |up.client.wires[conn]|);
  }

  /** So does a page freshly loaded, whatever it was before: with a ring full it sees all there is. */
  lemma {:induction false} FreshPageCatchesUp(actions: seq<Action>, conn: ConnId)
    requires forall i :: 0 <= i < |actions| ==> !actions[i].Burn?
    ensures var s := Run(INIT, actions);
      var up := Run(INIT, actions + [Load, Connect(conn)]);
      conn in up.client.wires &&
      var after := Run(up, Deliveries(conn, |up.client.wires[conn]|));
      && (after.client.resynced <==> |s.published| > 10_000)
      && (|s.published| <= 10_000 ==> after.client.applied == s.published)
  {
    var loaded := actions + [Load];
    assert loaded[..|actions|] == actions && (actions + [Load, Connect(conn)])[..|actions| + 1] == loaded;
    ReconnectingCatchesUp(loaded, conn);
  }

  /** Open from the last time it connected to when it disconnects or the page is loaded anew. */
  predicate Open(actions: seq<Action>, conn: ConnId) {
    actions != [] &&
    match actions[|actions| - 1]
    case Load => false
    case Connect(c) => c == conn || Open(actions[..|actions| - 1], conn)
    case Disconnect(c) => c != conn && Open(actions[..|actions| - 1], conn)
    case _ => Open(actions[..|actions| - 1], conn)
  }

  lemma {:induction false} OpenConnectionsAreServed(actions: seq<Action>, conn: ConnId)
    ensures conn in Run(INIT, actions).client.wires <==> Open(actions, conn)
  {
    if actions != [] {
      OpenConnectionsAreServed(actions[..|actions| - 1], conn);
    }
  }

  /** A client ahead of all that is buffered, as one of an earlier lifetime may be, is always told to resync. */
  lemma {:induction false} StrangersResync(actions: seq<Action>, conn: ConnId)
    ensures var s := Run(INIT, actions);
      var w, wires := s.client.watermark, Step(s, Connect(conn)).client.wires;
      && conn in wires
      && (s.published == [] ==> wires[conn] == if w >= 0 then [Resync] else [])
      && (s.published != [] && w > s.published[|s.published| - 1].index ==> wires[conn] == [Resync])
  {
    EveryRunKeepsInv(actions);
    var s := Run(INIT, actions);
    if s.published != [] {
      assert s.buffer.value.events == Ring(s.published);
    }
  }

  /** The buffer always holds the last RING_MAX frames of its lifetime. */
  lemma {:induction false} RingHoldsTheTail(actions: seq<Action>)
    ensures var s := Run(INIT, actions);
      s.buffer.Some? ==> s.buffer.value.events == Ring(s.published) && Ahead(s.buffer.value)
  {
    EveryRunKeepsInv(actions);
  }

  /** When no index is burnt, the indices of a lifetime are 0, 1, 2, ... without a hole. */
  lemma {:induction false} IndicesAreDense(actions: seq<Action>)
    requires forall i :: 0 <= i < |actions| ==> !actions[i].Burn?
    ensures var s := Run(INIT, actions);
      && (forall i :: 0 <= i < |s.published| ==> s.published[i].index == i)
      && (s.buffer.Some? ==> s.buffer.value.nextIndex == |s.published|)
      && (s.buffer.None? ==> s.published == [])
  {
    if actions != [] {
      IndicesAreDense(actions[..|actions| - 1]);
    }
  }

  /** The indices of the current lifetime that were handed out and never emitted. */
  function Burnt(actions: seq<Action>): nat {
    if actions == [] then 0
    else
      var before := actions[..|actions| - 1];
      if Run(INIT, actions).lifetime != Run(INIT, before).lifetime then 0
      else Burnt(before) + if actions[|actions| - 1].Burn? then 1 else 0
  }

  /** When the job was last heard of: a frame, an index, or a claim that opened the buffer. */
  function Heard(actions: seq<Action>): int {
    if actions == [] then 0
    else
      match actions[|actions| - 1]
      case Publish(_, now) => now
      case Burn(now) => now
      case ClaimTerminal(now) =>
        if Run(INIT, actions[..|actions| - 1]).buffer.None? then now else Heard(actions[..|actions| - 1])
      case _ => Heard(actions[..|actions| - 1])
  }

  /** No index is handed out twice in a lifetime: the counter is the number handed out. */
  lemma {:induction false} IndicesAreCounted(actions: seq<Action>)
    ensures var s := Run(INIT, actions);
      if s.buffer.None? then s.published == [] && Burnt(actions) == 0
      else s.buffer.value.nextIndex == |s.published| + Burnt(actions) && s.buffer.value.lastTouched == Heard(actions)
  {
    if actions != [] {
      IndicesAreCounted(actions[..|actions| - 1]);
    }
  }

  /** Resident from the last mark on, until it is cleared. */
  predicate Marked(actions: seq<Action>) {
    actions != []
    && (actions[|actions| - 1].MarkResident?
        || (!actions[|actions| - 1].ClearResident? && Marked(actions[..|actions| - 1])))
  }

  /** Nothing but its marking and clearing decides whether a job counts as resident. */
  lemma {:induction false} ResidencyIsMarked(actions: seq<Action>)
    ensures Run(INIT, actions).resident <==> Marked(actions)
  {
    if actions != [] {
      ResidencyIsMarked(actions[..|actions| - 1]);
    }
  }

  /** While a job is resident its buffer is never swept: the lifetime, the frames and the counter go on. */
  lemma {:induction false} ResidentBuffersSurvive(s: Stream, actions: seq<Action>)
    requires s.resident && forall i :: 0 <= i < |actions| ==> !actions[i].ClearResident?
    ensures var s' := Run(s, actions);
      && s'.resident && s'.lifetime == s.lifetime && s.published <= s'.published
      && (s.buffer.Some? ==> s'.buffer.Some? && s'.buffer.value.nextIndex >= s.buffer.value.nextIndex)
  {
    if actions != [] {
      ResidentBuffersSurvive(s, actions[..|actions| - 1]);
    }
  }

  /** A sweep forgets a buffer exactly when the job is not resident and has been quiet for more than an hour. */
  lemma SweepForgetsExactly(s: Stream, now: int)
    ensures var s' := Step(s, Sweep(now));
      if !s.resident && s.buffer.Some? && now > s.buffer.value.lastTouched + 3_600_000
      then s'.buffer == None && s'.lifetime == s.lifetime + 1 && s'.client == s.client
      else s' == s
  {
  }

  /** The lifetime has not ended since `first`, and its buffer was touched at `at` or later. */
  predicate Lives(first: Stream, s: Stream, at: int) {
    && s.lifetime == first.lifetime && first.published <= s.published
    && s.buffer.Some? && s.buffer.value.lastTouched >= at
  }

  lemma StepKeepsLiving(first: Stream, s: Stream, a: Action, at: int)
    requires Lives(first, s, at) && (a.Sweep? ==> a.now <= at + 3_600_000)
    requires a.Publish? || a.Burn? ==> at <= a.now
    ensures Lives(first, Step(s, a), at)
  {
  }

  /** A published frame is kept for an hour, whatever is swept in that time, resident or not. */
  lemma {:induction false} RecentFramesSurvive(s: Stream, body: string, at: int, actions: seq<Action>)
    requires forall i :: 0 <= i < |actions| && actions[i].Sweep? ==> actions[i].now <= at + 3_600_000
    requires forall i :: 0 <= i < |actions| && (actions[i].Publish? || actions[i].Burn?) ==> at <= actions[i].now
    ensures var first := Step(s, Publish(body, at)); Lives(first, Run(first, actions), at)
  {
    if actions != [] {
      var first := Step(s, Publish(body, at));
      RecentFramesSurvive(s, body, at, actions[..|actions| - 1]);
      StepKeepsLiving(first, Run(first, actions[..|actions| - 1]), actions[|actions| - 1], at);
    }
  }

  predicate Ended(s: Stream) {
    s.buffer.Some? && s.buffer.value.terminal
  }

  /** How many of the terminal claims in a run succeed. */
  function Wins(s: Stream, actions: seq<Action>): nat {
    if actions == [] then 0
    else
      var before, a := actions[..|actions| - 1], actions[|actions| - 1];
      Wins(s, before) + if a.ClaimTerminal? && !Ended(Run(s, before)) then 1 else 0
  }

  /** While a job stays resident, exactly one claim succeeds if any is made, and none once it has ended. */
  lemma {:induction false} OneTerminalClaim(s: Stream, actions: seq<Action>)
    requires s.resident && forall i :: 0 <= i < |actions| ==> !actions[i].ClearResident?
    ensures Wins(s, actions) <= 1
    ensures Wins(s, actions) == 1 <==>
      !Ended(s) && exists i :: 0 <= i < |actions| && actions[i].ClaimTerminal?
    ensures Ended(Run(s, actions)) <==> Ended(s) || Wins(s, actions) == 1
  {
    if actions != [] {
      var before := actions[..|actions| - 1];
      ResidentBuffersSurvive(s, before);
      OneTerminalClaim(s, before);
      assert forall i :: 0 <= i < |before| ==> before[i] == actions[i];
    }
  }

  /**
   * Why a resident buffer must survive: once it is swept, a client that had
   * applied a frame drops the first frame of the next lifetime as already seen.
   */
  lemma SweptBufferLosesFrames(s: Stream, conn: ConnId, body: string, now: int)
    requires Inv(s) && s.client.watermark >= 0 && conn in s.client.wires && s.client.wires[conn] == []
    requires !s.resident && s.buffer.Some? && now - s.buffer.value.lastTouched > RING_TTL_MS
    ensures var s' := Step(Step(Step(s, Sweep(now)), Publish(body, now)), Deliver(conn));
      s'.published == [Frame(0, body)] && s'.client.applied == s.client.applied
  {
  }
}
