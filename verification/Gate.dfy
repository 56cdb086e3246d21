/**
 * The concurrency gate in front of a rate-limited service (server/src/lib/kimi.ts):
 * a task that finds no permit waits, and a task that ends hands its permit straight
 * to the one that has waited longest.
 */
module Gate {
  import opened Common

  /** Tasks are numbered by arrival. */
  type Task = nat

  /** The gate's own fields. */
  datatype Door = Door(active: nat, waiting: seq<Task>)

  /** A task is let in at once, or waits. */
  function Arrive(d: Door, limit: nat, t: Task): (Door, bool) {
    if d.active >= limit then (d.(waiting := d.waiting + [t]), false) else (d.(active := d.active + 1), true)
  }

  /** A task ends: its permit goes to the next in line, who is named, or is given back. */
  function Leave(d: Door): (Door, Option<Task>)
    requires d.active > 0 || d.waiting != []
  {
    if d.waiting != [] then (d.(waiting := d.waiting[1..]), Some(d.waiting[0]))
    else (d.(active := d.active - 1), None)
  }

  class ConcurrencyGate {
    var active: nat
    var waiting: seq<Task>
    const limit: nat

    constructor (limit: nat)
      ensures State() == Door(0, []) && this.limit == limit
    {
      active, waiting, this.limit := 0, [], limit;
    }

    function State(): Door
      reads this
    {
      Door(active, waiting)
    }

    /** What a task does before its work: false if it has to wait for its turn. */
    method Enter(t: Task) returns (inside: bool)
      modifies this
      ensures (State(), inside) == Arrive(old(State()), limit, t)
    {
      if active >= limit {
        waiting := waiting + [t];
        inside := false;
      } else {
        active := active + 1;
        inside := true;
      }
    }

    /** What a task does after its work, whether that succeeded or threw. */
    method Exit() returns (next: Option<Task>)
      requires active > 0 || waiting != []
      modifies this
      ensures (State(), next) == Leave(old(State()))
    {
      if waiting != [] {
        next, waiting := Some(waiting[0]), waiting[1..];
      } else {
        next, active := None, active - 1;
      }
    }
  }

  // ---- Every interleaving ----

  /**
   * The gate with its tasks: `handed` have been given a permit and not yet gone on,
   * `queued` are all that ever had to wait and `resumed` those of them that went on.
   */
  datatype Hall = Hall(door: Door, arrived: nat, running: set<Task>, handed: seq<Task>, finished: set<Task>,
                       queued: seq<Task>, resumed: seq<Task>)

  const EMPTY := Hall(Door(0, []), 0, {}, [], {}, [], [])

  datatype Action = Come | GoOn | End(task: Task)

  function Step(h: Hall, a: Action, limit: nat): Hall {
    match a
    case Come =>
      var (door, inside) := Arrive(h.door, limit, h.arrived);
      var after := h.(door := door, arrived := h.arrived + 1);
      if inside then after.(running := h.running + {h.arrived}) else after.(queued := h.queued + [h.arrived])
    case GoOn =>
      if h.handed == [] then h
      else h.(running := h.running + {h.handed[0]}, resumed := h.resumed + [h.handed[0]], handed := h.handed[1..])
    case End(t) =>
      if t !in h.running || (h.door.active == 0 && h.door.waiting == []) then h
      else
        var (door, next) := Leave(h.door);
        h.(door := door, running := h.running - {t}, finished := h.finished + {t},
           handed := if next.Some? then h.handed + [next.value] else h.handed)
  }

  function Run(actions: seq<Action>, limit: nat): Hall {
    if actions == [] then EMPTY else Step(Run(actions[..|actions| - 1], limit), actions[|actions| - 1], limit)
  }

  predicate InLine(h: Hall, t: Task) {
    t in h.handed || t in h.door.waiting
  }

  predicate Permits(h: Hall, limit: nat) {
    && |h.running| + |h.handed| == h.door.active <= limit
    && (h.door.waiting != [] ==> h.door.active == limit)
  }

  /** Those who had to wait are resumed, handed a permit, or waiting, in the order they came. */
  ghost predicate FirstComeFirstServed(h: Hall) {
    && h.resumed + h.handed + h.door.waiting == h.queued
    && (forall i, j :: 0 <= i < j < |h.queued| ==> h.queued[i] < h.queued[j])
    && (forall i :: 0 <= i < |h.queued| ==> h.queued[i] < h.arrived)
  }

  /** Every task that came is in exactly one place. */
  ghost predicate Placed(h: Hall) {
    && (forall t: Task :: t in h.running || t in h.finished || InLine(h, t) <==> t < h.arrived)
    && h.running !! h.finished
    && (forall t :: InLine(h, t) ==> t !in h.running && t !in h.finished)
  }

  ghost predicate Inv(h: Hall, limit: nat) {
    Permits(h, limit) && FirstComeFirstServed(h) && Placed(h)
  }

  lemma LineIsDistinct(h: Hall)
    requires FirstComeFirstServed(h)
    ensures h.handed != [] ==> !(h.handed[0] in h.handed[1..]) && h.handed[0] !in h.door.waiting
    ensures h.door.waiting != [] ==> h.door.waiting[0] !in h.door.waiting[1..] && h.door.waiting[0] !in h.handed
  {
    var n, m := |h.resumed|, |h.resumed| + |h.handed|;
    assert forall i :: 0 <= i < |h.handed| ==> h.queued[n + i] == h.handed[i];
    assert forall i :: 0 <= i < |h.door.waiting| ==> h.queued[m + i] == h.door.waiting[i];
  }

  lemma ComeKeepsInv(h: Hall, limit: nat)
    requires Inv(h, limit)
    ensures Inv(Step(h, Come, limit), limit)
  {
    var after := Step(h, Come, limit);
    assert h.arrived !in h.running && h.arrived !in h.finished && !InLine(h, h.arrived);
    if h.door.active >= limit {
      assert after.resumed + after.handed + after.door.waiting == h.queued + [h.arrived];
      assert forall t :: InLine(after, t) <==> InLine(h, t) || t == h.arrived;
    } else {
      assert forall t :: InLine(after, t) <==> InLine(h, t);
    }
  }

  lemma GoOnKeepsInv(h: Hall, limit: nat)
    requires Inv(h, limit) && h.handed != []
    ensures Inv(Step(h, GoOn, limit), limit)
  {
    var after := Step(h, GoOn, limit);
    var t0 := h.handed[0];
    LineIsDistinct(h);
    assert InLine(h, t0) && h.handed == [t0] + after.handed;
    assert after.resumed + after.handed == h.resumed + h.handed;
    forall t ensures InLine(h, t) <==> InLine(after, t) || t == t0 {
    }
  }

  /** Handing over moves the head of the queue to the end of those handed a permit. */
  lemma HandOver(handed: seq<Task>, waiting: seq<Task>)
    requires waiting != []
    ensures handed + [waiting[0]] + waiting[1..] == handed + waiting
    ensures forall u :: u in handed + [waiting[0]] || u in waiting[1..] <==> u in handed || u in waiting
  {
    var all := handed + waiting;
    assert all == handed + [waiting[0]] + waiting[1..];
    assert forall u :: u in waiting <==> u == waiting[0] || u in waiting[1..];
  }

  lemma EndKeepsPlaced(h: Hall, t: Task, limit: nat)
    requires Inv(h, limit) && t in h.running
    ensures Placed(Step(h, End(t), limit))
  {
    var after := Step(h, End(t), limit);
    if h.door.waiting != [] {
      HandOver(h.handed, h.door.waiting);
    }
    assert h.door.active > 0 by {
      assert |h.running - {t}| == |h.running| - 1;
    }
    assert forall u :: InLine(after, u) <==> InLine(h, u);
  }

  lemma EndKeepsInv(h: Hall, t: Task, limit: nat)
    requires Inv(h, limit) && t in h.running
    ensures Inv(Step(h, End(t), limit), limit)
  {
    var after := Step(h, End(t), limit);
    EndKeepsPlaced(h, t, limit);
    assert |h.running - {t}| == |h.running| - 1;
    if h.door.waiting != [] {
      HandOver(h.handed, h.door.waiting);
      assert after.resumed + after.handed + after.door.waiting == h.resumed + (after.handed + after.door.waiting);
      assert h.resumed + h.handed + h.door.waiting == h.resumed + (h.handed + h.door.waiting);
    }
  }

  lemma {:induction false} EveryRunKeepsInv(actions: seq<Action>, limit: nat)
    ensures Inv(Run(actions, limit), limit)
  {
    if actions != [] {
      var h := Run(actions[..|actions| - 1], limit);
      EveryRunKeepsInv(actions[..|actions| - 1], limit);
      match actions[|actions| - 1]
      case Come => ComeKeepsInv(h, limit);
      case GoOn => if h.handed != [] { GoOnKeepsInv(h, limit); }
      case End(t) => if t in h.running { EndKeepsInv(h, t, limit); }
    }
  }

  // ---- Main results ----

  /** Never more than the limit at once, no permit lost or made, and nobody overtakes a task that waits. */
  lemma {:induction false} AtMostTheLimit(actions: seq<Action>, limit: nat)
    ensures var h := Run(actions, limit);
      && |h.running| <= |h.running| + |h.handed| == h.door.active <= limit
      && (h.door.waiting != [] ==> h.door.active == limit)
      && h.resumed + h.handed <= h.queued
      && (forall i, j :: 0 <= i < j < |h.resumed| ==> h.resumed[i] < h.resumed[j])
  {
    EveryRunKeepsInv(actions, limit);
    var h := Run(actions, limit);
    assert h.resumed + h.handed + h.door.waiting == h.queued;
    assert forall i :: 0 <= i < |h.resumed| ==> h.queued[i] == h.resumed[i];
  }

  /**
   * With a positive limit a task in line always has a task ahead that will let it
   * in; when all have ended the gate is as new.
   */
  lemma {:induction false} NobodyIsForgotten(actions: seq<Action>, limit: nat)
    requires limit > 0
    ensures var h := Run(actions, limit);
      && (h.door.waiting != [] ==> h.running != {} || h.handed != [])
      && (h.running == {} && h.handed == [] ==>
            h.door == Door(0, []) && h.resumed == h.queued && forall t: Task :: t < h.arrived ==> t in h.finished)
  {
    EveryRunKeepsInv(actions, limit);
    var h := Run(actions, limit);
    if h.running == {} && h.handed == [] {
      assert h.door.waiting == [];
      assert h.resumed + [] + [] == h.resumed;
    }
  }

  /** The hand-overs and endings it takes to have everybody finished. */
  function Left(h: Hall): nat {
    2 * |h.door.waiting| + 2 * |h.handed| + |h.running|
  }

  /** Each ending and each hand-over taken up brings that nearer, by one. */
  lemma EveryStepGetsOn(h: Hall, limit: nat, t: Task)
    requires Inv(h, limit)
    ensures h.handed != [] ==> Left(Step(h, GoOn, limit)) == Left(h) - 1
    ensures t in h.running ==>
      Left(Step(h, End(t), limit)) == Left(h) - 1 && t in Step(h, End(t), limit).finished
  {
    if h.handed != [] {
      LineIsDistinct(h);
      assert InLine(h, h.handed[0]);
      assert |h.running + {h.handed[0]}| == |h.running| + 1;
    }
    if t in h.running {
      assert |h.running - {t}| == |h.running| - 1;
    }
  }

  /** So many have come, all have finished, and the gate is as new. */
  predicate Over(h: Hall, arrived: nat) {
    h.door == Door(0, []) && h.arrived == arrived && forall t: Task :: t < arrived ==> t in h.finished
  }

  lemma NothingLeft(h: Hall, limit: nat)
    requires Inv(h, limit) && limit > 0 && Left(h) == 0
    ensures Over(h, h.arrived)
  {
    assert h.door.waiting == [] && h.handed == [] && h.running == {};
    forall t: Task | t < h.arrived ensures t in h.finished {
      assert !InLine(h, t);
    }
  }

  /** While anybody is left there is such a step. */
  lemma SomethingCanHappen(h: Hall, limit: nat) returns (a: Action)
    requires Inv(h, limit) && limit > 0 && Left(h) > 0
    ensures a != Come
    ensures var after := Step(h, a, limit);
      Inv(after, limit) && Left(after) == Left(h) - 1 && after.arrived == h.arrived
  {
    var t :| h.handed == [] ==> t in h.running;
    EveryStepGetsOn(h, limit, t);
    if h.handed != [] {
      a := GoOn;
      GoOnKeepsInv(h, limit);
    } else {
      a := End(t);
      EndKeepsInv(h, t, limit);
    }
  }

  /** The hall after some actions more. */
  function Onward(h: Hall, more: seq<Action>, limit: nat): Hall
    decreases |more|
  {
    if more == [] then h else Onward(Step(h, more[0], limit), more[1..], limit)
  }

  lemma {:induction false} RunOnward(actions: seq<Action>, more: seq<Action>, limit: nat)
    ensures Onward(Run(actions, limit), more, limit) == Run(actions + more, limit)
    decreases |more|
  {
    if more == [] {
      assert actions + more == actions;
    } else {
      var next := actions + [more[0]];
      assert next[..|actions|] == actions && actions + more == next + more[1..];
      RunOnward(next, more[1..], limit);
    }
  }

  lemma {:induction false} FinishIn(h: Hall, limit: nat) returns (more: seq<Action>)
    requires Inv(h, limit) && limit > 0
    ensures Come !in more && |more| == Left(h) && Over(Onward(h, more, limit), h.arrived)
    decreases Left(h)
  {
    if Left(h) == 0 {
      NothingLeft(h, limit);
      more := [];
    } else {
      var a := SomethingCanHappen(h, limit);
      var rest := FinishIn(Step(h, a, limit), limit);
      more := [a] + rest;
      assert more[0] == a && more[1..] == rest;
    }
  }

  /**
   * From any point of any run, with a positive limit, everybody who has come can be
   * let in and finish, in just that many steps and with nobody else coming.
   */
  lemma {:induction false} EverybodyFinishes(actions: seq<Action>, limit: nat) returns (more: seq<Action>)
    requires limit > 0
    ensures Come !in more && |more| == Left(Run(actions, limit))
    ensures Over(Run(actions + more, limit), Run(actions, limit).arrived)
  {
    EveryRunKeepsInv(actions, limit);
    more := FinishIn(Run(actions, limit), limit);
    RunOnward(actions, more, limit);
  }

  /** Why the limit must be positive: with no permits the first task waits for ever. */
  lemma ZeroLimitBlocks(limit: nat)
    ensures var h := Run([Come], limit);
      h.running == {} && h.handed == [] && h.door.waiting == [0] <==> limit == 0
  {
    assert [Come][..0] == [];
  }
}
