/**
 * Keeping the first attempt at each keyed operation and dropping the repeats: when
 * an attempt is accepted, and exactly when the first attempts are enough.
 */
module CreditFirsts {
  import opened Common
  import opened Pricing
  import opened CreditLedger
  import opened CreditLaws
  import opened CreditAudit
  import opened CreditReplay

  // ---- When an operation is accepted ----

  /** What a caller could look up before sending the operation. */
  predicate Guard(db: Db, op: Op) {
    match op
    case OpReserve(user, job, _, max) =>
      (job in db.holds && db.holds[job].status.Active?)
      || (job !in db.holds && BalanceOf(db, user) >= MIN_SPEND_TO_START_MICRO
          && (max <= 0 || |ActiveHolds(db.holds, user)| < max))
    case OpMeter(user, _, _, _, _) => user in db.accounts
    case OpFlat(user, amount, name, _, enforce) =>
      amount > 0 && (HasKey(db.ledger, Named(name)) || !enforce || BalanceOf(db, user) >= amount)
    case OpGateway(user, request, _) =>
      user in db.accounts && (HasKey(db.ledger, GatewayKey(request)) || request !in db.usage)
    case OpRedeem(user, code, gaveFeedback, now) =>
      (code == "EXTRA100" ==> gaveFeedback) && code in db.promos && db.promos[code].isActive
      && (db.promos[code].expiresAt.Some? ==> now < db.promos[code].expiresAt.value)
      && (db.promos[code].maxRedemptions.Some? ==> db.promos[code].redeemedCount < db.promos[code].maxRedemptions.value)
      && (code, user) !in db.redemptions && !HasKey(db.ledger, PromoKey(code, user))
    case OpBonus(_, amount, _, _) => amount > 0
    case OpPlan(user, subscription, cycleStart, _) =>
      HasKey(db.ledger, PlanKey(subscription, cycleStart)) || user in db.accounts
    case _ => true
  }

  lemma FlatGuardIsExact(db: Db, op: Op)
    requires op.OpFlat?
    ensures Apply(db, op).Committed? <==> Guard(db, op)
  {
    FlatIsAcceptedIff(db, op.user, op.amount, op.name, op.kind, op.enforce);
  }

  lemma ReserveGuardIsExact(db: Db, op: Op)
    requires op.OpReserve?
    ensures Apply(db, op).Committed? <==> Guard(db, op)
  {
    EnsureKeepsBalance(db, op.user);
  }

  /** Every operation is accepted exactly when its guard holds. */
  lemma GuardIsExact(db: Db, op: Op)
    ensures Apply(db, op).Committed? <==> Guard(db, op)
  {
    match op
    case OpFlat(_, _, _, _, _) => FlatGuardIsExact(db, op);
    case OpReserve(_, _, _, _) => ReserveGuardIsExact(db, op);
    case _ =>
  }

  /** A flat charge is accepted exactly when it was charged before, is in shadow mode, or can be paid. */
  lemma FlatIsAcceptedIff(db: Db, user: UserId, amount: int, name: string, kind: LedgerType, enforce: bool)
    ensures
      ChargeFlat(db, user, amount, name, kind, enforce).Committed?
      <==> amount > 0 && (HasKey(db.ledger, Named(name)) || !enforce || BalanceOf(db, user) >= amount)
  {
    EnsureKeys(db, user, Named(name));
    EnsureKeepsBalance(db, user);
  }

  // ---- First attempts ----

  /** An earlier operation of the list is the same one. */
  predicate IsRepeat(ops: seq<Op>, i: nat)
    requires i < |ops|
  {
    IdOf(ops[i]).Some? && exists k :: 0 <= k < i && IdOf(ops[k]) == IdOf(ops[i])
  }

  /** The list without the repeats, accepted or not. */
  function OnlyFirsts(ops: seq<Op>): seq<Op> {
    if ops == [] then []
    else
      var n := |ops| - 1;
      OnlyFirsts(ops[..n]) + if IsRepeat(ops, n) then [] else [ops[n]]
  }

  /** A repeat that would be accepted although nothing has carried the operation out yet. */
  predicate LateSuccess(start: Db, ops: seq<Op>, i: nat)
    requires i < |ops|
  {
    IsRepeat(ops, i) && Guard(Run(start, ops[..i]), ops[i]) && !Done(Run(start, ops[..i]), IdOf(ops[i]).value)
  }

  lemma PrefixSteps(start: Db, ops: seq<Op>, n: nat)
    requires n < |ops|
    ensures Run(start, ops[..n + 1]) == Step(Run(start, ops[..n]), ops[n])
  {
    assert ops[..n + 1][..n] == ops[..n];
  }

  lemma FirstsDropRepeat(ops: seq<Op>, n: nat)
    requires n < |ops| && IsRepeat(ops, n)
    ensures OnlyFirsts(ops[..n + 1]) == OnlyFirsts(ops[..n])
  {
    RepeatInPrefix(ops, n);
    assert ops[..n + 1][..n] == ops[..n];
    assert OnlyFirsts(ops[..n]) + [] == OnlyFirsts(ops[..n]);
  }

  lemma FirstsKeepFirst(ops: seq<Op>, n: nat)
    requires n < |ops| && !IsRepeat(ops, n)
    ensures OnlyFirsts(ops[..n + 1]) == OnlyFirsts(ops[..n]) + [ops[n]]
  {
    RepeatInPrefix(ops, n);
    assert ops[..n + 1][..n] == ops[..n];
  }

  lemma RepeatInPrefix(ops: seq<Op>, n: nat)
    requires n < |ops|
    ensures IsRepeat(ops[..n + 1], n) <==> IsRepeat(ops, n)
  {
    assert forall k :: 0 <= k <= n ==> ops[..n + 1][k] == ops[k];
  }

  lemma RunMore(start: Db, ops: seq<Op>, op: Op)
    ensures Run(start, ops + [op]) == Step(Run(start, ops), op)
  {
    assert (ops + [op])[..|ops|] == ops;
  }

  lemma NotLate(db: Db, op: Op)
    requires IdOf(op).Some? && !(Guard(db, op) && !Done(db, IdOf(op).value))
    ensures Step(db, op) == db
  {
    GuardIsExact(db, op);
    TakesEffectOnce(db, op);
  }

  /** A repeat that does not succeed late changes nothing. */
  lemma RepeatChangesNothing(start: Db, ops: seq<Op>, i: nat)
    requires i < |ops| && IsRepeat(ops, i) && !LateSuccess(start, ops, i)
    ensures Run(start, ops[..i + 1]) == Run(start, ops[..i])
  {
    PrefixSteps(start, ops, i);
    NotLate(Run(start, ops[..i]), ops[i]);
  }

  /** From any database: where no repeat succeeds late, the first attempts are enough. */
  lemma {:induction false} FirstsAreEnough(start: Db, ops: seq<Op>, n: nat)
    requires n <= |ops| && forall i :: 0 <= i < n ==> !LateSuccess(start, ops, i)
    ensures Run(start, OnlyFirsts(ops[..n])) == Run(start, ops[..n])
  {
    if n > 0 {
      var m := n - 1;
      FirstsAreEnough(start, ops, m);
      if IsRepeat(ops, m) {
        FirstsDropRepeat(ops, m);
        RepeatChangesNothing(start, ops, m);
      } else {
        FirstsKeepFirst(ops, m);
        RunMore(start, OnlyFirsts(ops[..m]), ops[m]);
        PrefixSteps(start, ops, m);
      }
    }
  }

  // ---- What a late success leaves cannot be made up for ----

  predicate HasRow(ledger: seq<Row>, user: UserId, key: Key) {
    exists i :: 0 <= i < |ledger| && ledger[i].key == Some(key) && ledger[i].user == user
  }

  /** The database holds this operation's own row or hold: not one that another user left under the same name. */
  predicate Mine(db: Db, id: Identity) {
    match id
    case ByKey(key) => HasKey(db.ledger, key)
    case ByNameFor(user, name) => HasRow(db.ledger, user, Named(name))
    case ByJobFor(user, job) => job in db.holds && db.holds[job].user == user
  }

  /** The database holds a row or hold in the operation's place, whosever it is. */
  predicate Recorded(db: Db, id: Identity) {
    match id
    case ByKey(key) => HasKey(db.ledger, key)
    case ByNameFor(_, name) => HasKey(db.ledger, Named(name))
    case ByJobFor(_, job) => job in db.holds
  }

  /** The rows an operation may append: its own, a signup grant, or one without a key. */
  predicate Writes(op: Op, row: Row) {
    row.key.Some? && !row.key.value.Signup? ==>
      match IdOf(op)
      case Some(ByKey(key)) => row.key.value == key
      case Some(ByNameFor(user, name)) => row.key.value == Named(name) && row.user == user
      case _ => false
  }

  ghost predicate Appends(db: Db, op: Op, after: Db) {
    && db.ledger <= after.ledger
    && forall i :: |db.ledger| <= i < |after.ledger| ==> Writes(op, after.ledger[i])
  }

  lemma EnsureAppends(db: Db, op: Op, user: UserId)
    ensures Appends(db, op, Ensure(db, user))
  {
  }

  lemma PostAppends(db: Db, op: Op, mid: Db, e: Entry)
    requires Appends(db, op, mid) && Writes(op, e.row)
    ensures Appends(db, op, Post(mid, e))
  {
  }

  lemma MeterAppends(db: Db, op: Op)
    requires op.OpMeter? || op.OpGateway?
    ensures Appends(db, op, Step(db, op))
  {
  }

  lemma FlatAppends(db: Db, op: Op)
    requires op.OpFlat?
    ensures Appends(db, op, Step(db, op))
  {
    EnsureAppends(db, op, op.user);
  }

  lemma BonusAppends(db: Db, op: Op)
    requires op.OpBonus?
    ensures Appends(db, op, Step(db, op))
  {
    EnsureAppends(db, op, op.user);
  }

  lemma RedeemAppends(db: Db, op: Op)
    requires op.OpRedeem?
    ensures Appends(db, op, Step(db, op))
  {
    if PromoRefusal(db, op.user, op.code, op.gaveFeedback, op.now).None? {
      RedeemAsPost(db, op.user, op.code, op.gaveFeedback, op.now);
      EnsureAppends(db, op, op.user);
    }
  }

  lemma PlanAppends(db: Db, op: Op)
    requires op.OpPlan?
    ensures Appends(db, op, Step(db, op))
  {
    if op.user in db.accounts && !HasKey(db.ledger, PlanKey(op.subscription, op.cycleStart)) {
      var mid := ExpirePlan(db, op.user);
      assert Appends(db, op, mid);
      PostAppends(db, op, mid,
        PlanEntry(mid.accounts[op.user], op.user, (op.cycleStart, op.cycleEnd),
                  PlanKey(op.subscription, op.cycleStart)));
    }
  }

  lemma ReserveAppends(db: Db, op: Op)
    requires op.OpReserve? || op.OpEnsure? || op.OpUpsert? || op.OpSettle?
    ensures Appends(db, op, Step(db, op))
  {
    if op.OpReserve? || op.OpEnsure? {
      EnsureAppends(db, op, op.user);
    }
  }

  lemma StepAppends(db: Db, op: Op)
    ensures Appends(db, op, Step(db, op))
  {
    match op
    case OpMeter(_, _, _, _, _) => MeterAppends(db, op);
    case OpGateway(_, _, _) => MeterAppends(db, op);
    case OpFlat(_, _, _, _, _) => FlatAppends(db, op);
    case OpBonus(_, _, _, _) => BonusAppends(db, op);
    case OpRedeem(_, _, _, _) => RedeemAppends(db, op);
    case OpPlan(_, _, _, _) => PlanAppends(db, op);
    case _ => ReserveAppends(db, op);
  }

  /** Holds keep their user, and only a reserve makes one, for its own user. */
  ghost predicate HoldsStay(db: Db, op: Op, after: Db) {
    && (forall job :: job in db.holds ==> job in after.holds && after.holds[job].user == db.holds[job].user)
    && forall job :: job in after.holds && job !in db.holds ==>
         op.OpReserve? && op.job == job && after.holds[job].user == op.user
  }

  lemma ReserveKeepsHolds(db: Db, op: Op)
    requires op.OpReserve?
    ensures HoldsStay(db, op, Step(db, op))
  {
    EnsureKeepsHolds(db, op.user);
    var after := Step(db, op).holds;
    assert after == db.holds || (op.job !in db.holds && after == db.holds[op.job := Hold(op.user, op.cap, 0, Active)]);
  }

  lemma SettleKeepsHolds(db: Db, op: Op)
    requires op.OpSettle?
    ensures HoldsStay(db, op, Step(db, op))
  {
  }

  lemma MeterKeepsHolds(db: Db, op: Op)
    requires op.OpMeter?
    ensures HoldsStay(db, op, Step(db, op))
  {
  }

  lemma RedeemKeepsHolds(db: Db, op: Op)
    requires op.OpRedeem?
    ensures HoldsStay(db, op, Step(db, op))
  {
    if PromoRefusal(db, op.user, op.code, op.gaveFeedback, op.now).None? {
      RedeemAsPost(db, op.user, op.code, op.gaveFeedback, op.now);
    }
  }

  lemma FlatKeepsHolds(db: Db, op: Op)
    requires op.OpFlat?
    ensures Step(db, op).holds == db.holds
  {
    EnsureKeepsHolds(db, op.user);
    if Apply(db, op).Committed? {
      assert Apply(db, op).db.holds == Ensure(db, op.user).holds;
    }
  }

  lemma EnsureKeepsHolds(db: Db, user: UserId)
    ensures Ensure(db, user).holds == db.holds
  {
    EnsureKeepsBalance(db, user);
  }

  lemma BonusKeepsHolds(db: Db, op: Op)
    requires op.OpBonus?
    ensures Step(db, op).holds == db.holds
  {
    EnsureKeepsHolds(db, op.user);
    if Apply(db, op).Committed? {
      assert Apply(db, op).db.holds == Ensure(db, op.user).holds;
    }
  }

  lemma PlanKeepsHolds(db: Db, op: Op)
    requires op.OpPlan?
    ensures Step(db, op).holds == db.holds
  {
  }

  lemma OthersKeepHolds(db: Db, op: Op)
    requires op.OpGateway? || op.OpEnsure? || op.OpUpsert?
    ensures Step(db, op).holds == db.holds
  {
  }

  lemma StepKeepsHolds(db: Db, op: Op)
    ensures HoldsStay(db, op, Step(db, op))
  {
    match op
    case OpReserve(_, _, _, _) => ReserveKeepsHolds(db, op);
    case OpSettle(_) => SettleKeepsHolds(db, op);
    case OpMeter(_, _, _, _, _) => MeterKeepsHolds(db, op);
    case OpRedeem(_, _, _, _) => RedeemKeepsHolds(db, op);
    case OpFlat(_, _, _, _, _) => FlatKeepsHolds(db, op);
    case OpBonus(_, _, _, _) => BonusKeepsHolds(db, op);
    case OpPlan(_, _, _, _) => PlanKeepsHolds(db, op);
    case _ => OthersKeepHolds(db, op);
  }

  lemma RowsStay(before: seq<Row>, after: seq<Row>, user: UserId, key: Key)
    requires before <= after && HasRow(before, user, key)
    ensures HasRow(after, user, key)
  {
    var i :| 0 <= i < |before| && before[i].key == Some(key) && before[i].user == user;
    assert after[i] == before[i];
  }

  lemma MineStays(db: Db, op: Op, id: Identity)
    requires Mine(db, id)
    ensures Mine(Step(db, op), id)
  {
    StepAppends(db, op);
    StepKeepsHolds(db, op);
    match id
    case ByKey(key) => KeysPersist(db.ledger, Step(db, op).ledger, key);
    case ByNameFor(user, name) => RowsStay(db.ledger, Step(db, op).ledger, user, Named(name));
    case ByJobFor(_, _) =>
  }

  /** An identity that operations have, as opposed to the key of a signup grant. */
  predicate IsSent(id: Identity) {
    id.ByKey? ==> !id.key.Signup? && !id.key.Named?
  }

  /** Nothing but the operation itself leaves its own row or hold, or any row or hold in its place. */
  lemma OnlyItselfIsMine(db: Db, op: Op, id: Identity)
    requires IsSent(id) && IdOf(op) != Some(id) && Mine(Step(db, op), id)
    ensures Mine(db, id)
  {
    StepAppends(db, op);
    StepKeepsHolds(db, op);
    match id
    case ByKey(key) => OldKey(db, op, Step(db, op), key);
    case ByNameFor(user, name) => OldRow(db, op, Step(db, op), user, name);
    case ByJobFor(_, _) =>
  }

  lemma OldKey(db: Db, op: Op, after: Db, key: Key)
    requires Appends(db, op, after) && HasKey(after.ledger, key)
    requires !key.Signup? && !key.Named? && IdOf(op) != Some(ByKey(key))
    ensures HasKey(db.ledger, key)
  {
    var i :| 0 <= i < |after.ledger| && after.ledger[i].key == Some(key);
    assert !Writes(op, after.ledger[i]);
    assert db.ledger[i].key == Some(key);
  }

  lemma OldRow(db: Db, op: Op, after: Db, user: UserId, name: string)
    requires Appends(db, op, after) && HasRow(after.ledger, user, Named(name))
    requires IdOf(op) != Some(ByNameFor(user, name)) && (IdOf(op).Some? ==> IsSent(IdOf(op).value))
    ensures HasRow(db.ledger, user, Named(name))
  {
    var i :| 0 <= i < |after.ledger| && after.ledger[i].key == Some(Named(name)) && after.ledger[i].user == user;
    assert !Writes(op, after.ledger[i]);
    assert db.ledger[i].key == Some(Named(name)) && db.ledger[i].user == user;
  }

  /** A row under a key that was not there before is a new one. */
  lemma NoRowBelow(before: seq<Row>, after: seq<Row>, key: Key, i: nat)
    requires before <= after && !HasKey(before, key) && i < |after| && after[i].key == Some(key)
    ensures i >= |before|
  {
    assert forall k :: 0 <= k < |before| ==> before[k] == after[k];
  }

  lemma NamedSuccessIsMine(db: Db, op: Op)
    requires (op.OpFlat? || op.OpBonus?) && Apply(db, op).Committed? && !HasKey(db.ledger, Named(op.name))
    ensures HasRow(Step(db, op).ledger, op.user, Named(op.name))
  {
    CommittedIsDone(db, op);
    StepAppends(db, op);
    var before, after := db.ledger, Step(db, op).ledger;
    var i :| 0 <= i < |after| && after[i].key == Some(Named(op.name));
    assert i >= |before| by {
      NoRowBelow(before, after, Named(op.name), i);
    }
  }

  /** An operation accepted in an empty place leaves its own row or hold there. */
  lemma SuccessIsMine(db: Db, op: Op)
    requires IdOf(op).Some? && Guard(db, op) && !Recorded(db, IdOf(op).value)
    ensures Mine(Step(db, op), IdOf(op).value)
  {
    GuardIsExact(db, op);
    CommittedIsDone(db, op);
    if op.OpFlat? || op.OpBonus? {
      NamedSuccessIsMine(db, op);
    } else if op.OpReserve? {
      StepKeepsHolds(db, op);
    }
  }

  lemma SentByOps(op: Op)
    requires IdOf(op).Some?
    ensures IsSent(IdOf(op).value)
  {
  }

  lemma MineIsRecorded(db: Db, id: Identity)
    requires Mine(db, id)
    ensures Recorded(db, id)
  {
  }

  /** No late success among the first `j` operations, and one at `j` that fills an empty place. */
  ghost predicate FirstLate(start: Db, ops: seq<Op>, j: nat)
    requires j < |ops|
  {
    && (forall i :: 0 <= i < j ==> !LateSuccess(start, ops, i))
    && LateSuccess(start, ops, j) && !Recorded(Run(start, ops[..j]), IdOf(ops[j]).value)
  }

  /** From such a late success on, the whole list has what its first attempts never will. */
  lemma {:induction false} FirstsMissIt(start: Db, ops: seq<Op>, j: nat, n: nat)
    requires j < n <= |ops| && FirstLate(start, ops, j)
    ensures var id := IdOf(ops[j]).value;
      Mine(Run(start, ops[..n]), id) && !Mine(Run(start, OnlyFirsts(ops[..n])), id)
    decreases n
  {
    var id, m := IdOf(ops[j]).value, n - 1;
    SentByOps(ops[j]);
    PrefixSteps(start, ops, m);
    if m == j {
      FirstsAreEnough(start, ops, j);
      FirstsDropRepeat(ops, j);
      SuccessIsMine(Run(start, ops[..j]), ops[j]);
      if Mine(Run(start, ops[..j]), id) {
        MineIsRecorded(Run(start, ops[..j]), id);
      }
    } else {
      FirstsMissIt(start, ops, j, m);
      MineStays(Run(start, ops[..m]), ops[m], id);
      if IsRepeat(ops, m) {
        FirstsDropRepeat(ops, m);
      } else {
        FirstsKeepFirst(ops, m);
        RunMore(start, OnlyFirsts(ops[..m]), ops[m]);
        assert IdOf(ops[m]) != Some(id);
        if Mine(Run(start, OnlyFirsts(ops[..n])), id) {
          OnlyItselfIsMine(Run(start, OnlyFirsts(ops[..m])), ops[m], id);
        }
      }
    }
  }

  // ---- Names and jobs with one user each ----

  /** No two users send operations under one name or for one job. */
  ghost predicate Owned(ops: seq<Op>) {
    forall i, k :: 0 <= i < |ops| && 0 <= k < |ops| && Clash(ops[i], ops[k]) ==> IdOf(ops[i]) == IdOf(ops[k])
  }

  predicate Clash(a: Op, b: Op) {
    IdOf(a).Some? && IdOf(b).Some? && SamePlace(IdOf(a).value, IdOf(b).value)
  }

  /** Two operations that would write the same row or hold. */
  predicate SamePlace(a: Identity, b: Identity) {
    match a
    case ByKey(key) => b == ByKey(key)
    case ByNameFor(_, name) => b.ByNameFor? && b.name == name
    case ByJobFor(_, job) => b.ByJobFor? && b.job == job
  }

  /** A place is only ever filled by an operation that writes there. */
  lemma PlaceIsFilledBy(db: Db, op: Op, id: Identity)
    requires IsSent(id) && Recorded(Step(db, op), id) && !Recorded(db, id)
    ensures IdOf(op).Some? && SamePlace(IdOf(op).value, id) && Apply(db, op).Committed?
  {
    StepAppends(db, op);
    StepKeepsHolds(db, op);
    if !id.ByJobFor? {
      var key := if id.ByKey? then id.key else Named(id.name);
      var after := Step(db, op).ledger;
      var i :| 0 <= i < |after| && after[i].key == Some(key);
      NoRowBelow(db.ledger, after, key, i);
      assert Writes(op, after[i]);
    }
  }

  /** With every name and job owned, whatever fills an operation's place carried it out. */
  lemma {:induction false} RecordedIsDone(start: Db, ops: seq<Op>, n: nat, j: nat)
    requires Unused(start) && Owned(ops) && n <= |ops| && j < |ops| && IdOf(ops[j]).Some?
    requires Recorded(Run(start, ops[..n]), IdOf(ops[j]).value)
    ensures Done(Run(start, ops[..n]), IdOf(ops[j]).value)
    decreases n
  {
    var id := IdOf(ops[j]).value;
    SentByOps(ops[j]);
    if n > 0 {
      var m := n - 1;
      var before := Run(start, ops[..m]);
      PrefixSteps(start, ops, m);
      if Recorded(before, id) {
        RecordedIsDone(start, ops, m, j);
        StepGrows(before, ops[m]);
        DoneStays(before, Step(before, ops[m]), id);
      } else {
        PlaceIsFilledBy(before, ops[m], id);
        assert Clash(ops[m], ops[j]);
        CommittedIsDone(before, ops[m]);
      }
    }
  }

  lemma {:induction false} EarliestLate(start: Db, ops: seq<Op>, n: nat) returns (j: nat)
    requires n < |ops| && LateSuccess(start, ops, n)
    ensures j <= n && LateSuccess(start, ops, j) && forall i :: 0 <= i < j ==> !LateSuccess(start, ops, i)
  {
    j := 0;
    while !LateSuccess(start, ops, j)
      invariant j <= n && forall i :: 0 <= i < j ==> !LateSuccess(start, ops, i)
      decreases n - j
    {
      j := j + 1;
    }
  }

  // ---- Main results ----

  /**
   * Exactly when keeping the first attempt at each operation is enough: when no
   * repeat meets its guard while nothing has carried the operation out. Each name
   * and each job is used by one user here; the forward half needs no such thing.
   */
  lemma {:induction false} FirstAttemptsSufficeIff(start: Db, ops: seq<Op>)
    requires Unused(start) && Owned(ops)
    ensures Run(start, OnlyFirsts(ops)) == Run(start, ops)
        <==> forall i :: 0 <= i < |ops| ==> !LateSuccess(start, ops, i)
  {
    assert ops[..|ops|] == ops;
    if i :| 0 <= i < |ops| && LateSuccess(start, ops, i) {
      var j := EarliestLate(start, ops, i);
      if Recorded(Run(start, ops[..j]), IdOf(ops[j]).value) {
        RecordedIsDone(start, ops, j, j);
      }
      FirstsMissIt(start, ops, j, |ops|);
    } else {
      FirstsAreEnough(start, ops, |ops|);
    }
  }

  /** Whoever shares names: a first late success in an empty place is lost with the repeats. */
  lemma {:induction false} LateSuccessIsLost(start: Db, ops: seq<Op>, j: nat)
    requires j < |ops| && FirstLate(start, ops, j)
    ensures Run(start, OnlyFirsts(ops)) != Run(start, ops)
  {
    assert ops[..|ops|] == ops;
    FirstsMissIt(start, ops, j, |ops|);
  }

  lemma {:induction false} RunOfThree(start: Db, a: Op, b: Op, c: Op)
    ensures Run(start, [a, b]) == Step(Step(start, a), b)
    ensures Run(start, [a, b, c]) == Step(Run(start, [a, b]), c)
  {
    assert [a, b, c][..2] == [a, b] && [a, b][..1] == [a] && [a][..0] == [];
    assert Run(start, [a]) == Step(Run(start, []), a);
  }

  /** The balance after a first grant, which leaves any other name unused. */
  lemma FirstGrant(start: Db, user: UserId, amount: nat, name: string, kind: LedgerType, other: string)
    requires start.accounts == map[] && start.ledger == [] && amount > 0 && name != other
    ensures var after := Step(start, OpBonus(user, amount, name, kind));
      && user in after.accounts && after.accounts[user].buckets.Gross() == FREE_SIGNUP_GRANT_MICRO + amount
      && !HasKey(after.ledger, Named(other))
  {
    EnsureKeys(start, user, Named(name));
    EnsureKeys(start, user, Named(other));
    HasKeyAppend(Ensure(start, user).ledger, BonusEntry(FRESH_ACCOUNT, user, kind, amount, Named(name)).row,
      Named(other));
  }

  /** A refused first attempt must not stand for a later one: here the charge is refused, then payable. */
  lemma {:induction false} FirstAttemptsAreNotEnough(
      start: Db, user: UserId, name: string, topUp: string, kind: LedgerType)
    requires start.accounts == map[] && start.ledger == [] && name != topUp
    ensures
      var charge := OpFlat(user, 2 * FREE_SIGNUP_GRANT_MICRO, name, kind, true);
      var grant := OpBonus(user, 2 * FREE_SIGNUP_GRANT_MICRO, topUp, kind);
      Run(start, [charge, grant, charge]) != Run(start, [charge, grant])
  {
    var charge := OpFlat(user, 2 * FREE_SIGNUP_GRANT_MICRO, name, kind, true);
    var grant := OpBonus(user, 2 * FREE_SIGNUP_GRANT_MICRO, topUp, kind);
    RunOfThree(start, charge, grant, charge);
    FlatIsAcceptedIff(start, user, charge.amount, name, kind, true);
    FirstGrant(start, user, grant.amount, topUp, kind, name);
    var after := Step(start, grant);
    FlatIsAcceptedIff(after, user, charge.amount, name, kind, true);
    TakesEffectOnce(after, charge);
  }

  lemma FourRuns(start: Db, a: Op, b: Op, c: Op, d: Op)
    ensures Run(start, [a, b, c, d]) == Step(Step(Step(Step(start, a), b), c), d)
    ensures Run(start, [a, b, d]) == Step(Step(Step(start, a), b), d)
    ensures Run(start, [a, b]) == Step(Step(start, a), b)
  {
    RunOfThree(start, a, b, c);
    RunOfThree(start, a, b, d);
    RunMore(start, [a, b, c], d);
    assert [a, b, c] + [d] == [a, b, c, d];
  }

  lemma FourFirsts(a: Op, b: Op, c: Op, d: Op)
    requires IdOf(b).Some? && IdOf(a) != IdOf(b) && IdOf(c) == IdOf(b) && IdOf(d).None?
    ensures OnlyFirsts([a, b, c, d]) == [a, b, d] && IsRepeat([a, b, c, d], 2)
  {
    var ops := [a, b, c, d];
    assert ops[1] == b && ops[2] == c;
    FirstsKeepFirst(ops, 0);
    FirstsKeepFirst(ops, 1);
    FirstsDropRepeat(ops, 2);
    FirstsKeepFirst(ops, 3);
    assert ops[..0] == [] && ops[..4] == ops;
  }

  /**
   * Why the owners matter: when a name is shared, a late success can come down to
   * opening the account, which a later operation may open as well.
   */
  lemma {:induction false} SharedNamesCanHideIt(start: Db, one: UserId, other: UserId, name: string, kind: LedgerType)
    requires start.accounts == map[] && start.ledger == [] && one != other
    ensures
      var ops :=
        [OpBonus(other, 1, name, kind), OpBonus(one, 0, name, kind), OpBonus(one, 1, name, kind), OpEnsure(one)];
      LateSuccess(start, ops, 2) && Run(start, OnlyFirsts(ops)) == Run(start, ops)
  {
    var a, b, c, d :=
      OpBonus(other, 1, name, kind), OpBonus(one, 0, name, kind), OpBonus(one, 1, name, kind), OpEnsure(one);
    NamedSuccess(start, a);
    FourFirsts(a, b, c, d);
    SharedRunsAgree(start, a, b, c, d);
    assert [a, b, c, d][..2] == [a, b];
    LateAtTwo(start, [a, b, c, d]);
  }

  lemma LateAtTwo(start: Db, ops: seq<Op>)
    requires |ops| > 2 && ops[2].OpBonus? && ops[2].amount > 0 && IsRepeat(ops, 2)
    requires ops[2].user !in Run(start, ops[..2]).accounts
    ensures LateSuccess(start, ops, 2)
  {
  }

  lemma SharedRunsAgree(start: Db, a: Op, nothing: Op, grant: Op, ensure: Op)
    requires nothing.OpBonus? && nothing.amount == 0 && grant.OpBonus? && grant.amount > 0
    requires HasKey(Step(start, a).ledger, Named(grant.name)) && ensure == OpEnsure(grant.user)
    ensures Run(start, [a, nothing]) == Step(start, a)
    ensures Run(start, [a, nothing, grant, ensure]) == Run(start, [a, nothing, ensure])
  {
    FourRuns(start, a, nothing, grant, ensure);
    RepeatedGrantOpens(Step(start, a), nothing, grant, ensure);
  }

  lemma NamedSuccess(start: Db, op: Op)
    requires start.accounts == map[] && start.ledger == [] && op.OpBonus? && op.amount > 0
    ensures HasKey(Step(start, op).ledger, Named(op.name)) && Step(start, op).accounts.Keys == {op.user}
  {
    CommittedIsDone(start, op);
  }

  /** Under a name already used: no grant of nothing, and a grant only opens the account. */
  lemma RepeatedGrantOpens(db: Db, nothing: Op, grant: Op, ensure: Op)
    requires nothing.OpBonus? && nothing.amount == 0 && grant.OpBonus? && grant.amount > 0
    requires HasKey(db.ledger, Named(grant.name)) && ensure == OpEnsure(grant.user)
    ensures Step(db, nothing) == db && Step(Step(db, grant), ensure) == Step(db, ensure)
  {
    EnsureKeys(db, grant.user, Named(grant.name));
    EnsureEnsures(db, grant.user);
    EnsureEnsures(Ensure(db, grant.user), grant.user);
  }
}
