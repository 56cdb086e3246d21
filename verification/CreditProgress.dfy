/**
 * Locking does not stand in anybody's way for nothing: a transaction that finds its
 * rows free goes through, statement by statement, to just what the whole operation
 * does and replies; it ends without effect only when the operation is refused.
 */
module CreditProgress {
  import opened Common
  import opened Pricing
  import opened CreditLedger
  import opened CreditFirsts
  import opened CreditLocks
  import Audit = CreditAudit
  import Laws = CreditLaws

  // ---- A transaction on its own ----

  function HoldRead(op: Op, db: Db, stage: Stage): Option<Hold> {
    if op.OpReserve? && Rank(stage) >= 4 && op.job in db.holds then Some(db.holds[op.job])
    else if op.OpMeter? && Rank(stage) >= 5 && op.job in db.holds then Some(db.holds[op.job])
    else None
  }

  function PromoOf(op: Op, db: Db, stage: Stage): Option<Promo> {
    if op.OpRedeem? && !stage.Begun? && !stage.PromoLocked? && op.code in db.promos then Some(db.promos[op.code])
    else None
  }

  /** The transaction at this stage, having read nothing but this database. */
  function Exact(op: Op, db: Db, stage: Stage): Tx
    requires !op.OpSettle?
  {
    Tx(op, stage,
       Rank(stage) >= 1 && Opens(op) && op.user !in db.accounts,
       Rank(stage) >= 1 && Opens(op) && !HasKey(db.ledger, Signup(op.user)),
       if Rank(stage) >= 3 && op.user in db.accounts then db.accounts[op.user] else FRESH_ACCOUNT,
       Rank(stage) >= 4 && Checks(op) && HasKey(db.ledger, KeyOf(op)),
       HoldRead(op, db, stage),
       if op.OpReserve? && Rank(stage) >= 5 then |ActiveHolds(db.holds, op.user)| else 0,
       PromoOf(op, db, stage))
  }

  predicate HasUserLock(op: Op, db: Db, stage: Stage)
    requires !op.OpSettle?
  {
    Rank(stage) >= 2 || (Rank(stage) == 1 && Opens(op) && op.user !in db.accounts)
  }

  predicate HasPromoLock(op: Op, db: Db, stage: Stage) {
    op.OpRedeem? && !stage.Begun? && op.code in db.promos
  }

  /** `s` with transaction `t` in it, come this far. */
  function At(s: Sys, t: TxId, op: Op, stage: Stage): Sys
    requires !op.OpSettle?
  {
    s.(txs := s.txs[t := Exact(op, s.db, stage)],
       locks := if HasUserLock(op, s.db, stage) then s.locks[op.user := t] else s.locks,
       promoLocks := if HasPromoLock(op, s.db, stage) then s.promoLocks[op.code := t] else s.promoLocks)
  }

  /** The rows the transaction needs are free, and its number is. */
  predicate Free(s: Sys, t: TxId, op: Op)
    requires !op.OpSettle?
  {
    && t !in s.txs && op.user !in s.locks && (op.OpRedeem? ==> op.code !in s.promoLocks)
    && (forall user :: user in s.locks ==> s.locks[user] != t)
    && (forall code :: code in s.promoLocks ==> s.promoLocks[code] != t)
  }

  lemma EndedIsBack(s: Sys, t: TxId, op: Op, stage: Stage)
    requires !op.OpSettle? && Free(s, t, op)
    ensures End(At(s, t, op, stage), t) == s
  {
    var at := At(s, t, op, stage);
    assert at.txs - {t} == s.txs;
    assert Release(at.locks, t) == s.locks;
    assert Release(at.promoLocks, t) == s.promoLocks;
  }

  // ---- Its statements, one after another ----

  lemma LocksPromo(s: Sys, t: TxId, op: Op)
    requires op.OpRedeem? && Free(s, t, op)
    ensures Continue(At(s, t, op, Begun), t)
         == if op.code == "EXTRA100" && !op.gaveFeedback then s else At(s, t, op, PromoLocked)
  {
    EndedIsBack(s, t, op, Begun);
    assert At(s, t, op, Begun).txs[t := Exact(op, s.db, PromoLocked)] == s.txs[t := Exact(op, s.db, PromoLocked)];
  }

  lemma ReadsPromo(s: Sys, t: TxId, op: Op)
    requires op.OpRedeem? && Free(s, t, op)
    ensures Continue(At(s, t, op, PromoLocked), t) == if Redeemable(s.db, op) then At(s, t, op, PromoRead) else s
  {
    EndedIsBack(s, t, op, PromoLocked);
    assert At(s, t, op, PromoLocked).txs[t := Exact(op, s.db, PromoRead)] == s.txs[t := Exact(op, s.db, PromoRead)];
  }

  /** The stage at which it opens the account. */
  function OpeningStage(op: Op): Stage {
    if op.OpRedeem? then PromoRead else Begun
  }

  lemma Opening(s: Sys, t: TxId, op: Op)
    requires !op.OpSettle? && Free(s, t, op) && !(op.OpPlan? && HasKey(s.db.ledger, KeyOf(op)))
    ensures Continue(At(s, t, op, OpeningStage(op)), t) == At(s, t, op, Prepared)
  {
    var at := At(s, t, op, OpeningStage(op));
    assert at.txs[t := Exact(op, s.db, Prepared)] == s.txs[t := Exact(op, s.db, Prepared)];
  }

  lemma LocksAccount(s: Sys, t: TxId, op: Op)
    requires !op.OpSettle? && Free(s, t, op)
    ensures Continue(At(s, t, op, Prepared), t)
         == if op.user in s.db.accounts || Opens(op) then At(s, t, op, Locked) else s
  {
    EndedIsBack(s, t, op, Prepared);
    var at := At(s, t, op, Prepared);
    assert at.txs[t := Exact(op, s.db, Locked)] == s.txs[t := Exact(op, s.db, Locked)];
    assert at.locks[op.user := t] == s.locks[op.user := t];
  }

  lemma ReadsOn(s: Sys, t: TxId, op: Op, stage: Stage, next: Stage)
    requires !op.OpSettle? && Free(s, t, op) && 2 <= Rank(stage) <= 4 && Rank(next) == Rank(stage) + 1
    ensures Continue(At(s, t, op, stage), t) == At(s, t, op, next)
  {
    var at := At(s, t, op, stage);
    assert ReadNext(Exact(op, s.db, stage), s.db) == Exact(op, s.db, next);
    assert at.txs[t := Exact(op, s.db, next)] == s.txs[t := Exact(op, s.db, next)];
  }

  // ---- Its commit ----

  /** What the whole operation does and replies, or nothing where it is refused. */
  function Wholly(db: Db, op: Op): Option<Written> {
    match Apply(db, op)
    case Committed(after, reply) => Some(Written(after, reply))
    case RolledBack(_) => None
  }

  /** It has got as far as its commit. */
  predicate Arrives(db: Db, op: Op)
    requires !op.OpSettle?
  {
    && (op.user in db.accounts || Opens(op))
    && (op.OpRedeem? ==> Redeemable(db, op) && (op.code == "EXTRA100" ==> op.gaveFeedback))
    && (op.OpPlan? ==> !HasKey(db.ledger, KeyOf(op)))
    && (op.OpFlat? || op.OpBonus? ==> op.amount > 0)
  }

  lemma ExactOpens(db: Db, op: Op)
    requires Opens(op)
    ensures Opened(Exact(op, db, Ready), db) == Ensure(db, op.user)
    ensures Exact(op, db, Ready).account == Ensure(db, op.user).accounts[op.user]
  {
  }

  lemma ReserveCommits(db: Db, op: Op)
    requires op.OpReserve? && Arrives(db, op)
    ensures CommitReserve(Exact(op, db, Ready), db) == Wholly(db, op)
  {
    ExactOpens(db, op);
    Audit.EnsureKeepsBalance(db, op.user);
  }

  lemma MeterCommits(db: Db, op: Op, owner: JobId -> UserId)
    requires op.OpMeter? && Arrives(db, op) && Concurrent(op, owner)
    ensures CommitMeter(Exact(op, db, Ready), db) == Wholly(db, op)
  {
    var tx := Exact(op, db, Ready);
    if tx.dup || !op.enforce {
      OtherMeterIsSerial(db, tx);
    } else {
      var hold, debited := HoldOf(db.holds, op.job), Spend(tx.account.buckets, op.cost).debited;
      var e := DebitEntry(tx.account, op.user, Debit, op.cost, Some(op.job), hold, KeyOf(op));
      EnforcedMeterPosts(db, op, hold, e, debited);
      EnforcedCommitPosts(db, tx, hold, e, debited);
    }
  }

  lemma FlatCommits(db: Db, op: Op)
    requires op.OpFlat? && Arrives(db, op)
    ensures CommitFlat(Exact(op, db, Ready), db) == Wholly(db, op)
  {
    ExactOpens(db, op);
    Laws.EnsureKeys(db, op.user, KeyOf(op));
  }

  lemma BonusCommits(db: Db, op: Op)
    requires op.OpBonus? && Arrives(db, op)
    ensures CommitBonus(Exact(op, db, Ready), db) == Wholly(db, op)
  {
    ExactOpens(db, op);
    Laws.EnsureKeys(db, op.user, KeyOf(op));
  }

  lemma GatewayCommits(db: Db, op: Op)
    requires op.OpGateway? && Arrives(db, op)
    ensures CommitGateway(Exact(op, db, Ready), db) == Wholly(db, op)
  {
    var tx, key := Exact(op, db, Ready), GatewayKey(op.request);
    assert tx.account == db.accounts[op.user] && tx.dup == HasKey(db.ledger, key);
    if !tx.dup && op.request !in db.usage {
      var e := DebitEntry(tx.account, op.user, GatewayDebit, op.cost, None, None, key);
      GatewayPosts(db, op, tx, e);
    }
  }

  lemma GatewayPosts(db: Db, op: Op, tx: Tx, e: Entry)
    requires op.OpGateway? && op.user in db.accounts && tx.op == op && tx.account == db.accounts[op.user] && !tx.dup
    requires !HasKey(db.ledger, KeyOf(op)) && op.request !in db.usage
    requires e == DebitEntry(tx.account, op.user, GatewayDebit, op.cost, None, None, KeyOf(op))
    ensures var w := Written(
        Post(db.(usage := db.usage[op.request := Usage(op.user, op.cost)]), e),
        GatewayMetered(Spend(tx.account.buckets, op.cost).debited, e.row.balanceAfter, op.cost));
      CommitGateway(tx, db) == Some(w) && Wholly(db, op) == Some(w)
  {
  }

  lemma PlanCommits(db: Db, op: Op)
    requires op.OpPlan? && Arrives(db, op)
    ensures CommitPlan(Exact(op, db, Ready), db) == Wholly(db, op)
  {
    var acc := db.accounts[op.user];
    assert ExpirePlan(db, op.user) == if acc.buckets.plan > 0 then Post(db, ExpireEntry(acc, op.user)) else db;
  }

  lemma RedeemCommits(db: Db, op: Op)
    requires op.OpRedeem? && Arrives(db, op)
    ensures CommitRedeem(Exact(op, db, Ready), db) == Wholly(db, op)
  {
    var tx, ready := Exact(op, db, Ready), Ensure(db, op.user);
    ExactOpens(db, op);
    if !HasKey(db.ledger, KeyOf(op)) {
      var e := BonusEntry(tx.account, op.user, PromoRedeem, db.promos[op.code].credits, KeyOf(op));
      RedeemCommitPosts(db, tx, ready, e);
      assert PromoRefusal(db, op.user, op.code, op.gaveFeedback, op.now).None?;
      Laws.RedeemAsPost(db, op.user, op.code, op.gaveFeedback, op.now);
    }
  }

  lemma CommitIsWhole(db: Db, op: Op, owner: JobId -> UserId)
    requires Concurrent(op, owner) && Arrives(db, op)
    ensures Commit(Exact(op, db, Ready), db) == Wholly(db, op)
  {
    match op
    case OpReserve(_, _, _, _) => ReserveCommits(db, op);
    case OpMeter(_, _, _, _, _) => MeterCommits(db, op, owner);
    case OpFlat(_, _, _, _, _) => FlatCommits(db, op);
    case OpGateway(_, _, _) => GatewayCommits(db, op);
    case OpBonus(_, _, _, _) => BonusCommits(db, op);
    case OpPlan(_, _, _, _) => PlanCommits(db, op);
    case OpRedeem(_, _, _, _) => RedeemCommits(db, op);
  }

  // ---- From start to end ----

  /** A step taken `n` times. */
  function Times<S>(step: S -> S, s: S, n: nat): S
    decreases n
  {
    if n == 0 then s else Times(step, step(s), n - 1)
  }

  lemma {:induction false} Rests<S>(step: S -> S, s: S, n: nat)
    requires step(s) == s
    ensures Times(step, s, n) == s
    decreases n
  {
    if n > 0 {
      Rests(step, s, n - 1);
    }
  }

  lemma OneStep<S>(step: S -> S, a: S, b: S, out: S, n: nat)
    requires step(a) == b && n > 0 && Times(step, b, n - 1) == out
    ensures Times(step, a, n) == out
  {
  }

  lemma FourSteps<S>(step: S -> S, a: S, b: S, c: S, d: S, out: S, n: nat)
    requires step(a) == b && step(b) == c && step(c) == d && step(d) == out && step(out) == out && n >= 4
    ensures Times(step, a, n) == out
  {
    Rests(step, out, n - 4);
    OneStep(step, d, out, out, n - 3);
    OneStep(step, c, d, out, n - 2);
    OneStep(step, b, c, out, n - 1);
    OneStep(step, a, b, out, n);
  }

  /** One statement of transaction `t`, with nobody else's in between. */
  function Statement(t: TxId, owner: JobId -> UserId): Sys -> Sys {
    (s: Sys) => Next(s, Advance(t), owner)
  }

  /** So many statements of a transaction. */
  function Statements(t: TxId, n: nat): seq<Action> {
    seq(n, i => Advance(t))
  }

  lemma {:induction false} LastOfTimes<S>(step: S -> S, s: S, n: nat)
    requires n > 0
    ensures Times(step, s, n) == step(Times(step, s, n - 1))
    decreases n
  {
    if n > 1 {
      LastOfTimes(step, step(s), n - 1);
    }
  }

  lemma ExecMore(s: Sys, actions: seq<Action>, t: TxId, owner: JobId -> UserId)
    ensures Exec(s, actions + [Advance(t)], owner) == Statement(t, owner)(Exec(s, actions, owner))
  {
    assert (actions + [Advance(t)])[..|actions|] == actions;
  }

  /** A start and so many statements, as an execution. */
  lemma {:induction false} StatementsAreExecuted(s: Sys, t: TxId, op: Op, n: nat, owner: JobId -> UserId)
    ensures Exec(s, [Start(t, op)] + Statements(t, n), owner)
         == Times(Statement(t, owner), Next(s, Start(t, op), owner), n)
  {
    var all := [Start(t, op)] + Statements(t, n);
    if n == 0 {
      assert all == [Start(t, op)] && all[..0] == [];
    } else {
      var before, started := [Start(t, op)] + Statements(t, n - 1), Next(s, Start(t, op), owner);
      StatementsAreExecuted(s, t, op, n - 1, owner);
      assert all == before + [Advance(t)];
      ExecMore(s, before, t, owner);
      LastOfTimes(Statement(t, owner), started, n);
    }
  }

  lemma Ended(s: Sys, t: TxId, owner: JobId -> UserId)
    requires t !in s.txs
    ensures Statement(t, owner)(s) == s
  {
  }

  lemma Continues(s: Sys, t: TxId, op: Op, stage: Stage, owner: JobId -> UserId)
    requires !op.OpSettle?
    ensures Statement(t, owner)(At(s, t, op, stage)) == Continue(At(s, t, op, stage), t)
  {
  }

  /** The operation the log is to have: the one asked for, or what it comes down to. */
  function Recorded(db: Db, op: Op): Op {
    if op.OpReserve? && op.job in db.holds && db.holds[op.job].status.Active? then OpEnsure(op.user) else op
  }

  function Committed(s: Sys, op: Op, w: Written): Sys {
    s.(db := w.db, log := s.log + [Recorded(s.db, op)], answers := s.answers + [Answer(op, w.reply)])
  }

  /** What is to come of it. */
  function Outcome(s: Sys, op: Op): Sys {
    if Wholly(s.db, op).Some? then Committed(s, op, Wholly(s.db, op).value) else s
  }

  lemma CommitsAt(s: Sys, t: TxId, op: Op, stage: Stage, w: Written)
    requires !op.OpSettle? && Free(s, t, op)
    ensures Committing(At(s, t, op, stage), t, Recorded(s.db, op), w) == Committed(s, op, w)
  {
    EndedIsBack(s, t, op, stage);
  }

  lemma FromReady(s: Sys, t: TxId, op: Op, owner: JobId -> UserId)
    requires Concurrent(op, owner) && Free(s, t, op) && Arrives(s.db, op)
    ensures Continue(At(s, t, op, Ready), t) == Outcome(s, op)
  {
    CommitIsWhole(s.db, op, owner);
    EndedIsBack(s, t, op, Ready);
    var tx := Exact(op, s.db, Ready);
    assert Logged(tx) == Recorded(s.db, op);
    if Wholly(s.db, op).Some? {
      CommitsAt(s, t, op, Ready, Wholly(s.db, op).value);
    }
  }

  lemma ReadStep(s: Sys, t: TxId, op: Op, stage: Stage, next: Stage, owner: JobId -> UserId)
    requires !op.OpSettle? && Free(s, t, op) && 2 <= Rank(stage) <= 4 && Rank(next) == Rank(stage) + 1
    ensures Statement(t, owner)(At(s, t, op, stage)) == At(s, t, op, next)
  {
    ReadsOn(s, t, op, stage, next);
    Continues(s, t, op, stage, owner);
  }

  lemma LastStep(s: Sys, t: TxId, op: Op, owner: JobId -> UserId)
    requires Concurrent(op, owner) && Free(s, t, op) && Arrives(s.db, op)
    ensures Statement(t, owner)(At(s, t, op, Ready)) == Outcome(s, op)
    ensures Statement(t, owner)(Outcome(s, op)) == Outcome(s, op)
  {
    FromReady(s, t, op, owner);
    Continues(s, t, op, Ready, owner);
    Ended(Outcome(s, op), t, owner);
  }

  lemma FromLocked(s: Sys, t: TxId, op: Op, n: nat, owner: JobId -> UserId)
    requires Concurrent(op, owner) && Free(s, t, op) && Arrives(s.db, op) && n >= 4
    ensures Times(Statement(t, owner), At(s, t, op, Locked), n) == Outcome(s, op)
  {
    ReadStep(s, t, op, Locked, AccountRead, owner);
    ReadStep(s, t, op, AccountRead, KeyRead, owner);
    ReadStep(s, t, op, KeyRead, Ready, owner);
    LastStep(s, t, op, owner);
    FourSteps(Statement(t, owner), At(s, t, op, Locked), At(s, t, op, AccountRead), At(s, t, op, KeyRead),
              At(s, t, op, Ready), Outcome(s, op), n);
  }

  lemma FromPrepared(s: Sys, t: TxId, op: Op, n: nat, owner: JobId -> UserId)
    requires Concurrent(op, owner) && Free(s, t, op) && n >= 5
    requires op.OpRedeem? ==> Redeemable(s.db, op) && (op.code == "EXTRA100" ==> op.gaveFeedback)
    requires op.OpPlan? ==> !HasKey(s.db.ledger, KeyOf(op))
    ensures Times(Statement(t, owner), At(s, t, op, Prepared), n) == Outcome(s, op)
  {
    var step, at := Statement(t, owner), At(s, t, op, Prepared);
    LocksAccount(s, t, op);
    Continues(s, t, op, Prepared, owner);
    if op.user in s.db.accounts || Opens(op) {
      FromLocked(s, t, op, n - 1, owner);
      OneStep(step, at, At(s, t, op, Locked), Outcome(s, op), n);
    } else {
      EndsWithout(s, t, op, at, n, owner);
    }
  }

  /** A transaction that a statement ends for good reason. */
  lemma EndsWithout(s: Sys, t: TxId, op: Op, at: Sys, n: nat, owner: JobId -> UserId)
    requires t !in s.txs && Statement(t, owner)(at) == s && n > 0 && Wholly(s.db, op).None?
    ensures Times(Statement(t, owner), at, n) == Outcome(s, op)
  {
    Ended(s, t, owner);
    Rests(Statement(t, owner), s, n - 1);
    OneStep(Statement(t, owner), at, s, s, n);
  }

  lemma FromOpening(s: Sys, t: TxId, op: Op, n: nat, owner: JobId -> UserId)
    requires Concurrent(op, owner) && Free(s, t, op) && n >= 6
    requires op.OpRedeem? ==> Redeemable(s.db, op) && (op.code == "EXTRA100" ==> op.gaveFeedback)
    requires op.OpPlan? ==> !HasKey(s.db.ledger, KeyOf(op))
    ensures Times(Statement(t, owner), At(s, t, op, OpeningStage(op)), n) == Outcome(s, op)
  {
    Opening(s, t, op);
    Continues(s, t, op, OpeningStage(op), owner);
    FromPrepared(s, t, op, n - 1, owner);
    OneStep(Statement(t, owner), At(s, t, op, OpeningStage(op)), At(s, t, op, Prepared), Outcome(s, op), n);
  }

  lemma FromPromoLocked(s: Sys, t: TxId, op: Op, owner: JobId -> UserId)
    requires op.OpRedeem? && Concurrent(op, owner) && Free(s, t, op) && (op.code == "EXTRA100" ==> op.gaveFeedback)
    ensures Times(Statement(t, owner), At(s, t, op, PromoLocked), 7) == Outcome(s, op)
  {
    ReadsPromo(s, t, op);
    Continues(s, t, op, PromoLocked, owner);
    if Redeemable(s.db, op) {
      FromOpening(s, t, op, 6, owner);
      OneStep(Statement(t, owner), At(s, t, op, PromoLocked), At(s, t, op, PromoRead), Outcome(s, op), 7);
    } else {
      assert PromoRefusal(s.db, op.user, op.code, op.gaveFeedback, op.now).Some?;
      EndsWithout(s, t, op, At(s, t, op, PromoLocked), 7, owner);
    }
  }

  lemma FromPromo(s: Sys, t: TxId, op: Op, owner: JobId -> UserId)
    requires op.OpRedeem? && Concurrent(op, owner) && Free(s, t, op)
    ensures Times(Statement(t, owner), At(s, t, op, Begun), 8) == Outcome(s, op)
  {
    LocksPromo(s, t, op);
    Continues(s, t, op, Begun, owner);
    if op.code == "EXTRA100" && !op.gaveFeedback {
      EndsWithout(s, t, op, At(s, t, op, Begun), 8, owner);
    } else {
      FromPromoLocked(s, t, op, owner);
      OneStep(Statement(t, owner), At(s, t, op, Begun), At(s, t, op, PromoLocked), Outcome(s, op), 8);
    }
  }

  lemma FromRedelivery(s: Sys, t: TxId, op: Op, owner: JobId -> UserId)
    requires op.OpPlan? && Concurrent(op, owner) && Free(s, t, op) && HasKey(s.db.ledger, KeyOf(op))
    ensures Times(Statement(t, owner), At(s, t, op, Begun), 8) == Outcome(s, op)
  {
    var w := Written(s.db, Nothing);
    assert Wholly(s.db, op) == Some(w);
    CommitsAt(s, t, op, Begun, w);
    Continues(s, t, op, Begun, owner);
    Ended(Outcome(s, op), t, owner);
    Rests(Statement(t, owner), Outcome(s, op), 7);
    OneStep(Statement(t, owner), At(s, t, op, Begun), Outcome(s, op), Outcome(s, op), 8);
  }

  /**
   * A transaction that finds its rows free and is not interrupted is over within
   * eight statements, its locks given back: with the database and the reply of the
   * whole operation if its guard holds, and without a trace otherwise.
   */
  lemma {:induction false} UndisturbedGoesThrough(s: Sys, t: TxId, op: Op, owner: JobId -> UserId)
    requires !op.OpSettle? && !op.OpEnsure? && !op.OpUpsert? && Free(s, t, op)
    requires op.OpMeter? || op.OpReserve? ==> owner(op.job) == op.user
    requires op.OpFlat? || op.OpBonus? ==> op.amount > 0
    ensures var after := Exec(s, [Start(t, op)] + Statements(t, 8), owner);
      if Guard(s.db, op) then
        && Apply(s.db, op).Committed?
        && after == s.(db := Step(s.db, op), log := s.log + [Recorded(s.db, op)],
                       answers := s.answers + [Answer(op, Apply(s.db, op).reply)])
      else after == s
  {
    StatementsAreExecuted(s, t, op, 8, owner);
    GuardIsExact(s.db, op);
    assert Next(s, Start(t, op), owner) == At(s, t, op, Begun);
    if op.OpRedeem? {
      FromPromo(s, t, op, owner);
    } else if op.OpPlan? && HasKey(s.db.ledger, KeyOf(op)) {
      FromRedelivery(s, t, op, owner);
    } else {
      FromOpening(s, t, op, 8, owner);
    }
  }
}
