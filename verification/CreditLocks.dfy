/**
 * The credit writers as concurrent transactions: each reads in its own order,
 * waits for the account's row lock, and commits its writes at once. Whatever the
 * interleaving, the database is the one a serial history leaves.
 */
module CreditLocks {
  import opened Common
  import opened Pricing
  import opened CreditLedger
  import opened CreditLaws
  import opened CreditAudit
  import opened CreditEffects
  import opened CreditReplay

  type TxId = nat

  /** How far a transaction has come: what it has read and which locks it holds. */
  datatype Stage = Begun | PromoLocked | PromoRead | Prepared | Locked | AccountRead | KeyRead | Ready

  function Rank(stage: Stage): nat {
    match stage
    case Begun => 0
    case PromoLocked => 0
    case PromoRead => 0
    case Prepared => 1
    case Locked => 2
    case AccountRead => 3
    case KeyRead => 4
    case Ready => 5
  }

  /** A transaction in flight, with what its reads returned. */
  datatype Tx = Tx(op: Op, stage: Stage, newAccount: bool, newSignup: bool, account: Account, dup: bool,
                   hold: Option<Hold>, active: nat, promo: Option<Promo>)

  /** What a caller asked for, and what it was told when its transaction committed. */
  datatype Answer = Answer(asked: Op, reply: Reply)

  /** The log holds the operations committed so far, in commit order, each with its answer. */
  datatype Sys = Sys(db: Db, locks: map<UserId, TxId>, promoLocks: map<PromoCode, TxId>, txs: map<TxId, Tx>,
                     log: seq<Op>, answers: seq<Answer>)

  /** The writers that run concurrently here; a job belongs to one user. */
  predicate Concurrent(op: Op, owner: JobId -> UserId) {
    match op
    case OpMeter(user, job, _, _, _) => owner(job) == user
    case OpReserve(user, job, _, _) => owner(job) == user
    case OpFlat(_, amount, _, _, _) => amount > 0
    case OpBonus(_, amount, _, _) => amount > 0
    case OpGateway(_, _, _) => true
    case OpRedeem(_, _, _, _) => true
    case OpPlan(_, _, _, _) => true
    case _ => false
  }

  predicate Opens(op: Op) {
    op.OpReserve? || op.OpFlat? || op.OpBonus? || op.OpRedeem?
  }

  /** The writers that look for their ledger row once they have the lock. */
  predicate Checks(op: Op) {
    op.OpMeter? || op.OpFlat? || op.OpGateway? || op.OpBonus?
  }

  predicate HasKeyOf(op: Op) {
    op.OpMeter? || op.OpFlat? || op.OpGateway? || op.OpBonus? || op.OpPlan? || op.OpRedeem?
  }

  function KeyOf(op: Op): Key
    requires HasKeyOf(op)
  {
    match op
    case OpMeter(_, job, _, sequence, _) => DebitKey(job, sequence)
    case OpFlat(_, _, name, _, _) => Named(name)
    case OpGateway(_, request, _) => GatewayKey(request)
    case OpBonus(_, _, name, _) => Named(name)
    case OpPlan(_, subscription, cycleStart, _) => PlanKey(subscription, cycleStart)
    case OpRedeem(user, code, _, _) => PromoKey(code, user)
  }

  // ---- What a transaction commits, computed from what it read ----

  /** What a commit writes and what it tells its caller. */
  datatype Written = Written(db: Db, reply: Reply)

  /** The writes of `ensureBillingAccount` as decided when it ran. */
  function Opened(tx: Tx, db: Db): Db
    requires !tx.op.OpSettle?
  {
    db.(accounts := if tx.newAccount then db.accounts[tx.op.user := FRESH_ACCOUNT] else db.accounts,
        ledger := if tx.newSignup then db.ledger + [SignupRow(tx.op.user)] else db.ledger)
  }

  function CommitReserve(tx: Tx, db: Db): Option<Written>
    requires tx.op.OpReserve?
  {
    var opened', available := Opened(tx, db), tx.account.buckets.Gross();
    if tx.hold.Some? && tx.hold.value.status.Active? then
      Some(Written(opened', Reserved(tx.hold.value.amount, available)))
    else if tx.op.maxConcurrentJobs > 0 && tx.active >= tx.op.maxConcurrentJobs then None
    else if available < MIN_SPEND_TO_START_MICRO then None
    else if tx.op.job in db.holds then None
    else
      Some(Written(opened'.(holds := db.holds[tx.op.job := Hold(tx.op.user, tx.op.cap, 0, Active)]),
                   Reserved(tx.op.cap, available)))
  }

  function CommitMeter(tx: Tx, db: Db): Option<Written>
    requires tx.op.OpMeter?
  {
    var op, acc := tx.op, tx.account;
    var hold := if tx.hold.Some? then Some(op.job) else None;
    var consumed := if tx.hold.Some? then tx.hold.value.consumed else 0;
    if tx.dup then Some(Written(db, Metered(0, consumed, acc.buckets.Gross(), false)))
    else if HasKey(db.ledger, KeyOf(op)) then None
    else if op.enforce then
      var e := DebitEntry(acc, op.user, Debit, op.cost, Some(op.job), hold, KeyOf(op));
      var debited := Spend(acc.buckets, op.cost).debited;
      // the update of the hold returns what it has consumed now
      var holds := if tx.hold.Some? then Consume(db.holds, op.job, debited) else db.holds;
      var now := if tx.hold.Some? then ConsumedBy(holds, op.job) else 0;
      Some(Written(Post(db.(holds := holds), e),
                   Metered(debited, now, e.row.balanceAfter, tx.hold.Some? && now >= tx.hold.value.amount)))
    else
      Some(Written(Post(db, ShadowEntry(acc, op.user, Debit, op.cost, Some(op.job), hold, KeyOf(op))),
                   Metered(op.cost, consumed, acc.buckets.Gross(), false)))
  }

  function CommitFlat(tx: Tx, db: Db): Option<Written>
    requires tx.op.OpFlat?
  {
    var op, acc, opened' := tx.op, tx.account, Opened(tx, db);
    if tx.dup then Some(Written(opened', Charged(false, 0, acc.buckets.Gross())))
    else if op.enforce && acc.buckets.Gross() < op.amount then None
    else if HasKey(db.ledger, KeyOf(op)) then None
    else if op.enforce then
      var e := DebitEntry(acc, op.user, op.kind, op.amount, None, None, KeyOf(op));
      Some(Written(Post(opened', e), Charged(true, Spend(acc.buckets, op.amount).debited, e.row.balanceAfter)))
    else
      Some(Written(Post(opened', ShadowEntry(acc, op.user, op.kind, op.amount, None, None, KeyOf(op))),
                   Charged(true, 0, acc.buckets.Gross())))
  }

  function CommitGateway(tx: Tx, db: Db): Option<Written>
    requires tx.op.OpGateway?
  {
    var op, acc := tx.op, tx.account;
    if tx.dup then Some(Written(db, GatewayMetered(0, acc.buckets.Gross(), op.cost)))
    else if HasKey(db.ledger, KeyOf(op)) || op.request in db.usage then None
    else
      var e := DebitEntry(acc, op.user, GatewayDebit, op.cost, None, None, KeyOf(op));
      Some(Written(Post(db.(usage := db.usage[op.request := Usage(op.user, op.cost)]), e),
                   GatewayMetered(Spend(acc.buckets, op.cost).debited, e.row.balanceAfter, op.cost)))
  }

  function CommitBonus(tx: Tx, db: Db): Option<Written>
    requires tx.op.OpBonus?
  {
    var op, acc, opened' := tx.op, tx.account, Opened(tx, db);
    if tx.dup then Some(Written(opened', Granted(0, acc.buckets.bonus, acc.buckets.Gross())))
    else if HasKey(db.ledger, KeyOf(op)) then None
    else
      var e := BonusEntry(acc, op.user, op.kind, op.amount, KeyOf(op));
      Some(Written(Post(opened', e), Granted(op.amount, e.account.buckets.bonus, e.row.balanceAfter)))
  }

  function CommitPlan(tx: Tx, db: Db): Option<Written>
    requires tx.op.OpPlan?
  {
    var op := tx.op;
    if HasKey(db.ledger, KeyOf(op)) then None
    else
      var expired := ExpireEntry(tx.account, op.user);
      var due := tx.account.buckets.plan > 0;
      var mid := if due then Post(db, expired) else db;
      var base := if due then expired.account else tx.account;
      Some(Written(Post(mid, PlanEntry(base, op.user, (op.cycleStart, op.cycleEnd), KeyOf(op))), Nothing))
  }

  function CommitRedeem(tx: Tx, db: Db): Option<Written>
    requires tx.op.OpRedeem?
  {
    var op := tx.op;
    if tx.promo.None? || HasKey(db.ledger, KeyOf(op)) then None
    else
      var promo := tx.promo.value;
      var counted := Opened(tx, db).(
        redemptions := db.redemptions[(op.code, op.user) := promo.credits],
        promos := db.promos[op.code := promo.(redeemedCount := promo.redeemedCount + 1)]);
      var e := BonusEntry(tx.account, op.user, PromoRedeem, promo.credits, KeyOf(op));
      Some(Written(Post(counted, e), Redeemed(promo.credits, e.row.balanceAfter)))
  }

  /**
   * What is committed, or `None` when the transaction rolls back: because it
   * refuses, or because a row it inserts violates a unique constraint.
   */
  function Commit(tx: Tx, db: Db): Option<Written>
    requires !tx.op.OpSettle?
  {
    if tx.newSignup && HasKey(db.ledger, Signup(tx.op.user)) then None
    else
      match tx.op
      case OpReserve(_, _, _, _) => CommitReserve(tx, db)
      case OpMeter(_, _, _, _, _) => CommitMeter(tx, db)
      case OpFlat(_, _, _, _, _) => CommitFlat(tx, db)
      case OpGateway(_, _, _) => CommitGateway(tx, db)
      case OpBonus(_, _, _, _) => CommitBonus(tx, db)
      case OpPlan(_, _, _, _) => CommitPlan(tx, db)
      case OpRedeem(_, _, _, _) => CommitRedeem(tx, db)
      case _ => None
  }

  /** A reserve that found its hold active comes down to opening the account. */
  function Logged(tx: Tx): Op
    requires !tx.op.OpSettle?
  {
    if tx.op.OpReserve? && tx.hold.Some? && tx.hold.value.status.Active? then OpEnsure(tx.op.user) else tx.op
  }

  // ---- Steps ----

  datatype Action = Start(tx: TxId, op: Op) | Advance(tx: TxId) | Abort(tx: TxId) | SettleJob(job: JobId)

  function Release<K>(locks: map<K, TxId>, t: TxId): map<K, TxId> {
    map key | key in locks && locks[key] != t :: locks[key]
  }

  function End(s: Sys, t: TxId): Sys {
    s.(locks := Release(s.locks, t), promoLocks := Release(s.promoLocks, t), txs := s.txs - {t})
  }

  function Committing(s: Sys, t: TxId, op: Op, w: Written): Sys
    requires t in s.txs
  {
    End(s.(db := w.db, log := s.log + [op], answers := s.answers + [Answer(s.txs[t].op, w.reply)]), t)
  }

  predicate Blocked<K>(locks: map<K, TxId>, t: TxId, key: K) {
    key in locks && locks[key] != t
  }

  /** What a redemption is refused for once the promo row is read; the ledger key is found out at commit. */
  predicate Redeemable(db: Db, op: Op)
    requires op.OpRedeem?
  {
    && op.code in db.promos && db.promos[op.code].isActive
    && (db.promos[op.code].expiresAt.Some? ==> db.promos[op.code].expiresAt.value > op.now)
    && (db.promos[op.code].maxRedemptions.Some? ==>
         db.promos[op.code].redeemedCount < db.promos[op.code].maxRedemptions.value)
    && (op.code, op.user) !in db.redemptions
  }

  /** The statements of a redemption on the promo row, which it locks before it reads it. */
  function ContinuePromo(s: Sys, t: TxId): Sys
    requires t in s.txs && s.txs[t].op.OpRedeem? && (s.txs[t].stage.Begun? || s.txs[t].stage.PromoLocked?)
  {
    var tx, code := s.txs[t], s.txs[t].op.code;
    if tx.stage.Begun? then
      if code == "EXTRA100" && !tx.op.gaveFeedback then End(s, t)
      else if Blocked(s.promoLocks, t, code) then s
      else
        s.(txs := s.txs[t := tx.(stage := PromoLocked)],
           promoLocks := if code in s.db.promos then s.promoLocks[code := t] else s.promoLocks)
    else if !Redeemable(s.db, tx.op) then End(s, t)
    else s.(txs := s.txs[t := tx.(stage := PromoRead, promo := Some(s.db.promos[code]))])
  }

  /** Opening the account, or the duplicate check that a plan grant makes before it has the lock. */
  function Prepare(s: Sys, t: TxId): Sys
    requires t in s.txs && !s.txs[t].op.OpSettle?
  {
    var tx, db := s.txs[t], s.db;
    var user := tx.op.user;
    if Opens(tx.op) then
      // inserting the account row takes its lock; another insert of it waits
      var newAccount := user !in db.accounts;
      if newAccount && Blocked(s.locks, t, user) then s
      else
        var newSignup := !HasKey(db.ledger, Signup(user));
        s.(txs := s.txs[t := tx.(stage := Prepared, newAccount := newAccount, newSignup := newSignup)],
           locks := if newAccount then s.locks[user := t] else s.locks)
    else if tx.op.OpPlan? && HasKey(db.ledger, KeyOf(tx.op)) then
      Committing(s, t, tx.op, Written(db, Nothing))
    else s.(txs := s.txs[t := tx.(stage := Prepared)])
  }

  /** What a transaction has learnt from its next read under the account lock. */
  function ReadNext(tx: Tx, db: Db): Tx
    requires !tx.op.OpSettle?
  {
    var op := tx.op;
    match tx.stage
    case Locked =>
      tx.(stage := AccountRead, account := if op.user in db.accounts then db.accounts[op.user] else FRESH_ACCOUNT)
    case AccountRead =>
      if op.OpReserve? then tx.(stage := KeyRead, hold := if op.job in db.holds then Some(db.holds[op.job]) else None)
      else if Checks(op) then tx.(stage := KeyRead, dup := HasKey(db.ledger, KeyOf(op)))
      else tx.(stage := KeyRead)
    case KeyRead =>
      if op.OpReserve? then tx.(stage := Ready, active := |ActiveHolds(db.holds, op.user)|)
      else if op.OpMeter? then tx.(stage := Ready, hold := if op.job in db.holds then Some(db.holds[op.job]) else None)
      else tx.(stage := Ready)
    case _ => tx
  }

  /** One statement of transaction `t`; it does nothing while it waits for a row lock. */
  function Continue(s: Sys, t: TxId): Sys
    requires t in s.txs && !s.txs[t].op.OpSettle?
  {
    var tx, user := s.txs[t], s.txs[t].op.user;
    match tx.stage
    case Begun => if tx.op.OpRedeem? then ContinuePromo(s, t) else Prepare(s, t)
    case PromoLocked => if tx.op.OpRedeem? then ContinuePromo(s, t) else s
    case PromoRead => Prepare(s, t)
    case Prepared =>
      if Blocked(s.locks, t, user) then s
      else if user !in s.db.accounts && !tx.newAccount then End(s, t)
      else s.(txs := s.txs[t := tx.(stage := Locked)], locks := s.locks[user := t])
    case Ready =>
      (match Commit(tx, s.db)
       case None => End(s, t)
       case Some(w) => Committing(s, t, Logged(tx), w))
    case _ => s.(txs := s.txs[t := ReadNext(tx, s.db)])
  }

  function Next(s: Sys, a: Action, owner: JobId -> UserId): Sys {
    match a
    case Start(t, op) =>
      if t in s.txs || !Concurrent(op, owner) then s
      else s.(txs := s.txs[t := Tx(op, Begun, false, false, FRESH_ACCOUNT, false, None, 0, None)])
    case Advance(t) => if t in s.txs && !s.txs[t].op.OpSettle? then Continue(s, t) else s
    case Abort(t) => End(s, t)
    case SettleJob(job) =>
      s.(db := Step(s.db, OpSettle(job)), log := s.log + [OpSettle(job)],
         answers := s.answers + [Answer(OpSettle(job), Nothing)])
  }

  function Exec(s: Sys, actions: seq<Action>, owner: JobId -> UserId): Sys {
    if actions == [] then s
    else Next(Exec(s, actions[..|actions| - 1], owner), actions[|actions| - 1], owner)
  }

  // ---- The invariant ----

  /** What transaction `t` knows of its user is still so: it is protected by the lock or cannot be undone. */
  ghost predicate Knows(db: Db, locks: map<UserId, TxId>, t: TxId, tx: Tx, owner: JobId -> UserId) {
    && Concurrent(tx.op, owner)
    && (tx.newAccount || tx.newSignup ==> Opens(tx.op))
    && (Rank(tx.stage) >= 1 && Opens(tx.op) ==>
          && tx.newAccount == (tx.op.user !in db.accounts)
          && (tx.newAccount ==> tx.op.user in locks && locks[tx.op.user] == t)
          && (!tx.newSignup ==> HasKey(db.ledger, Signup(tx.op.user))))
    && (Rank(tx.stage) >= 2 ==>
          tx.op.user in locks && locks[tx.op.user] == t && (tx.newAccount || tx.op.user in db.accounts))
    && (Rank(tx.stage) >= 3 ==> tx.account == if tx.newAccount then FRESH_ACCOUNT else db.accounts[tx.op.user])
    && (tx.dup ==> Checks(tx.op) && HasKey(db.ledger, KeyOf(tx.op)))
    && (tx.op.OpMeter? && Rank(tx.stage) >= 5 ==> tx.hold.Some? == (tx.op.job in db.holds))
    && (tx.op.OpReserve? && Rank(tx.stage) >= 5 ==> |ActiveHolds(db.holds, tx.op.user)| <= tx.active)
    && (tx.op.OpReserve? && Rank(tx.stage) >= 4 ==> tx.hold.Some? == (tx.op.job in db.holds))
  }

  /** What it has read of a hold or of a promo row is still so. */
  ghost predicate Remembers(db: Db, promoLocks: map<PromoCode, TxId>, t: TxId, tx: Tx) {
    match tx.op
    case OpMeter(_, job, _, _, _) =>
      Rank(tx.stage) >= 5 && tx.hold.Some? && job in db.holds ==>
        tx.hold.value.consumed == db.holds[job].consumed && tx.hold.value.amount == db.holds[job].amount
    case OpReserve(_, job, _, _) =>
      Rank(tx.stage) >= 4 && tx.hold.Some? && job in db.holds ==> tx.hold.value.amount == db.holds[job].amount
    case OpRedeem(_, code, gaveFeedback, _) =>
      && (!tx.stage.Begun? ==> code == "EXTRA100" ==> gaveFeedback)
      && (!tx.stage.Begun? && code in db.promos ==> code in promoLocks && promoLocks[code] == t)
      && (!tx.stage.Begun? && !tx.stage.PromoLocked? ==> Redeemable(db, tx.op) && tx.promo == Some(db.promos[code]))
    case _ => true
  }

  ghost predicate HoldsOwned(db: Db, owner: JobId -> UserId) {
    forall job :: job in db.holds ==> db.holds[job].user == owner(job)
  }

  /** The answer is what the operation done on `db` replies; a reserve of an active hold only names that hold. */
  predicate Fits(db: Db, done: Op, answer: Answer) {
    if done == answer.asked then Apply(db, done).Committed? && Apply(db, done).reply == answer.reply
    else
      && answer.asked.OpReserve? && done == OpEnsure(answer.asked.user) && answer.asked.job in db.holds
      && answer.reply == Reserved(db.holds[answer.asked.job].amount, BalanceOf(Step(db, done), answer.asked.user))
  }

  ghost predicate Told(start: Db, log: seq<Op>, answers: seq<Answer>) {
    |answers| == |log| && forall i :: 0 <= i < |log| ==> Fits(Run(start, log[..i]), log[i], answers[i])
  }

  ghost predicate Inv(s: Sys, start: Db, owner: JobId -> UserId) {
    && s.db == Run(start, s.log)
    && HoldsOwned(s.db, owner)
    && (forall t :: t in s.txs ==> Knows(s.db, s.locks, t, s.txs[t], owner))
    && (forall t :: t in s.txs ==> Remembers(s.db, s.promoLocks, t, s.txs[t]))
    && Told(start, s.log, s.answers)
  }

  // ---- A commit does what the whole operation would do at that moment ----

  lemma OpenedIsEnsure(db: Db, locks: map<UserId, TxId>, t: TxId, tx: Tx, owner: JobId -> UserId)
    requires Knows(db, locks, t, tx, owner) && Rank(tx.stage) >= 3 && Opens(tx.op)
    requires tx.newSignup ==> !HasKey(db.ledger, Signup(tx.op.user))
    ensures Opened(tx, db) == Ensure(db, tx.op.user) && tx.account == Ensure(db, tx.op.user).accounts[tx.op.user]
  {
  }

  /** What a commit is to be: the database and the reply of the logged operation, run whole. */
  predicate IsSerial(db: Db, tx: Tx, w: Written)
    requires !tx.op.OpSettle?
  {
    w.db == Step(db, Logged(tx)) && Fits(db, Logged(tx), Answer(tx.op, w.reply))
  }

  /** The hold that a turn is charged to has not moved since it was read. */
  predicate KnowsHold(holds: map<JobId, Hold>, job: JobId, hold: Option<Hold>) {
    && hold.Some? == (job in holds)
    && (hold.Some? ==> hold.value.consumed == holds[job].consumed && hold.value.amount == holds[job].amount)
  }

  lemma ConsumptionIsKnown(holds: map<JobId, Hold>, job: JobId, hold: Option<Hold>, debited: int)
    requires KnowsHold(holds, job, hold)
    ensures HoldOf(holds, job) == if hold.Some? then Some(job) else None
    ensures var after := Consume(holds, job, debited);
      && (hold.None? ==> after == holds && ConsumedBy(after, job) == 0)
      && Exhausted(after, job) == (hold.Some? && ConsumedBy(after, job) >= hold.value.amount)
  {
  }

  /** A first enforced metering, in terms of the entry it posts and what that takes. */
  lemma EnforcedMeterPosts(db: Db, op: Op, hold: Option<JobId>, e: Entry, debited: int)
    requires op.OpMeter? && op.enforce && op.user in db.accounts && !HasKey(db.ledger, KeyOf(op))
    requires hold == HoldOf(db.holds, op.job) && debited == Spend(db.accounts[op.user].buckets, op.cost).debited
    requires e == DebitEntry(db.accounts[op.user], op.user, Debit, op.cost, Some(op.job), hold, KeyOf(op))
    ensures var holds := Consume(db.holds, op.job, debited);
      Apply(db, op) == Committed(
        Post(db.(holds := holds), e),
        Metered(debited, ConsumedBy(holds, op.job), e.row.balanceAfter, Exhausted(holds, op.job)))
  {
  }

  /** The same of what the transaction commits. */
  lemma EnforcedCommitPosts(db: Db, tx: Tx, hold: Option<JobId>, e: Entry, debited: int)
    requires tx.op.OpMeter? && tx.op.enforce && !tx.dup && !HasKey(db.ledger, KeyOf(tx.op))
    requires KnowsHold(db.holds, tx.op.job, tx.hold)
    requires hold == HoldOf(db.holds, tx.op.job) && debited == Spend(tx.account.buckets, tx.op.cost).debited
    requires e == DebitEntry(tx.account, tx.op.user, Debit, tx.op.cost, Some(tx.op.job), hold, KeyOf(tx.op))
    ensures var holds := Consume(db.holds, tx.op.job, debited);
      CommitMeter(tx, db) == Some(Written(
        Post(db.(holds := holds), e),
        Metered(debited, ConsumedBy(holds, tx.op.job), e.row.balanceAfter, Exhausted(holds, tx.op.job))))
  {
    ConsumptionIsKnown(db.holds, tx.op.job, tx.hold, debited);
  }

  lemma OtherMeterIsSerial(db: Db, tx: Tx)
    requires tx.op.OpMeter? && tx.op.user in db.accounts && tx.account == db.accounts[tx.op.user]
    requires KnowsHold(db.holds, tx.op.job, tx.hold) && (tx.dup ==> HasKey(db.ledger, KeyOf(tx.op)))
    requires tx.dup || !tx.op.enforce
    ensures var w := CommitMeter(tx, db);
      w.Some? ==> Apply(db, tx.op) == Committed(w.value.db, w.value.reply)
  {
    assert HoldOf(db.holds, tx.op.job) == if tx.hold.Some? then Some(tx.op.job) else None;
  }

  lemma MeterIsSerial(db: Db, locks: map<UserId, TxId>, t: TxId, tx: Tx, owner: JobId -> UserId)
    requires Knows(db, locks, t, tx, owner) && tx.stage.Ready? && tx.op.OpMeter?
    requires KnowsHold(db.holds, tx.op.job, tx.hold)
    ensures var w := CommitMeter(tx, db);
      w.Some? ==> Apply(db, tx.op) == Committed(w.value.db, w.value.reply)
  {
    if tx.dup || !tx.op.enforce {
      OtherMeterIsSerial(db, tx);
    } else if !HasKey(db.ledger, KeyOf(tx.op)) {
      var hold, debited := HoldOf(db.holds, tx.op.job), Spend(tx.account.buckets, tx.op.cost).debited;
      var e := DebitEntry(tx.account, tx.op.user, Debit, tx.op.cost, Some(tx.op.job), hold, KeyOf(tx.op));
      EnforcedMeterPosts(db, tx.op, hold, e, debited);
      EnforcedCommitPosts(db, tx, hold, e, debited);
    }
  }

  lemma FlatIsSerial(db: Db, locks: map<UserId, TxId>, t: TxId, tx: Tx, owner: JobId -> UserId)
    requires Knows(db, locks, t, tx, owner) && tx.stage.Ready? && tx.op.OpFlat?
    requires tx.newSignup ==> !HasKey(db.ledger, Signup(tx.op.user))
    ensures var w := CommitFlat(tx, db);
      w.Some? ==> Apply(db, tx.op) == Committed(w.value.db, w.value.reply)
  {
    OpenedIsEnsure(db, locks, t, tx, owner);
    EnsureKeys(db, tx.op.user, KeyOf(tx.op));
  }

  lemma BonusIsSerial(db: Db, locks: map<UserId, TxId>, t: TxId, tx: Tx, owner: JobId -> UserId)
    requires Knows(db, locks, t, tx, owner) && tx.stage.Ready? && tx.op.OpBonus?
    requires tx.newSignup ==> !HasKey(db.ledger, Signup(tx.op.user))
    ensures var w := CommitBonus(tx, db);
      w.Some? ==> Apply(db, tx.op) == Committed(w.value.db, w.value.reply)
  {
    OpenedIsEnsure(db, locks, t, tx, owner);
    EnsureKeys(db, tx.op.user, KeyOf(tx.op));
  }

  lemma RedeemCommitPosts(db: Db, tx: Tx, ready: Db, e: Entry)
    requires tx.op.OpRedeem? && tx.op.code in db.promos && tx.promo == Some(db.promos[tx.op.code])
    requires ready == Opened(tx, db) && !HasKey(db.ledger, KeyOf(tx.op))
    requires e == BonusEntry(tx.account, tx.op.user, PromoRedeem, db.promos[tx.op.code].credits, KeyOf(tx.op))
    ensures CommitRedeem(tx, db) == Some(Written(
      Post(CountRedemption(ready, tx.op.user, tx.op.code), e),
      Redeemed(db.promos[tx.op.code].credits, e.row.balanceAfter)))
  {
  }

  lemma RedeemIsSerial(db: Db, locks: map<UserId, TxId>, t: TxId, tx: Tx, owner: JobId -> UserId)
    requires Knows(db, locks, t, tx, owner) && tx.stage.Ready? && tx.op.OpRedeem?
    requires Redeemable(db, tx.op) && tx.promo == Some(db.promos[tx.op.code])
    requires tx.op.code == "EXTRA100" ==> tx.op.gaveFeedback
    requires tx.newSignup ==> !HasKey(db.ledger, Signup(tx.op.user))
    ensures var w := CommitRedeem(tx, db);
      w.Some? ==> Apply(db, tx.op) == Committed(w.value.db, w.value.reply)
  {
    if !HasKey(db.ledger, KeyOf(tx.op)) {
      var op, ready := tx.op, Ensure(db, tx.op.user);
      OpenedIsEnsure(db, locks, t, tx, owner);
      var e := BonusEntry(tx.account, op.user, PromoRedeem, db.promos[op.code].credits, KeyOf(op));
      RedeemCommitPosts(db, tx, ready, e);
      assert PromoRefusal(db, op.user, op.code, op.gaveFeedback, op.now).None?;
      RedeemAsPost(db, op.user, op.code, op.gaveFeedback, op.now);
    }
  }

  lemma ReserveIsSerial(db: Db, locks: map<UserId, TxId>, t: TxId, tx: Tx, owner: JobId -> UserId)
    requires Knows(db, locks, t, tx, owner) && tx.stage.Ready? && tx.op.OpReserve?
    requires tx.hold.Some? ==> tx.op.job in db.holds ==> tx.hold.value.amount == db.holds[tx.op.job].amount
    requires tx.newSignup ==> !HasKey(db.ledger, Signup(tx.op.user))
    ensures CommitReserve(tx, db).Some? ==> IsSerial(db, tx, CommitReserve(tx, db).value)
  {
    OpenedIsEnsure(db, locks, t, tx, owner);
  }

  lemma PlanIsSerial(db: Db, locks: map<UserId, TxId>, t: TxId, tx: Tx, owner: JobId -> UserId)
    requires Knows(db, locks, t, tx, owner) && tx.stage.Ready? && tx.op.OpPlan?
    ensures var w := CommitPlan(tx, db);
      w.Some? ==> Apply(db, tx.op) == Committed(w.value.db, w.value.reply)
  {
    var due := tx.account.buckets.plan > 0;
    assert tx.account == db.accounts[tx.op.user];
    assert ExpirePlan(db, tx.op.user) == if due then Post(db, ExpireEntry(tx.account, tx.op.user)) else db;
  }

  lemma GatewayIsSerial(db: Db, locks: map<UserId, TxId>, t: TxId, tx: Tx, owner: JobId -> UserId)
    requires Knows(db, locks, t, tx, owner) && tx.stage.Ready? && tx.op.OpGateway?
    ensures var w := CommitGateway(tx, db);
      w.Some? ==> Apply(db, tx.op) == Committed(w.value.db, w.value.reply)
  {
    assert tx.op.user in db.accounts && tx.account == db.accounts[tx.op.user];
    if tx.dup {
      assert HasKey(db.ledger, GatewayKey(tx.op.request));
    }
  }

  /** A commit leaves the database, and gives the reply, of the whole operation run at that moment. */
  lemma CommitIsSerial(db: Db, locks: map<UserId, TxId>, promoLocks: map<PromoCode, TxId>, t: TxId, tx: Tx,
                       owner: JobId -> UserId)
    requires Knows(db, locks, t, tx, owner) && Remembers(db, promoLocks, t, tx) && tx.stage.Ready?
    ensures Commit(tx, db).Some? ==> IsSerial(db, tx, Commit(tx, db).value)
  {
    if Commit(tx, db).Some? {
      match tx.op
      case OpReserve(_, _, _, _) => ReserveIsSerial(db, locks, t, tx, owner);
      case OpMeter(_, _, _, _, _) => MeterIsSerial(db, locks, t, tx, owner);
      case OpFlat(_, _, _, _, _) => FlatIsSerial(db, locks, t, tx, owner);
      case OpBonus(_, _, _, _) => BonusIsSerial(db, locks, t, tx, owner);
      case OpPlan(_, _, _, _) => PlanIsSerial(db, locks, t, tx, owner);
      case OpGateway(_, _, _) => GatewayIsSerial(db, locks, t, tx, owner);
      case OpRedeem(_, _, _, _) => RedeemIsSerial(db, locks, t, tx, owner);
    }
  }

  // ---- A commit disturbs nothing another transaction knows ----

  /** No promo row but that of `op`'s own code is counted up, and nothing is redeemed but that code. */
  ghost predicate SparesPromos(db: Db, after: Db, op: Op) {
    && after.promos.Keys == db.promos.Keys
    && (forall code :: code in db.promos && !(op.OpRedeem? && op.code == code) ==>
         after.promos[code] == db.promos[code])
    && (forall p :: p in after.redemptions && !(op.OpRedeem? && op.code == p.0) ==> p in db.redemptions)
  }

  /** Only the account and holds of the operation's user change, and its promo row; the ledger only grows. */
  ghost predicate Touches(db: Db, after: Db, op: Op, owner: JobId -> UserId)
    requires !op.OpSettle?
  {
    && db.ledger <= after.ledger
    && db.accounts.Keys <= after.accounts.Keys
    && (forall u :: u in after.accounts && u != op.user ==> u in db.accounts && after.accounts[u] == db.accounts[u])
    && db.holds.Keys <= after.holds.Keys
    && (forall job :: job in after.holds && owner(job) != op.user ==>
          job in db.holds && after.holds[job] == db.holds[job])
    && HoldsOwned(after, owner)
    && SparesPromos(db, after, op)
  }

  lemma PostTouches(db: Db, base: Db, e: Entry, op: Op, owner: JobId -> UserId)
    requires !op.OpSettle? && e.row.user == op.user && Touches(db, base, op, owner)
    ensures Touches(db, Post(base, e), op, owner)
  {
  }

  lemma OpeningTouches(db: Db, tx: Tx, owner: JobId -> UserId)
    requires !tx.op.OpSettle? && HoldsOwned(db, owner)
    ensures Touches(db, Opened(tx, db), tx.op, owner)
  {
  }

  lemma MeterTouches(db: Db, locks: map<UserId, TxId>, t: TxId, tx: Tx, owner: JobId -> UserId)
    requires Knows(db, locks, t, tx, owner) && tx.stage.Ready? && tx.op.OpMeter? && HoldsOwned(db, owner)
    ensures CommitMeter(tx, db).Some? ==> Touches(db, CommitMeter(tx, db).value.db, tx.op, owner)
  {
    if CommitMeter(tx, db).Some? && !tx.dup {
      var op, hold := tx.op, if tx.hold.Some? then Some(tx.op.job) else None;
      if op.enforce {
        var e := DebitEntry(tx.account, op.user, Debit, op.cost, Some(op.job), hold, KeyOf(op));
        var debited := Spend(tx.account.buckets, op.cost).debited;
        var base := db.(holds := if tx.hold.Some? then Consume(db.holds, op.job, debited) else db.holds);
        PostTouches(db, base, e, op, owner);
      } else {
        var e := ShadowEntry(tx.account, op.user, Debit, op.cost, Some(op.job), hold, KeyOf(op));
        PostTouches(db, db, e, op, owner);
      }
    }
  }

  lemma PlanTouches(db: Db, locks: map<UserId, TxId>, t: TxId, tx: Tx, owner: JobId -> UserId)
    requires Knows(db, locks, t, tx, owner) && tx.stage.Ready? && tx.op.OpPlan? && HoldsOwned(db, owner)
    ensures CommitPlan(tx, db).Some? ==> Touches(db, CommitPlan(tx, db).value.db, tx.op, owner)
  {
    var op, expired := tx.op, ExpireEntry(tx.account, tx.op.user);
    var due := tx.account.buckets.plan > 0;
    var base := if due then expired.account else tx.account;
    PostTouches(db, db, expired, op, owner);
    PostTouches(db, if due then Post(db, expired) else db,
      PlanEntry(base, op.user, (op.cycleStart, op.cycleEnd), KeyOf(op)), op, owner);
  }

  lemma FlatTouches(db: Db, locks: map<UserId, TxId>, t: TxId, tx: Tx, owner: JobId -> UserId)
    requires Knows(db, locks, t, tx, owner) && tx.stage.Ready? && tx.op.OpFlat? && HoldsOwned(db, owner)
    ensures CommitFlat(tx, db).Some? ==> Touches(db, CommitFlat(tx, db).value.db, tx.op, owner)
  {
    OpeningTouches(db, tx, owner);
    var op, acc, key := tx.op, tx.account, KeyOf(tx.op);
    if op.enforce {
      PostTouches(db, Opened(tx, db), DebitEntry(acc, op.user, op.kind, op.amount, None, None, key), op, owner);
    } else {
      PostTouches(db, Opened(tx, db), ShadowEntry(acc, op.user, op.kind, op.amount, None, None, key), op, owner);
    }
  }

  lemma ReserveTouches(db: Db, locks: map<UserId, TxId>, t: TxId, tx: Tx, owner: JobId -> UserId)
    requires Knows(db, locks, t, tx, owner) && tx.stage.Ready? && tx.op.OpReserve? && HoldsOwned(db, owner)
    ensures CommitReserve(tx, db).Some? ==> Touches(db, CommitReserve(tx, db).value.db, tx.op, owner)
  {
    OpeningTouches(db, tx, owner);
  }

  lemma BonusTouches(db: Db, locks: map<UserId, TxId>, t: TxId, tx: Tx, owner: JobId -> UserId)
    requires Knows(db, locks, t, tx, owner) && tx.stage.Ready? && tx.op.OpBonus? && HoldsOwned(db, owner)
    ensures CommitBonus(tx, db).Some? ==> Touches(db, CommitBonus(tx, db).value.db, tx.op, owner)
  {
    OpeningTouches(db, tx, owner);
    var op := tx.op;
    PostTouches(db, Opened(tx, db), BonusEntry(tx.account, op.user, op.kind, op.amount, KeyOf(op)), op, owner);
  }

  lemma GatewayTouches(db: Db, locks: map<UserId, TxId>, t: TxId, tx: Tx, owner: JobId -> UserId)
    requires Knows(db, locks, t, tx, owner) && tx.stage.Ready? && tx.op.OpGateway? && HoldsOwned(db, owner)
    ensures CommitGateway(tx, db).Some? ==> Touches(db, CommitGateway(tx, db).value.db, tx.op, owner)
  {
    var op, acc := tx.op, tx.account;
    var used := db.(usage := db.usage[op.request := Usage(op.user, op.cost)]);
    PostTouches(db, used, DebitEntry(acc, op.user, GatewayDebit, op.cost, None, None, KeyOf(op)), op, owner);
  }

  lemma RedeemTouches(db: Db, locks: map<UserId, TxId>, t: TxId, tx: Tx, owner: JobId -> UserId)
    requires Knows(db, locks, t, tx, owner) && tx.stage.Ready? && tx.op.OpRedeem? && HoldsOwned(db, owner)
    requires tx.op.code in db.promos
    ensures CommitRedeem(tx, db).Some? ==> Touches(db, CommitRedeem(tx, db).value.db, tx.op, owner)
  {
    if CommitRedeem(tx, db).Some? {
      OpeningTouches(db, tx, owner);
      var op, promo := tx.op, tx.promo.value;
      var counted := Opened(tx, db).(
        redemptions := db.redemptions[(op.code, op.user) := promo.credits],
        promos := db.promos[op.code := promo.(redeemedCount := promo.redeemedCount + 1)]);
      PostTouches(db, counted, BonusEntry(tx.account, op.user, PromoRedeem, promo.credits, KeyOf(op)), op, owner);
    }
  }

  lemma CommitTouches(db: Db, locks: map<UserId, TxId>, promoLocks: map<PromoCode, TxId>, t: TxId, tx: Tx,
                      owner: JobId -> UserId)
    requires Knows(db, locks, t, tx, owner) && Remembers(db, promoLocks, t, tx) && tx.stage.Ready?
    requires HoldsOwned(db, owner)
    ensures Commit(tx, db).Some? ==> Touches(db, Commit(tx, db).value.db, tx.op, owner)
  {
    match tx.op
    case OpReserve(_, _, _, _) => ReserveTouches(db, locks, t, tx, owner);
    case OpMeter(_, _, _, _, _) => MeterTouches(db, locks, t, tx, owner);
    case OpFlat(_, _, _, _, _) => FlatTouches(db, locks, t, tx, owner);
    case OpBonus(_, _, _, _) => BonusTouches(db, locks, t, tx, owner);
    case OpPlan(_, _, _, _) => PlanTouches(db, locks, t, tx, owner);
    case OpGateway(_, _, _) => GatewayTouches(db, locks, t, tx, owner);
    case OpRedeem(_, _, _, _) => RedeemTouches(db, locks, t, tx, owner);
  }

  /** A transaction that does not hold the lock of the user concerned goes on knowing what it knows. */
  lemma OthersStillKnow(db: Db, after: Db, locks: map<UserId, TxId>, op: Op, t: TxId, t': TxId, tx': Tx,
                        owner: JobId -> UserId)
    requires !op.OpSettle? && op.user in locks && locks[op.user] == t && t != t' && HoldsOwned(db, owner)
    requires Knows(db, locks, t', tx', owner) && Touches(db, after, op, owner)
    ensures Knows(after, Release(locks, t), t', tx', owner)
  {
    if Rank(tx'.stage) >= 1 && Opens(tx'.op) && !tx'.newSignup {
      KeysPersist(db.ledger, after.ledger, Signup(tx'.op.user));
    }
    if tx'.dup {
      KeysPersist(db.ledger, after.ledger, KeyOf(tx'.op));
    }
    if tx'.op.user != op.user {
      assert ActiveHolds(after.holds, tx'.op.user) == ActiveHolds(db.holds, tx'.op.user);
    }
  }

  /** And one that does not hold the lock of the promo row that is counted up goes on remembering what it read. */
  lemma OthersStillRemember(db: Db, after: Db, s: Sys, op: Op, t: TxId, t': TxId, tx': Tx, owner: JobId -> UserId)
    requires !op.OpSettle? && op.user in s.locks && s.locks[op.user] == t && t != t'
    requires op.OpRedeem? ==> op.code in s.promoLocks && s.promoLocks[op.code] == t
    requires Knows(db, s.locks, t', tx', owner) && Remembers(db, s.promoLocks, t', tx') && Touches(db, after, op, owner)
    ensures Remembers(after, Release(s.promoLocks, t), t', tx')
  {
  }

  // ---- Every step keeps the invariant ----

  lemma {:induction false} RunSnoc(start: Db, log: seq<Op>, op: Op)
    ensures Run(start, log + [op]) == Step(Run(start, log), op)
  {
    assert (log + [op])[..|log|] == log;
  }

  lemma {:induction false} ToldOneMore(start: Db, log: seq<Op>, answers: seq<Answer>, op: Op, answer: Answer)
    requires Told(start, log, answers) && Fits(Run(start, log), op, answer)
    ensures Told(start, log + [op], answers + [answer])
  {
    var longer := log + [op];
    forall i | 0 <= i < |longer| ensures Fits(Run(start, longer[..i]), longer[i], (answers + [answer])[i]) {
      assert longer[..i] == log[..i];
      assert log[..|log|] == log;
    }
  }

  /** Transaction `t` is in flight, and what it knows and remembers is so. */
  ghost predicate Sound(s: Sys, t: TxId, owner: JobId -> UserId) {
    && t in s.txs && !s.txs[t].op.OpSettle?
    && Knows(s.db, s.locks, t, s.txs[t], owner) && Remembers(s.db, s.promoLocks, t, s.txs[t])
  }

  lemma ReleaseKeepsKnowledge(s: Sys, t: TxId, t': TxId, tx': Tx, owner: JobId -> UserId)
    requires t != t' && Knows(s.db, s.locks, t', tx', owner) && Remembers(s.db, s.promoLocks, t', tx')
    ensures Knows(s.db, Release(s.locks, t), t', tx', owner) && Remembers(s.db, Release(s.promoLocks, t), t', tx')
  {
  }

  lemma {:induction false} EndKeepsInv(s: Sys, start: Db, t: TxId, owner: JobId -> UserId)
    requires Inv(s, start, owner)
    ensures Inv(End(s, t), start, owner)
  {
    forall t' | t' in End(s, t).txs
      ensures Knows(s.db, End(s, t).locks, t', s.txs[t'], owner)
      ensures Remembers(s.db, End(s, t).promoLocks, t', s.txs[t'])
    {
      ReleaseKeepsKnowledge(s, t, t', s.txs[t'], owner);
    }
  }

  /** A statement of `t` that writes no table: it may take locks that were free. */
  ghost predicate Reads(s: Sys, t: TxId, s': Sys) {
    && t in s.txs && t in s'.txs && s'.txs[t].op == s.txs[t].op
    && s' == s.(txs := s.txs[t := s'.txs[t]], locks := s'.locks, promoLocks := s'.promoLocks)
    && (forall key :: key in s.locks && s.locks[key] != t ==> key in s'.locks && s'.locks[key] == s.locks[key])
    && (forall key :: key in s.promoLocks && s.promoLocks[key] != t ==>
          key in s'.promoLocks && s'.promoLocks[key] == s.promoLocks[key])
  }

  /** The same, and `t` knows and remembers what it has just read. */
  ghost predicate Learns(s: Sys, t: TxId, s': Sys, owner: JobId -> UserId) {
    && Reads(s, t, s')
    && Knows(s.db, s'.locks, t, s'.txs[t], owner)
    && Remembers(s.db, s'.promoLocks, t, s'.txs[t])
  }

  lemma LocksKeepKnowledge(s: Sys, t: TxId, s': Sys, t': TxId, owner: JobId -> UserId)
    requires Reads(s, t, s') && t' in s.txs && t' != t
    requires Knows(s.db, s.locks, t', s.txs[t'], owner) && Remembers(s.db, s.promoLocks, t', s.txs[t'])
    ensures Knows(s.db, s'.locks, t', s.txs[t'], owner) && Remembers(s.db, s'.promoLocks, t', s.txs[t'])
  {
  }

  lemma {:induction false} ReadKeepsInv(s: Sys, start: Db, t: TxId, s': Sys, owner: JobId -> UserId)
    requires Inv(s, start, owner) && Learns(s, t, s', owner)
    ensures Inv(s', start, owner)
  {
    forall t' | t' in s'.txs
      ensures Knows(s'.db, s'.locks, t', s'.txs[t'], owner) && Remembers(s'.db, s'.promoLocks, t', s'.txs[t'])
    {
      if t' != t {
        LocksKeepKnowledge(s, t, s', t', owner);
      }
    }
  }

  /** What is written under the user's lock, and under the promo row's when that is counted up. */
  lemma {:induction false} WritingKeepsInv(s: Sys, start: Db, t: TxId, done: Op, w: Written, owner: JobId -> UserId)
    requires Inv(s, start, owner) && t in s.txs && !s.txs[t].op.OpSettle?
    requires w.db == Step(s.db, done) && Fits(s.db, done, Answer(s.txs[t].op, w.reply))
    requires Touches(s.db, w.db, s.txs[t].op, owner)
    requires s.txs[t].op.user in s.locks && s.locks[s.txs[t].op.user] == t
    requires s.txs[t].op.OpRedeem? ==> s.txs[t].op.code in s.promoLocks && s.promoLocks[s.txs[t].op.code] == t
    ensures Inv(Committing(s, t, done, w), start, owner)
  {
    var op, s' := s.txs[t].op, Committing(s, t, done, w);
    RunSnoc(start, s.log, done);
    ToldOneMore(start, s.log, s.answers, done, Answer(op, w.reply));
    forall t' | t' in s'.txs
      ensures Knows(s'.db, s'.locks, t', s'.txs[t'], owner) && Remembers(s'.db, s'.promoLocks, t', s'.txs[t'])
    {
      OthersStillKnow(s.db, w.db, s.locks, op, t, t', s.txs[t'], owner);
      OthersStillRemember(s.db, w.db, s, op, t, t', s.txs[t'], owner);
    }
  }

  lemma ReadyHoldsLocks(s: Sys, t: TxId, owner: JobId -> UserId)
    requires Sound(s, t, owner) && s.txs[t].stage.Ready?
    ensures s.txs[t].op.user in s.locks && s.locks[s.txs[t].op.user] == t
    ensures s.txs[t].op.OpRedeem? ==> s.txs[t].op.code in s.promoLocks && s.promoLocks[s.txs[t].op.code] == t
  {
  }

  lemma {:induction false} CommitKeepsInv(s: Sys, start: Db, t: TxId, w: Written, owner: JobId -> UserId)
    requires Inv(s, start, owner) && t in s.txs && !s.txs[t].op.OpSettle? && s.txs[t].stage.Ready?
    requires IsSerial(s.db, s.txs[t], w) && Touches(s.db, w.db, s.txs[t].op, owner)
    ensures Inv(Committing(s, t, Logged(s.txs[t]), w), start, owner)
  {
    ReadyHoldsLocks(s, t, owner);
    WritingKeepsInv(s, start, t, Logged(s.txs[t]), w, owner);
  }

  /** A plan grant that finds its row commits without a lock, and writes nothing. */
  lemma {:induction false} RedeliveryKeepsInv(s: Sys, start: Db, t: TxId, owner: JobId -> UserId)
    requires Inv(s, start, owner) && t in s.txs && s.txs[t].op.OpPlan? && HasKey(s.db.ledger, KeyOf(s.txs[t].op))
    ensures Inv(Committing(s, t, s.txs[t].op, Written(s.db, Nothing)), start, owner)
  {
    var op := s.txs[t].op;
    assert Apply(s.db, op) == Committed(s.db, Nothing);
    EndKeepsInv(s, start, t, owner);
    RunSnoc(start, s.log, op);
    ToldOneMore(start, s.log, s.answers, op, Answer(op, Nothing));
  }

  /** A statement does nothing, ends the transaction, or teaches it something. */
  ghost predicate Waits(s: Sys, t: TxId, s': Sys, owner: JobId -> UserId) {
    s' == s || s' == End(s, t) || Learns(s, t, s', owner)
  }

  lemma PromoLearns(s: Sys, t: TxId, owner: JobId -> UserId)
    requires Sound(s, t, owner) && s.txs[t].op.OpRedeem? && (s.txs[t].stage.Begun? || s.txs[t].stage.PromoLocked?)
    ensures Waits(s, t, ContinuePromo(s, t), owner)
  {
  }

  lemma PreparingLearns(s: Sys, t: TxId, owner: JobId -> UserId)
    requires Sound(s, t, owner) && Rank(s.txs[t].stage) == 0
    requires s.txs[t].op.OpRedeem? ==> s.txs[t].stage.PromoRead?
    requires s.txs[t].op.OpPlan? ==> !HasKey(s.db.ledger, KeyOf(s.txs[t].op))
    ensures Waits(s, t, Prepare(s, t), owner)
  {
  }

  lemma LockingLearns(s: Sys, t: TxId, owner: JobId -> UserId)
    requires Sound(s, t, owner) && s.txs[t].stage.Prepared?
    ensures Waits(s, t, Continue(s, t), owner)
  {
  }

  lemma ReadIsKnown(db: Db, locks: map<UserId, TxId>, t: TxId, tx: Tx, owner: JobId -> UserId)
    requires Knows(db, locks, t, tx, owner) && 2 <= Rank(tx.stage) <= 4
    ensures Knows(db, locks, t, ReadNext(tx, db), owner)
  {
  }

  lemma ReadIsRemembered(db: Db, promoLocks: map<PromoCode, TxId>, t: TxId, tx: Tx)
    requires Remembers(db, promoLocks, t, tx) && !tx.op.OpSettle? && 2 <= Rank(tx.stage) <= 4
    ensures Remembers(db, promoLocks, t, ReadNext(tx, db)) && ReadNext(tx, db).op == tx.op
  {
  }

  lemma ReadingLearns(s: Sys, t: TxId, owner: JobId -> UserId)
    requires Sound(s, t, owner) && 2 <= Rank(s.txs[t].stage) <= 4
    ensures Learns(s, t, s.(txs := s.txs[t := ReadNext(s.txs[t], s.db)]), owner)
  {
    ReadIsKnown(s.db, s.locks, t, s.txs[t], owner);
    ReadIsRemembered(s.db, s.promoLocks, t, s.txs[t]);
  }

  lemma {:induction false} WaitingKeepsInv(s: Sys, start: Db, t: TxId, s': Sys, owner: JobId -> UserId)
    requires Inv(s, start, owner) && Waits(s, t, s', owner)
    ensures Inv(s', start, owner)
  {
    if s' == End(s, t) {
      EndKeepsInv(s, start, t, owner);
    } else if s' != s {
      ReadKeepsInv(s, start, t, s', owner);
    }
  }

  lemma {:induction false} ReadingKeepsInv(s: Sys, start: Db, t: TxId, owner: JobId -> UserId)
    requires Inv(s, start, owner) && t in s.txs && !s.txs[t].op.OpSettle? && 2 <= Rank(s.txs[t].stage) <= 4
    ensures Inv(s.(txs := s.txs[t := ReadNext(s.txs[t], s.db)]), start, owner)
  {
    ReadingLearns(s, t, owner);
    ReadKeepsInv(s, start, t, s.(txs := s.txs[t := ReadNext(s.txs[t], s.db)]), owner);
  }

  lemma {:induction false} OpeningKeepsInv(s: Sys, start: Db, t: TxId, owner: JobId -> UserId)
    requires Inv(s, start, owner) && t in s.txs && !s.txs[t].op.OpSettle? && Rank(s.txs[t].stage) == 0
    requires s.txs[t].op.OpRedeem? ==> s.txs[t].stage.PromoRead?
    ensures Inv(Prepare(s, t), start, owner)
  {
    if s.txs[t].op.OpPlan? && HasKey(s.db.ledger, KeyOf(s.txs[t].op)) {
      RedeliveryKeepsInv(s, start, t, owner);
    } else {
      PreparingLearns(s, t, owner);
      WaitingKeepsInv(s, start, t, Prepare(s, t), owner);
    }
  }

  lemma {:induction false} ContinueKeepsInv(s: Sys, start: Db, t: TxId, owner: JobId -> UserId)
    requires Inv(s, start, owner) && t in s.txs && !s.txs[t].op.OpSettle?
    ensures Inv(Continue(s, t), start, owner)
  {
    var tx := s.txs[t];
    match tx.stage
    case Ready =>
      if Commit(tx, s.db).Some? {
        CommitIsSerial(s.db, s.locks, s.promoLocks, t, tx, owner);
        CommitTouches(s.db, s.locks, s.promoLocks, t, tx, owner);
        CommitKeepsInv(s, start, t, Commit(tx, s.db).value, owner);
      } else {
        EndKeepsInv(s, start, t, owner);
      }
    case Prepared =>
      LockingLearns(s, t, owner);
      WaitingKeepsInv(s, start, t, Continue(s, t), owner);
    case PromoRead => OpeningKeepsInv(s, start, t, owner);
    case Locked => ReadingKeepsInv(s, start, t, owner);
    case AccountRead => ReadingKeepsInv(s, start, t, owner);
    case KeyRead => ReadingKeepsInv(s, start, t, owner);
    case _ =>
      if tx.op.OpRedeem? {
        PromoLearns(s, t, owner);
        WaitingKeepsInv(s, start, t, ContinuePromo(s, t), owner);
      } else if tx.stage.Begun? {
        OpeningKeepsInv(s, start, t, owner);
      }
  }

  lemma SettleKeepsKnowledge(db: Db, s: Sys, job: JobId, t: TxId, tx: Tx, owner: JobId -> UserId)
    requires Knows(db, s.locks, t, tx, owner) && Remembers(db, s.promoLocks, t, tx)
    ensures Knows(Step(db, OpSettle(job)), s.locks, t, tx, owner)
    ensures Remembers(Step(db, OpSettle(job)), s.promoLocks, t, tx)
  {
    if tx.op.OpReserve? {
      SettlingLowersTheCount(db, job, tx.op.user);
    }
  }

  lemma SettleKeepsOwned(db: Db, job: JobId, owner: JobId -> UserId)
    requires HoldsOwned(db, owner)
    ensures HoldsOwned(Step(db, OpSettle(job)), owner)
  {
  }

  lemma {:induction false} SettleKeepsInv(s: Sys, start: Db, job: JobId, owner: JobId -> UserId)
    requires Inv(s, start, owner)
    ensures Inv(Next(s, SettleJob(job), owner), start, owner)
  {
    var op := OpSettle(job);
    assert Fits(s.db, op, Answer(op, Nothing));
    RunSnoc(start, s.log, op);
    ToldOneMore(start, s.log, s.answers, op, Answer(op, Nothing));
    SettleKeepsOwned(s.db, job, owner);
    forall t | t in s.txs
      ensures Knows(Step(s.db, op), s.locks, t, s.txs[t], owner) && Remembers(Step(s.db, op), s.promoLocks, t, s.txs[t])
    {
      SettleKeepsKnowledge(s.db, s, job, t, s.txs[t], owner);
    }
  }

  lemma {:induction false} StartKeepsInv(s: Sys, start: Db, t: TxId, op: Op, owner: JobId -> UserId)
    requires Inv(s, start, owner)
    ensures Inv(Next(s, Start(t, op), owner), start, owner)
  {
  }

  lemma {:induction false} NextKeepsInv(s: Sys, start: Db, a: Action, owner: JobId -> UserId)
    requires Inv(s, start, owner)
    ensures Inv(Next(s, a, owner), start, owner)
  {
    match a
    case Start(t, op) => StartKeepsInv(s, start, t, op, owner);
    case Advance(t) =>
      if t in s.txs && !s.txs[t].op.OpSettle? {
        ContinueKeepsInv(s, start, t, owner);
      }
    case Abort(t) => EndKeepsInv(s, start, t, owner);
    case SettleJob(job) => SettleKeepsInv(s, start, job, owner);
  }

  // ---- Whole executions ----

  function Init(start: Db): Sys {
    Sys(start, map[], map[], map[], [], [])
  }

  lemma {:induction false} ExecKeepsInv(start: Db, actions: seq<Action>, owner: JobId -> UserId)
    requires HoldsOwned(start, owner)
    ensures Inv(Exec(Init(start), actions, owner), start, owner)
  {
    if actions == [] {
    } else {
      var n := |actions| - 1;
      ExecKeepsInv(start, actions[..n], owner);
      NextKeepsInv(Exec(Init(start), actions[..n], owner), start, actions[n], owner);
    }
  }

  /**
   * Serialisability: whatever the interleaving, and whoever rolls back where, the
   * database is the one left by running the committed operations whole, one
   * after the other in commit order.
   */
  lemma {:induction false} Serialisable(start: Db, actions: seq<Action>, owner: JobId -> UserId)
    requires HoldsOwned(start, owner)
    ensures var s := Exec(Init(start), actions, owner);
      s.db == Run(start, s.log)
  {
    ExecKeepsInv(start, actions, owner);
  }

  // ---- What that gives concurrent executions ----

  /** Every reserve that is started passes the cap of `mode`. */
  ghost predicate StartsAllowed(actions: seq<Action>, mode: Mode) {
    forall i :: 0 <= i < |actions| && actions[i].Start? ==> Allowed(actions[i].op, mode)
  }

  ghost predicate OpsAllowed(s: Sys, mode: Mode) {
    && (forall t :: t in s.txs ==> Allowed(s.txs[t].op, mode))
    && (forall i :: 0 <= i < |s.log| ==> Allowed(s.log[i], mode))
  }

  /** A statement changes no transaction's operation, and logs its own at most. */
  ghost predicate KeepsOps(s: Sys, t: TxId, s': Sys)
    requires t in s.txs && !s.txs[t].op.OpSettle?
  {
    && (forall u :: u in s'.txs ==> u in s.txs && s'.txs[u].op == s.txs[u].op)
    && (s'.log == s.log || s'.log == s.log + [s.txs[t].op] || s'.log == s.log + [Logged(s.txs[t])])
  }

  lemma OpeningKeepsOps(s: Sys, t: TxId)
    requires t in s.txs && !s.txs[t].op.OpSettle?
    ensures s.txs[t].op.OpRedeem? && (s.txs[t].stage.Begun? || s.txs[t].stage.PromoLocked?) ==>
              KeepsOps(s, t, ContinuePromo(s, t))
    ensures KeepsOps(s, t, Prepare(s, t))
  {
  }

  lemma ReadingKeepsOps(s: Sys, t: TxId)
    requires t in s.txs && !s.txs[t].op.OpSettle?
    ensures KeepsOps(s, t, s.(txs := s.txs[t := ReadNext(s.txs[t], s.db)]))
  {
  }

  lemma EndingKeepsOps(s: Sys, t: TxId, w: Written)
    requires t in s.txs && !s.txs[t].op.OpSettle?
    ensures KeepsOps(s, t, End(s, t)) && KeepsOps(s, t, Committing(s, t, Logged(s.txs[t]), w))
  {
  }

  lemma AdvanceKeepsOps(s: Sys, t: TxId)
    requires t in s.txs && !s.txs[t].op.OpSettle?
    ensures KeepsOps(s, t, Continue(s, t))
  {
    match s.txs[t].stage
    case Ready =>
      var w := Commit(s.txs[t], s.db);
      EndingKeepsOps(s, t, if w.Some? then w.value else Written(s.db, Nothing));
    case Prepared => EndingKeepsOps(s, t, Written(s.db, Nothing));
    case Locked => ReadingKeepsOps(s, t);
    case AccountRead => ReadingKeepsOps(s, t);
    case KeyRead => ReadingKeepsOps(s, t);
    case _ => OpeningKeepsOps(s, t);
  }

  lemma AdvanceKeepsAllowed(s: Sys, t: TxId, s': Sys, mode: Mode)
    requires OpsAllowed(s, mode) && t in s.txs && !s.txs[t].op.OpSettle? && KeepsOps(s, t, s')
    ensures OpsAllowed(s', mode)
  {
    assert Allowed(s.txs[t].op, mode) && Allowed(Logged(s.txs[t]), mode);
  }

  lemma NextKeepsAllowed(s: Sys, a: Action, owner: JobId -> UserId, mode: Mode)
    requires OpsAllowed(s, mode) && (a.Start? ==> Allowed(a.op, mode))
    ensures OpsAllowed(Next(s, a, owner), mode)
  {
    if a.Advance? && a.tx in s.txs && !s.txs[a.tx].op.OpSettle? {
      AdvanceKeepsOps(s, a.tx);
      AdvanceKeepsAllowed(s, a.tx, Continue(s, a.tx), mode);
    }
  }

  lemma {:induction false} ExecKeepsAllowed(start: Db, actions: seq<Action>, owner: JobId -> UserId, mode: Mode)
    requires StartsAllowed(actions, mode)
    ensures OpsAllowed(Exec(Init(start), actions, owner), mode)
  {
    if actions == [] {
    } else {
      var n := |actions| - 1;
      ExecKeepsAllowed(start, actions[..n], owner, mode);
      NextKeepsAllowed(Exec(Init(start), actions[..n], owner), actions[n], owner, mode);
    }
  }

  /** The whole law holds of every concurrent execution, not only of serial histories. */
  lemma {:induction false} ConcurrentExecutionsKeepTheLaw(
      start: Db, actions: seq<Action>, owner: JobId -> UserId, mode: Mode)
    requires Unused(start) && StartsAllowed(actions, mode)
    ensures Law(Exec(Init(start), actions, owner).db, mode)
  {
    Serialisable(start, actions, owner);
    ExecKeepsAllowed(start, actions, owner, mode);
    EveryHistoryKeepsLaw(start, Exec(Init(start), actions, owner).log, mode);
  }

  /** With one cap for every reserve, no interleaving gives a user more active holds than that. */
  lemma {:induction false} ConcurrentReservesAreCapped(start: Db, actions: seq<Action>, owner: JobId -> UserId,
                                                       cap: nat, user: UserId)
    requires Unused(start) && cap > 0 && StartsAllowed(actions, Mode(false, cap))
    ensures |ActiveHolds(Exec(Init(start), actions, owner).db.holds, user)| <= cap
  {
    ConcurrentExecutionsKeepTheLaw(start, actions, owner, Mode(false, cap));
    assert Holds(Exec(Init(start), actions, owner).db, Mode(false, cap), CapAspect);
  }

  /** However many redemptions of one code race for its last use, it is not redeemed more often than its maximum. */
  lemma {:induction false} RacingRedemptionsAreCounted(
      start: Db, actions: seq<Action>, owner: JobId -> UserId, code: PromoCode)
    requires Unused(start) && code in Exec(Init(start), actions, owner).db.promos
    ensures var db := Exec(Init(start), actions, owner).db;
      && db.promos[code].redeemedCount == |Redeemers(db, code)|
      && (db.promos[code].maxRedemptions.Some? ==> |Redeemers(db, code)| <= db.promos[code].maxRedemptions.value)
  {
    Serialisable(start, actions, owner);
    PromosAgreeWithLedger(start, Exec(Init(start), actions, owner).log, code);
  }

  lemma {:induction false} RunOneMore(start: Db, log: seq<Op>, i: nat)
    requires i < |log|
    ensures Run(start, log[..i + 1]) == Step(Run(start, log[..i]), log[i])
  {
    assert log[..i + 1] == log[..i] + [log[i]];
    RunSnoc(start, log[..i], log[i]);
  }

  /** A plan grant that is not a redelivery. */
  predicate FirstGrant(db: Db, op: Op) {
    op.OpPlan? && op.user in db.accounts && !HasKey(db.ledger, PlanKey(op.subscription, op.cycleStart))
  }

  predicate GrantResets(db: Db, op: Op, after: Db)
    requires op.OpPlan? && op.user in db.accounts
  {
    var b := db.accounts[op.user].buckets;
    after == Changed(
      db, op.user, Account(Buckets(b.free, 5_000_000_000, b.bonus), Some((op.cycleStart, op.cycleEnd))),
      CycleRows(op.user, b, PlanKey(op.subscription, op.cycleStart)))
  }

  lemma FirstGrantResets(db: Db, op: Op)
    requires FirstGrant(db, op)
    ensures GrantResets(db, op, Step(db, op))
  {
    PlanCycleResets(db, op.user, op.subscription, op.cycleStart, op.cycleEnd);
  }

  /**
   * However many deliveries of one plan cycle race past the unlocked duplicate
   * check, only the first to commit counts: every key is written once, and
   * balances and keyless rows are those of the history without the repeats. The
   * one that counts expires what was left of the old cycle and grants the new one.
   */
  lemma {:induction false} RacingGrantsCountOnce(start: Db, actions: seq<Action>, owner: JobId -> UserId)
    requires Unused(start)
    ensures var s := Exec(Init(start), actions, owner);
      && UniqueKeys(s.db.ledger) && s.db == Run(start, WithoutRepeats(start, s.log))
      && forall i :: 0 <= i < |s.log| && FirstGrant(Run(start, s.log[..i]), s.log[i]) ==>
           GrantResets(Run(start, s.log[..i]), s.log[i], Run(start, s.log[..i + 1]))
  {
    var s := Exec(Init(start), actions, owner);
    ConcurrentExecutionsKeepTheLaw(start, actions, owner, ANY);
    LawMeans(s.db, ANY);
    Serialisable(start, actions, owner);
    RepeatsChangeNothing(start, s.log);
    forall i | 0 <= i < |s.log| && FirstGrant(Run(start, s.log[..i]), s.log[i])
      ensures GrantResets(Run(start, s.log[..i]), s.log[i], Run(start, s.log[..i + 1]))
    {
      RunOneMore(start, s.log, i);
      FirstGrantResets(Run(start, s.log[..i]), s.log[i]);
    }
  }

  lemma {:induction false} FittingIsTrue(start: Db, ops: seq<Op>, done: Op, answer: Answer, after: Db)
    requires Unused(start) && Fits(Run(start, ops), done, answer) && after == Step(Run(start, ops), done)
    ensures TellsTruth(Run(start, ops), answer.asked, after, answer.reply)
  {
    if done == answer.asked {
      RepliesAreTrue(start, ops, done);
    }
  }

  /** What is logged is what was asked, or the opening of the account that a reserve of an active hold comes down to. */
  predicate Answers(asked: Op, done: Op) {
    done == asked || (asked.OpReserve? && done == OpEnsure(asked.user))
  }

  lemma {:induction false} ToldIsTrue(start: Db, log: seq<Op>, answers: seq<Answer>, i: nat)
    requires Unused(start) && Told(start, log, answers) && i < |log|
    ensures TellsTruth(Run(start, log[..i]), answers[i].asked, Run(start, log[..i + 1]), answers[i].reply)
    ensures Answers(answers[i].asked, log[i])
  {
    RunOneMore(start, log, i);
    FittingIsTrue(start, log[..i], log[i], answers[i], Run(start, log[..i + 1]));
  }

  /**
   * Whoever is told something when its transaction commits is told the truth: the
   * balance, and what was taken, granted or reserved, are those of that moment.
   */
  lemma {:induction false} ConcurrentRepliesAreTrue(start: Db, actions: seq<Action>, owner: JobId -> UserId, i: nat)
    requires Unused(start) && i < |Exec(Init(start), actions, owner).log|
    ensures var s := Exec(Init(start), actions, owner);
      && |s.answers| == |s.log| && Answers(s.answers[i].asked, s.log[i])
      && TellsTruth(Run(start, s.log[..i]), s.answers[i].asked, Run(start, s.log[..i + 1]), s.answers[i].reply)
  {
    ExecKeepsInv(start, actions, owner);
    var s := Exec(Init(start), actions, owner);
    ToldIsTrue(start, s.log, s.answers, i);
  }
}
