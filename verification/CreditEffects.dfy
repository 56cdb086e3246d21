/**
 * What each ledger operation does, row by row and bucket by bucket: the whole
 * database it leaves, and every reason it is refused for.
 */
module CreditEffects {
  import opened Common
  import opened Pricing
  import opened CreditLedger
  import opened CreditLaws
  import opened CreditAudit

  /** `db` with one account set and some rows added; every other account and table as it was. */
  function Changed(db: Db, user: UserId, account: Account, rows: seq<Row>): Db {
    db.(accounts := db.accounts[user := account], ledger := db.ledger + rows)
  }

  // ---- Opening an account ----

  /** The account an operation works on: a new one has the 300 free credits of the signup and nothing else. */
  function AccountOf(db: Db, user: UserId): Account {
    if user in db.accounts then db.accounts[user] else Account(Buckets(300_000_000, 0, 0), None)
  }

  /** The row of the signup grant, if it has not been written yet. */
  function SignupRows(db: Db, user: UserId): seq<Row> {
    if exists i :: 0 <= i < |db.ledger| && db.ledger[i].key == Some(Signup(user)) then []
    else [Row(user, SignupGrant, 300_000_000, 300_000_000, None, None, Some(Signup(user)), false)]
  }

  /** Opening an account gives it its grant and its row, whichever of the two is missing. */
  lemma OpeningGrantsOnce(db: Db, user: UserId)
    ensures Step(db, OpEnsure(user)) == Changed(db, user, AccountOf(db, user), SignupRows(db, user))
    ensures Step(db, OpUpsert(user)) == Changed(db, user, AccountOf(db, user), [])
  {
    var upserted, account := UpsertAccount(db, user), AccountOf(db, user);
    assert upserted.accounts == db.accounts[user := account];
    assert db.ledger + [] == db.ledger;
    assert HasKey(db.ledger, Signup(user)) <==> SignupRows(db, user) == [];
  }

  lemma EnsureIs(db: Db, user: UserId)
    ensures Ensure(db, user) == Changed(db, user, AccountOf(db, user), SignupRows(db, user))
  {
    OpeningGrantsOnce(db, user);
  }

  /** An entry posted once the account is open. */
  lemma PostAfterOpening(db: Db, user: UserId, e: Entry)
    requires e.row.user == user
    ensures Post(Ensure(db, user), e) == Changed(db, user, e.account, SignupRows(db, user) + [e.row])
  {
    EnsureIs(db, user);
    var rows := SignupRows(db, user);
    assert db.ledger + rows + [e.row] == db.ledger + (rows + [e.row]);
    assert db.accounts[user := AccountOf(db, user)][user := e.account] == db.accounts[user := e.account];
  }

  // ---- Plan cycles ----

  /** The rows of a plan cycle: what is left of the old one expires, if anything is, then the new one is granted. */
  function CycleRows(user: UserId, b: Buckets, key: Key): seq<Row> {
    (if b.plan > 0 then [Row(user, Expire, -b.plan, b.free + b.bonus, None, None, None, false)] else [])
    + [Row(user, PlanGrant, 5_000_000_000, b.free + 5_000_000_000 + b.bonus, None, None, Some(key), false)]
  }

  lemma ExpiryRow(acc: Account, user: UserId)
    ensures ExpireEntry(acc, user) == Entry(
      acc.(buckets := Buckets(acc.buckets.free, 0, acc.buckets.bonus)),
      Row(user, Expire, -acc.buckets.plan, acc.buckets.free + acc.buckets.bonus, None, None, None, false))
  {
  }

  /** What is left of the old plan goes, with its row; an empty bucket leaves no row. */
  lemma LeftoverExpires(db: Db, user: UserId)
    requires user in db.accounts
    ensures var acc := db.accounts[user]; var b := acc.buckets;
      ExpirePlan(db, user) ==
      if b.plan > 0 then
        Changed(db, user, acc.(buckets := Buckets(b.free, 0, b.bonus)),
                [Row(user, Expire, -b.plan, b.free + b.bonus, None, None, None, false)])
      else db
  {
    ExpiryRow(db.accounts[user], user);
  }

  lemma GrantRow(acc: Account, user: UserId, cycle: (int, int), key: Key)
    ensures var b := acc.buckets;
      PlanEntry(acc, user, cycle, key) == Entry(
        Account(Buckets(b.free, 5_000_000_000, b.bonus), Some(cycle)),
        Row(user, PlanGrant, 5_000_000_000, b.free + 5_000_000_000 + b.bonus, None, None, Some(key), false))
  {
  }

  /**
   * A new plan cycle: unused plan credits of the old one expire with a row of their
   * own, the allotment of 5000 credits replaces them, free and bonus credits stay,
   * and nothing else in the database changes.
   */
  lemma PlanCycleResets(db: Db, user: UserId, subscription: string, cycleStart: int, cycleEnd: int)
    requires user in db.accounts && !HasKey(db.ledger, PlanKey(subscription, cycleStart))
    ensures var b := db.accounts[user].buckets;
      Apply(db, OpPlan(user, subscription, cycleStart, cycleEnd)) == Committed(
        Changed(db, user, Account(Buckets(b.free, 5_000_000_000, b.bonus), Some((cycleStart, cycleEnd))),
                CycleRows(user, b, PlanKey(subscription, cycleStart))),
        Nothing)
  {
    var acc, key, cycle := db.accounts[user], PlanKey(subscription, cycleStart), (cycleStart, cycleEnd);
    LeftoverExpires(db, user);
    var mid := ExpirePlan(db, user);
    var base, rows := mid.accounts[user], CycleRows(user, acc.buckets, key);
    GrantRow(base, user, cycle, key);
    var grant := PlanEntry(base, user, cycle, key);
    assert mid.ledger + [grant.row] == db.ledger + rows;
    assert mid.accounts[user := grant.account] == db.accounts[user := grant.account];
  }

  // ---- Grants to the bonus bucket ----

  lemma BonusRow(acc: Account, user: UserId, kind: LedgerType, amount: int, key: Key)
    ensures var b := acc.buckets;
      BonusEntry(acc, user, kind, amount, key) == Entry(
        acc.(buckets := Buckets(b.free, b.plan, b.bonus + amount)),
        Row(user, kind, amount, b.free + b.plan + b.bonus + amount, None, None, Some(key), false))
  {
  }

  /** A bonus not granted under this name before goes to the bonus bucket, whole. */
  lemma BonusIsGranted(db: Db, user: UserId, amount: int, name: string, kind: LedgerType)
    requires amount > 0 && !HasKey(db.ledger, Named(name))
    ensures var acc := AccountOf(db, user); var b := acc.buckets;
      var total := b.free + b.plan + b.bonus + amount;
      Apply(db, OpBonus(user, amount, name, kind)) == Committed(
        Changed(db, user, acc.(buckets := Buckets(b.free, b.plan, b.bonus + amount)),
                SignupRows(db, user) + [Row(user, kind, amount, total, None, None, Some(Named(name)), false)]),
        Granted(amount, b.bonus + amount, total))
  {
    EnsureKeys(db, user, Named(name));
    EnsureIs(db, user);
    var acc := AccountOf(db, user);
    BonusRow(acc, user, kind, amount, Named(name));
    PostAfterOpening(db, user, BonusEntry(acc, user, kind, amount, Named(name)));
  }

  /**
   * A code that is redeemed puts its credits in the bonus bucket, counts one use,
   * and records who used it.
   */
  lemma CodeIsRedeemed(db: Db, user: UserId, code: PromoCode, gaveFeedback: bool, now: int)
    requires Apply(db, OpRedeem(user, code, gaveFeedback, now)).Committed?
    ensures code in db.promos
    ensures var acc := AccountOf(db, user); var b := acc.buckets; var promo := db.promos[code];
      var total := b.free + b.plan + b.bonus + promo.credits;
      var row := Row(user, PromoRedeem, promo.credits, total, None, None, Some(PromoKey(code, user)), false);
      var after := Changed(db, user, acc.(buckets := Buckets(b.free, b.plan, b.bonus + promo.credits)),
                           SignupRows(db, user) + [row]);
      Apply(db, OpRedeem(user, code, gaveFeedback, now)) == Committed(
        after.(promos := db.promos[code := promo.(redeemedCount := promo.redeemedCount + 1)],
               redemptions := db.redemptions[(code, user) := promo.credits]),
        Redeemed(promo.credits, total))
  {
    var acc, promo, key := AccountOf(db, user), db.promos[code], PromoKey(code, user);
    var ready := Ensure(db, user);
    RedeemAsPost(db, user, code, gaveFeedback, now);
    EnsureIs(db, user);
    assert ready.accounts[user] == acc;
    BonusRow(acc, user, PromoRedeem, promo.credits, key);
    var e := BonusEntry(acc, user, PromoRedeem, promo.credits, key);
    PostAfterOpening(db, user, e);
    assert Post(CountRedemption(ready, user, code), e) == CountRedemption(Post(ready, e), user, code);
  }

  // ---- Charges ----

  /** The account with an amount taken from it, as far as it goes. */
  function Paying(acc: Account, amount: int): Account {
    acc.(buckets := Spend(acc.buckets, amount).buckets)
  }

  lemma DebitRow(acc: Account, user: UserId, kind: LedgerType, amount: int, job: Option<JobId>, hold: Option<JobId>,
                 key: Key)
    ensures var s := Spend(acc.buckets, amount);
      DebitEntry(acc, user, kind, amount, job, hold, key) == Entry(
        Paying(acc, amount), Row(user, kind, -s.debited, s.buckets.Gross(), job, hold, Some(key), false))
  {
  }

  /** The hold of a job with `more` consumed of it, if the job has one. */
  function HoldsAfter(holds: map<JobId, Hold>, job: JobId, more: int): map<JobId, Hold> {
    if job !in holds then holds
    else
      var h := holds[job];
      holds[job := Hold(h.user, h.amount, h.consumed + more, h.status)]
  }

  /**
   * A turn metered for the first time, enforced: the row names the job, its hold
   * and its turn, what the buckets lost is what the hold has consumed more, and the
   * caller is told whether that is all the hold was for.
   */
  lemma TurnIsCharged(db: Db, user: UserId, job: JobId, cost: nat, sequence: int)
    requires user in db.accounts && !HasKey(db.ledger, DebitKey(job, sequence))
    ensures var acc := db.accounts[user]; var s := Spend(acc.buckets, cost);
      var row := Row(user, Debit, -s.debited, s.buckets.Gross(), Some(job),
                     if job in db.holds then Some(job) else None, Some(DebitKey(job, sequence)), false);
      var holds := HoldsAfter(db.holds, job, s.debited);
      Apply(db, OpMeter(user, job, cost, sequence, true)) == Committed(
        Changed(db, user, Paying(acc, cost), [row]).(holds := holds),
        Metered(s.debited, if job in holds then holds[job].consumed else 0, s.buckets.Gross(),
                job in holds && holds[job].consumed >= holds[job].amount))
  {
    var acc, hold := db.accounts[user], if job in db.holds then Some(job) else None;
    DebitRow(acc, user, Debit, cost, Some(job), hold, DebitKey(job, sequence));
    var debited := Spend(acc.buckets, cost).debited;
    assert Consume(db.holds, job, debited) == HoldsAfter(db.holds, job, debited);
  }

  /** In shadow mode a turn leaves its row, at its full price, and nothing else. */
  lemma TurnIsShadowed(db: Db, user: UserId, job: JobId, cost: nat, sequence: int)
    requires user in db.accounts && !HasKey(db.ledger, DebitKey(job, sequence))
    ensures var row := Row(user, Debit, -(cost as int), db.accounts[user].buckets.Gross(), Some(job),
                           if job in db.holds then Some(job) else None, Some(DebitKey(job, sequence)), true);
      Step(db, OpMeter(user, job, cost, sequence, false)) == db.(ledger := db.ledger + [row])
  {
    assert db.accounts[user := db.accounts[user]] == db.accounts;
  }

  /** A gateway request charged for the first time, with its usage row. */
  lemma RequestIsCharged(db: Db, user: UserId, request: RequestId, cost: nat)
    requires user in db.accounts && !HasKey(db.ledger, GatewayKey(request)) && request !in db.usage
    ensures var acc := db.accounts[user]; var s := Spend(acc.buckets, cost);
      var row := Row(user, GatewayDebit, -s.debited, s.buckets.Gross(), None, None, Some(GatewayKey(request)), false);
      Step(db, OpGateway(user, request, cost))
      == Changed(db, user, Paying(acc, cost), [row]).(usage := db.usage[request := Usage(user, cost)])
  {
    var acc, key := db.accounts[user], GatewayKey(request);
    DebitRow(acc, user, GatewayDebit, cost, None, None, key);
    var e := DebitEntry(acc, user, GatewayDebit, cost, None, None, key);
    assert Step(db, OpGateway(user, request, cost)) == Post(db.(usage := db.usage[request := Usage(user, cost)]), e);
  }

  /** A flat price that is payable is taken whole; in shadow mode only its row is written. */
  lemma PriceIsTaken(db: Db, user: UserId, amount: int, name: string, kind: LedgerType, enforce: bool)
    requires amount > 0 && !HasKey(db.ledger, Named(name)) && (enforce ==> BalanceOf(db, user) >= amount)
    ensures var acc := AccountOf(db, user); var s := Spend(acc.buckets, amount); var key := Some(Named(name));
      Step(db, OpFlat(user, amount, name, kind, enforce)) ==
      if enforce then
        Changed(db, user, Paying(acc, amount),
                SignupRows(db, user) + [Row(user, kind, -s.debited, s.buckets.Gross(), None, None, key, false)])
      else
        Changed(db, user, acc,
                SignupRows(db, user) + [Row(user, kind, -amount, acc.buckets.Gross(), None, None, key, true)])
  {
    EnsureKeys(db, user, Named(name));
    EnsureIs(db, user);
    EnsureKeepsBalance(db, user);
    var acc, key := AccountOf(db, user), Named(name);
    if enforce {
      DebitRow(acc, user, kind, amount, None, None, key);
      PostAfterOpening(db, user, DebitEntry(acc, user, kind, amount, None, None, key));
    } else {
      PostAfterOpening(db, user, ShadowEntry(acc, user, kind, amount, None, None, key));
    }
  }

  // ---- Holds ----

  /** A reserve that makes a hold makes it for the ceiling asked for, with nothing consumed. */
  lemma HoldIsMade(db: Db, user: UserId, job: JobId, ceiling: int, maxConcurrentJobs: int)
    requires job !in db.holds && Apply(db, OpReserve(user, job, ceiling, maxConcurrentJobs)).Committed?
    ensures var ready := Changed(db, user, AccountOf(db, user), SignupRows(db, user));
      Step(db, OpReserve(user, job, ceiling, maxConcurrentJobs))
      == ready.(holds := db.holds[job := Hold(user, ceiling, 0, Active)])
  {
    EnsureIs(db, user);
  }

  /** Settling ends an active hold and leaves the rest of it, and everything else, alone. */
  lemma HoldIsSettled(db: Db, job: JobId)
    ensures Step(db, OpSettle(job)) ==
      if job in db.holds then
        db.(holds := db.holds[job := Hold(db.holds[job].user, db.holds[job].amount, db.holds[job].consumed, Settled)])
      else db
  {
    if job in db.holds && db.holds[job].status.Settled? {
      assert db.holds[job := db.holds[job]] == db.holds;
    }
  }

  // ---- Refusals ----

  /** Why an operation may be refused, in terms of the tables before it. */
  predicate Cause(db: Db, op: Op, e: Error) {
    match op
    case OpReserve(user, job, _, max) =>
      var capped := max > 0 && |ActiveHolds(db.holds, user)| >= max;
      var poor := BalanceOf(db, user) < 1_000_000;
      !(job in db.holds && db.holds[job].status.Active?)
      && (if capped then e == ConcurrentJobLimit
          else if poor then e == InsufficientCredits
          else job in db.holds && e == UniqueViolation)
    case OpMeter(user, _, _, _, _) => user !in db.accounts && e == AccountMissing
    case OpFlat(user, amount, name, _, enforce) =>
      (amount <= 0 && e == BadAmount)
      || (amount > 0 && enforce && BalanceOf(db, user) < amount && !HasKey(db.ledger, Named(name))
          && e == InsufficientCredits)
    case OpGateway(user, request, _) =>
      (user !in db.accounts && e == AccountMissing)
      || (user in db.accounts && request in db.usage && !HasKey(db.ledger, GatewayKey(request)) && e == UniqueViolation)
    case OpRedeem(user, code, gaveFeedback, now) => RedemptionCause(db, user, code, gaveFeedback, now, e)
    case OpBonus(_, amount, _, _) => amount <= 0 && e == BadAmount
    case OpPlan(user, subscription, cycleStart, _) =>
      user !in db.accounts && !HasKey(db.ledger, PlanKey(subscription, cycleStart)) && e == AccountMissing
    case _ => false
  }

  /** A code that is out of date is told apart from one that is unknown, inactive, used up, or not yet earned. */
  predicate RedemptionCause(db: Db, user: UserId, code: PromoCode, gaveFeedback: bool, now: int, e: Error) {
    var unearned := code == "EXTRA100" && !gaveFeedback;
    if unearned || code !in db.promos || !db.promos[code].isActive then e == PromoInvalid
    else
      var promo := db.promos[code];
      var expired := promo.expiresAt.Some? && promo.expiresAt.value <= now;
      var usedUp := promo.maxRedemptions.Some? && promo.redeemedCount >= promo.maxRedemptions.value;
      (expired && e == PromoExpired)
      || (!expired && usedUp && e == PromoInvalid)
      || (!expired && !usedUp && (code, user) in db.redemptions && e == PromoAlreadyRedeemed)
      || (!expired && !usedUp && (code, user) !in db.redemptions && HasKey(db.ledger, PromoKey(code, user))
          && e == UniqueViolation)
  }

  lemma FlatRefusals(db: Db, op: Op, e: Error)
    requires op.OpFlat?
    ensures Apply(db, op) == RolledBack(e) <==> Cause(db, op, e)
  {
    EnsureKeys(db, op.user, Named(op.name));
    EnsureKeepsBalance(db, op.user);
  }

  lemma ReserveRefusals(db: Db, op: Op, e: Error)
    requires op.OpReserve?
    ensures Apply(db, op) == RolledBack(e) <==> Cause(db, op, e)
  {
    EnsureKeepsBalance(db, op.user);
  }

  lemma RedeemRefusals(db: Db, op: Op, e: Error)
    requires op.OpRedeem?
    ensures Apply(db, op) == RolledBack(e) <==> Cause(db, op, e)
  {
  }

  /** An operation is refused with an error exactly when that error's cause is there, and is then without effect. */
  lemma RefusalsHaveCauses(db: Db, op: Op, e: Error)
    ensures Apply(db, op) == RolledBack(e) <==> Cause(db, op, e)
    ensures Apply(db, op).RolledBack? ==> Step(db, op) == db
  {
    match op
    case OpFlat(_, _, _, _, _) => FlatRefusals(db, op, e);
    case OpReserve(_, _, _, _) => ReserveRefusals(db, op, e);
    case OpRedeem(_, _, _, _) => RedeemRefusals(db, op, e);
    case _ =>
  }
}
