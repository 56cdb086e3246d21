/**
 * The credit ledger (server/src/lib/credits.ts) as a database value and, for
 * each writer, the database it commits or the error it rolls back with.
 *
 * Rows are map entries or sequence elements, a transaction is one function
 * application, and a violated unique constraint is a failed transaction.
 */
module CreditLedger {
  import opened Common
  import opened Pricing

  type UserId = string
  type JobId = string
  type RequestId = string
  type PromoCode = string

  /** The parts an idempotency key is spelled from, one constructor per prefix. */
  datatype Key =
    | Signup(user: UserId)
    | DebitKey(job: JobId, sequence: int)
    | GatewayKey(request: RequestId)
    | PromoKey(code: PromoCode, redeemer: UserId)
    | PlanKey(subscription: string, cycleStart: int)
    | Named(name: string)

  datatype LedgerType =
    | SignupGrant | PlanGrant | PromoRedeem | Debit | Expire | GatewayDebit
    | OtherType(name: string)

  /** A ledger row. `shadow` is the `shadow` prefix of the row's reason. */
  datatype Row = Row(
    user: UserId, kind: LedgerType, amount: int, balanceAfter: int,
    job: Option<JobId>, hold: Option<JobId>, key: Option<Key>, shadow: bool)

  datatype Account = Account(buckets: Buckets, cycle: Option<(int, int)>)

  datatype HoldStatus = Active | Settled

  /** A hold is named by its job: `jobId` is unique and holds are never deleted. */
  datatype Hold = Hold(user: UserId, amount: int, consumed: int, status: HoldStatus)

  datatype Usage = Usage(user: UserId, costMicro: nat)

  datatype Promo = Promo(credits: nat, maxRedemptions: Option<nat>, redeemedCount: nat, isActive: bool,
                         expiresAt: Option<int>)

  datatype Db = Db(
    accounts: map<UserId, Account>,
    ledger: seq<Row>,
    holds: map<JobId, Hold>,
    usage: map<RequestId, Usage>,
    promos: map<PromoCode, Promo>,
    redemptions: map<(PromoCode, UserId), nat>)

  datatype Error =
    | AccountMissing | InsufficientCredits | ConcurrentJobLimit | BadAmount
    | PromoInvalid | PromoExpired | PromoAlreadyRedeemed | UniqueViolation

  datatype Reply =
    | Nothing
    | Reserved(reserved: int, available: int)
    | Metered(debited: int, consumed: int, available: int, holdExhausted: bool)
    | Charged(charged: bool, taken: int, available: int)
    | GatewayMetered(debited: int, available: int, costMicro: nat)
    | Redeemed(creditsGranted: nat, available: int)
    | Granted(granted: int, bonusBalance: int, available: int)

  datatype Outcome = Committed(db: Db, reply: Reply) | RolledBack(error: Error)

  // ---- Reading ----

  predicate HasKey(ledger: seq<Row>, key: Key) {
    exists i :: 0 <= i < |ledger| && ledger[i].key == Some(key)
  }

  function ActiveHolds(holds: map<JobId, Hold>, user: UserId): set<JobId> {
    set job | job in holds && holds[job].user == user && holds[job].status.Active?
  }

  // ---- The account row and its signup grant ----

  const FRESH_ACCOUNT := Account(Buckets(FREE_SIGNUP_GRANT_MICRO, 0, 0), None)

  function SignupRow(user: UserId): Row {
    Row(user, SignupGrant, FREE_SIGNUP_GRANT_MICRO, FREE_SIGNUP_GRANT_MICRO, None, None, Some(Signup(user)), false)
  }

  /** The upsert of the account row. */
  function UpsertAccount(db: Db, user: UserId): Db {
    if user in db.accounts then db else db.(accounts := db.accounts[user := FRESH_ACCOUNT])
  }

  /** The signup row, written when it is not there yet. */
  function BackfillSignup(db: Db, user: UserId): Db {
    if HasKey(db.ledger, Signup(user)) then db else db.(ledger := db.ledger + [SignupRow(user)])
  }

  function Ensure(db: Db, user: UserId): Db {
    BackfillSignup(UpsertAccount(db, user), user)
  }

  // ---- What each writer posts: an account update and the ledger row that goes with it ----

  datatype Entry = Entry(account: Account, row: Row)

  function Post(db: Db, e: Entry): Db {
    db.(accounts := db.accounts[e.row.user := e.account], ledger := db.ledger + [e.row])
  }

  /** An entry that takes `amount` from the buckets, as far as they go. */
  function DebitEntry(acc: Account, user: UserId, kind: LedgerType, amount: int, job: Option<JobId>,
                      hold: Option<JobId>, key: Key): Entry
  {
    var s := Spend(acc.buckets, amount);
    Entry(acc.(buckets := s.buckets), Row(user, kind, -s.debited, s.buckets.Gross(), job, hold, Some(key), false))
  }

  /** A shadow entry: the row at its price, and nothing moved. */
  function ShadowEntry(acc: Account, user: UserId, kind: LedgerType, amount: int, job: Option<JobId>,
                       hold: Option<JobId>, key: Key): Entry
  {
    Entry(acc, Row(user, kind, -amount, acc.buckets.Gross(), job, hold, Some(key), true))
  }

  function BonusEntry(acc: Account, user: UserId, kind: LedgerType, amount: int, key: Key): Entry {
    var b := acc.buckets.(bonus := acc.buckets.bonus + amount);
    Entry(acc.(buckets := b), Row(user, kind, amount, b.Gross(), None, None, Some(key), false))
  }

  /** What is left of the previous cycle expires; the row has no idempotency key. */
  function ExpireEntry(acc: Account, user: UserId): Entry {
    var b := acc.buckets.(plan := 0);
    Entry(acc.(buckets := b), Row(user, Expire, -acc.buckets.plan, b.Gross(), None, None, None, false))
  }

  function PlanEntry(acc: Account, user: UserId, cycle: (int, int), key: Key): Entry {
    var b := acc.buckets.(plan := PRO_MONTHLY_ALLOTMENT_MICRO);
    Entry(Account(b, Some(cycle)),
      Row(user, PlanGrant, PRO_MONTHLY_ALLOTMENT_MICRO, b.Gross(), None, None, Some(key), false))
  }

  // ---- The writers ----

  function ReserveInTx(db: Db, user: UserId, job: JobId, cap: int, maxConcurrentJobs: int): Outcome {
    var db := Ensure(db, user);
    var available := db.accounts[user].buckets.Gross();
    if job in db.holds && db.holds[job].status.Active? then
      Committed(db, Reserved(db.holds[job].amount, available))
    else if maxConcurrentJobs > 0 && |ActiveHolds(db.holds, user)| >= maxConcurrentJobs then
      RolledBack(ConcurrentJobLimit)
    else if available < MIN_SPEND_TO_START_MICRO then
      RolledBack(InsufficientCredits)
    else if job in db.holds then
      RolledBack(UniqueViolation)
    else
      Committed(db.(holds := db.holds[job := Hold(user, cap, 0, Active)]), Reserved(cap, available))
  }

  function HoldOf(holds: map<JobId, Hold>, job: JobId): Option<JobId> {
    if job in holds then Some(job) else None
  }

  function Consume(holds: map<JobId, Hold>, job: JobId, debited: int): map<JobId, Hold> {
    if job in holds then holds[job := holds[job].(consumed := holds[job].consumed + debited)] else holds
  }

  function ConsumedBy(holds: map<JobId, Hold>, job: JobId): int {
    if job in holds then holds[job].consumed else 0
  }

  predicate Exhausted(holds: map<JobId, Hold>, job: JobId) {
    job in holds && holds[job].consumed >= holds[job].amount
  }

  /** `cost` is the price of the completion, `CostMicro` of its tokens. */
  function Meter(db: Db, user: UserId, job: JobId, cost: nat, sequence: int, enforce: bool): Outcome {
    if user !in db.accounts then RolledBack(AccountMissing)
    else
      var acc, key := db.accounts[user], DebitKey(job, sequence);
      var available := acc.buckets.Gross();
      if HasKey(db.ledger, key) then
        Committed(db, Metered(0, ConsumedBy(db.holds, job), available, false))
      else if enforce then
        var e := DebitEntry(acc, user, Debit, cost, Some(job), HoldOf(db.holds, job), key);
        var debited := Spend(acc.buckets, cost).debited;
        var holds := Consume(db.holds, job, debited);
        Committed(
          Post(db.(holds := holds), e),
          Metered(debited, ConsumedBy(holds, job), e.row.balanceAfter, Exhausted(holds, job)))
      else
        Committed(
          Post(db, ShadowEntry(acc, user, Debit, cost, Some(job), HoldOf(db.holds, job), key)),
          Metered(cost, ConsumedBy(db.holds, job), available, false))
  }

  function ChargeFlat(db: Db, user: UserId, amount: int, name: string, kind: LedgerType, enforce: bool): Outcome {
    if amount <= 0 then RolledBack(BadAmount)
    else
      var db := Ensure(db, user);
      var acc, key := db.accounts[user], Named(name);
      var available := acc.buckets.Gross();
      if HasKey(db.ledger, key) then Committed(db, Charged(false, 0, available))
      else if !enforce then
        Committed(Post(db, ShadowEntry(acc, user, kind, amount, None, None, key)), Charged(true, 0, available))
      else if available < amount then RolledBack(InsufficientCredits)
      else
        var e := DebitEntry(acc, user, kind, amount, None, None, key);
        Committed(Post(db, e), Charged(true, Spend(acc.buckets, amount).debited, e.row.balanceAfter))
  }

  function MeterGateway(db: Db, user: UserId, request: RequestId, cost: nat): Outcome {
    if user !in db.accounts then RolledBack(AccountMissing)
    else
      var acc, key := db.accounts[user], GatewayKey(request);
      if HasKey(db.ledger, key) then
        Committed(db, GatewayMetered(0, acc.buckets.Gross(), cost))
      else if request in db.usage then RolledBack(UniqueViolation)
      else
        var e := DebitEntry(acc, user, GatewayDebit, cost, None, None, key);
        Committed(
          Post(db.(usage := db.usage[request := Usage(user, cost)]), e),
          GatewayMetered(Spend(acc.buckets, cost).debited, e.row.balanceAfter, cost))
  }

  function Settle(db: Db, job: JobId): Outcome {
    if job in db.holds && db.holds[job].status.Active? then
      Committed(db.(holds := db.holds[job := db.holds[job].(status := Settled)]), Nothing)
    else
      Committed(db, Nothing)
  }

  /** Why a code cannot be redeemed, in the order the source asks; `None` when it can. */
  function PromoRefusal(db: Db, user: UserId, code: PromoCode, gaveFeedback: bool, now: int): Option<Error> {
    if code == "EXTRA100" && !gaveFeedback then Some(PromoInvalid)
    else if code !in db.promos || !db.promos[code].isActive then Some(PromoInvalid)
    else
      var promo := db.promos[code];
      if promo.expiresAt.Some? && promo.expiresAt.value <= now then Some(PromoExpired)
      else if promo.maxRedemptions.Some? && promo.redeemedCount >= promo.maxRedemptions.value then Some(PromoInvalid)
      else if (code, user) in db.redemptions then Some(PromoAlreadyRedeemed)
      else if HasKey(db.ledger, PromoKey(code, user)) then Some(UniqueViolation)
      else None
  }

  /** The redemption row and the counter. */
  function CountRedemption(db: Db, user: UserId, code: PromoCode): Db
    requires code in db.promos
  {
    var promo := db.promos[code];
    db.(redemptions := db.redemptions[(code, user) := promo.credits],
        promos := db.promos[code := promo.(redeemedCount := promo.redeemedCount + 1)])
  }

  function Redeem(db: Db, user: UserId, code: PromoCode, gaveFeedback: bool, now: int): Outcome {
    var refusal := PromoRefusal(db, user, code, gaveFeedback, now);
    if refusal.Some? then RolledBack(refusal.value)
    else
      var credits := db.promos[code].credits;
      var db := Ensure(CountRedemption(db, user, code), user);
      var e := BonusEntry(db.accounts[user], user, PromoRedeem, credits, PromoKey(code, user));
      Committed(Post(db, e), Redeemed(credits, e.row.balanceAfter))
  }

  function GrantBonusCredits(db: Db, user: UserId, amount: int, name: string, kind: LedgerType): Outcome {
    if amount <= 0 then RolledBack(BadAmount)
    else
      var db := Ensure(db, user);
      var acc := db.accounts[user];
      if HasKey(db.ledger, Named(name)) then
        Committed(db, Granted(0, acc.buckets.bonus, acc.buckets.Gross()))
      else
        var e := BonusEntry(acc, user, kind, amount, Named(name));
        Committed(Post(db, e), Granted(amount, e.account.buckets.bonus, e.row.balanceAfter))
  }

  function ExpirePlan(db: Db, user: UserId): Db
    requires user in db.accounts
  {
    var acc := db.accounts[user];
    if acc.buckets.plan > 0 then Post(db, ExpireEntry(acc, user)) else db
  }

  function GrantPlanCycle(db: Db, user: UserId, subscription: string, cycleStart: int, cycleEnd: int): Outcome {
    var key := PlanKey(subscription, cycleStart);
    if HasKey(db.ledger, key) then Committed(db, Nothing)
    else if user !in db.accounts then RolledBack(AccountMissing)
    else
      var db := ExpirePlan(db, user);
      Committed(Post(db, PlanEntry(db.accounts[user], user, (cycleStart, cycleEnd), key)), Nothing)
  }

  // ---- Operations and histories ----

  datatype Op =
    | OpUpsert(user: UserId)
    | OpEnsure(user: UserId)
    | OpReserve(user: UserId, job: JobId, cap: int, maxConcurrentJobs: int)
    | OpMeter(user: UserId, job: JobId, cost: nat, sequence: int, enforce: bool)
    | OpFlat(user: UserId, amount: int, name: string, kind: LedgerType, enforce: bool)
    | OpGateway(user: UserId, request: RequestId, cost: nat)
    | OpSettle(job: JobId)
    | OpRedeem(user: UserId, code: PromoCode, gaveFeedback: bool, now: int)
    | OpBonus(user: UserId, amount: int, name: string, kind: LedgerType)
    | OpPlan(user: UserId, subscription: string, cycleStart: int, cycleEnd: int)

  /**
   * One transaction. OpUpsert is `ensureBillingAccount` outside a transaction,
   * stopped between its two statements.
   */
  function Apply(db: Db, op: Op): Outcome {
    match op
    case OpUpsert(user) => Committed(UpsertAccount(db, user), Nothing)
    case OpEnsure(user) => Committed(Ensure(db, user), Nothing)
    case OpReserve(user, job, cap, max) => ReserveInTx(db, user, job, cap, max)
    case OpMeter(user, job, cost, sequence, enforce) => Meter(db, user, job, cost, sequence, enforce)
    case OpFlat(user, amount, name, kind, enforce) => ChargeFlat(db, user, amount, name, kind, enforce)
    case OpGateway(user, request, cost) => MeterGateway(db, user, request, cost)
    case OpSettle(job) => Settle(db, job)
    case OpRedeem(user, code, gaveFeedback, now) => Redeem(db, user, code, gaveFeedback, now)
    case OpBonus(user, amount, name, kind) => GrantBonusCredits(db, user, amount, name, kind)
    case OpPlan(user, subscription, cycleStart, cycleEnd) =>
      GrantPlanCycle(db, user, subscription, cycleStart, cycleEnd)
  }

  function Step(db: Db, op: Op): Db {
    match Apply(db, op)
    case Committed(after, _) => after
    case RolledBack(_) => db
  }

  function Run(db: Db, ops: seq<Op>): Db {
    if ops == [] then db else Step(Run(db, ops[..|ops| - 1]), ops[|ops| - 1])
  }
}
