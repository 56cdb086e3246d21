/**
 * What every history of ledger transactions keeps: balances agree with the
 * ledger, every row's `balanceAfter` is explained, keys are unique, and holds,
 * gateway usage and promo redemptions agree with their rows.
 */
module CreditLaws {
  import opened Common
  import opened Pricing
  import opened CreditLedger

  // ---- Sums over the ledger ----

  /**
   * What a row counts for: Booked is what `reconcileAccount` adds up, Moved is
   * what actually changed a bucket, Shadowed is the price of a shadow row.
   */
  datatype Measure = Booked(user: UserId) | Moved(user: UserId) | Shadowed(user: UserId) | HoldSpent(job: JobId)

  function Weigh(m: Measure, row: Row): int {
    match m
    case Booked(user) => if row.user == user then row.amount else 0
    case Moved(user) => if row.user == user && !row.shadow then row.amount else 0
    case Shadowed(user) => if row.user == user && row.shadow then -row.amount else 0
    case HoldSpent(job) => if row.hold == Some(job) && !row.shadow then -row.amount else 0
  }

  function SumBy(m: Measure, ledger: seq<Row>): int {
    if ledger == [] then 0 else SumBy(m, ledger[..|ledger| - 1]) + Weigh(m, ledger[|ledger| - 1])
  }

  lemma {:induction false} SumAppend(m: Measure, ledger: seq<Row>, row: Row)
    ensures SumBy(m, ledger + [row]) == SumBy(m, ledger) + Weigh(m, row)
  {
    assert (ledger + [row])[..|ledger|] == ledger;
  }

  lemma {:induction false} BookedIsMovedLessShadow(user: UserId, ledger: seq<Row>)
    ensures SumBy(Booked(user), ledger) == SumBy(Moved(user), ledger) - SumBy(Shadowed(user), ledger)
  {
    if ledger != [] {
      BookedIsMovedLessShadow(user, ledger[..|ledger| - 1]);
    }
  }

  lemma {:induction false} SumOfNothing(m: Measure, ledger: seq<Row>)
    requires forall i :: 0 <= i < |ledger| ==> Weigh(m, ledger[i]) == 0
    ensures SumBy(m, ledger) == 0
  {
    if ledger != [] {
      SumOfNothing(m, ledger[..|ledger| - 1]);
    }
  }

  // ---- The law ----

  predicate IsSignup(row: Row) {
    row.key.Some? && row.key.value.Signup?
  }

  /** The signup grant counts as soon as the account exists, its row perhaps later. */
  function Pending(ledger: seq<Row>, user: UserId): int {
    if HasKey(ledger, Signup(user)) then 0 else FREE_SIGNUP_GRANT_MICRO
  }

  ghost predicate UniqueKeys(ledger: seq<Row>) {
    forall i, j :: 0 <= i < j < |ledger| && ledger[i].key.Some? ==> ledger[i].key != ledger[j].key
  }

  ghost predicate RowsHaveAccounts(db: Db) {
    forall i :: 0 <= i < |db.ledger| ==> db.ledger[i].user in db.accounts
  }

  ghost predicate SignupRowsAreGrants(ledger: seq<Row>) {
    forall i :: 0 <= i < |ledger| && IsSignup(ledger[i]) ==> ledger[i] == SignupRow(ledger[i].key.value.user)
  }

  ghost predicate ShadowRowsAreDebits(ledger: seq<Row>) {
    forall i :: 0 <= i < |ledger| && ledger[i].shadow ==> ledger[i].amount <= 0
  }

  ghost predicate Balanced(db: Db, user: UserId)
    requires user in db.accounts
  {
    var b := db.accounts[user].buckets;
    b.NonNegative() && b.Gross() == SumBy(Moved(user), db.ledger) + Pending(db.ledger, user)
  }

  ghost predicate AllBalanced(db: Db) {
    forall user :: user in db.accounts ==> Balanced(db, user)
  }

  /** Row `i` records the gross balance: all that moved up to it, plus a grant not yet written. */
  ghost predicate Audited(ledger: seq<Row>, i: nat)
    requires i < |ledger|
  {
    var row := ledger[i];
    row.balanceAfter ==
      if IsSignup(row) then FREE_SIGNUP_GRANT_MICRO
      else SumBy(Moved(row.user), ledger[..i]) + Weigh(Moved(row.user), row) + Pending(ledger[..i], row.user)
  }

  ghost predicate AllAudited(ledger: seq<Row>) {
    forall i :: 0 <= i < |ledger| ==> Audited(ledger, i)
  }

  /** A hold has consumed what the enforced rows that name it took. */
  ghost predicate HoldsAgree(db: Db) {
    && (forall job :: job in db.holds ==> db.holds[job].consumed == SumBy(HoldSpent(job), db.ledger))
    && (forall i :: 0 <= i < |db.ledger| && db.ledger[i].hold.Some? ==> db.ledger[i].hold.value in db.holds)
  }

  /** The row of a gateway request: it took the cost, or all there was when that is less. */
  predicate PaysFor(row: Row, usage: Usage) {
    && row.kind.GatewayDebit? && row.user == usage.user && !row.shadow
    && -row.amount == Min(usage.costMicro, row.balanceAfter - row.amount)
  }

  ghost predicate UsageAgrees(db: Db) {
    && (forall request :: request in db.usage ==> HasKey(db.ledger, GatewayKey(request)))
    && (forall i :: 0 <= i < |db.ledger| && db.ledger[i].key.Some? && db.ledger[i].key.value.GatewayKey? ==>
          && db.ledger[i].key.value.request in db.usage
          && PaysFor(db.ledger[i], db.usage[db.ledger[i].key.value.request]))
  }

  predicate CreditsRedemption(row: Row, redemptions: map<(PromoCode, UserId), nat>, code: PromoCode, user: UserId) {
    && row.kind.PromoRedeem? && row.user == user && !row.shadow
    && (code, user) in redemptions && row.amount == redemptions[(code, user)]
  }

  ghost predicate RedemptionsAgree(db: Db) {
    && (forall p :: p in db.redemptions ==> HasKey(db.ledger, PromoKey(p.0, p.1)))
    && (forall i :: 0 <= i < |db.ledger| && db.ledger[i].key.Some? && db.ledger[i].key.value.PromoKey? ==>
          CreditsRedemption(db.ledger[i], db.redemptions, db.ledger[i].key.value.code, db.ledger[i].key.value.redeemer))
  }

  function Redeemers(db: Db, code: PromoCode): set<UserId> {
    set p | p in db.redemptions && p.0 == code :: p.1
  }

  ghost predicate PromoCounted(db: Db, code: PromoCode)
    requires code in db.promos
  {
    var promo := db.promos[code];
    promo.redeemedCount == |Redeemers(db, code)|
    && (promo.maxRedemptions.Some? ==> promo.redeemedCount <= promo.maxRedemptions.value)
  }

  ghost predicate PromosCounted(db: Db) {
    forall code :: code in db.promos ==> PromoCounted(db, code)
  }

  predicate Opens(ledger: seq<Row>, i: nat)
    requires i < |ledger|
  {
    if IsSignup(ledger[i]) then forall j :: 0 <= j < i ==> ledger[j].user != ledger[i].user
    else HasKey(ledger[..i], Signup(ledger[i].user))
  }

  /** Every account's first row is its signup grant, and no row is a shadow row. */
  ghost predicate Orderly(db: Db) {
    && (forall user :: user in db.accounts ==> HasKey(db.ledger, Signup(user)))
    && (forall i :: 0 <= i < |db.ledger| ==> Opens(db.ledger, i) && !db.ledger[i].shadow)
  }

  ghost predicate Capped(db: Db, cap: nat) {
    forall user :: |ActiveHolds(db.holds, user)| <= cap
  }

  /**
   * What is assumed of a history: `strict` that credits are enforced and signups
   * not interrupted, a positive `cap` that every reserve passes that cap.
   */
  datatype Mode = Mode(strict: bool, cap: nat)

  predicate Enforced(op: Op) {
    match op
    case OpUpsert(_) => false
    case OpMeter(_, _, _, _, enforce) => enforce
    case OpFlat(_, _, _, _, enforce) => enforce
    case _ => true
  }

  predicate Allowed(op: Op, mode: Mode) {
    && (mode.strict ==> Enforced(op))
    && (mode.cap > 0 && op.OpReserve? ==> op.maxConcurrentJobs == mode.cap)
  }

  datatype Aspect =
    | KeysAreUnique | AccountsExist | GrantsAreGrants | ShadowsAreDebits | BalancesAgree | BalanceAfterAgrees
    | HoldAspect | UsageAspect | RedemptionAspect | PromoAspect | OrderAspect | CapAspect

  ghost predicate Holds(db: Db, mode: Mode, aspect: Aspect) {
    match aspect
    case KeysAreUnique => UniqueKeys(db.ledger)
    case AccountsExist => RowsHaveAccounts(db)
    case GrantsAreGrants => SignupRowsAreGrants(db.ledger)
    case ShadowsAreDebits => ShadowRowsAreDebits(db.ledger)
    case BalancesAgree => AllBalanced(db)
    case BalanceAfterAgrees => AllAudited(db.ledger)
    case HoldAspect => HoldsAgree(db)
    case UsageAspect => UsageAgrees(db)
    case RedemptionAspect => RedemptionsAgree(db)
    case PromoAspect => PromosCounted(db)
    case OrderAspect => mode.strict ==> Orderly(db)
    case CapAspect => mode.cap > 0 ==> Capped(db, mode.cap)
  }

  ghost predicate Law(db: Db, mode: Mode) {
    forall aspect :: Holds(db, mode, aspect)
  }

  // ---- What an appended row does ----

  lemma HasKeyAppend(ledger: seq<Row>, row: Row, key: Key)
    ensures HasKey(ledger + [row], key) <==> HasKey(ledger, key) || row.key == Some(key)
  {
    var after := ledger + [row];
    if HasKey(ledger, key) {
      var i :| 0 <= i < |ledger| && ledger[i].key == Some(key);
      assert after[i].key == Some(key);
    }
    if row.key == Some(key) {
      assert after[|ledger|].key == Some(key);
    }
  }

  lemma EnsureKeys(db: Db, user: UserId, key: Key)
    ensures HasKey(Ensure(db, user).ledger, key) <==> HasKey(db.ledger, key) || key == Signup(user)
  {
    if !HasKey(db.ledger, Signup(user)) {
      HasKeyAppend(db.ledger, SignupRow(user), key);
    }
  }

  /** A row that explains the account update it comes with. */
  predicate Explains(acc: Account, e: Entry) {
    && !IsSignup(e.row) && (e.row.shadow ==> e.row.amount <= 0)
    && e.account.buckets.NonNegative() && e.row.balanceAfter == e.account.buckets.Gross()
    && e.account.buckets.Gross() == acc.buckets.Gross() + if e.row.shadow then 0 else e.row.amount
  }

  lemma EntriesExplain(acc: Account, user: UserId, kind: LedgerType, amount: nat, job: Option<JobId>,
                       hold: Option<JobId>, key: Key)
    requires acc.buckets.NonNegative() && !key.Signup?
    ensures Explains(acc, DebitEntry(acc, user, kind, amount, job, hold, key))
    ensures Explains(acc, ShadowEntry(acc, user, kind, amount, job, hold, key))
    ensures Explains(acc, BonusEntry(acc, user, kind, amount, key))
    ensures Explains(acc, ExpireEntry(acc, user))
  {
  }

  /** The hold of `job` has consumed `-amount` more; every other hold is as it was. */
  predicate HoldTook(holds: map<JobId, Hold>, job: JobId, amount: int, after: map<JobId, Hold>) {
    && after.Keys == holds.Keys
    && (forall other :: other in holds && other != job ==> after[other] == holds[other])
    && (job in holds ==> after[job] == holds[job].(consumed := holds[job].consumed - amount))
  }

  /** Holds, usage, redemptions and promos change as the row that is posted with them says. */
  ghost predicate SidesFollow(db: Db, row: Row, after: Db) {
    && (if row.hold.None? || row.shadow then after.holds == db.holds
         else HoldTook(db.holds, row.hold.value, row.amount, after.holds))
    && (row.hold.Some? ==> row.hold.value in db.holds)
    && (if row.key.Some? && row.key.value.GatewayKey? then
          var request := row.key.value.request;
          request in after.usage && after.usage == db.usage[request := after.usage[request]]
            && PaysFor(row, after.usage[request])
        else after.usage == db.usage)
    && (if row.key.Some? && row.key.value.PromoKey? then
          var code, user := row.key.value.code, row.key.value.redeemer;
          && code in db.promos && (code, user) !in db.redemptions
          && (db.promos[code].maxRedemptions.Some? ==>
               db.promos[code].redeemedCount < db.promos[code].maxRedemptions.value)
          && after.redemptions == db.redemptions[(code, user) := db.promos[code].credits]
          && after.promos == db.promos[code := db.promos[code].(redeemedCount := db.promos[code].redeemedCount + 1)]
          && CreditsRedemption(row, after.redemptions, code, user)
        else after.redemptions == db.redemptions && after.promos == db.promos)
  }

  /** `after` is `db` with one more entry and the side tables that go with it. */
  ghost predicate Posted(db: Db, e: Entry, after: Db) {
    && after.accounts == db.accounts[e.row.user := e.account]
    && after.ledger == db.ledger + [e.row]
    && e.row.user in db.accounts && Explains(db.accounts[e.row.user], e)
    && (e.row.key.Some? ==> !HasKey(db.ledger, e.row.key.value))
    && SidesFollow(db, e.row, after)
  }

  lemma NoSuchKey(ledger: seq<Row>, row: Row)
    requires row.key.Some? ==> !HasKey(ledger, row.key.value)
    requires UniqueKeys(ledger)
    ensures UniqueKeys(ledger + [row])
  {
  }

  lemma AuditAppend(ledger: seq<Row>, row: Row)
    requires AllAudited(ledger)
    requires Audited(ledger + [row], |ledger|)
    ensures AllAudited(ledger + [row])
  {
    var after := ledger + [row];
    forall i | 0 <= i < |after| ensures Audited(after, i) {
      if i < |ledger| {
        assert Audited(ledger, i);
        assert after[..i] == ledger[..i];
      }
    }
  }

  lemma PostKeepsBalances(db: Db, e: Entry, after: Db)
    requires AllBalanced(db) && AllAudited(db.ledger) && Posted(db, e, after)
    ensures AllBalanced(after) && AllAudited(after.ledger)
  {
    assert after.ledger[..|db.ledger|] == db.ledger;
    assert Balanced(db, e.row.user);
    AuditAppend(db.ledger, e.row);
    forall u | u in after.accounts ensures Balanced(after, u) {
      assert Balanced(db, u);
      SumAppend(Moved(u), db.ledger, e.row);
      HasKeyAppend(db.ledger, e.row, Signup(u));
    }
  }

  lemma PostKeepsHolds(db: Db, e: Entry, after: Db)
    requires HoldsAgree(db) && Posted(db, e, after)
    ensures HoldsAgree(after)
  {
    forall job | job in after.holds ensures after.holds[job].consumed == SumBy(HoldSpent(job), after.ledger) {
      SumAppend(HoldSpent(job), db.ledger, e.row);
    }
  }

  lemma PostKeepsUsage(db: Db, e: Entry, after: Db)
    requires UsageAgrees(db) && UniqueKeys(db.ledger) && Posted(db, e, after)
    ensures UsageAgrees(after)
  {
    forall request | request in after.usage ensures HasKey(after.ledger, GatewayKey(request)) {
      HasKeyAppend(db.ledger, e.row, GatewayKey(request));
    }
    forall i | 0 <= i < |after.ledger| && after.ledger[i].key.Some? && after.ledger[i].key.value.GatewayKey?
      ensures after.ledger[i].key.value.request in after.usage
      ensures PaysFor(after.ledger[i], after.usage[after.ledger[i].key.value.request])
    {
      if i < |db.ledger| {
        assert db.ledger[i] == after.ledger[i];
      }
    }
  }

  lemma PostKeepsRedemptions(db: Db, e: Entry, after: Db)
    requires RedemptionsAgree(db) && Posted(db, e, after)
    ensures RedemptionsAgree(after)
  {
    forall p | p in after.redemptions ensures HasKey(after.ledger, PromoKey(p.0, p.1)) {
      HasKeyAppend(db.ledger, e.row, PromoKey(p.0, p.1));
    }
    forall i | 0 <= i < |after.ledger| && after.ledger[i].key.Some? && after.ledger[i].key.value.PromoKey?
      ensures CreditsRedemption(after.ledger[i], after.redemptions, after.ledger[i].key.value.code,
        after.ledger[i].key.value.redeemer)
    {
      if i < |db.ledger| {
        assert db.ledger[i] == after.ledger[i];
      }
    }
  }

  lemma OneMoreRedeemer(db: Db, after: Db, code: PromoCode, user: UserId, credits: nat)
    requires (code, user) !in db.redemptions && after.redemptions == db.redemptions[(code, user) := credits]
    ensures Redeemers(after, code) == Redeemers(db, code) + {user} && user !in Redeemers(db, code)
    ensures forall other :: other != code ==> Redeemers(after, other) == Redeemers(db, other)
  {
    forall c, u | (c, u) in db.redemptions ensures u in Redeemers(after, c) {
      assert (c, u) in after.redemptions;
    }
    assert (code, user) in after.redemptions;
    forall other | other != code ensures Redeemers(after, other) == Redeemers(db, other) {
      forall u | u in Redeemers(db, other) ensures u in Redeemers(after, other) {
        assert (other, u) in db.redemptions;
      }
    }
  }

  lemma PostKeepsCounts(db: Db, e: Entry, after: Db)
    requires PromosCounted(db) && Posted(db, e, after)
    ensures PromosCounted(after)
  {
    if e.row.key.Some? && e.row.key.value.PromoKey? {
      var code, user := e.row.key.value.code, e.row.key.value.redeemer;
      OneMoreRedeemer(db, after, code, user, db.promos[code].credits);
      assert PromoCounted(db, code);
      forall other | other in after.promos ensures PromoCounted(after, other) {
        assert PromoCounted(db, other);
      }
    } else {
      forall code | code in after.promos ensures PromoCounted(after, code) {
        assert PromoCounted(db, code) && Redeemers(after, code) == Redeemers(db, code);
      }
    }
  }

  lemma PostKeepsOrder(db: Db, e: Entry, after: Db)
    requires Orderly(db) && Posted(db, e, after) && !e.row.shadow
    ensures Orderly(after)
  {
    assert after.ledger[..|db.ledger|] == db.ledger;
    forall i | 0 <= i < |after.ledger| ensures Opens(after.ledger, i) {
      if i < |db.ledger| {
        assert after.ledger[..i] == db.ledger[..i];
        assert Opens(db.ledger, i);
      }
    }
    forall user | user in after.accounts ensures HasKey(after.ledger, Signup(user)) {
      HasKeyAppend(db.ledger, e.row, Signup(user));
    }
  }

  lemma PostKeepsCap(db: Db, e: Entry, after: Db, cap: nat)
    requires Capped(db, cap) && Posted(db, e, after)
    ensures Capped(after, cap)
  {
    forall user ensures |ActiveHolds(after.holds, user)| <= cap {
      assert ActiveHolds(after.holds, user) == ActiveHolds(db.holds, user);
    }
  }

  /** Whatever the writer, posting an entry that explains itself keeps the law. */
  lemma PostKeepsLaw(db: Db, e: Entry, after: Db, mode: Mode)
    requires Law(db, mode) && Posted(db, e, after) && (mode.strict ==> !e.row.shadow)
    ensures Law(after, mode)
  {
    forall aspect ensures Holds(after, mode, aspect) {
      assert Holds(db, mode, aspect);
      match aspect
      case KeysAreUnique => NoSuchKey(db.ledger, e.row);
      case BalancesAgree => assert Holds(db, mode, BalanceAfterAgrees); PostKeepsBalances(db, e, after);
      case BalanceAfterAgrees => assert Holds(db, mode, BalancesAgree); PostKeepsBalances(db, e, after);
      case HoldAspect => PostKeepsHolds(db, e, after);
      case UsageAspect => assert Holds(db, mode, KeysAreUnique); PostKeepsUsage(db, e, after);
      case RedemptionAspect => PostKeepsRedemptions(db, e, after);
      case PromoAspect => PostKeepsCounts(db, e, after);
      case OrderAspect => if mode.strict { PostKeepsOrder(db, e, after); }
      case CapAspect => if mode.cap > 0 { PostKeepsCap(db, e, after, mode.cap); }
      case AccountsExist =>
      case GrantsAreGrants =>
      case ShadowsAreDebits =>
    }
  }

  /** The same for the writers that touch no other table. */
  lemma PlainPostKeepsLaw(db: Db, e: Entry, mode: Mode)
    requires Law(db, mode) && (mode.strict ==> !e.row.shadow)
    requires e.row.user in db.accounts && Explains(db.accounts[e.row.user], e) && e.row.hold.None?
    requires e.row.key.Some? ==>
      && !HasKey(db.ledger, e.row.key.value) && !e.row.key.value.GatewayKey? && !e.row.key.value.PromoKey?
    ensures Law(Post(db, e), mode)
  {
    PostKeepsLaw(db, e, Post(db, e), mode);
  }

  // ---- Opening an account ----

  lemma UpsertKeepsLaw(db: Db, user: UserId, mode: Mode)
    requires Law(db, mode) && !mode.strict
    ensures Law(UpsertAccount(db, user), mode)
  {
    var after := UpsertAccount(db, user);
    if after != db {
      forall aspect ensures Holds(after, mode, aspect) {
        assert Holds(db, mode, aspect) && Holds(db, mode, AccountsExist) && Holds(db, mode, GrantsAreGrants);
        match aspect
        case BalancesAgree => UpsertKeepsBalances(db, user);
        case PromoAspect => SamePromos(db, after);
        case _ =>
      }
    }
  }

  lemma UpsertKeepsBalances(db: Db, user: UserId)
    requires AllBalanced(db) && RowsHaveAccounts(db) && SignupRowsAreGrants(db.ledger) && user !in db.accounts
    ensures AllBalanced(UpsertAccount(db, user)) && !HasKey(db.ledger, Signup(user))
  {
    SumOfNothing(Moved(user), db.ledger);
    forall u | u in UpsertAccount(db, user).accounts ensures Balanced(UpsertAccount(db, user), u) {
      assert u != user ==> Balanced(db, u);
    }
  }

  lemma SamePromos(db: Db, after: Db)
    requires PromosCounted(db) && after.promos == db.promos && after.redemptions == db.redemptions
    ensures PromosCounted(after)
  {
    forall code | code in after.promos ensures PromoCounted(after, code) {
      assert PromoCounted(db, code) && Redeemers(after, code) == Redeemers(db, code);
    }
  }

  /** `after` is `db` with the signup row of `user`, whose account is opened if it was not. */
  ghost predicate Opening(db: Db, user: UserId, after: Db) {
    && !HasKey(db.ledger, Signup(user))
    && after == db.(accounts := after.accounts, ledger := db.ledger + [SignupRow(user)])
    && after.accounts.Keys == db.accounts.Keys + {user}
    && (forall u :: u in db.accounts ==> after.accounts[u] == db.accounts[u])
    && (user !in db.accounts ==> after.accounts[user] == FRESH_ACCOUNT)
  }

  lemma OpeningKeepsBalances(db: Db, user: UserId, after: Db)
    requires AllBalanced(db) && RowsHaveAccounts(db) && Opening(db, user, after)
    ensures AllBalanced(after)
  {
    if user !in db.accounts {
      SumOfNothing(Moved(user), db.ledger);
    }
    forall u | u in after.accounts ensures Balanced(after, u) {
      assert u in db.accounts ==> Balanced(db, u);
      SumAppend(Moved(u), db.ledger, SignupRow(user));
      HasKeyAppend(db.ledger, SignupRow(user), Signup(u));
    }
  }

  lemma OpeningKeepsHolds(db: Db, user: UserId, after: Db)
    requires HoldsAgree(db) && Opening(db, user, after)
    ensures HoldsAgree(after)
  {
    forall job | job in after.holds ensures after.holds[job].consumed == SumBy(HoldSpent(job), after.ledger) {
      SumAppend(HoldSpent(job), db.ledger, SignupRow(user));
    }
  }

  lemma OpeningKeepsUsage(db: Db, user: UserId, after: Db)
    requires UsageAgrees(db) && Opening(db, user, after)
    ensures UsageAgrees(after)
  {
    forall request | request in after.usage ensures HasKey(after.ledger, GatewayKey(request)) {
      HasKeyAppend(db.ledger, SignupRow(user), GatewayKey(request));
    }
  }

  lemma OpeningKeepsRedemptions(db: Db, user: UserId, after: Db)
    requires RedemptionsAgree(db) && Opening(db, user, after)
    ensures RedemptionsAgree(after)
  {
    forall p | p in after.redemptions ensures HasKey(after.ledger, PromoKey(p.0, p.1)) {
      HasKeyAppend(db.ledger, SignupRow(user), PromoKey(p.0, p.1));
    }
  }

  lemma OpensStays(ledger: seq<Row>, row: Row, i: nat)
    requires i < |ledger| && Opens(ledger, i)
    ensures Opens(ledger + [row], i)
  {
    assert (ledger + [row])[..i] == ledger[..i];
  }

  lemma OpeningKeepsOrder(db: Db, user: UserId, after: Db)
    requires Orderly(db) && RowsHaveAccounts(db) && Opening(db, user, after)
    ensures Orderly(after)
  {
    assert user !in db.accounts;
    forall i | 0 <= i < |after.ledger| ensures Opens(after.ledger, i) {
      if i < |db.ledger| {
        assert Opens(db.ledger, i);
        OpensStays(db.ledger, SignupRow(user), i);
      }
    }
    forall u | u in after.accounts ensures HasKey(after.ledger, Signup(u)) {
      HasKeyAppend(db.ledger, SignupRow(user), Signup(u));
    }
  }

  lemma OpeningKeepsLaw(db: Db, user: UserId, after: Db, mode: Mode)
    requires Law(db, mode) && Opening(db, user, after)
    ensures Law(after, mode)
  {
    forall aspect ensures Holds(after, mode, aspect) {
      assert Holds(db, mode, aspect) && Holds(db, mode, AccountsExist);
      match aspect
      case BalancesAgree => OpeningKeepsBalances(db, user, after);
      case BalanceAfterAgrees => AuditAppend(db.ledger, SignupRow(user));
      case HoldAspect => OpeningKeepsHolds(db, user, after);
      case UsageAspect => OpeningKeepsUsage(db, user, after);
      case RedemptionAspect => OpeningKeepsRedemptions(db, user, after);
      case PromoAspect => SamePromos(db, after);
      case OrderAspect => if mode.strict { OpeningKeepsOrder(db, user, after); }
      case CapAspect =>
      case KeysAreUnique => NoSuchKey(db.ledger, SignupRow(user));
      case AccountsExist =>
      case GrantsAreGrants =>
      case ShadowsAreDebits =>
    }
  }

  /** The account opening as a whole: the account, its grant and the grant's row. */
  lemma EnsureKeepsLaw(db: Db, user: UserId, mode: Mode)
    requires Law(db, mode)
    ensures Law(Ensure(db, user), mode) && user in Ensure(db, user).accounts
  {
    if HasKey(db.ledger, Signup(user)) {
      assert Holds(db, mode, AccountsExist) && Holds(db, mode, GrantsAreGrants);
      assert Ensure(db, user) == db;
    } else {
      OpeningKeepsLaw(db, user, Ensure(db, user), mode);
    }
  }

  // ---- Each writer keeps the law ----

  lemma BucketsOf(db: Db, user: UserId, mode: Mode)
    requires Law(db, mode) && user in db.accounts
    ensures db.accounts[user].buckets.NonNegative()
  {
    assert Holds(db, mode, BalancesAgree);
    assert Balanced(db, user);
  }

  lemma MeterKeepsLaw(db: Db, user: UserId, job: JobId, cost: nat, sequence: int, enforce: bool, mode: Mode)
    requires Law(db, mode) && (mode.strict ==> enforce)
    ensures Law(Step(db, OpMeter(user, job, cost, sequence, enforce)), mode)
  {
    var key := DebitKey(job, sequence);
    if user in db.accounts && !HasKey(db.ledger, key) {
      BucketsOf(db, user, mode);
      var acc, hold := db.accounts[user], HoldOf(db.holds, job);
      EntriesExplain(acc, user, Debit, cost, Some(job), hold, key);
      if enforce {
        var e := DebitEntry(acc, user, Debit, cost, Some(job), hold, key);
        var debited := Spend(acc.buckets, cost).debited;
        if hold.Some? {
          assert HoldTook(db.holds, job, e.row.amount, Consume(db.holds, job, debited));
        }
        PostKeepsLaw(db, e, Post(db.(holds := Consume(db.holds, job, debited)), e), mode);
      } else {
        var e := ShadowEntry(acc, user, Debit, cost, Some(job), hold, key);
        PostKeepsLaw(db, e, Post(db, e), mode);
      }
    }
  }

  /** A keyed debit or shadow debit of an open account. */
  lemma FlatRowKeepsLaw(db: Db, user: UserId, amount: int, key: Key, kind: LedgerType, enforce: bool, mode: Mode)
    requires Law(db, mode) && (mode.strict ==> enforce) && user in db.accounts && amount > 0
    requires key.Named? && !HasKey(db.ledger, key)
    ensures var acc := db.accounts[user];
      Law(Post(db, if enforce then DebitEntry(acc, user, kind, amount, None, None, key)
                   else ShadowEntry(acc, user, kind, amount, None, None, key)), mode)
  {
    BucketsOf(db, user, mode);
    var acc := db.accounts[user];
    EntriesExplain(acc, user, kind, amount, None, None, key);
    if enforce {
      PlainPostKeepsLaw(db, DebitEntry(acc, user, kind, amount, None, None, key), mode);
    } else {
      PlainPostKeepsLaw(db, ShadowEntry(acc, user, kind, amount, None, None, key), mode);
    }
  }

  lemma FlatKeepsLaw(db: Db, user: UserId, amount: int, name: string, kind: LedgerType, enforce: bool, mode: Mode)
    requires Law(db, mode) && (mode.strict ==> enforce)
    ensures Law(Step(db, OpFlat(user, amount, name, kind, enforce)), mode)
  {
    EnsureKeepsLaw(db, user, mode);
    if amount > 0 && !HasKey(Ensure(db, user).ledger, Named(name)) {
      FlatRowKeepsLaw(Ensure(db, user), user, amount, Named(name), kind, enforce, mode);
    }
  }

  lemma GatewayPays(acc: Account, user: UserId, cost: nat, key: Key)
    requires acc.buckets.NonNegative()
    ensures PaysFor(DebitEntry(acc, user, GatewayDebit, cost, None, None, key).row, Usage(user, cost))
  {
  }

  lemma GatewayKeepsLaw(db: Db, user: UserId, request: RequestId, cost: nat, mode: Mode)
    requires Law(db, mode)
    ensures Law(Step(db, OpGateway(user, request, cost)), mode)
  {
    var key := GatewayKey(request);
    if user in db.accounts && !HasKey(db.ledger, key) && request !in db.usage {
      BucketsOf(db, user, mode);
      var acc := db.accounts[user];
      EntriesExplain(acc, user, GatewayDebit, cost, None, None, key);
      GatewayPays(acc, user, cost, key);
      var e := DebitEntry(acc, user, GatewayDebit, cost, None, None, key);
      PostKeepsLaw(db, e, Step(db, OpGateway(user, request, cost)), mode);
    }
  }

  lemma BonusRowKeepsLaw(db: Db, user: UserId, amount: int, key: Key, kind: LedgerType, mode: Mode)
    requires Law(db, mode) && user in db.accounts && amount > 0 && key.Named? && !HasKey(db.ledger, key)
    ensures Law(Post(db, BonusEntry(db.accounts[user], user, kind, amount, key)), mode)
  {
    BucketsOf(db, user, mode);
    EntriesExplain(db.accounts[user], user, kind, amount, None, None, key);
    PlainPostKeepsLaw(db, BonusEntry(db.accounts[user], user, kind, amount, key), mode);
  }

  lemma BonusKeepsLaw(db: Db, user: UserId, amount: int, name: string, kind: LedgerType, mode: Mode)
    requires Law(db, mode)
    ensures Law(Step(db, OpBonus(user, amount, name, kind)), mode)
  {
    EnsureKeepsLaw(db, user, mode);
    if amount > 0 && !HasKey(Ensure(db, user).ledger, Named(name)) {
      BonusRowKeepsLaw(Ensure(db, user), user, amount, Named(name), kind, mode);
    }
  }

  lemma RedemptionIsPosted(db: Db, e: Entry, user: UserId, code: PromoCode)
    requires user in db.accounts && code in db.promos && (code, user) !in db.redemptions
    requires db.promos[code].maxRedemptions.Some? ==>
      db.promos[code].redeemedCount < db.promos[code].maxRedemptions.value
    requires e == BonusEntry(db.accounts[user], user, PromoRedeem, db.promos[code].credits, PromoKey(code, user))
    requires !HasKey(db.ledger, PromoKey(code, user)) && Explains(db.accounts[user], e)
    ensures Posted(db, e, Post(CountRedemption(db, user, code), e))
  {
  }

  /** Counting the redemption before or after opening the account makes no difference. */
  lemma RedeemAsPost(db: Db, user: UserId, code: PromoCode, gaveFeedback: bool, now: int)
    requires PromoRefusal(db, user, code, gaveFeedback, now).None?
    ensures var ready := Ensure(db, user);
      var e := BonusEntry(ready.accounts[user], user, PromoRedeem, db.promos[code].credits, PromoKey(code, user));
      Apply(db, OpRedeem(user, code, gaveFeedback, now))
      == Committed(Post(CountRedemption(ready, user, code), e), Redeemed(db.promos[code].credits, e.row.balanceAfter))
  {
    assert Ensure(CountRedemption(db, user, code), user) == CountRedemption(Ensure(db, user), user, code);
  }

  lemma RedemptionKeepsLaw(db: Db, user: UserId, code: PromoCode, credits: nat, mode: Mode)
    requires Law(db, mode) && user in db.accounts && code in db.promos && (code, user) !in db.redemptions
    requires db.promos[code].maxRedemptions.Some? ==>
      db.promos[code].redeemedCount < db.promos[code].maxRedemptions.value
    requires db.promos[code].credits == credits && !HasKey(db.ledger, PromoKey(code, user))
    ensures var e := BonusEntry(db.accounts[user], user, PromoRedeem, credits, PromoKey(code, user));
      Law(Post(CountRedemption(db, user, code), e), mode)
  {
    var e := BonusEntry(db.accounts[user], user, PromoRedeem, credits, PromoKey(code, user));
    BucketsOf(db, user, mode);
    EntriesExplain(db.accounts[user], user, PromoRedeem, credits, None, None, PromoKey(code, user));
    RedemptionIsPosted(db, e, user, code);
    PostKeepsLaw(db, e, Post(CountRedemption(db, user, code), e), mode);
  }

  lemma RedeemKeepsLaw(db: Db, user: UserId, code: PromoCode, gaveFeedback: bool, now: int, mode: Mode)
    requires Law(db, mode)
    ensures Law(Step(db, OpRedeem(user, code, gaveFeedback, now)), mode)
  {
    if PromoRefusal(db, user, code, gaveFeedback, now).None? {
      EnsureKeepsLaw(db, user, mode);
      EnsureKeys(db, user, PromoKey(code, user));
      RedemptionKeepsLaw(Ensure(db, user), user, code, db.promos[code].credits, mode);
      RedeemAsPost(db, user, code, gaveFeedback, now);
    }
  }

  lemma PlanKeepsLaw(db: Db, user: UserId, subscription: string, cycleStart: int, cycleEnd: int, mode: Mode)
    requires Law(db, mode)
    ensures Law(Step(db, OpPlan(user, subscription, cycleStart, cycleEnd)), mode)
  {
    var key := PlanKey(subscription, cycleStart);
    if !HasKey(db.ledger, key) && user in db.accounts {
      BucketsOf(db, user, mode);
      var acc, mid := db.accounts[user], ExpirePlan(db, user);
      if acc.buckets.plan > 0 {
        var e := ExpireEntry(acc, user);
        EntriesExplain(acc, user, Expire, 0, None, None, key);
        PlainPostKeepsLaw(db, e, mode);
        HasKeyAppend(db.ledger, e.row, key);
      }
      PlainPostKeepsLaw(mid, PlanEntry(mid.accounts[user], user, (cycleStart, cycleEnd), key), mode);
    }
  }

  /** A change of the hold table that no row speaks of. */
  lemma HoldChangeKeepsLaw(db: Db, holds: map<JobId, Hold>, mode: Mode)
    requires Law(db, mode)
    requires db.holds.Keys <= holds.Keys
    requires forall job :: job in holds ==> holds[job].consumed == if job in db.holds then db.holds[job].consumed else 0
    requires mode.cap > 0 ==> Capped(db.(holds := holds), mode.cap)
    ensures Law(db.(holds := holds), mode)
  {
    var after := db.(holds := holds);
    forall aspect ensures Holds(after, mode, aspect) {
      assert Holds(db, mode, aspect);
      match aspect
      case BalancesAgree => forall u | u in after.accounts ensures Balanced(after, u) { assert Balanced(db, u); }
      case HoldAspect =>
        forall job | job in holds ensures holds[job].consumed == SumBy(HoldSpent(job), db.ledger) {
          if job !in db.holds {
            SumOfNothing(HoldSpent(job), db.ledger);
          }
        }
      case PromoAspect => SamePromos(db, after);
      case _ =>
    }
  }

  lemma OneMoreActive(holds: map<JobId, Hold>, job: JobId, hold: Hold, user: UserId)
    requires job !in holds
    ensures ActiveHolds(holds[job := hold], user)
         == ActiveHolds(holds, user) + if user == hold.user && hold.status.Active? then {job} else {}
  {
  }

  lemma OneMoreHold(db: Db, after: Db, job: JobId, hold: Hold, cap: nat)
    requires Capped(db, cap) && job !in db.holds && |ActiveHolds(db.holds, hold.user)| < cap
    requires after.holds == db.holds[job := hold]
    ensures Capped(after, cap)
  {
    forall u ensures |ActiveHolds(after.holds, u)| <= cap {
      OneMoreActive(db.holds, job, hold, u);
    }
  }

  lemma ReserveKeepsLaw(db: Db, user: UserId, job: JobId, limit: int, maxConcurrentJobs: int, mode: Mode)
    requires Law(db, mode) && (mode.cap > 0 ==> maxConcurrentJobs == mode.cap)
    ensures Law(Step(db, OpReserve(user, job, limit, maxConcurrentJobs)), mode)
  {
    EnsureKeepsLaw(db, user, mode);
    var ready, hold := Ensure(db, user), Hold(user, limit, 0, Active);
    if job !in ready.holds && (maxConcurrentJobs > 0 ==> |ActiveHolds(ready.holds, user)| < maxConcurrentJobs) {
      if mode.cap > 0 {
        assert Holds(ready, mode, CapAspect);
        OneMoreHold(ready, ready.(holds := ready.holds[job := hold]), job, hold, mode.cap);
      }
      HoldChangeKeepsLaw(ready, ready.holds[job := hold], mode);
    }
  }

  lemma SettleKeepsLaw(db: Db, job: JobId, mode: Mode)
    requires Law(db, mode)
    ensures Law(Step(db, OpSettle(job)), mode)
  {
    var after := Step(db, OpSettle(job));
    if mode.cap > 0 {
      assert Holds(db, mode, CapAspect);
      forall u ensures |ActiveHolds(after.holds, u)| <= mode.cap {
        SettlingLowersTheCount(db, job, u);
      }
    }
    HoldChangeKeepsLaw(db, after.holds, mode);
  }

  lemma SettlingLowersTheCount(db: Db, job: JobId, user: UserId)
    ensures ActiveHolds(Step(db, OpSettle(job)).holds, user) == ActiveHolds(db.holds, user) - {job}
    ensures |ActiveHolds(Step(db, OpSettle(job)).holds, user)| <= |ActiveHolds(db.holds, user)|
  {
    assert ActiveHolds(Step(db, OpSettle(job)).holds, user) == ActiveHolds(db.holds, user) - {job};
  }

  lemma StepKeepsLaw(db: Db, op: Op, mode: Mode)
    requires Law(db, mode) && Allowed(op, mode)
    ensures Law(Step(db, op), mode)
  {
    match op
    case OpUpsert(user) => UpsertKeepsLaw(db, user, mode);
    case OpEnsure(user) => EnsureKeepsLaw(db, user, mode);
    case OpReserve(user, job, limit, max) => ReserveKeepsLaw(db, user, job, limit, max, mode);
    case OpMeter(user, job, cost, sequence, enforce) => MeterKeepsLaw(db, user, job, cost, sequence, enforce, mode);
    case OpFlat(user, amount, name, kind, enforce) => FlatKeepsLaw(db, user, amount, name, kind, enforce, mode);
    case OpGateway(user, request, cost) => GatewayKeepsLaw(db, user, request, cost, mode);
    case OpSettle(job) => SettleKeepsLaw(db, job, mode);
    case OpRedeem(user, code, gaveFeedback, now) => RedeemKeepsLaw(db, user, code, gaveFeedback, now, mode);
    case OpBonus(user, amount, name, kind) => BonusKeepsLaw(db, user, amount, name, kind, mode);
    case OpPlan(user, subscription, cycleStart, cycleEnd) =>
      PlanKeepsLaw(db, user, subscription, cycleStart, cycleEnd, mode);
  }

  // ---- Over whole histories ----

  /** A database nobody has used yet: promo codes may exist, nothing else does. */
  ghost predicate Unused(db: Db) {
    && db.accounts == map[] && db.ledger == [] && db.holds == map[] && db.usage == map[] && db.redemptions == map[]
    && forall code :: code in db.promos ==> db.promos[code].redeemedCount == 0
  }

  ghost predicate History(start: Db, ops: seq<Op>, mode: Mode) {
    Unused(start) && forall i :: 0 <= i < |ops| ==> Allowed(ops[i], mode)
  }

  lemma UnusedIsLawful(db: Db, mode: Mode)
    requires Unused(db)
    ensures Law(db, mode)
  {
    forall aspect ensures Holds(db, mode, aspect) {
      match aspect
      case PromoAspect =>
        forall code | code in db.promos ensures PromoCounted(db, code) {
          assert Redeemers(db, code) == {};
        }
      case CapAspect =>
        forall user ensures ActiveHolds(db.holds, user) == {} {
        }
      case _ =>
    }
  }

  lemma {:induction false} EveryHistoryKeepsLaw(start: Db, ops: seq<Op>, mode: Mode)
    requires History(start, ops, mode)
    ensures Law(Run(start, ops), mode)
  {
    if ops == [] {
      UnusedIsLawful(start, mode);
    } else {
      EveryHistoryKeepsLaw(start, ops[..|ops| - 1], mode);
      StepKeepsLaw(Run(start, ops[..|ops| - 1]), ops[|ops| - 1], mode);
    }
  }
}
