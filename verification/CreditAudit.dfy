/**
 * What the law says of every history: conservation, what `reconcileAccount` and
 * the `balanceAfter` column report, and how the other tables agree with the ledger.
 */
module CreditAudit {
  import opened Common
  import opened Pricing
  import opened CreditLedger
  import opened CreditLaws

  /** Nothing is assumed of the history. */
  const ANY := Mode(false, 0)

  /** Credits enforced throughout, and no signup interrupted between its two statements. */
  const STRICT := Mode(true, 0)

  lemma LawMeans(db: Db, mode: Mode)
    requires Law(db, mode)
    ensures UniqueKeys(db.ledger) && ShadowRowsAreDebits(db.ledger) && AllBalanced(db) && AllAudited(db.ledger)
    ensures mode.strict ==> Orderly(db)
  {
    assert Holds(db, mode, KeysAreUnique) && Holds(db, mode, ShadowsAreDebits) && Holds(db, mode, BalancesAgree);
    assert Holds(db, mode, BalanceAfterAgrees) && Holds(db, mode, OrderAspect);
  }

  /**
   * Conservation: after any history the buckets hold what the ledger says, plus
   * what shadow rows priced without taking, plus a signup grant not yet written.
   */
  lemma {:induction false} CreditsAreConserved(start: Db, ops: seq<Op>, user: UserId)
    requires Unused(start)
    ensures var db := Run(start, ops);
      user in db.accounts ==>
        && db.accounts[user].buckets.NonNegative()
        && db.accounts[user].buckets.Gross()
             == SumBy(Booked(user), db.ledger) + SumBy(Shadowed(user), db.ledger) + Pending(db.ledger, user)
  {
    EveryHistoryKeepsLaw(start, ops, ANY);
    var db := Run(start, ops);
    if user in db.accounts {
      LawMeans(db, ANY);
      assert Balanced(db, user);
      BookedIsMovedLessShadow(user, db.ledger);
    }
  }

  /** No two rows of any history carry the same idempotency key. */
  lemma {:induction false} KeysStayUnique(start: Db, ops: seq<Op>)
    requires Unused(start)
    ensures UniqueKeys(Run(start, ops).ledger)
  {
    EveryHistoryKeepsLaw(start, ops, ANY);
    LawMeans(Run(start, ops), ANY);
  }

  // ---- Reconciliation ----

  datatype Reconciliation = Reconciliation(ok: bool, grossDrift: int, actualGross: int, ledgerSum: int)

  function Reconcile(db: Db, user: UserId): Reconciliation {
    if user !in db.accounts then Reconciliation(false, 0, 0, 0)
    else
      var actual, booked := db.accounts[user].buckets.Gross(), SumBy(Booked(user), db.ledger);
      Reconciliation(actual == booked, actual - booked, actual, booked)
  }

  ghost predicate HasShadowDebit(ledger: seq<Row>, user: UserId) {
    exists i :: 0 <= i < |ledger| && Weigh(Shadowed(user), ledger[i]) != 0
  }

  lemma {:induction false} ShadowSum(ledger: seq<Row>, user: UserId)
    requires ShadowRowsAreDebits(ledger)
    ensures SumBy(Shadowed(user), ledger) >= 0
    ensures SumBy(Shadowed(user), ledger) == 0 <==> !HasShadowDebit(ledger, user)
  {
    if ledger != [] {
      var n := |ledger| - 1;
      ShadowSum(ledger[..n], user);
      if HasShadowDebit(ledger[..n], user) {
        var i :| 0 <= i < n && Weigh(Shadowed(user), ledger[..n][i]) != 0;
        assert Weigh(Shadowed(user), ledger[i]) != 0;
      }
      if HasShadowDebit(ledger, user) && Weigh(Shadowed(user), ledger[n]) == 0 {
        var i :| 0 <= i < |ledger| && Weigh(Shadowed(user), ledger[i]) != 0;
        assert Weigh(Shadowed(user), ledger[..n][i]) != 0;
      }
    }
  }

  /**
   * The reconciler reports no drift exactly when the account has its signup row
   * and no shadow row with a price; the drift it reports otherwise is those two.
   */
  lemma {:induction false} ReconcileReports(start: Db, ops: seq<Op>, user: UserId)
    requires Unused(start)
    ensures var db := Run(start, ops); var r := Reconcile(db, user);
      if user in db.accounts then
        && r.grossDrift == SumBy(Shadowed(user), db.ledger) + Pending(db.ledger, user)
        && (r.ok <==> HasKey(db.ledger, Signup(user)) && !HasShadowDebit(db.ledger, user))
        && r.actualGross == db.accounts[user].buckets.Gross()
        && r.ledgerSum == r.actualGross - r.grossDrift
      else r == Reconciliation(false, 0, 0, 0)
  {
    var db := Run(start, ops);
    EveryHistoryKeepsLaw(start, ops, ANY);
    LawMeans(db, ANY);
    CreditsAreConserved(start, ops, user);
    ShadowSum(db.ledger, user);
  }

  /** Drift there is: a signup stopped between its two statements. */
  lemma {:induction false} InterruptedSignupDrifts(start: Db, user: UserId)
    requires Unused(start)
    ensures var db := Run(start, [OpUpsert(user)]);
      !Reconcile(db, user).ok && Reconcile(db, user).grossDrift == FREE_SIGNUP_GRANT_MICRO
        && !HasKey(db.ledger, Signup(user))
  {
    assert [OpUpsert(user)][..0] == [];
    assert Run(start, []) == start;
  }

  lemma {:induction false} ShadowRowDrifts(db: Db, user: UserId, row: Row)
    requires user in db.accounts && db.accounts[user] == FRESH_ACCOUNT && db.ledger == [SignupRow(user)]
    requires row.user == user && row.amount < 0
    ensures var after := db.(ledger := db.ledger + [row]);
      !Reconcile(after, user).ok && Reconcile(after, user).grossDrift == -row.amount
        && HasKey(after.ledger, Signup(user))
  {
    assert db.ledger[0].key == Some(Signup(user));
    HasKeyAppend(db.ledger, row, Signup(user));
    SumAppend(Booked(user), db.ledger, row);
    assert [] + [SignupRow(user)] == [SignupRow(user)];
    SumAppend(Booked(user), [], SignupRow(user));
  }

  /** Drift there is: a turn metered in shadow mode, on an account whose signup row is there. */
  lemma {:induction false} ShadowMeteringDrifts(start: Db, user: UserId, job: JobId, cost: nat)
    requires Unused(start) && cost > 0
    ensures var db := Run(start, [OpEnsure(user), OpMeter(user, job, cost, 0, false)]);
      !Reconcile(db, user).ok && Reconcile(db, user).grossDrift == cost && HasKey(db.ledger, Signup(user))
  {
    var opening, turn := OpEnsure(user), OpMeter(user, job, cost, 0, false);
    assert [opening, turn][..1] == [opening] && [opening][..0] == [];
    var db := Step(start, opening);
    EnsureKeys(start, user, DebitKey(job, 0));
    assert db.ledger == [SignupRow(user)] && db.accounts[user] == FRESH_ACCOUNT;
    var e := ShadowEntry(FRESH_ACCOUNT, user, Debit, cost, Some(job), HoldOf(db.holds, job), DebitKey(job, 0));
    assert Step(db, turn) == Post(db, e) && Post(db, e) == db.(ledger := db.ledger + [e.row]) by {
      assert db.accounts[user := FRESH_ACCOUNT] == db.accounts;
    }
    assert Run(start, [opening, turn]) == Step(Run(start, [opening]), turn) && Run(start, [opening]) == db;
    ShadowRowDrifts(db, user, e.row);
  }

  /**
   * A row's `balanceAfter` is the running sum of its account exactly when no
   * priced shadow row and no missing signup row came before it.
   */
  lemma {:induction false} BalanceAfterIsRunningSum(start: Db, ops: seq<Op>, i: nat)
    requires Unused(start) && i < |Run(start, ops).ledger|
    ensures var ledger := Run(start, ops).ledger; var user := ledger[i].user;
      ledger[i].balanceAfter == SumBy(Booked(user), ledger[..i + 1])
      <==> if IsSignup(ledger[i]) then SumBy(Booked(user), ledger[..i]) == 0
           else HasKey(ledger[..i], Signup(user)) && !HasShadowDebit(ledger[..i + 1], user)
  {
    EveryHistoryKeepsLaw(start, ops, ANY);
    LawMeans(Run(start, ops), ANY);
    AuditIff(Run(start, ops), i);
  }

  lemma {:induction false} AuditIff(db: Db, i: nat)
    requires Law(db, ANY) && i < |db.ledger|
    ensures var row := db.ledger[i];
      row.balanceAfter == SumBy(Booked(row.user), db.ledger[..i + 1])
      <==> if IsSignup(row) then SumBy(Booked(row.user), db.ledger[..i]) == 0
           else HasKey(db.ledger[..i], Signup(row.user)) && !HasShadowDebit(db.ledger[..i + 1], row.user)
  {
    LawMeans(db, ANY);
    var ledger, user := db.ledger, db.ledger[i].user;
    assert Holds(db, ANY, GrantsAreGrants);
    assert Audited(ledger, i);
    assert ledger[..i + 1] == ledger[..i] + [ledger[i]];
    SumAppend(Booked(user), ledger[..i], ledger[i]);
    SumAppend(Moved(user), ledger[..i], ledger[i]);
    BookedIsMovedLessShadow(user, ledger[..i + 1]);
    ShadowSum(ledger[..i + 1], user);
  }

  /**
   * With enforcement on and signups not interrupted, every row carries the
   * running sum of its account and the reconciler finds no drift anywhere.
   */
  lemma {:induction false} EnforcedHistoryReconciles(start: Db, ops: seq<Op>)
    requires History(start, ops, STRICT)
    ensures var db := Run(start, ops);
      && (forall i :: 0 <= i < |db.ledger| ==>
            db.ledger[i].balanceAfter == SumBy(Booked(db.ledger[i].user), db.ledger[..i + 1]))
      && (forall user :: user in db.accounts ==> Reconcile(db, user).ok && Reconcile(db, user).grossDrift == 0)
  {
    var db := Run(start, ops);
    EveryHistoryKeepsLaw(start, ops, STRICT);
    EveryHistoryKeepsLaw(start, ops, ANY);
    LawMeans(db, STRICT);
    forall i | 0 <= i < |db.ledger|
      ensures db.ledger[i].balanceAfter == SumBy(Booked(db.ledger[i].user), db.ledger[..i + 1])
    {
      OrderlyRow(db, i);
    }
    forall user | user in db.accounts ensures Reconcile(db, user).ok && Reconcile(db, user).grossDrift == 0 {
      ReconcileReports(start, ops, user);
    }
  }

  lemma {:induction false} OrderlyRow(db: Db, i: nat)
    requires Law(db, ANY) && Orderly(db) && i < |db.ledger|
    ensures db.ledger[i].balanceAfter == SumBy(Booked(db.ledger[i].user), db.ledger[..i + 1])
  {
    AuditIff(db, i);
    assert Opens(db.ledger, i);
    if IsSignup(db.ledger[i]) {
      SumOfNothing(Booked(db.ledger[i].user), db.ledger[..i]);
    }
  }

  // ---- Agreement between tables ----

  /** Each hold has consumed exactly what the enforced debits that name it took. */
  lemma {:induction false} HoldsAgreeWithLedger(start: Db, ops: seq<Op>, job: JobId)
    requires Unused(start) && job in Run(start, ops).holds
    ensures Run(start, ops).holds[job].consumed == SumBy(HoldSpent(job), Run(start, ops).ledger)
  {
    EveryHistoryKeepsLaw(start, ops, ANY);
    assert Holds(Run(start, ops), ANY, HoldAspect);
  }

  /** Row `i` is the one row written under this key. */
  ghost predicate OnlyRow(ledger: seq<Row>, key: Key, i: int) {
    && 0 <= i < |ledger| && ledger[i].key == Some(key)
    && forall j :: 0 <= j < |ledger| && ledger[j].key == Some(key) ==> j == i
  }

  /** Each usage row is paid by exactly one ledger row, up to what the account had. */
  lemma {:induction false} UsageAgreesWithLedger(start: Db, ops: seq<Op>, request: RequestId)
    requires Unused(start) && request in Run(start, ops).usage
    ensures var db := Run(start, ops);
      exists i :: OnlyRow(db.ledger, GatewayKey(request), i) && PaysFor(db.ledger[i], db.usage[request])
  {
    var db := Run(start, ops);
    EveryHistoryKeepsLaw(start, ops, ANY);
    assert Holds(db, ANY, UsageAspect);
    LawMeans(db, ANY);
    assert HasKey(db.ledger, GatewayKey(request));
    var i :| 0 <= i < |db.ledger| && db.ledger[i].key == Some(GatewayKey(request));
    assert OnlyRow(db.ledger, GatewayKey(request), i) && PaysFor(db.ledger[i], db.usage[request]);
  }

  /** A promo's counter is its number of redeemers, within its maximum; each redemption has its one row. */
  lemma {:induction false} PromosAgreeWithLedger(start: Db, ops: seq<Op>, code: PromoCode)
    requires Unused(start) && code in Run(start, ops).promos
    ensures var db := Run(start, ops);
      && db.promos[code].redeemedCount == |Redeemers(db, code)|
      && (db.promos[code].maxRedemptions.Some? ==> |Redeemers(db, code)| <= db.promos[code].maxRedemptions.value)
      && forall user :: user in Redeemers(db, code) ==>
           exists i ::
             OnlyRow(db.ledger, PromoKey(code, user), i)
             && CreditsRedemption(db.ledger[i], db.redemptions, code, user)
  {
    var db := Run(start, ops);
    EveryHistoryKeepsLaw(start, ops, ANY);
    assert Holds(db, ANY, PromoAspect) && Holds(db, ANY, RedemptionAspect);
    LawMeans(db, ANY);
    assert PromoCounted(db, code);
    forall user | user in Redeemers(db, code)
      ensures exists i ::
        OnlyRow(db.ledger, PromoKey(code, user), i)
        && CreditsRedemption(db.ledger[i], db.redemptions, code, user)
    {
      assert (code, user) in db.redemptions;
      assert HasKey(db.ledger, PromoKey(code, user));
      var i :| 0 <= i < |db.ledger| && db.ledger[i].key == Some(PromoKey(code, user));
      assert OnlyRow(db.ledger, PromoKey(code, user), i) && CreditsRedemption(db.ledger[i], db.redemptions, code, user);
    }
  }

  /** When every reserve passes the same cap, nobody ever holds more than that. */
  lemma {:induction false} ConcurrencyIsCapped(start: Db, ops: seq<Op>, cap: nat, user: UserId)
    requires cap > 0 && History(start, ops, Mode(false, cap))
    ensures |ActiveHolds(Run(start, ops).holds, user)| <= cap
  {
    EveryHistoryKeepsLaw(start, ops, Mode(false, cap));
    assert Holds(Run(start, ops), Mode(false, cap), CapAspect);
  }

  // ---- What a caller is told ----

  /** A user's balance; an account not yet open will have the signup grant. */
  function BalanceOf(db: Db, user: UserId): int {
    if user in db.accounts then db.accounts[user].buckets.Gross() else FREE_SIGNUP_GRANT_MICRO
  }

  /** What a reply says of an operation is so. */
  predicate TellsTruth(db: Db, op: Op, after: Db, reply: Reply) {
    match op
    case OpReserve(user, job, _, _) =>
      && reply.Reserved? && job in after.holds && reply.reserved == after.holds[job].amount
      && reply.available == BalanceOf(after, user) == BalanceOf(db, user)
    case OpMeter(user, job, cost, sequence, enforce) =>
      && reply.Metered? && reply.available == BalanceOf(after, user)
      && reply.consumed == ConsumedBy(after.holds, job)
      && var replayed := HasKey(db.ledger, DebitKey(job, sequence));
      && BalanceOf(db, user) - BalanceOf(after, user) == (if enforce then reply.debited else 0)
      && reply.debited == (if replayed then 0 else if enforce then Min(cost, BalanceOf(db, user)) else cost)
      && (reply.holdExhausted <==> enforce && !replayed && Exhausted(after.holds, job))
    case OpFlat(user, amount, name, _, enforce) =>
      && reply.Charged? && reply.available == BalanceOf(after, user)
      && reply.charged == !HasKey(db.ledger, Named(name))
      && BalanceOf(db, user) - BalanceOf(after, user) == reply.taken
      && reply.taken == (if reply.charged && enforce then amount else 0)
    case OpGateway(user, request, cost) =>
      && reply.GatewayMetered? && reply.available == BalanceOf(after, user) && reply.costMicro == cost
      && BalanceOf(db, user) - BalanceOf(after, user) == reply.debited
      && reply.debited == (if HasKey(db.ledger, GatewayKey(request)) then 0 else Min(cost, BalanceOf(db, user)))
    case OpRedeem(user, code, _, _) =>
      && reply.Redeemed? && code in db.promos && reply.creditsGranted == db.promos[code].credits
      && reply.available == BalanceOf(after, user) == BalanceOf(db, user) + reply.creditsGranted
    case OpBonus(user, amount, name, _) =>
      && reply.Granted? && user in after.accounts && reply.bonusBalance == after.accounts[user].buckets.bonus
      && reply.available == BalanceOf(after, user) == BalanceOf(db, user) + reply.granted
      && reply.granted == (if HasKey(db.ledger, Named(name)) then 0 else amount)
    case _ => reply == Nothing
  }

  lemma SpendLeaves(b: Buckets, amount: nat)
    requires b.NonNegative()
    ensures Spend(b, amount).buckets.Gross() == b.Gross() - Spend(b, amount).debited
  {
  }

  /** What a debit entry takes, and what it leaves. */
  lemma DebitTakes(acc: Account, user: UserId, kind: LedgerType, amount: nat, job: Option<JobId>, hold: Option<JobId>,
                   key: Key)
    requires acc.buckets.NonNegative()
    ensures
      var e := DebitEntry(acc, user, kind, amount, job, hold, key);
      var taken := Spend(acc.buckets, amount).debited;
      && e.row.user == user && e.row.balanceAfter == e.account.buckets.Gross()
      && e.row.balanceAfter == acc.buckets.Gross() - taken
      && taken == Min(amount, acc.buckets.Gross())
  {
    SpendLeaves(acc.buckets, amount);
    DebitIsMinimum(acc.buckets, amount);
  }

  lemma MeterTellsTruth(db: Db, op: Op)
    requires op.OpMeter? && Apply(db, op).Committed? && db.accounts[op.user].buckets.NonNegative()
    ensures TellsTruth(db, op, Step(db, op), Apply(db, op).reply)
  {
    var acc, key := db.accounts[op.user], DebitKey(op.job, op.sequence);
    if !HasKey(db.ledger, key) && op.enforce {
      DebitTakes(acc, op.user, Debit, op.cost, Some(op.job), HoldOf(db.holds, op.job), key);
    }
  }

  lemma GatewayTellsTruth(db: Db, op: Op)
    requires op.OpGateway? && Apply(db, op).Committed? && db.accounts[op.user].buckets.NonNegative()
    ensures TellsTruth(db, op, Step(db, op), Apply(db, op).reply)
  {
    var key := GatewayKey(op.request);
    if !HasKey(db.ledger, key) {
      DebitTakes(db.accounts[op.user], op.user, GatewayDebit, op.cost, None, None, key);
    }
  }

  lemma OpeningKeepsBalance(db: Db, user: UserId, name: string)
    requires user in db.accounts ==> db.accounts[user].buckets.NonNegative()
    ensures var ready := Ensure(db, user);
      && user in ready.accounts && ready.accounts[user].buckets.NonNegative()
      && BalanceOf(ready, user) == BalanceOf(db, user)
      && (HasKey(ready.ledger, Named(name)) <==> HasKey(db.ledger, Named(name)))
  {
    EnsureKeys(db, user, Named(name));
  }

  lemma FlatTellsTruth(db: Db, op: Op)
    requires op.OpFlat? && Apply(db, op).Committed?
    requires op.user in db.accounts ==> db.accounts[op.user].buckets.NonNegative()
    ensures TellsTruth(db, op, Step(db, op), Apply(db, op).reply)
  {
    OpeningKeepsBalance(db, op.user, op.name);
    var ready, key := Ensure(db, op.user), Named(op.name);
    if !HasKey(db.ledger, key) && op.enforce {
      DebitTakes(ready.accounts[op.user], op.user, op.kind, op.amount, None, None, key);
    }
  }

  lemma BonusTellsTruth(db: Db, op: Op)
    requires op.OpBonus? && Apply(db, op).Committed?
    ensures TellsTruth(db, op, Step(db, op), Apply(db, op).reply)
  {
    EnsureKeys(db, op.user, Named(op.name));
  }

  lemma GrantTellsTruth(db: Db, op: Op)
    requires (op.OpBonus? || op.OpRedeem?) && Apply(db, op).Committed?
    ensures TellsTruth(db, op, Step(db, op), Apply(db, op).reply)
  {
    if op.OpBonus? {
      BonusTellsTruth(db, op);
    } else {
      RedeemAsPost(db, op.user, op.code, op.gaveFeedback, op.now);
    }
  }

  lemma EnsureKeepsBalance(db: Db, user: UserId)
    ensures var ready := Ensure(db, user);
      && user in ready.accounts && ready.holds == db.holds
      && ready.accounts[user].buckets.Gross() == BalanceOf(db, user)
  {
    var upserted := UpsertAccount(db, user);
    assert upserted.holds == db.holds && upserted.accounts[user].buckets.Gross() == BalanceOf(db, user);
    var ready := BackfillSignup(upserted, user);
    assert ready.accounts == upserted.accounts && ready.holds == upserted.holds;
  }

  lemma ReserveTellsTruth(db: Db, op: Op)
    requires op.OpReserve? && Apply(db, op).Committed?
    ensures TellsTruth(db, op, Step(db, op), Apply(db, op).reply)
  {
    EnsureKeepsBalance(db, op.user);
  }

  lemma SilentTellsTruth(db: Db, op: Op)
    requires op.OpPlan? || op.OpSettle? || op.OpEnsure? || op.OpUpsert?
    requires Apply(db, op).Committed?
    ensures TellsTruth(db, op, Step(db, op), Apply(db, op).reply)
  {
  }

  /**
   * Every reply is about what happened: the balance it names is the balance there
   * is, what it says was taken or granted is what moved, and a flat price is taken
   * whole or not at all.
   */
  lemma {:induction false} RepliesAreTrue(start: Db, ops: seq<Op>, op: Op)
    requires Unused(start) && Apply(Run(start, ops), op).Committed?
    ensures var db := Run(start, ops); TellsTruth(db, op, Step(db, op), Apply(db, op).reply)
  {
    var db := Run(start, ops);
    EveryHistoryKeepsLaw(start, ops, ANY);
    match op
    case OpMeter(user, _, _, _, _) => BucketsOf(db, user, ANY); MeterTellsTruth(db, op);
    case OpGateway(user, _, _) => BucketsOf(db, user, ANY); GatewayTellsTruth(db, op);
    case OpFlat(user, _, _, _, _) =>
      if user in db.accounts {
        BucketsOf(db, user, ANY);
      }
      FlatTellsTruth(db, op);
    case OpBonus(_, _, _, _) => GrantTellsTruth(db, op);
    case OpRedeem(_, _, _, _) => GrantTellsTruth(db, op);
    case OpReserve(_, _, _, _) => ReserveTellsTruth(db, op);
    case _ => SilentTellsTruth(db, op);
  }
}
