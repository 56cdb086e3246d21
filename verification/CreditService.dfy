/**
 * The credit writers as methods on the tables they update in place. Each is
 * proved to do what its function in CreditLedger says: commit that database, or
 * put every table back and report the error.
 */
module CreditService {
  import opened Common
  import opened Pricing
  import L = CreditLedger
  import Laws = CreditLaws
  import Audit = CreditAudit

  datatype Result = Ok(reply: L.Reply) | Err(error: L.Error)

  ghost predicate Does(outcome: L.Outcome, before: L.Db, after: L.Db, result: Result) {
    match outcome
    case Committed(db, reply) => after == db && result == Ok(reply)
    case RolledBack(error) => after == before && result == Err(error)
  }

  function Jobs(jobs: seq<L.JobId>): set<L.JobId> {
    set job | job in jobs
  }

  /** Holds with those of some jobs settled. */
  function WithSettled(holds: map<L.JobId, L.Hold>, jobs: set<L.JobId>): map<L.JobId, L.Hold> {
    map job | job in holds :: if job in jobs then holds[job].(status := L.Settled) else holds[job]
  }

  /** A sweep so far: what it has settled, what threw, and what is left. */
  ghost predicate Sorted(stuck: set<L.JobId>, failing: set<L.JobId>, settled: set<L.JobId>, thrown: set<L.JobId>,
                         left: set<L.JobId>)
  {
    forall job ::
      && (job in settled <==> job in stuck && job !in left && job !in failing)
      && (job in thrown <==> job in stuck && job !in left && job in failing)
      && (job in left ==> job in stuck)
  }

  lemma JobsMore(jobs: seq<L.JobId>, job: L.JobId)
    ensures Jobs(jobs + [job]) == Jobs(jobs) + {job}
  {
  }

  lemma SettlesOneMore(holds: map<L.JobId, L.Hold>, jobs: set<L.JobId>, job: L.JobId)
    requires job in holds
    ensures var mid := WithSettled(holds, jobs);
      mid[job := mid[job].(status := L.Settled)] == WithSettled(holds, jobs + {job})
  {
  }

  predicate Distinct(jobs: seq<L.JobId>) {
    forall i, j :: 0 <= i < j < |jobs| ==> jobs[i] != jobs[j]
  }

  lemma DistinctMore(jobs: seq<L.JobId>, job: L.JobId)
    requires Distinct(jobs) && job !in Jobs(jobs)
    ensures Distinct(jobs + [job])
  {
  }

  /** What a sweep that has nothing left has done. */
  lemma SweptAll(holds: map<L.JobId, L.Hold>, ended: set<L.JobId>, failing: set<L.JobId>, stuck: set<L.JobId>,
                 settled: set<L.JobId>, thrown: set<L.JobId>)
    requires stuck == set job | job in holds && holds[job].status.Active? && job in ended
    requires Sorted(stuck, failing, settled, thrown, {})
    ensures |settled| + |thrown| == |stuck|
    ensures forall job :: job in thrown <==>
      job in holds && holds[job].status.Active? && job in ended && job in failing
    ensures var after := WithSettled(holds, settled);
      forall job :: job in holds ==>
        var stop := holds[job].status.Active? && job in ended && job !in failing;
        after[job] == if stop then holds[job].(status := L.Settled) else holds[job]
  {
    assert settled + thrown == stuck && settled !! thrown;
  }

  class CreditStore {
    var accounts: map<L.UserId, L.Account>
    var ledger: seq<L.Row>
    var holds: map<L.JobId, L.Hold>
    var usage: map<L.RequestId, L.Usage>
    var promos: map<L.PromoCode, L.Promo>
    var redemptions: map<(L.PromoCode, L.UserId), nat>

    function Db(): L.Db
      reads this
    {
      L.Db(accounts, ledger, holds, usage, promos, redemptions)
    }

    /** No bucket is overdrawn. */
    ghost predicate Valid()
      reads this
    {
      forall user :: user in accounts ==> accounts[user].buckets.NonNegative()
    }

    constructor (codes: map<L.PromoCode, L.Promo>)
      ensures Valid() && Db() == L.Db(map[], [], map[], map[], codes, map[])
    {
      accounts, ledger, holds, usage, promos, redemptions := map[], [], map[], map[], codes, map[];
    }

    /** Undo every write of the current transaction. */
    method Rollback(saved: L.Db)
      modifies this
      ensures Db() == saved
    {
      accounts, ledger, holds := saved.accounts, saved.ledger, saved.holds;
      usage, promos, redemptions := saved.usage, saved.promos, saved.redemptions;
    }

    method EnsureBillingAccount(user: L.UserId)
      requires Valid()
      modifies this
      ensures Valid() && Db() == L.Ensure(old(Db()), user)
    {
      if user !in accounts {
        accounts := accounts[user := L.FRESH_ACCOUNT];
      }
      if !L.HasKey(ledger, L.Signup(user)) {
        ledger := ledger + [L.SignupRow(user)];
      }
    }

    /** Spend from the account's buckets and append the row that says so. */
    method PostDebit(user: L.UserId, kind: L.LedgerType, amount: nat, job: Option<L.JobId>, hold: Option<L.JobId>,
                     key: L.Key)
      returns (debited: int, available: int)
      requires Valid() && user in accounts
      modifies this`accounts, this`ledger
      ensures Valid()
      ensures var e := L.DebitEntry(old(accounts)[user], user, kind, amount, job, hold, key);
        Db() == L.Post(old(Db()), e) && debited == Spend(old(accounts)[user].buckets, amount).debited
          && available == e.row.balanceAfter
    {
      var acc := accounts[user];
      ghost var e := L.DebitEntry(acc, user, kind, amount, job, hold, key);
      var spent := SpendBuckets(acc.buckets, amount);
      assert spent == Spend(acc.buckets, amount) && spent.buckets.NonNegative() by {
        SpendMeaning(acc.buckets, amount);
      }
      debited := spent.debited;
      available := spent.buckets.Gross();
      var row := L.Row(user, kind, -debited, available, job, hold, Some(key), false);
      assert e == L.Entry(acc.(buckets := spent.buckets), row);
      accounts := accounts[user := acc.(buckets := spent.buckets)];
      ledger := ledger + [row];
    }

    /** Record the price on the ledger and move nothing. */
    method PostShadow(user: L.UserId, kind: L.LedgerType, amount: int, job: Option<L.JobId>, hold: Option<L.JobId>,
                      key: L.Key)
      requires user in accounts
      modifies this`ledger
      ensures Db() == L.Post(old(Db()), L.ShadowEntry(accounts[user], user, kind, amount, job, hold, key))
    {
      ledger := ledger + [L.Row(user, kind, -amount, accounts[user].buckets.Gross(), job, hold, Some(key), true)];
      assert accounts[user := accounts[user]] == accounts;
    }

    method ReserveInTx(user: L.UserId, job: L.JobId, cap: int, maxConcurrentJobs: int) returns (result: Result)
      requires Valid()
      modifies this
      ensures Valid() && Does(L.ReserveInTx(old(Db()), user, job, cap, maxConcurrentJobs), old(Db()), Db(), result)
    {
      var saved := Db();
      EnsureBillingAccount(user);
      var available := accounts[user].buckets.Gross();
      if job in holds && holds[job].status.Active? {
        return Ok(L.Reserved(holds[job].amount, available));
      }
      if maxConcurrentJobs > 0 {
        var activeCount := |L.ActiveHolds(holds, user)|;
        if activeCount >= maxConcurrentJobs {
          Rollback(saved);
          return Err(L.ConcurrentJobLimit);
        }
      }
      if available < MIN_SPEND_TO_START_MICRO {
        Rollback(saved);
        return Err(L.InsufficientCredits);
      }
      if job in holds {
        Rollback(saved);
        return Err(L.UniqueViolation);
      }
      holds := holds[job := L.Hold(user, cap, 0, L.Active)];
      return Ok(L.Reserved(cap, available));
    }

    method Meter(user: L.UserId, job: L.JobId, model: string, inputTokens: int, outputTokens: int, sequence: int,
                 enforce: bool)
      returns (result: Result)
      requires Valid()
      modifies this
      ensures Valid()
      ensures Does(L.Meter(old(Db()), user, job, CostMicro(model, inputTokens, outputTokens), sequence, enforce),
        old(Db()), Db(), result)
    {
      var cost := CostMicro(model, inputTokens, outputTokens);
      result := MeterCost(user, job, cost, sequence, enforce);
    }

    method MeterCost(user: L.UserId, job: L.JobId, cost: nat, sequence: int, enforce: bool) returns (result: Result)
      requires Valid()
      modifies this
      ensures Valid() && Does(L.Meter(old(Db()), user, job, cost, sequence, enforce), old(Db()), Db(), result)
    {
      var key := L.DebitKey(job, sequence);
      if user !in accounts {
        return Err(L.AccountMissing);
      }
      if L.HasKey(ledger, key) {
        return Ok(L.Metered(0, L.ConsumedBy(holds, job), accounts[user].buckets.Gross(), false));
      }
      if enforce {
        result := MeterEnforced(user, job, cost, sequence);
      } else {
        result := MeterShadow(user, job, cost, L.HoldOf(holds, job), key);
      }
    }

    /** Shadow mode: the row at the real price, balances and hold untouched. */
    method MeterShadow(user: L.UserId, job: L.JobId, cost: nat, hold: Option<L.JobId>, key: L.Key)
      returns (result: Result)
      requires user in accounts
      modifies this`ledger
      ensures Db() == L.Post(old(Db()), L.ShadowEntry(accounts[user], user, L.Debit, cost, Some(job), hold, key))
      ensures result == Ok(L.Metered(cost, L.ConsumedBy(holds, job), accounts[user].buckets.Gross(), false))
    {
      PostShadow(user, L.Debit, cost, Some(job), hold, key);
      result := Ok(L.Metered(cost, L.ConsumedBy(holds, job), accounts[user].buckets.Gross(), false));
    }

    /** The atomic increment of a hold, when the job has one. */
    method ConsumeHold(job: L.JobId, debited: int)
      modifies this`holds
      ensures holds == L.Consume(old(holds), job, debited)
    {
      if job in holds {
        holds := holds[job := holds[job].(consumed := holds[job].consumed + debited)];
      }
    }

    /** The enforced branch: debit the buckets and the job's hold. */
    method MeterEnforced(user: L.UserId, job: L.JobId, cost: nat, sequence: int) returns (result: Result)
      requires Valid() && user in accounts && !L.HasKey(ledger, L.DebitKey(job, sequence))
      modifies this`accounts, this`ledger, this`holds
      ensures Valid() && Does(L.Meter(old(Db()), user, job, cost, sequence, true), old(Db()), Db(), result)
    {
      var key, hold := L.DebitKey(job, sequence), L.HoldOf(holds, job);
      var debited, available := PostDebit(user, L.Debit, cost, Some(job), hold, key);
      ConsumeHold(job, debited);
      result := Ok(L.Metered(debited, L.ConsumedBy(holds, job), available, L.Exhausted(holds, job)));
    }

    method ChargeFlat(user: L.UserId, amount: int, name: string, kind: L.LedgerType, enforce: bool)
      returns (result: Result)
      requires Valid()
      modifies this
      ensures Valid() && Does(L.ChargeFlat(old(Db()), user, amount, name, kind, enforce), old(Db()), Db(), result)
    {
      if amount <= 0 {
        return Err(L.BadAmount);
      }
      var saved := Db();
      EnsureBillingAccount(user);
      var available := accounts[user].buckets.Gross();
      if L.HasKey(ledger, L.Named(name)) {
        return Ok(L.Charged(false, 0, available));
      }
      if enforce {
        if available < amount {
          Rollback(saved);
          return Err(L.InsufficientCredits);
        }
        var debited, left := PostDebit(user, kind, amount, None, None, L.Named(name));
        return Ok(L.Charged(true, debited, left));
      } else {
        PostShadow(user, kind, amount, None, None, L.Named(name));
        return Ok(L.Charged(true, 0, available));
      }
    }

    method MeterGateway(user: L.UserId, request: L.RequestId, cost: nat) returns (result: Result)
      requires Valid()
      modifies this
      ensures Valid() && Does(L.MeterGateway(old(Db()), user, request, cost), old(Db()), Db(), result)
    {
      var key := L.GatewayKey(request);
      if user !in accounts {
        return Err(L.AccountMissing);
      }
      if L.HasKey(ledger, key) {
        return Ok(L.GatewayMetered(0, accounts[user].buckets.Gross(), cost));
      }
      if request in usage {
        return Err(L.UniqueViolation);
      }
      usage := usage[request := L.Usage(user, cost)];
      var debited, available := PostDebit(user, L.GatewayDebit, cost, None, None, key);
      return Ok(L.GatewayMetered(debited, available, cost));
    }

    method Settle(job: L.JobId)
      requires Valid()
      modifies this`holds
      ensures Valid() && L.Settle(old(Db()), job) == L.Committed(Db(), L.Nothing)
    {
      if job !in holds || !holds[job].status.Active? {
        return;
      }
      holds := holds[job := holds[job].(status := L.Settled)];
    }

    /** The jobs whose hold is active although they have ended. */
    function Stuck(ended: set<L.JobId>): set<L.JobId>
      reads this`holds
    {
      set job | job in holds && holds[job].status.Active? && job in ended
    }

    /** Settling a hold that is active. */
    method SettleStuck(job: L.JobId)
      requires Valid() && job in holds && holds[job].status.Active?
      modifies this`holds
      ensures Valid() && holds == old(holds)[job := old(holds)[job].(status := L.Settled)]
    {
      Settle(job);
    }

    /**
     * Settles the active holds of jobs that have ended; the settles in `failing`
     * throw, and the sweep goes on with the rest.
     */
    method SweepStuckHolds(ended: set<L.JobId>, failing: set<L.JobId>) returns (swept: nat, errors: seq<L.JobId>)
      requires Valid()
      modifies this`holds
      ensures Valid() && holds.Keys == old(holds).Keys
      ensures forall job :: job in holds ==>
        var was := old(holds)[job];
        holds[job] == if was.status.Active? && job in ended && job !in failing then was.(status := L.Settled) else was
      ensures forall job :: job in errors <==>
        job in old(holds) && old(holds)[job].status.Active? && job in ended && job in failing
      ensures forall i, j :: 0 <= i < j < |errors| ==> errors[i] != errors[j]
      ensures swept + |errors| == |set job | job in old(holds) && old(holds)[job].status.Active? && job in ended|
    {
      var stuck := Stuck(ended);
      var left := stuck;
      ghost var settled, thrown: set<L.JobId> := {}, {};
      swept, errors := 0, [];
      while left != {}
        invariant stuck == old(Stuck(ended)) && Sorted(stuck, failing, settled, thrown, left)
        invariant Valid() && holds == WithSettled(old(holds), settled)
        invariant Jobs(errors) == thrown && swept == |settled| && |errors| == |thrown|
        invariant Distinct(errors)
        decreases |left|
      {
        var job :| job in left;
        assert job in stuck && job !in settled && job !in thrown;
        left := left - {job};
        if job in failing {
          JobsMore(errors, job);
          DistinctMore(errors, job);
          errors, thrown := errors + [job], thrown + {job};
        } else {
          SettlesOneMore(old(holds), settled, job);
          SettleStuck(job);
          swept, settled := swept + 1, settled + {job};
        }
      }
      SweptAll(old(holds), ended, failing, stuck, settled, thrown);
      assert forall job :: job in errors <==> job in Jobs(errors);
    }

    method Redeem(user: L.UserId, code: L.PromoCode, gaveFeedback: bool, now: int) returns (result: Result)
      requires Valid()
      modifies this
      ensures Valid() && Does(L.Redeem(old(Db()), user, code, gaveFeedback, now), old(Db()), Db(), result)
    {
      if code == "EXTRA100" && !gaveFeedback {
        return Err(L.PromoInvalid);
      }
      if code !in promos || !promos[code].isActive {
        return Err(L.PromoInvalid);
      }
      var promo := promos[code];
      if promo.expiresAt.Some? && promo.expiresAt.value <= now {
        return Err(L.PromoExpired);
      }
      if promo.maxRedemptions.Some? && promo.redeemedCount >= promo.maxRedemptions.value {
        return Err(L.PromoInvalid);
      }
      if (code, user) in redemptions {
        return Err(L.PromoAlreadyRedeemed);
      }
      if L.HasKey(ledger, L.PromoKey(code, user)) {
        return Err(L.UniqueViolation);
      }
      redemptions := redemptions[(code, user) := promo.credits];
      promos := promos[code := promo.(redeemedCount := promo.redeemedCount + 1)];
      assert Db() == L.CountRedemption(old(Db()), user, code);
      EnsureBillingAccount(user);
      var available := PostBonus(user, L.PromoRedeem, promo.credits, L.PromoKey(code, user));
      return Ok(L.Redeemed(promo.credits, available));
    }

    method PostBonus(user: L.UserId, kind: L.LedgerType, amount: nat, key: L.Key) returns (available: int)
      requires Valid() && user in accounts
      modifies this`accounts, this`ledger
      ensures Valid()
      ensures var e := L.BonusEntry(old(accounts)[user], user, kind, amount, key);
        Db() == L.Post(old(Db()), e) && available == e.row.balanceAfter
    {
      var acc := accounts[user];
      var bonus := acc.buckets.bonus + amount;
      available := acc.buckets.free + acc.buckets.plan + bonus;
      accounts := accounts[user := acc.(buckets := acc.buckets.(bonus := bonus))];
      ledger := ledger + [L.Row(user, kind, amount, available, None, None, Some(key), false)];
    }

    method GrantBonusCredits(user: L.UserId, amount: int, name: string, kind: L.LedgerType) returns (result: Result)
      requires Valid()
      modifies this
      ensures Valid() && Does(L.GrantBonusCredits(old(Db()), user, amount, name, kind), old(Db()), Db(), result)
    {
      if amount <= 0 {
        return Err(L.BadAmount);
      }
      EnsureBillingAccount(user);
      if L.HasKey(ledger, L.Named(name)) {
        return Ok(L.Granted(0, accounts[user].buckets.bonus, accounts[user].buckets.Gross()));
      }
      var available := PostBonus(user, kind, amount, L.Named(name));
      return Ok(L.Granted(amount, accounts[user].buckets.bonus, available));
    }

    method GrantPlanCycle(user: L.UserId, subscription: string, cycleStart: int, cycleEnd: int) returns (result: Result)
      requires Valid()
      modifies this
      ensures Valid()
        && Does(L.GrantPlanCycle(old(Db()), user, subscription, cycleStart, cycleEnd), old(Db()), Db(), result)
    {
      var key := L.PlanKey(subscription, cycleStart);
      if L.HasKey(ledger, key) {
        return Ok(L.Nothing);
      }
      if user !in accounts {
        return Err(L.AccountMissing);
      }
      var b := accounts[user].buckets;
      if b.plan > 0 {
        accounts := accounts[user := accounts[user].(buckets := b.(plan := 0))];
        ledger := ledger + [L.Row(user, L.Expire, -b.plan, b.free + b.bonus, None, None, None, false)];
      }
      var granted := Buckets(b.free, PRO_MONTHLY_ALLOTMENT_MICRO, b.bonus);
      accounts := accounts[user := L.Account(granted, Some((cycleStart, cycleEnd)))];
      ledger := ledger
        + [L.Row(user, L.PlanGrant, PRO_MONTHLY_ALLOTMENT_MICRO, granted.Gross(), None, None, Some(key), false)];
      return Ok(L.Nothing);
    }

    /** Compare the stored balance with the ledger; nothing is changed. */
    method ReconcileAccount(user: L.UserId) returns (r: Audit.Reconciliation)
      ensures r == Audit.Reconcile(Db(), user)
    {
      if user !in accounts {
        return Audit.Reconciliation(false, 0, 0, 0);
      }
      var ledgerSum := 0;
      var i := 0;
      while i < |ledger|
        invariant 0 <= i <= |ledger|
        invariant ledgerSum == Laws.SumBy(Laws.Booked(user), ledger[..i])
      {
        if ledger[i].user == user {
          ledgerSum := ledgerSum + ledger[i].amount;
        }
        assert ledger[..i + 1] == ledger[..i] + [ledger[i]];
        Laws.SumAppend(Laws.Booked(user), ledger[..i], ledger[i]);
        i := i + 1;
      }
      assert ledger[..i] == ledger;
      var actual := accounts[user].buckets.Gross();
      r := Audit.Reconciliation(actual == ledgerSum, actual - ledgerSum, actual, ledgerSum);
    }
  }
}
