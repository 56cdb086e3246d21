/**
 * Retries and redelivery: an operation takes effect once, however often it is
 * sent, and a run of metered turns is charged by its tokens alone.
 */
module CreditReplay {
  import opened Common
  import opened Pricing
  import opened CreditLedger
  import opened CreditLaws

  /** What makes two operations the same one sent twice. */
  datatype Identity =
    | ByKey(key: Key)
    | ByNameFor(user: UserId, name: string)
    | ByJobFor(user: UserId, job: JobId)

  function IdOf(op: Op): Option<Identity> {
    match op
    case OpReserve(user, job, _, _) => Some(ByJobFor(user, job))
    case OpMeter(_, job, _, sequence, _) => Some(ByKey(DebitKey(job, sequence)))
    case OpFlat(user, _, name, _, _) => Some(ByNameFor(user, name))
    case OpGateway(_, request, _) => Some(ByKey(GatewayKey(request)))
    case OpRedeem(user, code, _, _) => Some(ByKey(PromoKey(code, user)))
    case OpBonus(user, _, name, _) => Some(ByNameFor(user, name))
    case OpPlan(_, subscription, cycleStart, _) => Some(ByKey(PlanKey(subscription, cycleStart)))
    case _ => None
  }

  predicate Ensured(db: Db, user: UserId) {
    user in db.accounts && HasKey(db.ledger, Signup(user))
  }

  /** The database shows that the operation has been carried out. */
  predicate Done(db: Db, id: Identity) {
    match id
    case ByKey(key) => HasKey(db.ledger, key)
    case ByNameFor(user, name) => HasKey(db.ledger, Named(name)) && Ensured(db, user)
    case ByJobFor(user, job) => job in db.holds && Ensured(db, user)
  }

  // ---- Nothing recorded is ever lost ----

  ghost predicate Grows(db: Db, after: Db) {
    && db.ledger <= after.ledger
    && db.accounts.Keys <= after.accounts.Keys
    && db.holds.Keys <= after.holds.Keys
  }

  lemma EnsureGrows(db: Db, user: UserId)
    ensures Grows(db, Ensure(db, user))
  {
  }

  lemma PlanGrows(db: Db, user: UserId, subscription: string, cycleStart: int, cycleEnd: int)
    ensures Grows(db, Step(db, OpPlan(user, subscription, cycleStart, cycleEnd)))
  {
    if user in db.accounts {
      assert Grows(db, ExpirePlan(db, user));
    }
  }

  lemma FlatGrows(db: Db, op: Op)
    requires op.OpFlat?
    ensures Grows(db, Step(db, op))
  {
    EnsureGrows(db, op.user);
  }

  lemma BonusGrows(db: Db, op: Op)
    requires op.OpBonus?
    ensures Grows(db, Step(db, op))
  {
    EnsureGrows(db, op.user);
  }

  lemma RedeemGrows(db: Db, op: Op)
    requires op.OpRedeem?
    ensures Grows(db, Step(db, op))
  {
    if PromoRefusal(db, op.user, op.code, op.gaveFeedback, op.now).None? {
      RedeemAsPost(db, op.user, op.code, op.gaveFeedback, op.now);
      EnsureGrows(db, op.user);
    }
  }

  lemma ReserveGrows(db: Db, op: Op)
    requires op.OpReserve? || op.OpEnsure? || op.OpUpsert? || op.OpSettle?
    ensures Grows(db, Step(db, op))
  {
    if op.OpReserve? || op.OpEnsure? {
      EnsureGrows(db, op.user);
    }
  }

  lemma MeterGrows(db: Db, op: Op)
    requires op.OpMeter? || op.OpGateway?
    ensures Grows(db, Step(db, op))
  {
  }

  lemma StepGrows(db: Db, op: Op)
    ensures Grows(db, Step(db, op))
  {
    match op
    case OpFlat(_, _, _, _, _) => FlatGrows(db, op);
    case OpBonus(_, _, _, _) => BonusGrows(db, op);
    case OpRedeem(_, _, _, _) => RedeemGrows(db, op);
    case OpPlan(user, subscription, cycleStart, cycleEnd) => PlanGrows(db, user, subscription, cycleStart, cycleEnd);
    case OpMeter(_, _, _, _, _) => MeterGrows(db, op);
    case OpGateway(_, _, _) => MeterGrows(db, op);
    case _ => ReserveGrows(db, op);
  }

  lemma KeysPersist(before: seq<Row>, after: seq<Row>, key: Key)
    requires before <= after && HasKey(before, key)
    ensures HasKey(after, key)
  {
    var i :| 0 <= i < |before| && before[i].key == Some(key);
    assert after[i].key == Some(key);
  }

  lemma DoneStays(db: Db, after: Db, id: Identity)
    requires Grows(db, after) && Done(db, id)
    ensures Done(after, id)
  {
    if id.ByKey? {
      KeysPersist(db.ledger, after.ledger, id.key);
    } else {
      KeysPersist(db.ledger, after.ledger, Signup(id.user));
      if id.ByNameFor? {
        KeysPersist(db.ledger, after.ledger, Named(id.name));
      }
    }
  }

  // ---- Carried out once, then never again ----

  lemma EnsureEnsures(db: Db, user: UserId)
    ensures Ensured(Ensure(db, user), user)
    ensures Ensured(db, user) ==> Ensure(db, user) == db
  {
    EnsureKeys(db, user, Signup(user));
  }

  lemma PostRecords(db: Db, e: Entry)
    requires e.row.key.Some?
    ensures HasKey(Post(db, e).ledger, e.row.key.value) && Grows(db, Post(db, e))
  {
    HasKeyAppend(db.ledger, e.row, e.row.key.value);
  }

  lemma FlatIsDone(db: Db, op: Op)
    requires op.OpFlat? && Apply(db, op).Committed?
    ensures Done(Step(db, op), IdOf(op).value)
  {
    EnsureEnsures(db, op.user);
    var ready := Ensure(db, op.user);
    var acc, key := ready.accounts[op.user], Named(op.name);
    if !HasKey(ready.ledger, key) {
      var e := if op.enforce then DebitEntry(acc, op.user, op.kind, op.amount, None, None, key)
               else ShadowEntry(acc, op.user, op.kind, op.amount, None, None, key);
      PostRecords(ready, e);
      KeysPersist(ready.ledger, Post(ready, e).ledger, Signup(op.user));
    }
  }

  lemma BonusIsDone(db: Db, op: Op)
    requires op.OpBonus? && Apply(db, op).Committed?
    ensures Done(Step(db, op), IdOf(op).value)
  {
    EnsureEnsures(db, op.user);
    var ready := Ensure(db, op.user);
    if !HasKey(ready.ledger, Named(op.name)) {
      var e := BonusEntry(ready.accounts[op.user], op.user, op.kind, op.amount, Named(op.name));
      PostRecords(ready, e);
      KeysPersist(ready.ledger, Post(ready, e).ledger, Signup(op.user));
    }
  }

  lemma MeterIsDone(db: Db, op: Op)
    requires op.OpMeter? && Apply(db, op).Committed?
    ensures Done(Step(db, op), IdOf(op).value)
  {
    var acc, key := db.accounts[op.user], DebitKey(op.job, op.sequence);
    if !HasKey(db.ledger, key) {
      var hold := HoldOf(db.holds, op.job);
      HasKeyAppend(db.ledger, if op.enforce then DebitEntry(acc, op.user, Debit, op.cost, Some(op.job), hold, key).row
                              else ShadowEntry(acc, op.user, Debit, op.cost, Some(op.job), hold, key).row, key);
    }
  }

  lemma GatewayIsDone(db: Db, op: Op)
    requires op.OpGateway? && Apply(db, op).Committed?
    ensures Done(Step(db, op), IdOf(op).value)
  {
    var key := GatewayKey(op.request);
    if !HasKey(db.ledger, key) {
      var e := DebitEntry(db.accounts[op.user], op.user, GatewayDebit, op.cost, None, None, key);
      HasKeyAppend(db.ledger, e.row, key);
    }
  }

  lemma RedeemIsDone(db: Db, op: Op)
    requires op.OpRedeem? && Apply(db, op).Committed?
    ensures Done(Step(db, op), IdOf(op).value)
  {
    RedeemAsPost(db, op.user, op.code, op.gaveFeedback, op.now);
    var ready, key := Ensure(db, op.user), PromoKey(op.code, op.user);
    var e := BonusEntry(ready.accounts[op.user], op.user, PromoRedeem, db.promos[op.code].credits, key);
    HasKeyAppend(ready.ledger, e.row, key);
  }

  lemma PlanIsDone(db: Db, op: Op)
    requires op.OpPlan? && Apply(db, op).Committed?
    ensures Done(Step(db, op), IdOf(op).value)
  {
    var key := PlanKey(op.subscription, op.cycleStart);
    if !HasKey(db.ledger, key) {
      var mid := ExpirePlan(db, op.user);
      PostRecords(mid, PlanEntry(mid.accounts[op.user], op.user, (op.cycleStart, op.cycleEnd), key));
    }
  }

  /** A committed operation is done. */
  lemma CommittedIsDone(db: Db, op: Op)
    requires Apply(db, op).Committed? && IdOf(op).Some?
    ensures Done(Step(db, op), IdOf(op).value)
  {
    match op
    case OpReserve(user, _, _, _) => EnsureEnsures(db, user);
    case OpMeter(_, _, _, _, _) => MeterIsDone(db, op);
    case OpFlat(_, _, _, _, _) => FlatIsDone(db, op);
    case OpBonus(_, _, _, _) => BonusIsDone(db, op);
    case OpGateway(_, _, _) => GatewayIsDone(db, op);
    case OpRedeem(_, _, _, _) => RedeemIsDone(db, op);
    case OpPlan(_, _, _, _) => PlanIsDone(db, op);
  }

  /** An operation that is done changes nothing, not even when it is sent with another payload. */
  lemma DoneIsNoOp(db: Db, op: Op)
    requires IdOf(op).Some? && Done(db, IdOf(op).value)
    ensures Step(db, op) == db
  {
    match op
    case OpReserve(user, _, _, _) => EnsureEnsures(db, user);
    case OpFlat(user, _, _, _, _) => EnsureEnsures(db, user);
    case OpBonus(user, _, _, _) => EnsureEnsures(db, user);
    case _ =>
  }

  /** An operation changes the database exactly when it is accepted and was not done before. */
  lemma TakesEffectOnce(db: Db, op: Op)
    requires IdOf(op).Some?
    ensures Step(db, op) != db <==> Apply(db, op).Committed? && !Done(db, IdOf(op).value)
  {
    if Done(db, IdOf(op).value) {
      DoneIsNoOp(db, op);
    } else if Apply(db, op).Committed? {
      CommittedIsDone(db, op);
    }
  }

  // ---- Whole histories ----

  /** Some attempt at this operation among the first `n` was accepted. */
  ghost predicate AcceptedAmong(start: Db, ops: seq<Op>, n: nat, id: Identity)
    requires n <= |ops|
  {
    n > 0 && (AcceptedAmong(start, ops, n - 1, id)
              || (IdOf(ops[n - 1]) == Some(id) && Apply(Run(start, ops[..n - 1]), ops[n - 1]).Committed?))
  }

  lemma {:induction false} AcceptedIsDone(start: Db, ops: seq<Op>, n: nat, id: Identity)
    requires n <= |ops| && AcceptedAmong(start, ops, n, id)
    ensures Done(Run(start, ops[..n]), id)
    decreases n
  {
    var before, op := Run(start, ops[..n - 1]), ops[n - 1];
    assert ops[..n][..n - 1] == ops[..n - 1];
    assert Run(start, ops[..n]) == Step(before, op);
    if AcceptedAmong(start, ops, n - 1, id) {
      AcceptedIsDone(start, ops, n - 1, id);
      StepGrows(before, op);
      DoneStays(before, Step(before, op), id);
    } else {
      CommittedIsDone(before, op);
    }
  }

  /** The history without the attempts made after an accepted one. */
  ghost function WithoutRepeats(start: Db, ops: seq<Op>): seq<Op> {
    if ops == [] then []
    else
      var n := |ops| - 1;
      if IdOf(ops[n]).Some? && AcceptedAmong(start, ops, n, IdOf(ops[n]).value) then WithoutRepeats(start, ops[..n])
      else WithoutRepeats(start, ops[..n]) + [ops[n]]
  }

  /**
   * Exactly once: from any database, a history with arbitrary retries leaves the
   * accounts, holds, ledger and every other table it leaves when each operation
   * stops being sent once it has been accepted.
   */
  lemma {:induction false} RepeatsChangeNothing(start: Db, ops: seq<Op>)
    ensures Run(start, WithoutRepeats(start, ops)) == Run(start, ops)
  {
    if ops == [] {
    } else {
      var n := |ops| - 1;
      var kept := WithoutRepeats(start, ops[..n]);
      RepeatsChangeNothing(start, ops[..n]);
      if IdOf(ops[n]).Some? && AcceptedAmong(start, ops, n, IdOf(ops[n]).value) {
        AcceptedIsDone(start, ops, n, IdOf(ops[n]).value);
        DoneIsNoOp(Run(start, ops[..n]), ops[n]);
      } else {
        assert (kept + [ops[n]])[..|kept|] == kept;
      }
    }
  }

  // ---- Metering is additive ----

  datatype Turn = Turn(model: string, inputTokens: int, outputTokens: int)

  /** The price of each turn. */
  function Costs(turns: seq<Turn>): seq<nat> {
    seq(|turns|, i requires 0 <= i < |turns| => CostMicro(turns[i].model, turns[i].inputTokens, turns[i].outputTokens))
  }

  function TotalInput(turns: seq<Turn>): nat {
    if turns == [] then 0 else TotalInput(turns[..|turns| - 1]) + Tokens(turns[|turns| - 1].inputTokens)
  }

  function TotalOutput(turns: seq<Turn>): nat {
    if turns == [] then 0 else TotalOutput(turns[..|turns| - 1]) + Tokens(turns[|turns| - 1].outputTokens)
  }

  /** A job's turns, metered one after the other from sequence number `first` on. */
  function MeterTurns(db: Db, user: UserId, job: JobId, first: int, costs: seq<nat>): Db {
    if costs == [] then db
    else
      var n := |costs| - 1;
      Step(MeterTurns(db, user, job, first, costs[..n]), OpMeter(user, job, costs[n], first + n, true))
  }

  ghost predicate FreshFrom(ledger: seq<Row>, job: JobId, first: int) {
    forall sequence :: first <= sequence ==> !HasKey(ledger, DebitKey(job, sequence))
  }

  lemma MeterOnce(db: Db, user: UserId, job: JobId, cost: nat, sequence: int)
    requires user in db.accounts && FreshFrom(db.ledger, job, sequence)
    ensures var after := Step(db, OpMeter(user, job, cost, sequence, true));
      && user in after.accounts && FreshFrom(after.ledger, job, sequence + 1)
      && after.accounts[user].buckets == Spend(db.accounts[user].buckets, cost).buckets
      && after.holds == Consume(db.holds, job, Spend(db.accounts[user].buckets, cost).debited)
  {
    assert !HasKey(db.ledger, DebitKey(job, sequence));
    var hold, key := HoldOf(db.holds, job), DebitKey(job, sequence);
    var row := DebitEntry(db.accounts[user], user, Debit, cost, Some(job), hold, key).row;
    forall s | sequence + 1 <= s ensures !HasKey(db.ledger + [row], DebitKey(job, s)) {
      HasKeyAppend(db.ledger, row, DebitKey(job, s));
    }
  }

  lemma SpendThen(b: Buckets, holds: map<JobId, Hold>, job: JobId, x: nat, y: nat)
    requires b.NonNegative()
    ensures Spend(Spend(b, x).buckets, y).buckets == Spend(b, x + y).buckets
    ensures Consume(Consume(holds, job, Min(b.Gross(), x)), job, Spend(Spend(b, x).buckets, y).debited)
         == Consume(holds, job, Min(b.Gross(), x + y))
  {
    SpendTwice(b, x, y);
    DebitIsMinimum(b, x);
    DebitIsMinimum(b, x + y);
  }

  datatype Part = UserStays | KeysLeft | BucketsPaid | HoldConsumed

  ghost predicate TookPart(db: Db, user: UserId, job: JobId, next: int, total: nat, after: Db, part: Part)
    requires user in db.accounts
  {
    match part
    case UserStays => user in after.accounts
    case KeysLeft => FreshFrom(after.ledger, job, next)
    case BucketsPaid =>
      user in after.accounts
      && after.accounts[user].buckets == Spend(db.accounts[user].buckets, total).buckets
    case HoldConsumed => after.holds == Consume(db.holds, job, Min(db.accounts[user].buckets.Gross(), total))
  }

  /** `after` is `db` with `total` taken, as far as the balance goes, by turns up to `next - 1`. */
  ghost predicate Took(db: Db, user: UserId, job: JobId, next: int, total: nat, after: Db)
    requires user in db.accounts
  {
    forall part: Part :: TookPart(db, user, job, next, total, after, part)
  }

  lemma TookMeans(db: Db, user: UserId, job: JobId, next: int, total: nat, after: Db)
    requires user in db.accounts && Took(db, user, job, next, total, after)
    ensures user in after.accounts && FreshFrom(after.ledger, job, next)
    ensures after.accounts[user].buckets == Spend(db.accounts[user].buckets, total).buckets
    ensures after.holds == Consume(db.holds, job, Min(db.accounts[user].buckets.Gross(), total))
  {
    assert TookPart(db, user, job, next, total, after, UserStays);
    assert TookPart(db, user, job, next, total, after, KeysLeft);
    assert TookPart(db, user, job, next, total, after, BucketsPaid);
    assert TookPart(db, user, job, next, total, after, HoldConsumed);
  }

  lemma TookOneMore(db: Db, user: UserId, job: JobId, next: int, total: nat, mid: Db, cost: nat,
                    next': int, total': nat, after: Db)
    requires user in db.accounts && db.accounts[user].buckets.NonNegative()
    requires Took(db, user, job, next, total, mid) && after == Step(mid, OpMeter(user, job, cost, next, true))
    requires next' == next + 1 && total' == total + cost
    ensures Took(db, user, job, next', total', after)
  {
    TookMeans(db, user, job, next, total, mid);
    MeterOnce(mid, user, job, cost, next);
    TookBoth(db, user, job, total, mid, cost, next', total', after);
  }

  /** What one more turn does, added to what the turns before it did. */
  lemma TookBoth(db: Db, user: UserId, job: JobId, total: nat, mid: Db, cost: nat, next': int, total': nat, after: Db)
    requires user in db.accounts && db.accounts[user].buckets.NonNegative() && total' == total + cost
    requires user in mid.accounts && mid.accounts[user].buckets == Spend(db.accounts[user].buckets, total).buckets
    requires mid.holds == Consume(db.holds, job, Min(db.accounts[user].buckets.Gross(), total))
    requires user in after.accounts && FreshFrom(after.ledger, job, next')
    requires after.accounts[user].buckets == Spend(mid.accounts[user].buckets, cost).buckets
    requires after.holds == Consume(mid.holds, job, Spend(mid.accounts[user].buckets, cost).debited)
    ensures Took(db, user, job, next', total', after)
  {
    SpendThen(db.accounts[user].buckets, db.holds, job, total, cost);
    forall part: Part ensures TookPart(db, user, job, next', total', after, part) {
      match part
      case _ =>
    }
  }

  /** A metered run takes the least of the balance and its total cost, free then plan then bonus. */
  lemma {:induction false} RunIsChargedItsTotal(db: Db, user: UserId, job: JobId, first: int, costs: seq<nat>)
    requires user in db.accounts && db.accounts[user].buckets.NonNegative() && FreshFrom(db.ledger, job, first)
    ensures Took(db, user, job, first + |costs|, Sum(costs), MeterTurns(db, user, job, first, costs))
  {
    if costs == [] {
      TookNothing(db, user, job, first);
    } else {
      var n := |costs| - 1;
      RunIsChargedItsTotal(db, user, job, first, costs[..n]);
      TookOneMore(db, user, job, first + n, Sum(costs[..n]), MeterTurns(db, user, job, first, costs[..n]), costs[n],
                  first + |costs|, Sum(costs), MeterTurns(db, user, job, first, costs));
    }
  }

  lemma TookNothing(db: Db, user: UserId, job: JobId, first: int)
    requires user in db.accounts && db.accounts[user].buckets.NonNegative() && FreshFrom(db.ledger, job, first)
    ensures Took(db, user, job, first, 0, db)
  {
    assert Consume(db.holds, job, 0) == db.holds;
    forall part: Part ensures TookPart(db, user, job, first, 0, db, part) {
      match part
      case _ =>
    }
  }

  lemma PriceOneMore(model: string, input: nat, output: nat, turn: Turn, input': int, output': int)
    requires input' == input + Tokens(turn.inputTokens) && output' == output + Tokens(turn.outputTokens)
    ensures CostMicro(model, input', output')
         == CostMicro(model, input, output) + CostMicro(model, turn.inputTokens, turn.outputTokens)
  {
    CostIsAdditive(model, input, output, turn.inputTokens, turn.outputTokens);
    assert Tokens(input) == input && Tokens(output) == output;
  }

  lemma {:induction false} TotalIsPriceOfTotals(turns: seq<Turn>, model: string)
    requires forall i :: 0 <= i < |turns| ==> turns[i].model == model
    ensures Sum(Costs(turns)) == CostMicro(model, TotalInput(turns), TotalOutput(turns))
  {
    if turns == [] {
      assert CostMicro(model, 0, 0) == 0;
    } else {
      var n := |turns| - 1;
      TotalIsPriceOfTotals(turns[..n], model);
      PriceOneMore(model, TotalInput(turns[..n]), TotalOutput(turns[..n]), turns[n],
                   TotalInput(turns), TotalOutput(turns));
      assert Costs(turns)[..n] == Costs(turns[..n]);
    }
  }

  /** However a run's tokens are split into turns, it leaves the same buckets and the same hold. */
  lemma {:induction false} SplittingARunChangesNothing(
      db: Db, user: UserId, job: JobId, first: int, turns: seq<Turn>, others: seq<Turn>, model: string)
    requires user in db.accounts && db.accounts[user].buckets.NonNegative() && FreshFrom(db.ledger, job, first)
    requires forall i :: 0 <= i < |turns| ==> turns[i].model == model
    requires forall i :: 0 <= i < |others| ==> others[i].model == model
    requires TotalInput(turns) == TotalInput(others) && TotalOutput(turns) == TotalOutput(others)
    ensures
      var one := MeterTurns(db, user, job, first, Costs(turns));
      var other := MeterTurns(db, user, job, first, Costs(others));
      && user in one.accounts && user in other.accounts
      && one.accounts[user].buckets == other.accounts[user].buckets
      && one.holds == other.holds
  {
    RunIsChargedItsTotal(db, user, job, first, Costs(turns));
    RunIsChargedItsTotal(db, user, job, first, Costs(others));
    TotalIsPriceOfTotals(turns, model);
    TotalIsPriceOfTotals(others, model);
    SameTotalSameState(db, user, job, first + |turns|, first + |others|, Sum(Costs(turns)),
                       MeterTurns(db, user, job, first, Costs(turns)), MeterTurns(db, user, job, first, Costs(others)));
  }

  lemma SameTotalSameState(db: Db, user: UserId, job: JobId, next: int, other: int, total: nat, one: Db, two: Db)
    requires user in db.accounts && Took(db, user, job, next, total, one) && Took(db, user, job, other, total, two)
    ensures user in one.accounts && user in two.accounts
    ensures one.accounts[user].buckets == two.accounts[user].buckets && one.holds == two.holds
  {
    TookMeans(db, user, job, next, total, one);
    TookMeans(db, user, job, other, total, two);
  }
}
