/**
 * Prices of model calls and the spending of an account's three buckets
 * (server/src/lib/pricing.ts). All amounts are micro-credits.
 */
module Pricing {
  import opened Common

  const MICRO := 1_000_000
  const FREE_SIGNUP_GRANT_MICRO := 300 * MICRO
  const PRO_MONTHLY_ALLOTMENT_MICRO := 5_000 * MICRO
  const MIN_SPEND_TO_START_MICRO := 1 * MICRO

  /** Micro-credits per million tokens. */
  datatype Price = Price(inputPerM: nat, outputPerM: nat)

  const DEFAULT_PRICE := Price(1_400_000_000, 4_200_000_000)

  const PRICING: map<string, Price> := map[
    "deepseek-chat" := Price(1_400_000_000, 4_200_000_000),
    "deepseek-v4-pro" := Price(1_400_000_000, 4_200_000_000),
    "deepseek-v4-flash" := Price(450_000_000, 1_400_000_000),
    "kimi-k2.7-code" := Price(1_000_000_000, 4_000_000_000),
    "kimi-k2.6" := Price(1_000_000_000, 4_000_000_000),
    "bytedance-seed/seedream-5-0-flash" := Price(450_000_000, 1_275_000_000),
    "bytedance-seed/seedream-5-0-lite" := Price(450_000_000, 2_500_000_000)
  ]

  function PriceOf(model: string): Price {
    if model in PRICING then PRICING[model] else DEFAULT_PRICE
  }

  function Tokens(n: int): nat {
    Max(0, n)
  }

  function CostMicro(model: string, inputTokens: int, outputTokens: int): nat {
    var p := PriceOf(model);
    (Tokens(inputTokens) * p.inputPerM + Tokens(outputTokens) * p.outputPerM) / 1_000_000
  }

  /** Every rate, the default included, is a whole number of micro-credits per token. */
  lemma RatesAreWhole(model: string)
    ensures PriceOf(model).inputPerM % 1_000_000 == 0
    ensures PriceOf(model).outputPerM % 1_000_000 == 0
  {
    assert forall m | m in PRICING ::
      PRICING[m].inputPerM % 1_000_000 == 0 && PRICING[m].outputPerM % 1_000_000 == 0;
  }

  /**
   * A million tokens cost a listed model's own rate, and any other model's the
   * default; a count below zero is as good as none.
   */
  lemma MillionTokensCostTheRate(model: string, inputTokens: int, outputTokens: int)
    ensures var p := if model in PRICING then PRICING[model] else Price(1_400_000_000, 4_200_000_000);
      && CostMicro(model, 1_000_000, 0) == p.inputPerM
      && CostMicro(model, 0, 1_000_000) == p.outputPerM
    ensures inputTokens <= 0 && outputTokens <= 0 ==> CostMicro(model, inputTokens, outputTokens) == 0
  {
  }

  lemma WholeRates(x: int, y: int, i: int, o: int)
    ensures x * (i * 1_000_000) + y * (o * 1_000_000) == (x * i + y * o) * 1_000_000
  {
    assert x * (i * 1_000_000) == x * i * 1_000_000;
    assert y * (o * 1_000_000) == y * o * 1_000_000;
  }

  lemma WholeCost(x: int, y: int, a: int, b: int)
    requires a % 1_000_000 == 0 && b % 1_000_000 == 0
    ensures (x * a + y * b) / 1_000_000 * 1_000_000 == x * a + y * b
  {
    var i, o := a / 1_000_000, b / 1_000_000;
    assert a == i * 1_000_000 && b == o * 1_000_000;
    WholeRates(x, y, i, o);
  }

  /** The division loses nothing: a cost is linear in the tokens it prices. */
  lemma CostIsExact(model: string, inputTokens: int, outputTokens: int)
    ensures var p := PriceOf(model);
      CostMicro(model, inputTokens, outputTokens) * 1_000_000
        == Tokens(inputTokens) * p.inputPerM + Tokens(outputTokens) * p.outputPerM
  {
    RatesAreWhole(model);
    var p := PriceOf(model);
    WholeCost(Tokens(inputTokens), Tokens(outputTokens), p.inputPerM, p.outputPerM);
  }

  /** Pricing two turns separately or together charges the same. */
  lemma CostIsAdditive(model: string, in1: int, out1: int, in2: int, out2: int)
    ensures CostMicro(model, Tokens(in1) + Tokens(in2), Tokens(out1) + Tokens(out2))
         == CostMicro(model, in1, out1) + CostMicro(model, in2, out2)
  {
    CostIsExact(model, in1, out1);
    CostIsExact(model, in2, out2);
    CostIsExact(model, Tokens(in1) + Tokens(in2), Tokens(out1) + Tokens(out2));
    var p := PriceOf(model);
    assert (Tokens(in1) + Tokens(in2)) * p.inputPerM == Tokens(in1) * p.inputPerM + Tokens(in2) * p.inputPerM;
    assert (Tokens(out1) + Tokens(out2)) * p.outputPerM == Tokens(out1) * p.outputPerM + Tokens(out2) * p.outputPerM;
  }

  // ---- Bucket spend ----

  datatype Bucket = Free | Plan | Bonus

  datatype Buckets = Buckets(free: int, plan: int, bonus: int) {
    function Gross(): int {
      free + plan + bonus
    }

    predicate NonNegative() {
      free >= 0 && plan >= 0 && bonus >= 0
    }

    function Get(k: Bucket): int {
      match k
      case Free => free
      case Plan => plan
      case Bonus => bonus
    }

    function Set(k: Bucket, x: int): Buckets {
      match k
      case Free => this.(free := x)
      case Plan => this.(plan := x)
      case Bonus => this.(bonus := x)
    }
  }

  datatype Spent = Spent(buckets: Buckets, debited: int, remaining: int)

  const SPEND_ORDER := [Free, Plan, Bonus]

  /** Which buckets pay, case by case: free first, then plan, then bonus. */
  function Spend(b: Buckets, amount: int): Spent {
    if amount <= 0 then Spent(b, amount, 0)
    else if amount <= b.free then Spent(b.(free := b.free - amount), amount, 0)
    else if amount <= b.free + b.plan then Spent(Buckets(0, b.free + b.plan - amount, b.bonus), amount, 0)
    else if amount <= b.Gross() then Spent(Buckets(0, 0, b.Gross() - amount), amount, 0)
    else Spent(Buckets(0, 0, 0), b.Gross(), amount - b.Gross())
  }

  /** Every bucket before `key` in SPEND_ORDER is empty. */
  predicate EmptyBefore(b: Buckets, key: Bucket) {
    (key != Free ==> b.free == 0) && (key == Bonus ==> b.plan == 0)
  }

  /** Letting the first bucket with anything in it pay does not change what is left in the end. */
  lemma PayFrom(b: Buckets, want: nat, key: Bucket, take: int, c: Buckets)
    requires b.NonNegative() && want > 0 && EmptyBefore(b, key) && take == Min(b.Get(key), want)
    requires c == b.Set(key, b.Get(key) - take)
    ensures Spend(c, want - take).buckets == Spend(b, want).buckets
  {
    var rest := want - take;
    match key
    case Free => assert c == Buckets(b.free - take, b.plan, b.bonus);
    case Plan => assert c == Buckets(0, b.plan - take, b.bonus);
    case Bonus => assert c == Buckets(0, 0, b.bonus - take);
  }

  lemma SpendConserves(b: Buckets, amount: int)
    requires b.NonNegative()
    ensures Spend(b, amount).debited + Spend(b, amount).remaining == amount
    ensures Spend(b, amount).buckets.Gross() + Max(0, amount) == b.Gross() + Spend(b, amount).remaining
  {
  }

  /** The loop before bucket `i`: `out` is left and `remaining` still to be paid of `amount`. */
  ghost predicate Paying(b: Buckets, amount: int, out: Buckets, remaining: int, i: nat) {
    && i <= 3
    && out.Gross() + Max(0, amount) == b.Gross() + remaining
    && (b.NonNegative() ==>
          && out.NonNegative() && remaining >= 0
          && (remaining > 0 ==> if i < 3 then EmptyBefore(out, SPEND_ORDER[i]) else out == Buckets(0, 0, 0))
          && Spend(out, remaining).buckets == Spend(b, amount).buckets)
  }

  lemma PayingGoesOn(b: Buckets, amount: int, out: Buckets, remaining: int, i: nat, key: Bucket, take: int,
                     next: Buckets)
    requires Paying(b, amount, out, remaining, i) && i < 3 && remaining > 0 && key == SPEND_ORDER[i]
    requires take == Min(out.Get(key), remaining) && next == out.Set(key, out.Get(key) - take)
    ensures Paying(b, amount, next, remaining - take, i + 1)
  {
    if b.NonNegative() {
      PayFrom(out, remaining, key, take, next);
    }
  }

  lemma ConservingAlike(b: Buckets, amount: int, s: Spent, all: Spent)
    requires s.buckets == all.buckets
    requires s.debited + s.remaining == amount && s.buckets.Gross() + Max(0, amount) == b.Gross() + s.remaining
    requires all.debited + all.remaining == amount && all.buckets.Gross() + Max(0, amount) == b.Gross() + all.remaining
    ensures s == all
  {
  }

  lemma NothingMoreToPay(b: Buckets, want: int)
    requires want <= 0 || b == Buckets(0, 0, 0)
    ensures Spend(b, want).buckets == b
  {
  }

  lemma PaidUp(b: Buckets, amount: int, s: Spent, i: nat)
    requires Paying(b, amount, s.buckets, s.remaining, i) && (i == 3 || s.remaining <= 0) && b.NonNegative()
    requires s.debited + s.remaining == amount
    ensures s == Spend(b, amount)
  {
    NothingMoreToPay(s.buckets, s.remaining);
    SpendConserves(b, amount);
    ConservingAlike(b, amount, s, Spend(b, amount));
  }

  /** The loop of the source, over the buckets from the first to expire to the last. */
  method SpendBuckets(b: Buckets, amount: int) returns (s: Spent)
    ensures b.NonNegative() ==> s == Spend(b, amount)
    ensures s.debited + s.remaining == amount
    ensures s.buckets.Gross() + Max(0, amount) == b.Gross() + s.remaining
  {
    var remaining := if amount < 0 then 0 else amount;
    var out := b;
    var i := 0;
    while i < |SPEND_ORDER| && remaining > 0
      invariant 0 <= i && Paying(b, amount, out, remaining, i)
    {
      var key := SPEND_ORDER[i];
      var take := if out.Get(key) < remaining then out.Get(key) else remaining;
      PayingGoesOn(b, amount, out, remaining, i, key, take, out.Set(key, out.Get(key) - take));
      out := out.Set(key, out.Get(key) - take);
      remaining := remaining - take;
      i := i + 1;
    }
    s := Spent(out, amount - remaining, remaining);
    if b.NonNegative() {
      PaidUp(b, amount, s, i);
    }
  }

  /**
   * What a spend means for a caller: it takes as much as there is and no more,
   * never overdraws a bucket, and touches a bucket only once every cheaper one
   * is empty.
   */
  lemma SpendMeaning(b: Buckets, amount: nat)
    requires b.NonNegative()
    ensures var s := Spend(b, amount);
      && s.buckets.NonNegative()
      && s.debited == Min(amount, b.Gross())
      && s.debited + s.remaining == amount
      && s.buckets.Gross() == b.Gross() - s.debited
      && (s.buckets.plan != b.plan ==> s.buckets.free == 0)
      && (s.buckets.bonus != b.bonus ==> s.buckets.free == 0 && s.buckets.plan == 0)
      && (s.remaining > 0 ==> s.buckets == Buckets(0, 0, 0))
  {
  }

  /** Spending `x` and then `y` leaves what spending both at once leaves. */
  lemma SpendTwice(b: Buckets, x: nat, y: nat)
    requires b.NonNegative()
    ensures Spend(b, x).buckets.NonNegative()
    ensures Spend(Spend(b, x).buckets, y).buckets == Spend(b, x + y).buckets
    ensures Spend(b, x).debited + Spend(Spend(b, x).buckets, y).debited == Spend(b, x + y).debited
  {
  }

  function Sum(amounts: seq<nat>): nat {
    if amounts == [] then 0 else Sum(amounts[..|amounts| - 1]) + amounts[|amounts| - 1]
  }

  /** Spending each amount in turn: the buckets left, and everything that was debited. */
  function SpendEach(b: Buckets, amounts: seq<nat>): (Buckets, int)
    decreases |amounts|
  {
    if amounts == [] then (b, 0)
    else
      var before := SpendEach(b, amounts[..|amounts| - 1]);
      var s := Spend(before.0, amounts[|amounts| - 1]);
      (s.buckets, before.1 + s.debited)
  }

  /** The same of what is left and taken by spends made one by one. */
  lemma SpendOneMore(b: Buckets, spent: nat, amount: nat, total: nat, before: Spent, next: Spent, all: Spent)
    requires b.NonNegative() && total == spent + amount
    requires before == Spend(b, spent) && next == Spend(before.buckets, amount) && all == Spend(b, total)
    ensures next.buckets == all.buckets && before.debited + next.debited == all.debited
  {
    SpendTwice(b, spent, amount);
    assert Spend(b, spent + amount) == all;
  }

  lemma {:induction false} SpendEachMore(b: Buckets, amounts: seq<nat>, before: Spent, next: Spent)
    requires amounts != []
    requires SpendEach(b, amounts[..|amounts| - 1]).0 == before.buckets
    requires SpendEach(b, amounts[..|amounts| - 1]).1 == before.debited
    requires next == Spend(before.buckets, amounts[|amounts| - 1])
    ensures SpendEach(b, amounts).0 == next.buckets && SpendEach(b, amounts).1 == before.debited + next.debited
  {
  }

  lemma {:induction false} SpendEachIsSpend(b: Buckets, amounts: seq<nat>)
    requires b.NonNegative()
    ensures SpendEach(b, amounts).0 == Spend(b, Sum(amounts)).buckets
    ensures SpendEach(b, amounts).1 == Spend(b, Sum(amounts)).debited
    decreases |amounts|
  {
    if amounts == [] {
    } else {
      var n := |amounts| - 1;
      SpendEachIsSpend(b, amounts[..n]);
      var before := Spend(b, Sum(amounts[..n]));
      var next := Spend(before.buckets, amounts[n]);
      SpendEachMore(b, amounts, before, next);
      SpendOneMore(b, Sum(amounts[..n]), amounts[n], Sum(amounts), before, next, Spend(b, Sum(amounts)));
    }
  }

  lemma DebitIsMinimum(b: Buckets, amount: nat)
    requires b.NonNegative()
    ensures Spend(b, amount).debited == Min(b.Gross(), amount)
  {
  }

  /** However a bill is split up, it leaves the same buckets and takes the same total. */
  lemma {:induction false} SplittingABillChangesNothing(b: Buckets, amounts: seq<nat>)
    requires b.NonNegative()
    ensures SpendEach(b, amounts) == (Spend(b, Sum(amounts)).buckets, Min(b.Gross(), Sum(amounts)))
  {
    SpendEachIsSpend(b, amounts);
    DebitIsMinimum(b, Sum(amounts));
  }

  lemma {:induction false} SumSplit(xs: seq<nat>, i: nat)
    requires i < |xs|
    ensures Sum(xs) == xs[i] + Sum(xs[..i] + xs[i + 1..])
  {
    var n := |xs| - 1;
    var rest := xs[..i] + xs[i + 1..];
    if i == n {
      assert rest == xs[..n];
    } else {
      SumSplit(xs[..n], i);
      assert rest[..|rest| - 1] == xs[..n][..i] + xs[..n][i + 1..];
      assert rest[|rest| - 1] == xs[n];
    }
  }

  lemma {:induction false} SumIgnoresOrder(xs: seq<nat>, ys: seq<nat>)
    requires multiset(xs) == multiset(ys)
    ensures Sum(xs) == Sum(ys)
  {
    if xs == [] {
      assert |multiset(ys)| == 0;
    } else {
      var n := |xs| - 1;
      assert xs[n] in multiset(ys);
      var i :| 0 <= i < |ys| && ys[i] == xs[n];
      SumSplit(ys, i);
      WithoutOne(xs, n);
      WithoutOne(ys, i);
      assert xs[..n] + xs[n + 1..] == xs[..n];
      SumIgnoresOrder(xs[..n], ys[..i] + ys[i + 1..]);
    }
  }

  lemma WithoutOne(xs: seq<nat>, i: nat)
    requires i < |xs|
    ensures multiset(xs[..i] + xs[i + 1..]) == multiset(xs) - multiset{xs[i]}
  {
    assert xs == xs[..i] + [xs[i]] + xs[i + 1..];
  }

  /** The order in which amounts are spent does not matter. */
  lemma {:induction false} SpendingOrderIsIrrelevant(b: Buckets, xs: seq<nat>, ys: seq<nat>)
    requires b.NonNegative() && multiset(xs) == multiset(ys)
    ensures SpendEach(b, xs) == SpendEach(b, ys)
  {
    SumIgnoresOrder(xs, ys);
    SplittingABillChangesNothing(b, xs);
    SplittingABillChangesNothing(b, ys);
  }
}
