/** The three split strategies: (total, participants, options) to one share per
    participant. Amounts are integer cents; percentages are integer hundredths
    of a percent, so `WholePercent` (10000) stands for 100%. */
module SplitStrategy {
  import opened Wrappers
  import opened Money

  datatype Split = Split(userId: int, amount: int)

  datatype SplitType = EQUAL | EXACT | PERCENT

  /** The caller's `options` object; a missing object has both fields absent. */
  datatype SplitOptions = SplitOptions(amounts: Option<seq<int>>, percentages: Option<seq<int>>)

  const NoOptions: SplitOptions := SplitOptions(None, None)

  const WholePercent: int := 10000

  /** `getType()` of each strategy. */
  function TypeName(t: SplitType): string
  {
    match t
    case EQUAL => "EQUAL"
    case EXACT => "EXACT"
    case PERCENT => "PERCENT"
  }

  /** Left-to-right sum of the shares, as `reduce` adds them. */
  function Total(s: seq<Split>): int
  {
    if s == [] then 0 else Total(s[..|s| - 1]) + s[|s| - 1].amount
  }

  // ---------------------------------------------------------------- EQUAL

  /** What the EQUAL strategy returns: every participant gets the rounded
      quotient, and the first one additionally absorbs the rounding residue. */
  function EqualShares(amount: int, userIds: seq<int>): (r: seq<Split>)
    ensures |r| == |userIds|
    ensures forall i :: 0 <= i < |r| ==> r[i].userId == userIds[i]
  {
    if |userIds| == 0 then []
    else
      var n := |userIds|;
      var q := RoundDiv(amount, n);
      seq(n, i requires 0 <= i < n => Split(userIds[i], if i == 0 then amount - (n - 1) * q else q))
  }

  /** `EqualSplitStrategy.calculateSplits`: map every participant to the rounded
      quotient, add the shares up, and if they miss the total put the
      difference on the first share, in place. */
  method EqualSplit(amount: int, userIds: seq<int>) returns (splits: seq<Split>)
    ensures splits == EqualShares(amount, userIds)
  {
    if |userIds| == 0 {
      return [];
    }
    var n := |userIds|;
    var splitAmount := RoundDiv(amount, n);
    var a := new Split[n](i requires 0 <= i < n => Split(userIds[i], splitAmount));
    var totalSplit := 0;
    var k := 0;
    while k < n
      invariant 0 <= k <= n
      invariant totalSplit == Total(a[..k])
    {
      assert a[..k + 1][..k] == a[..k];
      totalSplit := totalSplit + a[k].amount;
      k := k + 1;
    }
    assert a[..n] == a[..];
    TotalUniform(a[..], splitAmount);
    assert amount - (n - 1) * splitAmount == splitAmount + (amount - totalSplit);
    if totalSplit != amount {
      var diff := amount - totalSplit;
      a[0] := a[0].(amount := a[0].amount + diff);
    }
    splits := a[..];
    ghost var r := EqualShares(amount, userIds);
    assert forall i :: 0 <= i < n ==> splits[i] == r[i];
  }

  lemma {:induction false} TotalUniform(s: seq<Split>, q: int)
    requires forall i :: 0 <= i < |s| ==> s[i].amount == q
    ensures Total(s) == |s| * q
  {
    if s != [] {
      TotalUniform(s[..|s| - 1], q);
    }
  }

  lemma {:induction false} TotalCons(x: Split, s: seq<Split>)
    ensures Total([x] + s) == x.amount + Total(s)
  {
    if s != [] {
      assert ([x] + s)[..|s|] == [x] + s[..|s| - 1];
      TotalCons(x, s[..|s| - 1]);
    }
  }

  /** The EQUAL shares add up to exactly the expense amount. */
  lemma EqualSharesSum(amount: int, userIds: seq<int>)
    requires |userIds| > 0
    ensures Total(EqualShares(amount, userIds)) == amount
  {
    var r := EqualShares(amount, userIds);
    var n := |userIds|;
    var q := RoundDiv(amount, n);
    assert r == [r[0]] + r[1..];
    TotalCons(r[0], r[1..]);
    TotalUniform(r[1..], q);
  }

  /** Every share after the first is the total divided by the participant
      count, rounded to the cent; the first differs from it by the residue,
      which is at most half a cent per participant. */
  lemma EqualSharesRounding(amount: int, userIds: seq<int>)
    requires |userIds| > 0
    ensures var r := EqualShares(amount, userIds);
            var q := RoundDiv(amount, |userIds|);
            && (forall i :: 1 <= i < |r| ==> r[i].amount == q)
            && r[0].amount - q == amount - |userIds| * q
            && -|userIds| <= 2 * (r[0].amount - q) <= |userIds|
  {
  }

  /** The first share is not guaranteed non-negative: 0.02 split four ways
      gives -0.01, 0.01, 0.01, 0.01. */
  lemma EqualFirstShareCanBeNegative()
    ensures EqualShares(2, [1, 2, 3, 4]) == [Split(1, -1), Split(2, 1), Split(3, 1), Split(4, 1)]
  {
    assert RoundDiv(2, 4) == 1;
  }

  /** The residue goes to the first participant: 100.00 over three people is
      33.34, 33.33, 33.33. */
  lemma EqualHundredOverThree()
    ensures EqualShares(10000, [7, 8, 9]) == [Split(7, 3334), Split(8, 3333), Split(9, 3333)]
  {
    assert RoundDiv(10000, 3) == 3333;
  }

  // ---------------------------------------------------------------- EXACT

  /** Pairs each participant with the amount at the same position. */
  function Zip(userIds: seq<int>, amounts: seq<int>): (r: seq<Split>)
    requires |userIds| == |amounts|
    ensures |r| == |userIds|
    ensures forall i :: 0 <= i < |r| ==> r[i] == Split(userIds[i], amounts[i])
    ensures Total(r) == SumInts(amounts)
  {
    if userIds == [] then []
    else
      var n := |userIds| - 1;
      var r := Zip(userIds[..n], amounts[..n]) + [Split(userIds[n], amounts[n])];
      assert r[..n] == Zip(userIds[..n], amounts[..n]);
      r
  }

  /** `ExactSplitStrategy.calculateSplits`: the caller's amounts, one per
      participant, which must add up to the total. */
  function ExactShares(amount: int, userIds: seq<int>, options: SplitOptions): (r: Result<seq<Split>>)
    ensures r.Ok? <==> options.amounts.Some? && |options.amounts.value| == |userIds|
                       && SumInts(options.amounts.value) == amount
    ensures r.Err? ==> r.message == (if options.amounts.None? || |options.amounts.value| != |userIds|
                                     then "Invalid split amounts provided"
                                     else "Split amounts do not sum up to total amount")
    ensures r.Ok? ==> |r.value| == |userIds| && Total(r.value) == amount
                      && forall i :: 0 <= i < |userIds| ==> r.value[i] == Split(userIds[i], options.amounts.value[i])
  {
    if options.amounts.None? || |options.amounts.value| != |userIds| then
      Err("Invalid split amounts provided")
    else if SumInts(options.amounts.value) != amount then
      Err("Split amounts do not sum up to total amount")
    else
      Ok(Zip(userIds, options.amounts.value))
  }

  // ---------------------------------------------------------------- PERCENT

  /** Share i is `amount * p[i] / 100` rounded to the cent, each computed on
      its own; no residue is moved. Every share is within half a cent of its
      exact value. */
  function PercentOf(amount: int, userIds: seq<int>, percentages: seq<int>): (r: seq<Split>)
    requires |userIds| == |percentages|
    ensures |r| == |userIds|
    ensures forall i :: 0 <= i < |r| ==> r[i].userId == userIds[i]
    ensures forall i :: 0 <= i < |r| ==>
              -WholePercent <= 2 * (WholePercent * r[i].amount - amount * percentages[i]) <= WholePercent
  {
    seq(|userIds|, i requires 0 <= i < |userIds| => Split(userIds[i], RoundDiv(amount * percentages[i], WholePercent)))
  }

  /** `PercentSplitStrategy.calculateSplits`. */
  function PercentShares(amount: int, userIds: seq<int>, options: SplitOptions): (r: Result<seq<Split>>)
    ensures r.Ok? <==> options.percentages.Some? && |options.percentages.value| == |userIds|
                       && SumInts(options.percentages.value) == WholePercent
    ensures r.Err? ==> r.message == (if options.percentages.None? || |options.percentages.value| != |userIds|
                                     then "Invalid split percentages provided"
                                     else "Split percentages do not sum up to 100")
    ensures r.Ok? ==> |r.value| == |userIds|
                      && forall i :: 0 <= i < |userIds| ==>
                           r.value[i] == Split(userIds[i], RoundDiv(amount * options.percentages.value[i], WholePercent))
  {
    if options.percentages.None? || |options.percentages.value| != |userIds| then
      Err("Invalid split percentages provided")
    else if SumInts(options.percentages.value) != WholePercent then
      Err("Split percentages do not sum up to 100")
    else
      Ok(PercentOf(amount, userIds, options.percentages.value))
  }

  /** Each rounded share is within half a cent of its exact value, so over n
      participants the PERCENT shares miss the total by at most n/2 cents. */
  lemma PercentSharesNearTotal(amount: int, userIds: seq<int>, options: SplitOptions)
    requires PercentShares(amount, userIds, options).Ok?
    ensures var t := Total(PercentShares(amount, userIds, options).value);
            -|userIds| <= 2 * (t - amount) <= |userIds|
  {
    var p := options.percentages.value;
    var r := PercentOf(amount, userIds, p);
    RoundedSumError(amount, r, p);
    assert amount * SumInts(p) == amount * WholePercent;
  }

  /** Summing per-share rounding errors of at most half a cent each. */
  lemma {:induction false} RoundedSumError(amount: int, s: seq<Split>, p: seq<int>)
    requires |s| == |p|
    requires forall i :: 0 <= i < |s| ==>
               -WholePercent <= 2 * (WholePercent * s[i].amount - amount * p[i]) <= WholePercent
    ensures -WholePercent * |s| <= 2 * (WholePercent * Total(s) - amount * SumInts(p)) <= WholePercent * |s|
  {
    if s != [] {
      var n := |s| - 1;
      RoundedSumError(amount, s[..n], p[..n]);
      assert amount * SumInts(p) == amount * SumInts(p[..n]) + amount * p[n];
    }
  }

  /** The PERCENT shares need not add up to the total: 0.01 split 50/50 gives
      0.01 to each. */
  lemma PercentSumCanMiss()
    ensures var r := PercentShares(1, [1, 2], SplitOptions(None, Some([5000, 5000])));
            r.Ok? && r.value == [Split(1, 1), Split(2, 1)] && Total(r.value) == 2
  {
    assert SumInts([5000, 5000]) == 10000;
    assert RoundDiv(1 * 5000, WholePercent) == 1;
    var r := PercentShares(1, [1, 2], SplitOptions(None, Some([5000, 5000])));
    assert r.value == [Split(1, 1), Split(2, 1)];
    assert Total(r.value) == Total([Split(1, 1)]) + 1;
  }

  // ---------------------------------------------------------------- dispatch

  /** `strategy.calculateSplits(amount, userIds, options)` for the strategy of
      the given type. */
  function CalculateSplits(t: SplitType, amount: int, userIds: seq<int>, options: SplitOptions): Result<seq<Split>>
  {
    match t
    case EQUAL => Ok(EqualShares(amount, userIds))
    case EXACT => ExactShares(amount, userIds, options)
    case PERCENT => PercentShares(amount, userIds, options)
  }
}
