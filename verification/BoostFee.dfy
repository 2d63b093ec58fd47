/**
 The boost fee estimate (packages/swap/src/utils/boost.ts): the amount is taken from the boost pools in the
 order they come, then from the supply pools, and the fee of each part is rounded down.
 */
module BoostFee {
  import opened Prelude

  const ONE_IN_PIP := 10_000
  const SUPPLY_POOL_BOOST_FEE_BPS := 5
  const FIRST_VERSION_WITH_SUPPLY_POOLS := 20_200

  /** A supply pool's amount is what it can effectively lend. */
  datatype Pool = Boost(tier: nat, available: nat) | Supply(available: nat)

  function Rate(p: Pool): nat { if p.Boost? then p.tier else SUPPLY_POOL_BOOST_FEE_BPS }

  function PipAmount(amount: nat, pips: nat): nat { amount * pips / ONE_IN_PIP }

  function Total(pools: seq<Pool>): nat { if |pools| == 0 then 0 else pools[0].available + Total(pools[1..]) }

  function Sum(parts: seq<nat>): nat { if |parts| == 0 then 0 else parts[0] + Sum(parts[1..]) }

  // ---------- The specification ----------

  /** How much each pool lends: as much as it can of what is left. */
  function Fill(pools: seq<Pool>, amount: nat): (parts: seq<nat>)
    ensures |parts| == |pools|
  {
    if |pools| == 0 then []
    else
      var part := Min(amount, pools[0].available);
      [part] + Fill(pools[1..], amount - part)
  }

  function Fee(pools: seq<Pool>, parts: seq<nat>): nat
    requires |parts| == |pools|
  {
    if |pools| == 0 then 0 else PipAmount(parts[0], Rate(pools[0])) + Fee(pools[1..], parts[1..])
  }

  /** The fee before any rounding, in units of a ten-thousandth. */
  function Cost(pools: seq<Pool>, parts: seq<nat>): nat
    requires |parts| == |pools|
  {
    if |pools| == 0 then 0 else parts[0] * Rate(pools[0]) + Cost(pools[1..], parts[1..])
  }

  function MaxTier(pools: seq<Pool>): nat { if |pools| == 0 then 0 else Max(Rate(pools[0]), MaxTier(pools[1..])) }

  ghost predicate Feasible(pools: seq<Pool>, parts: seq<nat>, amount: nat) {
    && |parts| == |pools| && Sum(parts) == amount
    && forall i :: 0 <= i < |parts| ==> parts[i] <= pools[i].available
  }

  // ---------- The method ----------

  /** The pools considered: supply pools only from the version that has them. */
  function Considered(version: nat, boost: seq<Pool>, supply: seq<Pool>): seq<Pool> {
    boost + if version >= FIRST_VERSION_WITH_SUPPLY_POOLS then supply else []
  }

  ghost predicate Kinds(boost: seq<Pool>, supply: seq<Pool>) {
    (forall p :: p in boost ==> p.Boost?) && (forall p :: p in supply ==> p.Supply?)
  }

  /** The loop over the pools, which stops when nothing remains. */
  method TakeFromPools(pools: seq<Pool>, amount: nat) returns (remaining: nat, fee: nat)
    ensures remaining == amount - Min(amount, Total(pools)) && fee == Fee(pools, Fill(pools, amount))
  {
    remaining, fee := amount, 0;
    var i := 0;
    while i < |pools|
      invariant 0 <= i <= |pools|
      invariant fee + Fee(pools[i..], Fill(pools[i..], remaining)) == Fee(pools, Fill(pools, amount))
      invariant remaining - Sum(Fill(pools[i..], remaining)) == amount - Sum(Fill(pools, amount))
    {
      var used := Min(remaining, pools[i].available);
      FillSplits(pools[i..], remaining);
      assert pools[i..][1..] == pools[i + 1..];
      fee := fee + PipAmount(used, Rate(pools[i]));
      remaining := remaining - used;
      i := i + 1;
      if remaining == 0 {
        FillNothing(pools[i..]);
        break;
      }
    }
    assert Sum(Fill(pools[i..], remaining)) == 0 && Fee(pools[i..], Fill(pools[i..], remaining)) == 0;
    FillReaches(pools, amount);
  }

  method GetBoostFeeBpsForAmount(amount: nat, bitcoin: bool, version: nat, boost: seq<Pool>, supply: seq<Pool>)
      returns (estimated: Option<nat>, maxBoostFeeBps: nat)
    requires Kinds(boost, supply)
    ensures !bitcoin || amount == 0 ==> estimated == None && maxBoostFeeBps == 0
    ensures bitcoin && amount > 0 ==> IsEstimate(Considered(version, boost, supply), amount, estimated, maxBoostFeeBps)
  {
    if !bitcoin || amount == 0 { return None, 0; }
    var supplyPools := if version >= FIRST_VERSION_WITH_SUPPLY_POOLS then supply else [];
    maxBoostFeeBps := Max(MaxTier(boost), if |supplyPools| > 0 then SUPPLY_POOL_BOOST_FEE_BPS else 0);
    MaxTierOfKinds(boost, supplyPools);
    var pools := boost + supplyPools;
    var remaining, fee := TakeFromPools(pools, amount);
    if remaining > 0 { return None, maxBoostFeeBps; }
    FillReaches(pools, amount);
    FeeIsWithinMaximum(pools, Fill(pools, amount), amount);
    return Some(Max(5, fee * ONE_IN_PIP / amount)), maxBoostFeeBps;
  }

  /**
   There is an estimate exactly when the pools can cover the amount together; it is the fee of a fill that
   adds up to the amount, as a rate, and lies between 5 and the highest rate (or 5).
   */
  ghost predicate IsEstimate(pools: seq<Pool>, amount: nat, estimated: Option<nat>, most: nat)
    requires amount > 0
  {
    && most == MaxTier(pools) && (estimated.Some? <==> Total(pools) >= amount)
    && (estimated.Some? ==>
          && Feasible(pools, Fill(pools, amount), amount)
          && estimated.value == Max(5, Fee(pools, Fill(pools, amount)) * 10_000 / amount)
          && 5 <= estimated.value <= Max(5, most))
  }

  lemma FillSplits(pools: seq<Pool>, amount: nat)
    requires |pools| > 0
    ensures var part := Min(amount, pools[0].available);
            && Fill(pools, amount)[0] == part && Fill(pools, amount)[1..] == Fill(pools[1..], amount - part)
  {
  }

  lemma {:induction false} FillNothing(pools: seq<Pool>)
    ensures Sum(Fill(pools, 0)) == 0 && Fee(pools, Fill(pools, 0)) == 0 && Cost(pools, Fill(pools, 0)) == 0
  {
    if |pools| > 0 {
      FillSplits(pools, 0);
      FillNothing(pools[1..]);
    }
  }

  /** The fill takes everything when the pools together have enough, and all they have otherwise. */
  lemma {:induction false} FillReaches(pools: seq<Pool>, amount: nat)
    ensures Sum(Fill(pools, amount)) == Min(amount, Total(pools))
    ensures Feasible(pools, Fill(pools, amount), Min(amount, Total(pools)))
  {
    if |pools| > 0 {
      FillSplits(pools, amount);
      FillReaches(pools[1..], amount - Min(amount, pools[0].available));
    }
  }

  lemma {:induction false} MaxTierOfKinds(boost: seq<Pool>, supply: seq<Pool>)
    requires Kinds(boost, supply)
    ensures MaxTier(boost + supply) == Max(MaxTier(boost), if |supply| > 0 then SUPPLY_POOL_BOOST_FEE_BPS else 0)
  {
    if |boost| > 0 {
      assert (boost + supply)[1..] == boost[1..] + supply;
      MaxTierOfKinds(boost[1..], supply);
    } else if |supply| > 0 {
      assert boost + supply == supply && supply[0] in supply;
      assert forall p :: p in supply[1..] ==> p in supply;
      MaxTierOfKinds([], supply[1..]);
      assert [] + supply[1..] == supply[1..];
    }
  }

  lemma {:induction false} MaxTierBounds(pools: seq<Pool>, i: nat)
    requires i < |pools|
    ensures Rate(pools[i]) <= MaxTier(pools)
  {
    if i > 0 { MaxTierBounds(pools[1..], i - 1); }
  }

  lemma {:induction false} MaxTierIsAttained(pools: seq<Pool>)
    ensures MaxTier(pools) == 0 || exists i :: 0 <= i < |pools| && Rate(pools[i]) == MaxTier(pools)
  {
    if |pools| > 0 {
      MaxTierIsAttained(pools[1..]);
      if i :| 0 <= i < |pools[1..]| && Rate(pools[1..][i]) == MaxTier(pools[1..]) { assert pools[i + 1] == pools[1..][i]; }
      assert Rate(pools[0]) == MaxTier(pools) || MaxTier(pools[1..]) == MaxTier(pools);
    }
  }

  // ---------- Rounding ----------

  lemma PipBounds(amount: nat, pips: nat)
    ensures PipAmount(amount, pips) * ONE_IN_PIP <= amount * pips < (PipAmount(amount, pips) + 1) * ONE_IN_PIP
  {
  }

  /** Rounding down loses less than one unit for each pool. */
  lemma {:induction false} RoundingLosesLessThanOnePerPool(pools: seq<Pool>, parts: seq<nat>)
    requires |parts| == |pools|
    ensures Fee(pools, parts) * ONE_IN_PIP <= Cost(pools, parts) <= (Fee(pools, parts) + |pools|) * ONE_IN_PIP
    ensures |pools| > 0 ==> Cost(pools, parts) < (Fee(pools, parts) + |pools|) * ONE_IN_PIP
  {
    if |pools| > 0 {
      PipBounds(parts[0], Rate(pools[0]));
      RoundingLosesLessThanOnePerPool(pools[1..], parts[1..]);
    }
  }

  /** What the parts from boost pools cost by their tiers. */
  function TierSum(boost: seq<Pool>, parts: seq<nat>): nat
    requires |parts| == |boost|
  {
    if |boost| == 0 then 0
    else (if boost[0].Boost? then boost[0].tier * parts[0] else 0) + TierSum(boost[1..], parts[1..])
  }

  lemma {:induction false} SupplyCosts(supply: seq<Pool>, parts: seq<nat>)
    requires |parts| == |supply| && forall p :: p in supply ==> p.Supply?
    ensures Cost(supply, parts) == 5 * Sum(parts)
  {
    if |supply| > 0 {
      assert supply[0] in supply && forall p :: p in supply[1..] ==> p in supply;
      SupplyCosts(supply[1..], parts[1..]);
    }
  }

  lemma {:induction false} BoostCosts(boost: seq<Pool>, parts: seq<nat>)
    requires |parts| == |boost| && forall p :: p in boost ==> p.Boost?
    ensures Cost(boost, parts) == TierSum(boost, parts)
  {
    if |boost| > 0 {
      assert boost[0] in boost && forall p :: p in boost[1..] ==> p in boost;
      BoostCosts(boost[1..], parts[1..]);
    }
  }

  lemma {:induction false} CostsAdd(first: seq<Pool>, second: seq<Pool>, p: seq<nat>, q: seq<nat>)
    requires |p| == |first| && |q| == |second|
    ensures Cost(first + second, p + q) == Cost(first, p) + Cost(second, q)
  {
    if |first| == 0 {
      assert first + second == second && p + q == q;
    } else {
      assert (first + second)[1..] == first[1..] + second && (p + q)[1..] == p[1..] + q;
      CostsAdd(first[1..], second, p[1..], q);
    }
  }

  /**
   MAIN RESULT. The fee is the tiers of the boost pools, and five basis points for supply pools, weighted with the
   parts taken, less than one unit a pool below the exact amount.
   */
  lemma FeeIsWeighted(boost: seq<Pool>, supply: seq<Pool>, parts: seq<nat>)
    requires Kinds(boost, supply) && |parts| == |boost| + |supply|
    ensures var fee := Fee(boost + supply, parts); var exact := TierSum(boost, parts[..|boost|]) + 5 * Sum(parts[|boost|..]);
            fee * 10_000 <= exact <= (fee + |parts|) * 10_000 && (|parts| > 0 ==> exact < (fee + |parts|) * 10_000)
  {
    RoundingLosesLessThanOnePerPool(boost + supply, parts);
    assert parts == parts[..|boost|] + parts[|boost|..];
    CostsAdd(boost, supply, parts[..|boost|], parts[|boost|..]);
    BoostCosts(boost, parts[..|boost|]);
    SupplyCosts(supply, parts[|boost|..]);
  }

  lemma {:induction false} CostIsWithin(pools: seq<Pool>, parts: seq<nat>, most: nat)
    requires |parts| == |pools| && MaxTier(pools) <= most
    ensures Cost(pools, parts) <= Sum(parts) * most
  {
    if |pools| > 0 {
      CostIsWithin(pools[1..], parts[1..], most);
      MultiplyLe(Rate(pools[0]), most, parts[0]);
      assert (parts[0] + Sum(parts[1..])) * most == parts[0] * most + Sum(parts[1..]) * most;
    }
  }

  /** The estimate never exceeds the highest rate of any pool, although every part was rounded on its own. */
  lemma FeeIsWithinMaximum(pools: seq<Pool>, parts: seq<nat>, amount: nat)
    requires amount > 0 && Feasible(pools, parts, amount)
    ensures Fee(pools, parts) * ONE_IN_PIP / amount <= MaxTier(pools)
  {
    RoundingLosesLessThanOnePerPool(pools, parts);
    CostIsWithin(pools, parts, MaxTier(pools));
    DivideLe(Fee(pools, parts) * ONE_IN_PIP, amount, MaxTier(pools));
  }

  lemma DivideLe(n: nat, d: nat, q: nat)
    requires d > 0 && n <= d * q
    ensures n / d <= q
  {
    var k := n / d;
    assert d * k <= n;
    if k >= q + 1 { MultiplyLe(q + 1, k, d); }
  }

  // ---------- Is it the cheapest way to fill? ----------

  /** Later pools are no cheaper than earlier ones, leaving out those that are empty. */
  ghost predicate Ascending(pools: seq<Pool>) {
    forall i, j :: 0 <= i < j < |pools| && pools[i].available > 0 && pools[j].available > 0 ==> Rate(pools[i]) <= Rate(pools[j])
  }

  ghost predicate CheapestFor(pools: seq<Pool>, amount: nat, parts: seq<nat>)
    requires |parts| == |pools|
  {
    Cost(pools, Fill(pools, amount)) <= Cost(pools, parts)
  }

  ghost predicate AlwaysCheapest(pools: seq<Pool>) {
    forall amount: nat, parts: seq<nat> :: Feasible(pools, parts, amount) ==> CheapestFor(pools, amount, parts)
  }

  ghost predicate RatesAtLeast(pools: seq<Pool>, rate: nat) {
    forall i :: 0 <= i < |pools| && pools[i].available > 0 ==> rate <= Rate(pools[i])
  }

  lemma RatesOfRest(pools: seq<Pool>, rate: nat)
    requires |pools| > 0 && RatesAtLeast(pools, rate)
    ensures RatesAtLeast(pools[1..], rate) && (pools[0].available > 0 ==> rate <= Rate(pools[0]))
  {
    assert forall i :: 0 <= i < |pools[1..]| ==> pools[1..][i] == pools[i + 1];
  }

  /** Filling more costs at least the lowest rate for the difference. */
  lemma {:induction false} MoreCostsMore(pools: seq<Pool>, amount: nat, more: nat, rate: nat)
    requires amount + more <= Total(pools)
    requires RatesAtLeast(pools, rate)
    ensures Cost(pools, Fill(pools, amount)) + more * rate <= Cost(pools, Fill(pools, amount + more))
  {
    if |pools| > 0 {
      var a := pools[0].available;
      var low, high := Min(amount, a), Min(amount + more, a);
      var rest := more - (high - low);
      RatesOfRest(pools, rate);
      MoreCostsMore(pools[1..], amount - low, rest, rate);
      CostOfFill(pools, amount);
      CostOfFill(pools, amount + more);
      CombineCosts(low, high, Rate(pools[0]), rate, rest, Cost(pools[1..], Fill(pools[1..], amount - low)),
                   Cost(pools[1..], Fill(pools[1..], amount + more - high)));
    }
  }

  lemma CostOfFill(pools: seq<Pool>, amount: nat)
    requires |pools| > 0
    ensures var part := Min(amount, pools[0].available);
            Cost(pools, Fill(pools, amount)) == part * Rate(pools[0]) + Cost(pools[1..], Fill(pools[1..], amount - part))
  {
    FillSplits(pools, amount);
  }

  lemma CombineCosts(low: nat, high: nat, r: nat, rate: nat, rest: nat, small: nat, large: nat)
    requires low <= high && (low < high ==> rate <= r) && small + rest * rate <= large
    ensures low * r + small + (high - low + rest) * rate <= high * r + large
  {
    var d := high - low;
    assert high * r == low * r + d * r;
    assert (d + rest) * rate == d * rate + rest * rate;
    if d > 0 { MultiplyLe(rate, r, d); }
  }

  lemma TailOf(pools: seq<Pool>, parts: seq<nat>, amount: nat)
    requires |pools| > 0 && Ascending(pools) && Feasible(pools, parts, amount)
    ensures Ascending(pools[1..]) && parts[0] <= Min(amount, pools[0].available)
    ensures Feasible(pools[1..], parts[1..], amount - parts[0])
    ensures pools[0].available > 0 ==> RatesAtLeast(pools[1..], Rate(pools[0]))
  {
    assert forall i :: 0 <= i < |pools[1..]| ==> pools[1..][i] == pools[i + 1];
    assert forall i :: 0 <= i < |pools[1..]| ==> parts[1..][i] == parts[i + 1];
  }

  lemma {:induction false} AscendingIsCheapest(pools: seq<Pool>, amount: nat, parts: seq<nat>)
    requires Ascending(pools) && Feasible(pools, parts, amount)
    ensures CheapestFor(pools, amount, parts)
  {
    if |pools| > 0 {
      var part := Min(amount, pools[0].available);
      TailOf(pools, parts, amount);
      var less := part - parts[0];
      AscendingIsCheapest(pools[1..], amount - parts[0], parts[1..]);
      TotalCovers(pools[1..], parts[1..], amount - parts[0]);
      CostOfFill(pools, amount);
      if pools[0].available > 0 { MoreCostsMore(pools[1..], amount - part, less, Rate(pools[0])); }
      SplitProduct(parts[0], less, Rate(pools[0]));
    }
  }

  lemma SplitProduct(a: nat, b: nat, c: nat)
    ensures (a + b) * c == a * c + b * c
  {
  }

  lemma {:induction false} TotalCovers(pools: seq<Pool>, parts: seq<nat>, amount: nat)
    requires Feasible(pools, parts, amount)
    ensures amount <= Total(pools)
  {
    if |pools| > 0 { TotalCovers(pools[1..], parts[1..], amount - parts[0]); }
  }

  /** All of one unit from pool j. */
  function Unit(n: nat, j: nat): (parts: seq<nat>)
    requires j < n
    ensures |parts| == n
  {
    seq(n, i => if i == j then 1 else 0)
  }

  lemma {:induction false} UnitCosts(pools: seq<Pool>, j: nat)
    requires j < |pools|
    ensures Sum(Unit(|pools|, j)) == 1 && Cost(pools, Unit(|pools|, j)) == Rate(pools[j])
  {
    if j == 0 {
      ZeroCosts(pools[1..], Unit(|pools|, 0)[1..]);
    } else {
      assert Unit(|pools|, j)[1..] == Unit(|pools| - 1, j - 1);
      UnitCosts(pools[1..], j - 1);
    }
  }

  lemma {:induction false} ZeroCosts(pools: seq<Pool>, parts: seq<nat>)
    requires |parts| == |pools| && forall i :: 0 <= i < |parts| ==> parts[i] == 0
    ensures Sum(parts) == 0 && Cost(pools, parts) == 0
  {
    if |pools| > 0 { ZeroCosts(pools[1..], parts[1..]); }
  }

  /** If a dearer pool comes first, empty all before it and take one more unit: the later pool would be cheaper. */
  lemma {:induction false} OutOfOrderIsBeaten(pools: seq<Pool>, i: nat, j: nat) returns (amount: nat, parts: seq<nat>)
    requires i < j < |pools| && pools[i].available > 0 && pools[j].available > 0 && Rate(pools[i]) > Rate(pools[j])
    ensures Feasible(pools, parts, amount) && !CheapestFor(pools, amount, parts)
  {
    if i == 0 {
      amount, parts := 1, Unit(|pools|, j);
      UnitCosts(pools, j);
      FillSplits(pools, 1);
      FillNothing(pools[1..]);
    } else {
      var n, rest := OutOfOrderIsBeaten(pools[1..], i - 1, j - 1);
      amount, parts := pools[0].available + n, [pools[0].available] + rest;
      assert parts[1..] == rest;
      FillSplits(pools, amount);
    }
  }

  /**
   MAIN RESULT. No feasible way to fill any amount has a lower unrounded fee than taking the pools in turn,
   if and only if the pools that are not empty come in ascending order of their rates.
   */
  lemma CheapestExactlyWhenAscending(pools: seq<Pool>)
    ensures AlwaysCheapest(pools) <==> Ascending(pools)
  {
    if Ascending(pools) {
      forall amount: nat, parts: seq<nat> | Feasible(pools, parts, amount) ensures CheapestFor(pools, amount, parts) {
        AscendingIsCheapest(pools, amount, parts);
      }
    } else {
      var i, j :| 0 <= i < j < |pools| && pools[i].available > 0 && pools[j].available > 0 && Rate(pools[i]) > Rate(pools[j]);
      var amount, parts := OutOfOrderIsBeaten(pools, i, j);
    }
  }

  ghost predicate SortedByTier(boost: seq<Pool>) {
    forall i, j :: 0 <= i < j < |boost| ==> Rate(boost[i]) <= Rate(boost[j])
  }

  /**
   Boost pools come sorted by tier, so the order of the whole list is right exactly when no boost pool with
   money in it charges more than a supply pool that also has some.
   */
  lemma ConsideredPoolsAscend(version: nat, boost: seq<Pool>, supply: seq<Pool>)
    requires Kinds(boost, supply) && SortedByTier(boost)
    ensures Ascending(Considered(version, boost, supply)) <==>
              version < 20_200 || Total(supply) == 0
              || forall i :: 0 <= i < |boost| && boost[i].available > 0 ==> boost[i].tier <= 5
  {
    var pools := Considered(version, boost, supply);
    var n := |boost|;
    assert forall i :: 0 <= i < n ==> pools[i] == boost[i] && boost[i] in boost && boost[i].Boost?;
    if version >= FIRST_VERSION_WITH_SUPPLY_POOLS {
      assert forall i :: n <= i < |pools| ==> pools[i] == supply[i - n] && supply[i - n] in supply && pools[i].Supply?;
      if Total(supply) > 0 {
        var j := SomeMoney(supply);
        assert pools[n + j] == supply[j];
        if Ascending(pools) {
          forall i | 0 <= i < n && boost[i].available > 0 ensures boost[i].tier <= SUPPLY_POOL_BOOST_FEE_BPS {
            assert Rate(pools[i]) <= Rate(pools[n + j]);
          }
        }
      } else {
        NoMoney(supply);
      }
    }
  }

  lemma {:induction false} SomeMoney(pools: seq<Pool>) returns (j: nat)
    requires Total(pools) > 0
    ensures j < |pools| && pools[j].available > 0
  {
    if pools[0].available > 0 { j := 0; } else { var k := SomeMoney(pools[1..]); j := k + 1; }
  }

  lemma {:induction false} NoMoney(pools: seq<Pool>)
    requires Total(pools) == 0
    ensures forall i :: 0 <= i < |pools| ==> pools[i].available == 0
  {
    if |pools| > 0 { NoMoney(pools[1..]); }
  }
}
