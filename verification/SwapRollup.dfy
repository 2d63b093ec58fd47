/**
 The roll-up of a swap request's chunks and fees (packages/swap/src/routes/v2/utils.ts, `rollupFees`;
 v2/swap.ts, the reduction over the request's swaps and the chunk it shows). Amounts are integers of any size.
 */
module SwapRollup {
  import opened Prelude

  /** The name of a fee type, such as LIQUIDITY or BROKER; none contains a dash. */
  type FeeKind = s: string | '-' !in s witness "LIQUIDITY"

  datatype Fee = Fee(kind: FeeKind, asset: string, amount: nat)

  datatype Aggregate = Aggregate(kind: FeeKind, asset: string, amount: nat)

  /** Aggregates are kept under the text of the kind, a dash and the asset. */
  function Key(k: FeeKind, asset: string): string { k + "-" + asset }

  /** Different pairs of kind and asset have different keys, whatever the asset is called. */
  lemma KeyIsInjective(k: FeeKind, a: string, l: FeeKind, b: string)
    ensures Key(k, a) == Key(l, b) <==> k == l && a == b
  {
    if Key(k, a) == Key(l, b) {
      var s := Key(k, a);
      assert forall i :: 0 <= i < |k| ==> s[i] == k[i] && k[i] in k;
      assert forall i :: 0 <= i < |l| ==> s[i] == l[i] && l[i] in l;
      assert s[|k|] == '-' && s[|l|] == '-';
      assert k == s[..|k|] && l == s[..|l|];
      assert a == s[|k| + 1..] && b == s[|l| + 1..];
    }
  }

  // ---------- Fees ----------

  type Aggregates = map<string, Aggregate>

  function Added(acc: Aggregates, fee: Fee): Aggregates {
    var key := Key(fee.kind, fee.asset);
    var agg := if key in acc then acc[key] else Aggregate(fee.kind, fee.asset, 0);
    acc[key := agg.(amount := agg.amount + fee.amount)]
  }

  function RolledUp(init: Aggregates, fees: seq<Fee>): Aggregates {
    if |fees| == 0 then init else Added(RolledUp(init, fees[..|fees| - 1]), fees[|fees| - 1])
  }

  predicate Of(fee: Fee, k: FeeKind, asset: string) { fee.kind == k && fee.asset == asset }

  function FeeSum(fees: seq<Fee>, k: FeeKind, asset: string): nat {
    if |fees| == 0 then 0
    else FeeSum(fees[..|fees| - 1], k, asset) + (if Of(fees[|fees| - 1], k, asset) then fees[|fees| - 1].amount else 0)
  }

  ghost predicate HasFee(fees: seq<Fee>, k: FeeKind, asset: string) { exists f :: f in fees && Of(f, k, asset) }

  /** The aggregate for a kind and an asset, and for nothing else, is under their key. */
  ghost predicate Accounts(acc: Aggregates, fees: seq<Fee>, k: FeeKind, asset: string) {
    && (Key(k, asset) in acc <==> HasFee(fees, k, asset))
    && (Key(k, asset) in acc ==> acc[Key(k, asset)] == Aggregate(k, asset, FeeSum(fees, k, asset)))
  }

  /** MAIN RESULT. From nothing, each aggregate is the sum of the fees of its kind and asset, and no fee is left out. */
  lemma {:induction false} AggregatesAreSums(fees: seq<Fee>, k: FeeKind, asset: string)
    ensures Accounts(RolledUp(map[], fees), fees, k, asset)
  {
    if |fees| > 0 {
      var n := |fees| - 1;
      AggregatesAreSums(fees[..n], k, asset);
      KeyIsInjective(k, asset, fees[n].kind, fees[n].asset);
      HasFeeExtends(fees, k, asset);
      if !HasFee(fees[..n], k, asset) { NoFeeNoSum(fees[..n], k, asset); }
    }
  }

  lemma HasFeeExtends(fees: seq<Fee>, k: FeeKind, asset: string)
    requires |fees| > 0
    ensures HasFee(fees, k, asset) <==> HasFee(fees[..|fees| - 1], k, asset) || Of(fees[|fees| - 1], k, asset)
  {
    var n := |fees| - 1;
    assert forall f :: f in fees <==> f in fees[..n] || f == fees[n];
    if f :| f in fees[..n] && Of(f, k, asset) { assert f in fees; }
    if Of(fees[n], k, asset) { assert fees[n] in fees; }
  }

  lemma {:induction false} NoFeeNoSum(fees: seq<Fee>, k: FeeKind, asset: string)
    requires !HasFee(fees, k, asset)
    ensures FeeSum(fees, k, asset) == 0
  {
    if |fees| > 0 {
      HasFeeExtends(fees, k, asset);
      NoFeeNoSum(fees[..|fees| - 1], k, asset);
    }
  }

  lemma {:induction false} RolledUpInParts(init: Aggregates, first: seq<Fee>, second: seq<Fee>)
    ensures RolledUp(init, first + second) == RolledUp(RolledUp(init, first), second)
  {
    if |second| == 0 {
      assert first + second == first;
    } else {
      var n := |second| - 1;
      assert (first + second)[..|first| + n] == first + second[..n];
      RolledUpInParts(init, first, second[..n]);
    }
  }

  lemma {:induction false} FeeSumOfParts(first: seq<Fee>, second: seq<Fee>, k: FeeKind, asset: string)
    ensures FeeSum(first + second, k, asset) == FeeSum(first, k, asset) + FeeSum(second, k, asset)
  {
    if |second| == 0 {
      assert first + second == first;
    } else {
      var n := |second| - 1;
      assert (first + second)[..|first| + n] == first + second[..n];
      FeeSumOfParts(first, second[..n], k, asset);
    }
  }

  lemma FeeSumAppends(fees: seq<Fee>, f: Fee, k: FeeKind, asset: string)
    ensures FeeSum(fees + [f], k, asset) == FeeSum(fees, k, asset) + (if Of(f, k, asset) then f.amount else 0)
  {
    assert (fees + [f])[..|fees|] == fees;
  }

  /** A fee can be taken out from anywhere. */
  lemma TakeOut(fees: seq<Fee>, i: nat, k: FeeKind, asset: string) returns (rest: seq<Fee>)
    requires i < |fees|
    ensures |rest| == |fees| - 1 && multiset(rest) == multiset(fees) - multiset{fees[i]}
    ensures FeeSum(fees, k, asset) == FeeSum(rest + [fees[i]], k, asset)
  {
    var left, f, right := fees[..i], fees[i], fees[i + 1..];
    rest := left + right;
    assert fees == (left + [f]) + right;
    FeeSumOfParts(left + [f], right, k, asset);
    FeeSumOfParts(left, right, k, asset);
    FeeSumAppends(left, f, k, asset);
    FeeSumAppends(rest, f, k, asset);
  }

  /** The order of the fees does not matter. */
  lemma {:induction false} FeeSumIgnoresOrder(fees: seq<Fee>, others: seq<Fee>, k: FeeKind, asset: string)
    requires multiset(fees) == multiset(others)
    ensures FeeSum(fees, k, asset) == FeeSum(others, k, asset)
  {
    if |fees| == 0 {
      assert |multiset(others)| == 0;
    } else {
      var before, f := fees[..|fees| - 1], fees[|fees| - 1];
      assert fees == before + [f];
      assert f in multiset(others);
      var i :| 0 <= i < |others| && others[i] == f;
      var rest := TakeOut(others, i, k, asset);
      assert multiset(fees) - multiset{f} == multiset(before);
      FeeSumIgnoresOrder(before, rest, k, asset);
      FeeSumAppends(before, f, k, asset);
      FeeSumAppends(rest, f, k, asset);
    }
  }

  lemma AggregatesIgnoreOrder(fees: seq<Fee>, others: seq<Fee>, k: FeeKind, asset: string)
    requires multiset(fees) == multiset(others)
    ensures Accounts(RolledUp(map[], fees), others, k, asset)
  {
    AggregatesAreSums(fees, k, asset);
    FeeSumIgnoresOrder(fees, others, k, asset);
    assert forall f :: f in fees <==> f in multiset(fees);
    assert forall f :: f in others <==> f in multiset(others);
  }

  // ---------- Swaps ----------

  datatype SwapType = Swap | Principal | Gas | IngressEgressFee | NetworkFee

  datatype Chunk = Chunk(
    nativeId: nat, kind: SwapType, executed: bool,
    input: nat, intermediate: Option<nat>, output: Option<nat>, fees: seq<Fee>)

  function NonGas(swaps: seq<Chunk>): seq<Chunk> {
    if |swaps| == 0 then []
    else
      var n := |swaps| - 1;
      if swaps[n].kind.Gas? then NonGas(swaps[..n]) else NonGas(swaps[..n]) + [swaps[n]]
  }

  /** The chunks that are executed, or the ones that are not. */
  function Executed(chunks: seq<Chunk>, flag: bool): seq<Chunk> {
    if |chunks| == 0 then []
    else
      var n := |chunks| - 1;
      if chunks[n].executed == flag then Executed(chunks[..n], flag) + [chunks[n]] else Executed(chunks[..n], flag)
  }

  datatype Column = Input | Intermediate | Output

  function Amount(c: Chunk, column: Column): nat {
    match column
    case Input => c.input
    case Intermediate => OrZero(c.intermediate)
    case Output => OrZero(c.output)
  }

  function Total(chunks: seq<Chunk>, column: Column): nat {
    if |chunks| == 0 then 0 else Total(chunks[..|chunks| - 1], column) + Amount(chunks[|chunks| - 1], column)
  }

  function FeesOf(chunks: seq<Chunk>): seq<Fee> {
    if |chunks| == 0 then [] else FeesOf(chunks[..|chunks| - 1]) + chunks[|chunks| - 1].fees
  }

  function FromLast(chunks: seq<Chunk>, back: nat): Option<Chunk> {
    if back < |chunks| then Some(chunks[|chunks| - 1 - back]) else None
  }

  lemma TotalAppends(chunks: seq<Chunk>, c: Chunk, column: Column)
    ensures Total(chunks + [c], column) == Total(chunks, column) + Amount(c, column)
  {
    assert (chunks + [c])[..|chunks|] == chunks;
  }

  lemma ExecutedAppends(chunks: seq<Chunk>, c: Chunk, flag: bool)
    ensures Executed(chunks + [c], flag) == if c.executed == flag then Executed(chunks, flag) + [c] else Executed(chunks, flag)
  {
    assert (chunks + [c])[..|chunks|] == chunks;
  }

  lemma FeesAppend(chunks: seq<Chunk>, c: Chunk)
    ensures FeesOf(chunks + [c]) == FeesOf(chunks) + c.fees
  {
    assert (chunks + [c])[..|chunks|] == chunks;
  }

  /** What one more executed chunk adds to every sum. */
  lemma SumsStep(executed: seq<Chunk>, c: Chunk)
    ensures var more := executed + [c];
            && FeesOf(more) == FeesOf(executed) + c.fees && Total(more, Input) == Total(executed, Input) + c.input
            && Total(more, Output) == Total(executed, Output) + OrZero(c.output)
            && Total(more, Intermediate) == Total(executed, Intermediate) + OrZero(c.intermediate)
  {
    TotalAppends(executed, c, Input);
    TotalAppends(executed, c, Intermediate);
    TotalAppends(executed, c, Output);
    FeesAppend(executed, c);
  }

  class FeeAggregates {
    var entries: Aggregates

    constructor ()
      ensures entries == map[]
    {
      entries := map[];
    }

    method RollupFees(fees: seq<Fee>)
      modifies this
      ensures entries == RolledUp(old(entries), fees)
    {
      var i := 0;
      while i < |fees|
        invariant 0 <= i <= |fees| && entries == RolledUp(old(entries), fees[..i])
      {
        assert fees[..i + 1][..i] == fees[..i];
        var key := Key(fees[i].kind, fees[i].asset);
        if key !in entries {
          entries := entries[key := Aggregate(fees[i].kind, fees[i].asset, 0)];
        }
        entries := entries[key := entries[key].(amount := entries[key].amount + fees[i].amount)];
        i := i + 1;
      }
      assert fees[..i] == fees;
    }
  }

  /** The accumulator that starts as `getRolledSwapsInitialData`. */
  class RolledSwaps {
    var swappedOutput: nat
    var swappedIntermediate: nat
    var swappedInput: nat
    var executedChunks: nat
    var previousChunk: Option<Chunk>
    var currentChunk: Option<Chunk>
    var lastExecutedChunk: Option<Chunk>
    const fees: FeeAggregates

    /** For the specification: the chunks reduced so far, executed and not. */
    ghost var executed: seq<Chunk>
    ghost var waiting: seq<Chunk>

    /** The fields are what the chunks reduced so far make of them. */
    ghost predicate Valid()
      reads this, fees
    {
      && SumsAreRight() && fees.entries == RolledUp(map[], FeesOf(executed))
      && lastExecutedChunk == FromLast(executed, 0)
      && currentChunk == FromLast(waiting, 0) && previousChunk == FromLast(waiting, 1)
    }

    /** The chunk that the response shows for a DCA swap. */
    function Shown(): Option<Chunk>
      reads this
    {
      if previousChunk.Some? then previousChunk else currentChunk
    }

    /** The one it shows for any other. */
    function ShownRegular(): Option<Chunk>
      reads this
    {
      if currentChunk.Some? then currentChunk else lastExecutedChunk
    }

    ghost predicate SumsAreRight()
      reads this
    {
      && swappedInput == Total(executed, Input) && swappedOutput == Total(executed, Output)
      && swappedIntermediate == Total(executed, Intermediate) && executedChunks == |executed|
    }

    constructor ()
      ensures Valid() && executed == [] && waiting == [] && fresh(fees)
    {
      swappedOutput, swappedIntermediate, swappedInput, executedChunks := 0, 0, 0, 0;
      previousChunk, currentChunk, lastExecutedChunk := None, None, None;
      fees := new FeeAggregates();
      executed, waiting := [], [];
    }

    /** One step of the reduction. */
    method Reduce(chunk: Chunk)
      requires Valid()
      modifies this, fees
      ensures Valid()
      ensures executed == old(executed) + (if chunk.executed then [chunk] else [])
      ensures waiting == old(waiting) + (if chunk.executed then [] else [chunk])
    {
      if chunk.executed {
        AddExecuted(chunk);
      } else {
        AddWaiting(chunk);
      }
    }

    method AddWaiting(chunk: Chunk)
      requires currentChunk == FromLast(waiting, 0)
      modifies this`previousChunk, this`currentChunk, this`waiting
      ensures waiting == old(waiting) + [chunk]
      ensures currentChunk == FromLast(waiting, 0) && previousChunk == FromLast(waiting, 1)
    {
      previousChunk := currentChunk;
      currentChunk := Some(chunk);
      waiting := waiting + [chunk];
    }

    method AddExecuted(chunk: Chunk)
      requires SumsAreRight() && fees.entries == RolledUp(map[], FeesOf(executed))
      modifies this`swappedOutput, this`swappedIntermediate, this`swappedInput, this`lastExecutedChunk
      modifies this`executedChunks, this`executed, fees
      ensures SumsAreRight() && fees.entries == RolledUp(map[], FeesOf(executed))
      ensures executed == old(executed) + [chunk] && lastExecutedChunk == FromLast(executed, 0)
    {
      swappedOutput := swappedOutput + OrZero(chunk.output);
      swappedIntermediate := swappedIntermediate + OrZero(chunk.intermediate);
      swappedInput := swappedInput + chunk.input;
      lastExecutedChunk := Some(chunk);
      executedChunks := executedChunks + 1;
      SumsStep(executed, chunk);
      RolledUpInParts(map[], FeesOf(executed), chunk.fees);
      fees.RollupFees(chunk.fees);
      executed := executed + [chunk];
    }
  }

  /** How both lists grow with one more swap. */
  lemma FilterStep(swaps: seq<Chunk>, i: nat, flag: bool)
    requires i < |swaps|
    ensures Executed(NonGas(swaps[..i + 1]), flag) ==
            Executed(NonGas(swaps[..i]), flag) + (if !swaps[i].kind.Gas? && swaps[i].executed == flag then [swaps[i]] else [])
  {
    assert swaps[..i + 1][..i] == swaps[..i];
    ExecutedAppends(NonGas(swaps[..i]), swaps[i], flag);
  }

  ghost predicate Describes(rolled: RolledSwaps, chunks: seq<Chunk>)
    reads rolled
  {
    rolled.executed == Executed(chunks, true) && rolled.waiting == Executed(chunks, false)
  }

  /** The handler filters and reduces, */
  method RollSwaps(swaps: seq<Chunk>) returns (rolled: RolledSwaps)
    ensures rolled.Valid() && Describes(rolled, NonGas(swaps)) && fresh(rolled) && fresh(rolled.fees)
    ensures rolled.Shown() == ShownChunk(NonGas(swaps)) && rolled.ShownRegular() == RegularChunk(NonGas(swaps))
  {
    rolled := new RolledSwaps();
    var i := 0;
    while i < |swaps|
      invariant 0 <= i <= |swaps| && rolled.Valid() && Describes(rolled, NonGas(swaps[..i]))
      invariant fresh(rolled) && fresh(rolled.fees)
    {
      FilterStep(swaps, i, true);
      FilterStep(swaps, i, false);
      if !swaps[i].kind.Gas? { rolled.Reduce(swaps[i]); }
      i := i + 1;
    }
    assert swaps[..i] == swaps;
  }

  /** and then adds the request's own fees to the same aggregates. */
  method AggregateFees(rolled: RolledSwaps, requestFees: seq<Fee>, ghost swaps: seq<Chunk>) returns (aggregates: Aggregates)
    requires rolled.Valid() && Describes(rolled, NonGas(swaps))
    modifies rolled.fees
    ensures aggregates == RolledUp(map[], AllFees(swaps, requestFees))
  {
    RolledUpInParts(map[], FeesOf(rolled.executed), requestFees);
    rolled.fees.RollupFees(requestFees);
    aggregates := rolled.fees.entries;
  }

  /** The fees that must be accounted for: those of the executed chunks that are not gas swaps, and the request's. */
  function AllFees(swaps: seq<Chunk>, requestFees: seq<Fee>): seq<Fee> {
    FeesOf(Executed(NonGas(swaps), true)) + requestFees
  }

  // ---------- What the response says ----------

  /** For a DCA swap: the chunk before the current one if there is one, else the current one. */
  function ShownChunk(chunks: seq<Chunk>): Option<Chunk> {
    var waiting := Executed(chunks, false);
    if FromLast(waiting, 1).Some? then FromLast(waiting, 1) else FromLast(waiting, 0)
  }

  lemma {:induction false} ExecutedSplits(chunks: seq<Chunk>, column: Column)
    ensures |Executed(chunks, true)| + |Executed(chunks, false)| == |chunks|
    ensures Total(Executed(chunks, true), column) + Total(Executed(chunks, false), column) == Total(chunks, column)
  {
    if |chunks| > 0 {
      var before, c := chunks[..|chunks| - 1], chunks[|chunks| - 1];
      ExecutedSplits(before, column);
      assert chunks == before + [c];
      ExecutedAppends(before, c, true);
      ExecutedAppends(before, c, false);
      TotalAppends(before, c, column);
      TotalAppends(Executed(before, c.executed), c, column);
    }
  }

  ghost predicate InOrder(chunks: seq<Chunk>) {
    forall i, j :: 0 <= i < j < |chunks| ==> chunks[i].nativeId < chunks[j].nativeId
  }

  ghost predicate AllBelow(chunks: seq<Chunk>, id: nat) { forall c :: c in chunks ==> c.nativeId < id }

  lemma InOrderAppends(chunks: seq<Chunk>, c: Chunk)
    requires InOrder(chunks) && AllBelow(chunks, c.nativeId)
    ensures InOrder(chunks + [c])
  {
  }

  lemma InOrderEnds(chunks: seq<Chunk>)
    requires InOrder(chunks) && |chunks| > 0
    ensures InOrder(chunks[..|chunks| - 1]) && AllBelow(chunks[..|chunks| - 1], chunks[|chunks| - 1].nativeId)
    ensures forall c :: c in chunks <==> c in chunks[..|chunks| - 1] || c == chunks[|chunks| - 1]
  {
  }

  /** Both filters keep exactly what they should, in order. */
  lemma {:induction false} ExecutedKeepsOrder(chunks: seq<Chunk>, flag: bool)
    requires InOrder(chunks)
    ensures InOrder(Executed(chunks, flag)) && forall c :: c in Executed(chunks, flag) <==> c in chunks && c.executed == flag
  {
    if |chunks| > 0 {
      var n := |chunks| - 1;
      InOrderEnds(chunks);
      ExecutedKeepsOrder(chunks[..n], flag);
      assert AllBelow(Executed(chunks[..n], flag), chunks[n].nativeId);
      InOrderAppends(Executed(chunks[..n], flag), chunks[n]);
    }
  }

  lemma {:induction false} NonGasKeepsOrder(swaps: seq<Chunk>)
    requires InOrder(swaps)
    ensures InOrder(NonGas(swaps)) && forall c :: c in NonGas(swaps) <==> c in swaps && !c.kind.Gas?
  {
    if |swaps| > 0 {
      var n := |swaps| - 1;
      InOrderEnds(swaps);
      NonGasKeepsOrder(swaps[..n]);
      assert AllBelow(NonGas(swaps[..n]), swaps[n].nativeId);
      InOrderAppends(NonGas(swaps[..n]), swaps[n]);
    }
  }

  /**
   MAIN RESULT. Of a request's swaps in the order of their ids, the chunk shown is one that waits, if any does,
   and is the earliest of them exactly when no more than two wait.
   */
  lemma ShownChunkIsEarliest(swaps: seq<Chunk>)
    requires InOrder(swaps)
    ensures var chunks := NonGas(swaps); var waiting := Executed(chunks, false);
            && (ShownChunk(chunks).Some? <==> |waiting| > 0)
            && (|waiting| > 0 ==>
                  var shown := ShownChunk(chunks).value;
                  && shown in swaps && !shown.kind.Gas? && !shown.executed
                  && ((forall c :: c in swaps && !c.kind.Gas? && !c.executed ==> shown.nativeId <= c.nativeId)
                      <==> |waiting| <= 2)
                  && forall c :: c in waiting && c.nativeId > shown.nativeId <==> |waiting| > 1 && c == waiting[|waiting| - 1])
  {
    var chunks := NonGas(swaps);
    var waiting := Executed(chunks, false);
    NonGasKeepsOrder(swaps);
    ExecutedKeepsOrder(chunks, false);
    if |waiting| > 0 {
      var shown := ShownChunk(chunks).value;
      ShownAmongWaiting(waiting, shown);
      assert forall c :: c in waiting <==> c in swaps && !c.kind.Gas? && !c.executed;
    }
  }

  lemma ShownAmongWaiting(waiting: seq<Chunk>, shown: Chunk)
    requires InOrder(waiting) && |waiting| > 0
    requires Some(shown) == if |waiting| > 1 then FromLast(waiting, 1) else FromLast(waiting, 0)
    ensures shown in waiting
    ensures forall c :: c in waiting && c.nativeId > shown.nativeId <==> |waiting| > 1 && c == waiting[|waiting| - 1]
    ensures (forall c :: c in waiting ==> shown.nativeId <= c.nativeId) <==> |waiting| <= 2
  {
    var at := Max(0, |waiting| - 2);
    assert shown == waiting[at];
    forall c | c in waiting && c.nativeId > shown.nativeId ensures |waiting| > 1 && c == waiting[|waiting| - 1] {
      var i :| 0 <= i < |waiting| && waiting[i] == c;
      assert i > at;
    }
    if |waiting| > 2 {
      assert waiting[0] in waiting && waiting[0].nativeId < shown.nativeId;
    } else {
      forall c | c in waiting ensures waiting[0].nativeId <= c.nativeId { var i :| 0 <= i < |waiting| && waiting[i] == c; }
    }
  }

  /** Without DCA: the waiting chunk, or the last one executed. */
  function RegularChunk(chunks: seq<Chunk>): Option<Chunk> {
    if FromLast(Executed(chunks, false), 0).Some? then FromLast(Executed(chunks, false), 0) else FromLast(Executed(chunks, true), 0)
  }

  ghost predicate IsLatest(chunks: seq<Chunk>, flag: bool, c: Chunk) {
    c in chunks && c.executed == flag && forall d :: d in chunks && d.executed == flag ==> d.nativeId <= c.nativeId
  }

  lemma LatestOfKind(chunks: seq<Chunk>, flag: bool)
    requires InOrder(chunks)
    ensures FromLast(Executed(chunks, flag), 0).None? <==> forall d :: d in chunks ==> d.executed != flag
    ensures FromLast(Executed(chunks, flag), 0).Some? ==> IsLatest(chunks, flag, FromLast(Executed(chunks, flag), 0).value)
  {
    ExecutedKeepsOrder(chunks, flag);
    var kept := Executed(chunks, flag);
    if |kept| > 0 {
      assert kept[|kept| - 1] in kept;
      forall d | d in kept ensures d.nativeId <= kept[|kept| - 1].nativeId { var i :| 0 <= i < |kept| && kept[i] == d; }
    }
  }

  /** The chunk last executed is the latest of its kind; a regular swap shows the latest waiting one, or else that. */
  lemma OtherChunksShown(chunks: seq<Chunk>)
    requires InOrder(chunks)
    ensures FromLast(Executed(chunks, true), 0).Some? ==> IsLatest(chunks, true, FromLast(Executed(chunks, true), 0).value)
    ensures RegularChunk(chunks).None? <==> chunks == []
    ensures RegularChunk(chunks).Some? ==>
              IsLatest(chunks, forall d :: d in chunks ==> d.executed, RegularChunk(chunks).value)
  {
    LatestOfKind(chunks, true);
    LatestOfKind(chunks, false);
    if |chunks| > 0 { assert chunks[0] in chunks; }
  }

  /** The totals are of the columns they are named after, an absent amount counting nothing. */
  lemma TotalsAreOfTheirColumns(chunks: seq<Chunk>, c: Chunk)
    ensures Total([], Input) == Total([], Intermediate) == Total([], Output) == 0
    ensures Total(chunks + [c], Input) == Total(chunks, Input) + c.input
    ensures Total(chunks + [c], Intermediate) == Total(chunks, Intermediate) + (if c.intermediate.Some? then c.intermediate.value else 0)
    ensures Total(chunks + [c], Output) == Total(chunks, Output) + (if c.output.Some? then c.output.value else 0)
  {
    SumsStep(chunks, c);
  }

  /** With three waiting chunks the second is shown, not the one scheduled first. */
  lemma ThirdChunkHidesTheFirst() returns (chunks: seq<Chunk>)
    ensures |chunks| == 3 && InOrder(chunks) && forall i :: 0 <= i < 3 ==> !chunks[i].executed && !chunks[i].kind.Gas?
    ensures ShownChunk(NonGas(chunks)) == Some(chunks[1])
  {
    var first := Chunk(1, Swap, false, 10, None, None, []);
    var second, third := first.(nativeId := 2), first.(nativeId := 3);
    chunks := [first, second, third];
    assert chunks[..2] == [first, second] && chunks[..2][..1] == [first] && chunks[..2][..1][..0] == [];
    assert NonGas(chunks[..2][..1]) == [first];
    assert NonGas(chunks[..2]) == [first, second];
    assert NonGas(chunks) == chunks;
    assert Executed(chunks[..2][..1], false) == [first];
    assert Executed(chunks[..2], false) == [first, second];
    assert Executed(chunks, false) == chunks;
  }

  /** MAIN RESULT. Chunks and amounts are conserved: what is shown as done and what is left make up the whole. */
  lemma ChunksAndInputAreConserved(swaps: seq<Chunk>, original: nat)
    ensures var chunks := NonGas(swaps); var done, waiting := Executed(chunks, true), Executed(chunks, false);
            && |done| + |waiting| == |chunks|
            && (original - Total(done, Input) == Total(waiting, Input) <==> original == Total(chunks, Input))
  {
    ExecutedSplits(NonGas(swaps), Input);
  }

  /** MAIN RESULT. Every aggregate in the response is the request's fees plus those of its executed chunks, in any order. */
  lemma ResponseAccountsForAllFees(swaps: seq<Chunk>, requestFees: seq<Fee>, fees: seq<Fee>, k: FeeKind, asset: string)
    requires multiset(fees) == multiset(AllFees(swaps, requestFees))
    ensures var acc := RolledUp(map[], AllFees(swaps, requestFees));
            && Accounts(acc, fees, k, asset)
            && FeeSum(fees, k, asset) == FeeSum(requestFees, k, asset) + ChunkFeeSum(Executed(NonGas(swaps), true), k, asset)
  {
    AggregatesIgnoreOrder(AllFees(swaps, requestFees), fees, k, asset);
    FeeSumIgnoresOrder(AllFees(swaps, requestFees), fees, k, asset);
    FeeSumOfParts(FeesOf(Executed(NonGas(swaps), true)), requestFees, k, asset);
    FeesOfChunksAddUp(Executed(NonGas(swaps), true), k, asset);
  }

  function ChunkFeeSum(chunks: seq<Chunk>, k: FeeKind, asset: string): nat {
    if |chunks| == 0 then 0 else ChunkFeeSum(chunks[..|chunks| - 1], k, asset) + FeeSum(chunks[|chunks| - 1].fees, k, asset)
  }

  lemma {:induction false} FeesOfChunksAddUp(chunks: seq<Chunk>, k: FeeKind, asset: string)
    ensures FeeSum(FeesOf(chunks), k, asset) == ChunkFeeSum(chunks, k, asset)
  {
    if |chunks| > 0 {
      var n := |chunks| - 1;
      FeesOfChunksAddUp(chunks[..n], k, asset);
      FeeSumOfParts(FeesOf(chunks[..n]), chunks[n].fees, k, asset);
    }
  }
}
