/**
 External chain tracking (packages/swap/src/event-handlers/tracking/chainStateUpdated.ts) and the deposit
 confirmation count that reads it (packages/swap/src/ingress-egress-tracking/index.ts).

 Deposits are witnessed one state-chain block after the chain height that contains them was reported,
 so confirmations are counted against the height tracked before the current state-chain block.
 */
module ChainTracking {
  import opened Prelude
  import opened Indexer
  import opened BlockProcessor

  /** A row of the `ChainTracking` table. */
  datatype Tracking = Tracking(height: nat, previousHeight: nat, eventWitnessedBlock: int)

  datatype Channel = Channel(chain: string, expiryBlock: Option<nat>, isExpired: bool)

  /** The application tables: chain tracking, and whatever the other handlers keep. */
  datatype Tables<Rest> = Tables(tracking: map<string, Tracking>, rest: Rest)

  // ---------- The handler ----------

  /** The row after a report of `height` in state-chain block `block`. */
  function Report(current: Option<Tracking>, height: nat, block: int): Tracking {
    match current
    case None => Tracking(height, 0, block)  // the column default of previousHeight
    case Some(c) =>
      Tracking(height, if c.eventWitnessedBlock == block then c.previousHeight else c.height, block)
  }

  function Expire(channels: seq<Channel>, chain: string, height: nat): (r: seq<Channel>)
    ensures |r| == |channels|
    ensures forall i :: 0 <= i < |channels| ==>
              r[i] == channels[i].(isExpired := channels[i].isExpired || Due(channels[i], chain, height))
  {
    seq(|channels|, i requires 0 <= i < |channels| =>
        if Due(channels[i], chain, height) then channels[i].(isExpired := true) else channels[i])
  }

  predicate Due(c: Channel, chain: string, height: nat) {
    c.chain == chain && c.expiryBlock.Some? && c.expiryBlock.value <= height
  }

  function Lookup<T>(m: map<string, T>, key: string): Option<T> {
    if key in m then Some(m[key]) else None
  }

  /** The tables the handler writes, updated in place. */
  class TrackingStore {
    var tracking: map<string, Tracking>
    var swapDepositChannels: seq<Channel>
    var accountCreationChannels: seq<Channel>

    constructor ()
      ensures tracking == map[] && swapDepositChannels == accountCreationChannels == []
    {
      tracking, swapDepositChannels, accountCreationChannels := map[], [], [];
    }

    method ChainStateUpdated(chain: string, blockHeight: nat, block: int)
      modifies this
      ensures tracking == old(tracking)[chain := Report(Lookup(old(tracking), chain), blockHeight, block)]
      ensures swapDepositChannels == Expire(old(swapDepositChannels), chain, blockHeight)
      ensures accountCreationChannels == Expire(old(accountCreationChannels), chain, blockHeight)
    {
      if chain !in tracking {
        tracking := tracking[chain := Tracking(blockHeight, 0, block)];
      } else {
        var current := tracking[chain];
        var previousHeight := if current.eventWitnessedBlock == block then current.previousHeight else current.height;
        tracking := tracking[chain := Tracking(blockHeight, previousHeight, block)];
      }
      swapDepositChannels := Expire(swapDepositChannels, chain, blockHeight);
      accountCreationChannels := Expire(accountCreationChannels, chain, blockHeight);
    }
  }

  function ExpireAll(channels: seq<Channel>, chain: string, reports: seq<nat>): (r: seq<Channel>) {
    if |reports| == 0 then channels
    else Expire(ExpireAll(channels, chain, reports[..|reports| - 1]), chain, reports[|reports| - 1])
  }

  /** A channel is expired after a series of reports exactly if it was, or one of them reached its expiry. */
  lemma {:induction false} ExpiredExactlyWhenReached(channels: seq<Channel>, chain: string, reports: seq<nat>, i: nat)
    requires i < |channels|
    ensures |ExpireAll(channels, chain, reports)| == |channels|
    ensures ExpireAll(channels, chain, reports)[i] ==
              channels[i].(isExpired := channels[i].isExpired || (channels[i].chain == chain && channels[i].expiryBlock.Some?
                                        && exists k :: 0 <= k < |reports| && channels[i].expiryBlock.value <= reports[k]))
  {
    if |reports| > 0 {
      var n := |reports| - 1;
      ExpiredExactlyWhenReached(channels, chain, reports[..n], i);
      assert forall k :: 0 <= k < n ==> reports[..n][k] == reports[k];
      var expiry := channels[i].expiryBlock;
      if expiry.Some? {
        if k :| 0 <= k < n && expiry.value <= reports[..n][k] { assert expiry.value <= reports[k]; }
        if k :| 0 <= k < |reports| && expiry.value <= reports[k] { assert k == n || expiry.value <= reports[..n][k]; }
      }
    }
  }

  // ---------- The confirmation count ----------

  function ConfirmationHeight(t: Tracking, stateHeight: int): nat {
    if stateHeight - t.eventWitnessedBlock > 0 then t.height else t.previousHeight
  }

  function ConfirmationCount(t: Option<Tracking>, stateHeight: int, depositBlock: int): int {
    if t.None? then 0 else Max(0, ConfirmationHeight(t.value, stateHeight) - depositBlock + 1)
  }

  // ---------- The service: chain tracking on top of the block processor ----------

  /**
   `trackers` says which event names report which chain; every other event goes to another handler.
   `onReport` is what a report does to the other tables, the channels among them.
   */
  datatype Service<!Rest> = Service(
    trackers: map<string, string>,
    onReport: (Tables<Rest>, Event, Block) -> Rest,
    others: (Tables<Rest>, Event, Block) -> Option<Rest>)

  function Handle<Rest>(sv: Service<Rest>, t: Tables<Rest>, e: Event, b: Block): Option<Tables<Rest>> {
    if e.name in sv.trackers then
      match e.args
      case ChainState(height) =>
        var chain := sv.trackers[e.name];
        Some(Tables(t.tracking[chain := Report(Lookup(t.tracking, chain), height, b.height)], sv.onReport(t, e, b)))
      case Opaque(_) => None
    else
      match sv.others(t, e, b)
      case None => None
      case Some(r) => Some(t.(rest := r))
  }

  ghost predicate Runs<Rest(!new)>(sv: Service<Rest>, cfg: Config<Tables<Rest>>) {
    && WellFormed(cfg)
    && (forall t, e, b :: cfg.handle(t, e, b) == Handle(sv, t, e, b))
    && forall c :: c in cfg.initial.tracking ==> cfg.initial.tracking[c].eventWitnessedBlock <= cfg.start
  }

  predicate Reports<Rest>(sv: Service<Rest>, e: Event, chain: string) {
    e.name in sv.trackers && sv.trackers[e.name] == chain && e.args.ChainState?
  }

  /** The last height reported for `chain` in the first n events of a block, else `before`. */
  function LastReport<Rest>(sv: Service<Rest>, b: Block, n: nat, chain: string, before: Option<nat>): Option<nat>
    requires n <= |b.events|
  {
    if n == 0 then before
    else if Reports(sv, b.events[n - 1], chain) then Some(b.events[n - 1].args.blockHeight)
    else LastReport(sv, b, n - 1, chain, before)
  }

  /** The height of `chain` as reported last in any block up to n: no per-block bookkeeping involved. */
  ghost function TrackedAfter<Rest>(sv: Service<Rest>, cfg: Config<Tables<Rest>>, chain: string, n: int): Option<nat>
    requires -1 <= cfg.start <= n < |cfg.chain|
    decreases n - cfg.start
  {
    if n == cfg.start then
      if chain in cfg.initial.tracking then Some(cfg.initial.tracking[chain].height) else None
    else LastReport(sv, cfg.chain[n], |cfg.chain[n].events|, chain, TrackedAfter(sv, cfg, chain, n - 1))
  }

  function HeightOf(t: Option<Tracking>): Option<nat> { if t.Some? then Some(t.value.height) else None }

  /** Within a block: once the chain was reported the row remembers the height before the block. */
  lemma {:induction false} BlockRemembersPrevious<Rest(!new)>(
      sv: Service<Rest>, cfg: Config<Tables<Rest>>, chain: string, before: Tables<Rest>, b: Block, n: nat)
    requires Runs(sv, cfg) && n <= |b.events|
    requires FoldEvents(cfg, before, b, n).Some?
    requires chain in before.tracking ==> before.tracking[chain].eventWitnessedBlock < b.height
    ensures var was, now := Lookup(before.tracking, chain), Lookup(FoldEvents(cfg, before, b, n).value.tracking, chain);
            && HeightOf(now) == LastReport(sv, b, n, chain, HeightOf(was))
            && (now == was
                || (now.Some? && now.value.eventWitnessedBlock == b.height
                    && now.value.previousHeight == OrZero(HeightOf(was))))
  {
    if n > 0 {
      BlockRemembersPrevious(sv, cfg, chain, before, b, n - 1);
    }
  }

  /** In every replayed state the row holds the last report, and the one before its block. */
  lemma {:induction false} RowsAreExact<Rest(!new)>(
      sv: Service<Rest>, cfg: Config<Tables<Rest>>, chain: string, n: int)
    requires Runs(sv, cfg) && cfg.start <= n < |cfg.chain| && Replay(cfg, n).Some?
    ensures var row := Lookup(Replay(cfg, n).value.tracking, chain);
            && HeightOf(row) == TrackedAfter(sv, cfg, chain, n)
            && (row.Some? ==> row.value.eventWitnessedBlock <= n)
            && (row.Some? && n > cfg.start ==>
                  ConfirmationHeight(row.value, n) == OrZero(TrackedAfter(sv, cfg, chain, n - 1)))
            && (row.Some? && row.value.eventWitnessedBlock > cfg.start ==>
                  row.value.previousHeight == OrZero(TrackedAfter(sv, cfg, chain, row.value.eventWitnessedBlock - 1)))
    decreases n - cfg.start
  {
    if n > cfg.start {
      RowsAreExact(sv, cfg, chain, n - 1);
      BlockRemembersPrevious(sv, cfg, chain, Replay(cfg, n - 1).value, cfg.chain[n], |cfg.chain[n].events|);
    }
  }

  /**
   MAIN RESULT. In every state any set of processor instances can reach, the height confirmations are
   counted against is the external height tracked after the previous state-chain block (0 if there was
   none), however many reports the current block carried.
   */
  lemma ConfirmationsLagOneBlock<Rest(!new)>(
      sv: Service<Rest>, cfg: Config<Tables<Rest>>, s: System<Tables<Rest>>, trace: seq<Action<Tables<Rest>>>,
      t: System<Tables<Rest>>, chain: string)
    requires Runs(sv, cfg) && Initial(cfg, s) && Run(cfg, s, trace) == Some(t)
    ensures cfg.start <= Reached(cfg, t) < |cfg.chain|
    ensures Reached(cfg, t) > cfg.start && chain in t.app.tracking ==>
              ConfirmationHeight(t.app.tracking[chain], Reached(cfg, t))
                == OrZero(TrackedAfter(sv, cfg, chain, Reached(cfg, t) - 1))
    ensures chain in t.app.tracking <==> TrackedAfter(sv, cfg, chain, Reached(cfg, t)).Some?
  {
    EveryRunReplaysTheChain(cfg, s, trace, t);
    RowsAreExact(sv, cfg, chain, Reached(cfg, t));
  }

  /** The external blocks from one to another, both included. */
  ghost function BlocksFrom(first: int, last: int): (blocks: set<int>)
    ensures forall h :: h in blocks <==> first <= h <= last
    decreases Max(0, last - first + 1)
  {
    if last < first then {} else BlocksFrom(first, last - 1) + {last}
  }

  lemma {:induction false} BlocksBetween(first: int, last: int)
    ensures |BlocksFrom(first, last)| == Max(0, last - first + 1)
    decreases Max(0, last - first + 1)
  {
    if first <= last { BlocksBetween(first, last - 1); }
  }

  /**
   MAIN RESULT. What is shown for a deposit in an external block is the number of external blocks from that one
   up to the height tracked after the previous state-chain block; nothing if the chain was never reported.
   */
  lemma ConfirmationsAreBlocks<Rest(!new)>(
      sv: Service<Rest>, cfg: Config<Tables<Rest>>, s: System<Tables<Rest>>, trace: seq<Action<Tables<Rest>>>,
      t: System<Tables<Rest>>, chain: string, depositBlock: int)
    requires Runs(sv, cfg) && Initial(cfg, s) && Run(cfg, s, trace) == Some(t) && Reached(cfg, t) > cfg.start
    ensures Reached(cfg, t) < |cfg.chain|
    ensures var count := ConfirmationCount(Lookup(t.app.tracking, chain), Reached(cfg, t), depositBlock);
            if TrackedAfter(sv, cfg, chain, Reached(cfg, t)).None? then count == 0
            else count == |BlocksFrom(depositBlock, OrZero(TrackedAfter(sv, cfg, chain, Reached(cfg, t) - 1)))|
  {
    ConfirmationsLagOneBlock(sv, cfg, s, trace, t, chain);
    BlocksBetween(depositBlock, OrZero(TrackedAfter(sv, cfg, chain, Reached(cfg, t) - 1)));
  }

  ghost predicate NonDecreasing<Rest>(sv: Service<Rest>, cfg: Config<Tables<Rest>>, chain: string)
    requires WellFormed(cfg)
  {
    forall i, j :: cfg.start <= i <= j < |cfg.chain| ==>
      OrZero(TrackedAfter(sv, cfg, chain, i)) <= OrZero(TrackedAfter(sv, cfg, chain, j))
  }

  lemma {:induction false} RowsPersist<Rest(!new)>(sv: Service<Rest>, cfg: Config<Tables<Rest>>, chain: string, n: int, m: int)
    requires Runs(sv, cfg) && cfg.start <= n <= m < |cfg.chain|
    ensures TrackedAfter(sv, cfg, chain, n).Some? ==> TrackedAfter(sv, cfg, chain, m).Some?
    decreases m - n
  {
    if n < m {
      RowsPersist(sv, cfg, chain, n, m - 1);
      LastReportPersists(sv, cfg.chain[m], |cfg.chain[m].events|, chain, TrackedAfter(sv, cfg, chain, m - 1));
    }
  }

  lemma {:induction false} LastReportPersists<Rest>(sv: Service<Rest>, b: Block, n: nat, chain: string, before: Option<nat>)
    requires n <= |b.events|
    ensures before.Some? ==> LastReport(sv, b, n, chain, before).Some?
  {
    if n > 0 { LastReportPersists(sv, b, n - 1, chain, before); }
  }

  /** With non-decreasing reports the confirmation count of a deposit never decreases along a run. */
  lemma ConfirmationsNeverDecrease<Rest(!new)>(
      sv: Service<Rest>, cfg: Config<Tables<Rest>>, chain: string, depositBlock: int,
      s: System<Tables<Rest>>, trace: seq<Action<Tables<Rest>>>, t: System<Tables<Rest>>,
      later: seq<Action<Tables<Rest>>>, u: System<Tables<Rest>>)
    requires Runs(sv, cfg) && Initial(cfg, s) && Run(cfg, s, trace) == Some(t) && Run(cfg, t, later) == Some(u)
    requires NonDecreasing(sv, cfg, chain) && Reached(cfg, t) > cfg.start
    ensures ConfirmationCount(Lookup(t.app.tracking, chain), Reached(cfg, t), depositBlock)
            <= ConfirmationCount(Lookup(u.app.tracking, chain), Reached(cfg, u), depositBlock)
  {
    EveryRunReplaysTheChain(cfg, s, trace, t);
    HeightGrowsOneByOne(cfg, t, later, u);
    var n, m := Reached(cfg, t), Reached(cfg, u);
    RowsAreExact(sv, cfg, chain, n);
    RowsAreExact(sv, cfg, chain, m);
    RowsPersist(sv, cfg, chain, n, m);
    assert OrZero(TrackedAfter(sv, cfg, chain, n - 1)) <= OrZero(TrackedAfter(sv, cfg, chain, m - 1));
  }

  /**
   The two rows are read by two queries, so they may come from different committed states. Then the
   height used still lies between the exact heights of the two moments.
   */
  lemma TornReadsAreBracketed<Rest(!new)>(
      sv: Service<Rest>, cfg: Config<Tables<Rest>>, chain: string, n: int, stateHeight: int)
    requires Runs(sv, cfg) && NonDecreasing(sv, cfg, chain)
    requires cfg.start < n < |cfg.chain| && cfg.start < stateHeight < |cfg.chain|
    requires Replay(cfg, n).Some? && chain in Replay(cfg, n).value.tracking
    ensures var used := ConfirmationHeight(Replay(cfg, n).value.tracking[chain], stateHeight);
            OrZero(TrackedAfter(sv, cfg, chain, Min(n, stateHeight) - 1)) <= used
            <= OrZero(TrackedAfter(sv, cfg, chain, Max(n, stateHeight) - 1))
  {
    var row := Replay(cfg, n).value.tracking[chain];
    RowsAreExact(sv, cfg, chain, n);
    var exact := (i: int) requires cfg.start <= i < |cfg.chain| => OrZero(TrackedAfter(sv, cfg, chain, i));
    if stateHeight > n {
      assert exact(n - 1) <= exact(n) <= exact(stateHeight - 1);
    } else if stateHeight > row.eventWitnessedBlock {
      assert exact(stateHeight - 1) <= exact(n);
    } else {
      assert exact(stateHeight - 1) <= exact(row.eventWitnessedBlock - 1) <= exact(n - 1);
    }
  }
}
