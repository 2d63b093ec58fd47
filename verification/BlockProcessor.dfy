/**
 The block processor (packages/swap/src/processBlocks.ts) as a protocol.

 Any number of processor instances share one row, `state.height`, and the application tables.
 Each instance keeps a local cursor, the batch it is working through and at most one prefetched
 batch. A block's handlers run inside a database transaction that ends with a compare-and-set on
 the row. The transaction is deliberately not atomic here: handlers run one at a time, and as soon
 as another instance has committed in between, their reads may yield anything at all.
 */
module BlockProcessor {
  import opened Prelude
  import opened Indexer

  /** What one run of the service is about: the chain, the event handlers and where it starts.
      `handle` is None when no handler is registered for the event or the handler throws. */
  datatype Config<!App> = Config(
    chain: seq<Block>,
    handle: (App, Event, Block) -> Option<App>,
    batchSize: nat,
    start: int,
    initial: App)

  ghost predicate WellFormed<App>(cfg: Config<App>) {
    && -1 <= cfg.start < |cfg.chain|
    && forall h :: 0 <= h < |cfg.chain| ==> cfg.chain[h].height == h && Ascending(cfg.chain[h].events)
  }

  ghost predicate Genuine<App>(cfg: Config<App>, b: Block) {
    0 <= b.height < |cfg.chain| && cfg.chain[b.height] == b
  }

  ghost predicate AllGenuine<App>(cfg: Config<App>, batch: seq<Block>) {
    forall i :: 0 <= i < |batch| ==> Genuine(cfg, batch[i])
  }

  // ---------- The reference: one sequential replay of the chain ----------

  /** The handlers of the first `n` events of `block`, in order, starting from `app`. */
  function FoldEvents<App>(cfg: Config<App>, app: App, block: Block, n: nat): Option<App>
    requires n <= |block.events|
  {
    if n == 0 then Some(app)
    else
      match FoldEvents(cfg, app, block, n - 1)
      case None => None
      case Some(a) => cfg.handle(a, block.events[n - 1], block)
  }

  /** The application state once exactly the blocks start + 1 .. n have been handled, in order. */
  ghost function Replay<App>(cfg: Config<App>, n: int): Option<App>
    requires cfg.start <= n < |cfg.chain| && -1 <= cfg.start
    decreases n - cfg.start
  {
    if n == cfg.start then Some(cfg.initial)
    else
      match Replay(cfg, n - 1)
      case None => None
      case Some(a) => FoldEvents(cfg, a, cfg.chain[n], |cfg.chain[n].events|)
  }

  // ---------- The protocol ----------

  datatype Phase<App> =
    | Down
    | Fetching                                      // awaiting the prefetched or a new batch
    | Checking                                      // about to read the state row
    | Executing(done: nat, working: App, base: int) // inside the transaction begun at height base

  datatype Instance<App> = Instance(
    phase: Phase<App>,
    lastBlock: int,
    batch: seq<Block>,
    next: nat,
    prefetch: Option<int>)

  /** `row` is the `state` table: None until the first instance creates it. */
  datatype System<App> = System(row: Option<int>, app: App, instances: map<nat, Instance<App>>)

  datatype Action<App> =
    | Start(id: nat)
    | Batch(id: nat, blocks: seq<Block>)
    | Check(id: nat)
    | RunEvent(id: nat, disturbed: App)
    | Commit(id: nat)
    | Crash(id: nat)

  predicate IsUp<App>(s: System<App>, id: nat) {
    id in s.instances && !s.instances[id].phase.Down?
  }

  function Put<App>(s: System<App>, id: nat, inst: Instance<App>): System<App> {
    s.(instances := s.instances[id := inst])
  }

  function Kill<App>(s: System<App>, id: nat): System<App>
    requires id in s.instances
  {
    Put(s, id, s.instances[id].(phase := Down))
  }

  /** Awaiting the next batch: an empty one clears the prefetch, a full one starts a new prefetch. */
  function TakeBatch<App>(cfg: Config<App>, inst: Instance<App>, blocks: seq<Block>): Instance<App> {
    if |blocks| == 0 then inst.(phase := Fetching, prefetch := None)
    else
      inst.(phase := Checking, batch := blocks, next := 0,
      prefetch := if |blocks| == cfg.batchSize then Some(inst.lastBlock + |blocks| + 1) else None)
  }

  /** The cursor after a committed block: on to the next block of the batch, or to the next batch. */
  function Advance<App>(inst: Instance<App>, height: int): Instance<App> {
    inst.(lastBlock := height, next := inst.next + 1,
    phase := if inst.next + 1 < |inst.batch| then Checking else Fetching)
  }

  /** One step of one instance; None when the step is not enabled in this state. */
  ghost function Next<App>(cfg: Config<App>, s: System<App>, a: Action<App>): Option<System<App>> {
    match a
    case Start(id) =>
      if IsUp(s, id) then None
      else
        var height := if s.row.Some? then s.row.value else -1;
        Some(Put(s.(row := Some(height)), id, Instance(Fetching, height, [], 0, None)))
    case Batch(id, blocks) =>
      if IsUp(s, id) && s.instances[id].phase.Fetching? && AllGenuine(cfg, blocks)
      then Some(Put(s, id, TakeBatch(cfg, s.instances[id], blocks)))
      else None
    case Check(id) =>
      if !(IsUp(s, id) && s.instances[id].phase.Checking? && s.instances[id].next < |s.instances[id].batch|)
      then None
      else
        var inst := s.instances[id];
        if s.row != Some(inst.lastBlock) || inst.lastBlock + 1 != inst.batch[inst.next].height
        then Some(Kill(s, id))
        else Some(Put(s, id, inst.(phase := Executing(0, s.app, s.row.value))))
    case RunEvent(id, disturbed) =>
      if !(IsUp(s, id) && InTransaction(s.instances[id]) && !AllEventsRun(s.instances[id]))
      then None
      else
        var inst := s.instances[id];
        var block := inst.batch[inst.next];
        var p := inst.phase;
        var result :=
          if s.row == Some(p.base) then cfg.handle(p.working, block.events[p.done], block) else Some(disturbed);
        (match result
         case None => Some(Kill(s, id))
         case Some(w) => Some(Put(s, id, inst.(phase := Executing(p.done + 1, w, p.base)))))
    case Commit(id) =>
      if !(IsUp(s, id) && InTransaction(s.instances[id]) && AllEventsRun(s.instances[id]))
      then None
      else
        var inst := s.instances[id];
        var height := inst.batch[inst.next].height;
        if s.row != Some(height - 1) then Some(Kill(s, id))
        else Some(Put(s.(row := Some(height), app := inst.phase.working), id, Advance(inst, height)))
    case Crash(id) =>
      if IsUp(s, id) then Some(Kill(s, id)) else None
  }

  predicate InTransaction<App>(inst: Instance<App>) {
    inst.phase.Executing? && inst.next < |inst.batch| && inst.phase.done <= |inst.batch[inst.next].events|
  }

  predicate AllEventsRun<App>(inst: Instance<App>)
    requires InTransaction(inst)
  {
    inst.phase.done == |inst.batch[inst.next].events|
  }

  /** A first deployment has no row and starts below block 0; a later one finds the row it left. */
  ghost predicate Initial<App>(cfg: Config<App>, s: System<App>) {
    && s.instances == map[]
    && s.app == cfg.initial
    && s.row == (if cfg.start == -1 && s.row.None? then None else Some(cfg.start))
  }

  ghost function Run<App>(cfg: Config<App>, s: System<App>, trace: seq<Action<App>>): Option<System<App>> {
    if |trace| == 0 then Some(s)
    else
      match Run(cfg, s, trace[..|trace| - 1])
      case None => None
      case Some(t) => Next(cfg, t, trace[|trace| - 1])
  }

  // ---------- The invariant ----------

  /** The height the application state has reached. */
  function Reached<App>(cfg: Config<App>, s: System<App>): int {
    if s.row.Some? then s.row.value else cfg.start
  }

  ghost predicate InstanceOk<App>(cfg: Config<App>, s: System<App>, inst: Instance<App>)
    requires WellFormed(cfg) && cfg.start <= Reached(cfg, s) < |cfg.chain|
  {
    inst.phase.Down? || (
      && s.row.Some?
      && cfg.start <= inst.lastBlock <= s.row.value
      && AllGenuine(cfg, inst.batch)
      && (inst.phase.Checking? ==> inst.next < |inst.batch|)
      && (inst.phase.Executing? ==> TransactionOk(cfg, s, inst)))
  }

  /** A transaction that no other commit has disturbed holds the fold of its block so far. */
  ghost predicate TransactionOk<App>(cfg: Config<App>, s: System<App>, inst: Instance<App>)
    requires WellFormed(cfg) && cfg.start <= Reached(cfg, s) < |cfg.chain|
    requires inst.phase.Executing?
  {
    && InTransaction(inst)
    && inst.batch[inst.next].height == inst.lastBlock + 1
    && inst.lastBlock <= inst.phase.base <= Reached(cfg, s)
    && (s.row == Some(inst.phase.base) ==>
          Some(inst.phase.working) == FoldEvents(cfg, s.app, inst.batch[inst.next], inst.phase.done))
  }

  ghost predicate Inv<App>(cfg: Config<App>, s: System<App>) {
    && WellFormed(cfg)
    && cfg.start <= Reached(cfg, s) < |cfg.chain|
    && (s.row.None? ==> cfg.start == -1)
    && Replay(cfg, Reached(cfg, s)) == Some(s.app)
    && forall id :: id in s.instances ==> InstanceOk(cfg, s, s.instances[id])
  }

  lemma CommitKeepsInv<App>(cfg: Config<App>, s: System<App>, id: nat, t: System<App>)
    requires Inv(cfg, s) && Next(cfg, s, Commit(id)) == Some(t)
    ensures Inv(cfg, t)
    ensures (t.row == s.row && t.app == s.app) || t.row == Some(Reached(cfg, s) + 1)
  {
    var inst := s.instances[id];
    var block := inst.batch[inst.next];
    assert InstanceOk(cfg, s, inst);
    if s.row == Some(block.height - 1) {
      assert Genuine(cfg, block);
      assert Replay(cfg, block.height) == Some(t.app);
      forall other | other in t.instances ensures InstanceOk(cfg, t, t.instances[other]) {
        if other != id { assert InstanceOk(cfg, s, s.instances[other]); }
      }
    }
  }

  /** A step that leaves the row's height and the tables alone, and leaves its own instance in order. */
  lemma LocalStepKeepsInv<App>(cfg: Config<App>, s: System<App>, id: nat, t: System<App>)
    requires Inv(cfg, s) && t.app == s.app && Reached(cfg, t) == Reached(cfg, s)
    requires id in t.instances && t.instances == s.instances[id := t.instances[id]]
    requires t.row == s.row || (s.row.None? && t.row.Some?)
    requires InstanceOk(cfg, t, t.instances[id])
    ensures Inv(cfg, t)
  {
    forall other | other in t.instances ensures InstanceOk(cfg, t, t.instances[other]) {
      if other != id { assert InstanceOk(cfg, s, s.instances[other]); }
    }
  }

  /** Every step keeps the invariant, and moves the height by at most one block. */
  lemma StepKeepsInv<App>(cfg: Config<App>, s: System<App>, a: Action<App>, t: System<App>)
    requires Inv(cfg, s) && Next(cfg, s, a) == Some(t)
    ensures Inv(cfg, t)
    ensures (Reached(cfg, t) == Reached(cfg, s) && t.app == s.app) || Reached(cfg, t) == Reached(cfg, s) + 1
  {
    if a.Commit? {
      CommitKeepsInv(cfg, s, a.id, t);
    } else {
      if a.id in s.instances { assert InstanceOk(cfg, s, s.instances[a.id]); }
      LocalStepKeepsInv(cfg, s, a.id, t);
    }
  }

  /**
   MAIN RESULT. However many instances run, in whatever interleaving, crashing and restarting at any
   step, and whatever genuine blocks the indexer hands out (with gaps, repeats or out of order): the
   application state is the sequential replay of exactly the blocks start + 1 .. state.height.
   */
  lemma {:induction false} EveryRunReplaysTheChain<App>(
      cfg: Config<App>, s: System<App>, trace: seq<Action<App>>, t: System<App>)
    requires WellFormed(cfg) && Initial(cfg, s) && Run(cfg, s, trace) == Some(t)
    ensures Inv(cfg, t)
    ensures Replay(cfg, Reached(cfg, t)) == Some(t.app)
  {
    if |trace| > 0 {
      var before := Run(cfg, s, trace[..|trace| - 1]).value;
      EveryRunReplaysTheChain(cfg, s, trace[..|trace| - 1], before);
      StepKeepsInv(cfg, before, trace[|trace| - 1], t);
    }
  }

  // ---------- Exactly once, in order ----------

  datatype Applied = Applied(block: Block, event: Event)

  function EventsOf(block: Block, n: nat): seq<Applied>
    requires n <= |block.events|
  {
    seq(n, i requires 0 <= i < n => Applied(block, block.events[i]))
  }

  /** Every event of the blocks start + 1 .. n, block after block. */
  ghost function EventLog<App>(cfg: Config<App>, n: int): seq<Applied>
    requires -1 <= cfg.start <= n < |cfg.chain|
    decreases n - cfg.start
  {
    if n == cfg.start then [] else EventLog(cfg, n - 1) + EventsOf(cfg.chain[n], |cfg.chain[n].events|)
  }

  ghost function FoldLog<App>(cfg: Config<App>, app: App, log: seq<Applied>): Option<App> {
    if |log| == 0 then Some(app)
    else
      match FoldLog(cfg, app, log[..|log| - 1])
      case None => None
      case Some(a) => cfg.handle(a, log[|log| - 1].event, log[|log| - 1].block)
  }

  ghost predicate Precedes(a: Applied, b: Applied) {
    a.block.height < b.block.height
    || (a.block.height == b.block.height && a.event.indexInBlock < b.event.indexInBlock)
  }

  lemma {:induction false} FoldLogAppends<App>(cfg: Config<App>, app: App, log: seq<Applied>, block: Block, n: nat)
    requires n <= |block.events|
    ensures FoldLog(cfg, app, log + EventsOf(block, n))
         == match FoldLog(cfg, app, log) case None => None case Some(a) => FoldEvents(cfg, a, block, n)
  {
    var whole := log + EventsOf(block, n);
    if n == 0 {
      assert whole == log;
    } else {
      FoldLogAppends(cfg, app, log, block, n - 1);
      assert whole[..|whole| - 1] == log + EventsOf(block, n - 1);
    }
  }

  /** The replay is the fold of the handlers over the event log. */
  lemma {:induction false} ReplayFoldsTheLog<App>(cfg: Config<App>, n: int)
    requires WellFormed(cfg) && cfg.start <= n < |cfg.chain|
    ensures Replay(cfg, n) == FoldLog(cfg, cfg.initial, EventLog(cfg, n))
    decreases n - cfg.start
  {
    if n > cfg.start {
      ReplayFoldsTheLog(cfg, n - 1);
      FoldLogAppends(cfg, cfg.initial, EventLog(cfg, n - 1), cfg.chain[n], |cfg.chain[n].events|);
    }
  }

  /** The log holds the events of exactly those blocks. */
  lemma {:induction false} LogHoldsExactlyTheEvents<App>(cfg: Config<App>, n: int)
    requires WellFormed(cfg) && cfg.start <= n < |cfg.chain|
    ensures forall x :: x in EventLog(cfg, n) <==>
              (cfg.start < x.block.height <= n && cfg.chain[x.block.height] == x.block && x.event in x.block.events)
    decreases n - cfg.start
  {
    if n > cfg.start {
      LogHoldsExactlyTheEvents(cfg, n - 1);
      var last := EventsOf(cfg.chain[n], |cfg.chain[n].events|);
      forall x: Applied | x.block == cfg.chain[n] && x.event in x.block.events ensures x in last {
        var i :| 0 <= i < |x.block.events| && x.block.events[i] == x.event;
        assert last[i] == x;
      }
    }
  }

  ghost predicate InChainOrder(log: seq<Applied>) {
    forall i, j :: 0 <= i < j < |log| ==> Precedes(log[i], log[j])
  }

  /** A log of lower blocks followed by one block's events. */
  lemma BlockFollows(log: seq<Applied>, block: Block)
    requires InChainOrder(log) && Ascending(block.events)
    requires forall x :: x in log ==> x.block.height < block.height
    ensures InChainOrder(log + EventsOf(block, |block.events|))
  {
  }

  /** The log is strictly ordered by height and index in the block, so no event occurs in it twice. */
  lemma {:induction false} LogIsStrictlyOrdered<App>(cfg: Config<App>, n: int)
    requires WellFormed(cfg) && cfg.start <= n < |cfg.chain|
    ensures InChainOrder(EventLog(cfg, n))
    decreases n - cfg.start
  {
    if n > cfg.start {
      LogIsStrictlyOrdered(cfg, n - 1);
      LogHoldsExactlyTheEvents(cfg, n - 1);
      BlockFollows(EventLog(cfg, n - 1), cfg.chain[n]);
    }
  }

  /**
   In every reachable state the application state is the result of handling each event of the blocks
   start + 1 .. state.height exactly once, in chain order, and nothing else.
   */
  lemma EveryRunAppliesEachEventOnce<App>(cfg: Config<App>, s: System<App>, trace: seq<Action<App>>, t: System<App>)
    requires WellFormed(cfg) && Initial(cfg, s) && Run(cfg, s, trace) == Some(t)
    ensures cfg.start <= Reached(cfg, t) < |cfg.chain|
    ensures FoldLog(cfg, cfg.initial, EventLog(cfg, Reached(cfg, t))) == Some(t.app)
  {
    EveryRunReplaysTheChain(cfg, s, trace, t);
    ReplayFoldsTheLog(cfg, Reached(cfg, t));
  }

  /** Some moment of the run has the state row at height h. */
  ghost predicate Visits<App>(cfg: Config<App>, s: System<App>, trace: seq<Action<App>>, h: int) {
    exists k :: 0 <= k <= |trace| && Run(cfg, s, trace[..k]).Some? && Reached(cfg, Run(cfg, s, trace[..k]).value) == h
  }

  /** The height never falls and never skips a block. */
  lemma {:induction false} HeightGrowsOneByOne<App>(
      cfg: Config<App>, s: System<App>, trace: seq<Action<App>>, t: System<App>)
    requires Inv(cfg, s) && Run(cfg, s, trace) == Some(t)
    ensures Inv(cfg, t) && Reached(cfg, s) <= Reached(cfg, t)
    ensures forall h :: Reached(cfg, s) <= h <= Reached(cfg, t) ==> Visits(cfg, s, trace, h)
  {
    assert trace[..|trace|] == trace;
    if |trace| > 0 {
      var n := |trace| - 1;
      var before := Run(cfg, s, trace[..n]).value;
      HeightGrowsOneByOne(cfg, s, trace[..n], before);
      StepKeepsInv(cfg, before, trace[n], t);
      forall h | Reached(cfg, s) <= h <= Reached(cfg, t) ensures Visits(cfg, s, trace, h) {
        if h <= Reached(cfg, before) {
          assert Visits(cfg, s, trace[..n], h);
          var k :| 0 <= k <= n && Run(cfg, s, trace[..n][..k]).Some?
                   && Reached(cfg, Run(cfg, s, trace[..n][..k]).value) == h;
          assert trace[..n][..k] == trace[..k];
        }
      }
    } else {
      assert Run(cfg, s, trace[..0]) == Some(s);
    }
  }
}
