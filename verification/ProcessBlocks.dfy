/**
 The processing loop itself (packages/swap/src/processBlocks.ts), as one instance runs it, proved to be
 a run of the protocol of module BlockProcessor. The environment is a script: the answer to each batch
 the loop awaits. When the script is used up the exit signal arrives.
 */
module ProcessBlocks {
  import opened Prelude
  import opened Indexer
  import opened BlockProcessor

  /** The first success among at most five attempts; None when the fifth fails too. */
  method FetchBlocks(attempts: nat -> Option<seq<Block>>) returns (r: Option<seq<Block>>)
    ensures r.Some? ==> exists i :: 0 <= i < 5 && attempts(i) == r && forall j :: 0 <= j < i ==> attempts(j).None?
    ensures r.None? ==> forall i :: 0 <= i < 5 ==> attempts(i).None?
  {
    var i := 0;
    while i < 5
      invariant 0 <= i <= 5
      invariant forall j :: 0 <= j < i ==> attempts(j).None?
    {
      r := attempts(i);
      if r.Some? { return; }
      i := i + 1;
    }
    return None;
  }

  /** What an awaited batch turns out to be: the hot database when the query ran, or five failures. */
  datatype Answer = Unavailable | Answer(hot: Hot)

  datatype Outcome =
    | Stopped          // exit signal
    | FetchFailed      // `failed to fetch batch`
    | HandlerFailed    // a handler is missing or throws
    | StateMismatch    // `state height is not equal to lastBlock` or `failed to update state`
    | HeightMismatch   // `block height is not monotonically increasing`

  class Database<App> {
    var row: Option<int>
    var app: App

    constructor (row: Option<int>, app: App)
      ensures this.row == row && this.app == app
    {
      this.row := row;
      this.app := app;
    }

    /** The system in which this database is shared by instance 0 alone, in the given local state. */
    function With(inst: Instance<App>): System<App>
      reads this
    {
      System(row, app, map[0 := inst])
    }
  }

  ghost predicate ValidScript(script: seq<Answer>, chainLength: nat) {
    forall i :: 0 <= i < |script| && script[i].Answer? ==> ValidHot(script[i].hot, chainLength)
  }

  /** The highest block up to n that the handlers get through. */
  ghost function Furthest<App>(cfg: Config<App>, n: int): (m: int)
    requires -1 <= cfg.start <= n < |cfg.chain|
    ensures cfg.start <= m <= n && Replay(cfg, m).Some?
    ensures forall i :: m < i <= n ==> Replay(cfg, i).None?
    decreases n - cfg.start
  {
    if Replay(cfg, n).Some? then n else Furthest(cfg, n - 1)
  }

  /** How the loop ends, and the height it leaves behind. */
  datatype Verdict = Verdict(outcome: Outcome, height: int)

  /** The batch an instance at height h gets. */
  function Wanted<App>(cfg: Config<App>, h: int, hot: Hot): seq<Block>
    requires ValidHot(hot, |cfg.chain|)
  {
    HotSlice(cfg.chain, hot, h + 1, cfg.batchSize)
  }

  /** What one answer makes of an undisturbed instance at height h; Stopped means that it goes on. */
  ghost function RoundOf<App>(cfg: Config<App>, h: int, hot: Hot): (v: Verdict)
    requires WellFormed(cfg) && cfg.start <= h < |cfg.chain| && ValidHot(hot, |cfg.chain|)
    ensures cfg.start <= v.height < |cfg.chain|
  {
    var n := |Wanted(cfg, h, hot)|;
    if n == 0 then Verdict(Stopped, h)
    else if h < hot.archived then Verdict(HeightMismatch, h)
    else if Replay(cfg, h + n).None? then Verdict(HandlerFailed, Furthest(cfg, h + n))
    else Verdict(Stopped, h + n)
  }

  /** What the answers of a script make of it. */
  ghost function Ending<App>(cfg: Config<App>, h: int, script: seq<Answer>): Verdict
    requires WellFormed(cfg) && cfg.start <= h < |cfg.chain| && ValidScript(script, |cfg.chain|)
    decreases |script|
  {
    if |script| == 0 then Verdict(Stopped, h)
    else if script[0].Unavailable? then Verdict(FetchFailed, h)
    else
      var v := RoundOf(cfg, h, script[0].hot);
      if v.outcome == Stopped then Ending(cfg, v.height, script[1..]) else v
  }

  /** Once the handlers fail on an event or a block they are never past it. */
  lemma {:induction false} FoldStaysFailed<App>(cfg: Config<App>, app: App, block: Block, m: nat, n: nat)
    requires m <= n <= |block.events| && FoldEvents(cfg, app, block, m).None?
    ensures FoldEvents(cfg, app, block, n).None?
  {
    if m < n { FoldStaysFailed(cfg, app, block, m, n - 1); }
  }

  lemma {:induction false} ReplayStaysFailed<App>(cfg: Config<App>, m: int, n: int)
    requires -1 <= cfg.start <= m <= n < |cfg.chain| && Replay(cfg, m).None?
    ensures Replay(cfg, n).None?
    decreases n - m
  {
    if m < n { ReplayStaysFailed(cfg, m, n - 1); }
  }

  lemma RunAppends<App>(cfg: Config<App>, s: System<App>, trace: seq<Action<App>>, t: System<App>, a: Action<App>)
    requires Run(cfg, s, trace) == Some(t)
    ensures Run(cfg, s, trace + [a]) == Next(cfg, t, a)
  {
    assert (trace + [a])[..|trace|] == trace;
  }

  /** The system of instance 0 alone. */
  ghost function Alone<App>(row: Option<int>, app: App, inst: Instance<App>): System<App> {
    System(row, app, map[0 := inst])
  }

  lemma AloneMoves<App>(inst: Instance<App>, moved: Instance<App>)
    ensures (map[0 := inst])[0 := moved] == map[0 := moved]
  {
  }

  lemma CheckRuns<App>(cfg: Config<App>, s: System<App>, trace: seq<Action<App>>, row: Option<int>, app: App, inst: Instance<App>)
    requires Run(cfg, s, trace) == Some(Alone(row, app, inst)) && inst.phase.Checking? && inst.next < |inst.batch|
    ensures var passes := row == Some(inst.lastBlock) && inst.lastBlock + 1 == inst.batch[inst.next].height;
            Run(cfg, s, trace + [Check(0)])
              == Some(Alone(row, app, inst.(phase := if passes then Executing(0, app, inst.lastBlock) else Down)))
  {
    var passes := row == Some(inst.lastBlock) && inst.lastBlock + 1 == inst.batch[inst.next].height;
    AloneMoves(inst, inst.(phase := if passes then Executing(0, app, inst.lastBlock) else Down));
    RunAppends(cfg, s, trace, Alone(row, app, inst), Check(0));
  }

  lemma EventRuns<App>(cfg: Config<App>, s: System<App>, trace: seq<Action<App>>, row: int, app: App, inst: Instance<App>,
                       done: nat, working: App)
    requires Run(cfg, s, trace) == Some(Alone(Some(row), app, inst.(phase := Executing(done, working, row))))
    requires inst.next < |inst.batch| && done < |inst.batch[inst.next].events|
    ensures var result := cfg.handle(working, inst.batch[inst.next].events[done], inst.batch[inst.next]);
            var moved := inst.(phase := if result.None? then Down else Executing(done + 1, result.value, row));
            Run(cfg, s, trace + [RunEvent(0, app)]) == Some(Alone(Some(row), app, moved))
  {
    var result := cfg.handle(working, inst.batch[inst.next].events[done], inst.batch[inst.next]);
    var before := inst.(phase := Executing(done, working, row));
    AloneMoves(before, inst.(phase := if result.None? then Down else Executing(done + 1, result.value, row)));
    RunAppends(cfg, s, trace, Alone(Some(row), app, before), RunEvent(0, app));
  }

  lemma CommitRuns<App>(cfg: Config<App>, s: System<App>, trace: seq<Action<App>>, row: int, app: App, inst: Instance<App>)
    requires Run(cfg, s, trace) == Some(Alone(Some(row), app, inst))
    requires InTransaction(inst) && AllEventsRun(inst) && inst.batch[inst.next].height == row + 1
    ensures Run(cfg, s, trace + [Commit(0)]) == Some(Alone(Some(row + 1), inst.phase.working, Advance(inst, row + 1)))
  {
    AloneMoves(inst, Advance(inst, row + 1));
    RunAppends(cfg, s, trace, Alone(Some(row), app, inst), Commit(0));
  }

  /** The handlers of one block's events, inside its transaction; None when one is missing or throws. */
  method RunHandlers<App>(cfg: Config<App>, db: Database<App>, inst: Instance<App>,
                          ghost s: System<App>, ghost before: seq<Action<App>>)
    returns (result: Option<App>, ghost trace: seq<Action<App>>, ghost end: Instance<App>)
    requires inst.next < |inst.batch| && db.row.Some? && inst.phase == Executing(0, db.app, db.row.value)
    requires Run(cfg, s, before) == Some(Alone(db.row, db.app, inst))
    ensures Run(cfg, s, trace) == Some(Alone(db.row, db.app, end))
    ensures result == FoldEvents(cfg, db.app, inst.batch[inst.next], |inst.batch[inst.next].events|)
    ensures result.Some? ==> end == inst.(phase := Executing(|inst.batch[inst.next].events|, result.value, db.row.value))
  {
    var block := inst.batch[inst.next];
    var working, done := db.app, 0;
    trace := before;
    while done < |block.events|
      invariant 0 <= done <= |block.events|
      invariant Some(working) == FoldEvents(cfg, db.app, block, done)
      invariant Run(cfg, s, trace) == Some(Alone(db.row, db.app, inst.(phase := Executing(done, working, db.row.value))))
    {
      EventRuns(cfg, s, trace, db.row.value, db.app, inst, done, working);
      trace := trace + [RunEvent(0, db.app)];
      result := cfg.handle(working, block.events[done], block);
      if result.None? {
        FoldStaysFailed(cfg, db.app, block, done + 1, |block.events|);
        return None, trace, inst.(phase := Down);
      }
      working, done := result.value, done + 1;
    }
    return Some(working), trace, inst.(phase := Executing(done, working, db.row.value));
  }

  /** How the attempt to commit a block ends, and what it leaves of the row and the tables. */
  predicate Committed<App(==)>(cfg: Config<App>, inst: Instance<App>, block: Block, rowBefore: Option<int>, before: App,
                               outcome: Option<Outcome>, row: Option<int>, app: App)
  {
    var result := FoldEvents(cfg, before, block, |block.events|);
    && outcome == (if rowBefore != Some(inst.lastBlock) then Some(StateMismatch)
                   else if block.height != inst.lastBlock + 1 then Some(HeightMismatch)
                   else if result.None? then Some(HandlerFailed) else None)
    && if outcome.None? then row == Some(block.height) && Some(app) == result else row == rowBefore && app == before
  }

  /** One block's checks and transaction: all handlers, then the compare-and-set, or no effect at all. */
  method CommitBlock<App>(cfg: Config<App>, db: Database<App>, inst: Instance<App>,
                          ghost s: System<App>, ghost before: seq<Action<App>>)
    returns (outcome: Option<Outcome>, ghost trace: seq<Action<App>>, ghost t: System<App>)
    requires inst.phase.Checking? && inst.next < |inst.batch|
    requires Run(cfg, s, before) == Some(db.With(inst))
    modifies db
    ensures Run(cfg, s, trace) == Some(t) && t.row == db.row && t.app == db.app
    ensures outcome.None? ==> t == db.With(Advance(inst, inst.batch[inst.next].height))
    ensures Committed(cfg, inst, inst.batch[inst.next], old(db.row), old(db.app), outcome, db.row, db.app)
  {
    var block := inst.batch[inst.next];
    CheckRuns(cfg, s, before, db.row, db.app, inst);
    trace, t := before + [Check(0)], Alone(db.row, db.app, inst.(phase := Down));

    if db.row != Some(inst.lastBlock) { return Some(StateMismatch), trace, t; }
    if inst.lastBlock + 1 != block.height { return Some(HeightMismatch), trace, t; }

    var result;
    ghost var end;
    result, trace, end := RunHandlers(cfg, db, inst.(phase := Executing(0, db.app, inst.lastBlock)), s, trace);
    if result.None? { return Some(HandlerFailed), trace, Alone(db.row, db.app, end); }

    CommitRuns(cfg, s, trace, inst.lastBlock, db.app, end);
    trace := trace + [Commit(0)];
    if db.row != Some(block.height - 1) { assert false; }
    db.row, db.app := Some(block.height), result.value;
    t := db.With(Advance(inst, block.height));
    outcome := None;
  }

  ghost predicate Consecutive(batch: seq<Block>) {
    forall i :: 0 <= i < |batch| ==> batch[i].height == batch[0].height + i
  }

  /** How a batch ends for an instance at height h, and which height it leaves. */
  ghost predicate BatchEnds<App>(cfg: Config<App>, h: int, batch: seq<Block>, outcome: Option<Outcome>, after: int)
    requires WellFormed(cfg) && |batch| > 0
  {
    if batch[0].height != h + 1 then outcome == Some(HeightMismatch) && after == h
    else
      cfg.start <= h < h + |batch| < |cfg.chain|
      && if Replay(cfg, h + |batch|).None? then outcome == Some(HandlerFailed) && after == Furthest(cfg, h + |batch|)
         else outcome.None? && after == h + |batch|
  }

  /** The `for` loop over one batch. */
  method ProcessBatch<App>(cfg: Config<App>, db: Database<App>, start: Instance<App>,
                           ghost s: System<App>, ghost before: seq<Action<App>>)
    returns (outcome: Option<Outcome>, end: Instance<App>, ghost trace: seq<Action<App>>, ghost t: System<App>)
    requires WellFormed(cfg) && Initial(cfg, s)
    requires start.phase.Checking? && start.next == 0 < |start.batch|
    requires Run(cfg, s, before) == Some(db.With(start)) && db.row == Some(start.lastBlock)
    requires AllGenuine(cfg, start.batch) && Consecutive(start.batch)
    modifies db
    ensures Run(cfg, s, trace) == Some(t) && t.row == db.row && t.app == db.app && db.row.Some?
    ensures BatchEnds(cfg, start.lastBlock, start.batch, outcome, db.row.value)
    ensures outcome.None? ==> t == db.With(end) && db.row == Some(end.lastBlock)
    ensures outcome.None? ==> end == start.(phase := Fetching, next := |start.batch|, lastBlock := start.lastBlock + |start.batch|)
  {
    end, trace, t := start, before, db.With(start);
    RowStands(cfg, s, before, t);
    while end.next < |start.batch|
      invariant MidBatch(cfg, start, end, db.row, db.app)
      invariant Run(cfg, s, trace) == Some(t) && t == db.With(end)
      decreases |start.batch| - end.next
    {
      ghost var row, app := db.row, db.app;
      outcome, trace, t := CommitBlock(cfg, db, end, s, trace);
      CommitDecides(cfg, start, end, row, app, outcome, db.row, db.app);
      if outcome.Some? { return; }
      end := Advance(end, end.batch[end.next].height);
    }
    outcome := None;
  }

  /** Where the loop over a batch stands after the first blocks of it. */
  ghost predicate MidBatch<App>(cfg: Config<App>, start: Instance<App>, end: Instance<App>, row: Option<int>, app: App)
    requires WellFormed(cfg) && |start.batch| > 0
  {
    && end.next <= |start.batch|
    && end == start.(phase := if end.next < |start.batch| then Checking else Fetching,
                     next := end.next, lastBlock := start.lastBlock + end.next)
    && row == Some(end.lastBlock) && cfg.start <= start.lastBlock && Stands(cfg, end.lastBlock, app)
    && (end.next > 0 ==> start.batch[0].height == start.lastBlock + 1)
    && (end.next == |start.batch| ==> BatchEnds(cfg, start.lastBlock, start.batch, None, end.lastBlock))
  }

  /** The tables are the replay up to height h. */
  ghost predicate Stands<App>(cfg: Config<App>, h: int, app: App) {
    -1 <= cfg.start <= h < |cfg.chain| && Replay(cfg, h) == Some(app)
  }

  lemma RowStands<App>(cfg: Config<App>, s: System<App>, trace: seq<Action<App>>, t: System<App>)
    requires WellFormed(cfg) && Initial(cfg, s) && Run(cfg, s, trace) == Some(t) && t.row.Some?
    ensures Stands(cfg, t.row.value, t.app)
  {
    EveryRunReplaysTheChain(cfg, s, trace, t);
  }

  /** The next block of a batch either ends it, as the whole batch was bound to end, or takes the loop one block on. */
  lemma CommitDecides<App>(cfg: Config<App>, start: Instance<App>, end: Instance<App>, rowBefore: Option<int>, before: App,
                           outcome: Option<Outcome>, row: Option<int>, app: App)
    requires WellFormed(cfg) && |start.batch| > 0 && AllGenuine(cfg, start.batch) && Consecutive(start.batch)
    requires MidBatch(cfg, start, end, rowBefore, before) && end.next < |start.batch|
    requires Committed(cfg, end, end.batch[end.next], rowBefore, before, outcome, row, app)
    ensures outcome.Some? ==> row.Some? && BatchEnds(cfg, start.lastBlock, start.batch, outcome, row.value)
    ensures outcome.None? ==> MidBatch(cfg, start, Advance(end, end.batch[end.next].height), row, app)
  {
    BatchIsAhead(cfg, start);
    if start.batch[0].height == start.lastBlock + 1 {
      NextBlockReplays(cfg, start, end.next);
      if outcome.Some? { StopsAt(cfg, end.lastBlock, start.lastBlock + |start.batch|); }
    }
  }

  /** A batch that begins with the next block lies in the chain. */
  lemma BatchIsAhead<App>(cfg: Config<App>, start: Instance<App>)
    requires |start.batch| > 0 && AllGenuine(cfg, start.batch) && Consecutive(start.batch)
    ensures start.batch[0].height == start.lastBlock + 1 ==> start.lastBlock + |start.batch| < |cfg.chain|
  {
    assert Genuine(cfg, start.batch[|start.batch| - 1]);
  }

  lemma NextBlockReplays<App>(cfg: Config<App>, start: Instance<App>, k: nat)
    requires WellFormed(cfg) && k < |start.batch| && AllGenuine(cfg, start.batch) && Consecutive(start.batch)
    requires cfg.start <= start.lastBlock && start.batch[0].height == start.lastBlock + 1
    requires start.lastBlock + k < |cfg.chain| && Replay(cfg, start.lastBlock + k).Some?
    ensures var block := start.batch[k];
            && block.height == start.lastBlock + k + 1 < |cfg.chain|
            && Replay(cfg, block.height) ==
               FoldEvents(cfg, Replay(cfg, start.lastBlock + k).value, block, |block.events|)
  {
    assert Genuine(cfg, start.batch[k]);
  }

  lemma {:induction false} StopsAt<App>(cfg: Config<App>, h: int, n: int)
    requires -1 <= cfg.start <= h < n < |cfg.chain| && Replay(cfg, h).Some? && Replay(cfg, h + 1).None?
    ensures Replay(cfg, n).None? && Furthest(cfg, n) == h
  {
    ReplayStaysFailed(cfg, h + 1, n);
    var m := Furthest(cfg, n);
    if m > h { ReplayStaysFailed(cfg, h + 1, m); }
  }

  lemma SliceIsConsecutive<App>(cfg: Config<App>, hot: Hot, from: int)
    requires WellFormed(cfg) && ValidHot(hot, |cfg.chain|) && 0 <= from
    ensures var blocks := HotSlice(cfg.chain, hot, from, cfg.batchSize);
            && AllGenuine(cfg, blocks) && |blocks| <= cfg.batchSize
            && Consecutive(blocks) && (|blocks| > 0 ==> (blocks[0].height != from <==> from <= hot.archived))
  {
    var blocks, lo := HotSlice(cfg.chain, hot, from, cfg.batchSize), Max(from, hot.archived + 1);
    forall i | 0 <= i < |blocks| ensures blocks[i].height == lo + i && Genuine(cfg, blocks[i]) {
      assert blocks[i] == cfg.chain[lo + i];
    }
  }

  lemma Boots<App>(cfg: Config<App>, row: Option<int>, app: App)
    ensures var height := if row.Some? then row.value else -1;
            Run(cfg, System(row, app, map[]), [Start(0)])
              == Some(System(Some(height), app, map[0 := Instance(Fetching, height, [], 0, None)]))
  {
    var s: System<App> := System(row, app, map[]);
    RunAppends(cfg, s, [], s, Start(0));
    var start: seq<Action<App>> := [Start(0)];
    assert [] + start == start;
  }

  lemma TakesBatch<App>(cfg: Config<App>, s: System<App>, trace: seq<Action<App>>, t: System<App>,
                        inst: Instance<App>, blocks: seq<Block>)
    requires Run(cfg, s, trace) == Some(t) && t.instances == map[0 := inst]
    requires inst.phase.Fetching? && AllGenuine(cfg, blocks)
    ensures Run(cfg, s, trace + [Batch(0, blocks)]) == Some(t.(instances := map[0 := TakeBatch(cfg, inst, blocks)]))
  {
    RunAppends(cfg, s, trace, t, Batch(0, blocks));
    assert t.instances[0 := TakeBatch(cfg, inst, blocks)] == map[0 := TakeBatch(cfg, inst, blocks)];
  }

  /** What is prefetched while a batch of n blocks is processed that leads up to the given height. */
  function Prefetched<App>(cfg: Config<App>, n: nat, upTo: int): Option<int> {
    if 0 < n == cfg.batchSize then Some(upTo + 1) else None
  }

  lemma PrefetchesNext<App>(cfg: Config<App>, inst: Instance<App>, blocks: seq<Block>)
    ensures TakeBatch(cfg, inst, blocks).prefetch == Prefetched(cfg, |blocks|, inst.lastBlock + |blocks|)
    ensures TakeBatch(cfg, inst, blocks).lastBlock == inst.lastBlock
  {
  }

  /** One round of the `while` loop: await a batch, prefetch if it was full, process it. */
  method AwaitAndProcess<App>(cfg: Config<App>, db: Database<App>, inst: Instance<App>, hot: Hot,
                              ghost s: System<App>, ghost before: seq<Action<App>>)
    returns (outcome: Option<Outcome>, end: Instance<App>, ghost trace: seq<Action<App>>, ghost t: System<App>)
    requires WellFormed(cfg) && Initial(cfg, s) && ValidHot(hot, |cfg.chain|)
    requires Run(cfg, s, before) == Some(db.With(inst)) && db.row == Some(inst.lastBlock)
    requires inst.phase.Fetching? && -1 <= inst.lastBlock
    requires inst.prefetch.Some? ==> inst.prefetch.value == inst.lastBlock + 1
    requires cfg.start <= inst.lastBlock < |cfg.chain|
    modifies db
    ensures Run(cfg, s, trace) == Some(t) && t.row == db.row && t.app == db.app && db.row.Some?
    ensures outcome.None? ==> t == db.With(end) && db.row == Some(end.lastBlock) && end.phase.Fetching?
    ensures outcome.None? ==> end.prefetch == Prefetched(cfg, |Wanted(cfg, inst.lastBlock, hot)|, end.lastBlock)
    ensures outcome.None? ==> cfg.start <= end.lastBlock < |cfg.chain|
    ensures outcome != Some(Stopped)
    ensures RoundOf(cfg, inst.lastBlock, hot) == Verdict(if outcome.Some? then outcome.value else Stopped, db.row.value)
  {
    var from := if inst.prefetch.Some? then inst.prefetch.value else inst.lastBlock + 1;
    var blocks := HotSlice(cfg.chain, hot, from, cfg.batchSize);
    SliceIsConsecutive(cfg, hot, from);
    assert blocks == Wanted(cfg, inst.lastBlock, hot);
    PrefetchesNext(cfg, inst, blocks);
    TakesBatch(cfg, s, before, db.With(inst), inst, blocks);
    trace, end := before + [Batch(0, blocks)], TakeBatch(cfg, inst, blocks);
    t := db.With(end);
    outcome := None;
    if |blocks| > 0 {
      outcome, end, trace, t := ProcessBatch(cfg, db, end, s, trace);
      BatchDecidesRound(cfg, inst.lastBlock, hot, outcome, db.row.value);
    }
  }

  lemma BatchDecidesRound<App>(cfg: Config<App>, h: int, hot: Hot, outcome: Option<Outcome>, after: int)
    requires WellFormed(cfg) && cfg.start <= h < |cfg.chain| && ValidHot(hot, |cfg.chain|)
    requires |Wanted(cfg, h, hot)| > 0 && BatchEnds(cfg, h, Wanted(cfg, h, hot), outcome, after)
    ensures RoundOf(cfg, h, hot) == Verdict(if outcome.Some? then outcome.value else Stopped, after)
    ensures outcome != Some(Stopped)
  {
    SliceIsConsecutive(cfg, hot, h + 1);
  }

  /**
   The whole loop. With no other instance about, the script decides exactly how it ends and at which height:
   it never trips over the state row, trips over a block height exactly when a batch comes and the archive is
   above the cursor, stops at the first block the handlers do not get through, and otherwise covers each batch
   whole, whatever mix of full, short and empty batches and prefetches occurs. `NothingIsMissed` says what that
   amounts to.
   */
  method ProcessBlocks<App>(cfg: Config<App>, db: Database<App>, script: seq<Answer>)
    returns (outcome: Outcome, ghost trace: seq<Action<App>>, ghost final: System<App>)
    requires WellFormed(cfg) && ValidScript(script, |cfg.chain|)
    requires Initial(cfg, System(db.row, db.app, map[]))
    modifies db
    ensures Run(cfg, old(System(db.row, db.app, map[])), trace) == Some(final)
    ensures final.row == db.row && final.app == db.app && db.row.Some?
    ensures Inv(cfg, final)
    ensures Verdict(outcome, db.row.value) == Ending(cfg, cfg.start, script)
  {
    ghost var s0 := System(db.row, db.app, map[]);
    Boots(cfg, db.row, db.app);
    if db.row.None? { db.row := Some(-1); }
    var inst := Instance(Fetching, db.row.value, [], 0, None);
    trace, final := [Start(0)], db.With(inst);
    outcome := Stopped;

    var k := 0;
    while k < |script|
      invariant 0 <= k <= |script|
      invariant Run(cfg, s0, trace) == Some(final)
      invariant final == db.With(inst) && db.row == Some(inst.lastBlock) && inst.phase.Fetching?
      invariant inst.prefetch.Some? ==> inst.prefetch.value == inst.lastBlock + 1
      invariant cfg.start <= inst.lastBlock < |cfg.chain|
      invariant Ending(cfg, inst.lastBlock, script[k..]) == Ending(cfg, cfg.start, script)
      invariant outcome == Stopped
    {
      if script[k].Unavailable? {
        outcome := FetchFailed;
        break;
      }
      var failure;
      failure, inst, trace, final := AwaitAndProcess(cfg, db, inst, script[k].hot, s0, trace);
      assert script[k..][1..] == script[k + 1..];
      if failure.Some? {
        outcome := failure.value;
        break;
      }
      k := k + 1;
    }
    EveryRunReplaysTheChain(cfg, s0, trace, final);
  }

  ghost predicate Overtaken<App>(cfg: Config<App>, script: seq<Answer>, height: int)
    requires ValidScript(script, |cfg.chain|)
  {
    exists i :: 0 <= i < |script| && script[i].Answer? && height < script[i].hot.archived && |Wanted(cfg, height, script[i].hot)| > 0
  }

  lemma OvertakenLater<App>(cfg: Config<App>, script: seq<Answer>, height: int)
    requires ValidScript(script, |cfg.chain|) && |script| > 0
    requires Overtaken(cfg, script[1..], height)
    ensures Overtaken(cfg, script, height)
  {
    var rest := script[1..];
    var i :| 0 <= i < |rest| && rest[i].Answer? && height < rest[i].hot.archived && |Wanted(cfg, height, rest[i].hot)| > 0;
    assert script[i + 1] == rest[i];
  }

  /** What a verdict that began at height h means. */
  ghost predicate Justified<App>(cfg: Config<App>, h: int, script: seq<Answer>, v: Verdict)
    requires WellFormed(cfg) && ValidScript(script, |cfg.chain|)
  {
    && cfg.start <= h <= v.height < |cfg.chain| && Replay(cfg, v.height).Some?
    && match v.outcome
       case Stopped => true
       case FetchFailed => Unavailable in script
       case HeightMismatch => Overtaken(cfg, script, v.height)
       case HandlerFailed => v.height + 1 < |cfg.chain| && Replay(cfg, v.height + 1).None?
       case StateMismatch => false
  }

  lemma JustifiedLater<App>(cfg: Config<App>, h: int, later: int, script: seq<Answer>, v: Verdict)
    requires WellFormed(cfg) && ValidScript(script, |cfg.chain|) && |script| > 0
    requires cfg.start <= h <= later && Justified(cfg, later, script[1..], v)
    ensures Justified(cfg, h, script, v)
  {
    if v.outcome == HeightMismatch { OvertakenLater(cfg, script, v.height); }
  }

  /** One round is justified by the one answer it takes. */
  lemma RoundIsJustified<App>(cfg: Config<App>, h: int, script: seq<Answer>)
    requires WellFormed(cfg) && cfg.start <= h < |cfg.chain| && ValidScript(script, |cfg.chain|) && Replay(cfg, h).Some?
    requires |script| > 0 && script[0].Answer?
    ensures Justified(cfg, h, script, RoundOf(cfg, h, script[0].hot))
  {
    var n := |Wanted(cfg, h, script[0].hot)|;
    if n > 0 && h < script[0].hot.archived { assert Overtaken(cfg, script, h); }
  }

  /**
   The height never falls; the state row is never the reason; a height mismatch means the archive overtook the
   cursor; a fetch failure is in the script; and a handler failure means the next block cannot be replayed.
   */
  lemma {:induction false} LoopEndsForAReason<App>(cfg: Config<App>, h: int, script: seq<Answer>)
    requires WellFormed(cfg) && cfg.start <= h < |cfg.chain| && ValidScript(script, |cfg.chain|) && Replay(cfg, h).Some?
    ensures Justified(cfg, h, script, Ending(cfg, h, script))
    decreases |script|
  {
    if |script| == 0 {
    } else if script[0].Unavailable? {
    } else {
      var v := RoundOf(cfg, h, script[0].hot);
      RoundIsJustified(cfg, h, script);
      if v.outcome == Stopped {
        LoopEndsForAReason(cfg, v.height, script[1..]);
        JustifiedLater(cfg, h, v.height, script, Ending(cfg, v.height, script[1..]));
      }
    }
  }

  // ---------- Nothing is missed ----------

  /** How many answers see the chain up to block n. */
  function Reaching(script: seq<Answer>, n: int): nat {
    if |script| == 0 then 0
    else (if script[0].Answer? && script[0].hot.head >= n then 1 else 0) + Reaching(script[1..], n)
  }

  /** No round finds the archive above the cursor. */
  ghost predicate AheadOfArchive<App>(cfg: Config<App>, h: int, script: seq<Answer>)
    requires WellFormed(cfg) && cfg.start <= h < |cfg.chain| && ValidScript(script, |cfg.chain|)
    decreases |script|
  {
    |script| > 0 && script[0].Answer? ==>
      script[0].hot.archived <= h && AheadOfArchive(cfg, RoundOf(cfg, h, script[0].hot).height, script[1..])
  }

  /** Such a round that goes on takes a full batch or everything shown. */
  lemma RoundTakesWhatIsShown<App>(cfg: Config<App>, h: int, hot: Hot)
    requires WellFormed(cfg) && cfg.start <= h < |cfg.chain| && ValidHot(hot, |cfg.chain|)
    requires RoundOf(cfg, h, hot).outcome == Stopped && hot.archived <= h
    ensures RoundOf(cfg, h, hot).height == Max(h, Min(hot.head, h + cfg.batchSize))
  {
  }

  /** But an archive that has overtaken the whole hot database stalls the loop: it goes on and gets nowhere. */
  lemma OvertakenAltogetherStalls<App>(cfg: Config<App>, h: int, hot: Hot)
    requires WellFormed(cfg) && cfg.start <= h < |cfg.chain| && ValidHot(hot, |cfg.chain|)
    requires cfg.batchSize > 0 && hot.archived > h
    ensures RoundOf(cfg, h, hot) == if hot.archived == hot.head then Verdict(Stopped, h) else Verdict(HeightMismatch, h)
  {
  }

  /** One more answer of b blocks. */
  lemma OneBatchNearer(n: int, h: int, next: int, end: int, b: nat, later: nat)
    requires end >= next && next >= Min(n, h + b) && end >= Min(n, next + b * later)
    ensures end >= Min(n, h + b * (1 + later))
  {
    assert b * (1 + later) == b + b * later;
    MultiplyLe(0, later, b);
  }

  /**
   MAIN RESULT. A loop that runs through its script with the archive behind it misses no block it was shown: every
   answer that sees block n takes it a full batch nearer, until it is there.
   */
  lemma {:induction false} StoppedLoopCaughtUp<App>(cfg: Config<App>, h: int, script: seq<Answer>, n: int)
    requires WellFormed(cfg) && cfg.start <= h < |cfg.chain| && ValidScript(script, |cfg.chain|)
    requires Ending(cfg, h, script).outcome == Stopped && AheadOfArchive(cfg, h, script)
    ensures Ending(cfg, h, script).height >= h
    ensures Ending(cfg, h, script).height >= Min(n, h + cfg.batchSize * Reaching(script, n))
    decreases |script|
  {
    if |script| > 0 {
      var hot, rest := script[0].hot, script[1..];
      var next := RoundOf(cfg, h, hot).height;
      RoundTakesWhatIsShown(cfg, h, hot);
      StoppedLoopCaughtUp(cfg, next, rest, n);
      var end, later := Ending(cfg, next, rest).height, Reaching(rest, n);
      assert Ending(cfg, h, script).height == end;
      if hot.head >= n {
        OneBatchNearer(n, h, next, end, cfg.batchSize, later);
      } else {
        MultiplyLe(0, later, cfg.batchSize);
      }
    }
  }

  lemma {:induction false} NothingStopsTheLoop<App>(cfg: Config<App>, h: int, script: seq<Answer>)
    requires WellFormed(cfg) && cfg.start <= h < |cfg.chain| && ValidScript(script, |cfg.chain|)
    requires Unavailable !in script && AheadOfArchive(cfg, h, script)
    requires forall m :: cfg.start <= m < |cfg.chain| ==> Replay(cfg, m).Some?
    ensures Ending(cfg, h, script).outcome == Stopped
    decreases |script|
  {
    if |script| > 0 {
      assert script[0].Answer? by { assert script[0] in script; }
      var v := RoundOf(cfg, h, script[0].hot);
      assert v.outcome == Stopped;
      NothingStopsTheLoop(cfg, v.height, script[1..]);
    }
  }

  /**
   MAIN RESULT. If no fetch fails, the archive stays behind the cursor and every block can be replayed, the loop
   runs through its script, and with enough answers that see block n it gets there.
   */
  lemma NothingIsMissed<App>(cfg: Config<App>, h: int, script: seq<Answer>, n: int)
    requires WellFormed(cfg) && cfg.start <= h < |cfg.chain| && ValidScript(script, |cfg.chain|)
    requires cfg.batchSize > 0 && Unavailable !in script && AheadOfArchive(cfg, h, script)
    requires forall m :: cfg.start <= m < |cfg.chain| ==> Replay(cfg, m).Some?
    requires cfg.batchSize * Reaching(script, n) >= n - h
    ensures Ending(cfg, h, script).outcome == Stopped && Ending(cfg, h, script).height >= n
  {
    NothingStopsTheLoop(cfg, h, script);
    StoppedLoopCaughtUp(cfg, h, script, n);
  }
}
