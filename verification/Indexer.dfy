/**
 The indexer database and its client (packages/swap/src/indexer.ts).

 The hot database holds the blocks above the archive watermark; the client caches the watermark, so
 the one it checks against may be older than the one in force when the query runs.
 */
module Indexer {
  import opened Prelude

  /** What a handler finds in an event: a chain-tracking report, or anything else. */
  datatype Payload = ChainState(blockHeight: nat) | Opaque(raw: string)

  datatype Event = Event(name: string, indexInBlock: nat, args: Payload)

  /** A block as the client returns it. */
  datatype Block = Block(height: int, specId: string, events: seq<Event>)

  /** A block with its rows of the `event` table, which come in no particular order. */
  datatype RawBlock = RawBlock(height: int, specId: string, rows: seq<Event>)

  ghost predicate DistinctIndices(rows: seq<Event>) {
    forall i, j :: 0 <= i < j < |rows| ==> rows[i].indexInBlock != rows[j].indexInBlock
  }

  ghost predicate WellFormedChain(raw: seq<RawBlock>) {
    forall h :: 0 <= h < |raw| ==> raw[h].height == h && DistinctIndices(raw[h].rows)
  }

  ghost predicate Ascending(events: seq<Event>) {
    forall i, j :: 0 <= i < j < |events| ==> events[i].indexInBlock < events[j].indexInBlock
  }

  // ---------- The SQL query ----------

  function Insert(e: Event, events: seq<Event>): seq<Event> {
    if |events| == 0 || e.indexInBlock <= events[0].indexInBlock then [e] + events
    else [events[0]] + Insert(e, events[1..])
  }

  /** `ev.name = ANY($3)` and `ORDER BY ev.index_in_block ASC`. */
  function SelectEvents(rows: seq<Event>, names: set<string>): seq<Event> {
    if |rows| == 0 then []
    else
      var rest := SelectEvents(rows[1..], names);
      if rows[0].name in names then Insert(rows[0], rest) else rest
  }

  function ToBlock(raw: RawBlock, names: set<string>): Block {
    Block(raw.height, raw.specId, SelectEvents(raw.rows, names))
  }

  /** The whole chain as it would be served if nothing were archived or missing. */
  function Serve(raw: seq<RawBlock>, names: set<string>): (blocks: seq<Block>)
    ensures |blocks| == |raw|
    ensures forall h :: 0 <= h < |raw| ==> blocks[h] == ToBlock(raw[h], names)
  {
    seq(|raw|, h requires 0 <= h < |raw| => ToBlock(raw[h], names))
  }

  /** `WHERE height >= $1 ORDER BY height ASC LIMIT $2` over rows that are stored by height. */
  function SelectBlocks(rows: seq<RawBlock>, from: int, limit: nat, names: set<string>): seq<Block> {
    if |rows| == 0 || limit == 0 then []
    else if rows[0].height < from then SelectBlocks(rows[1..], from, limit, names)
    else [ToBlock(rows[0], names)] + SelectBlocks(rows[1..], from, limit - 1, names)
  }

  /** The hot database at one moment: blocks archived + 1 .. head. */
  datatype Hot = Hot(archived: int, head: int)

  ghost predicate ValidHot(hot: Hot, chainLength: nat) {
    -1 <= hot.archived <= hot.head < chainLength
  }

  function HotRows(raw: seq<RawBlock>, hot: Hot): seq<RawBlock>
    requires ValidHot(hot, |raw|)
  {
    raw[hot.archived + 1..hot.head + 1]
  }

  /** The contiguous stretch of `chain` a query for `from` gets: it starts late only if archived. */
  function HotSlice<T>(chain: seq<T>, hot: Hot, from: int, limit: nat): seq<T>
    requires ValidHot(hot, |chain|)
  {
    var lo := Max(from, hot.archived + 1);
    if hot.head + 1 <= lo then [] else chain[lo..Min(lo + limit, hot.head + 1)]
  }

  lemma {:induction false} InsertAddsOne(e: Event, events: seq<Event>)
    ensures multiset(Insert(e, events)) == multiset{e} + multiset(events)
  {
    if |events| > 0 && e.indexInBlock > events[0].indexInBlock {
      assert events == [events[0]] + events[1..];
      InsertAddsOne(e, events[1..]);
    }
  }

  lemma {:induction false} InsertKeepsOrder(e: Event, events: seq<Event>)
    requires Ascending(events)
    requires forall i :: 0 <= i < |events| ==> events[i].indexInBlock != e.indexInBlock
    ensures Ascending(Insert(e, events))
  {
    if |events| > 0 && e.indexInBlock > events[0].indexInBlock {
      InsertKeepsOrder(e, events[1..]);
      InsertAddsOne(e, events[1..]);
      var rest := Insert(e, events[1..]);
      forall j | 0 <= j < |rest| ensures events[0].indexInBlock < rest[j].indexInBlock {
        assert rest[j] in multiset(rest);
        if rest[j] != e { assert rest[j] in events[1..]; }
      }
    }
  }

  /** A served block holds every selected row exactly once, in index order, and nothing else. */
  lemma {:induction false} SelectedEventsAreOrdered(rows: seq<Event>, names: set<string>)
    requires DistinctIndices(rows)
    ensures Ascending(SelectEvents(rows, names))
    ensures forall e :: multiset(SelectEvents(rows, names))[e] == if e.name in names then multiset(rows)[e] else 0
  {
    if |rows| > 0 {
      assert rows == [rows[0]] + rows[1..];
      SelectedEventsAreOrdered(rows[1..], names);
      var rest := SelectEvents(rows[1..], names);
      forall i | 0 <= i < |rest| ensures rest[i].indexInBlock != rows[0].indexInBlock {
        assert multiset(rest)[rest[i]] > 0;
        assert rest[i] in multiset(rows[1..]);
      }
      if rows[0].name in names {
        InsertKeepsOrder(rows[0], rest);
        InsertAddsOne(rows[0], rest);
      }
    }
  }

  lemma {:induction false} SkipsLowRows(raw: seq<RawBlock>, lo: nat, mid: nat, hi: nat, from: int, limit: nat, names: set<string>)
    requires WellFormedChain(raw) && lo <= mid <= hi <= |raw| && mid <= Max(from, lo)
    ensures SelectBlocks(raw[lo..hi], from, limit, names) == SelectBlocks(raw[mid..hi], from, limit, names)
    decreases mid - lo
  {
    if lo < mid && limit > 0 {
      assert raw[lo..hi][1..] == raw[lo + 1..hi];
      SkipsLowRows(raw, lo + 1, mid, hi, from, limit, names);
    }
  }

  lemma {:induction false} TakesRowsInOrder(raw: seq<RawBlock>, lo: nat, hi: nat, from: int, limit: nat, names: set<string>)
    requires WellFormedChain(raw) && from <= lo <= hi <= |raw|
    ensures SelectBlocks(raw[lo..hi], from, limit, names) == Serve(raw, names)[lo..Min(lo + limit, hi)]
    decreases hi - lo
  {
    if lo < hi && limit > 0 {
      assert raw[lo..hi][1..] == raw[lo + 1..hi];
      TakesRowsInOrder(raw, lo + 1, hi, from, limit - 1, names);
      var end := Min(lo + limit, hi);
      assert SelectBlocks(raw[lo..hi], from, limit, names) == [Serve(raw, names)[lo]] + Serve(raw, names)[lo + 1..end];
    }
  }

  /** The query is a slice of the served chain: first wanted hot block onwards, no holes, at most `limit`. */
  lemma QueryIsASlice(raw: seq<RawBlock>, hot: Hot, from: int, limit: nat, names: set<string>)
    requires WellFormedChain(raw) && ValidHot(hot, |raw|)
    ensures SelectBlocks(HotRows(raw, hot), from, limit, names) == HotSlice(Serve(raw, names), hot, from, limit)
  {
    var lo, hi := hot.archived + 1, hot.head + 1;
    var mid := Min(Max(from, lo), hi);
    SkipsLowRows(raw, lo, mid, hi, from, limit, names);
    if mid < hi { TakesRowsInOrder(raw, mid, hi, from, limit, names); }
  }

  /** How many blocks come, and what each of them carries, in terms of the table alone. */
  lemma ServedBlocksAreTheRows(raw: seq<RawBlock>, hot: Hot, from: int, limit: nat, names: set<string>, i: nat)
    requires WellFormedChain(raw) && ValidHot(hot, |raw|)
    ensures var blocks, lo := SelectBlocks(HotRows(raw, hot), from, limit, names), Max(from, hot.archived + 1);
            && |blocks| == Max(0, Min(limit, hot.head + 1 - lo))
            && (i < |blocks| ==>
                  && lo + i < |raw| && blocks[i].height == lo + i && blocks[i].specId == raw[lo + i].specId
                  && Ascending(blocks[i].events)
                  && forall e :: multiset(blocks[i].events)[e] == if e.name in names then multiset(raw[lo + i].rows)[e] else 0)
  {
    QueryIsASlice(raw, hot, from, limit, names);
    var blocks, lo := HotSlice(Serve(raw, names), hot, from, limit), Max(from, hot.archived + 1);
    if i < |blocks| {
      assert blocks[i] == ToBlock(raw[lo + i], names);
      SelectedEventsAreOrdered(raw[lo + i].rows, names);
    }
  }

  // ---------- The client ----------

  datatype ArchiveState = ArchiveState(lastArchivedBlock: Option<int>, hasArchiveTable: bool)

  datatype Cached = Cached(state: ArchiveState, readAt: int)

  /** How the watermark query may end. */
  datatype WatermarkAnswer = Row(watermark: Option<int>) | NoArchiveTable | QueryError

  datatype Reply = Blocks(blocks: seq<Block>) | Archived | Failed

  function Answered(answer: WatermarkAnswer): Option<ArchiveState> {
    match answer
    case Row(w) => Some(ArchiveState(w, true))
    case NoArchiveTable => Some(ArchiveState(None, false))
    case QueryError => None
  }

  /** A cached state younger than the TTL, or the one just read. */
  function Used(ttl: int, cached: Option<Cached>, now: int, answer: WatermarkAnswer): Option<ArchiveState> {
    if cached.Some? && now - cached.value.readAt < ttl then Some(cached.value.state) else Answered(answer)
  }

  function NextCached(ttl: int, cached: Option<Cached>, now: int, answer: WatermarkAnswer, readAt: int): Option<Cached> {
    if (cached.Some? && now - cached.value.readAt < ttl) || Answered(answer).None? then cached
    else Some(Cached(Answered(answer).value, readAt))
  }

  /** One use of the watermark: when, what the query would answer, and when that answer would be in. */
  datatype Use = Use(now: int, answer: WatermarkAnswer, readAt: int)

  function CachedAfter(ttl: int, uses: seq<Use>): Option<Cached> {
    if |uses| == 0 then None
    else
      var last := uses[|uses| - 1];
      NextCached(ttl, CachedAfter(ttl, uses[..|uses| - 1]), last.now, last.answer, last.readAt)
  }

  lemma {:induction false} CachedWasAnswered(ttl: int, uses: seq<Use>) returns (j: nat)
    requires CachedAfter(ttl, uses).Some?
    ensures j < |uses| && Answered(uses[j].answer) == Some(CachedAfter(ttl, uses).value.state)
    ensures uses[j].readAt == CachedAfter(ttl, uses).value.readAt
  {
    var n := |uses| - 1;
    if CachedAfter(ttl, uses) == CachedAfter(ttl, uses[..n]) { j := CachedWasAnswered(ttl, uses[..n]); } else { j := n; }
  }

  /** Over any series of uses, the watermark a use works with is its own answer, or one that came in within the TTL before. */
  lemma WatermarkIsRecent(ttl: int, uses: seq<Use>, now: int, answer: WatermarkAnswer)
    requires Used(ttl, CachedAfter(ttl, uses), now, answer).Some?
    ensures var used := Used(ttl, CachedAfter(ttl, uses), now, answer);
            || used == Answered(answer)
            || exists j :: 0 <= j < |uses| && Answered(uses[j].answer) == used && now - uses[j].readAt < ttl
  {
    if CachedAfter(ttl, uses).Some? { var j := CachedWasAnswered(ttl, uses); }
  }

  class IndexerClient {
    const watermarkCacheTtl: int
    var cachedState: Option<Cached>

    constructor (ttl: int)
      ensures watermarkCacheTtl == ttl && cachedState == None
    {
      watermarkCacheTtl := ttl;
      cachedState := None;
    }

    /** The state a call at `now` works with. */
    function Effective(now: int, answer: WatermarkAnswer): Option<ArchiveState>
      reads this
    {
      Used(watermarkCacheTtl, cachedState, now, answer)
    }

    method GetArchiveState(now: int, answer: WatermarkAnswer, readAt: int) returns (r: Option<ArchiveState>)
      modifies this
      ensures r == old(Effective(now, answer)) && cachedState == NextCached(watermarkCacheTtl, old(cachedState), now, answer, readAt)
      ensures old(cachedState).Some? && now - old(cachedState).value.readAt < watermarkCacheTtl ==>
                r == Some(old(cachedState).value.state) && cachedState == old(cachedState)
      ensures old(cachedState).None? || now - old(cachedState).value.readAt >= watermarkCacheTtl ==>
                && r == Answered(answer) && (r.Some? ==> cachedState == Some(Cached(r.value, readAt)))
                && (r.None? ==> cachedState == old(cachedState))
    {
      if cachedState.Some? && now - cachedState.value.readAt < watermarkCacheTtl {
        return Some(cachedState.value.state);
      }
      var state: ArchiveState;
      match answer {
        case Row(w) => state := ArchiveState(w, true);
        case NoArchiveTable => state := ArchiveState(None, false);
        case QueryError => return None;
      }
      cachedState := Some(Cached(state, readAt));
      return Some(state);
    }

    /** `rows` is the hot database's block table when the query runs. */
    method GetBlocks(height: int, limit: nat, names: set<string>, now: int, answer: WatermarkAnswer, readAt: int,
                     rows: Option<seq<RawBlock>>) returns (r: Reply)
      modifies this
      ensures r.Archived? <==> old(Effective(now, answer)).Some?
                               && old(Effective(now, answer)).value.lastArchivedBlock.Some?
                               && height <= old(Effective(now, answer)).value.lastArchivedBlock.value
      ensures r.Failed? <==> old(Effective(now, answer)).None? || (!r.Archived? && rows.None?)
      ensures r.Blocks? ==> rows.Some? && r.blocks == SelectBlocks(rows.value, height, limit, names)
      ensures cachedState == NextCached(watermarkCacheTtl, old(cachedState), now, answer, readAt)
    {
      var state := GetArchiveState(now, answer, readAt);
      if state.None? { return Failed; }
      if state.value.lastArchivedBlock.Some? && height <= state.value.lastArchivedBlock.value { return Archived; }
      if rows.None? { return Failed; }
      return Blocks(SelectBlocks(rows.value, height, limit, names));
    }
  }

  /**
   A batch that passes a stale watermark check begins exactly where it was asked to unless the archive
   has overtaken the request, and then its first block betrays the gap by being too high.
   */
  lemma GapExactlyWhenArchiveOvertook(raw: seq<RawBlock>, hot: Hot, from: int, limit: nat, names: set<string>)
    requires WellFormedChain(raw) && ValidHot(hot, |raw|) && 0 <= from
    requires SelectBlocks(HotRows(raw, hot), from, limit, names) != []
    ensures var blocks := SelectBlocks(HotRows(raw, hot), from, limit, names);
            && (blocks[0].height != from <==> from <= hot.archived)
            && forall i :: 0 <= i < |blocks| ==> blocks[i].height == Max(from, hot.archived + 1) + i
  {
    QueryIsASlice(raw, hot, from, limit, names);
    var blocks, lo := HotSlice(Serve(raw, names), hot, from, limit), Max(from, hot.archived + 1);
    forall i | 0 <= i < |blocks| ensures blocks[i].height == lo + i { assert blocks[i] == ToBlock(raw[lo + i], names); }
  }
}
