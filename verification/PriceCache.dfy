/**
 `PriceCache` (packages/swap/src/pricing/index.ts): one price table, refreshed by at most one fetch at a time.

 `getAssetPrice` is cut at its `await`s: entering (again), the response arriving, and a waiting caller being
 woken once the fetch it awaited is over. Callers and fetches are numbered.
 */
module PriceCache {
  import opened Prelude

  const TTL := 30_000

  type Asset = string
  type CoinId = string

  /** A coin's USD price, or nothing if the response leaves it out of the coin's record. */
  type Price = Option<int>

  type Response = map<CoinId, Price>

  // ---------- Reading a response into the table ----------

  /** Every asset's coin has a record in the response; otherwise reading it throws half-way. */
  predicate Complete(entries: seq<(Asset, CoinId)>, r: Response) {
    forall i :: 0 <= i < |entries| ==> entries[i].1 in r
  }

  /** The table holds exactly the prices of the response. */
  predicate Holds(entries: seq<(Asset, CoinId)>, r: Response, cache: map<Asset, Price>) {
    forall i :: 0 <= i < |entries| && entries[i].1 in r ==> entries[i].0 in cache && cache[entries[i].0] == r[entries[i].1]
  }

  ghost predicate DistinctAssets(entries: seq<(Asset, CoinId)>) {
    forall i, j :: 0 <= i < j < |entries| ==> entries[i].0 != entries[j].0
  }

  // ---------- One `getAssetPrice` after another ----------

  datatype Caller =
    | Ready(asset: Asset)
    | Waiting(asset: Asset, fetch: nat)
    | Fetching(asset: Asset, fetch: nat)
    | Returned(price: Price)
    | Threw

  /** `source` is the last response that was read completely, and `starters` who began each fetch. */
  datatype State = State(
    cache: map<Asset, Price>,
    lastCacheSet: int,
    fetchPromise: Option<nat>,
    callers: map<nat, Caller>,
    starters: seq<nat>,
    source: Response)

  datatype Event =
    | Arrive(id: nat, asset: Asset)
    | Enter(id: nat, now: int)
    | Wake(id: nat)
    | Arrived(id: nat, response: Option<Response>, table: map<Asset, Price>, now: int)

  predicate Fresh(s: State, now: int) { now - s.lastCacheSet < TTL }

  function PriceOf(cache: map<Asset, Price>, asset: Asset): Price { if asset in cache then cache[asset] else None }

  /** What the table may be once the response was read: complete, or overwritten in part before the throw. */
  ghost predicate Reads(entries: seq<(Asset, CoinId)>, s: State, response: Option<Response>, table: map<Asset, Price>) {
    && (response.None? ==> table == s.cache)
    && (response.Some? && Complete(entries, response.value) ==> Holds(entries, response.value, table))
  }

  ghost function Next(entries: seq<(Asset, CoinId)>, s: State, e: Event): Option<State> {
    match e
    case Arrive(id, asset) =>
      if id in s.callers then None else Some(s.(callers := s.callers[id := Ready(asset)]))
    case Enter(id, now) =>
      if !(id in s.callers && s.callers[id].Ready? && TTL <= now) then None
      else
        var asset := s.callers[id].asset;
        if Fresh(s, now) then Some(s.(callers := s.callers[id := Returned(PriceOf(s.cache, asset))]))
        else if s.fetchPromise.Some? then Some(s.(callers := s.callers[id := Waiting(asset, s.fetchPromise.value)]))
        else
          Some(s.(callers := s.callers[id := Fetching(asset, |s.starters|)], fetchPromise := Some(|s.starters|),
               starters := s.starters + [id]))
    case Wake(id) =>
      if !(id in s.callers && s.callers[id].Waiting? && s.fetchPromise != Some(s.callers[id].fetch)) then None
      else Some(s.(callers := s.callers[id := Ready(s.callers[id].asset)]))
    case Arrived(id, response, table, now) =>
      if !(id in s.callers && s.callers[id].Fetching? && TTL <= now && Reads(entries, s, response, table)) then None
      else if response.Some? && Complete(entries, response.value) then
        Some(s.(cache := table, lastCacheSet := now, fetchPromise := None, source := response.value,
             callers := s.callers[id := Returned(PriceOf(table, s.callers[id].asset))]))
      else
        Some(s.(cache := table, lastCacheSet := 0, fetchPromise := None, callers := s.callers[id := Threw]))
  }

  const INITIAL := State(map[], 0, None, map[], [], map[])

  ghost function Run(entries: seq<(Asset, CoinId)>, events: seq<Event>): Option<State> {
    if |events| == 0 then Some(INITIAL)
    else
      match Run(entries, events[..|events| - 1])
      case None => None
      case Some(s) => Next(entries, s, events[|events| - 1])
  }

  // ---------- The class ----------

  datatype Outcome = Served(price: Price) | Wait(fetch: nat) | Fetch(number: nat)

  class PriceCache {
    const entries: seq<(Asset, CoinId)>
    var cache: map<Asset, Price>
    var lastCacheSet: int
    var fetchPromise: Option<nat>
    var fetches: nat

    constructor (entries: seq<(Asset, CoinId)>)
      ensures this.entries == entries && cache == map[] && lastCacheSet == 0 && fetchPromise == None && fetches == 0
    {
      this.entries := entries;
      cache, lastCacheSet, fetchPromise, fetches := map[], 0, None, 0;
    }

    /** The fields as part of a whole system with the given callers and history. */
    ghost predicate Is(s: State)
      reads this
    {
      cache == s.cache && lastCacheSet == s.lastCacheSet && fetchPromise == s.fetchPromise && fetches == |s.starters|
    }

    /** `getAssetPrice` up to its first `await`, or the recursive call after it. */
    method Begin(asset: Asset, now: int, ghost s: State, ghost id: nat) returns (r: Outcome, ghost t: State)
      requires Is(s) && id in s.callers && s.callers[id] == Ready(asset) && TTL <= now
      modifies this
      ensures Next(entries, s, Enter(id, now)) == Some(t) && Is(t)
      ensures t.callers[id] == match r
                               case Served(p) => Returned(p)
                               case Wait(f) => Waiting(asset, f)
                               case Fetch(n) => Fetching(asset, n)
    {
      t := Next(entries, s, Enter(id, now)).value;
      if now - lastCacheSet < TTL {
        return Served(if asset in cache then cache[asset] else None), t;
      }
      if fetchPromise.Some? { return Wait(fetchPromise.value), t; }
      r := Fetch(fetches);
      fetchPromise, fetches := Some(fetches), fetches + 1;
    }

    /** The rest of `getAssetPrice` for the caller that fetches; None when it throws. */
    method Finish(asset: Asset, response: Option<Response>, now: int, ghost s: State, ghost id: nat)
      returns (price: Option<Price>, ghost t: State)
      requires Is(s) && id in s.callers && s.callers[id].Fetching? && s.callers[id].asset == asset && TTL <= now
      requires DistinctAssets(entries)
      modifies this
      ensures Next(entries, s, Arrived(id, response, cache, now)) == Some(t) && Is(t)
      ensures t.callers[id] == if price.Some? then Returned(price.value) else Threw
    {
      var ok := response.Some?;
      if ok {
        var i := 0;
        while i < |entries|
          invariant 0 <= i <= |entries|
          invariant ok <==> Complete(entries[..i], response.value)
          invariant ok ==> Holds(entries[..i], response.value, cache)
          invariant lastCacheSet == s.lastCacheSet && fetches == |s.starters|
        {
          if entries[i].1 !in response.value {
            ok := false;
            assert !Complete(entries, response.value);
            break;
          }
          cache := cache[entries[i].0 := response.value[entries[i].1]];
          i := i + 1;
        }
        assert ok ==> entries[..i] == entries;
      }
      lastCacheSet := if ok then now else 0;
      fetchPromise := None;
      price := if ok then Some(if asset in cache then cache[asset] else None) else None;
      t := Next(entries, s, Arrived(id, response, cache, now)).value;
    }
  }

  // ---------- Over every interleaving ----------

  predicate HasStarted(c: Caller) { c.Fetching? || c.Returned? || c.Threw? }

  /** What is known of one caller: who fetches started the fetch in flight, who waits awaits one begun. */
  ghost predicate CallerOk(s: State, id: nat) {
    id in s.callers ==>
      match s.callers[id]
      case Fetching(_, f) => s.fetchPromise == Some(f) && f < |s.starters| && s.starters[f] == id
      case Waiting(_, f) => f < |s.starters|
      case _ => true
  }

  /** What is known of one fetch: its starter is fetching or answered, and started no other. */
  ghost predicate FetchOk(s: State, f: nat)
    requires f < |s.starters|
  {
    && s.starters[f] in s.callers && HasStarted(s.callers[s.starters[f]])
    && (s.fetchPromise == Some(f) ==> s.callers[s.starters[f]].Fetching?)
  }

  ghost predicate Inv(entries: seq<(Asset, CoinId)>, s: State) {
    && (forall id {:trigger CallerOk(s, id)} :: CallerOk(s, id))
    && (forall f {:trigger FetchOk(s, f)} :: 0 <= f < |s.starters| ==> FetchOk(s, f))
    && (forall f, g :: 0 <= f < g < |s.starters| ==> s.starters[f] != s.starters[g])
    && (s.fetchPromise.Some? ==> s.fetchPromise.value < |s.starters|)
    && (s.lastCacheSet != 0 ==> Complete(entries, s.source) && Holds(entries, s.source, s.cache))
  }

  lemma StepKeepsCaller(entries: seq<(Asset, CoinId)>, s: State, e: Event, t: State, id: nat)
    requires Inv(entries, s) && Next(entries, s, e) == Some(t)
    ensures CallerOk(t, id)
  {
    assert CallerOk(s, e.id) && CallerOk(s, id);
  }

  lemma StepKeepsFetch(entries: seq<(Asset, CoinId)>, s: State, e: Event, t: State, f: nat)
    requires Inv(entries, s) && Next(entries, s, e) == Some(t) && f < |t.starters|
    ensures FetchOk(t, f)
    ensures forall g :: 0 <= g < f ==> t.starters[g] != t.starters[f]
  {
    assert CallerOk(s, e.id);
    if f < |s.starters| {
      assert FetchOk(s, f);
    } else {
      forall g | 0 <= g < f ensures t.starters[g] != t.starters[f] { assert FetchOk(s, g); }
    }
  }

  lemma StepKeepsInv(entries: seq<(Asset, CoinId)>, s: State, e: Event, t: State)
    requires Inv(entries, s) && Next(entries, s, e) == Some(t)
    ensures Inv(entries, t)
  {
    forall id ensures CallerOk(t, id) { StepKeepsCaller(entries, s, e, t, id); }
    forall f | 0 <= f < |t.starters| ensures FetchOk(t, f) { StepKeepsFetch(entries, s, e, t, f); }
    forall f, g | 0 <= f < g < |t.starters| ensures t.starters[f] != t.starters[g] {
      StepKeepsFetch(entries, s, e, t, g);
    }
  }

  lemma {:induction false} EveryRunKeepsInv(entries: seq<(Asset, CoinId)>, events: seq<Event>, s: State)
    requires Run(entries, events) == Some(s)
    ensures Inv(entries, s)
  {
    if |events| > 0 {
      var before := Run(entries, events[..|events| - 1]).value;
      EveryRunKeepsInv(entries, events[..|events| - 1], before);
      StepKeepsInv(entries, before, events[|events| - 1], s);
    }
  }

  /** At most one fetch is in flight. */
  lemma SingleFlight(entries: seq<(Asset, CoinId)>, events: seq<Event>, s: State, a: nat, b: nat)
    requires Run(entries, events) == Some(s)
    requires a in s.callers && s.callers[a].Fetching? && b in s.callers && s.callers[b].Fetching?
    ensures a == b
  {
    EveryRunKeepsInv(entries, events, s);
    assert CallerOk(s, a) && CallerOk(s, b);
  }

  lemma {:induction false} DistinctFit(xs: seq<nat>, ys: set<nat>)
    requires forall i :: 0 <= i < |xs| ==> xs[i] in ys
    requires forall i, j :: 0 <= i < j < |xs| ==> xs[i] != xs[j]
    ensures |xs| <= |ys|
  {
    if |xs| > 0 {
      var n := |xs| - 1;
      DistinctFit(xs[..n], ys - {xs[n]});
    }
  }

  /** However many fetches fail, n callers cause at most n of them. */
  lemma FetchesAtMostCallers(entries: seq<(Asset, CoinId)>, events: seq<Event>, s: State)
    requires Run(entries, events) == Some(s)
    ensures |s.starters| <= |s.callers|
  {
    EveryRunKeepsInv(entries, events, s);
    forall f | 0 <= f < |s.starters| ensures s.starters[f] in s.callers.Keys { assert FetchOk(s, f); }
    DistinctFit(s.starters, s.callers.Keys);
  }

  ghost predicate IsLastSuccess(entries: seq<(Asset, CoinId)>, events: seq<Event>, k: nat, at: int, r: Response) {
    && k < |events| && events[k].Arrived? && events[k].response == Some(r) && events[k].now == at && Complete(entries, r)
    && forall j :: k < j < |events| ==> !events[j].Arrived?
  }

  lemma {:induction false} LastSetIsLastSuccess(entries: seq<(Asset, CoinId)>, events: seq<Event>, s: State) returns (k: nat)
    requires Run(entries, events) == Some(s) && s.lastCacheSet != 0
    ensures IsLastSuccess(entries, events, k, s.lastCacheSet, s.source)
  {
    var n := |events| - 1;
    if events[n].Arrived? {
      k := n;
    } else {
      k := LastSetIsLastSuccess(entries, events[..n], Run(entries, events[..n]).value);
    }
  }

  /**
   MAIN RESULT. A price served from the fresh path is that of one complete response, the latest to arrive,
   which came less than the TTL ago; a partly read response is never served from.
   */
  lemma FreshPricesAreOneResponse(entries: seq<(Asset, CoinId)>, events: seq<Event>, s: State, id: nat, now: int, i: nat)
      returns (k: nat)
    requires Run(entries, events) == Some(s) && i < |entries|
    requires id in s.callers && s.callers[id] == Ready(entries[i].0) && TTL <= now && Fresh(s, now)
    ensures k < |events| && events[k].Arrived? && events[k].response.Some? && Complete(entries, events[k].response.value)
    ensures now - events[k].now < TTL && forall j :: k < j < |events| ==> !events[j].Arrived?
    ensures Next(entries, s, Enter(id, now)).value.callers[id] == Returned(events[k].response.value[entries[i].1])
  {
    EveryRunKeepsInv(entries, events, s);
    k := LastSetIsLastSuccess(entries, events, s);
  }

  /** The last response that arrived was read completely, at the given time. */
  ghost predicate LastArrivalSucceeded(entries: seq<(Asset, CoinId)>, events: seq<Event>, k: nat) {
    && k < |events| && events[k].Arrived? && events[k].response.Some? && Complete(entries, events[k].response.value)
    && forall j :: k < j < |events| ==> !events[j].Arrived?
  }

  lemma {:induction false} LastSuccessIsTimed(entries: seq<(Asset, CoinId)>, events: seq<Event>, s: State, k: nat)
    requires Run(entries, events) == Some(s) && LastArrivalSucceeded(entries, events, k)
    ensures s.lastCacheSet == events[k].now >= TTL
  {
    var n := |events| - 1;
    if k < n {
      assert forall j :: 0 <= j < n ==> events[..n][j] == events[j];
      LastSuccessIsTimed(entries, events[..n], Run(entries, events[..n]).value, k);
    }
  }

  /**
   MAIN RESULT. A caller is served from the table exactly if the last response to arrive was complete and came
   less than thirty seconds ago; otherwise it waits if somebody is fetching, and else fetches itself.
   */
  lemma EnteringDecides(entries: seq<(Asset, CoinId)>, events: seq<Event>, s: State, id: nat, now: int)
    requires Run(entries, events) == Some(s) && id in s.callers && s.callers[id].Ready? && now >= TTL
    ensures var t := Next(entries, s, Enter(id, now)).value;
            var recent := exists k: nat :: LastArrivalSucceeded(entries, events, k) && now - events[k].now < 30_000;
            && (t.callers[id].Returned? <==> recent)
            && (t.callers[id].Waiting? <==> !recent && exists f :: f in s.callers && s.callers[f].Fetching?)
            && (!t.callers[id].Returned? && !t.callers[id].Waiting? ==> t.callers[id].Fetching?)
  {
    EveryRunKeepsInv(entries, events, s);
    if s.lastCacheSet != 0 {
      var k := LastSetIsLastSuccess(entries, events, s);
      assert LastArrivalSucceeded(entries, events, k);
    }
    if k: nat :| LastArrivalSucceeded(entries, events, k) && now - events[k].now < 30_000 {
      LastSuccessIsTimed(entries, events, s, k);
    }
    if s.fetchPromise.Some? { assert FetchOk(s, s.fetchPromise.value); }
    if f :| f in s.callers && s.callers[f].Fetching? { assert CallerOk(s, f); }
  }

  ghost predicate FailedFor(entries: seq<(Asset, CoinId)>, e: Event, id: nat) {
    e.Arrived? && e.id == id && !(e.response.Some? && Complete(entries, e.response.value))
  }

  /** Where a caller stands, in terms of the events of its own. */
  ghost predicate Explained(entries: seq<(Asset, CoinId)>, events: seq<Event>, id: nat, c: Caller) {
    match c
    case Threw => exists k :: 0 <= k < |events| && FailedFor(entries, events[k], id)
    case Returned(_) => exists k :: 0 <= k < |events| && (events[k].Enter? || events[k].Arrived?) && events[k].id == id
    case _ => exists k :: 0 <= k < |events| && events[k] == Arrive(id, c.asset)
  }

  lemma ExplainedLater(entries: seq<(Asset, CoinId)>, events: seq<Event>, id: nat, c: Caller)
    requires |events| > 0 && Explained(entries, events[..|events| - 1], id, c)
    ensures Explained(entries, events, id, c)
  {
    var before := events[..|events| - 1];
    assert forall k :: 0 <= k < |before| ==> before[k] == events[k];
    match c
    case Threw =>
      var k :| 0 <= k < |before| && FailedFor(entries, before[k], id);
      assert FailedFor(entries, events[k], id);
    case Returned(_) =>
      var k :| 0 <= k < |before| && (before[k].Enter? || before[k].Arrived?) && before[k].id == id;
      assert events[k].id == id;
    case _ =>
      var k :| 0 <= k < |before| && before[k] == Arrive(id, c.asset);
      assert events[k] == Arrive(id, c.asset);
  }

  /** A caller fails only if its own fetch did: one that waited for a failing fetch tries again, for the same asset. */
  lemma {:induction false} FailuresAreOnesOwn(entries: seq<(Asset, CoinId)>, events: seq<Event>, s: State, id: nat)
    requires Run(entries, events) == Some(s) && id in s.callers
    ensures Explained(entries, events, id, s.callers[id])
  {
    var n := |events| - 1;
    var before := Run(entries, events[..n]).value;
    if id in before.callers {
      FailuresAreOnesOwn(entries, events[..n], before, id);
      ExplainedLater(entries, events, id, before.callers[id]);
      StandsOrMoves(entries, before, events[n], s, id);
    }
    assert events[n] == events[|events| - 1];
  }

  lemma StandsOrMoves(entries: seq<(Asset, CoinId)>, s: State, e: Event, t: State, id: nat)
    requires Next(entries, s, e) == Some(t) && id in s.callers
    ensures id in t.callers
    ensures match t.callers[id]
            case Threw => s.callers[id].Threw? || FailedFor(entries, e, id)
            case Returned(_) => t.callers[id] == s.callers[id] || ((e.Enter? || e.Arrived?) && e.id == id)
            case _ => !s.callers[id].Threw? && !s.callers[id].Returned? && s.callers[id].asset == t.callers[id].asset
  {
  }

  /** The caller that fetched gets its asset's price from the response, or the failure; a failure leaves nothing fresh. */
  lemma FetcherGetsItsResponse(entries: seq<(Asset, CoinId)>, s: State, id: nat, response: Option<Response>,
                               table: map<Asset, Price>, now: int, t: State, i: nat, later: int)
    requires Next(entries, s, Arrived(id, response, table, now)) == Some(t) && i < |entries|
    requires s.callers[id].Fetching? && s.callers[id].asset == entries[i].0 && later >= TTL
    ensures t.callers[id] == if response.Some? && Complete(entries, response.value)
                             then Returned(response.value[entries[i].1]) else Threw
    ensures t.fetchPromise == None && (t.callers[id].Threw? ==> !Fresh(t, later))
    ensures t.callers[id].Returned? ==> (Fresh(t, later) <==> later - now < 30_000)
  {
  }

  // ---------- Every caller gets an answer ----------

  function Unsettled(s: State): set<nat> {
    set id | id in s.callers && !s.callers[id].Returned? && !s.callers[id].Threw?
  }

  function Wakeable(s: State): set<nat> {
    set id | id in s.callers && s.callers[id].Waiting? && s.fetchPromise != Some(s.callers[id].fetch)
  }

  function ReadyOnes(s: State): set<nat> { set id | id in s.callers && s.callers[id].Ready? }

  lemma Shrinks(a: set<nat>, b: set<nat>, x: nat)
    requires x in a && b <= a - {x}
    ensures |b| < |a|
  {
    SubsetIsSmaller(b, a - {x});
  }

  lemma {:induction false} SubsetIsSmaller(a: set<nat>, b: set<nat>)
    requires a <= b
    ensures |a| <= |b|
  {
    if a != {} {
      var x :| x in a;
      SubsetIsSmaller(a - {x}, b - {x});
    }
  }

  /**
   Once no more callers arrive every schedule ends: each step answers a caller, or wakes one that waits
   for a fetch that is over, or sends a ready one to wait or fetch.
   */
  lemma EveryStepMakesProgress(entries: seq<(Asset, CoinId)>, s: State, e: Event, t: State)
    requires Inv(entries, s) && Next(entries, s, e) == Some(t) && !e.Arrive?
    ensures || |Unsettled(t)| < |Unsettled(s)|
            || (Unsettled(t) == Unsettled(s) && |Wakeable(t)| < |Wakeable(s)|)
            || (Unsettled(t) == Unsettled(s) && Wakeable(t) == Wakeable(s) && |ReadyOnes(t)| < |ReadyOnes(s)|)
  {
    if t.callers[e.id].Returned? || t.callers[e.id].Threw? {
      Shrinks(Unsettled(s), Unsettled(t), e.id);
    } else if e.Wake? {
      assert Unsettled(t) == Unsettled(s);
      Shrinks(Wakeable(s), Wakeable(t), e.id);
    } else {
      assert Unsettled(t) == Unsettled(s);
      assert Wakeable(t) == Wakeable(s) by { WaitersKeepWaiting(entries, s, e, t); }
      Shrinks(ReadyOnes(s), ReadyOnes(t), e.id);
    }
  }

  /** Starting a fetch wakes no one: nobody waits for a fetch that has not begun. */
  lemma WaitersKeepWaiting(entries: seq<(Asset, CoinId)>, s: State, e: Event, t: State)
    requires Inv(entries, s) && Next(entries, s, e) == Some(t) && e.Enter? && !t.callers[e.id].Returned?
    ensures Wakeable(t) == Wakeable(s)
  {
    forall id ensures id in Wakeable(t) <==> id in Wakeable(s) { assert CallerOk(s, id); }
  }

  /** And it never ends early: as long as a caller has no answer, some step can be taken. */
  lemma NoCallerIsStuck(entries: seq<(Asset, CoinId)>, s: State, id: nat, now: int) returns (e: Event)
    requires Inv(entries, s) && id in Unsettled(s) && TTL <= now
    ensures Next(entries, s, e).Some? && !e.Arrive?
  {
    assert CallerOk(s, id);
    match s.callers[id]
    case Ready(_) => e := Enter(id, now);
    case Waiting(_, f) =>
      assert FetchOk(s, f);
      e := if s.fetchPromise == Some(f) then Arrived(s.starters[f], None, s.cache, now) else Wake(id);
    case Fetching(_, _) => e := Arrived(id, None, s.cache, now);
    case Returned(_) =>
    case Threw =>
  }
}
