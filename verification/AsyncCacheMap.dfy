/**
 `AsyncCacheMap` (packages/shared/src/dataStructures.ts): a CacheMap of promises with stale-while-revalidate.

 Every fetch has a number, its position in `log`; the cache holds the number of the fetch whose promise or
 value is stored. A refresh of a key that is present takes a token; `set` and `delete` discard the key's
 token, so tokens start again at 1 and a period of a key lasts from one such call to the next.
 */
module AsyncCacheMap {
  import opened Prelude
  import opened C = CacheMap

  datatype Kind =
    | Lookup                     // `get` of a missing key
    | Reload                     // `refresh` of a missing key
    | Revalidation(token: nat)   // `refresh` of a present key
    | External                   // a promise handed to `set`

  datatype Fetch<K> = Fetch(key: K, kind: Kind, period: nat)

  /** `log` and `periods` record history: all fetches so far, and how often each key was set or deleted. */
  datatype State<K> = State(
    cache: Cache<K, nat>,
    tokens: map<K, nat>,
    inflight: set<nat>,
    log: seq<Fetch<K>>,
    periods: map<K, nat>)

  datatype Event<K> =
    | Get(key: K, now: int)
    | Refresh(key: K, now: int)
    | Settle(number: nat, ok: bool, now: int)
    | Set(key: K, now: int)
    | Delete(key: K)
    | Fire(id: nat)

  // ---------- What each event does ----------

  function Period<K(==)>(s: State<K>, key: K): nat { if key in s.periods then s.periods[key] else 0 }

  function TokenOf<K(==)>(s: State<K>, key: K): Option<nat> { if key in s.tokens then Some(s.tokens[key]) else None }

  /** The overridden `delete`. */
  function Dropped<K(==)>(s: State<K>, key: K): State<K> {
    s.(cache := Deleted(s.cache, key), tokens := s.tokens - {key}, periods := s.periods[key := Period(s, key) + 1])
  }

  /** `set` deletes first, through the override. */
  function Put<K(==)>(s: State<K>, key: K, number: nat, deadline: int): State<K> {
    var d := Dropped(s, key);
    d.(cache := Armed(d.cache, key, number, deadline))
  }

  function Launched<K(==)>(s: State<K>, key: K, kind: Kind): State<K> {
    s.(log := s.log + [Fetch(key, kind, Period(s, key))],
    inflight := if kind.External? then s.inflight else s.inflight + {|s.log|})
  }

  /** Whether the refresh may still write when its fetch succeeds. */
  predicate Commits<K(==)>(s: State<K>, number: nat) {
    number < |s.log| && s.log[number].kind.Revalidation?
    && TokenOf(s, s.log[number].key) == Some(s.log[number].kind.token)
  }

  function NextToken<K(==)>(s: State<K>, key: K): nat { (if key in s.tokens then s.tokens[key] else 0) + 1 }

  function Looked<K(==)>(cfg: Config, s: State<K>, key: K, now: int): State<K> {
    s.(cache := LookedUp(s.cache, key, cfg.reset, now + TimerDelay(cfg.ttl)))
  }

  function Settled<K(==)>(cfg: Config, s: State<K>, number: nat, ok: bool, now: int): State<K>
    requires number < |s.log|
  {
    var fetch := s.log[number];
    var done := s.(inflight := s.inflight - {number});
    match fetch.kind
    case Revalidation(_) =>
      if ok && Commits(s, number) then Put(done, fetch.key, number, now + TimerDelay(cfg.ttl)) else done
    case Lookup => if ok then done else Dropped(done, fetch.key)
    case Reload =>
      if ok then done
      else
        var looked := Looked(cfg, done, fetch.key, now);
        if Found(done.cache, fetch.key) == Some(number) then Dropped(looked, fetch.key) else looked
    case External => done
  }

  function Step<K(==)>(cfg: Config, s: State<K>, e: Event<K>): Option<State<K>> {
    match e
    case Get(key, now) =>
      if key in s.cache.store then Some(Looked(cfg, s, key, now))
      else Some(Put(Launched(s, key, Lookup), key, |s.log|, now + TimerDelay(cfg.ttl)))
    case Refresh(key, now) =>
      if key in s.cache.store then
        var token := NextToken(s, key);
        Some(Launched(Looked(cfg, s, key, now).(tokens := s.tokens[key := token]), key, Revalidation(token)))
      else Some(Put(Launched(s, key, Reload), key, |s.log|, now + TimerDelay(cfg.ttl)))
    case Settle(number, ok, now) =>
      if number !in s.inflight || number >= |s.log| then None else Some(Settled(cfg, s, number, ok, now))
    case Set(key, now) => Some(Put(Launched(s, key, External), key, |s.log|, now + TimerDelay(cfg.ttl)))
    case Delete(key) => Some(Dropped(s, key))
    case Fire(id) => if id in s.cache.armed then Some(s.(cache := Fired(s.cache, id))) else None
  }

  function Initial<K>(): State<K> { State(Cache(map[], map[], 0), map[], {}, [], map[]) }

  function Run<K(==)>(cfg: Config, events: seq<Event<K>>): Option<State<K>> {
    if |events| == 0 then Some(Initial())
    else
      match Run(cfg, events[..|events| - 1])
      case None => None
      case Some(s) => Step(cfg, s, events[|events| - 1])
  }

  // ---------- The class ----------

  class AsyncCacheMap<K(==,!new)> {
    const base: CacheMap<K, nat>
    var refreshTokens: map<K, nat>
    ghost var inflight: set<nat>
    ghost var log: seq<Fetch<K>>
    ghost var periods: map<K, nat>

    constructor (ttl: int, resetExpiryOnLookup: bool)
      ensures fresh(base) && base.ttl == ttl && base.resetExpiryOnLookup == resetExpiryOnLookup
      ensures View() == Initial() && OneToOne(base.View())
    {
      base := new CacheMap(ttl, resetExpiryOnLookup);
      refreshTokens, inflight, log, periods := map[], {}, [], map[];
    }

    ghost function View(): State<K>
      reads this, base
    {
      State(base.View(), refreshTokens, inflight, log, periods)
    }

    function Cfg(): Config { Config(base.ttl, base.resetExpiryOnLookup) }

    method Delete(key: K) returns (existed: bool)
      requires OneToOne(base.View())
      modifies this, base
      ensures OneToOne(base.View()) && View() == Dropped(old(View()), key)
      ensures existed <==> key in old(base.store)
    {
      refreshTokens := refreshTokens - {key};
      periods := periods[key := Period(View(), key) + 1];
      existed := base.Delete(key);
    }

    method Set(key: K, number: nat, now: int)
      requires OneToOne(base.View())
      modifies this, base
      ensures OneToOne(base.View()) && View() == Put(old(View()), key, number, now + TimerDelay(base.ttl))
    {
      refreshTokens := refreshTokens - {key};
      periods := periods[key := Period(View(), key) + 1];
      base.Set(key, number, now);
    }

    /** `number` names the fetch that a miss starts. */
    method Get(key: K, now: int, number: nat) returns (promise: nat)
      requires OneToOne(base.View()) && number == |log|
      modifies this, base
      ensures OneToOne(base.View()) && Step(Cfg(), old(View()), Event.Get(key, now)) == Some(View())
      ensures Found(base.View(), key) == Some(promise)
    {
      var existing := base.Get(key, now);
      if existing.Some? { return existing.value; }
      log, inflight := log + [Fetch(key, Lookup, Period(View(), key))], inflight + {number};
      Set(key, number, now);
      promise := number;
    }

    /** Unlike `get`, it always hands back the promise of the fetch it starts. */
    method Refresh(key: K, now: int, number: nat) returns (promise: nat)
      requires OneToOne(base.View()) && number == |log|
      modifies this, base
      ensures promise == number && number in inflight && |log| == number + 1 && log[number].key == key
      ensures OneToOne(base.View()) && Step(Cfg(), old(View()), Event.Refresh(key, now)) == Some(View())
    {
      var existing := base.Get(key, now);
      if existing.None? {
        log, inflight := log + [Fetch(key, Reload, Period(View(), key))], inflight + {number};
        Set(key, number, now);
        return number;
      }
      var token := (if key in refreshTokens then refreshTokens[key] else 0) + 1;
      refreshTokens := refreshTokens[key := token];
      log, inflight := log + [Fetch(key, Revalidation(token), Period(View(), key))], inflight + {number};
      promise := number;
    }

    /** The continuation of a fetch; `key` and `kind` are what its closure captured. */
    method OnSettled(number: nat, key: K, kind: Kind, ok: bool, now: int)
      requires OneToOne(base.View()) && number in inflight && number < |log|
      requires log[number].key == key && log[number].kind == kind
      modifies this, base
      ensures OneToOne(base.View()) && Step(Cfg(), old(View()), Settle(number, ok, now)) == Some(View())
    {
      inflight := inflight - {number};
      match kind
      case Revalidation(token) =>
        if ok && key in refreshTokens && refreshTokens[key] == token { Set(key, number, now); }
      case Lookup =>
        if !ok { var _ := Delete(key); }
      case Reload =>
        if !ok {
          var current := base.Get(key, now);
          if current == Some(number) { var _ := Delete(key); }
        }
      case External =>
    }
  }

  // ---------- Which refreshes may write ----------

  predicate IsRevalidation<K(==)>(log: seq<Fetch<K>>, number: nat, key: K) {
    number < |log| && log[number].key == key && log[number].kind.Revalidation?
  }

  /** The newest-started stale-path refresh of a key. */
  function Newest<K(==)>(log: seq<Fetch<K>>, key: K): Option<nat> {
    if |log| == 0 then None
    else if IsRevalidation(log, |log| - 1, key) then Some(|log| - 1)
    else Newest(log[..|log| - 1], key)
  }

  lemma {:induction false} NewestIsNewest<K>(log: seq<Fetch<K>>, key: K, number: nat)
    requires IsRevalidation(log, number, key)
    ensures Newest(log, key).Some? && number <= Newest(log, key).value && IsRevalidation(log, Newest(log, key).value, key)
    decreases |log|
  {
    if !IsRevalidation(log, |log| - 1, key) { NewestIsNewest(log[..|log| - 1], key, number); }
  }

  lemma {:induction false} NewestExists<K>(log: seq<Fetch<K>>, key: K)
    ensures Newest(log, key).Some? ==> IsRevalidation(log, Newest(log, key).value, key)
  {
    if |log| > 0 { NewestExists(log[..|log| - 1], key); }
  }

  lemma NewestAfterLaunch<K>(log: seq<Fetch<K>>, fetch: Fetch<K>, key: K)
    ensures Newest(log + [fetch], key)
         == if fetch.key == key && fetch.kind.Revalidation? then Some(|log|) else Newest(log, key)
  {
    assert (log + [fetch])[..|log|] == log;
  }

  /** A key has a token exactly while its newest refresh belongs to the current period, and it is that one's. */
  ghost predicate TokenIsNewest<K>(s: State<K>, key: K) {
    TokenOf(s, key) == (
      var n := Newest(s.log, key);
      if n.Some? && n.value < |s.log| && s.log[n.value].period == Period(s, key) && s.log[n.value].kind.Revalidation?
      then Some(s.log[n.value].kind.token) else None)
  }

  ghost predicate Ordered<K>(s: State<K>, f: nat, g: nat)
    requires f < |s.log| && g < |s.log|
  {
    s.log[f].key == s.log[g].key && s.log[f].kind.Revalidation? && s.log[g].kind.Revalidation? ==>
      && s.log[f].period <= s.log[g].period
      && (s.log[f].period == s.log[g].period ==> s.log[f].kind.token < s.log[g].kind.token)
  }

  ghost predicate Inv<K(!new)>(s: State<K>) {
    && (forall key :: TokenIsNewest(s, key))
    && (forall f, g :: 0 <= f < g < |s.log| ==> Ordered(s, f, g))
    && (forall f :: 0 <= f < |s.log| ==> s.log[f].period <= Period(s, s.log[f].key))
  }

  lemma DroppedKeepsInv<K(!new)>(s: State<K>, key: K)
    requires Inv(s)
    ensures Inv(Dropped(s, key))
  {
    var t := Dropped(s, key);
    forall k ensures TokenIsNewest(t, k) {
      assert TokenIsNewest(s, k);
      NewestExists(s.log, k);
    }
    forall f, g | 0 <= f < g < |t.log| ensures Ordered(t, f, g) { assert Ordered(s, f, g); }
  }

  /** A fetch other than a stale-path refresh does not touch tokens. */
  lemma LaunchKeepsInv<K(!new)>(s: State<K>, key: K, kind: Kind)
    requires Inv(s) && !kind.Revalidation?
    ensures Inv(Launched(s, key, kind))
  {
    var t := Launched(s, key, kind);
    forall k ensures TokenIsNewest(t, k) {
      assert TokenIsNewest(s, k);
      NewestExists(s.log, k);
      NewestAfterLaunch(s.log, t.log[|s.log|], k);
    }
    forall f, g | 0 <= f < g < |t.log| ensures Ordered(t, f, g) {
      if g < |s.log| { assert Ordered(s, f, g); }
    }
  }

  /** A stale-path refresh takes the next token of the period. */
  lemma RefreshKeepsInv<K(!new)>(s: State<K>, key: K)
    requires Inv(s)
    ensures Inv(Launched(s.(tokens := s.tokens[key := NextToken(s, key)]), key, Revalidation(NextToken(s, key))))
  {
    var t := Launched(s.(tokens := s.tokens[key := NextToken(s, key)]), key, Revalidation(NextToken(s, key)));
    forall k ensures TokenIsNewest(t, k) {
      assert TokenIsNewest(s, k);
      NewestExists(s.log, k);
      NewestAfterLaunch(s.log, t.log[|s.log|], k);
    }
    forall f, g | 0 <= f < g < |t.log| ensures Ordered(t, f, g) {
      if g < |s.log| {
        assert Ordered(s, f, g);
      } else if s.log[f].key == key && s.log[f].kind.Revalidation? {
        NewestIsNewest(s.log, key, f);
        var n := Newest(s.log, key).value;
        assert TokenIsNewest(s, key);
        if f < n { assert Ordered(s, f, n); }
      }
    }
  }

  /** Only tokens, log and periods matter. */
  lemma CacheIsIrrelevant<K(!new)>(s: State<K>, t: State<K>)
    requires Inv(s) && t.tokens == s.tokens && t.log == s.log && t.periods == s.periods
    ensures Inv(t)
  {
    forall k ensures TokenIsNewest(t, k) { assert TokenIsNewest(s, k); }
    forall f, g | 0 <= f < g < |t.log| ensures Ordered(t, f, g) { assert Ordered(s, f, g); }
  }

  lemma PutKeepsInv<K(!new)>(s: State<K>, key: K, number: nat, deadline: int)
    requires Inv(s)
    ensures Inv(Put(s, key, number, deadline))
  {
    DroppedKeepsInv(s, key);
    CacheIsIrrelevant(Dropped(s, key), Put(s, key, number, deadline));
  }

  lemma SettledKeepsInv<K(!new)>(cfg: Config, s: State<K>, number: nat, ok: bool, now: int)
    requires Inv(s) && number < |s.log|
    ensures Inv(Settled(cfg, s, number, ok, now))
  {
    var key := s.log[number].key;
    var done := s.(inflight := s.inflight - {number});
    CacheIsIrrelevant(s, done);
    var looked := Looked(cfg, done, key, now);
    CacheIsIrrelevant(s, looked);
    DroppedKeepsInv(done, key);
    DroppedKeepsInv(looked, key);
    PutKeepsInv(done, key, number, now + TimerDelay(cfg.ttl));
  }

  lemma FetchAndPutKeepsInv<K(!new)>(s: State<K>, key: K, kind: Kind, number: nat, deadline: int)
    requires Inv(s) && !kind.Revalidation?
    ensures Inv(Put(Launched(s, key, kind), key, number, deadline))
  {
    LaunchKeepsInv(s, key, kind);
    PutKeepsInv(Launched(s, key, kind), key, number, deadline);
  }

  lemma RefreshPresentKeepsInv<K(!new)>(cfg: Config, s: State<K>, key: K, now: int)
    requires Inv(s) && key in s.cache.store
    ensures Inv(Step(cfg, s, Refresh(key, now)).value)
  {
    CacheIsIrrelevant(s, Looked(cfg, s, key, now));
    RefreshKeepsInv(Looked(cfg, s, key, now), key);
  }

  lemma GetKeepsInv<K(!new)>(cfg: Config, s: State<K>, key: K, now: int)
    requires Inv(s)
    ensures Inv(Step(cfg, s, Event.Get(key, now)).value)
  {
    if key in s.cache.store {
      CacheIsIrrelevant(s, Looked(cfg, s, key, now));
    } else {
      FetchAndPutKeepsInv(s, key, Lookup, |s.log|, now + TimerDelay(cfg.ttl));
    }
  }

  lemma StepKeepsInv<K(!new)>(cfg: Config, s: State<K>, e: Event<K>, t: State<K>)
    requires Inv(s) && Step(cfg, s, e) == Some(t)
    ensures Inv(t)
  {
    match e
    case Get(key, now) => GetKeepsInv(cfg, s, key, now);
    case Refresh(key, now) =>
      if key in s.cache.store {
        RefreshPresentKeepsInv(cfg, s, key, now);
      } else {
        FetchAndPutKeepsInv(s, key, Reload, |s.log|, now + TimerDelay(cfg.ttl));
      }
    case Settle(number, ok, now) => SettledKeepsInv(cfg, s, number, ok, now);
    case Set(key, now) => FetchAndPutKeepsInv(s, key, External, |s.log|, now + TimerDelay(cfg.ttl));
    case Delete(key) => DroppedKeepsInv(s, key);
    case Fire(id) => CacheIsIrrelevant(s, t);
  }

  lemma {:induction false} EveryRunKeepsInv<K(!new)>(cfg: Config, events: seq<Event<K>>, s: State<K>)
    requires Run(cfg, events) == Some(s)
    ensures Inv(s)
  {
    if |events| == 0 {
      forall key ensures TokenIsNewest(s, key) {}
    } else {
      var before := Run(cfg, events[..|events| - 1]).value;
      EveryRunKeepsInv(cfg, events[..|events| - 1], before);
      StepKeepsInv(cfg, before, events[|events| - 1], s);
    }
  }

  /**
   MAIN RESULT. In every reachable state a stale-path refresh whose fetch succeeds writes exactly if its
   token equals that of the key's newest refresh and that one belongs to the current period. So a refresh
   that writes is the newest-started one, or one left over from an earlier period with an equal token.
   */
  lemma WritesExactly<K(!new)>(cfg: Config, events: seq<Event<K>>, s: State<K>, number: nat, key: K)
    requires Run(cfg, events) == Some(s) && IsRevalidation(s.log, number, key)
    ensures Newest(s.log, key).Some? && Newest(s.log, key).value < |s.log| && number <= Newest(s.log, key).value
    ensures var newest := s.log[Newest(s.log, key).value];
            && newest.kind.Revalidation?
            && (Commits(s, number) <==>
                  newest.period == Period(s, key) && newest.kind.token == s.log[number].kind.token)
            && (Commits(s, number) ==> number == Newest(s.log, key).value || s.log[number].period < Period(s, key))
  {
    EveryRunKeepsInv(cfg, events, s);
    NewestIsNewest(s.log, key, number);
    var n := Newest(s.log, key).value;
    assert TokenIsNewest(s, key);
    if number < n { assert Ordered(s, number, n); }
  }

  /** Within one period tokens are distinct, and while it lasts every superseded refresh is dropped. */
  lemma SupersededIsDropped<K(!new)>(cfg: Config, events: seq<Event<K>>, s: State<K>, f: nat, g: nat, key: K)
    requires Run(cfg, events) == Some(s) && f < g
    requires IsRevalidation(s.log, f, key) && IsRevalidation(s.log, g, key) && s.log[f].period == s.log[g].period
    ensures s.log[f].kind.token < s.log[g].kind.token
    ensures s.log[f].period == Period(s, key) ==> !Commits(s, f)
  {
    EveryRunKeepsInv(cfg, events, s);
    assert Ordered(s, f, g);
    WritesExactly(cfg, events, s, f, key);
    var n := Newest(s.log, key).value;
    NewestIsNewest(s.log, key, g);
    if g < n { assert Ordered(s, g, n); }
  }

  // ---------- The cache is a CacheMap ----------

  /** The operations on the map of promises that an event amounts to; `at` is the time of one that carries none. */
  ghost function OpsOf<K(!new)>(s: State<K>, e: Event<K>, at: int): seq<Op<K, nat>> {
    match e
    case Get(key, now) => [Op.Get(key, now)] + if Found(s.cache, key).None? then [Op.Set(key, |s.log|, now)] else []
    case Refresh(key, now) => [Op.Get(key, now)] + if Found(s.cache, key).None? then [Op.Set(key, |s.log|, now)] else []
    case Set(key, now) => [Op.Set(key, |s.log|, now)]
    case Delete(key) => [Op.Delete(key, at)]
    case Fire(id) => [Op.Fire(id, at)]
    case Settle(number, ok, now) =>
      if number >= |s.log| then [] else SettlingOps(s, number, s.log[number].key, ok, now)
  }

  ghost function SettlingOps<K(!new)>(s: State<K>, number: nat, key: K, ok: bool, now: int): seq<Op<K, nat>>
    requires number < |s.log|
  {
    match s.log[number].kind
    case Revalidation(_) => if ok && HasNewestToken(s, number, key) then [Op.Set(key, number, now)] else []
    case Lookup => if ok then [] else [Op.Delete(key, now)]
    case Reload =>
      if ok then []
      else [Op.Get(key, now)] + if Found(s.cache, key) == Some(number) then [Op.Delete(key, now)] else []
    case External => []
  }

  ghost function Performed<K(!new)>(cfg: Config, c: Cache<K, nat>, ops: seq<Op<K, nat>>): Cache<K, nat> {
    if |ops| == 0 then c else CacheStep(cfg, Performed(cfg, c, ops[..|ops| - 1]), ops[|ops| - 1])
  }

  /** The operations of a whole run. */
  ghost function OpsUpTo<K(!new)>(cfg: Config, events: seq<Event<K>>, at: seq<int>): seq<Op<K, nat>>
    requires |at| == |events|
  {
    if |events| == 0 then []
    else
      var n := |events| - 1;
      match Run(cfg, events[..n])
      case None => []
      case Some(s) => OpsUpTo(cfg, events[..n], at[..n]) + OpsOf(s, events[n], at[n])
  }

  lemma PerformedOne<K(!new)>(cfg: Config, c: Cache<K, nat>, op: Op<K, nat>)
    ensures Performed(cfg, c, [op]) == CacheStep(cfg, c, op)
  {
    assert [op][..0] == [];
  }

  lemma PerformedTwo<K(!new)>(cfg: Config, c: Cache<K, nat>, op: Op<K, nat>, after: Op<K, nat>)
    ensures Performed(cfg, c, [op] + [after]) == CacheStep(cfg, CacheStep(cfg, c, op), after)
  {
    assert ([op] + [after])[..1] == [op];
    PerformedOne(cfg, c, op);
  }

  lemma StepPerforms<K(!new)>(cfg: Config, s: State<K>, e: Event<K>, at: int, t: State<K>)
    requires Step(cfg, s, e) == Some(t) && !e.Settle?
    ensures t.cache == Performed(cfg, s.cache, OpsOf(s, e, at))
  {
    match e
    case Get(key, now) =>
      PerformedOne(cfg, s.cache, Op.Get(key, now));
      PerformedTwo(cfg, s.cache, Op.Get(key, now), Op.Set(key, |s.log|, now));
    case Refresh(key, now) =>
      PerformedOne(cfg, s.cache, Op.Get(key, now));
      PerformedTwo(cfg, s.cache, Op.Get(key, now), Op.Set(key, |s.log|, now));
    case Set(key, now) => PerformedOne(cfg, s.cache, Op.Set(key, |s.log|, now));
    case Delete(key) => PerformedOne(cfg, s.cache, Op.Delete(key, at));
    case Fire(id) => PerformedOne(cfg, s.cache, Op.Fire(id, at));
  }

  lemma SettlingPerforms<K(!new)>(cfg: Config, s: State<K>, number: nat, key: K, ok: bool, now: int)
    requires number < |s.log| && s.log[number].key == key
    requires s.log[number].kind.Revalidation? ==> (Commits(s, number) <==> HasNewestToken(s, number, key))
    ensures Settled(cfg, s, number, ok, now).cache == Performed(cfg, s.cache, SettlingOps(s, number, key, ok, now))
  {
    PerformedOne(cfg, s.cache, Op.Set(key, number, now));
    PerformedOne(cfg, s.cache, Op.Delete(key, now));
    PerformedOne(cfg, s.cache, Op.Get(key, now));
    PerformedTwo(cfg, s.cache, Op.Get(key, now), Op.Delete(key, now));
  }

  lemma {:induction false} PlayPerforms<K(!new)>(cfg: Config, ops: seq<Op<K, nat>>, more: seq<Op<K, nat>>)
    ensures Play(cfg, ops + more).cache == Performed(cfg, Play(cfg, ops).cache, more)
  {
    if |more| == 0 {
      assert ops + more == ops;
    } else {
      var n := |more| - 1;
      assert (ops + more)[..|ops| + n] == ops + more[..n];
      PlayPerforms(cfg, ops, more[..n]);
    }
  }

  /** Over every run the map of promises is a CacheMap on which those operations were done. */
  lemma {:induction false} CacheIsACacheMap<K(!new)>(cfg: Config, events: seq<Event<K>>, at: seq<int>, s: State<K>)
    requires |at| == |events| && Run(cfg, events) == Some(s)
    ensures Play(cfg, OpsUpTo(cfg, events, at)).cache == s.cache
  {
    if |events| > 0 {
      var n := |events| - 1;
      var before, e := Run(cfg, events[..n]).value, events[n];
      CacheIsACacheMap(cfg, events[..n], at[..n], before);
      PlayPerforms(cfg, OpsUpTo(cfg, events[..n], at[..n]), OpsOf(before, e, at[n]));
      if e.Settle? {
        if before.log[e.number].kind.Revalidation? { WritesExactly(cfg, events[..n], before, e.number, before.log[e.number].key); }
        SettlingPerforms(cfg, before, e.number, before.log[e.number].key, e.ok, e.now);
      } else {
        StepPerforms(cfg, before, e, at[n], s);
      }
    }
  }

  /** MAIN RESULT. With timers on time, what is found is what a plain map would hold whose entries are timestamped. */
  lemma FindsWhatAPlainMapHolds<K(!new)>(cfg: Config, events: seq<Event<K>>, at: seq<int>, s: State<K>, key: K, now: int)
    requires |at| == |events| && Run(cfg, events) == Some(s)
    requires TimelyRun(cfg, OpsUpTo(cfg, events, at) + [Op.Get(key, now)])
    ensures Found(s.cache, key) == PlainAnswer(cfg, Play(cfg, OpsUpTo(cfg, events, at)).plain, Op.Get(key, now))
  {
    var ops := OpsUpTo(cfg, events, at);
    CacheIsACacheMap(cfg, events, at, s);
    AgreesWithPlainMap(cfg, ops + [Op.Get(key, now)], now);
    assert (ops + [Op.Get(key, now)])[..|ops|] == ops;
  }

  // ---------- What is served after each event ----------

  /** The refresh's token is that of the key's newest refresh, and that one was started since the last set or delete. */
  ghost predicate HasNewestToken<K>(s: State<K>, number: nat, key: K) {
    && IsRevalidation(s.log, number, key)
    && var n := Newest(s.log, key);
       && n.Some? && n.value < |s.log| && s.log[n.value].kind.Revalidation?
       && s.log[n.value].period == Period(s, key) && s.log[n.value].kind.token == s.log[number].kind.token
  }

  /** What a settled fetch leaves under its own key, where `was` was found before. */
  ghost function LeftBehind<K>(s: State<K>, number: nat, ok: bool, was: Option<nat>): Option<nat>
    requires number < |s.log|
  {
    match s.log[number].kind
    case Revalidation(_) => if ok && HasNewestToken(s, number, s.log[number].key) then Some(number) else was
    case Lookup => if ok then was else None
    case Reload => if !ok && was == Some(number) then None else was
    case External => was
  }

  lemma PutServes<K>(s: State<K>, key: K, number: nat, deadline: int, other: K)
    ensures Found(Put(s, key, number, deadline).cache, other) == if other == key then Some(number) else Found(s.cache, other)
    ensures Found(Dropped(s, key).cache, other) == if other == key then None else Found(s.cache, other)
  {
  }

  lemma LookingServes<K>(cfg: Config, s: State<K>, key: K, now: int, other: K)
    ensures Found(Looked(cfg, s, key, now).cache, other) == Found(s.cache, other)
  {
  }

  /**
   MAIN RESULT. A settled fetch changes what is found under its own key at most: a refresh of a present key puts
   itself there exactly if it succeeded and has the newest token; when it fails, or was superseded, cache and
   tokens stay as they were, so the stale entry is still served. The other fetches leave nothing when they fail.
   */
  lemma SettlingServes<K(!new)>(cfg: Config, events: seq<Event<K>>, s: State<K>, number: nat, ok: bool, now: int, t: State<K>, key: K)
    requires Run(cfg, events) == Some(s) && Step(cfg, s, Settle(number, ok, now)) == Some(t)
    ensures number < |s.log|
    ensures Found(t.cache, key) ==
            if key == s.log[number].key then LeftBehind(s, number, ok, Found(s.cache, key)) else Found(s.cache, key)
    ensures s.log[number].kind.Revalidation? && !(ok && HasNewestToken(s, number, s.log[number].key)) ==>
              t.cache == s.cache && t.tokens == s.tokens
    ensures ok && !s.log[number].kind.Revalidation? ==> t.cache == s.cache && t.tokens == s.tokens
  {
    if s.log[number].kind.Revalidation? {
      WritesExactly(cfg, events, s, number, s.log[number].key);
      RefreshServes(cfg, s, number, ok, now, key);
    } else {
      FetchServes(cfg, s, number, ok, now, key);
    }
  }

  lemma RefreshServes<K>(cfg: Config, s: State<K>, number: nat, ok: bool, now: int, key: K)
    requires number < |s.log| && s.log[number].kind.Revalidation?
    ensures var t := Settled(cfg, s, number, ok, now);
            if ok && Commits(s, number)
            then Found(t.cache, key) == if key == s.log[number].key then Some(number) else Found(s.cache, key)
            else t.cache == s.cache && t.tokens == s.tokens
  {
    PutServes(s.(inflight := s.inflight - {number}), s.log[number].key, number, now + TimerDelay(cfg.ttl), key);
  }

  lemma FetchServes<K>(cfg: Config, s: State<K>, number: nat, ok: bool, now: int, key: K)
    requires number < |s.log| && !s.log[number].kind.Revalidation?
    ensures var t, own := Settled(cfg, s, number, ok, now), s.log[number].key;
            && (ok ==> t.cache == s.cache && t.tokens == s.tokens)
            && Found(t.cache, key) == if key == own then LeftBehind(s, number, ok, Found(s.cache, key)) else Found(s.cache, key)
  {
    var done, own := s.(inflight := s.inflight - {number}), s.log[number].key;
    LookingServes(cfg, done, own, now, key);
    PutServes(done, own, 0, 0, key);
    PutServes(Looked(cfg, done, own, now), own, 0, 0, key);
  }

  /** The other calls: a miss stores the fetch it starts, a hit changes nothing, set and delete do what they say. */
  lemma CallServes<K>(cfg: Config, s: State<K>, e: Event<K>, t: State<K>, key: K)
    requires Step(cfg, s, e) == Some(t) && (e.Get? || e.Refresh? || e.Set? || e.Delete?)
    ensures Found(t.cache, key) ==
            if key != e.key then Found(s.cache, key)
            else match e
                 case Delete(_) => None
                 case Set(_, _) => Some(|s.log|)
                 case _ => if Found(s.cache, key).Some? then Found(s.cache, key) else Some(|s.log|)
  {
    match e
    case Get(k, now) =>
      LookingServes(cfg, s, k, now, key);
      PutServes(Launched(s, k, Lookup), k, |s.log|, now + TimerDelay(cfg.ttl), key);
    case Refresh(k, now) =>
      LookingServes(cfg, s, k, now, key);
      PutServes(Launched(s, k, Reload), k, |s.log|, now + TimerDelay(cfg.ttl), key);
    case Set(k, now) => PutServes(Launched(s, k, External), k, |s.log|, now + TimerDelay(cfg.ttl), key);
    case Delete(k) => PutServes(s, k, 0, 0, key);
  }

  // ---------- Older refreshes ----------

  lemma RunAppends<K>(cfg: Config, events: seq<Event<K>>, s: State<K>, e: Event<K>)
    requires Run(cfg, events) == Some(s)
    ensures Run(cfg, events + [e]) == Step(cfg, s, e)
  {
    assert (events + [e])[..|events|] == events;
  }

  /**
   Across periods "newest started wins" fails. Refreshes 1 and 2 take tokens 1 and 2; 2 writes, which
   restarts the tokens; 3 takes token 1 again; then 1 writes over 2, and 3, the newest, is dropped.
   */
  lemma OlderRefreshCanWin(now: int) returns (events: seq<Event<int>>, s: State<int>, t: State<int>)
    ensures Run(Config(60, false), events) == Some(s)
    ensures Newest(s.log, 7) == Some(3) && Commits(s, 1) && Found(s.cache, 7) == Some(2)
    ensures Step(Config(60, false), s, Settle(1, true, now)) == Some(t)
    ensures Found(t.cache, 7) == Some(1) && 3 in t.inflight && !Commits(t, 3)
  {
    var cfg := Config(60, false);
    events, s := AfterTwoRefreshes(now);
    RunAppends(cfg, events, s, Settle(2, true, now));
    events, s := events + [Settle(2, true, now)], Step(cfg, s, Settle(2, true, now)).value;
    assert Found(s.cache, 7) == Some(2) && 7 !in s.tokens;
    RunAppends(cfg, events, s, Refresh(7, now));
    events, s := events + [Refresh(7, now)], Step(cfg, s, Refresh(7, now)).value;
    assert s.log[3] == Fetch(7, Revalidation(1), 2) && s.log[1] == Fetch(7, Revalidation(1), 1);
    t := Step(cfg, s, Settle(1, true, now)).value;
  }

  lemma AfterTwoRefreshes(now: int) returns (events: seq<Event<int>>, s: State<int>)
    ensures Run(Config(60, false), events) == Some(s)
    ensures s.log == [Fetch(7, Lookup, 0), Fetch(7, Revalidation(1), 1), Fetch(7, Revalidation(2), 1)]
    ensures 7 in s.cache.store && s.tokens == map[7 := 2] && s.inflight == {0, 1, 2} && s.periods == map[7 := 1]
  {
    var cfg := Config(60, false);
    events, s := [], Initial();
    RunAppends(cfg, events, s, Event.Get(7, now));
    events, s := events + [Event.Get(7, now)], Step(cfg, s, Event.Get(7, now)).value;
    RunAppends(cfg, events, s, Refresh(7, now));
    events, s := events + [Refresh(7, now)], Step(cfg, s, Refresh(7, now)).value;
    RunAppends(cfg, events, s, Refresh(7, now));
    events, s := events + [Refresh(7, now)], Step(cfg, s, Refresh(7, now)).value;
  }
}
