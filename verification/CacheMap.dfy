/**
 `CacheMap` (packages/shared/src/dataStructures.ts): a map whose entries expire by timers.

 `armed` is the runtime's side: the timers that have been set and neither cleared nor fired.
 */
module CacheMap {
  import opened Prelude

  datatype Entry<V> = Entry(value: V, timeout: nat)

  datatype Alarm<K> = Alarm(key: K, deadline: int)

  datatype Cache<K, V> = Cache(store: map<K, Entry<V>>, armed: map<nat, Alarm<K>>, nextTimer: nat)

  /** The delay `setTimeout` really uses: out-of-range delays become 1. */
  function TimerDelay(ms: int): (d: int)
    ensures d >= 1
  {
    if 1 <= ms <= 0x7fff_ffff then ms else 1
  }

  // ---------- What each operation does ----------

  /** `this.store.get(key)?.clear()` */
  function Cleared<K(==), V>(c: Cache<K, V>, key: K): Cache<K, V> {
    if key in c.store then c.(armed := c.armed - {c.store[key].timeout}) else c
  }

  function Deleted<K(==), V>(c: Cache<K, V>, key: K): Cache<K, V> {
    Cleared(c, key).(store := c.store - {key})
  }

  /** A new timer for `key`, whose entry now carries it. */
  function Armed<K(==), V>(c: Cache<K, V>, key: K, value: V, deadline: int): Cache<K, V> {
    Cache(c.store[key := Entry(value, c.nextTimer)], c.armed[c.nextTimer := Alarm(key, deadline)], c.nextTimer + 1)
  }

  function Stored<K(==), V>(c: Cache<K, V>, key: K, value: V, deadline: int): Cache<K, V> {
    Armed(Deleted(c, key), key, value, deadline)
  }

  function LookedUp<K(==), V>(c: Cache<K, V>, key: K, reset: bool, deadline: int): Cache<K, V> {
    if key in c.store && reset then Armed(Cleared(c, key), key, c.store[key].value, deadline) else c
  }

  function Found<K(==), V>(c: Cache<K, V>, key: K): Option<V> {
    if key in c.store then Some(c.store[key].value) else None
  }

  /** The callback of an armed timer. */
  function Fired<K(==), V>(c: Cache<K, V>, id: nat): Cache<K, V>
    requires id in c.armed
  {
    c.(store := c.store - {c.armed[id].key}, armed := c.armed - {id})
  }

  // ---------- Entries and timers correspond one to one ----------

  ghost predicate EntryHasTimer<K(!new), V>(c: Cache<K, V>, k: K) {
    k in c.store ==> c.store[k].timeout in c.armed && c.armed[c.store[k].timeout].key == k
  }

  ghost predicate TimerHasEntry<K(!new), V>(c: Cache<K, V>, id: nat) {
    id in c.armed ==> id < c.nextTimer && c.armed[id].key in c.store && c.store[c.armed[id].key].timeout == id
  }

  ghost predicate OneToOne<K(!new), V>(c: Cache<K, V>) {
    && (forall k {:trigger EntryHasTimer(c, k)} :: EntryHasTimer(c, k))
    && (forall id {:trigger TimerHasEntry(c, id)} :: TimerHasEntry(c, id))
  }

  lemma DeletedOneToOne<K(!new), V>(c: Cache<K, V>, key: K)
    requires OneToOne(c)
    ensures OneToOne(Deleted(c, key))
  {
    var d := Deleted(c, key);
    assert EntryHasTimer(c, key);
    forall k ensures EntryHasTimer(d, k) { assert EntryHasTimer(c, k); }
    forall id ensures TimerHasEntry(d, id) { assert TimerHasEntry(c, id); }
  }

  lemma ArmedOneToOne<K(!new), V>(c: Cache<K, V>, key: K, value: V, deadline: int)
    requires OneToOne(c) && key !in c.store
    ensures OneToOne(Armed(c, key, value, deadline))
  {
    var d := Armed(c, key, value, deadline);
    assert TimerHasEntry(c, c.nextTimer);
    forall k ensures EntryHasTimer(d, k) { assert EntryHasTimer(c, k); }
    forall id ensures TimerHasEntry(d, id) { assert TimerHasEntry(c, id); }
  }

  lemma StoredOneToOne<K(!new), V>(c: Cache<K, V>, key: K, value: V, deadline: int)
    requires OneToOne(c)
    ensures OneToOne(Stored(c, key, value, deadline))
  {
    DeletedOneToOne(c, key);
    ArmedOneToOne(Deleted(c, key), key, value, deadline);
  }

  /** Resetting an entry's expiry on lookup is storing its value again. */
  lemma ResetIsStore<K(!new), V>(c: Cache<K, V>, key: K, deadline: int)
    requires key in c.store
    ensures LookedUp(c, key, true, deadline) == Stored(c, key, c.store[key].value, deadline)
  {
    assert c.store[key := Entry(c.store[key].value, c.nextTimer)]
        == (c.store - {key})[key := Entry(c.store[key].value, c.nextTimer)];
  }

  lemma LookedUpOneToOne<K(!new), V>(c: Cache<K, V>, key: K, reset: bool, deadline: int)
    requires OneToOne(c)
    ensures OneToOne(LookedUp(c, key, reset, deadline))
  {
    if key in c.store && reset {
      ResetIsStore(c, key, deadline);
      StoredOneToOne(c, key, c.store[key].value, deadline);
    }
  }

  /** A timer that fires removes the entry that armed it last, and no other. */
  lemma FiredOneToOne<K(!new), V>(c: Cache<K, V>, id: nat)
    requires OneToOne(c) && id in c.armed
    ensures OneToOne(Fired(c, id))
    ensures forall k :: k in c.store && c.store[k].timeout != id ==> k in Fired(c, id).store
    ensures c.armed[id].key in c.store && c.store[c.armed[id].key].timeout == id
  {
    var d := Fired(c, id);
    assert TimerHasEntry(c, id);
    forall k ensures EntryHasTimer(d, k) { assert EntryHasTimer(c, k); }
    forall other ensures TimerHasEntry(d, other) { assert TimerHasEntry(c, other); }
  }

  class CacheMap<K(==,!new), V> {
    const ttl: int
    const resetExpiryOnLookup: bool
    var store: map<K, Entry<V>>
    var armed: map<nat, Alarm<K>>
    var nextTimer: nat

    constructor (ttl: int, resetExpiryOnLookup: bool)
      ensures this.ttl == ttl && this.resetExpiryOnLookup == resetExpiryOnLookup
      ensures View() == Cache(map[], map[], 0) && OneToOne(View())
    {
      this.ttl, this.resetExpiryOnLookup := ttl, resetExpiryOnLookup;
      store, armed, nextTimer := map[], map[], 0;
    }

    function View(): Cache<K, V>
      reads this
    {
      Cache(store, armed, nextTimer)
    }

    method Delete(key: K) returns (existed: bool)
      requires OneToOne(View())
      modifies this
      ensures OneToOne(View()) && View() == Deleted(old(View()), key)
      ensures existed <==> key in old(store)
    {
      DeletedOneToOne(View(), key);
      existed := key in store;
      if existed { armed := armed - {store[key].timeout}; }
      store := store - {key};
    }

    method Set(key: K, value: V, now: int)
      requires OneToOne(View())
      modifies this
      ensures OneToOne(View()) && View() == Stored(old(View()), key, value, now + TimerDelay(ttl))
    {
      StoredOneToOne(View(), key, value, now + TimerDelay(ttl));
      var _ := Delete(key);
      armed := armed[nextTimer := Alarm(key, now + TimerDelay(ttl))];
      store := store[key := Entry(value, nextTimer)];
      nextTimer := nextTimer + 1;
    }

    method Get(key: K, now: int) returns (r: Option<V>)
      requires OneToOne(View())
      modifies this
      ensures OneToOne(View()) && r == Found(old(View()), key)
      ensures View() == LookedUp(old(View()), key, resetExpiryOnLookup, now + TimerDelay(ttl))
    {
      LookedUpOneToOne(View(), key, resetExpiryOnLookup, now + TimerDelay(ttl));
      if key !in store { return None; }
      r := Some(store[key].value);
      if resetExpiryOnLookup {
        armed := (armed - {store[key].timeout})[nextTimer := Alarm(key, now + TimerDelay(ttl))];
        store := store[key := Entry(store[key].value, nextTimer)];
        nextTimer := nextTimer + 1;
      }
    }

    /** The runtime fires a timer: it removes the entry that armed it last, and no other. */
    method Fire(id: nat)
      requires OneToOne(View()) && id in armed
      modifies this
      ensures OneToOne(View()) && View() == Fired(old(View()), id)
      ensures forall k :: k in old(store) && old(store)[k].timeout != id ==> k in store && store[k] == old(store)[k]
    {
      FiredOneToOne(View(), id);
      var key := armed[id].key;
      armed := armed - {id};
      store := store - {key};
    }
  }

  // ---------- Against a plain timestamped map ----------

  datatype Op<K, V> =
    | Set(key: K, value: V, now: int)
    | Get(key: K, now: int)
    | Delete(key: K, now: int)
    | Fire(id: nat, now: int)

  datatype Stamped<V> = Stamped(value: V, at: int)

  datatype Config = Config(ttl: int, reset: bool)

  predicate Live<K(==), V>(cfg: Config, m: map<K, Stamped<V>>, key: K, now: int) {
    key in m && now < m[key].at + TimerDelay(cfg.ttl)
  }

  /** An entry lives for its time to live in milliseconds, or for one if that is more than a timer can hold or none. */
  lemma LivesForItsTtl<K, V>(cfg: Config, m: map<K, Stamped<V>>, key: K, now: int)
    ensures Live(cfg, m, key, now) <==>
              key in m && (now - m[key].at < cfg.ttl <= 2_147_483_647 || (!(1 <= cfg.ttl <= 2_147_483_647) && now <= m[key].at))
  {
  }

  /** The reference: remembers when each key was last set (or looked up, if that resets the expiry). */
  function PlainStep<K(==), V>(cfg: Config, m: map<K, Stamped<V>>, op: Op<K, V>): map<K, Stamped<V>> {
    match op
    case Set(k, v, now) => m[k := Stamped(v, now)]
    case Get(k, now) => if cfg.reset && Live(cfg, m, k, now) then m[k := Stamped(m[k].value, now)] else m
    case Delete(k, _) => m - {k}
    case Fire(_, _) => m
  }

  function PlainAnswer<K(==), V>(cfg: Config, m: map<K, Stamped<V>>, op: Op<K, V>): Option<V> {
    if !op.Fire? && Live(cfg, m, op.key, op.now) then Some(m[op.key].value) else None
  }

  function CacheStep<K(==), V>(cfg: Config, c: Cache<K, V>, op: Op<K, V>): Cache<K, V> {
    match op
    case Set(k, v, now) => Stored(c, k, v, now + TimerDelay(cfg.ttl))
    case Get(k, now) => LookedUp(c, k, cfg.reset, now + TimerDelay(cfg.ttl))
    case Delete(k, _) => Deleted(c, k)
    case Fire(id, _) => if id in c.armed then Fired(c, id) else c
  }

  /** What the operation reveals: the entry found by a lookup, replaced by a set or removed by a delete. */
  function CacheAnswer<K(==), V>(c: Cache<K, V>, op: Op<K, V>): Option<V> {
    if op.Fire? then None else Found(c, op.key)
  }

  /** Timers never fire early, and an operation finds no timer overdue. */
  ghost predicate Timely<K(!new), V>(c: Cache<K, V>, op: Op<K, V>) {
    if op.Fire? then op.id in c.armed && c.armed[op.id].deadline <= op.now
    else forall id :: id in c.armed ==> op.now < c.armed[id].deadline
  }

  datatype Outcome<K, V> = Outcome(cache: Cache<K, V>, plain: map<K, Stamped<V>>)

  ghost function Play<K(!new), V>(cfg: Config, ops: seq<Op<K, V>>): Outcome<K, V> {
    if |ops| == 0 then Outcome(Cache(map[], map[], 0), map[])
    else
      var before, op := Play(cfg, ops[..|ops| - 1]), ops[|ops| - 1];
      Outcome(CacheStep(cfg, before.cache, op), PlainStep(cfg, before.plain, op))
  }

  /** A clock that does not run backwards, and timers that keep to it. */
  ghost predicate TimelyRun<K(!new), V>(cfg: Config, ops: seq<Op<K, V>>) {
    |ops| > 0 ==>
      var n := |ops| - 1;
      && TimelyRun(cfg, ops[..n])
      && (n > 0 ==> ops[n - 1].now <= ops[n].now)
      && Timely(Play(cfg, ops[..n]).cache, ops[n])
  }

  ghost predicate KeyAgrees<K(!new), V>(cfg: Config, o: Outcome<K, V>, now: int, k: K) {
    if k in o.cache.store then
      && o.cache.store[k].timeout in o.cache.armed
      && k in o.plain && o.plain[k].value == o.cache.store[k].value
      && o.cache.armed[o.cache.store[k].timeout].deadline == o.plain[k].at + TimerDelay(cfg.ttl)
    else k in o.plain ==> o.plain[k].at + TimerDelay(cfg.ttl) <= now
  }

  ghost predicate Agree<K(!new), V>(cfg: Config, o: Outcome<K, V>, now: int) {
    && OneToOne(o.cache)
    && forall k {:trigger KeyAgrees(cfg, o, now, k)} :: KeyAgrees(cfg, o, now, k)
  }

  lemma DeletedAgrees<K(!new), V>(cfg: Config, o: Outcome<K, V>, now: int, key: K)
    requires Agree(cfg, o, now)
    ensures Agree(cfg, Outcome(Deleted(o.cache, key), o.plain - {key}), now)
  {
    var p := Outcome(Deleted(o.cache, key), o.plain - {key});
    DeletedOneToOne(o.cache, key);
    forall k ensures KeyAgrees(cfg, p, now, k) {
      assert KeyAgrees(cfg, o, now, k) && EntryHasTimer(o.cache, k) && EntryHasTimer(o.cache, key);
    }
  }

  /** Arming a timer for a key that has none. */
  lemma ArmedAgrees<K(!new), V>(cfg: Config, o: Outcome<K, V>, now: int, key: K, value: V)
    requires Agree(cfg, o, now) && key !in o.cache.store
    ensures Agree(cfg, Outcome(Armed(o.cache, key, value, now + TimerDelay(cfg.ttl)), o.plain[key := Stamped(value, now)]), now)
  {
    var p := Outcome(Armed(o.cache, key, value, now + TimerDelay(cfg.ttl)), o.plain[key := Stamped(value, now)]);
    ArmedOneToOne(o.cache, key, value, now + TimerDelay(cfg.ttl));
    forall k ensures KeyAgrees(cfg, p, now, k) {
      assert KeyAgrees(cfg, o, now, k) && EntryHasTimer(o.cache, k) && TimerHasEntry(o.cache, o.cache.nextTimer);
    }
  }

  lemma StoredAgrees<K(!new), V>(cfg: Config, o: Outcome<K, V>, now: int, key: K, value: V)
    requires Agree(cfg, o, now)
    ensures Agree(cfg, Outcome(Stored(o.cache, key, value, now + TimerDelay(cfg.ttl)), o.plain[key := Stamped(value, now)]), now)
  {
    DeletedAgrees(cfg, o, now, key);
    ArmedAgrees(cfg, Outcome(Deleted(o.cache, key), o.plain - {key}), now, key, value);
    assert (o.plain - {key})[key := Stamped(value, now)] == o.plain[key := Stamped(value, now)];
  }

  lemma FiredAgrees<K(!new), V>(cfg: Config, o: Outcome<K, V>, now: int, id: nat)
    requires Agree(cfg, o, now) && id in o.cache.armed && o.cache.armed[id].deadline <= now
    ensures Agree(cfg, Outcome(Fired(o.cache, id), o.plain), now)
  {
    FiredOneToOne(o.cache, id);
    forall k ensures KeyAgrees(cfg, Outcome(Fired(o.cache, id), o.plain), now, k) {
      assert KeyAgrees(cfg, o, now, k) && EntryHasTimer(o.cache, k) && TimerHasEntry(o.cache, id);
    }
  }

  /** When timers are on time, what is stored is what the plain map holds live. */
  lemma StoredIsLive<K(!new), V>(cfg: Config, o: Outcome<K, V>, op: Op<K, V>)
    requires Agree(cfg, o, op.now) && Timely(o.cache, op) && !op.Fire?
    ensures op.key in o.cache.store <==> Live(cfg, o.plain, op.key, op.now)
    ensures CacheAnswer(o.cache, op) == PlainAnswer(cfg, o.plain, op)
  {
    assert KeyAgrees(cfg, o, op.now, op.key);
  }

  lemma Later<K(!new), V>(cfg: Config, o: Outcome<K, V>, now: int, later: int)
    requires Agree(cfg, o, now) && now <= later
    ensures Agree(cfg, o, later)
  {
    forall k ensures KeyAgrees(cfg, o, later, k) { assert KeyAgrees(cfg, o, now, k); }
  }

  lemma StepAgrees<K(!new), V>(cfg: Config, o: Outcome<K, V>, op: Op<K, V>)
    requires Agree(cfg, o, op.now) && Timely(o.cache, op)
    ensures Agree(cfg, Outcome(CacheStep(cfg, o.cache, op), PlainStep(cfg, o.plain, op)), op.now)
  {
    match op
    case Set(k, v, t) => StoredAgrees(cfg, o, t, k, v);
    case Get(k, t) =>
      StoredIsLive(cfg, o, op);
      if cfg.reset && k in o.cache.store {
        assert KeyAgrees(cfg, o, t, k);
        ResetIsStore(o.cache, k, t + TimerDelay(cfg.ttl));
        StoredAgrees(cfg, o, t, k, o.plain[k].value);
      }
    case Delete(k, t) => DeletedAgrees(cfg, o, t, k);
    case Fire(id, t) => FiredAgrees(cfg, o, t, id);
  }

  /**
   MAIN RESULT. With timers that fire on time, a run of the cache is a run of the plain timestamped map:
   every operation reveals the same, and stored entries and armed timers correspond one to one.
   */
  lemma {:induction false} AgreesWithPlainMap<K(!new), V>(cfg: Config, ops: seq<Op<K, V>>, now: int)
    requires TimelyRun(cfg, ops) && (|ops| > 0 ==> ops[|ops| - 1].now <= now)
    ensures Agree(cfg, Play(cfg, ops), now)
    ensures |ops| > 0 ==> var before := Play(cfg, ops[..|ops| - 1]);
                          CacheAnswer(before.cache, ops[|ops| - 1]) == PlainAnswer(cfg, before.plain, ops[|ops| - 1])
  {
    if |ops| > 0 {
      var before, op := Play(cfg, ops[..|ops| - 1]), ops[|ops| - 1];
      AgreesWithPlainMap(cfg, ops[..|ops| - 1], op.now);
      StepAgrees(cfg, before, op);
      if !op.Fire? { StoredIsLive(cfg, before, op); }
      Later(cfg, Play(cfg, ops), op.now, now);
    }
  }

  /** Even when timers run late, entries and timers stay in one-to-one correspondence. */
  lemma {:induction false} AlwaysOneToOne<K(!new), V>(cfg: Config, ops: seq<Op<K, V>>)
    ensures OneToOne(Play(cfg, ops).cache)
  {
    if |ops| > 0 {
      var before, op := Play(cfg, ops[..|ops| - 1]).cache, ops[|ops| - 1];
      AlwaysOneToOne(cfg, ops[..|ops| - 1]);
      match op
      case Set(k, v, t) => StoredOneToOne(before, k, v, t + TimerDelay(cfg.ttl));
      case Get(k, t) => LookedUpOneToOne(before, k, cfg.reset, t + TimerDelay(cfg.ttl));
      case Delete(k, _) => DeletedOneToOne(before, k);
      case Fire(id, _) => if id in before.armed { FiredOneToOne(before, id); }
    }
  }
}
