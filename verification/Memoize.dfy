/**
 `memoize` (packages/swap/src/utils/function.ts): a cached value that is revalidated in the background.

 The number of a revalidation is the `revision` it was started with; 0 is the first call, whose value is
 cached at once. What is cached is identified by the number of the start that produced it.
 */
module Memoize {
  import opened Prelude

  // ---------- The closure's state and what each event does to it ----------

  /**
   `unsettled` names the promises whose callbacks are still to come. The promise of the very first call has no
   callbacks; `firstPending` says that it has not settled yet.
   */
  datatype State = State(
    initialized: bool,
    value: nat,
    setAt: int,
    revalidating: bool,
    revision: nat,
    pending: nat,
    unsettled: set<nat>,
    firstPending: bool)

  const EMPTY := State(false, 0, 0, false, 0, 0, {}, false)

  datatype Event =
    | Call(now: int, promise: bool)     // `fn` would return a promise, or a plain value
    | Refresh(now: int, promise: bool)
    | Resolve(number: nat, now: int)
    | Reject(number: nat)
    | FirstSettles(ok: bool)            // the promise of the very first call

  /** A lookup revalidates once the value is older than a non-zero ttl and nothing is under way. */
  predicate Expired(ttl: Option<nat>, s: State, now: int) {
    !s.revalidating && ttl.Some? && ttl.value != 0 && now - s.setAt > ttl.value
  }

  function Start(s: State, now: int, promise: bool): State {
    if promise then
      s.(revision := s.revision + 1, pending := s.pending + 1, revalidating := true,
      unsettled := s.unsettled + {s.revision + 1})
    else s.(revision := s.revision + 1, value := s.revision + 1, setAt := now)
  }

  function Settle(s: State, number: nat): State
    requires s.pending > 0
  {
    s.(pending := s.pending - 1, revalidating := s.pending - 1 > 0, unsettled := s.unsettled - {number})
  }

  function Next(ttl: Option<nat>, s: State, e: Event): Option<State> {
    match e
    case Call(now, promise) =>
      if !s.initialized then Some(s.(initialized := true, value := 0, setAt := now, firstPending := promise))
      else if Expired(ttl, s, now) then Some(Start(s, now, promise))
      else Some(s)
    case Refresh(now, promise) =>
      if !s.initialized then Some(s.(initialized := true, value := 0, setAt := now, firstPending := promise))
      else Some(Start(s, now, promise))
    case Resolve(number, now) =>
      if number !in s.unsettled || s.pending == 0 then None
      else Some(Settle(if number == s.revision then s.(value := number, setAt := now) else s, number))
    case Reject(number) =>
      if number !in s.unsettled || s.pending == 0 then None else Some(Settle(s, number))
    case FirstSettles(_) => if s.firstPending then Some(s.(firstPending := false)) else None
  }

  /** The state after a series of events; None if a promise settles that was never started. */
  function Run(ttl: Option<nat>, events: seq<Event>): Option<State> {
    if |events| == 0 then Some(EMPTY)
    else
      match Run(ttl, events[..|events| - 1])
      case None => None
      case Some(s) => Next(ttl, s, events[|events| - 1])
  }

  // ---------- The closure ----------

  class Memoized<V> {
    const ttl: Option<nat>
    var initialized: bool
    var value: Option<V>
    var setAt: int
    var revalidating: bool
    var revision: nat
    var pending: nat

    ghost var unsettled: set<nat>      // the promises under way
    ghost var promised: map<nat, V>    // what each start was given
    ghost var valueStart: nat          // the start that produced `value`
    ghost var firstPending: bool

    constructor (ttl: Option<nat>)
      ensures this.ttl == ttl && View() == EMPTY && value == None && promised == map[] && Valid()
    {
      this.ttl := ttl;
      initialized, value, setAt, revalidating, revision, pending := false, None, 0, false, 0, 0;
      unsettled, promised, valueStart, firstPending := {}, map[], 0, false;
    }

    ghost function View(): State
      reads this
    {
      State(initialized, valueStart, setAt, revalidating, revision, pending, unsettled, firstPending)
    }

    ghost predicate Valid()
      reads this
    {
      Inv(View()) && (initialized ==> value.Some?)
    }

    /** `revalidate(newValue)` */
    method Revalidate(newValue: V, promise: bool, now: int)
      modifies this
      ensures View() == Start(old(View()), now, promise)
      ensures promise ==> value == old(value) && promised == old(promised)[revision := newValue]
      ensures !promise ==> value == Some(newValue) && promised == old(promised)
      ensures initialized == old(initialized)
    {
      revision := revision + 1;
      if promise {
        pending := pending + 1;
        revalidating := true;
        unsettled, promised := unsettled + {revision}, promised[revision := newValue];
      } else {
        value, setAt, valueStart := Some(newValue), now, revision;
      }
    }

    /** `newValue` is what `fn` returns if it is called. */
    method Get(newValue: V, promise: bool, now: int) returns (v: V)
      requires Valid()
      modifies this
      ensures Valid()
      ensures Next(ttl, old(View()), Call(now, promise)) == Some(View())
      ensures value == Some(v) && initialized
      ensures v == if old(!initialized || (!revalidating && ttl.Some? && ttl.value != 0 && now - setAt > ttl.value && !promise))
                   then newValue else old(value).value
    {
      ghost var before := View();
      if !initialized {
        initialized, value, setAt, valueStart, firstPending := true, Some(newValue), now, 0, promise;
      } else if !revalidating && ttl.Some? && ttl.value != 0 && now - setAt > ttl.value {
        Revalidate(newValue, promise, now);
      }
      StepKeepsInv(ttl, before, Call(now, promise), View());
      v := value.value;
    }

    /** Whatever happens to the cached value, the caller gets the new one. */
    method Refresh(newValue: V, promise: bool, now: int) returns (v: V)
      requires Valid()
      modifies this
      ensures v == newValue
      ensures Valid()
      ensures Next(ttl, old(View()), Event.Refresh(now, promise)) == Some(View())
      ensures value.Some? && initialized
      ensures !old(initialized) || !promise ==> value == Some(newValue)
      ensures old(initialized) && promise ==> value == old(value) && promised == old(promised)[revision := newValue]
    {
      ghost var before := View();
      if !initialized {
        initialized, value, setAt, valueStart, firstPending := true, Some(newValue), now, 0, promise;
      } else {
        Revalidate(newValue, promise, now);
      }
      StepKeepsInv(ttl, before, Event.Refresh(now, promise), View());
      v := newValue;
    }

    /** The callbacks of the promise started as number `expected`. */
    method OnSettled(expected: nat, newValue: V, ok: bool, now: int)
      requires Valid() && expected in unsettled && expected in promised && promised[expected] == newValue
      modifies this
      ensures Valid()
      ensures Next(ttl, old(View()), if ok then Resolve(expected, now) else Reject(expected)) == Some(View())
      ensures value == if ok && expected == old(revision) then Some(newValue) else old(value)
    {
      ghost var before := View();
      ghost var event := if ok then Resolve(expected, now) else Reject(expected);
      SettleKeepsInv(before, expected);
      StepKeepsInv(ttl, before, event, Next(ttl, before, event).value);
      if ok && expected == revision {
        value, setAt, valueStart := Some(newValue), now, expected;
      }
      pending := pending - 1;
      revalidating := pending > 0;
      unsettled := unsettled - {expected};
    }

    /** The first call's promise settles; nothing is waiting for it. */
    ghost method OnFirstSettled(ok: bool)
      requires Valid() && firstPending
      modifies `firstPending
      ensures Valid() && Next(ttl, old(View()), FirstSettles(ok)) == Some(View())
    {
      firstPending := false;
    }
  }

  // ---------- Over every interleaving ----------

  ghost predicate Inv(s: State) {
    && s.pending == |s.unsettled|
    && (s.revalidating <==> s.pending > 0)
    && (forall n :: n in s.unsettled ==> 1 <= n <= s.revision)
    && s.value <= s.revision
    && (!s.initialized ==> s.revision == 0)
  }

  lemma StartKeepsInv(s: State, now: int, promise: bool)
    requires Inv(s) && s.initialized
    ensures Inv(Start(s, now, promise))
  {
    assert s.revision + 1 !in s.unsettled;
  }

  lemma SettleKeepsInv(s: State, number: nat)
    requires Inv(s) && number in s.unsettled
    ensures s.pending > 0 && Inv(Settle(s, number))
  {
    assert s.unsettled != {};
    assert |s.unsettled - {number}| == |s.unsettled| - 1;
  }

  lemma StepKeepsInv(ttl: Option<nat>, s: State, e: Event, t: State)
    requires Inv(s) && Next(ttl, s, e) == Some(t)
    ensures Inv(t)
    ensures s.value <= t.value
    ensures t.value != s.value ==> t.value == t.revision && t.revision !in t.unsettled
    ensures e.Reject? ==> t.value == s.value && t.setAt == s.setAt
  {
    match e
    case Call(now, promise) => if s.initialized { StartKeepsInv(s, now, promise); }
    case Refresh(now, promise) => if s.initialized { StartKeepsInv(s, now, promise); }
    case Resolve(number, now) =>
      SettleKeepsInv(if number == s.revision then s.(value := number, setAt := now) else s, number);
    case Reject(number) => SettleKeepsInv(s, number);
    case FirstSettles(_) =>
  }

  /** `pending` counts the unsettled revalidations and `revalidating` says whether there are any. */
  lemma {:induction false} EveryRunCounts(ttl: Option<nat>, events: seq<Event>, s: State)
    requires Run(ttl, events) == Some(s)
    ensures Inv(s)
  {
    if |events| > 0 {
      var before := Run(ttl, events[..|events| - 1]).value;
      EveryRunCounts(ttl, events[..|events| - 1], before);
      StepKeepsInv(ttl, before, events[|events| - 1], s);
    }
  }

  /** Event i delivers a fresh value for start number k while no newer start exists. */
  ghost predicate Delivers(ttl: Option<nat>, events: seq<Event>, i: nat, k: nat)
    requires i < |events|
  {
    && Run(ttl, events[..i]).Some? && Run(ttl, events[..i + 1]).Some?
    && var before, after := Run(ttl, events[..i]).value, Run(ttl, events[..i + 1]).value;
       match events[i]
       case Resolve(number, _) => number == k && before.revision == k
       case Reject(_) => false
       case FirstSettles(_) => false
       case Call(_, promise) => !promise && before.revision < k == after.revision
       case Refresh(_, promise) => !promise && before.revision < k == after.revision
  }

  lemma {:induction false} PrefixesRun(ttl: Option<nat>, events: seq<Event>, i: nat)
    requires Run(ttl, events).Some? && i <= |events|
    ensures Run(ttl, events[..i]).Some?
    decreases |events|
  {
    if i < |events| {
      var n := |events| - 1;
      PrefixesRun(ttl, events[..n], i);
      assert events[..n][..i] == events[..i];
    } else {
      assert events[..i] == events;
    }
  }

  lemma DeliversInPrefix(ttl: Option<nat>, events: seq<Event>, n: nat, i: nat, k: nat)
    requires i < n <= |events|
    ensures Delivers(ttl, events[..n], i, k) <==> Delivers(ttl, events, i, k)
  {
    assert events[..n][..i] == events[..i] && events[..n][..i + 1] == events[..i + 1];
  }

  /** The last event changes the cached number exactly by delivering. */
  lemma LastDelivers(ttl: Option<nat>, events: seq<Event>, n: nat, before: State, s: State, k: nat)
    requires n + 1 == |events| && Run(ttl, events[..n]) == Some(before) && Run(ttl, events) == Some(s)
    ensures s.value != before.value ==> Delivers(ttl, events, n, s.value)
    ensures Delivers(ttl, events, n, k) ==> k == s.value
  {
    assert events[..n + 1] == events;
    EveryRunCounts(ttl, events[..n], before);
    StepKeepsInv(ttl, before, events[n], s);
  }

  /** The cached value is what some start delivered, unless it is still the first call's. */
  lemma {:induction false} CachedWasDelivered(ttl: Option<nat>, events: seq<Event>, s: State) returns (i: nat)
    requires Run(ttl, events) == Some(s) && s.value > 0
    ensures i < |events| && Delivers(ttl, events, i, s.value)
  {
    var n := |events| - 1;
    var before := Run(ttl, events[..n]).value;
    LastDelivers(ttl, events, n, before, s, s.value);
    if s.value != before.value {
      i := n;
    } else {
      i := CachedWasDelivered(ttl, events[..n], before);
      DeliversInPrefix(ttl, events, n, i, s.value);
    }
  }

  /** Nothing newer than the cached value was ever delivered. */
  lemma {:induction false} NothingNewerDelivered(ttl: Option<nat>, events: seq<Event>, s: State, i: nat, k: nat)
    requires Run(ttl, events) == Some(s) && i < |events| && Delivers(ttl, events, i, k)
    ensures k <= s.value
  {
    var n := |events| - 1;
    var before := Run(ttl, events[..n]).value;
    LastDelivers(ttl, events, n, before, s, k);
    if i < n {
      DeliversInPrefix(ttl, events, n, i, k);
      NothingNewerDelivered(ttl, events[..n], before, i, k);
      EveryRunCounts(ttl, events[..n], before);
      StepKeepsInv(ttl, before, events[n], s);
    }
  }

  /**
   MAIN RESULT. What is cached is the newest start that delivered before any newer one began: it was
   delivered that way (unless it is still the first call's), and nothing newer ever was.
   */
  lemma CachedIsNewestDelivered(ttl: Option<nat>, events: seq<Event>, s: State)
    requires Run(ttl, events) == Some(s)
    ensures s.value > 0 ==> exists i: nat :: i < |events| && Delivers(ttl, events, i, s.value)
    ensures forall i: nat, k: nat :: i < |events| && Delivers(ttl, events, i, k) ==> k <= s.value
  {
    if s.value > 0 { var i := CachedWasDelivered(ttl, events, s); }
    forall i: nat, k: nat | i < |events| && Delivers(ttl, events, i, k) ensures k <= s.value {
      NothingNewerDelivered(ttl, events, s, i, k);
    }
  }

  /** The promise of start k was rejected. */
  predicate Rejected(events: seq<Event>, k: nat) { if k == 0 then FirstSettles(false) in events else Reject(k) in events }

  /** A start whose promise was rejected is over, and what it delivered is not cached. */
  ghost predicate RejectedIsGone(s: State, k: nat) { k !in s.unsettled && 1 <= k <= s.revision && s.value != k }

  lemma GoneStaysGone(ttl: Option<nat>, s: State, e: Event, t: State, k: nat)
    requires Inv(s) && Next(ttl, s, e) == Some(t) && RejectedIsGone(s, k)
    ensures RejectedIsGone(t, k)
  {
  }

  lemma RejectedGoes(ttl: Option<nat>, s: State, t: State, k: nat)
    requires Inv(s) && Next(ttl, s, Reject(k)) == Some(t) && s.value != k
    ensures RejectedIsGone(t, k)
  {
  }

  lemma {:induction false} RejectedStaysGone(ttl: Option<nat>, events: seq<Event>, s: State, k: nat)
    requires Run(ttl, events) == Some(s) && Reject(k) in events
    ensures RejectedIsGone(s, k)
  {
    var n := |events| - 1;
    var before := Run(ttl, events[..n]).value;
    if Reject(k) in events[..n] {
      RejectedStaysGone(ttl, events[..n], before, k);
      EveryRunCounts(ttl, events[..n], before);
      GoneStaysGone(ttl, before, events[n], s, k);
    } else {
      LastRejects(ttl, events, before, s, k);
    }
  }

  lemma LastRejects(ttl: Option<nat>, events: seq<Event>, before: State, s: State, k: nat)
    requires |events| > 0 && Run(ttl, events[..|events| - 1]) == Some(before)
    requires events[|events| - 1] == Reject(k) && Next(ttl, before, Reject(k)) == Some(s)
    ensures RejectedIsGone(s, k)
  {
    EveryRunCounts(ttl, events[..|events| - 1], before);
    UnsettledIsNotCached(ttl, events[..|events| - 1], before, k);
    RejectedGoes(ttl, before, s, k);
  }

  lemma {:induction false} UnsettledIsNotCached(ttl: Option<nat>, events: seq<Event>, s: State, k: nat)
    requires Run(ttl, events) == Some(s) && k in s.unsettled
    ensures s.value != k
  {
    if |events| > 0 {
      var before := Run(ttl, events[..|events| - 1]).value;
      EveryRunCounts(ttl, events[..|events| - 1], before);
      if k in before.unsettled { UnsettledIsNotCached(ttl, events[..|events| - 1], before, k); }
    }
  }

  /**
   MAIN RESULT. What is cached is a failed promise exactly if it is still the very first call's and that one
   was rejected: the first promise is cached unseen, later ones only once they have succeeded.
   */
  lemma CachedFailureIsTheFirst(ttl: Option<nat>, events: seq<Event>, s: State)
    requires Run(ttl, events) == Some(s)
    ensures Rejected(events, s.value) <==> s.value == 0 && FirstSettles(false) in events
  {
    if s.value > 0 && Reject(s.value) in events { RejectedStaysGone(ttl, events, s, s.value); }
  }

  /** Both parts can happen: the first call's promise fails, and is served until a revalidation succeeds. */
  lemma FirstFailureIsServed() returns (events: seq<Event>, s: State)
    ensures Run(None, events) == Some(s) && s.initialized && Rejected(events, s.value) && Call(2, true) in events
  {
    events, s := [], EMPTY;
    RunAppends(None, events, s, Call(0, true));
    events, s := events + [Call(0, true)], EMPTY.(initialized := true, firstPending := true);
    RunAppends(None, events, s, FirstSettles(false));
    events, s := events + [FirstSettles(false)], EMPTY.(initialized := true);
    RunAppends(None, events, s, Call(2, true));
    events := events + [Call(2, true)];
  }

  /** The start number of the cached value never decreases along a run. */
  lemma {:induction false} CachedNeverOlder(ttl: Option<nat>, events: seq<Event>, i: nat)
    requires Run(ttl, events).Some? && i <= |events|
    ensures Run(ttl, events[..i]).Some? && Run(ttl, events[..i]).value.value <= Run(ttl, events).value.value
    decreases |events|
  {
    PrefixesRun(ttl, events, i);
    if i < |events| {
      var n := |events| - 1;
      CachedNeverOlder(ttl, events[..n], i);
      assert events[..n][..i] == events[..i];
      EveryRunCounts(ttl, events[..n], Run(ttl, events[..n]).value);
      StepKeepsInv(ttl, Run(ttl, events[..n]).value, events[n], Run(ttl, events).value);
    } else {
      assert events[..i] == events;
    }
  }

  // ---------- When a lookup revalidates ----------

  function TimeOf(e: Event): int {
    match e
    case Call(now, _) => now
    case Refresh(now, _) => now
    case Resolve(_, now) => now
    case _ => 0
  }

  predicate Invokes(e: Event) { e.Call? || e.Refresh? }

  /** Event i is the one that put start k into the cache: the very first invocation, or a delivery. */
  ghost predicate Caches(ttl: Option<nat>, events: seq<Event>, i: nat, k: nat)
    requires i < |events|
  {
    if k == 0 then Invokes(events[i]) && forall j :: 0 <= j < i ==> !Invokes(events[j]) else Delivers(ttl, events, i, k)
  }

  lemma {:induction false} NothingBeforeTheFirst(ttl: Option<nat>, events: seq<Event>, s: State)
    requires Run(ttl, events) == Some(s)
    ensures s.initialized <==> exists j :: 0 <= j < |events| && Invokes(events[j])
    ensures !s.initialized ==> s == EMPTY
  {
    if |events| > 0 {
      var n := |events| - 1;
      NothingBeforeTheFirst(ttl, events[..n], Run(ttl, events[..n]).value);
      assert forall j :: 0 <= j < n ==> events[..n][j] == events[j];
      if Invokes(events[n]) { assert s.initialized; }
      if j :| 0 <= j < n && Invokes(events[..n][j]) { assert Invokes(events[j]); }
    }
  }

  /** One step: setAt moves only when something is put into the cache, and then to the time of the event. */
  lemma SetAtMoves(ttl: Option<nat>, s: State, e: Event, t: State)
    requires Inv(s) && Next(ttl, s, e) == Some(t) && s.value !in s.unsettled
    ensures t.value == s.value && s.initialized ==> t.setAt == s.setAt
    ensures t.value != s.value || (t.initialized && !s.initialized) ==> t.setAt == TimeOf(e)
  {
  }

  /** The recorded time is that of the event that put the cached value there. */
  lemma {:induction false} SetAtIsWhenCached(ttl: Option<nat>, events: seq<Event>, s: State, i: nat)
    requires Run(ttl, events) == Some(s) && i < |events| && Caches(ttl, events, i, s.value)
    ensures s.setAt == TimeOf(events[i])
  {
    var n := |events| - 1;
    var before := Run(ttl, events[..n]).value;
    EveryRunCounts(ttl, events[..n], before);
    if before.value in before.unsettled { UnsettledIsNotCached(ttl, events[..n], before, before.value); }
    SetAtMoves(ttl, before, events[n], s);
    NothingBeforeTheFirst(ttl, events[..n], before);
    if i == n {
      LastPutsItThere(ttl, events, before, s);
    } else {
      CachedEarlier(ttl, events, before, s, i);
      SetAtIsWhenCached(ttl, events[..n], before, i);
    }
  }

  lemma LastPutsItThere(ttl: Option<nat>, events: seq<Event>, before: State, s: State)
    requires |events| > 0 && Run(ttl, events[..|events| - 1]) == Some(before) && Run(ttl, events) == Some(s)
    requires Caches(ttl, events, |events| - 1, s.value)
    ensures s.value != before.value || (s.initialized && !before.initialized)
  {
    var n := |events| - 1;
    NothingBeforeTheFirst(ttl, events[..n], before);
    EveryRunCounts(ttl, events[..n], before);
    if s.value == 0 {
      assert forall j :: 0 <= j < n ==> events[..n][j] == events[j];
    } else {
      assert events[..n + 1] == events;
      if before.value in before.unsettled { UnsettledIsNotCached(ttl, events[..n], before, before.value); }
    }
  }

  lemma CachedEarlier(ttl: Option<nat>, events: seq<Event>, before: State, s: State, i: nat)
    requires |events| > 0 && Run(ttl, events[..|events| - 1]) == Some(before) && Run(ttl, events) == Some(s)
    requires i < |events| - 1 && Caches(ttl, events, i, s.value)
    ensures before.value == s.value && before.initialized && Caches(ttl, events[..|events| - 1], i, s.value)
  {
    ValueNeverFalls(ttl, events, before, s);
    if s.value > 0 {
      DeliveredEarlier(ttl, events, before, i, s.value);
    } else {
      InvokedEarlier(ttl, events, before, i);
    }
  }

  lemma ValueNeverFalls(ttl: Option<nat>, events: seq<Event>, before: State, s: State)
    requires |events| > 0 && Run(ttl, events[..|events| - 1]) == Some(before) && Run(ttl, events) == Some(s)
    ensures before.value <= s.value
  {
    EveryRunCounts(ttl, events[..|events| - 1], before);
    StepKeepsInv(ttl, before, events[|events| - 1], s);
  }

  lemma DeliveredEarlier(ttl: Option<nat>, events: seq<Event>, before: State, i: nat, k: nat)
    requires |events| > 0 && Run(ttl, events[..|events| - 1]) == Some(before)
    requires k > 0 && i < |events| - 1 && Delivers(ttl, events, i, k)
    ensures k <= before.value && before.initialized && Delivers(ttl, events[..|events| - 1], i, k)
  {
    var n := |events| - 1;
    DeliversInPrefix(ttl, events, n, i, k);
    NothingNewerDelivered(ttl, events[..n], before, i, k);
    EveryRunCounts(ttl, events[..n], before);
  }

  lemma InvokedEarlier(ttl: Option<nat>, events: seq<Event>, before: State, i: nat)
    requires |events| > 0 && Run(ttl, events[..|events| - 1]) == Some(before)
    requires i < |events| - 1 && Caches(ttl, events, i, 0)
    ensures before.initialized && Caches(ttl, events[..|events| - 1], i, 0)
  {
    var n := |events| - 1;
    assert forall j :: 0 <= j < n ==> events[..n][j] == events[j];
    NothingBeforeTheFirst(ttl, events[..n], before);
    assert Invokes(events[..n][i]);
  }

  /** There always is such an event. */
  lemma {:induction false} SomethingCachedIt(ttl: Option<nat>, events: seq<Event>, s: State) returns (i: nat)
    requires Run(ttl, events) == Some(s) && s.initialized
    ensures i < |events| && Caches(ttl, events, i, s.value)
  {
    if s.value > 0 {
      i := CachedWasDelivered(ttl, events, s);
    } else {
      NothingBeforeTheFirst(ttl, events, s);
      i :| 0 <= i < |events| && Invokes(events[i]);
      i := FirstInvocation(events, i);
    }
  }

  lemma {:induction false} FirstInvocation(events: seq<Event>, i: nat) returns (first: nat)
    requires i < |events| && Invokes(events[i])
    ensures first <= i && Invokes(events[first]) && forall j :: 0 <= j < first ==> !Invokes(events[j])
  {
    if j :| 0 <= j < i && Invokes(events[j]) { first := FirstInvocation(events, j); } else { first := i; }
  }

  /**
   MAIN RESULT. After any run a lookup starts a revalidation if and only if none is unsettled, there is a ttl
   other than 0, and more time than that has gone by since the event that put the cached value there.
   */
  lemma LookupRevalidatesExactly(ttl: Option<nat>, events: seq<Event>, s: State, i: nat, now: int, promise: bool)
    requires Run(ttl, events) == Some(s) && i < |events| && Caches(ttl, events, i, s.value)
    ensures s.initialized
    ensures var t := Next(ttl, s, Call(now, promise)).value;
            var due := s.unsettled == {} && ttl.Some? && ttl.value > 0 && now - TimeOf(events[i]) > ttl.value;
            if due then t.revision == s.revision + 1 && (promise ==> t.unsettled == {t.revision}) else t == s
  {
    EveryRunCounts(ttl, events, s);
    SetAtIsWhenCached(ttl, events, s, i);
    NothingBeforeTheFirst(ttl, events, s);
    if s.value > 0 { assert s.revision > 0; } else { assert Invokes(events[i]); }
  }

  /** Lookups alone never overlap: without `refresh` at most one revalidation is in flight. */
  lemma {:induction false} LookupsAreSingleFlight(ttl: Option<nat>, events: seq<Event>, s: State)
    requires Run(ttl, events) == Some(s) && forall i :: 0 <= i < |events| ==> !events[i].Refresh?
    ensures s.pending <= 1 && (s.pending == 1 ==> s.unsettled == {s.revision})
  {
    if |events| > 0 {
      var before, e := Run(ttl, events[..|events| - 1]).value, events[|events| - 1];
      LookupsAreSingleFlight(ttl, events[..|events| - 1], before);
      EveryRunCounts(ttl, events[..|events| - 1], before);
      if e.Call? && before.initialized && Expired(ttl, before, e.now) { assert before.unsettled == {}; }
    }
  }

  lemma RunAppends(ttl: Option<nat>, events: seq<Event>, s: State, e: Event)
    requires Run(ttl, events) == Some(s)
    ensures Run(ttl, events + [e]) == Next(ttl, s, e)
  {
    assert (events + [e])[..|events|] == events;
  }

  /**
   What "newest started wins" costs: a success that arrives while a newer revalidation is under way is
   dropped, and stays dropped when the newer one then fails.
   */
  lemma SupersededSuccessIsLost() returns (events: seq<Event>, s: State)
    ensures Run(None, events) == Some(s) && s.value == 0 && s.pending == 0 && s.revision == 2
    ensures Resolve(1, 3) in events
  {
    events, s := [], EMPTY;
    var steps := [Call(0, true), Refresh(1, true), Refresh(2, true), Resolve(1, 3), Reject(2)];
    var s2 := EMPTY.(initialized := true, firstPending := true, revalidating := true, revision := 2, pending := 2, unsettled := {1, 2});
    RunAppends(None, events, s, steps[0]);
    events, s := events + [steps[0]], EMPTY.(initialized := true, firstPending := true);
    RunAppends(None, events, s, steps[1]);
    assert {} + {1} == {1};
    events, s := events + [steps[1]], s2.(revision := 1, pending := 1, unsettled := {1});
    RunAppends(None, events, s, steps[2]);
    assert {1} + {2} == {1, 2};
    events, s := events + [steps[2]], s2;
    RunAppends(None, events, s, steps[3]);
    assert {1, 2} - {1} == {2};
    events, s := events + [steps[3]], s2.(pending := 1, unsettled := {2});
    RunAppends(None, events, s, steps[4]);
    events, s := events + [steps[4]], Next(None, s, steps[4]).value;
  }
}
