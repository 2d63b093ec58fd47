/**
 The sliding-window quote rate limiter (packages/swap/src/routes/middlewares/quoteRateLimit.ts).

 The middleware keeps one pruned list of recent timestamps per IP, blocks an IP that overruns it, and
 forgets idle IPs in the background. It is proved to refine a limiter that remembers every admitted
 request and never forgets anything.
 */
module QuoteRateLimit {
  import opened Prelude

  datatype Limits = Limits(windowMs: nat, maxRequests: nat, blockDurationMs: nat)

  datatype IpRecord = IpRecord(timestamps: seq<int>, blockedUntil: int)

  const FRESH := IpRecord([], 0)

  // ---------- The middleware ----------

  /** `timestamps.findIndex((t) => t >= cutoff)` */
  function FirstValid(ts: seq<int>, cutoff: int): (k: int)
    ensures -1 <= k < |ts|
  {
    if |ts| == 0 then -1
    else if ts[0] >= cutoff then 0
    else
      var k := FirstValid(ts[1..], cutoff);
      if k == -1 then -1 else k + 1
  }

  function Prune(ts: seq<int>, cutoff: int): seq<int> {
    var k := FirstValid(ts, cutoff);
    if k == -1 then [] else ts[k..]
  }

  datatype Verdict = Verdict(record: IpRecord, admitted: bool)

  /** The list the request is appended to: emptied after a block, else pruned. */
  function Kept(l: Limits, r: IpRecord, now: int): seq<int> {
    if r.blockedUntil != 0 then [] else Prune(r.timestamps, now - l.windowMs)
  }

  function Append(l: Limits, kept: seq<int>, now: int): Verdict {
    if |kept| + 1 > l.maxRequests then Verdict(IpRecord(kept + [now], now + l.blockDurationMs), false)
    else Verdict(IpRecord(kept + [now], 0), true)
  }

  /** One request of an IP whose record is `r`. */
  function Decide(l: Limits, r: IpRecord, now: int): Verdict {
    if r.blockedUntil > now then Verdict(r, false) else Append(l, Kept(l, r, now), now)
  }

  /** What the background cleanup drops at `now`. */
  predicate Stale(l: Limits, r: IpRecord, now: int) {
    r.blockedUntil <= now && forall t :: t in r.timestamps ==> t < now - l.windowMs
  }

  /** What it must not drop: a block that lasts, or a request inside the window. */
  predicate Needed(l: Limits, r: IpRecord, now: int) {
    r.blockedUntil > now || exists k :: 0 <= k < |r.timestamps| && r.timestamps[k] >= now - l.windowMs
  }

  lemma NeededIsNotStale(l: Limits, r: IpRecord, now: int)
    ensures Needed(l, r, now) <==> !Stale(l, r, now)
  {
    if k :| 0 <= k < |r.timestamps| && r.timestamps[k] >= now - l.windowMs { assert r.timestamps[k] in r.timestamps; }
    if t :| t in r.timestamps && t >= now - l.windowMs { var k :| 0 <= k < |r.timestamps| && r.timestamps[k] == t; }
  }

  function Lookup(records: map<string, IpRecord>, ip: string): Option<IpRecord> {
    if ip in records then Some(records[ip]) else None
  }

  function OrFresh(r: Option<IpRecord>): IpRecord { if r.Some? then r.value else FRESH }

  /** The interval callback keeps every record that is not stale. */
  function Swept(l: Limits, records: map<string, IpRecord>, now: int): map<string, IpRecord> {
    map ip | ip in records && !Stale(l, records[ip], now) :: records[ip]
  }

  class RateLimiter {
    const limits: Limits
    var records: map<string, IpRecord>

    constructor (limits: Limits)
      ensures this.limits == limits && records == map[]
    {
      this.limits := limits;
      records := map[];
    }

    /** `ip` is the `cf-connecting-ip` header; requests without one pass. */
    method Handle(ip: Option<string>, now: int) returns (admitted: bool)
      modifies this
      ensures ip.None? ==> admitted && records == old(records)
      ensures ip.Some? ==>
                var v := Decide(limits, OrFresh(Lookup(old(records), ip.value)), now);
                admitted == v.admitted && records == old(records)[ip.value := v.record]
    {
      if ip.None? { return true; }
      var record := FRESH;
      if ip.value in records { record := records[ip.value]; }
      if record.blockedUntil > now {
        records := records[ip.value := record];
        return false;
      }
      if record.blockedUntil != 0 { record := FRESH; }
      var cutoff := now - limits.windowMs;
      var firstValid := FirstValid(record.timestamps, cutoff);
      if firstValid == -1 {
        record := record.(timestamps := []);
      } else if firstValid > 0 {
        record := record.(timestamps := record.timestamps[firstValid..]);
      }
      record := record.(timestamps := record.timestamps + [now]);
      admitted := |record.timestamps| <= limits.maxRequests;
      if !admitted { record := record.(blockedUntil := now + limits.blockDurationMs); }
      records := records[ip.value := record];
    }

    /** The interval callback: forgets exactly the stale records. */
    method Cleanup(now: int)
      modifies this
      ensures records == Swept(limits, old(records), now)
      ensures forall ip :: ip in records <==> (ip in old(records) && Needed(limits, old(records)[ip], now))
    {
      var pending := records.Keys;
      while pending != {}
        invariant pending <= records.Keys <= old(records).Keys
        invariant forall ip :: ip in records ==> records[ip] == old(records)[ip]
        invariant forall ip :: ip in old(records) && ip !in pending ==>
                    (ip in records <==> !Stale(limits, old(records)[ip], now))
        decreases |pending|
      {
        var ip :| ip in pending;
        pending := pending - {ip};
        if Stale(limits, records[ip], now) { records := records - {ip}; }
      }
      forall ip | ip in old(records) ensures Needed(limits, old(records)[ip], now) <==> !Stale(limits, old(records)[ip], now) {
        NeededIsNotStale(limits, old(records)[ip], now);
      }
    }
  }

  // ---------- Runs of one IP ----------

  /** What happens to one IP's record: its requests, and cleanups at any time. */
  datatype Tick = Request(now: int) | Cleanup(now: int)

  /** A clock that is positive and never runs backwards. */
  ghost predicate Monotone(ticks: seq<Tick>) {
    && (forall i :: 0 <= i < |ticks| ==> 0 < ticks[i].now)
    && forall i, j :: 0 <= i < j < |ticks| ==> ticks[i].now <= ticks[j].now
  }

  datatype History = History(record: Option<IpRecord>, verdicts: seq<bool>, admitted: seq<int>)

  function StepHistory(l: Limits, h: History, tick: Tick): History {
    match tick
    case Request(now) =>
      var v := Decide(l, OrFresh(h.record), now);
      History(Some(v.record), h.verdicts + [v.admitted], if v.admitted then h.admitted + [now] else h.admitted)
    case Cleanup(now) =>
      if h.record.Some? && Stale(l, h.record.value, now) then h.(record := None) else h
  }

  function Play(l: Limits, ticks: seq<Tick>): History {
    if |ticks| == 0 then History(None, [], [])
    else StepHistory(l, Play(l, ticks[..|ticks| - 1]), ticks[|ticks| - 1])
  }

  // ---------- Every IP runs on its own ----------

  datatype Call = Handle(ip: string, now: int) | Sweep(now: int)

  /** The middleware's records, and the verdicts it gave, as pairs of IP and verdict. */
  datatype Service = Service(records: map<string, IpRecord>, log: seq<(string, bool)>)

  function Serve(l: Limits, calls: seq<Call>): Service {
    if |calls| == 0 then Service(map[], [])
    else
      var s := Serve(l, calls[..|calls| - 1]);
      match calls[|calls| - 1]
      case Handle(ip, now) =>
        var v := Decide(l, OrFresh(Lookup(s.records, ip)), now);
        Service(s.records[ip := v.record], s.log + [(ip, v.admitted)])
      case Sweep(now) => s.(records := Swept(l, s.records, now))
  }

  /** What one IP sees of the calls. */
  function Project(calls: seq<Call>, ip: string): seq<Tick> {
    if |calls| == 0 then []
    else
      Project(calls[..|calls| - 1], ip) + (match calls[|calls| - 1]
                                           case Handle(other, now) => if other == ip then [Request(now)] else []
                                           case Sweep(now) => [Cleanup(now)])
  }

  function VerdictsFor(log: seq<(string, bool)>, ip: string): seq<bool> {
    if |log| == 0 then []
    else VerdictsFor(log[..|log| - 1], ip) + (if log[|log| - 1].0 == ip then [log[|log| - 1].1] else [])
  }

  lemma PlayAppends(l: Limits, ticks: seq<Tick>, tick: Tick)
    ensures Play(l, ticks + [tick]) == StepHistory(l, Play(l, ticks), tick)
  {
    assert (ticks + [tick])[..|ticks|] == ticks;
  }

  /** No IP ever influences another: each one's records and verdicts are those of its own calls. */
  lemma {:induction false} IpsAreIndependent(l: Limits, calls: seq<Call>, ip: string)
    ensures Lookup(Serve(l, calls).records, ip) == Play(l, Project(calls, ip)).record
    ensures VerdictsFor(Serve(l, calls).log, ip) == Play(l, Project(calls, ip)).verdicts
  {
    if |calls| > 0 {
      var before, call := calls[..|calls| - 1], calls[|calls| - 1];
      IpsAreIndependent(l, before, ip);
      var log := Serve(l, before).log;
      if call.Sweep? {
        PlayAppends(l, Project(before, ip), Cleanup(call.now));
      } else {
        assert Serve(l, calls).log[..|log|] == log;
        if call.ip == ip {
          PlayAppends(l, Project(before, ip), Request(call.now));
        } else {
          assert Project(calls, ip) == Project(before, ip);
          assert VerdictsFor(Serve(l, calls).log, ip) == VerdictsFor(log, ip);
        }
      }
    }
  }

  // ---------- Cleanup is invisible ----------

  function Requests(ticks: seq<Tick>): seq<Tick> {
    if |ticks| == 0 then []
    else
      Requests(ticks[..|ticks| - 1]) + (if ticks[|ticks| - 1].Request? then [ticks[|ticks| - 1]] else [])
  }

  /** A record as any request at or after `t` sees it. */
  function Seen(l: Limits, r: Option<IpRecord>, t: int): IpRecord {
    if r.None? || Stale(l, r.value, t) then FRESH else r.value
  }

  lemma {:induction false} PruneDropsOld(ts: seq<int>, cutoff: int)
    requires forall t :: t in ts ==> t < cutoff
    ensures Prune(ts, cutoff) == []
  {
    if |ts| > 0 {
      assert ts[0] in ts;
      forall t | t in ts[1..] ensures t < cutoff { assert t in ts; }
      PruneDropsOld(ts[1..], cutoff);
      assert FirstValid(ts[1..], cutoff) == -1;
    }
  }

  lemma SeenDecides(l: Limits, r: Option<IpRecord>, t: int, now: int)
    requires t <= now && 0 <= now
    ensures Decide(l, OrFresh(r), now) == Decide(l, Seen(l, r, t), now)
  {
    if r.Some? && Stale(l, r.value, t) {
      PruneDropsOld(r.value.timestamps, now - l.windowMs);
      PruneDropsOld([], now - l.windowMs);
      assert Kept(l, r.value, now) == [] == Kept(l, FRESH, now);
    }
  }

  /** Running the cleanup at any moments changes no decision. */
  lemma {:induction false} CleanupIsInvisible(l: Limits, ticks: seq<Tick>, t: int)
    requires Monotone(ticks) && (|ticks| > 0 ==> ticks[|ticks| - 1].now <= t)
    ensures Play(l, ticks).verdicts == Play(l, Requests(ticks)).verdicts
    ensures Play(l, ticks).admitted == Play(l, Requests(ticks)).admitted
    ensures Seen(l, Play(l, ticks).record, t) == Seen(l, Play(l, Requests(ticks)).record, t)
  {
    if |ticks| > 0 {
      var before, tick := ticks[..|ticks| - 1], ticks[|ticks| - 1];
      CleanupIsInvisible(l, before, tick.now);
      if tick.Request? {
        assert Requests(ticks)[..|Requests(ticks)| - 1] == Requests(before);
        SeenDecides(l, Play(l, before).record, tick.now, tick.now);
        SeenDecides(l, Play(l, Requests(before)).record, tick.now, tick.now);
      } else {
        assert Requests(ticks) == Requests(before);
      }
    }
  }

  // ---------- Idle clients are forgotten ----------

  /** What is kept of a client comes from its requests. */
  ghost predicate NotAfter(l: Limits, r: Option<IpRecord>, last: int) {
    r.Some? ==> r.value.blockedUntil <= Max(0, last + l.blockDurationMs)
                && forall k :: 0 <= k < |r.value.timestamps| ==> r.value.timestamps[k] <= last
  }

  lemma {:induction false} RecordIsOfRequests(l: Limits, ticks: seq<Tick>, last: int)
    requires forall i :: 0 <= i < |ticks| && ticks[i].Request? ==> ticks[i].now <= last
    ensures NotAfter(l, Play(l, ticks).record, last)
  {
    if |ticks| > 0 {
      var n := |ticks| - 1;
      assert forall i :: 0 <= i < n ==> ticks[..n][i] == ticks[i];
      RecordIsOfRequests(l, ticks[..n], last);
      if ticks[n].Request? { RequestKeepsNotAfter(l, Play(l, ticks[..n]).record, ticks[n].now, last); }
    }
  }

  lemma RequestKeepsNotAfter(l: Limits, r: Option<IpRecord>, now: int, last: int)
    requires NotAfter(l, r, last) && now <= last
    ensures NotAfter(l, Some(Decide(l, OrFresh(r), now).record), last)
  {
  }

  /** A client that has been idle for longer than the window and as long as a block is forgotten by the next cleanup. */
  lemma IdleClientIsForgotten(l: Limits, ticks: seq<Tick>, now: int)
    requires now >= 0
    requires forall i :: 0 <= i < |ticks| && ticks[i].Request? ==>
               ticks[i].now < now - l.windowMs && ticks[i].now <= now - l.blockDurationMs
    ensures Play(l, ticks + [Tick.Cleanup(now)]).record == None
  {
    var last := Min(now - l.windowMs - 1, now - l.blockDurationMs);
    RecordIsOfRequests(l, ticks, last);
    PlayAppends(l, ticks, Tick.Cleanup(now));
  }

  // ---------- The reference limiter ----------

  function CountIn(times: seq<int>, lo: int, hi: int): nat {
    if |times| == 0 then 0
    else CountIn(times[..|times| - 1], lo, hi) + (if lo <= times[|times| - 1] <= hi then 1 else 0)
  }

  /** Remembers every admitted request and the last overrun; nothing is pruned, reset or cleaned. */
  datatype Reference = Reference(verdicts: seq<bool>, admitted: seq<int>, overrun: Option<int>)

  predicate BlockOver(l: Limits, s: Reference, now: int) {
    s.overrun.None? || s.overrun.value + l.blockDurationMs <= now
  }

  predicate RefAdmits(l: Limits, s: Reference, now: int) {
    BlockOver(l, s, now) && CountIn(s.admitted, now - l.windowMs, now) < l.maxRequests
  }

  function RefStep(l: Limits, s: Reference, tick: Tick): Reference {
    if tick.Cleanup? then s
    else if RefAdmits(l, s, tick.now) then s.(verdicts := s.verdicts + [true], admitted := s.admitted + [tick.now])
    else s.(verdicts := s.verdicts + [false], overrun := if BlockOver(l, s, tick.now) then Some(tick.now) else s.overrun)
  }

  function RefPlay(l: Limits, ticks: seq<Tick>): Reference {
    if |ticks| == 0 then Reference([], [], None)
    else RefStep(l, RefPlay(l, ticks[..|ticks| - 1]), ticks[|ticks| - 1])
  }

  // ---------- Refinement ----------

  ghost predicate Sorted(s: seq<int>) { forall i, j :: 0 <= i < j < |s| ==> s[i] <= s[j] }

  function Since(s: seq<int>, x: int): seq<int> {
    if |s| == 0 then [] else (if s[0] >= x then [s[0]] else []) + Since(s[1..], x)
  }

  lemma {:induction false} SinceAppends(s: seq<int>, v: int, x: int)
    ensures Since(s + [v], x) == Since(s, x) + (if v >= x then [v] else [])
  {
    if |s| > 0 {
      assert (s + [v])[1..] == s[1..] + [v];
      SinceAppends(s[1..], v, x);
    }
  }

  lemma CountAppends(s: seq<int>, v: int, lo: int, hi: int)
    ensures CountIn(s + [v], lo, hi) == CountIn(s, lo, hi) + (if lo <= v <= hi then 1 else 0)
  {
    assert (s + [v])[..|s|] == s;
  }

  lemma {:induction false} SinceCounts(s: seq<int>, x: int, hi: int)
    requires forall i :: 0 <= i < |s| ==> s[i] <= hi
    ensures |Since(s, x)| == CountIn(s, x, hi)
  {
    if |s| > 0 {
      var n := |s| - 1;
      SinceCounts(s[..n], x, hi);
      SinceAppends(s[..n], s[n], x);
      assert s[..n] + [s[n]] == s;
    }
  }

  lemma {:induction false} SinceTwice(s: seq<int>, x: int, y: int)
    requires x <= y
    ensures Since(Since(s, x), y) == Since(s, y)
  {
    if |s| > 0 {
      SinceTwice(s[1..], x, y);
      var kept := Since(s, x);
      if s[0] >= x {
        assert kept[0] == s[0] && kept[1..] == Since(s[1..], x);
      } else {
        assert kept == Since(s[1..], x);
      }
    }
  }

  lemma {:induction false} SinceAll(s: seq<int>, x: int)
    ensures (forall i :: 0 <= i < |s| ==> s[i] >= x) ==> Since(s, x) == s
    ensures (forall i :: 0 <= i < |s| ==> s[i] < x) ==> Since(s, x) == []
  {
    if |s| > 0 { SinceAll(s[1..], x); }
  }

  ghost predicate Within(s: seq<int>, lo: int, hi: int) { forall i :: 0 <= i < |s| ==> lo <= s[i] <= hi }

  lemma {:induction false} SinceWithin(s: seq<int>, x: int, lo: int, hi: int)
    requires Within(s, lo, hi)
    ensures Within(Since(s, x), lo, hi)
  {
    if |s| > 0 { SinceWithin(s[1..], x, lo, hi); }
  }

  lemma {:induction false} SinceSorted(s: seq<int>, x: int)
    requires Sorted(s)
    ensures Sorted(Since(s, x))
  {
    if |s| > 0 {
      SinceSorted(s[1..], x);
      assert Within(s[1..], s[0], s[|s| - 1]);
      SinceWithin(s[1..], x, s[0], s[|s| - 1]);
    }
  }

  /** On a sorted list the splice keeps exactly the timestamps inside the window. */
  lemma {:induction false} PruneIsSince(ts: seq<int>, cutoff: int)
    requires Sorted(ts)
    ensures Prune(ts, cutoff) == Since(ts, cutoff)
  {
    if |ts| > 0 {
      if ts[0] >= cutoff {
        SinceAll(ts, cutoff);
      } else {
        PruneIsSince(ts[1..], cutoff);
        var k := FirstValid(ts[1..], cutoff);
        if k >= 0 { assert ts[k + 1..] == ts[1..][k..]; }
      }
    }
  }

  /** How a record represents the reference state for requests from `t` on. */
  ghost predicate Represents(l: Limits, r: Option<IpRecord>, s: Reference, t: int) {
    && Sorted(s.admitted)
    && (forall i :: 0 <= i < |s.admitted| ==> s.admitted[i] <= t)
    && match r
       case None => BlockOver(l, s, t) && Since(s.admitted, t - l.windowMs) == []
       case Some(r) =>
         if r.blockedUntil != 0 then
           && s.overrun.Some? && r.blockedUntil == s.overrun.value + l.blockDurationMs
           && (forall i :: 0 <= i < |r.timestamps| ==> r.timestamps[i] <= s.overrun.value)
           && forall i :: 0 <= i < |s.admitted| ==> s.admitted[i] <= s.overrun.value
         else
           && BlockOver(l, s, t) && Sorted(r.timestamps)
           && (forall i :: 0 <= i < |r.timestamps| ==> r.timestamps[i] <= t)
           && Since(r.timestamps, t - l.windowMs) == Since(s.admitted, t - l.windowMs)
  }

  lemma Waits(l: Limits, r: Option<IpRecord>, s: Reference, t: int, u: int)
    requires Represents(l, r, s, t) && t <= u
    ensures Represents(l, r, s, u)
  {
    SinceTwice(s.admitted, t - l.windowMs, u - l.windowMs);
    if r.Some? { SinceTwice(r.value.timestamps, t - l.windowMs, u - l.windowMs); }
  }

  /** The list a request appends to: the admitted requests of the last window, in order. */
  lemma KeptIsTheWindow(l: Limits, r: IpRecord, s: Reference, now: int)
    requires l.blockDurationMs > l.windowMs && r.blockedUntil <= now
    requires Represents(l, Some(r), s, now)
    ensures Kept(l, r, now) == Since(s.admitted, now - l.windowMs)
    ensures BlockOver(l, s, now)
  {
    if r.blockedUntil != 0 {
      SinceAll(s.admitted, now - l.windowMs);
    } else {
      PruneIsSince(r.timestamps, now - l.windowMs);
    }
  }

  lemma Appended(s: seq<int>, now: int)
    requires Sorted(s) && forall i :: 0 <= i < |s| ==> s[i] <= now
    ensures Sorted(s + [now]) && forall i :: 0 <= i < |s + [now]| ==> (s + [now])[i] <= now
  {
  }

  lemma SinceIsOld(s: seq<int>, x: int, now: int)
    requires Sorted(s) && forall i :: 0 <= i < |s| ==> s[i] <= now
    ensures Sorted(Since(s, x)) && forall i :: 0 <= i < |Since(s, x)| ==> Since(s, x)[i] <= now
  {
    SinceSorted(s, x);
    if |s| > 0 { SinceWithin(s, x, s[0], now); }
  }

  /** An admitted request joins both the pruned list and the remembered ones. */
  lemma AdmittedRefines(l: Limits, s: Reference, now: int)
    requires BlockOver(l, s, now) && Sorted(s.admitted)
    requires forall i :: 0 <= i < |s.admitted| ==> s.admitted[i] <= now
    ensures Represents(l, Some(IpRecord(Since(s.admitted, now - l.windowMs) + [now], 0)),
                       s.(verdicts := s.verdicts + [true], admitted := s.admitted + [now]), now)
  {
    var cutoff := now - l.windowMs;
    var kept := Since(s.admitted, cutoff);
    SinceIsOld(s.admitted, cutoff, now);
    Appended(kept, now);
    Appended(s.admitted, now);
    assert Since(kept + [now], cutoff) == Since(s.admitted + [now], cutoff) by {
      SinceTwice(s.admitted, cutoff, cutoff);
      SinceAppends(kept, now, cutoff);
      SinceAppends(s.admitted, now, cutoff);
    }
  }

  /** The request that overruns the window starts a block. */
  lemma OverrunRefines(l: Limits, s: Reference, now: int)
    requires l.blockDurationMs > l.windowMs && 0 < now && Sorted(s.admitted)
    requires forall i :: 0 <= i < |s.admitted| ==> s.admitted[i] <= now
    ensures Represents(l, Some(IpRecord(Since(s.admitted, now - l.windowMs) + [now], now + l.blockDurationMs)),
                       s.(verdicts := s.verdicts + [false], overrun := Some(now)), now)
  {
    SinceIsOld(s.admitted, now - l.windowMs, now);
    Appended(Since(s.admitted, now - l.windowMs), now);
  }

  lemma DecideRefines(l: Limits, r: Option<IpRecord>, s: Reference, now: int)
    requires l.blockDurationMs > l.windowMs && 0 < now && Represents(l, r, s, now)
    ensures Decide(l, OrFresh(r), now).admitted == RefAdmits(l, s, now)
    ensures Represents(l, Some(Decide(l, OrFresh(r), now).record), RefStep(l, s, Request(now)), now)
  {
    if r.Some? && r.value.blockedUntil > now {
      assert r.value.blockedUntil != 0;
      assert RefStep(l, s, Request(now)) == s.(verdicts := s.verdicts + [false]);
    } else {
      var kept := Since(s.admitted, now - l.windowMs);
      if r.Some? {
        KeptIsTheWindow(l, r.value, s, now);
      } else {
        PruneDropsOld([], now - l.windowMs);
      }
      assert Decide(l, OrFresh(r), now) == Append(l, kept, now);
      SinceCounts(s.admitted, now - l.windowMs, now);
      if RefAdmits(l, s, now) {
        AdmittedRefines(l, s, now);
      } else {
        OverrunRefines(l, s, now);
      }
    }
  }

  /** Forgetting a stale record loses nothing the reference still counts. */
  lemma ForgettingRefines(l: Limits, r: IpRecord, s: Reference, now: int)
    requires l.blockDurationMs > l.windowMs && Represents(l, Some(r), s, now) && Stale(l, r, now)
    ensures Represents(l, None, s, now)
  {
    if r.blockedUntil != 0 {
      SinceAll(s.admitted, now - l.windowMs);
    } else {
      forall i | 0 <= i < |r.timestamps| ensures r.timestamps[i] < now - l.windowMs {
        assert r.timestamps[i] in r.timestamps;
      }
      SinceAll(r.timestamps, now - l.windowMs);
    }
  }

  /**
   MAIN RESULT. With a block longer than the window, over every run, cleanups included, the middleware
   decides each request as the reference limiter does, and its pruned list is always exactly the
   window's worth of admitted requests.
   */
  lemma {:induction false} RefinesReference(l: Limits, ticks: seq<Tick>, t: int)
    requires l.blockDurationMs > l.windowMs && Monotone(ticks)
    requires |ticks| > 0 ==> ticks[|ticks| - 1].now <= t
    ensures Play(l, ticks).verdicts == RefPlay(l, ticks).verdicts
    ensures Play(l, ticks).admitted == RefPlay(l, ticks).admitted
    ensures Represents(l, Play(l, ticks).record, RefPlay(l, ticks), t)
  {
    if |ticks| > 0 {
      var before, tick := ticks[..|ticks| - 1], ticks[|ticks| - 1];
      RefinesReference(l, before, tick.now);
      if tick.Request? {
        DecideRefines(l, Play(l, before).record, RefPlay(l, before), tick.now);
      } else if Play(l, before).record.Some? && Stale(l, Play(l, before).record.value, tick.now) {
        ForgettingRefines(l, Play(l, before).record.value, RefPlay(l, before), tick.now);
      }
      Waits(l, Play(l, ticks).record, RefPlay(l, ticks), tick.now, t);
    }
  }

  // ---------- What the limiter promises ----------

  lemma {:induction false} CountMonotone(times: seq<int>, lo: int, hi: int, lo': int, hi': int)
    requires lo' <= lo && forall i :: 0 <= i < |times| ==> times[i] <= hi ==> times[i] <= hi'
    ensures CountIn(times, lo, hi) <= CountIn(times, lo', hi')
  {
    if |times| > 0 { CountMonotone(times[..|times| - 1], lo, hi, lo', hi'); }
  }

  lemma {:induction false} RefWindowBound(l: Limits, ticks: seq<Tick>, x: int)
    requires Monotone(ticks)
    ensures CountIn(RefPlay(l, ticks).admitted, x, x + l.windowMs) <= l.maxRequests
    ensures forall i :: 0 <= i < |RefPlay(l, ticks).admitted| ==>
              |ticks| > 0 && RefPlay(l, ticks).admitted[i] <= ticks[|ticks| - 1].now
  {
    if |ticks| > 0 {
      var before, tick := ticks[..|ticks| - 1], ticks[|ticks| - 1];
      var a := RefPlay(l, before).admitted;
      RefWindowBound(l, before, x);
      assert RefPlay(l, ticks) == RefStep(l, RefPlay(l, before), tick);
      assert forall i :: 0 <= i < |a| ==> a[i] <= tick.now;
      CountAppends(a, tick.now, x, x + l.windowMs);
      if x <= tick.now <= x + l.windowMs {
        CountMonotone(a, x, x + l.windowMs, tick.now - l.windowMs, tick.now);
      }
    }
  }

  ghost predicate BoundAt(l: Limits, ticks: seq<Tick>, x: int) {
    CountIn(Play(l, ticks).admitted, x, x + l.windowMs) <= l.maxRequests
  }

  /** No closed interval of length windowMs ever contains more than maxRequests admitted requests. */
  ghost predicate WindowBound(l: Limits) {
    forall ticks, x :: Monotone(ticks) ==> BoundAt(l, ticks, x)
  }

  lemma {:induction false} ZeroAdmitsNothing(l: Limits, ticks: seq<Tick>)
    requires l.maxRequests == 0
    ensures Play(l, ticks).admitted == []
  {
    if |ticks| > 0 { ZeroAdmitsNothing(l, ticks[..|ticks| - 1]); }
  }

  function Repeat<T>(v: T, n: nat): seq<T> {
    if n == 0 then [] else Repeat(v, n - 1) + [v]
  }

  lemma {:induction false} OnesShape(n: nat)
    ensures |Repeat(1, n)| == n && forall i :: 0 <= i < n ==> Repeat(1, n)[i] == 1
  {
    if n > 0 { OnesShape(n - 1); }
  }

  lemma {:induction false} OnesCount(n: nat, hi: int)
    requires 1 <= hi
    ensures CountIn(Repeat(1, n), 1, hi) == n
  {
    if n > 0 {
      OnesCount(n - 1, hi);
      CountAppends(Repeat(1, n - 1), 1, 1, hi);
    }
  }

  lemma OnesStayValid(l: Limits, n: nat)
    ensures |Repeat(1, n)| == n && Prune(Repeat(1, n), 1 - l.windowMs) == Repeat(1, n)
    ensures n > 0 ==> Repeat(1, n)[0] == 1
    ensures CountIn(Repeat(1, n), 1, 1 + l.windowMs) == n
  {
    OnesShape(n);
    OnesCount(n, 1 + l.windowMs);
    if n > 0 { FirstValidIsFirst(Repeat(1, n), 1 - l.windowMs); }
  }

  lemma FirstValidIsFirst(ts: seq<int>, cutoff: int)
    requires |ts| > 0 && ts[0] >= cutoff
    ensures Prune(ts, cutoff) == ts
  {
  }

  /** After n requests at time 1, all admitted. */
  ghost predicate Filled(h: History, n: nat) {
    OrFresh(h.record) == IpRecord(Repeat(1, n), 0) && h.admitted == Repeat(1, n)
  }

  lemma BurstStep(l: Limits, h: History, n: nat)
    requires n < l.maxRequests && Filled(h, n)
    ensures Filled(StepHistory(l, h, Request(1)), n + 1)
  {
    OnesStayValid(l, n);
    assert Kept(l, OrFresh(h.record), 1) == Repeat(1, n);
  }

  /** A burst of n requests at time 1. */
  lemma {:induction false} BurstFills(l: Limits, n: nat)
    requires n <= l.maxRequests
    ensures Filled(Play(l, Repeat(Request(1), n)), n)
  {
    if n == 0 {
      assert Play(l, []) == History(None, [], []);
    } else {
      BurstFills(l, n - 1);
      BurstStep(l, Play(l, Repeat(Request(1), n - 1)), n - 1);
      PlayAppends(l, Repeat(Request(1), n - 1), Request(1));
    }
  }

  lemma {:induction false} RepeatIsMonotone(n: nat)
    ensures |Repeat(Request(1), n)| == n && forall i :: 0 <= i < n ==> Repeat(Request(1), n)[i] == Request(1)
  {
    if n > 0 { RepeatIsMonotone(n - 1); }
  }

  lemma FullWindowOverruns(l: Limits, h: History, ones: seq<int>)
    requires OrFresh(h.record) == IpRecord(ones, 0) && |ones| == l.maxRequests
    requires Prune(ones, 1 - l.windowMs) == ones
    ensures StepHistory(l, h, Request(1)).record == Some(IpRecord(ones + [1], 1 + l.blockDurationMs))
    ensures StepHistory(l, h, Request(1)).admitted == h.admitted
  {
    assert Kept(l, IpRecord(ones, 0), 1) == ones;
  }

  lemma BlockedReturns(l: Limits, h: History, back: int)
    requires h.record.Some? && h.record.value.blockedUntil == back > 0 && l.maxRequests > 0
    ensures StepHistory(l, h, Request(back)).admitted == h.admitted + [back]
  {
  }

  lemma FilledThenBack(l: Limits, h: History)
    requires l.blockDurationMs <= l.windowMs && l.maxRequests > 0 && Filled(h, l.maxRequests)
    ensures var again := StepHistory(l, h, Request(1));
            CountIn(StepHistory(l, again, Request(1 + l.blockDurationMs)).admitted, 1, 1 + l.windowMs) == l.maxRequests + 1
  {
    var n, back := l.maxRequests, 1 + l.blockDurationMs;
    OnesStayValid(l, n);
    FullWindowOverruns(l, h, Repeat(1, n));
    BlockedReturns(l, StepHistory(l, h, Request(1)), back);
    CountAppends(Repeat(1, n), back, 1, 1 + l.windowMs);
  }

  lemma OverBound(l: Limits, ticks: seq<Tick>, h: History)
    requires Play(l, ticks) == h && CountIn(h.admitted, 1, 1 + l.windowMs) > l.maxRequests
    ensures !BoundAt(l, ticks, 1)
  {
  }

  /** Fill the window, overrun it, come back as the block ends: one admission too many. */
  lemma BurstLeaks(l: Limits)
    requires l.blockDurationMs <= l.windowMs && l.maxRequests > 0
    ensures !BoundAt(l, Repeat(Request(1), l.maxRequests) + [Request(1)] + [Request(1 + l.blockDurationMs)], 1)
  {
    var burst := Repeat(Request(1), l.maxRequests);
    var h := Play(l, burst);
    BurstFills(l, l.maxRequests);
    FilledThenBack(l, h);
    PlayAppends(l, burst, Request(1));
    PlayAppends(l, burst + [Request(1)], Request(1 + l.blockDurationMs));
    OverBound(l, burst + [Request(1)] + [Request(1 + l.blockDurationMs)],
              StepHistory(l, StepHistory(l, h, Request(1)), Request(1 + l.blockDurationMs)));
  }

  lemma ShortBlockLeaks(l: Limits)
    requires l.blockDurationMs <= l.windowMs && l.maxRequests > 0
    ensures !WindowBound(l)
  {
    BurstLeaks(l);
    RepeatIsMonotone(l.maxRequests);
    assert Monotone(Repeat(Request(1), l.maxRequests) + [Request(1)] + [Request(1 + l.blockDurationMs)]);
  }

  /** The window bound holds exactly when the block outlasts the window (or nothing is admitted at all). */
  lemma WindowBoundExactly(l: Limits)
    ensures WindowBound(l) <==> l.blockDurationMs > l.windowMs || l.maxRequests == 0
  {
    if l.maxRequests == 0 {
      forall ticks: seq<Tick>, x | Monotone(ticks)
        ensures BoundAt(l, ticks, x)
      {
        ZeroAdmitsNothing(l, ticks);
      }
    } else if l.blockDurationMs > l.windowMs {
      forall ticks: seq<Tick>, x | Monotone(ticks)
        ensures BoundAt(l, ticks, x)
      {
        RefinesReference(l, ticks, if |ticks| > 0 then ticks[|ticks| - 1].now else 0);
        RefWindowBound(l, ticks, x);
      }
    } else {
      ShortBlockLeaks(l);
    }
  }

  function TimesOf(ticks: seq<Tick>): seq<int> {
    if |ticks| == 0 then []
    else TimesOf(ticks[..|ticks| - 1]) + (if ticks[|ticks| - 1].Request? then [ticks[|ticks| - 1].now] else [])
  }

  /** A client that never sends more than maxRequests in any window, looking back from each request. */
  predicate Compliant(windowMs: nat, maxRequests: nat, ticks: seq<Tick>) {
    |ticks| == 0 || (
      var last := ticks[|ticks| - 1];
      && Compliant(windowMs, maxRequests, ticks[..|ticks| - 1])
      && (last.Request? ==> CountIn(TimesOf(ticks), last.now - windowMs, last.now) <= maxRequests))
  }

  ghost predicate AllAdmitted(verdicts: seq<bool>) {
    forall i :: 0 <= i < |verdicts| ==> verdicts[i]
  }

  lemma {:induction false} ReferenceNeverRejects(l: Limits, ticks: seq<Tick>)
    requires Compliant(l.windowMs, l.maxRequests, ticks)
    ensures AllAdmitted(RefPlay(l, ticks).verdicts)
    ensures RefPlay(l, ticks).overrun.None? && RefPlay(l, ticks).admitted == TimesOf(ticks)
  {
    if |ticks| > 0 {
      var before, tick := ticks[..|ticks| - 1], ticks[|ticks| - 1];
      ReferenceNeverRejects(l, before);
      CountAppends(TimesOf(before), tick.now, tick.now - l.windowMs, tick.now);
      if tick.Request? { assert RefAdmits(l, RefPlay(l, before), tick.now); }
      assert RefPlay(l, ticks) == RefStep(l, RefPlay(l, before), tick);
    }
  }

  lemma StepIgnoresBlockLength(l: Limits, m: Limits, h: History, tick: Tick)
    requires m == l.(blockDurationMs := m.blockDurationMs)
    requires AllAdmitted(StepHistory(m, h, tick).verdicts)
    ensures StepHistory(l, h, tick) == StepHistory(m, h, tick) && AllAdmitted(h.verdicts)
  {
    var after := StepHistory(m, h, tick).verdicts;
    assert forall i :: 0 <= i < |h.verdicts| ==> h.verdicts[i] == after[i];
    if tick.Request? { assert after[|h.verdicts|]; }
  }

  lemma {:induction false} BlockLengthIsMoot(l: Limits, m: Limits, ticks: seq<Tick>)
    requires m == l.(blockDurationMs := m.blockDurationMs)
    requires AllAdmitted(Play(m, ticks).verdicts)
    ensures Play(l, ticks) == Play(m, ticks)
  {
    if |ticks| > 0 {
      var before, tick := ticks[..|ticks| - 1], ticks[|ticks| - 1];
      StepIgnoresBlockLength(l, m, Play(m, before), tick);
      BlockLengthIsMoot(l, m, before);
    }
  }

  /** Such a client is never rejected, whatever the block duration and whenever the cleanup runs. */
  lemma CompliantClientIsNeverRejected(l: Limits, ticks: seq<Tick>)
    requires Monotone(ticks) && Compliant(l.windowMs, l.maxRequests, ticks)
    ensures AllAdmitted(Play(l, ticks).verdicts) && Play(l, ticks).admitted == TimesOf(ticks)
  {
    var m := l.(blockDurationMs := l.windowMs + 1);
    ReferenceNeverRejects(m, ticks);
    RefinesReference(m, ticks, if |ticks| > 0 then ticks[|ticks| - 1].now else 0);
    BlockLengthIsMoot(l, m, ticks);
  }
}
