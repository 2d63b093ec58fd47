/**
 The balance tracker (packages/swap/src/quoting/BalanceTracker.ts): balances of the connected makers, refreshed
 when one connects and when they are asked for after ten idle seconds.

 Refreshes are numbered as they start; 0 is the empty map the tracker is born with. Several may be under way;
 `balances` is always the promise of the newest. An attempt asks for the accounts monitored when it begins.
 */
module BalanceTracker {
  import opened Prelude
  import L = LimitOrders

  type Account = L.Account
  type Balances = map<Account, map<L.Asset, nat>>

  const MAX_AGE := 10_000
  const LAST_ATTEMPT := 4

  /** How many attempts have failed, and the accounts the present one asks for. */
  datatype Attempt = Attempt(failed: nat, asked: set<Account>)

  /** How a refresh ended; the map the tracker is born with counts as refresh 0. */
  datatype Outcome = Born | Got(balances: Balances) | GaveUp

  /** What its promise resolved to. */
  function Value(o: Outcome): Balances { if o.Got? then o.balances else map[] }

  /** `unsettled` holds the refreshes under way, `outcomes` how the others ended. */
  datatype State = State(
    active: bool,
    monitored: set<Account>,
    newest: nat,
    lastUpdate: int,
    unsettled: map<nat, Attempt>,
    outcomes: map<nat, Outcome>)

  datatype Event =
    | Add(account: Account)
    | Remove(account: Account)
    | Ask(now: int)                                                 // `getBalances` up to its loop
    | Attempted(number: nat, answer: Option<Balances>, now: int)    // an attempt succeeds, or fails

  function Refreshed(s: State): State {
    if s.monitored == {} then s
    else s.(newest := s.newest + 1, unsettled := s.unsettled[s.newest + 1 := Attempt(0, s.monitored)])
  }

  function Settled(s: State, number: nat, o: Outcome): State {
    s.(unsettled := s.unsettled - {number}, outcomes := s.outcomes[number := o])
  }

  predicate Idle(s: State, now: int) { s.lastUpdate < now - MAX_AGE && s.unsettled == map[] }

  function Next(s: State, e: Event): Option<State> {
    match e
    case Add(a) => Some(if s.active then Refreshed(s.(monitored := s.monitored + {a})) else s)
    case Remove(a) => Some(s.(monitored := s.monitored - {a}))
    case Ask(now) => Some(if Idle(s, now) then Refreshed(s) else s)
    case Attempted(n, answer, now) =>
      if n !in s.unsettled then None
      else
        match answer
        case Some(b) => if b.Keys != s.unsettled[n].asked then None else Some(Settled(s.(lastUpdate := now), n, Got(b)))
        case None =>
          if s.unsettled[n].failed >= LAST_ATTEMPT then Some(Settled(s, n, GaveUp))
          else Some(s.(unsettled := s.unsettled[n := Attempt(s.unsettled[n].failed + 1, s.monitored)]))
  }

  function Initial(active: bool): State { State(active, {}, 0, 0, map[], map[0 := Born]) }

  function Run(active: bool, es: seq<Event>): Option<State> {
    if |es| == 0 then Some(Initial(active))
    else
      match Run(active, es[..|es| - 1])
      case None => None
      case Some(s) => Next(s, es[|es| - 1])
  }

  // ---------- The object ----------

  class BalanceTracker {
    const active: bool
    var monitoredAccounts: set<Account>
    /** The number of the refresh whose promise is stored. */
    var balances: nat
    var lastUpdate: int
    var inflightCount: nat
    var started: nat
    ghost var unsettled: map<nat, Attempt>
    ghost var outcomes: map<nat, Outcome>

    constructor (active: bool)
      ensures Valid() && this.active == active && View() == Initial(active)
    {
      this.active := active;
      monitoredAccounts, balances, lastUpdate, inflightCount, started := {}, 0, 0, 0, 0;
      unsettled, outcomes := map[], map[0 := Born];
    }

    ghost function View(): State
      reads this
    {
      State(active, monitoredAccounts, balances, lastUpdate, unsettled, outcomes)
    }

    ghost predicate Valid()
      reads this
    {
      Inv(View()) && inflightCount == |unsettled| && started == balances
    }

    method Refresh()
      requires Valid()
      modifies this
      ensures Valid() && View() == Refreshed(old(View()))
    {
      if monitoredAccounts == {} { return; }
      inflightCount, started := inflightCount + 1, started + 1;
      balances := started;
      unsettled := unsettled[started := Attempt(0, monitoredAccounts)];
    }

    method Add(account: Account)
      requires Valid()
      modifies this
      ensures Valid() && Next(old(View()), Event.Add(account)) == Some(View())
      ensures monitoredAccounts == if active then old(monitoredAccounts) + {account} else old(monitoredAccounts)
    {
      if !active { return; }
      monitoredAccounts := monitoredAccounts + {account};
      Refresh();
    }

    method Remove(account: Account)
      requires Valid()
      modifies this
      ensures Valid() && Next(old(View()), Event.Remove(account)) == Some(View())
      ensures monitoredAccounts == old(monitoredAccounts) - {account}
    {
      monitoredAccounts := monitoredAccounts - {account};
    }

    /** `getBalances` before it waits. */
    method AskForBalances(now: int)
      requires Valid()
      modifies this
      ensures Valid() && Next(old(View()), Ask(now)) == Some(View())
    {
      if lastUpdate < now - MAX_AGE && inflightCount == 0 { Refresh(); }
    }

    /** One turn of the retry loop of refresh n: the attempt has ended. */
    method OnAttempt(n: nat, attempt: nat, answer: Option<Balances>, now: int)
      requires Valid() && n in unsettled && unsettled[n].failed == attempt
      requires answer.Some? ==> answer.value.Keys == unsettled[n].asked
      modifies this
      ensures Valid() && Next(old(View()), Attempted(n, answer, now)) == Some(View())
    {
      StepKeepsInv(View(), Attempted(n, answer, now));
      if answer.Some? {
        lastUpdate := now;
        Resolve(n, Got(answer.value));
      } else if attempt + 1 < 5 {
        unsettled := unsettled[n := Attempt(attempt + 1, monitoredAccounts)];
      } else {
        Resolve(n, GaveUp);
      }
    }

    method Resolve(n: nat, ghost o: Outcome)
      requires n in unsettled && inflightCount == |unsettled|
      modifies `inflightCount, `unsettled, `outcomes
      ensures unsettled == old(unsettled) - {n} && outcomes == old(outcomes)[n := o] && inflightCount == |unsettled|
    {
      assert (unsettled - {n}).Keys == unsettled.Keys - {n};
      inflightCount := inflightCount - 1;
      unsettled, outcomes := unsettled - {n}, outcomes[n := o];
    }
  }

  // ---------- Over every run ----------

  /** Every refresh begun is either under way, within its attempts, or has an outcome. */
  ghost predicate Inv(s: State) {
    && (forall n :: n in s.unsettled ==> 0 < n <= s.newest && n !in s.outcomes && s.unsettled[n].failed <= LAST_ATTEMPT)
    && (forall n :: 0 <= n <= s.newest ==> n in s.unsettled || n in s.outcomes)
    && (forall n :: n in s.outcomes ==> n <= s.newest)
    && (!s.active ==> s.monitored == {} && s.newest == 0)
  }

  lemma StepKeepsInv(s: State, e: Event)
    requires Inv(s) && Next(s, e).Some?
    ensures Inv(Next(s, e).value)
  {
  }

  lemma {:induction false} EveryRunKeepsInv(active: bool, es: seq<Event>)
    requires Run(active, es).Some?
    ensures Inv(Run(active, es).value)
  {
    if |es| > 0 {
      EveryRunKeepsInv(active, es[..|es| - 1]);
      StepKeepsInv(Run(active, es[..|es| - 1]).value, es[|es| - 1]);
    }
  }

  /** What `getBalances` returns once its loop ends, which it does only when nothing is under way. */
  function Returned(s: State): Balances
    requires Inv(s) && s.unsettled == map[]
  {
    Value(s.outcomes[s.newest])
  }

  // ---------- Giving up ----------

  predicate FailureOf(e: Event, n: nat) { e.Attempted? && e.number == n && e.answer.None? }

  predicate SuccessOf(e: Event, n: nat, b: Balances) { e.Attempted? && e.number == n && e.answer == Some(b) }

  function Failures(es: seq<Event>, n: nat): nat {
    if |es| == 0 then 0 else Failures(es[..|es| - 1], n) + (if FailureOf(es[|es| - 1], n) then 1 else 0)
  }

  /** What is recorded of refresh n is what its attempts did. */
  ghost predicate Recorded(s: State, es: seq<Event>, n: nat) {
    && (n in s.unsettled ==> s.unsettled[n].failed == Failures(es, n))
    && (n !in s.unsettled && n !in s.outcomes ==> Failures(es, n) == 0)
    && (n in s.outcomes && s.outcomes[n].GaveUp? ==> Failures(es, n) == 5)
    && (n in s.outcomes && s.outcomes[n].Got? ==> exists i :: 0 <= i < |es| && SuccessOf(es[i], n, s.outcomes[n].balances))
    && (n in s.outcomes && s.outcomes[n].Born? ==> n == 0)
  }

  /** A refresh gives up exactly after five failed attempts, and otherwise yields what one of its attempts got. */
  lemma {:induction false} EndsAreRecorded(active: bool, es: seq<Event>, n: nat)
    requires Run(active, es).Some?
    ensures Recorded(Run(active, es).value, es, n)
  {
    if |es| > 0 {
      var before := es[..|es| - 1];
      EndsAreRecorded(active, before, n);
      EveryRunKeepsInv(active, before);
      var s, e := Run(active, before).value, es[|es| - 1];
      if n in s.outcomes && s.outcomes[n].Got? {
        var i :| 0 <= i < |before| && SuccessOf(before[i], n, s.outcomes[n].balances);
        assert SuccessOf(es[i], n, s.outcomes[n].balances);
      }
      if e.Attempted? && e.answer.Some? && e.number == n { assert SuccessOf(es[|es| - 1], n, e.answer.value); }
    }
  }

  // ---------- When asking refreshes ----------

  /** When an attempt last succeeded; 0 if none has. */
  function LastSuccess(es: seq<Event>): int {
    if |es| == 0 then 0
    else
      var e := es[|es| - 1];
      if e.Attempted? && e.answer.Some? then e.now else LastSuccess(es[..|es| - 1])
  }

  lemma {:induction false} LastUpdateIsLastSuccess(active: bool, es: seq<Event>)
    requires Run(active, es).Some?
    ensures Run(active, es).value.lastUpdate == LastSuccess(es)
  {
    if |es| > 0 { LastUpdateIsLastSuccess(active, es[..|es| - 1]); }
  }

  /**
   Asking for balances starts a refresh exactly if the last success is more than ten seconds ago, none is under
   way and there is somebody to ask for; connecting an account to an active tracker always does.
   */
  lemma RefreshStartsExactly(active: bool, es: seq<Event>, now: int, account: Account)
    requires Run(active, es).Some?
    ensures var s := Run(active, es).value; var t := Next(s, Ask(now)).value;
            if now - LastSuccess(es) > 10_000 && s.unsettled == map[] && s.monitored != {}
            then t.newest == s.newest + 1 && t.unsettled == map[t.newest := Attempt(0, s.monitored)] else t == s
    ensures var s := Run(active, es).value; var t := Next(s, Add(account)).value;
            if active then t.newest == s.newest + 1 && account in t.monitored && t.newest in t.unsettled
                           && t.unsettled[t.newest] == Attempt(0, s.monitored + {account})
            else t == s
  {
    LastUpdateIsLastSuccess(active, es);
    StaysAsItIs(active, es);
  }

  lemma {:induction false} StaysAsItIs(active: bool, es: seq<Event>)
    requires Run(active, es).Some?
    ensures Run(active, es).value.active == active
  {
    if |es| > 0 { StaysAsItIs(active, es[..|es| - 1]); }
  }

  // ---------- Whom an attempt asks for ----------

  /** The accounts monitored are those added to an active tracker and not removed since. */
  lemma {:induction false} MonitoredIsAdded(active: bool, es: seq<Event>, a: Account)
    requires Run(active, es).Some?
    ensures a in Run(active, es).value.monitored <==> active && exists i :: AddedAt(es, a, i)
  {
    if |es| > 0 {
      var n := |es| - 1;
      MonitoredIsAdded(active, es[..n], a);
      StaysAsItIs(active, es[..n]);
      assert forall k :: 0 <= k < n ==> es[..n][k] == es[k];
      if es[n] == Add(a) { assert AddedAt(es, a, n); }
      forall i | 0 <= i < n ensures AddedAt(es, a, i) <==> AddedAt(es[..n], a, i) && es[n] != Remove(a) {
      }
    }
  }

  /** Event i began the present attempt of refresh n: its last failure, or what started it if none has failed. */
  ghost predicate Begins(active: bool, es: seq<Event>, n: nat, i: nat) {
    && i < |es| && Run(active, es[..i]).Some? && Run(active, es[..i + 1]).Some?
    && (forall j :: i < j < |es| ==> !FailureOf(es[j], n))
    && if Failures(es, n) > 0 then FailureOf(es[i], n)
       else Run(active, es[..i]).value.newest + 1 == n == Run(active, es[..i + 1]).value.newest
  }

  lemma AttemptStep(s: State, e: Event, t: State, n: nat)
    requires Inv(s) && Next(s, e) == Some(t) && n in t.unsettled
    ensures if FailureOf(e, n) || n !in s.unsettled then t.unsettled[n].asked == t.monitored
            else t.unsettled[n] == s.unsettled[n]
    ensures n !in s.unsettled ==> s.newest + 1 == n == t.newest && n !in s.outcomes
  {
  }

  lemma BeginsAtLast(active: bool, es: seq<Event>, n: nat)
    requires |es| > 0 && Run(active, es).Some? && n in Run(active, es).value.unsettled
    requires FailureOf(es[|es| - 1], n) || n !in Run(active, es[..|es| - 1]).value.unsettled
    ensures Begins(active, es, n, |es| - 1)
    ensures Run(active, es).value.unsettled[n].asked == Run(active, es).value.monitored
  {
    var before := es[..|es| - 1];
    EveryRunKeepsInv(active, before);
    AttemptStep(Run(active, before).value, es[|es| - 1], Run(active, es).value, n);
    assert es[..|es| - 1 + 1] == es;
    if !FailureOf(es[|es| - 1], n) { EndsAreRecorded(active, before, n); }
  }

  lemma BeganEarlier(active: bool, es: seq<Event>, n: nat, i: nat)
    requires |es| > 0 && Begins(active, es[..|es| - 1], n, i) && !FailureOf(es[|es| - 1], n)
    ensures Begins(active, es, n, i) && es[..|es| - 1][..i + 1] == es[..i + 1]
  {
    var before := es[..|es| - 1];
    assert before[..i] == es[..i] && before[..i + 1] == es[..i + 1];
    assert forall j :: 0 <= j < |before| ==> before[j] == es[j];
  }

  /** Every attempt asks for the accounts that were monitored when it began, not when its refresh did. */
  lemma {:induction false} AttemptAsksForMonitored(active: bool, es: seq<Event>, n: nat) returns (i: nat)
    requires Run(active, es).Some? && n in Run(active, es).value.unsettled
    ensures Begins(active, es, n, i)
    ensures Run(active, es).value.unsettled[n].asked == Run(active, es[..i + 1]).value.monitored
  {
    i := |es| - 1;
    var before := es[..i];
    assert es[..i + 1] == es;
    if FailureOf(es[i], n) || n !in Run(active, before).value.unsettled {
      BeginsAtLast(active, es, n);
    } else {
      EveryRunKeepsInv(active, before);
      AttemptStep(Run(active, before).value, es[i], Run(active, es).value, n);
      i := AttemptAsksForMonitored(active, before, n);
      BeganEarlier(active, es, n, i);
    }
  }

  // ---------- No maker is missed ----------

  /** Refresh n does not miss account a: it asks for it, or has got its balance, or gave up. */
  ghost predicate Covers(s: State, a: Account, n: nat) {
    && (n in s.unsettled ==> a in s.unsettled[n].asked)
    && (n in s.outcomes ==> s.outcomes[n].GaveUp? || (s.outcomes[n].Got? && a in s.outcomes[n].balances))
  }

  ghost predicate CoversSince(s: State, a: Account, first: nat) {
    a in s.monitored && 1 <= first <= s.newest && forall n :: n >= first ==> Covers(s, a, n)
  }

  lemma StepKeepsCover(s: State, e: Event, a: Account, first: nat)
    requires Inv(s) && Next(s, e).Some? && CoversSince(s, a, first) && e != Remove(a)
    ensures CoversSince(Next(s, e).value, a, first)
  {
    var t := Next(s, e).value;
    forall n | n >= first ensures Covers(t, a, n) { assert Covers(s, a, n); }
  }

  /** Account a was added as event i, and not removed since. */
  ghost predicate AddedAt(es: seq<Event>, a: Account, i: nat) {
    i < |es| && es[i] == Add(a) && forall k :: i < k < |es| ==> es[k] != Remove(a)
  }

  lemma {:induction false} AddedIsCovered(es: seq<Event>, a: Account, i: nat) returns (first: nat)
    requires Run(true, es).Some? && AddedAt(es, a, i)
    ensures CoversSince(Run(true, es).value, a, first)
  {
    var n := |es| - 1;
    var s := Run(true, es[..n]).value;
    EveryRunKeepsInv(true, es[..n]);
    StaysAsItIs(true, es[..n]);
    if i == n {
      first := s.newest + 1;
    } else {
      assert forall k :: 0 <= k < n ==> es[..n][k] == es[k];
      first := AddedIsCovered(es[..n], a, i);
      StepKeepsCover(s, es[n], a, first);
    }
  }

  /**
   MAIN RESULT. In whatever order overlapping refreshes settle: when `getBalances` returns, it returns the
   outcome of the refresh started last. Either one of that refresh's attempts got it, and it has the balance
   of every maker added and not removed since, or all five failed and it is empty.
   */
  lemma ReturnedBalancesCoverMakers(es: seq<Event>, a: Account, i: nat)
    requires Run(true, es).Some? && Run(true, es).value.unsettled == map[] && AddedAt(es, a, i)
    ensures Inv(Run(true, es).value)
    ensures var s := Run(true, es).value; var b := Returned(s);
            || (a in b && exists k :: 0 <= k < |es| && SuccessOf(es[k], s.newest, b))
            || (b == map[] && Failures(es, s.newest) == 5)
  {
    EveryRunKeepsInv(true, es);
    var first := AddedIsCovered(es, a, i);
    var s := Run(true, es).value;
    assert Covers(s, a, s.newest);
    EndsAreRecorded(true, es, s.newest);
  }
}
