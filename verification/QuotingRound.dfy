/**
 The collection of market makers' quotes (packages/swap/src/quoting/Quoter.ts, `collectMakerQuotes` and
 the `quote_response` handler). Every reply goes through one stream that all open rounds listen to; a
 reply that does not parse travels as a null quote that carries no request id. A round settles on an answer that
 makes the counts equal, or on its timer.
 */
module QuotingRound {
  import opened Prelude
  import opened LimitOrders

  type Id = string

  /** What a round can see, in order: a reply that did not parse, an answer to some request, its own timer. */
  datatype Event = Invalid | Answer(maker: Account, id: Id, legs: Reply, beta: bool) | Timeout

  datatype Round = Round(id: Id, formats: map<Account, Format>, expected: int, received: map<Account, Quote>)

  datatype State = Open(round: Round) | Settled(result: map<Account, Quote>)

  function Start(id: Id, formats: map<Account, Format>, expected: nat): Round {
    Round(id, formats, expected, map[])
  }

  // ---------- One round ----------

  predicate Mine(r: Round, e: Event) { e.Answer? && e.id == r.id }

  predicate FromAsked(r: Round, e: Event) { Mine(r, e) && e.maker in r.formats }

  function QuoteOf(r: Round, e: Event): Quote
    requires FromAsked(r, e)
  {
    Quote(Fit(r.formats[e.maker], e.legs), e.beta)
  }

  /** The subscriber of a round, before its completion test. */
  function Take(r: Round, e: Event): Round {
    if e.Invalid? then r.(expected := r.expected - 1)
    else if !Mine(r, e) then r
    else if e.maker in r.formats then r.(received := r.received[e.maker := QuoteOf(r, e)])
    else r.(expected := r.expected - 1)
  }

  function Step(s: State, e: Event): State {
    if s.Settled? then s
    else
      var r := Take(s.round, e);
      if e.Timeout? || (Mine(r, e) && |r.received| == r.expected) then Settled(r.received) else Open(r)
  }

  function Play(r: Round, es: seq<Event>): State {
    if |es| == 0 then Open(r) else Step(Play(r, es[..|es| - 1]), es[|es| - 1])
  }

  lemma PlayOne(r: Round, es: seq<Event>, e: Event)
    ensures Play(r, es + [e]) == Step(Play(r, es), e)
  {
    assert (es + [e])[..|es|] == es;
  }

  // ---------- What the history says ----------

  /** The newest answer of each maker that was asked. */
  function Latest(r: Round, es: seq<Event>): map<Account, Quote> {
    if |es| == 0 then map[]
    else
      var e := es[|es| - 1];
      var before := Latest(r, es[..|es| - 1]);
      if FromAsked(r, e) then before[e.maker := QuoteOf(r, e)] else before
  }

  /** Replies that lower the number the round waits for: any invalid one, and its answers from makers not asked. */
  predicate Lowers(r: Round, e: Event) { e.Invalid? || (Mine(r, e) && e.maker !in r.formats) }

  function Lowered(r: Round, es: seq<Event>): nat {
    if |es| == 0 then 0 else Lowered(r, es[..|es| - 1]) + (if Lowers(r, es[|es| - 1]) then 1 else 0)
  }

  ghost predicate AnsweredIn(r: Round, es: seq<Event>, a: Account) {
    exists n :: 0 <= n < |es| && FromAsked(r, es[n]) && es[n].maker == a
  }

  lemma {:induction false} LatestHoldsTheAnswered(r: Round, es: seq<Event>, a: Account)
    ensures a in Latest(r, es) <==> AnsweredIn(r, es, a)
  {
    if |es| > 0 {
      var k := |es| - 1;
      LatestHoldsTheAnswered(r, es[..k], a);
      if n :| 0 <= n < |es| && FromAsked(r, es[n]) && es[n].maker == a { assert n == k || es[..k][n] == es[n]; }
      if n :| 0 <= n < k && FromAsked(r, es[..k][n]) && es[..k][n].maker == a { assert es[n] == es[..k][n]; }
    }
  }

  ghost predicate LastAnswerAt(r: Round, es: seq<Event>, a: Account, n: nat) {
    && n < |es| && FromAsked(r, es[n]) && es[n].maker == a
    && forall m :: n < m < |es| && FromAsked(r, es[m]) ==> es[m].maker != a
  }

  /** The entry for a maker is the fitted form of the last answer it sent to this round. */
  lemma {:induction false} LatestIsTheLastAnswer(r: Round, es: seq<Event>, a: Account, n: nat)
    requires LastAnswerAt(r, es, a, n)
    ensures a in Latest(r, es) && Latest(r, es)[a] == QuoteOf(r, es[n])
  {
    var k := |es| - 1;
    if n < k {
      assert es[..k][n] == es[n];
      assert forall m :: n < m < k ==> es[..k][m] == es[m];
      LatestIsTheLastAnswer(r, es[..k], a, n);
    }
  }

  // ---------- When a round settles ----------

  /** The event at n ends the round: its timer, or an answer to it after which everybody still waited for has answered. */
  ghost predicate Ends(r: Round, es: seq<Event>, n: nat)
    requires n < |es|
  {
    es[n].Timeout? || (Mine(r, es[n]) && |Latest(r, es[..n + 1])| == r.expected - Lowered(r, es[..n + 1]))
  }

  ghost predicate FirstEnd(r: Round, es: seq<Event>, n: nat)
    requires n < |es|
  {
    Ends(r, es, n) && forall m :: 0 <= m < n ==> !Ends(r, es, m)
  }

  lemma EndsInPrefix(r: Round, es: seq<Event>, k: nat, n: nat)
    requires n < k <= |es|
    ensures Ends(r, es[..k], n) == Ends(r, es, n)
  {
    assert es[..k][..n + 1] == es[..n + 1];
  }

  /**
   MAIN RESULT. After any history of replies and its timer, a round is settled exactly when some event
   ended it; its result is then the latest answer of each asked maker up to the first such event, so
   later events change nothing. Until then it holds the latest answers so far and waits for the asked
   makers less the replies that lowered the count.
   */
  lemma {:induction false} SettlesAtFirstEnd(r: Round, es: seq<Event>)
    requires r.received == map[]
    ensures Play(r, es).Settled? <==> exists n :: 0 <= n < |es| && FirstEnd(r, es, n)
    ensures forall n :: 0 <= n < |es| && FirstEnd(r, es, n) ==> Play(r, es) == Settled(Latest(r, es[..n + 1]))
    ensures Play(r, es).Open? ==>
              Play(r, es) == Open(Round(r.id, r.formats, r.expected - Lowered(r, es), Latest(r, es)))
  {
    if |es| == 0 {
    } else {
      var k := |es| - 1;
      SettlesAtFirstEnd(r, es[..k]);
      FirstEndExtends(r, es);
      if Play(r, es[..k]).Open? {
        LastStepSettles(r, es);
        assert es[..k + 1] == es;
        assert forall n :: 0 <= n < |es| && FirstEnd(r, es, n) ==> n == k;
      } else {
        var n :| 0 <= n < k && FirstEnd(r, es[..k], n);
        assert FirstEnd(r, es, n);
        assert es[..k][..n + 1] == es[..n + 1];
        forall m | 0 <= m < |es| && FirstEnd(r, es, m) ensures m == n { OneFirstEnd(r, es, m, n); }
      }
    }
  }

  lemma FirstEndExtends(r: Round, es: seq<Event>)
    requires |es| > 0
    ensures forall n :: 0 <= n < |es| - 1 ==> FirstEnd(r, es[..|es| - 1], n) == FirstEnd(r, es, n)
    ensures FirstEnd(r, es, |es| - 1) <==>
              Ends(r, es, |es| - 1) && forall n :: 0 <= n < |es| - 1 ==> !FirstEnd(r, es, n)
  {
    var k := |es| - 1;
    forall n | 0 <= n < k ensures Ends(r, es[..k], n) == Ends(r, es, n) { EndsInPrefix(r, es, k, n); }
    if m :| 0 <= m < k && Ends(r, es, m) { var n := Earliest(r, es, m); }
  }

  lemma OneFirstEnd(r: Round, es: seq<Event>, m: nat, n: nat)
    requires m < |es| && n < |es| && FirstEnd(r, es, m) && FirstEnd(r, es, n)
    ensures m == n
  {
  }

  lemma {:induction false} Earliest(r: Round, es: seq<Event>, m: nat) returns (n: nat)
    requires m < |es| && Ends(r, es, m)
    ensures n <= m && FirstEnd(r, es, n)
  {
    if k :| 0 <= k < m && Ends(r, es, k) { n := Earliest(r, es, k); } else { n := m; }
  }

  lemma LastStepSettles(r: Round, es: seq<Event>)
    requires |es| > 0 && r.received == map[]
    requires var k := |es| - 1;
             Play(r, es[..k]) == Open(Round(r.id, r.formats, r.expected - Lowered(r, es[..k]), Latest(r, es[..k])))
    ensures Play(r, es) == if Ends(r, es, |es| - 1) then Settled(Latest(r, es))
                           else Open(Round(r.id, r.formats, r.expected - Lowered(r, es), Latest(r, es)))
  {
    assert es[..|es| - 1 + 1] == es;
  }

  // ---------- Rounds without stray replies ----------

  ghost predicate Clean(r: Round, es: seq<Event>) { forall n :: 0 <= n < |es| ==> !Lowers(r, es[n]) }

  ghost predicate AllAnswered(r: Round, es: seq<Event>) { forall a :: a in r.formats ==> AnsweredIn(r, es, a) }

  /**
   MAIN RESULT. When no invalid reply and no answer from a maker that was not asked arrives, a round that
   asked one request per maker settles exactly on its timer or when every asked maker has answered with
   its id. (With two requests to one account it never settles early.)
   */
  lemma CleanRoundWaitsForAll(r: Round, es: seq<Event>)
    requires r.received == map[] && Clean(r, es) && 0 < |r.formats| <= r.expected
    ensures Play(r, es).Settled? <==> Timeout in es || (r.expected == |r.formats| && AllAnswered(r, es))
  {
    SettlesAtFirstEnd(r, es);
    if Play(r, es).Settled? {
      var n :| 0 <= n < |es| && FirstEnd(r, es, n);
      if !es[n].Timeout? {
        CleanEnd(r, es, n);
        forall a | a in r.formats ensures AnsweredIn(r, es, a) {
          var m :| 0 <= m < |es[..n + 1]| && FromAsked(r, es[..n + 1][m]) && es[..n + 1][m].maker == a;
          assert es[m] == es[..n + 1][m];
        }
      }
    } else {
      if Timeout in es {
        var m :| 0 <= m < |es| && es[m] == Timeout;
        assert Ends(r, es, m);
        var n := Earliest(r, es, m);
      }
      if r.expected == |r.formats| && AllAnswered(r, es) {
        var m := LastAnswer(r, es);
        CleanEnd(r, es, m);
        var n := Earliest(r, es, m);
      }
    }
  }

  /** In a clean history an answer ends the round exactly when everybody asked has answered by then. */
  lemma CleanEnd(r: Round, es: seq<Event>, n: nat)
    requires n < |es| && Clean(r, es) && Mine(r, es[n]) && 0 < |r.formats| <= r.expected
    ensures Ends(r, es, n) <==> r.expected == |r.formats| && AllAnswered(r, es[..n + 1])
  {
    var upTo := es[..n + 1];
    assert Clean(r, upTo);
    CleanKeepsCount(r, upTo);
    forall a ensures a in Latest(r, upTo) <==> AnsweredIn(r, upTo, a) { LatestHoldsTheAnswered(r, upTo, a); }
    assert Latest(r, upTo).Keys <= r.formats.Keys;
    SameSizeSameSet(Latest(r, upTo).Keys, r.formats.Keys);
    assert AllAnswered(r, upTo) <==> Latest(r, upTo).Keys == r.formats.Keys;
    assert |Latest(r, upTo)| == |Latest(r, upTo).Keys| && |r.formats| == |r.formats.Keys|;
  }

  lemma {:induction false} CleanKeepsCount(r: Round, es: seq<Event>)
    requires Clean(r, es)
    ensures Lowered(r, es) == 0
  {
    if |es| > 0 {
      assert forall n :: 0 <= n < |es| - 1 ==> es[..|es| - 1][n] == es[n];
      CleanKeepsCount(r, es[..|es| - 1]);
    }
  }

  lemma SameSizeSameSet<T>(a: set<T>, b: set<T>)
    requires a <= b
    ensures |a| <= |b| && (|a| == |b| <==> a == b)
  {
    assert b == a + (b - a);
  }

  /** The answer that completes the set: the last one addressed to this round. */
  lemma {:induction false} LastAnswer(r: Round, es: seq<Event>) returns (m: nat)
    requires |r.formats| > 0 && AllAnswered(r, es)
    ensures m < |es| && Mine(r, es[m]) && AllAnswered(r, es[..m + 1])
  {
    assert r.formats.Keys != {};
    var a :| a in r.formats;
    assert AnsweredIn(r, es, a);
    var k := |es| - 1;
    if Mine(r, es[k]) {
      m := k;
      assert es[..k + 1] == es;
    } else {
      forall b | b in r.formats ensures AnsweredIn(r, es[..k], b) {
        var n :| 0 <= n < |es| && FromAsked(r, es[n]) && es[n].maker == b;
        assert es[..k][n] == es[n];
      }
      m := LastAnswer(r, es[..k]);
      assert es[..k][..m + 1] == es[..m + 1];
    }
  }

  // ---------- One stray reply is enough to spoil a round ----------

  /** What a round is for: it has ended exactly if its timer fired or everybody asked has answered. */
  ghost predicate KeepsPromise(r: Round, es: seq<Event>) {
    Play(r, es).Settled? <==> Timeout in es || AllAnswered(r, es)
  }

  /** Whatever further replies come, none of them stray, the round ends as it should. */
  ghost predicate StaysTrue(r: Round, es: seq<Event>) {
    forall more :: Clean(r, more) ==> KeepsPromise(r, es + more)
  }

  lemma HistoryAppends(r: Round, es: seq<Event>, e: Event)
    ensures Lowered(r, es + [e]) == Lowered(r, es) + (if Lowers(r, e) then 1 else 0)
    ensures Latest(r, es + [e]) == if FromAsked(r, e) then Latest(r, es)[e.maker := QuoteOf(r, e)] else Latest(r, es)
  {
    assert (es + [e])[..|es|] == es;
  }

  lemma {:induction false} NothingLoweredIsClean(r: Round, es: seq<Event>)
    requires Lowered(r, es) == 0
    ensures Clean(r, es)
  {
    if |es| > 0 {
      NothingLoweredIsClean(r, es[..|es| - 1]);
      assert forall n :: 0 <= n < |es| - 1 ==> es[..|es| - 1][n] == es[n];
    }
  }

  /** All have answered exactly if there are as many entries as makers asked. */
  lemma AllAnsweredIsCount(r: Round, es: seq<Event>)
    ensures Latest(r, es).Keys <= r.formats.Keys && |Latest(r, es)| <= |r.formats|
    ensures AllAnswered(r, es) <==> |Latest(r, es)| == |r.formats|
  {
    forall a ensures a in Latest(r, es) <==> AnsweredIn(r, es, a) { LatestHoldsTheAnswered(r, es, a); }
    SameSizeSameSet(Latest(r, es).Keys, r.formats.Keys);
    assert |Latest(r, es)| == |Latest(r, es).Keys| && |r.formats| == |r.formats.Keys|;
  }

  lemma SomeAreLeft<T>(a: set<T>, b: set<T>)
    requires a <= b && |a| < |b|
    ensures b - a != {}
  {
    assert b == a + (b - a);
  }

  /** A maker that has not answered yet does, with nothing to offer. */
  lemma OneMoreAnswers(r: Round, es: seq<Event>) returns (e: Event)
    requires |Latest(r, es)| < |r.formats|
    ensures FromAsked(r, e) && !Lowers(r, e) && |Latest(r, es + [e])| == |Latest(r, es)| + 1
  {
    AllAnsweredIsCount(r, es);
    var silent := r.formats.Keys - Latest(r, es).Keys;
    assert |Latest(r, es)| == |Latest(r, es).Keys| && |r.formats| == |r.formats.Keys|;
    SomeAreLeft(Latest(r, es).Keys, r.formats.Keys);
    var a :| a in silent;
    e := Answer(a, r.id, [[]], false);
    HistoryAppends(r, es, e);
  }

  /** The next answer ends an open round exactly if the number of those still waited for is then reached. */
  lemma AnswerEndsByCount(r: Round, es: seq<Event>, e: Event)
    requires r.received == map[] && Play(r, es).Open? && FromAsked(r, e)
    ensures Play(r, es + [e]).Settled? <==> |Latest(r, es + [e])| == r.expected - Lowered(r, es + [e])
  {
    SettlesAtFirstEnd(r, es);
    PlayOne(r, es, e);
    HistoryAppends(r, es, e);
  }

  lemma OpenHeardNoTimer(r: Round, es: seq<Event>)
    requires r.received == map[] && Play(r, es).Open?
    ensures Timeout !in es
  {
    SettlesAtFirstEnd(r, es);
    if m :| 0 <= m < |es| && es[m] == Timeout {
      assert Ends(r, es, m);
      var n := Earliest(r, es, m);
    }
  }

  /** Let the makers answer one after the other: the round ends without one of them, or waits after the last. */
  lemma {:induction false} StrayRepliesSpoil(r: Round, es: seq<Event>) returns (more: seq<Event>)
    requires r.received == map[] && r.expected == |r.formats| && Play(r, es).Open? && Lowered(r, es) > 0
    ensures Clean(r, more) && !KeepsPromise(r, es + more)
    decreases |r.formats| - |Latest(r, es)|
  {
    AllAnsweredIsCount(r, es);
    OpenHeardNoTimer(r, es);
    if |Latest(r, es)| == |r.formats| {
      more := [];
      assert es + more == es;
    } else {
      var e := OneMoreAnswers(r, es);
      HistoryAppends(r, es, e);
      AnswerEndsByCount(r, es, e);
      AllAnsweredIsCount(r, es + [e]);
      if Play(r, es + [e]).Settled? {
        more := [e];
      } else {
        var rest := StrayRepliesSpoil(r, es + [e]);
        more := [e] + rest;
        assert es + more == es + [e] + rest;
      }
    }
  }

  /**
   MAIN RESULT. A round that asked each maker once and is still open ends as it should, whatever the makers do
   from now on, if and only if it has heard no stray reply so far. A single one is enough to spoil it: there are
   answers after which it has ended without a maker it asked, or waits although all of them have answered.
   */
  lemma PromiseKeptExactlyIfClean(r: Round, es: seq<Event>)
    requires r.received == map[] && 0 < |r.formats| == r.expected && Play(r, es).Open?
    ensures StaysTrue(r, es) <==> Clean(r, es)
  {
    if Clean(r, es) {
      forall more | Clean(r, more) ensures KeepsPromise(r, es + more) {
        CleanRoundWaitsForAll(r, es + more);
      }
    } else {
      if Lowered(r, es) == 0 { NothingLoweredIsClean(r, es); }
      var more := StrayRepliesSpoil(r, es);
    }
  }

  /** The guards in `Clean` are needed: a reply nobody can attribute makes a round settle without a maker that was asked. */
  lemma InvalidReplyCutsARoundShort() returns (r: Round, es: seq<Event>)
    ensures r == Start("id", map["A" := AsSent, "B" := AsSent], 2)
    ensures Timeout !in es && Play(r, es).Settled? && !AllAnswered(r, es)
  {
    r := Start("id", map["A" := AsSent, "B" := AsSent], 2);
    var answer := Answer("A", "id", [[]], false);
    es := [Invalid, answer];
    assert es[..1] == [Invalid] && es[..1][..0] == [];
    assert Play(r, es[..1]) == Open(r.(expected := 1));
    var received := map["A" := Quote([[]], false)];
    assert Take(r.(expected := 1), answer).received == received;
    assert |received| == 1;
    assert Play(r, es) == Settled(received);
    if AnsweredIn(r, es, "B") { assert false; }
  }

  /** Or the count is missed: the only maker asked has answered, and the round still waits for its timer. */
  lemma InvalidReplyMakesARoundWait() returns (r: Round, es: seq<Event>)
    ensures r == Start("id", map["A" := AsSent], 1)
    ensures AllAnswered(r, es) && Timeout !in es && Play(r, es).Open?
  {
    r := Start("id", map["A" := AsSent], 1);
    var answer := Answer("A", "id", [[]], false);
    es := [Invalid, answer];
    assert es[..1] == [Invalid] && es[..1][..0] == [];
    assert Play(r, es[..1]) == Open(r.(expected := 0));
    var received := map["A" := Quote([[]], false)];
    assert Take(r.(expected := 0), answer).received == received;
    assert |received| == 1;
    assert Play(r, es).Open?;
    assert FromAsked(r, es[1]);
    assert AnsweredIn(r, es, "A");
  }

  // ---------- From a round to its orders ----------

  /** The round that `collectMakerQuotes` opens for these sockets and legs. */
  ghost predicate OpenedFor(r: Round, sockets: seq<Maker>, legs: seq<Leg>)
    requires 1 <= |legs| <= 2
  {
    r.received == map[] && r.formats == AskedFormats(sockets, legs) && r.expected == AskedCount(sockets, legs)
  }

  /** For a round as it is opened: with one socket per account it waits for exactly the makers asked, otherwise for its timer. */
  lemma OpenedRoundSettles(r: Round, es: seq<Event>, sockets: seq<Maker>, legs: seq<Leg>)
    requires 1 <= |legs| <= 2 && OpenedFor(r, sockets, legs) && |r.formats| > 0 && Clean(r, es)
    ensures DistinctAccounts(sockets) ==> (Play(r, es).Settled? <==> Timeout in es || AllAnswered(r, es))
    ensures |r.formats| != r.expected ==> (Play(r, es).Settled? <==> Timeout in es)
  {
    AskedOnce(sockets, legs);
    CleanRoundWaitsForAll(r, es);
  }

  ghost predicate Lists(quotes: seq<(Account, Quote)>, result: map<Account, Quote>) {
    forall q :: q in quotes ==> q.0 in result && result[q.0] == q.1
  }

  lemma {:induction false} LatestAreFitted(r: Round, es: seq<Event>, a: Account) returns (n: nat)
    requires a in Latest(r, es)
    ensures n < |es| && FromAsked(r, es[n]) && es[n].maker == a && Latest(r, es)[a] == QuoteOf(r, es[n])
  {
    var k := |es| - 1;
    if FromAsked(r, es[k]) && es[k].maker == a { n := k; } else { n := LatestAreFitted(r, es[..k], a); }
  }

  /** The quotes of a settled round are fitted answers of makers it asked. */
  lemma SettledQuotesAreAnswers(r: Round, es: seq<Event>, sockets: seq<Maker>, legs: seq<Leg>, quotes: seq<(Account, Quote)>)
    requires 1 <= |legs| <= 2 && OpenedFor(r, sockets, legs)
    requires Play(r, es).Settled? && Lists(quotes, Play(r, es).result)
    ensures RoundQuotes(sockets, legs, quotes)
    ensures forall q :: q in quotes ==> FromHistory(r, es, q)
  {
    SettlesAtFirstEnd(r, es);
    var n :| 0 <= n < |es| && FirstEnd(r, es, n);
    forall q | q in quotes
      ensures exists f: Format, reply: Reply :: AskedAs(sockets, legs, q.0, f) && q.1.legs == Fit(f, reply)
      ensures FromHistory(r, es, q)
    {
      var m := LatestAreFitted(r, es[..n + 1], q.0);
      assert es[m] == es[..n + 1][m];
      AskedFormatsAreAsked(sockets, legs, q.0);
      assert AskedAs(sockets, legs, q.0, r.formats[q.0]) && q.1.legs == Fit(r.formats[q.0], es[m].legs);
    }
  }

  ghost predicate FromHistory(r: Round, es: seq<Event>, q: (Account, Quote)) {
    exists n :: 0 <= n < |es| && FromAsked(r, es[n]) && es[n].maker == q.0 && QuoteOf(r, es[n]) == q.1
  }

  /** Answer n of a history is why there is order o: who sent it, for which leg, and what the order says. */
  ghost predicate Justifies(r: Round, e: Event, m: Maker, legs: seq<Leg>, c: Context, i: nat, level: Level, o: Order)
    requires ValidLegs(legs)
  {
    && e.Answer? && e.id == r.id && e.maker == m.account && !e.beta
    && i < |legs| && SentFor(m, legs, e.legs, i, level)
    && WithinBalance(c, e.maker, legs[i], level.amount) && Describes(c, e.maker, legs[i], level, o)
  }

  /**
   MAIN RESULT. Every limit order made after a round comes from an answer that a non-beta maker sent to this
   very round: from a level of the list it sent for the order's leg, which it was asked for because it quotes
   its base asset.
   */
  lemma OrdersComeFromAnswers(r: Round, es: seq<Event>, sockets: seq<Maker>, legs: seq<Leg>,
                              quotes: seq<(Account, Quote)>, c: Context, o: Order)
      returns (n: nat, k: nat, i: nat, level: Level)
    requires ValidLegs(legs) && OpenedFor(r, sockets, legs)
    requires Play(r, es).Settled? && Lists(quotes, Play(r, es).result) && o in AllOrders(c, legs, quotes)
    ensures n < |es| && k < |sockets| && Justifies(r, es[n], sockets[k], legs, c, i, level, o)
  {
    SettledQuotesAreAnswers(r, es, sockets, legs, quotes);
    OrderOrigins(c, legs, quotes, o);
    i :| 0 <= i < |legs| && LegGives(c, legs[i], i, quotes, o);
    var q;
    q, level :| q in quotes && MadeFrom(c, legs[i], i, q, level, o);
    assert FromHistory(r, es, q);
    n :| 0 <= n < |es| && FromAsked(r, es[n]) && es[n].maker == q.0 && QuoteOf(r, es[n]) == q.1;
    AskedFormatsAreAsked(sockets, legs, q.0);
    k :| 0 <= k < |sockets| && sockets[k].account == q.0 && Ask(sockets[k], legs) == Some(r.formats[q.0]);
    FittedIsSent(sockets[k], legs, es[n].legs, i, level);
    OrderIsAsDescribed(c, q.0, legs[i], level, o);
  }

  /** The quotes list the whole result, each entry as often as need be. */
  ghost predicate ListsAll(quotes: seq<(Account, Quote)>, result: map<Account, Quote>) {
    Lists(quotes, result) && forall a :: a in result ==> (a, result[a]) in quotes
  }

  /**
   MAIN RESULT. And nothing is lost: every level a non-beta maker sent for a leg, in its last answer before the
   round ended, becomes the order it describes, if it is within the maker's balance.
   */
  lemma AnswersBecomeOrders(r: Round, es: seq<Event>, end: nat, sockets: seq<Maker>, legs: seq<Leg>,
                            quotes: seq<(Account, Quote)>, c: Context, n: nat, k: nat, i: nat, level: Level, o: Order)
    requires ValidLegs(legs) && OpenedFor(r, sockets, legs) && DistinctAccounts(sockets)
    requires end < |es| && FirstEnd(r, es, end) && n <= end && k < |sockets|
    requires Justifies(r, es[n], sockets[k], legs, c, i, level, o)
    requires forall m :: n < m <= end && Mine(r, es[m]) ==> es[m].maker != es[n].maker
    requires Play(r, es).Settled? ==> ListsAll(quotes, Play(r, es).result)
    ensures Play(r, es).Settled? && o in AllOrders(c, legs, quotes)
  {
    SettlesAtFirstEnd(r, es);
    var a, upTo := es[n].maker, es[..end + 1];
    QuotedLegsAreThose(sockets[k], legs, i);
    AskedWithFormat(sockets, legs, k);
    assert upTo[n] == es[n] && forall m :: n < m < |upTo| ==> upTo[m] == es[m];
    LatestIsTheLastAnswer(r, upTo, a, n);
    var q := (a, Latest(r, upTo)[a]);
    FittedIsSent(sockets[k], legs, es[n].legs, i, level);
    OrderIsAsDescribed(c, a, legs[i], level, o);
    assert q in quotes && MadeFrom(c, legs[i], i, q, level, o);
    assert LegGives(c, legs[i], i, quotes, o);
    OrderOrigins(c, legs, quotes, o);
  }

  lemma AskedWithFormat(sockets: seq<Maker>, legs: seq<Leg>, k: nat)
    requires 1 <= |legs| <= 2 && DistinctAccounts(sockets) && k < |sockets| && Ask(sockets[k], legs).Some?
    ensures sockets[k].account in AskedFormats(sockets, legs)
    ensures Ask(sockets[k], legs) == Some(AskedFormats(sockets, legs)[sockets[k].account])
  {
    var a := sockets[k].account;
    AskedFormatsAreAsked(sockets, legs, a);
    assert AskedAs(sockets, legs, a, Ask(sockets[k], legs).value);
    var other :| 0 <= other < |sockets| && sockets[other].account == a
                 && Ask(sockets[other], legs) == Some(AskedFormats(sockets, legs)[a]);
  }

  // ---------- All rounds together ----------

  /** What a connected maker may send. */
  type Message = e: Event | !e.Timeout? witness Invalid

  class Quoter {
    /** Keys of `inflightRequests`. */
    var inflight: set<Id>
    /** Each collection that listens or has listened: settled once its promise is resolved and it has unsubscribed. */
    var rounds: map<Id, State>

    /** For the specification: the rounds as they began, and what arrived since. */
    ghost var began: map<Id, Round>
    ghost var seen: map<Id, seq<Event>>

    ghost predicate Valid()
      reads this
    {
      && seen.Keys == began.Keys == rounds.Keys
      && AllTracked(began, seen, rounds)
      && (forall id :: id in rounds ==> (rounds[id].Open? <==> id in inflight))
    }

    constructor ()
      ensures Valid() && inflight == {} && began == map[]
    {
      inflight, rounds, began, seen := {}, map[], map[], map[];
    }

    /** The start of `collectMakerQuotes`, up to the lookup of the sockets. */
    method Announce(id: Id, connected: nat) returns (goesOn: bool)
      requires Valid() && id !in began
      modifies this
      ensures Valid() && goesOn == (connected > 0)
      ensures inflight == old(inflight) + (if goesOn then {id} else {})
      ensures rounds == old(rounds) && began == old(began) && seen == old(seen)
    {
      goesOn := connected > 0;
      if goesOn { inflight := inflight + {id}; }
    }

    /** The rest of it: ask, then either give up or listen. */
    method Ask(id: Id, sockets: seq<Maker>, legs: seq<Leg>) returns (asked: bool)
      requires Valid() && id in inflight && id !in began && 1 <= |legs| <= 2
      modifies this
      ensures Valid()
      ensures asked <==> exists k :: 0 <= k < |sockets| && LimitOrders.Ask(sockets[k], legs).Some?
      ensures !asked ==> inflight == old(inflight) - {id} && rounds == old(rounds) && began == old(began) && seen == old(seen)
      ensures asked ==> inflight == old(inflight) && id in began && began == old(began)[id := began[id]]
      ensures asked ==> OpenedFor(began[id], sockets, legs) && 0 < |began[id].formats| <= began[id].expected
      ensures asked && DistinctAccounts(sockets) ==> |began[id].formats| == began[id].expected
      ensures asked ==> rounds == old(rounds)[id := Open(began[id])] && seen == old(seen)[id := []]
    {
      var formats, expected, _ := AskMakers(sockets, legs);
      NobodyAsked(sockets, legs);
      AskedOnce(sockets, legs);
      asked := expected > 0;
      if asked {
        var r := Start(id, formats, expected);
        rounds, began, seen := rounds[id := Open(r)], began[id := r], seen[id := []];
        NewRoundIsTracked(r);
      } else {
        inflight := inflight - {id};
      }
    }

    /** The subscriber or the timer of one round runs. */
    method Notify(id: Id, e: Event)
      requires id in rounds && rounds[id].Open?
      modifies this
      ensures began == old(began) && seen == old(seen)
      ensures rounds == old(rounds)[id := Step(old(rounds[id]), e)]
      ensures inflight == if rounds[id].Open? then old(inflight) else old(inflight) - {id}
    {
      var r := Take(rounds[id].round, e);
      if e.Timeout? || (Mine(r, e) && |r.received| == r.expected) {
        rounds := rounds[id := Settled(r.received)];
        inflight := inflight - {id};
      } else {
        rounds := rounds[id := Open(r)];
      }
    }

    /** The timer of an open round fires. */
    method Expire(id: Id)
      requires Valid() && id in rounds && rounds[id].Open?
      modifies this
      ensures Valid() && began == old(began) && seen == old(seen)[id := old(seen[id]) + [Timeout]]
      ensures id !in inflight && rounds[id].Settled? && rounds == old(rounds)[id := rounds[id]]
    {
      TrackStep(began[id], seen[id], id, rounds[id], Timeout);
      Notify(id, Timeout);
      seen := seen[id := seen[id] + [Timeout]];
    }

    /** The `quote_response` handler: a parsed answer to a request not in flight is dropped, the rest reach every open round. */
    method Respond(m: Message)
      requires Valid()
      modifies this
      ensures Valid() && began == old(began)
      ensures seen == Heard(old(seen), m)
      ensures forall id :: id in began ==> rounds[id] == Step(old(rounds[id]), m)
    {
      AllStep(began, seen, rounds, m);
      Deliver(m);
      seen := Heard(seen, m);
    }

    method Deliver(e: Event)
      requires Valid() && !e.Timeout?
      modifies this
      ensures began == old(began) && seen == old(seen) && rounds.Keys == old(rounds.Keys)
      ensures forall id :: id in rounds ==> rounds[id] == Step(old(rounds[id]), e)
      ensures forall id :: id in rounds ==> (rounds[id].Open? <==> id in inflight)
    {
      if e.Invalid? || e.id in inflight {
        Broadcast(e);
      } else {
        AllOverlook(began, seen, rounds, inflight, e);
      }
    }

    /** `quotes$.next`: every subscriber runs once. */
    method Broadcast(e: Event)
      requires forall id :: id in rounds ==> (rounds[id].Open? <==> id in inflight)
      modifies this
      ensures began == old(began) && seen == old(seen) && rounds.Keys == old(rounds.Keys)
      ensures forall id :: id in rounds ==> rounds[id] == Step(old(rounds[id]), e)
      ensures forall id :: id in rounds ==> (rounds[id].Open? <==> id in inflight)
    {
      var todo := set id | id in rounds && rounds[id].Open?;
      while todo != {}
        invariant began == old(began) && seen == old(seen) && rounds.Keys == old(rounds.Keys)
        invariant forall id :: id in todo ==> id in rounds && rounds[id].Open?
        invariant forall id :: id in rounds ==> rounds[id] == if id in todo then old(rounds[id]) else Step(old(rounds[id]), e)
        invariant forall id :: id in rounds ==> (rounds[id].Open? <==> id in inflight)
      {
        var id :| id in todo;
        todo := todo - {id};
        Notify(id, e);
      }
    }
  }

  /** State s is what history es makes of round r, which is known as id. */
  ghost predicate Tracked(r: Round, es: seq<Event>, id: Id, s: State) {
    r.id == id && r.received == map[] && Play(r, es) == s && (s.Open? ==> s.round.id == id)
  }

  ghost predicate AllTracked(began: map<Id, Round>, seen: map<Id, seq<Event>>, rounds: map<Id, State>) {
    forall id :: id in began ==> id in seen && id in rounds && Tracked(began[id], seen[id], id, rounds[id])
  }

  /** Every round that has begun hears of e. */
  ghost function Heard(seen: map<Id, seq<Event>>, e: Event): map<Id, seq<Event>> {
    map id | id in seen :: seen[id] + [e]
  }

  lemma AllStep(began: map<Id, Round>, seen: map<Id, seq<Event>>, rounds: map<Id, State>, e: Event)
    requires AllTracked(began, seen, rounds)
    ensures forall id :: id in began ==> id in seen && id in rounds && Tracked(began[id], Heard(seen, e)[id], id, Step(rounds[id], e))
  {
    forall id | id in began ensures Tracked(began[id], Heard(seen, e)[id], id, Step(rounds[id], e)) {
      TrackStep(began[id], seen[id], id, rounds[id], e);
    }
  }

  lemma AllOverlook(began: map<Id, Round>, seen: map<Id, seq<Event>>, rounds: map<Id, State>, inflight: set<Id>, e: Event)
    requires AllTracked(began, seen, rounds) && e.Answer? && e.id !in inflight
    requires forall id :: id in began && rounds[id].Open? ==> id in inflight
    ensures forall id :: id in began ==> Step(rounds[id], e) == rounds[id]
  {
    forall id | id in began ensures Step(rounds[id], e) == rounds[id] {
      Overlooked(began[id], seen[id], id, rounds[id], e);
    }
  }

  lemma NewRoundIsTracked(r: Round)
    requires r.received == map[]
    ensures Tracked(r, [], r.id, Open(r))
  {
  }

  lemma TrackStep(r: Round, es: seq<Event>, id: Id, s: State, e: Event)
    requires Tracked(r, es, id, s)
    ensures Tracked(r, es + [e], id, Step(s, e))
  {
    PlayOne(r, es, e);
  }

  /** An answer addressed to another round leaves this one as it is. */
  lemma Overlooked(r: Round, es: seq<Event>, id: Id, s: State, e: Event)
    requires Tracked(r, es, id, s) && e.Answer? && (s.Open? ==> e.id != id)
    ensures Step(s, e) == s
  {
  }

  lemma {:induction false} NobodyAsked(sockets: seq<Maker>, legs: seq<Leg>)
    requires 1 <= |legs| <= 2
    ensures AskedCount(sockets, legs) > 0 <==> exists k :: 0 <= k < |sockets| && LimitOrders.Ask(sockets[k], legs).Some?
  {
    if |sockets| > 0 {
      var n := |sockets| - 1;
      NobodyAsked(sockets[..n], legs);
      if k :| 0 <= k < n && LimitOrders.Ask(sockets[k], legs).Some? { assert sockets[..n][k] == sockets[k]; }
    }
  }
}
