/**
 Connected market makers (packages/swap/src/quoting/Quoter.ts, the connection handlers; QuoteRequest.ts,
 `getTotalLiquidity`).

 `accountIdToSocket` is a list here, in insertion order. A socket is identified by `sid`; two sockets of one
 account are different sockets. The handlers of a socket run only if they were attached.
 */
module QuoterRegistry {
  import opened Prelude
  import L = LimitOrders
  import B = BalanceTracker
  import Q = QuotingRound

  type Account = L.Account
  type Asset = L.Asset

  // ---------- Fractions ----------

  predicate Proper(f: Fraction) { f.den > 0 }

  function Plus(f: Fraction, g: Fraction): Fraction { Fraction(f.num * g.den + g.num * f.den, f.den * g.den) }

  predicate AtMost(f: Fraction, g: Fraction) { f.num * g.den <= g.num * f.den }

  predicate Same(f: Fraction, g: Fraction) { f.num * g.den == g.num * f.den }

  const ZERO := Fraction(0, 1)
  const ONE := Fraction(1, 1)

  function Largest(f: Fraction, g: Fraction): Fraction { if AtMost(g, f) then f else g }

  // ---------- Sockets ----------

  datatype Socket = Socket(sid: nat, data: L.Maker)

  predicate ProperSocket(k: Socket) { forall a :: a in k.data.replenishment ==> Proper(k.data.replenishment[a]) }

  function FactorOf(k: Socket, a: Asset): Fraction { if a in k.data.replenishment then k.data.replenishment[a] else ZERO }

  function Sum(ks: seq<Socket>, a: Asset): Fraction {
    if |ks| == 0 then ZERO else Plus(Sum(ks[..|ks| - 1], a), FactorOf(ks[|ks| - 1], a))
  }

  function Replenishment(ks: seq<Socket>, a: Asset): Fraction { Largest(Sum(ks, a), ONE) }

  ghost predicate AllProper(ks: seq<Socket>) { forall k :: k in ks ==> ProperSocket(k) }

  lemma {:induction false} SumIsProper(ks: seq<Socket>, a: Asset)
    requires AllProper(ks)
    ensures Proper(Sum(ks, a)) && Proper(Replenishment(ks, a)) && AtMost(ONE, Replenishment(ks, a))
  {
    if |ks| > 0 {
      assert ks[|ks| - 1] in ks;
      SumIsProper(ks[..|ks| - 1], a);
      PlusIsProper(Sum(ks[..|ks| - 1], a), FactorOf(ks[|ks| - 1], a));
    }
  }

  lemma PlusIsProper(f: Fraction, g: Fraction)
    requires Proper(f) && Proper(g)
    ensures Proper(Plus(f, g)) && AtMost(f, Plus(f, g))
  {
    var n, m := f.num * g.den + g.num * f.den, f.den * g.den;
    assert m > 0 by { Positive(f.den, g.den); }
    assert f.num * m == f.num * g.den * f.den;
    assert n * f.den == f.num * g.den * f.den + g.num * f.den * f.den;
  }

  lemma Positive(a: nat, b: nat)
    requires a > 0 && b > 0
    ensures a * b > 0
  {
  }

  // ---------- What the fractions stand for ----------

  function Value(f: Fraction): real
    requires Proper(f)
  {
    f.num as real / f.den as real
  }

  /** The sum of the factors that makers have for an asset. */
  ghost function FactorTotal(ks: seq<Socket>, a: Asset): real
    requires AllProper(ks)
  {
    if |ks| == 0 then 0.0
    else
      var k := ks[|ks| - 1];
      assert k in ks;
      var before := FactorTotal(ks[..|ks| - 1], a);
      if a in k.data.replenishment
      then before + k.data.replenishment[a].num as real / k.data.replenishment[a].den as real
      else before
  }

  lemma QuotientIs(x: real, n: real, d: real)
    requires d > 0.0 && x * d == n
    ensures n / d == x
  {
  }

  lemma PlusAdds(f: Fraction, g: Fraction)
    requires Proper(f) && Proper(g)
    ensures Proper(Plus(f, g)) && Value(Plus(f, g)) == Value(f) + Value(g)
  {
    PlusIsProper(f, g);
    var fn, fd, gn, gd := f.num as real, f.den as real, g.num as real, g.den as real;
    var x, y := Value(f), Value(g);
    assert x * fd == fn && y * gd == gn;
    assert (f.num * g.den + g.num * f.den) as real == fn * gd + gn * fd;
    assert (f.den * g.den) as real == fd * gd;
    assert (x + y) * (fd * gd) == fn * gd + gn * fd by {
      assert x * (fd * gd) == (x * fd) * gd;
      assert y * (fd * gd) == (y * gd) * fd;
      assert (x + y) * (fd * gd) == x * (fd * gd) + y * (fd * gd);
    }
    QuotientIs(x + y, fn * gd + gn * fd, fd * gd);
  }

  /** The sum kept as a fraction is that total; a maker without an entry for the asset counts nothing. */
  lemma {:induction false} SumIsTotal(ks: seq<Socket>, a: Asset)
    requires AllProper(ks)
    ensures Proper(Sum(ks, a)) && Value(Sum(ks, a)) == FactorTotal(ks, a)
  {
    SumIsProper(ks, a);
    if |ks| > 0 {
      var k := ks[|ks| - 1];
      assert k in ks;
      SumIsTotal(ks[..|ks| - 1], a);
      PlusAdds(Sum(ks[..|ks| - 1], a), FactorOf(k, a));
    }
  }

  lemma AtLeastOne(f: Fraction)
    requires Proper(f)
    ensures f.num >= f.den <==> Value(f) >= 1.0
  {
    var n, d := f.num as real, f.den as real;
    assert Value(f) * d == n;
    if Value(f) >= 1.0 { assert Value(f) * d >= d; } else { assert Value(f) * d < d; }
  }

  /** max(1, total). */
  ghost function AtLeastOnce(total: real): real { if total >= 1.0 then total else 1.0 }

  /** MAIN RESULT. The fraction stored for an asset is max(1, the total of the registered makers' factors). */
  lemma ReplenishmentIsTotal(ks: seq<Socket>, a: Asset)
    requires AllProper(ks)
    ensures Proper(Replenishment(ks, a))
    ensures Value(Replenishment(ks, a)) == AtLeastOnce(FactorTotal(ks, a))
  {
    SumIsTotal(ks, a);
    SumIsProper(ks, a);
    AtLeastOne(Sum(ks, a));
  }

  // ---------- The registry as a value ----------

  predicate Has(ks: seq<Socket>, account: Account) { exists i :: 0 <= i < |ks| && ks[i].data.account == account }

  function Without(ks: seq<Socket>, account: Account): seq<Socket> {
    if |ks| == 0 then []
    else Without(ks[..|ks| - 1], account) + (if ks[|ks| - 1].data.account == account then [] else [ks[|ks| - 1]])
  }

  datatype Event = Connect(socket: Socket) | Disconnect(socket: Socket)

  /** Registered sockets, and those whose handlers are attached. */
  datatype State = State(registry: seq<Socket>, handled: set<Socket>)

  function Step(s: State, e: Event): State {
    match e
    case Connect(k) =>
      if Has(s.registry, k.data.account) then s else State(s.registry + [k], s.handled + {k})
    case Disconnect(k) =>
      if k in s.handled then State(Without(s.registry, k.data.account), s.handled - {k}) else s
  }

  function Run(es: seq<Event>): State {
    if |es| == 0 then State([], {}) else Step(Run(es[..|es| - 1]), es[|es| - 1])
  }

  ghost predicate Distinct(ks: seq<Socket>) {
    forall i, j :: 0 <= i < j < |ks| ==> ks[i].data.account != ks[j].data.account
  }

  /** Handlers are attached to exactly the registered sockets, one per account. */
  ghost predicate Inv(s: State) { Distinct(s.registry) && forall k :: k in s.handled <==> k in s.registry }

  lemma {:induction false} WithoutKeepsOthers(ks: seq<Socket>, account: Account)
    ensures forall k :: k in Without(ks, account) <==> k in ks && k.data.account != account
  {
    if |ks| > 0 {
      WithoutKeepsOthers(ks[..|ks| - 1], account);
      assert forall k :: k in ks <==> k in ks[..|ks| - 1] || k == ks[|ks| - 1];
    }
  }

  lemma {:induction false} WithoutKeepsDistinct(ks: seq<Socket>, account: Account)
    requires Distinct(ks)
    ensures Distinct(Without(ks, account))
  {
    if |ks| > 0 {
      var n := |ks| - 1;
      assert Distinct(ks[..n]);
      WithoutKeepsDistinct(ks[..n], account);
      WithoutKeepsOthers(ks[..n], account);
      var kept := Without(ks[..n], account);
      forall i | 0 <= i < |kept| ensures kept[i].data.account != ks[n].data.account {
        assert kept[i] in kept;
        var j :| 0 <= j < n && ks[..n][j] == kept[i];
        assert ks[j].data.account != ks[n].data.account;
      }
    }
  }

  lemma {:induction false} WithoutAbsent(ks: seq<Socket>, account: Account)
    requires !Has(ks, account)
    ensures Without(ks, account) == ks
  {
    if |ks| > 0 {
      var n := |ks| - 1;
      assert ks[n].data.account != account;
      assert forall i :: 0 <= i < n ==> ks[..n][i] == ks[i];
      WithoutAbsent(ks[..n], account);
      assert ks == ks[..n] + [ks[n]];
    }
  }

  lemma StepKeepsInv(s: State, e: Event)
    requires Inv(s)
    ensures Inv(Step(s, e))
  {
    match e
    case Connect(k) =>
    case Disconnect(k) =>
      WithoutKeepsOthers(s.registry, k.data.account);
      WithoutKeepsDistinct(s.registry, k.data.account);
      if k in s.handled { AccountsDiffer(s.registry, k); }
  }

  lemma AccountsDiffer(ks: seq<Socket>, k: Socket)
    requires Distinct(ks) && k in ks
    ensures forall other :: other in ks && other.data.account == k.data.account ==> other == k
  {
  }

  lemma {:induction false} EveryRunKeepsInv(es: seq<Event>)
    ensures Inv(Run(es))
  {
    if |es| > 0 {
      EveryRunKeepsInv(es[..|es| - 1]);
      StepKeepsInv(Run(es[..|es| - 1]), es[|es| - 1]);
    }
  }

  ghost predicate Free(ks: seq<Socket>, account: Account) { forall other :: other in ks ==> other.data.account != account }

  lemma FreeIsNotHad(ks: seq<Socket>, account: Account)
    ensures Free(ks, account) <==> !Has(ks, account)
  {
    if !Free(ks, account) { var i :| 0 <= i < |ks| && ks[i].data.account == account; }
  }

  /** Socket k came when its account was free, and has not gone since. */
  ghost predicate AcceptedAndStayed(es: seq<Event>, k: Socket) {
    exists n :: 0 <= n < |es| && AcceptedAt(es, k, n)
  }

  ghost predicate AcceptedAt(es: seq<Event>, k: Socket, n: nat)
    requires n < |es|
  {
    && es[n] == Connect(k) && Free(Run(es[..n]).registry, k.data.account)
    && forall m :: n < m < |es| ==> es[m] != Disconnect(k)
  }

  /**
   MAIN RESULT. Over every run of connections, duplicate connections and disconnections, a socket is
   registered exactly when it connected while its account was free and has not disconnected since; in
   particular the coming and going of a rejected duplicate never unregisters the first socket.
   */
  lemma {:induction false} RegisteredExactly(es: seq<Event>, k: Socket)
    ensures k in Run(es).registry <==> AcceptedAndStayed(es, k)
  {
    if |es| > 0 {
      var n := |es| - 1;
      var before := es[..n];
      RegisteredExactly(before, k);
      EveryRunKeepsInv(before);
      AcceptedExtends(es, k);
      match es[n]
      case Connect(other) => FreeIsNotHad(Run(before).registry, other.data.account);
      case Disconnect(other) =>
        WithoutKeepsOthers(Run(before).registry, other.data.account);
        if other in Run(before).handled { AccountsDiffer(Run(before).registry, other); }
    }
  }

  lemma AcceptedExtends(es: seq<Event>, k: Socket)
    requires |es| > 0
    ensures AcceptedAndStayed(es, k) <==>
              (AcceptedAndStayed(es[..|es| - 1], k) && es[|es| - 1] != Disconnect(k))
              || (es[|es| - 1] == Connect(k) && Free(Run(es[..|es| - 1]).registry, k.data.account))
  {
    var n := |es| - 1;
    var before := es[..n];
    if m :| 0 <= m < |es| && AcceptedAt(es, k, m) {
      if m < n { assert before[..m] == es[..m] && AcceptedAt(before, k, m); }
    }
    if m :| 0 <= m < n && AcceptedAt(before, k, m) {
      assert before[..m] == es[..m];
      if es[n] != Disconnect(k) { assert AcceptedAt(es, k, m); }
    }
    if es[n] == Connect(k) && Free(Run(before).registry, k.data.account) { assert AcceptedAt(es, k, n); }
  }

  lemma WithoutLast(ks: seq<Socket>, k: Socket)
    requires !Has(ks, k.data.account)
    ensures Without(ks + [k], k.data.account) == ks
  {
    assert (ks + [k])[..|ks|] == ks;
    WithoutAbsent(ks, k.data.account);
  }

  /** A maker that was let in and leaves again leaves the registry as it found it. */
  lemma LeavingUndoesJoining(s: State, k: Socket)
    requires Inv(s) && !Has(s.registry, k.data.account)
    ensures Step(Step(s, Connect(k)), Disconnect(k)) == s
  {
    WithoutLast(s.registry, k);
    assert k !in s.registry;
    assert s.handled + {k} - {k} == s.handled;
  }

  // ---------- The rounds of registered makers ----------

  function MakersOf(ks: seq<Socket>): (makers: seq<L.Maker>)
    ensures |makers| == |ks| && forall i :: 0 <= i < |ks| ==> makers[i] == ks[i].data
  {
    seq(|ks|, i requires 0 <= i < |ks| => ks[i].data)
  }

  /** A round that asks the registered makers, whoever came and went before, waits for exactly those it asked. */
  lemma RegisteredMakersAreAwaited(es: seq<Event>, legs: seq<L.Leg>, r: Q.Round, heard: seq<Q.Event>)
    requires 1 <= |legs| <= 2 && Q.OpenedFor(r, MakersOf(Run(es).registry), legs) && |r.formats| > 0
    requires Q.Clean(r, heard)
    ensures L.DistinctAccounts(MakersOf(Run(es).registry))
    ensures Q.Play(r, heard).Settled? <==> Q.Timeout in heard || Q.AllAnswered(r, heard)
  {
    EveryRunKeepsInv(es);
    Q.OpenedRoundSettles(r, heard, MakersOf(Run(es).registry), legs);
  }

  // ---------- Liquidity ----------

  /** `getTotalLiquidity` on the liquidity the state chain reports for the pair. */
  function TotalLiquidity(bothUsdc: bool, liquidity: nat, regular: bool, factor: Fraction): nat
    requires Proper(factor)
  {
    if bothUsdc then 0 else if regular then liquidity else liquidity * factor.num / factor.den
  }

  /** The quotient does not depend on how the fraction is written, so lowest terms do not matter. */
  lemma ScalingIgnoresRepresentation(liquidity: nat, f: Fraction, g: Fraction)
    requires Proper(f) && Proper(g) && Same(f, g)
    ensures liquidity * f.num / f.den == liquidity * g.num / g.den
  {
    var p, q := liquidity * f.num / f.den, liquidity * g.num / g.den;
    QuotientBounds(liquidity * f.num, f.den);
    QuotientBounds(liquidity * g.num, g.den);
    QuotientBelow(liquidity, f, g, p, q);
    QuotientBelow(liquidity, g, f, q, p);
  }

  lemma QuotientBounds(n: nat, d: nat)
    requires d > 0
    ensures (n / d) * d <= n < (n / d + 1) * d
  {
  }

  lemma QuotientBelow(liquidity: nat, f: Fraction, g: Fraction, p: nat, q: nat)
    requires Proper(f) && Proper(g) && Same(f, g)
    requires p * f.den <= liquidity * f.num && liquidity * g.num < (q + 1) * g.den
    ensures p <= q
  {
    var d := f.den * g.den;
    Positive(f.den, g.den);
    MultiplyLe(p * f.den, liquidity * f.num, g.den);
    MultiplyLe(liquidity * g.num + 1, (q + 1) * g.den, f.den);
    Associate(p, f.den, g.den);
    Associate(liquidity, f.num, g.den);
    Associate(liquidity, g.num, f.den);
    Associate(q + 1, g.den, f.den);
    if p >= q + 1 { MultiplyLe(q + 1, p, d); }
  }

  lemma ScaledIsNoLess(liquidity: nat, f: Fraction)
    requires Proper(f) && AtMost(ONE, f)
    ensures liquidity * f.num / f.den >= liquidity
  {
    var q := liquidity * f.num / f.den;
    QuotientBounds(liquidity * f.num, f.den);
    MultiplyLe(f.den, f.num, liquidity);
    if q + 1 <= liquidity { MultiplyLe(q + 1, liquidity, f.den); }
  }

  /** The larger of one and a proper sum, in the sense of the order on fractions. */
  lemma ReplenishmentIsTheMaximum(ks: seq<Socket>, a: Asset)
    requires AllProper(ks)
    ensures var f := Replenishment(ks, a);
            Proper(f) && (f == ONE || f == Sum(ks, a)) && AtMost(ONE, f) && AtMost(Sum(ks, a), f)
  {
    SumIsProper(ks, a);
  }

  /**
   MAIN RESULT. Whatever makers are connected, DCA liquidity is the regular liquidity times
   max(1, sum of their factors) rounded down, never less than the regular liquidity.
   */
  lemma DcaLiquidityIsScaled(ks: seq<Socket>, a: Asset, liquidity: nat)
    requires AllProper(ks)
    ensures Proper(Replenishment(ks, a))
    ensures var f := Replenishment(ks, a); var dca := TotalLiquidity(false, liquidity, false, f);
            dca * f.den <= liquidity * f.num < (dca + 1) * f.den && dca >= TotalLiquidity(false, liquidity, true, f)
  {
    ReplenishmentIsTheMaximum(ks, a);
    Scaled(liquidity, Replenishment(ks, a));
  }

  /** MAIN RESULT. So DCA liquidity is the floor of the regular liquidity times max(1, total of the factors). */
  lemma DcaLiquidityIsFloor(ks: seq<Socket>, a: Asset, liquidity: nat, stored: Fraction, scale: real)
    requires AllProper(ks) && stored == Replenishment(ks, a) && scale == AtLeastOnce(FactorTotal(ks, a))
    ensures Proper(stored) && TotalLiquidity(false, liquidity, false, stored) == (liquidity as real * scale).Floor
  {
    StoredScale(ks, a, stored, scale);
    DcaOf(liquidity, stored, scale);
  }

  lemma StoredScale(ks: seq<Socket>, a: Asset, stored: Fraction, scale: real)
    requires AllProper(ks) && stored == Replenishment(ks, a) && scale == AtLeastOnce(FactorTotal(ks, a))
    ensures Proper(stored) && Value(stored) == scale
  {
    ReplenishmentIsTotal(ks, a);
  }

  lemma DcaOf(liquidity: nat, f: Fraction, x: real)
    requires Proper(f) && Value(f) == x
    ensures TotalLiquidity(false, liquidity, false, f) == (liquidity as real * x).Floor
  {
    FloorOfProduct(liquidity, f);
  }

  /** A regular swap counts on the liquidity as it is, and there is none between Usdc and itself. */
  lemma OtherLiquidity(liquidity: nat, regular: bool, f: Fraction)
    requires Proper(f)
    ensures TotalLiquidity(false, liquidity, true, f) == liquidity && TotalLiquidity(true, liquidity, regular, f) == 0
  {
  }

  lemma ProductAsReal(a: int, b: int)
    ensures (a * b) as real == a as real * b as real
  {
  }

  lemma FloorOfProduct(liquidity: nat, f: Fraction)
    requires Proper(f)
    ensures liquidity * f.num / f.den == (liquidity as real * Value(f)).Floor
  {
    var q, d := liquidity * f.num / f.den, f.den as real;
    QuotientBounds(liquidity * f.num, f.den);
    var x := liquidity as real * Value(f);
    assert x * d == (liquidity * f.num) as real by {
      assert Value(f) * d == f.num as real;
      assert x * d == liquidity as real * (Value(f) * d);
      ProductAsReal(liquidity, f.num);
    }
    ProductAsReal(q, f.den);
    ProductAsReal(q + 1, f.den);
    BetweenProducts(q as real, x, (q + 1) as real, d);
  }

  lemma BetweenProducts(a: real, x: real, b: real, d: real)
    requires d > 0.0 && a * d <= x * d < b * d
    ensures a <= x < b
  {
  }

  lemma Scaled(liquidity: nat, f: Fraction)
    requires Proper(f) && AtMost(ONE, f)
    ensures var dca := TotalLiquidity(false, liquidity, false, f);
            dca * f.den <= liquidity * f.num < (dca + 1) * f.den && dca >= liquidity
  {
    QuotientBounds(liquidity * f.num, f.den);
    ScaledIsNoLess(liquidity, f);
  }

  /** `eagerLiquidityExists`, for one leg or for two. */
  predicate EagerLiquidityExists(totals: seq<nat>, needed: seq<nat>)
    requires |totals| == |needed|
    ensures EagerLiquidityExists(totals, needed) <==> !exists i :: 0 <= i < |totals| && totals[i] <= needed[i]
  {
    if |totals| == 0 then true else totals[0] > needed[0] && EagerLiquidityExists(totals[1..], needed[1..])
  }

  /** So a quote for the same amounts that counts as filled at once as a regular swap also does as a DCA swap. */
  lemma RegularCoverImpliesDcaCover(ks: seq<Socket>, to: seq<Asset>, liquidity: seq<nat>, needed: seq<nat>)
    requires AllProper(ks) && |to| == |liquidity| == |needed|
    requires EagerLiquidityExists(liquidity, needed)
    ensures forall i :: 0 <= i < |to| ==> Proper(Replenishment(ks, to[i]))
    ensures EagerLiquidityExists(seq(|to|, i requires 0 <= i < |to| => TotalLiquidity(false, liquidity[i], false, Replenishment(ks, to[i]))), needed)
  {
    forall i | 0 <= i < |to|
      ensures Proper(Replenishment(ks, to[i]))
      ensures TotalLiquidity(false, liquidity[i], false, Replenishment(ks, to[i])) >= liquidity[i]
    {
      DcaLiquidityIsScaled(ks, to[i], liquidity[i]);
    }
  }

  lemma LargestIsMonotone(f: Fraction, g: Fraction)
    requires Proper(f) && Proper(g) && AtMost(f, g)
    ensures AtMost(Largest(f, ONE), Largest(g, ONE))
  {
    if AtMost(ONE, f) && !AtMost(ONE, g) {
      MultiplyLe(f.den, f.num, g.den);
      MultiplyLe(g.num + 1, g.den, f.den);
      assert false;
    }
  }

  /** A maker that joins never lowers what is on offer. */
  lemma JoiningRaisesReplenishment(s: State, k: Socket, a: Asset)
    requires AllProper(s.registry) && ProperSocket(k)
    ensures AtMost(Sum(s.registry, a), Sum(Step(s, Connect(k)).registry, a))
    ensures AtMost(Replenishment(s.registry, a), Replenishment(Step(s, Connect(k)).registry, a))
  {
    SumIsProper(s.registry, a);
    if !Has(s.registry, k.data.account) {
      assert (s.registry + [k])[..|s.registry|] == s.registry;
      PlusIsProper(Sum(s.registry, a), FactorOf(k, a));
      LargestIsMonotone(Sum(s.registry, a), Sum(s.registry + [k], a));
    }
  }

  // ---------- The objects ----------

  function AccountsOf(ks: seq<Socket>): set<Account> { set k | k in ks :: k.data.account }

  class Registry {
    const tracker: B.BalanceTracker
    const assets: seq<Asset>
    var accountIdToSocket: seq<Socket>
    var replenishmentFactors: map<Asset, Fraction>
    /** Sockets whose disconnect handler is attached and has not run. */
    var handled: set<Socket>
    /** For the specification: what has happened. */
    ghost var history: seq<Event>

    ghost predicate Valid()
      reads this, tracker
    {
      && tracker.Valid() && State(accountIdToSocket, handled) == Run(history)
      && tracker.monitoredAccounts == (if tracker.active then AccountsOf(accountIdToSocket) else {})
      && replenishmentFactors == (map a | a in assets :: Replenishment(accountIdToSocket, a))
    }

    constructor (active: bool, assets: seq<Asset>)
      ensures Valid() && fresh(tracker) && history == [] && tracker.active == active && this.assets == assets
    {
      tracker := new B.BalanceTracker(active);
      this.assets := assets;
      accountIdToSocket, handled, history := [], {}, [];
      replenishmentFactors := map a | a in assets :: ONE;
    }

    method OnConnection(k: Socket) returns (accepted: bool)
      requires Valid()
      modifies this, tracker
      ensures Valid() && history == old(history) + [Connect(k)]
      ensures accepted == Free(old(accountIdToSocket), k.data.account)
    {
      FreeIsNotHad(accountIdToSocket, k.data.account);
      ghost var before := State(accountIdToSocket, handled);
      RunOne(history, Connect(k));
      history := history + [Connect(k)];
      accepted := !Has(accountIdToSocket, k.data.account);
      if !accepted { return; }
      tracker.Add(k.data.account);
      AccountsWith(accountIdToSocket, k);
      accountIdToSocket := accountIdToSocket + [k];
      UpdateReplenishmentFactors();
      handled := handled + {k};
    }

    /** Socket k is gone; what runs is its disconnect handler, if it has one. */
    method OnDisconnect(k: Socket)
      requires Valid()
      modifies this, tracker
      ensures Valid() && history == old(history) + [Disconnect(k)]
    {
      RunOne(history, Disconnect(k));
      EveryRunKeepsInv(history);
      history := history + [Disconnect(k)];
      if k !in handled { return; }
      tracker.Remove(k.data.account);
      AccountsWithout(accountIdToSocket, k.data.account);
      accountIdToSocket := Without(accountIdToSocket, k.data.account);
      UpdateReplenishmentFactors();
      handled := handled - {k};
    }

    method UpdateReplenishmentFactors()
      modifies `replenishmentFactors
      ensures replenishmentFactors == map a | a in assets :: Replenishment(accountIdToSocket, a)
    {
      replenishmentFactors := map[];
      var i := 0;
      while i < |assets|
        invariant 0 <= i <= |assets|
        invariant replenishmentFactors == map a | a in assets[..i] :: Replenishment(accountIdToSocket, a)
      {
        var factor := ZERO;
        var j := 0;
        while j < |accountIdToSocket|
          invariant 0 <= j <= |accountIdToSocket| && factor == Sum(accountIdToSocket[..j], assets[i])
        {
          assert accountIdToSocket[..j + 1][..j] == accountIdToSocket[..j];
          factor := Plus(factor, FactorOf(accountIdToSocket[j], assets[i]));
          j := j + 1;
        }
        assert accountIdToSocket[..j] == accountIdToSocket;
        assert forall a :: a in assets[..i + 1] <==> a in assets[..i] || a == assets[i];
        replenishmentFactors := replenishmentFactors[assets[i] := Largest(factor, ONE)];
        i := i + 1;
      }
      assert assets[..i] == assets;
    }
  }

  lemma RunOne(es: seq<Event>, e: Event)
    ensures Run(es + [e]) == Step(Run(es), e)
  {
    assert (es + [e])[..|es|] == es;
  }

  lemma AccountsWith(ks: seq<Socket>, k: Socket)
    ensures AccountsOf(ks + [k]) == AccountsOf(ks) + {k.data.account}
  {
    assert forall other :: other in ks + [k] <==> other in ks || other == k;
    assert k in ks + [k];
    assert forall other :: other in ks ==> other in ks + [k];
  }

  lemma AccountsWithout(ks: seq<Socket>, account: Account)
    ensures AccountsOf(Without(ks, account)) == AccountsOf(ks) - {account}
  {
    WithoutKeepsOthers(ks, account);
  }
}
