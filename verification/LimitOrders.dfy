/**
 Legs, who is asked for which of them, and the limit orders made from the replies
 (packages/swap/src/quoting/Leg.ts and Quoter.ts).
 */
module LimitOrders {
  import opened Prelude

  datatype Asset = Usdc | Base(name: string)

  datatype Side = Buy | Sell

  type Account = string

  // ---------- Legs ----------

  datatype Leg = Leg(src: Asset, dest: Asset, amount: nat)

  datatype LegResult = NoLeg | SameAsset | NoUsdc | Made(leg: Leg)

  function LegOf(src: Asset, dest: Asset, amount: Option<nat>): LegResult {
    if amount.None? then NoLeg
    else if src == dest then SameAsset
    else if src != Usdc && dest != Usdc then NoUsdc
    else Made(Leg(src, dest, amount.value))
  }

  /** What the private constructor guarantees: exactly one of the two assets is Usdc. */
  predicate IsLeg(l: Leg) { (l.src == Usdc) != (l.dest == Usdc) }

  function SideOf(l: Leg): Side { if l.dest != Usdc then Buy else Sell }

  function BaseAsset(l: Leg): Asset { if l.dest != Usdc then l.dest else l.src }

  function Opposite(s: Side): Side { if s == Buy then Sell else Buy }

  /** The asset the market maker gives away: the one the leg ends in. */
  function MakerSells(l: Leg): Asset { if SideOf(l) == Buy then BaseAsset(l) else Usdc }

  lemma LegsAreLegs(src: Asset, dest: Asset, amount: Option<nat>)
    ensures LegOf(src, dest, amount).Made? <==> amount.Some? && (src == Usdc) != (dest == Usdc)
    ensures LegOf(src, dest, amount).Made? ==>
              var l := LegOf(src, dest, amount).leg;
              && IsLeg(l) && l.src == src && l.dest == dest && l.amount == amount.value
              && {BaseAsset(l), Usdc} == {src, dest} && MakerSells(l) == dest
  {
  }

  /** The legs of a swap: one if Usdc is involved, else through Usdc. */
  function LegsFor(src: Asset, dest: Asset, amount: nat, intermediate: Option<nat>): Option<seq<Leg>> {
    if src == Usdc || dest == Usdc then
      var l := LegOf(src, dest, Some(amount));
      if l.Made? then Some([l.leg]) else None
    else if intermediate.None? then None
    else Some([Leg(src, Usdc, amount), Leg(Usdc, dest, intermediate.value)])
  }

  ghost predicate ValidLegs(legs: seq<Leg>) {
    1 <= |legs| <= 2 && forall i :: 0 <= i < |legs| ==> IsLeg(legs[i])
  }

  /** The legs lead from the source to the destination, each with Usdc at exactly one end. */
  lemma LegsFormARoute(src: Asset, dest: Asset, amount: nat, intermediate: Option<nat>)
    ensures LegsFor(src, dest, amount, intermediate).None? <==>
              (src == Usdc && dest == Usdc) || (src != Usdc && dest != Usdc && intermediate.None?)
    ensures LegsFor(src, dest, amount, intermediate).Some? ==>
              var legs := LegsFor(src, dest, amount, intermediate).value;
              && ValidLegs(legs) && legs[0].src == src && legs[|legs| - 1].dest == dest && legs[0].amount == amount
              && (|legs| == 2 ==> legs[0].dest == legs[1].src && Some(legs[1].amount) == intermediate)
  {
  }

  // ---------- Who is asked for what ----------

  /** How a reply is fitted to the legs: `singleOrBothLegs`, `padSecondLeg` or `padFirstLeg`. */
  datatype Format = AsSent | PadSecond | PadFirst

  datatype Level = Level(tick: int, amount: nat)

  type Reply = r: seq<seq<Level>> | 1 <= |r| <= 2 witness [[]]

  function Fit(f: Format, reply: Reply): seq<seq<Level>> {
    match f
    case AsSent => reply
    case PadSecond => [reply[0], []]
    case PadFirst => [[], reply[0]]
  }

  /** What authentication leaves in `socket.data`. */
  datatype Maker = Maker(
    account: Account,
    quoted: set<Asset>,
    beta: bool,
    mev: map<(Side, Asset), int>,
    replenishment: map<Asset, Fraction>)

  /** None when the maker quotes no leg and is not asked. */
  function Ask(m: Maker, legs: seq<Leg>): Option<Format>
    requires 1 <= |legs| <= 2
  {
    var first := BaseAsset(legs[0]) in m.quoted;
    var second := |legs| == 2 && BaseAsset(legs[1]) in m.quoted;
    if first && (|legs| == 1 || second) then Some(AsSent)
    else if first then Some(PadSecond)
    else if second then Some(PadFirst)
    else None
  }

  /** The positions of the legs a maker quotes, which are the legs its request carries. */
  function QuotedLegs(m: Maker, legs: seq<Leg>): seq<nat>
    requires 1 <= |legs| <= 2
  {
    (if BaseAsset(legs[0]) in m.quoted then [0] else [])
    + (if |legs| == 2 && BaseAsset(legs[1]) in m.quoted then [1] else [])
  }

  lemma QuotedLegsAreThose(m: Maker, legs: seq<Leg>, i: nat)
    requires ValidLegs(legs)
    ensures i in QuotedLegs(m, legs) <==>
              i < |legs| && (if legs[i].src == Usdc then legs[i].dest in m.quoted else legs[i].src in m.quoted)
    ensures |QuotedLegs(m, legs)| == 2 ==> QuotedLegs(m, legs) == [0, 1]
    ensures Ask(m, legs).Some? <==> QuotedLegs(m, legs) != []
  {
  }

  /** A reply answers the request: its j-th list is for the j-th leg that was asked for. */
  ghost predicate SentFor(m: Maker, legs: seq<Leg>, reply: Reply, i: nat, level: Level)
    requires 1 <= |legs| <= 2
  {
    exists j :: 0 <= j < |QuotedLegs(m, legs)| && j < |reply| && QuotedLegs(m, legs)[j] == i && level in reply[j]
  }

  /** After fitting, the levels at a leg are exactly those the maker sent for it, whatever number of legs it sent. */
  lemma FittedIsSent(m: Maker, legs: seq<Leg>, reply: Reply, i: nat, level: Level)
    requires 1 <= |legs| <= 2 && Ask(m, legs).Some? && i < |legs|
    ensures var fitted := Fit(Ask(m, legs).value, reply);
            i < |fitted| && level in fitted[i] <==> SentFor(m, legs, reply, i, level)
  {
    var quoted := QuotedLegs(m, legs);
    match Ask(m, legs).value
    case AsSent =>
      assert quoted == if |legs| == 1 then [0] else [0, 1];
      if i < |reply| && level in reply[i] { assert quoted[i] == i; }
    case PadSecond =>
      assert quoted == [0];
      if i == 0 && level in reply[0] { assert quoted[0] == 0; }
    case PadFirst =>
      assert quoted == [1];
      if i == 1 && level in reply[0] { assert quoted[0] == 1; }
  }

  /** The requests that go out, with the legs each carries. */
  function Requests(sockets: seq<Maker>, legs: seq<Leg>): seq<(Account, seq<Leg>)>
    requires 1 <= |legs| <= 2
  {
    if |sockets| == 0 then []
    else
      var last, before := sockets[|sockets| - 1], Requests(sockets[..|sockets| - 1], legs);
      var quoted := QuotedLegs(last, legs);
      if quoted == [] then before
      else before + [(last.account, if |quoted| == 2 then legs else [legs[quoted[0]]])]
  }

  /** What a loop over these sockets remembers: how to fit the reply of each account that was asked. */
  function AskedFormats(sockets: seq<Maker>, legs: seq<Leg>): map<Account, Format>
    requires 1 <= |legs| <= 2
  {
    if |sockets| == 0 then map[]
    else
      var last := sockets[|sockets| - 1];
      var before := AskedFormats(sockets[..|sockets| - 1], legs);
      if Ask(last, legs).Some? then before[last.account := Ask(last, legs).value] else before
  }

  function AskedCount(sockets: seq<Maker>, legs: seq<Leg>): nat
    requires 1 <= |legs| <= 2
  {
    if |sockets| == 0 then 0
    else AskedCount(sockets[..|sockets| - 1], legs) + (if Ask(sockets[|sockets| - 1], legs).Some? then 1 else 0)
  }

  /** The loop over the connected sockets: who is asked for what, and how many requests go out. */
  method AskMakers(sockets: seq<Maker>, legs: seq<Leg>)
      returns (formats: map<Account, Format>, expected: nat, requests: seq<(Account, seq<Leg>)>)
    requires 1 <= |legs| <= 2
    ensures formats == AskedFormats(sockets, legs) && expected == AskedCount(sockets, legs)
    ensures requests == Requests(sockets, legs)
  {
    formats, expected, requests := map[], 0, [];
    var i := 0;
    while i < |sockets|
      invariant 0 <= i <= |sockets|
      invariant formats == AskedFormats(sockets[..i], legs) && expected == AskedCount(sockets[..i], legs)
      invariant requests == Requests(sockets[..i], legs)
    {
      var first := BaseAsset(legs[0]) in sockets[i].quoted;
      var second := |legs| == 2 && BaseAsset(legs[1]) in sockets[i].quoted;
      assert sockets[..i + 1][..i] == sockets[..i];
      var account := sockets[i].account;
      i := i + 1;
      if first && (|legs| == 1 || second) {
        assert QuotedLegs(sockets[i - 1], legs) == if |legs| == 1 then [0] else [0, 1];
        assert |legs| == 1 ==> [legs[0]] == legs;
        formats := formats[account := AsSent];
        requests := requests + [(account, legs)];
      } else if first {
        assert QuotedLegs(sockets[i - 1], legs) == [0];
        formats := formats[account := PadSecond];
        requests := requests + [(account, [legs[0]])];
      } else if second {
        assert QuotedLegs(sockets[i - 1], legs) == [1];
        formats := formats[account := PadFirst];
        requests := requests + [(account, [legs[1]])];
      } else {
        assert QuotedLegs(sockets[i - 1], legs) == [];
        continue;
      }
      expected := expected + 1;
    }
    assert sockets[..i] == sockets;
  }

  ghost predicate DistinctAccounts(sockets: seq<Maker>) {
    forall i, j :: 0 <= i < j < |sockets| ==> sockets[i].account != sockets[j].account
  }

  ghost predicate AskedAs(sockets: seq<Maker>, legs: seq<Leg>, a: Account, f: Format)
    requires 1 <= |legs| <= 2
  {
    exists k :: 0 <= k < |sockets| && sockets[k].account == a && Ask(sockets[k], legs) == Some(f)
  }

  /** The remembered accounts are those of the sockets that quote a leg, each with the format of one of its sockets. */
  lemma {:induction false} AskedFormatsAreAsked(sockets: seq<Maker>, legs: seq<Leg>, a: Account)
    requires 1 <= |legs| <= 2
    ensures a in AskedFormats(sockets, legs) <==> exists f :: AskedAs(sockets, legs, a, f)
    ensures a in AskedFormats(sockets, legs) ==> AskedAs(sockets, legs, a, AskedFormats(sockets, legs)[a])
  {
    if |sockets| > 0 {
      var n := |sockets| - 1;
      AskedFormatsAreAsked(sockets[..n], legs, a);
      assert forall f :: AskedAs(sockets, legs, a, f) <==>
                         AskedAs(sockets[..n], legs, a, f) || (sockets[n].account == a && Ask(sockets[n], legs) == Some(f)) by {
        forall f ensures AskedAs(sockets, legs, a, f) <==>
                         AskedAs(sockets[..n], legs, a, f) || (sockets[n].account == a && Ask(sockets[n], legs) == Some(f))
        {
          if k :| 0 <= k < |sockets| && sockets[k].account == a && Ask(sockets[k], legs) == Some(f) {
            assert k == n || sockets[..n][k] == sockets[k];
          }
          if k :| 0 <= k < n && sockets[..n][k].account == a && Ask(sockets[..n][k], legs) == Some(f) {
            assert sockets[k] == sockets[..n][k];
          }
        }
      }
    }
  }

  /** One account, one request: the counts agree when no two sockets share an account, and never fall short. */
  lemma {:induction false} AskedOnce(sockets: seq<Maker>, legs: seq<Leg>)
    requires 1 <= |legs| <= 2
    ensures |AskedFormats(sockets, legs)| <= AskedCount(sockets, legs)
    ensures AskedCount(sockets, legs) > 0 ==> |AskedFormats(sockets, legs)| > 0
    ensures DistinctAccounts(sockets) ==> |AskedFormats(sockets, legs)| == AskedCount(sockets, legs)
  {
    if |sockets| > 0 {
      var n := |sockets| - 1;
      AskedOnce(sockets[..n], legs);
      var account := sockets[n].account;
      AskedFormatsAreAsked(sockets[..n], legs, account);
      if DistinctAccounts(sockets) {
        assert DistinctAccounts(sockets[..n]);
        assert account !in AskedFormats(sockets[..n], legs);
      }
    }
  }

  /** A fitted reply has levels only on legs the maker quotes, whatever number of legs it sent. */
  lemma FittedLevelsAreQuoted(m: Maker, legs: seq<Leg>, reply: Reply, i: nat)
    requires 1 <= |legs| <= 2 && Ask(m, legs).Some? && i < |legs|
    requires i < |Fit(Ask(m, legs).value, reply)| && Fit(Ask(m, legs).value, reply)[i] != []
    ensures BaseAsset(legs[i]) in m.quoted
  {
  }

  // ---------- Limit orders ----------

  datatype Quote = Quote(legs: seq<seq<Level>>, beta: bool)

  datatype Order = Order(side: Side, base: Asset, quote: Asset, tick: int, sellAmount: nat)

  /** What the orders depend on besides the quotes. */
  datatype Context = Context(
    balances: map<Account, map<Asset, nat>>,
    registered: map<Account, Maker>,
    stableSwap: bool,
    tolerancePercent: int)

  function WithinTolerance(balance: nat, amount: nat, tolerance: int): bool {
    var padded := if tolerance > 0 then balance + balance * tolerance / 100 else balance;
    padded >= amount
  }

  function Balance(c: Context, a: Account, asset: Asset): Option<nat> {
    if a in c.balances && asset in c.balances[a] then Some(c.balances[a][asset]) else None
  }

  function MevFactor(c: Context, a: Account, leg: Leg): int {
    var key := (Opposite(SideOf(leg)), BaseAsset(leg));
    (if c.stableSwap then 0 else 1) * (if a in c.registered && key in c.registered[a].mev then c.registered[a].mev[key] else 0)
  }

  predicate Affordable(c: Context, a: Account, leg: Leg, amount: nat) {
    var balance := Balance(c, a, MakerSells(leg));
    balance.None? || WithinTolerance(balance.value, amount, c.tolerancePercent)
  }

  function OrderFor(c: Context, a: Account, leg: Leg, level: Level): Order {
    Order(Opposite(SideOf(leg)), BaseAsset(leg), Usdc, level.tick + MevFactor(c, a, leg), level.amount)
  }

  function LevelOrders(c: Context, a: Account, leg: Leg, levels: seq<Level>): seq<Order> {
    if |levels| == 0 then []
    else
      var before, last := LevelOrders(c, a, leg, levels[..|levels| - 1]), levels[|levels| - 1];
      if Affordable(c, a, leg, last.amount) then before + [OrderFor(c, a, leg, last)] else before
  }

  /** `quote.legs[legIndex] ?? []`, and nothing from a beta maker. */
  function Levels(q: Quote, i: nat): seq<Level> { if q.beta || i >= |q.legs| then [] else q.legs[i] }

  function LegOrders(c: Context, leg: Leg, i: nat, quotes: seq<(Account, Quote)>): seq<Order> {
    if |quotes| == 0 then []
    else
      var last := quotes[|quotes| - 1];
      LegOrders(c, leg, i, quotes[..|quotes| - 1]) + LevelOrders(c, last.0, leg, Levels(last.1, i))
  }

  function AllOrders(c: Context, legs: seq<Leg>, quotes: seq<(Account, Quote)>): seq<Order> {
    if |legs| == 0 then []
    else
      var n := |legs| - 1;
      AllOrders(c, legs[..n], quotes) + LegOrders(c, legs[n], n, quotes)
  }

  /** The inner two loops of `formatLimitOrders`, for the leg at index i. */
  method FormatLeg(quotes: seq<(Account, Quote)>, leg: Leg, i: nat, c: Context) returns (orders: seq<Order>)
    ensures orders == LegOrders(c, leg, i, quotes)
  {
    orders := [];
    var k := 0;
    while k < |quotes|
      invariant 0 <= k <= |quotes| && orders == LegOrders(c, leg, i, quotes[..k])
    {
      var (account, quote) := quotes[k];
      assert quotes[..k + 1][..k] == quotes[..k];
      k := k + 1;
      if quote.beta { continue; }
      var balance := Balance(c, account, MakerSells(leg));
      var mev := MevFactor(c, account, leg);
      var levels := if i < |quote.legs| then quote.legs[i] else [];
      ghost var before := orders;
      var j := 0;
      while j < |levels|
        invariant 0 <= j <= |levels| && orders == before + LevelOrders(c, account, leg, levels[..j])
      {
        var level := levels[j];
        if balance.None? || WithinTolerance(balance.value, level.amount, c.tolerancePercent) {
          orders := orders + [Order(Opposite(SideOf(leg)), BaseAsset(leg), Usdc, level.tick + mev, level.amount)];
        }
        assert levels[..j + 1][..j] == levels[..j];
        j := j + 1;
      }
      assert levels[..j] == levels;
    }
    assert quotes[..k] == quotes;
  }

  /** `formatLimitOrders`: nested loops pushing onto one list. */
  method FormatLimitOrders(quotes: seq<(Account, Quote)>, legs: seq<Leg>, c: Context) returns (orders: seq<Order>)
    ensures orders == AllOrders(c, legs, quotes)
  {
    orders := [];
    var i := 0;
    while i < |legs|
      invariant 0 <= i <= |legs| && orders == AllOrders(c, legs[..i], quotes)
    {
      var ofLeg := FormatLeg(quotes, legs[i], i, c);
      assert legs[..i + 1][..i] == legs[..i];
      orders := orders + ofLeg;
      i := i + 1;
    }
    assert legs[..i] == legs;
  }

  /** The level of a quote that an order for leg i was made from. */
  ghost predicate MadeFrom(c: Context, leg: Leg, i: nat, q: (Account, Quote), level: Level, o: Order) {
    && !q.1.beta && i < |q.1.legs| && level in q.1.legs[i]
    && o == OrderFor(c, q.0, leg, level) && Affordable(c, q.0, leg, level.amount)
  }

  lemma {:induction false} LevelOrderOrigins(c: Context, a: Account, leg: Leg, levels: seq<Level>, o: Order)
    ensures o in LevelOrders(c, a, leg, levels) <==>
            exists level :: level in levels && o == OrderFor(c, a, leg, level) && Affordable(c, a, leg, level.amount)
  {
    if |levels| > 0 {
      var n := |levels| - 1;
      LevelOrderOrigins(c, a, leg, levels[..n], o);
      assert forall level :: level in levels <==> level in levels[..n] || level == levels[n];
    }
  }

  ghost predicate LegGives(c: Context, leg: Leg, i: nat, quotes: seq<(Account, Quote)>, o: Order) {
    exists q, level :: q in quotes && MadeFrom(c, leg, i, q, level, o)
  }

  lemma {:induction false} LegOrderOrigins(c: Context, leg: Leg, i: nat, quotes: seq<(Account, Quote)>, o: Order)
    ensures o in LegOrders(c, leg, i, quotes) <==> LegGives(c, leg, i, quotes, o)
  {
    if |quotes| > 0 {
      var n := |quotes| - 1;
      var last := quotes[n];
      LegOrderOrigins(c, leg, i, quotes[..n], o);
      LevelOrderOrigins(c, last.0, leg, Levels(last.1, i), o);
      assert forall q :: q in quotes <==> q in quotes[..n] || q == last;
      if o in LevelOrders(c, last.0, leg, Levels(last.1, i)) {
        var level :| level in Levels(last.1, i) && o == OrderFor(c, last.0, leg, level) && Affordable(c, last.0, leg, level.amount);
        assert MadeFrom(c, leg, i, last, level, o);
      }
      if exists level :: MadeFrom(c, leg, i, last, level, o) {
        var level :| MadeFrom(c, leg, i, last, level, o);
        assert level in Levels(last.1, i);
      }
    }
  }

  /** Both ways: the orders are exactly what the affordable levels of non-beta quotes on each leg give. */
  lemma {:induction false} OrderOrigins(c: Context, legs: seq<Leg>, quotes: seq<(Account, Quote)>, o: Order)
    ensures o in AllOrders(c, legs, quotes) <==> exists i :: 0 <= i < |legs| && LegGives(c, legs[i], i, quotes, o)
  {
    if |legs| > 0 {
      var n := |legs| - 1;
      OrderOrigins(c, legs[..n], quotes, o);
      LegOrderOrigins(c, legs[n], n, quotes, o);
      assert o in LegOrders(c, legs[n], n, quotes) <==> LegGives(c, legs[n], n, quotes, o);
      if i :| 0 <= i < |legs[..n]| && LegGives(c, legs[..n][i], i, quotes, o) { assert LegGives(c, legs[i], i, quotes, o); }
      if i :| 0 <= i < |legs| && LegGives(c, legs[i], i, quotes, o) { assert i == n || LegGives(c, legs[..n][i], i, quotes, o); }
    }
  }

  /** The quotes a round yields: the fitted reply of each maker that was asked and answered. */
  ghost predicate RoundQuotes(sockets: seq<Maker>, legs: seq<Leg>, quotes: seq<(Account, Quote)>)
    requires 1 <= |legs| <= 2
  {
    forall q :: q in quotes ==> exists f: Format, reply: Reply :: AskedAs(sockets, legs, q.0, f) && q.1.legs == Fit(f, reply)
  }

  ghost predicate AskedFor(sockets: seq<Maker>, legs: seq<Leg>, a: Account, base: Asset)
    requires 1 <= |legs| <= 2
  {
    exists k :: 0 <= k < |sockets| && sockets[k].account == a && Ask(sockets[k], legs).Some? && base in sockets[k].quoted
  }

  /**
   MAIN RESULT. Every order comes from a level that a non-beta maker sent for some leg; that maker was
   asked and quotes the leg's base asset; the order is on the other side of the leg, carries the maker's
   tick shifted by its MEV factor (by nothing for a stable pair), and fits the maker's padded balance of
   the asset it sells whenever that balance is known.
   */
  lemma EveryOrderIsJustified(sockets: seq<Maker>, legs: seq<Leg>, quotes: seq<(Account, Quote)>, c: Context, o: Order)
      returns (i: nat, q: (Account, Quote), level: Level)
    requires ValidLegs(legs) && RoundQuotes(sockets, legs, quotes) && o in AllOrders(c, legs, quotes)
    ensures i < |legs| && q in quotes && !q.1.beta && i < |q.1.legs| && level in q.1.legs[i]
    ensures AskedFor(sockets, legs, q.0, BaseAsset(legs[i]))
    ensures o.base == BaseAsset(legs[i]) && o.quote == Usdc && o.side != SideOf(legs[i]) && o.sellAmount == level.amount
    ensures o.tick == level.tick + MevFactor(c, q.0, legs[i])
    ensures o.tick - level.tick ==
            if !c.stableSwap && q.0 in c.registered && (o.side, o.base) in c.registered[q.0].mev
            then c.registered[q.0].mev[(o.side, o.base)] else 0
    ensures q.0 in c.balances && legs[i].dest in c.balances[q.0] ==>
              o.sellAmount <= c.balances[q.0][legs[i].dest] + Max(0, c.balances[q.0][legs[i].dest] * c.tolerancePercent / 100)
  {
    OrderOrigins(c, legs, quotes, o);
    i :| 0 <= i < |legs| && LegGives(c, legs[i], i, quotes, o);
    q, level :| q in quotes && MadeFrom(c, legs[i], i, q, level, o);
    QuotedIsAsked(sockets, legs, q, i);
    MevShift(c, q.0, legs[i]);
    AffordableIsPadded(c, q.0, legs[i], level.amount);
  }

  /** A maker with levels on a leg after fitting was asked and quotes that leg. */
  lemma QuotedIsAsked(sockets: seq<Maker>, legs: seq<Leg>, q: (Account, Quote), i: nat)
    requires ValidLegs(legs) && RoundQuotes(sockets, legs, [q]) && i < |legs| && i < |q.1.legs| && q.1.legs[i] != []
    ensures AskedFor(sockets, legs, q.0, BaseAsset(legs[i]))
  {
    assert q in [q];
    var f: Format, reply: Reply :| AskedAs(sockets, legs, q.0, f) && q.1.legs == Fit(f, reply);
    var k :| 0 <= k < |sockets| && sockets[k].account == q.0 && Ask(sockets[k], legs) == Some(f);
    FittedLevelsAreQuoted(sockets[k], legs, reply, i);
  }

  lemma AffordableIsPadded(c: Context, a: Account, leg: Leg, amount: nat)
    requires IsLeg(leg) && Affordable(c, a, leg, amount)
    ensures a in c.balances && leg.dest in c.balances[a] ==>
              amount <= c.balances[a][leg.dest] + Max(0, c.balances[a][leg.dest] * c.tolerancePercent / 100)
  {
    if a in c.balances && leg.dest in c.balances[a] {
      TolerancePads(c.balances[a][leg.dest], amount, c.tolerancePercent);
    }
  }

  /** What an order for a level must be, field by field. */
  ghost predicate Describes(c: Context, a: Account, leg: Leg, level: Level, o: Order) {
    && o.quote == Usdc && {o.base, Usdc} == {leg.src, leg.dest}
    && (o.side == Sell <==> leg.dest == o.base) && o.sellAmount == level.amount
    && o.tick - level.tick ==
       (if !c.stableSwap && a in c.registered && (o.side, o.base) in c.registered[a].mev
        then c.registered[a].mev[(o.side, o.base)] else 0)
  }

  /** The maker gives away what the leg ends in, and may not give more than it has, padded, if that is known. */
  ghost predicate WithinBalance(c: Context, a: Account, leg: Leg, amount: nat) {
    a in c.balances && leg.dest in c.balances[a] ==>
      var balance := c.balances[a][leg.dest];
      amount <= if c.tolerancePercent > 0 then balance + balance * c.tolerancePercent / 100 else balance
  }

  /** The order made from a level is the only one so described, and it is made exactly within the balance. */
  lemma OrderIsAsDescribed(c: Context, a: Account, leg: Leg, level: Level, o: Order)
    requires IsLeg(leg)
    ensures o == OrderFor(c, a, leg, level) <==> Describes(c, a, leg, level, o)
    ensures Affordable(c, a, leg, level.amount) <==> WithinBalance(c, a, leg, level.amount)
  {
    MevShift(c, a, leg);
    if Describes(c, a, leg, level, o) {
      assert o.base in {leg.src, leg.dest} && (leg.src in {o.base, Usdc}) && (leg.dest in {o.base, Usdc});
    }
  }

  lemma LegOrdersAppend(c: Context, leg: Leg, i: nat, quotes: seq<(Account, Quote)>, q: (Account, Quote))
    ensures LegOrders(c, leg, i, quotes + [q])
            == LegOrders(c, leg, i, quotes) + LevelOrders(c, q.0, leg, if q.1.beta || i >= |q.1.legs| then [] else q.1.legs[i])
  {
    assert (quotes + [q])[..|quotes|] == quotes;
  }

  lemma LevelOrdersAppend(c: Context, a: Account, leg: Leg, levels: seq<Level>, level: Level)
    ensures LevelOrders(c, a, leg, levels + [level])
            == LevelOrders(c, a, leg, levels) + (if Affordable(c, a, leg, level.amount) then [OrderFor(c, a, leg, level)] else [])
  {
    assert (levels + [level])[..|levels|] == levels;
  }

  /** Orders come leg by leg, quote by quote and level by level, each quote's and each level's after those before. */
  lemma LegsConcatenate(c: Context, legs: seq<Leg>, quotes: seq<(Account, Quote)>)
    requires 1 <= |legs| <= 2
    ensures AllOrders(c, legs, quotes) ==
            LegOrders(c, legs[0], 0, quotes) + (if |legs| == 2 then LegOrders(c, legs[1], 1, quotes) else [])
  {
    OneLeg(c, legs[..1], quotes);
    if |legs| == 1 { assert legs == legs[..1]; }
  }

  lemma OneLeg(c: Context, legs: seq<Leg>, quotes: seq<(Account, Quote)>)
    requires |legs| == 1
    ensures AllOrders(c, legs, quotes) == LegOrders(c, legs[0], 0, quotes)
  {
    assert legs[..0] == [];
  }

  lemma MevShift(c: Context, a: Account, leg: Leg)
    ensures MevFactor(c, a, leg) ==
            var key := (Opposite(SideOf(leg)), BaseAsset(leg));
            if !c.stableSwap && a in c.registered && key in c.registered[a].mev then c.registered[a].mev[key] else 0
  {
  }

  lemma TolerancePads(balance: nat, amount: nat, tolerance: int)
    ensures WithinTolerance(balance, amount, tolerance) <==> amount <= balance + Max(0, balance * tolerance / 100)
  {
    if tolerance <= 0 { assert balance * tolerance <= 0; }
  }

  // ---------- A maker's orders together ----------

  function LevelTotal(levels: seq<Level>): nat {
    if |levels| == 0 then 0 else LevelTotal(levels[..|levels| - 1]) + levels[|levels| - 1].amount
  }

  function SellTotal(orders: seq<Order>): nat {
    if |orders| == 0 then 0 else SellTotal(orders[..|orders| - 1]) + orders[|orders| - 1].sellAmount
  }

  /** What of the levels is within a bound, each for itself. */
  function FittingTotal(levels: seq<Level>, bound: int): nat {
    if |levels| == 0 then 0
    else
      var last := levels[|levels| - 1].amount;
      FittingTotal(levels[..|levels| - 1], bound) + (if last <= bound then last else 0)
  }

  /** A known balance with its tolerated percentage. */
  function Padded(c: Context, balance: nat): int { balance + Max(0, balance * c.tolerancePercent / 100) }

  lemma SellTotalAppends(orders: seq<Order>, o: Order)
    ensures SellTotal(orders + [o]) == SellTotal(orders) + o.sellAmount
  {
    assert (orders + [o])[..|orders|] == orders;
  }

  lemma {:induction false} LevelIsAtMostTotal(levels: seq<Level>, k: nat)
    requires k < |levels|
    ensures levels[k].amount <= LevelTotal(levels)
  {
    if k < |levels| - 1 { LevelIsAtMostTotal(levels[..|levels| - 1], k); }
  }

  /** One more level, in terms of the padded balance. */
  lemma OneMoreLevel(c: Context, a: Account, leg: Leg, levels: seq<Level>, balance: nat)
    requires |levels| > 0 && Balance(c, a, MakerSells(leg)) == Some(balance)
    ensures var before, last := LevelOrders(c, a, leg, levels[..|levels| - 1]), levels[|levels| - 1];
            LevelOrders(c, a, leg, levels) ==
            if last.amount <= Padded(c, balance) then before + [OrderFor(c, a, leg, last)] else before
  {
    TolerancePads(balance, levels[|levels| - 1].amount, c.tolerancePercent);
  }

  /** The orders sell exactly the levels that fit one by one. */
  lemma {:induction false} OrdersSellWhatFits(c: Context, a: Account, leg: Leg, levels: seq<Level>, balance: nat)
    requires Balance(c, a, MakerSells(leg)) == Some(balance)
    ensures SellTotal(LevelOrders(c, a, leg, levels)) == FittingTotal(levels, Padded(c, balance))
  {
    if |levels| > 0 {
      var n := |levels| - 1;
      OrdersSellWhatFits(c, a, leg, levels[..n], balance);
      OneMoreLevel(c, a, leg, levels, balance);
      SellTotalAppends(LevelOrders(c, a, leg, levels[..n]), OrderFor(c, a, leg, levels[n]));
    }
  }

  ghost predicate AllWithin(levels: seq<Level>, bound: int) {
    forall k :: 0 <= k < |levels| ==> levels[k].amount <= bound
  }

  lemma AllWithinStep(levels: seq<Level>, bound: int)
    requires |levels| > 0
    ensures AllWithin(levels, bound) <==> AllWithin(levels[..|levels| - 1], bound) && levels[|levels| - 1].amount <= bound
  {
    var n := |levels| - 1;
    assert forall k :: 0 <= k < n ==> levels[..n][k] == levels[k];
  }

  /** None of the levels is missing exactly if all of them fit. */
  lemma {:induction false} NoneIsRefused(c: Context, a: Account, leg: Leg, levels: seq<Level>, balance: nat)
    requires Balance(c, a, MakerSells(leg)) == Some(balance)
    ensures |LevelOrders(c, a, leg, levels)| <= |levels|
    ensures |LevelOrders(c, a, leg, levels)| == |levels| <==> AllWithin(levels, Padded(c, balance))
  {
    if |levels| > 0 {
      var n := |levels| - 1;
      NoneIsRefused(c, a, leg, levels[..n], balance);
      OneMoreLevel(c, a, leg, levels, balance);
      AllWithinStep(levels, Padded(c, balance));
    }
  }

  lemma {:induction false} AllFitTotal(levels: seq<Level>, bound: int)
    requires AllWithin(levels, bound)
    ensures FittingTotal(levels, bound) == LevelTotal(levels)
  {
    if |levels| > 0 {
      AllWithinStep(levels, bound);
      AllFitTotal(levels[..|levels| - 1], bound);
    }
  }

  /**
   MAIN RESULT. The balance is checked level by level. Every level of a maker becomes an order and the orders
   together stay within its padded balance if and only if the levels it sent add up to no more than that.
   */
  lemma OrdersFitTogetherExactly(c: Context, a: Account, leg: Leg, levels: seq<Level>, balance: nat)
    requires Balance(c, a, MakerSells(leg)) == Some(balance)
    ensures var orders := LevelOrders(c, a, leg, levels);
            |orders| == |levels| && SellTotal(orders) <= Padded(c, balance) <==> LevelTotal(levels) <= Padded(c, balance)
  {
    OrdersSellWhatFits(c, a, leg, levels, balance);
    NoneIsRefused(c, a, leg, levels, balance);
    forall k | 0 <= k < |levels| ensures levels[k].amount <= LevelTotal(levels) { LevelIsAtMostTotal(levels, k); }
    if AllWithin(levels, Padded(c, balance)) { AllFitTotal(levels, Padded(c, balance)); }
  }

  /**
   MAIN RESULT. Whether or not levels are refused, the orders together stay within the padded balance if and
   only if the levels that fit one by one add up to no more than it; a single level always does.
   */
  lemma OrdersStayWithinExactly(c: Context, a: Account, leg: Leg, levels: seq<Level>, balance: nat)
    requires Balance(c, a, MakerSells(leg)) == Some(balance)
    ensures SellTotal(LevelOrders(c, a, leg, levels)) <= Padded(c, balance) <==>
              FittingTotal(levels, Padded(c, balance)) <= Padded(c, balance)
    ensures |levels| <= 1 ==> SellTotal(LevelOrders(c, a, leg, levels)) <= Padded(c, balance)
  {
    OrdersSellWhatFits(c, a, leg, levels, balance);
    if |levels| == 1 { assert FittingTotal(levels[..0], Padded(c, balance)) == 0; }
  }

  function Copies(n: nat, amount: nat): (levels: seq<Level>)
    ensures |levels| == n && forall k :: 0 <= k < n ==> levels[k] == Level(0, amount)
  {
    seq(n, _ => Level(0, amount))
  }

  lemma {:induction false} CopiesTotal(n: nat, amount: nat)
    ensures LevelTotal(Copies(n, amount)) == n * amount
  {
    if n > 0 {
      CopiesTotal(n - 1, amount);
      assert Copies(n, amount)[..n - 1] == Copies(n - 1, amount);
      assert n * amount == (n - 1) * amount + amount;
    }
  }

  /** The bound is broken by n levels of a maker's whole balance as soon as n balances exceed the padded one. */
  lemma OrdersTogetherMayExceedBalance(c: Context, a: Account, leg: Leg, balance: nat, n: nat)
    requires Balance(c, a, MakerSells(leg)) == Some(balance) && n * balance > Padded(c, balance)
    ensures SellTotal(LevelOrders(c, a, leg, Copies(n, balance))) > Padded(c, balance)
  {
    OrdersSellWhatFits(c, a, leg, Copies(n, balance), balance);
    AllFitTotal(Copies(n, balance), Padded(c, balance));
    CopiesTotal(n, balance);
  }
}
