/** Runs of the paper broker that show where its promises end. */
module BrokerExamples {
  import opened Wrappers
  import opened Orders
  import opened Ledger
  import opened Broker
  import opened BrokerRuns
  import opened BrokerTraces
  import opened BrokerTheorems

  function MarketOrder(clientId: string, symbol: string, side: Side, quantity: real): Request {
    Request(clientId, symbol, side, Market, quantity, None, None, Day, "", Paper)
  }

  function FillFor(cfg: Config, r: Request, id: string, price: real): Fill {
    Fill(r.clientId, id, r.symbol, r.side, price, r.quantity, cfg.commission)
  }

  lemma WholeFillIsAll(q: real)
    requires q > 0.0 && Whole(q)
    ensures FillQuantity(q, 1.0) == q
  {
    assert q * 1.0 == q;
  }

  // ----- Ticks with few open orders -----

  lemma OnlyOne(ids: seq<string>, id: string)
    requires Distinct(ids) && forall x :: x in ids <==> x == id
    ensures ids == [id]
  {
    assert id in ids;
    var n := |ids| - 1;
    assert ids[0] in ids && ids[n] in ids;
  }

  /** A new market order for a priced symbol fires at the next tick. */
  lemma NewOrderFires(s: State, r: Request, id: string)
    requires r.orderType == Market && r.quantity > 0.0 && r.symbol in s.prices
    requires r.clientId !in s.clientIds
    ensures var s' := Submitting(s, r, id);
            Fires(s', id) && FillPrice(s', id) == s.prices[r.symbol] && s'.orders[id] == Acknowledge(r, id)
  {
  }

  lemma EventsOfOne(cfg: Config, s: State, id: string)
    ensures Events(cfg, s, [id]) == if Fires(s, id) then [FillOf(cfg, s, id)] else []
  {
    hide Fires;
    assert [id][..0] == [] && Events(cfg, s, []) == [];
  }

  /** With one order open, a tick is about that order. */
  lemma TickOfOne(cfg: Config, s: State, id: string)
    requires Inv(cfg, s) && (forall x :: x in s.pending <==> x == id) && Fires(s, id) && FillPrice(s, id) > 0.0
    ensures var t := TickOf(cfg, s);
            && !t.raised && Inv(cfg, t.state) && t.state.prices == s.prices && t.state.clientIds == s.clientIds
            && t.state.orders.Keys == s.orders.Keys && t.state.log == s.log + [FillOf(cfg, s, id)]
            && (FilledOrder(cfg, s, id).status == Filled ==> t.state.pending == map[])
  {
    hide Inv, Fires, FilledOrder, ProcessAll, OpenIds, Events;
    VisitsPending(cfg, s);
    OnlyOne(OpenIds(s.orders, s.orderIds), id);
    assert Payable(s, [id]);
    ProcessAllAtOnce(cfg, s, [id]);
    EventsOfOne(cfg, s, id);
    ProcessAllKeeps(cfg, s, [id]);
    var t := TickOf(cfg, s);
    if FilledOrder(cfg, s, id).status == Filled {
      assert forall x :: x !in t.state.pending;
    }
  }

  /** A whole market order on an idle adapter is filled completely by the next tick. */
  lemma OrderFills(cfg: Config, s: State, r: Request, id: string)
    requires Inv(cfg, s) && s.pending == map[] && cfg.ratio == 1.0
    requires ValidRequest(r) && r.orderType == Market && Whole(r.quantity)
    requires id !in s.orders && r.clientId !in s.clientIds
    requires r.symbol in s.prices && s.prices[r.symbol] > 0.0
    ensures var s' := Submitting(s, r, id);
            var t := TickOf(cfg, s');
            && !t.raised && Inv(cfg, t.state) && t.state.prices == s.prices && t.state.pending == map[]
            && t.state.orders.Keys == s.orders.Keys + {id} && t.state.clientIds == s.clientIds[r.clientId := id]
            && t.state.log == s.log + [FillFor(cfg, r, id, s.prices[r.symbol])]
  {
    hide Inv, Fires, TickOf, FillQuantity, AfterFill, FilledOrder, FillOf, Whole;
    var s' := Submitting(s, r, id);
    SubmitKeeps(cfg, s, r, id);
    NewOrderFires(s, r, id);
    NewOrderCompletes(cfg, s, r, id);
    TickOfOne(cfg, s', id);
  }

  lemma NewOrderCompletes(cfg: Config, s: State, r: Request, id: string)
    requires cfg.ratio == 1.0 && r.orderType == Market && r.quantity > 0.0 && Whole(r.quantity)
    requires r.symbol in s.prices && r.clientId !in s.clientIds
    ensures var s' := Submitting(s, r, id);
            && Fires(s', id) && FillOf(cfg, s', id) == FillFor(cfg, r, id, s.prices[r.symbol])
            && FilledOrder(cfg, s', id).status == Filled
  {
    NewOrderFires(s, r, id);
    WholeFillIsAll(r.quantity);
    assert r.quantity - 0.0 == r.quantity;
    hide Whole;
  }

  lemma TwoSteps(cfg: Config, s: State, a: Op, b: Op, rest: seq<Op>)
    ensures Run(cfg, s, [a, b] + rest) == Run(cfg, Step(cfg, Step(cfg, s, a), b), rest)
    ensures LegalRun(cfg, s, [a, b] + rest) <==>
            Legal(cfg, s, a) && Legal(cfg, Step(cfg, s, a), b) && LegalRun(cfg, Step(cfg, Step(cfg, s, a), b), rest)
  {
    hide Step, Legal;
    var ops := [a, b] + rest;
    assert ops[0] == a && ops[1..][0] == b && ops[1..][1..] == rest;
  }

  // ----- A tick that raises -----

  lemma OneStep(cfg: Config, s: State, op: Op)
    ensures Run(cfg, s, [op]) == Step(cfg, s, op) && (LegalRun(cfg, s, [op]) <==> Legal(cfg, s, op))
  {
    hide Step, Legal;
    assert [op][1..] == [];
  }

  lemma FreeFill(cfg: Config, s: State, id: string)
    requires Fires(s, id) && FillPrice(s, id) <= 0.0
    ensures var t := ProcessAll(cfg, s, [id]);
            t.raised && t.state.log == s.log && id in t.state.orders && t.state.orders[id].filled > 0.0
  {
    assert [id][..0] == [] && ProcessAll(cfg, s, []) == Ticking(s, [], false);
    var o := s.orders[id];
    FillIsPositive(o.quantity - o.filled, cfg.ratio);
    hide FillQuantity, Fires;
  }

  lemma FreeTick(cfg: Config, s: State, id: string)
    requires Inv(cfg, s) && (forall x :: x in s.pending <==> x == id) && Fires(s, id) && FillPrice(s, id) <= 0.0
    ensures var t := TickOf(cfg, s);
            && t.raised && !OrdersBacked(t.state) && t.state.log == s.log
            && id in t.state.orders && t.state.orders[id].filled > 0.0
  {
    hide Inv, Fires, ProcessAll, OpenIds, OrdersBacked;
    VisitsPending(cfg, s);
    OnlyOne(OpenIds(s.orders, s.orderIds), id);
    FreeFill(cfg, s, id);
    assert [] + [id] == [id];
    UnrecordedFill(cfg, s, [], id);
  }

  /** One market order and a price of 0: the tick raises, and leaves an order filled without
      a fill record. */
  lemma FreeOrderIsUnrecorded(cfg: Config, symbol: string, quantity: real)
    requires quantity > 0.0
    ensures var ops := [Submit(MarketOrder("c", symbol, Buy, quantity), "A")];
            var s := Run(cfg, Opening(cfg, map[symbol := 0.0]), ops);
            var t := TickOf(cfg, s);
            && LegalRun(cfg, Opening(cfg, map[symbol := 0.0]), ops)
            && t.raised && !OrdersBacked(t.state) && t.state.log == []
            && "A" in t.state.orders && t.state.orders["A"].filled > 0.0
  {
    hide Inv, Fires, TickOf, OrdersBacked, Run, LegalRun;
    var r, opening := MarketOrder("c", symbol, Buy, quantity), Opening(cfg, map[symbol := 0.0]);
    OneStep(cfg, opening, Submit(r, "A"));
    OpeningKeeps(cfg, map[symbol := 0.0]);
    SubmitKeeps(cfg, opening, r, "A");
    NewOrderFires(opening, r, "A");
    FreeTick(cfg, Submitting(opening, r, "A"), "A");
  }

  // ----- Misstated cost -----

  lemma SlipAppend(log: seq<Fill>, f: Fill)
    ensures TotalSlip(log + [f]) == TotalSlip(log) + Slip(Lookup(Replay(log), f.symbol), Signed(f), f.price)
  {
    hide Replay, Slip;
    assert (log + [f])[..|log|] == log;
  }

  lemma BookAfterClosing(f: Fill, g: Fill)
    requires f.symbol == g.symbol && f.side == Buy && g.side == Sell && f.quantity == g.quantity
    ensures Lookup(Replay([]), f.symbol) == None
    ensures Lookup(Replay([f]), f.symbol) == Some(Position(f.quantity, f.price, 0.0))
    ensures f.symbol in Replay([f, g]) && Replay([f, g])[f.symbol].quantity == 0.0
  {
    hide Worth;
    ReplayAppend([], f);
    ReplayAppend([f], g);
    assert [] + [f] == [f] && [f] + [g] == [f, g];
  }

  /** One unit bought, sold and bought again: the last fill reopens the symbol. */
  lemma BuySellBuySlips(f: Fill, g: Fill, h: Fill)
    requires f.symbol == g.symbol == h.symbol && f.side == h.side == Buy && g.side == Sell
    requires f.quantity == g.quantity == h.quantity > 0.0 && h.price > 0.0
    ensures TotalSlip([f, g, h]) == -Notional(h)
  {
    hide Worth, Replay, TotalSlip, Slip, Lookup;
    BookAfterClosing(f, g);
    NoSlipYet(f, g);
    SlipAppend([], f);
    SlipAppend([f], g);
    SlipAppend([f, g], h);
    assert [] + [f] == [f] && [f] + [g] == [f, g] && [f, g] + [h] == [f, g, h];
    ReopeningSlip([f, g], h);
  }

  /** Opening and closing misstate nothing. */
  lemma NoSlipYet(f: Fill, g: Fill)
    requires f.side == Buy && g.side == Sell && f.quantity == g.quantity
    ensures TotalSlip([]) == 0.0 && Slip(None, Signed(f), f.price) == 0.0
    ensures Slip(Some(Position(f.quantity, f.price, 0.0)), Signed(g), g.price) == 0.0
  {
    hide Worth;
  }

  function Round(clientId: string, symbol: string, side: Side, quantity: real, id: string): seq<Op> {
    [Submit(MarketOrder(clientId, symbol, side, quantity), id), Tick]
  }

  /** The steps of one order that is filled at once, and the run after it. */
  lemma RoundFills(cfg: Config, s: State, clientId: string, symbol: string, side: Side, q: real, id: string,
                   rest: seq<Op>)
    requires Inv(cfg, s) && s.pending == map[] && cfg.ratio == 1.0 && q > 0.0 && Whole(q)
    requires id !in s.orders && clientId !in s.clientIds && symbol in s.prices && s.prices[symbol] > 0.0
    ensures var r := MarketOrder(clientId, symbol, side, q);
            var s' := TickOf(cfg, Submitting(s, r, id)).state;
            && Run(cfg, s, Round(clientId, symbol, side, q, id) + rest) == Run(cfg, s', rest)
            && (LegalRun(cfg, s, Round(clientId, symbol, side, q, id) + rest) <==> LegalRun(cfg, s', rest))
            && Inv(cfg, s') && s'.prices == s.prices && s'.pending == map[]
            && s'.orders.Keys == s.orders.Keys + {id} && s'.clientIds == s.clientIds[clientId := id]
            && s'.log == s.log + [FillFor(cfg, r, id, s.prices[symbol])]
  {
    var r := MarketOrder(clientId, symbol, side, q);
    OrderFills(cfg, s, r, id);
    TwoSteps(cfg, s, Submit(r, id), Tick, rest);
    hide Inv, TickOf, Whole, Run, LegalRun;
  }

  /** A legal run whose cost basis is wrong: buy, close and reopen at one price. */
  lemma ReopeningRun(cfg: Config, symbol: string, price: real)
    requires cfg.ratio == 1.0 && price > 0.0
    ensures var ops := Round("a", symbol, Buy, 1.0, "A") +
                       (Round("b", symbol, Sell, 1.0, "B") + Round("c", symbol, Buy, 1.0, "C"));
            var opening := Opening(cfg, map[symbol := price]);
            var s := Run(cfg, opening, ops);
            && LegalRun(cfg, opening, ops) && TotalSlip(s.log) == -price
            && s.cash + BookAtCost(s) == cfg.initialEquity + RealizedProfit(s) - s.paid - price
  {
    var prices := map[symbol := price];
    var s0 := Opening(cfg, prices);
    var second, third := Round("b", symbol, Sell, 1.0, "B"), Round("c", symbol, Buy, 1.0, "C");
    OpeningKeeps(cfg, prices);
    hide Inv, Round, TickOf, Run, LegalRun, TotalSlip, BookAtCost, RealizedProfit;
    RoundFills(cfg, s0, "a", symbol, Buy, 1.0, "A", second + third);
    var s1 := TickOf(cfg, Submitting(s0, MarketOrder("a", symbol, Buy, 1.0), "A")).state;
    RoundFills(cfg, s1, "b", symbol, Sell, 1.0, "B", third);
    var s2 := TickOf(cfg, Submitting(s1, MarketOrder("b", symbol, Sell, 1.0), "B")).state;
    assert third + [] == third;
    RoundFills(cfg, s2, "c", symbol, Buy, 1.0, "C", []);
    var s3 := TickOf(cfg, Submitting(s2, MarketOrder("c", symbol, Buy, 1.0), "C")).state;
    NoOps(cfg, s3);
    var f := FillFor(cfg, MarketOrder("a", symbol, Buy, 1.0), "A", price);
    var g := FillFor(cfg, MarketOrder("b", symbol, Sell, 1.0), "B", price);
    var h := FillFor(cfg, MarketOrder("c", symbol, Buy, 1.0), "C", price);
    assert s3.log == [f, g, h];
    BuySellBuySlips(f, g, h);
    assert Balanced(cfg, s3) by { InvIsSturdy(cfg, s3); }
    hide Balanced;
    CostIdentity(cfg, s3);
  }

  lemma NoOps(cfg: Config, s: State)
    ensures Run(cfg, s, []) == s && LegalRun(cfg, s, [])
  {
  }

  // ----- Two orders of one tick -----

  /** A state with ten units held at 1, a price of 2, and a buy and a sale open. */
  function Contested(symbol: string): seq<Op> {
    Round("a", symbol, Buy, 10.0, "A") +
    [SetPrice(symbol, 2.0), Submit(MarketOrder("b", symbol, Buy, 10.0), "B"),
     Submit(MarketOrder("c", symbol, Sell, 5.0), "C")]
  }

  lemma ThreeSteps(cfg: Config, s: State, a: Op, b: Op, c: Op)
    ensures Run(cfg, s, [a, b, c]) == Step(cfg, Step(cfg, Step(cfg, s, a), b), c)
    ensures LegalRun(cfg, s, [a, b, c]) <==>
            Legal(cfg, s, a) && Legal(cfg, Step(cfg, s, a), b) && Legal(cfg, Step(cfg, Step(cfg, s, a), b), c)
  {
    hide Step, Legal;
    assert [a, b, c] == [a, b] + [c];
    TwoSteps(cfg, s, a, b, [c]);
    OneStep(cfg, Step(cfg, Step(cfg, s, a), b), c);
  }

  lemma ContestedRun(cfg: Config, symbol: string)
    requires cfg.ratio == 1.0
    ensures var opening := Opening(cfg, map[symbol := 1.0]);
            var s := Run(cfg, opening, Contested(symbol));
            && LegalRun(cfg, opening, Contested(symbol)) && Inv(cfg, s)
            && (forall x :: x in s.pending <==> x == "B" || x == "C")
            && s.log == [FillFor(cfg, MarketOrder("a", symbol, Buy, 10.0), "A", 1.0)]
            && symbol in s.prices && s.prices[symbol] == 2.0
            && "B" in s.orders && s.orders["B"] == Acknowledge(MarketOrder("b", symbol, Buy, 10.0), "B")
            && "C" in s.orders && s.orders["C"] == Acknowledge(MarketOrder("c", symbol, Sell, 5.0), "C")
  {
    var s0 := Opening(cfg, map[symbol := 1.0]);
    var a, b, c := MarketOrder("a", symbol, Buy, 10.0), MarketOrder("b", symbol, Buy, 10.0),
      MarketOrder("c", symbol, Sell, 5.0);
    var rest := [SetPrice(symbol, 2.0), Submit(b, "B"), Submit(c, "C")];
    OpeningKeeps(cfg, map[symbol := 1.0]);
    hide Inv, TickOf, Run, LegalRun, Round;
    RoundFills(cfg, s0, "a", symbol, Buy, 10.0, "A", rest);
    var s1 := TickOf(cfg, Submitting(s0, a, "A")).state;
    ThreeSteps(cfg, s1, SetPrice(symbol, 2.0), Submit(b, "B"), Submit(c, "C"));
    SetPriceKeeps(cfg, s1, symbol, 2.0);
    var s2 := s1.(prices := s1.prices[symbol := 2.0]);
    SubmitKeeps(cfg, s2, b, "B");
    SubmitKeeps(cfg, Submitting(s2, b, "B"), c, "C");
  }

  lemma EventsOfTwo(cfg: Config, s: State, x: string, y: string)
    requires Fires(s, x) && Fires(s, y)
    ensures Events(cfg, s, [x, y]) == [FillOf(cfg, s, x), FillOf(cfg, s, y)]
  {
    hide Fires, FillOf;
    assert [x, y][..1] == [x];
    EventsOfOne(cfg, s, x);
  }

  /** The book after both orders of a tick. */
  lemma TickOfTwo(cfg: Config, s: State, x: string, y: string)
    requires Inv(cfg, s) && x != y && Fires(s, x) && Fires(s, y) && FillPrice(s, x) > 0.0 && FillPrice(s, y) > 0.0
    ensures var t := ProcessAll(cfg, s, [x, y]);
            !t.raised && t.state.positions == Posted(Posted(Replay(s.log), FillOf(cfg, s, x)), FillOf(cfg, s, y))
  {
    hide Fires, ProcessAll, Events, Indexed, OrdersSound, OrdersBacked, Replay, FillOf, Posted;
    assert Distinct([x, y]) && Payable(s, [x, y]);
    ProcessAllAtOnce(cfg, s, [x, y]);
    ProcessAllKeeps(cfg, s, [x, y]);
    EventsOfTwo(cfg, s, x, y);
    var f, g := FillOf(cfg, s, x), FillOf(cfg, s, y);
    assert s.log + [f, g] == (s.log + [f]) + [g];
    ReplayAppend(s.log, f);
    ReplayAppend(s.log + [f], g);
  }

  lemma ContestedFires(cfg: Config, s: State, r: Request, id: string)
    requires id in s.pending && cfg.ratio == 1.0 && id in s.orders && s.orders[id] == Acknowledge(r, id)
    requires r.orderType == Market && r.quantity > 0.0 && Whole(r.quantity) && r.symbol in s.prices
    ensures Fires(s, id) && FillPrice(s, id) == s.prices[r.symbol]
    ensures FillOf(cfg, s, id) == FillFor(cfg, r, id, s.prices[r.symbol])
  {
    hide FillQuantity, Whole;
    WholeFillIsAll(r.quantity);
    assert r.quantity - 0.0 == r.quantity;
  }

  lemma BookOfTwo(book: Book, symbol: string, f: Fill, g: Fill)
    requires f.symbol == g.symbol == symbol
    ensures symbol in Posted(Posted(book, f), g)
    ensures Posted(Posted(book, f), g)[symbol] ==
            Moved(Some(Moved(Lookup(book, symbol), Signed(f), f.price)), Signed(g), g.price)
  {
    hide Moved;
  }

  /** Two orders of processing one tick of a reachable state end with the same quantity and
      different averages and realized profits. */
  lemma CostBasisDependsOnOrder(cfg: Config, symbol: string)
    requires cfg.ratio == 1.0
    ensures var s := Run(cfg, Opening(cfg, map[symbol := 1.0]), Contested(symbol));
            var one, other := ProcessAll(cfg, s, ["B", "C"]), ProcessAll(cfg, s, ["C", "B"]);
            && LegalRun(cfg, Opening(cfg, map[symbol := 1.0]), Contested(symbol))
            && (forall x :: x in s.pending <==> x == "B" || x == "C")
            && !one.raised && !other.raised && symbol in one.state.positions && symbol in other.state.positions
            && var p, q := one.state.positions[symbol], other.state.positions[symbol];
               p.quantity == q.quantity && p.average != q.average && p.realized != q.realized
  {
    hide Inv, Run, LegalRun, Contested, Fires, ProcessAll, FillOf, Posted, Replay, Moved;
    var s := Run(cfg, Opening(cfg, map[symbol := 1.0]), Contested(symbol));
    var a, b, c := MarketOrder("a", symbol, Buy, 10.0), MarketOrder("b", symbol, Buy, 10.0),
      MarketOrder("c", symbol, Sell, 5.0);
    ContestedRun(cfg, symbol);
    ContestedFires(cfg, s, b, "B");
    ContestedFires(cfg, s, c, "C");
    TickOfTwo(cfg, s, "B", "C");
    TickOfTwo(cfg, s, "C", "B");
    var f0, fb, fc := FillFor(cfg, a, "A", 1.0), FillFor(cfg, b, "B", 2.0), FillFor(cfg, c, "C", 2.0);
    BookOfTwo(Replay(s.log), symbol, fb, fc);
    BookOfTwo(Replay(s.log), symbol, fc, fb);
    ReplayAppend([], f0);
    assert [] + [f0] == [f0];
    FirstPosition(f0);
    LiteralOrder();
  }

  lemma FirstPosition(f: Fill)
    ensures Lookup(Posted(Replay([]), f), f.symbol) == Some(Position(Signed(f), f.price, 0.0))
  {
  }

  /** Ten units held at 1; at price 2, a buy of ten and a sale of five. */
  lemma LiteralOrder()
    ensures var held := Some(Position(10.0, 1.0, 0.0));
            var p := Moved(Some(Moved(held, 10.0, 2.0)), -5.0, 2.0);
            var q := Moved(Some(Moved(held, -5.0, 2.0)), 10.0, 2.0);
            p.quantity == q.quantity && p.average != q.average && p.realized != q.realized
  {
  }
}
