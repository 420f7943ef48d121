/** The main results about the money of the paper broker. */
module BrokerTheorems {
  import opened Wrappers
  import opened Orders
  import opened Ledger
  import opened Broker
  import opened BrokerTraces

  // ----- Accounting over whole runs -----

  lemma {:induction false} FlatCommission(log: seq<Fill>, commission: real)
    requires forall f :: f in log ==> f.commission == commission
    ensures Sum(log, Commission) == Worth(|log| as real, commission)
  {
    if log != [] {
      hide Worth;
      var n := |log| - 1;
      assert log[n] in log;
      FlatCommission(log[..n], commission);
      WorthAdds(n as real, 1.0, commission);
      WorthOfOne(commission);
    } else {
      WorthOfNone(commission);
    }
  }

  lemma WorthOfOne(price: real)
    ensures Worth(1.0, price) == price
  {
  }

  /** The incremental state is a fold over the fill history: filled quantity and
      average price per order, net quantity per symbol, cash and commission. */
  lemma RunRefinesFillLog(cfg: Config, prices: map<string, real>, ops: seq<Op>)
    requires LegalRun(cfg, Opening(cfg, prices), ops)
    ensures var s := Run(cfg, Opening(cfg, prices), ops);
            && (forall id :: id in s.orders ==>
                  && s.orders[id].filled == Sum(FillsOf(s.log, id), Quantity)
                  && (s.orders[id].average.Some? <==> s.orders[id].filled > 0.0)
                  && (s.orders[id].average.Some? ==>
                        Worth(s.orders[id].filled, s.orders[id].average.value) == Sum(FillsOf(s.log, id), Notional))
                  && id in s.fills && s.fills[id] == FillsOf(s.log, id))
            && (forall symbol ::
                  Held(Lookup(s.positions, symbol)).quantity == Sum(s.log, NetIn(symbol)))
            && s.paid == Worth(|s.log| as real, cfg.commission)
            && s.cash == cfg.initialEquity - Sum(s.log, SignedNotional) - s.paid
  {
    hide Worth, Run, FillsOf, Sum;
    OpeningKeeps(cfg, prices);
    RunKeeps(cfg, Opening(cfg, prices), ops);
    var s := Run(cfg, Opening(cfg, prices), ops);
    FlatCommission(s.log, cfg.commission);
    forall symbol
      ensures Held(Lookup(s.positions, symbol)).quantity == Sum(s.log, NetIn(symbol))
    {
      PositionIsNet(s.log, symbol);
    }
    forall id | id in s.orders
      ensures s.orders[id].average.Some? <==> s.orders[id].filled > 0.0
    {
      assert Sound(s.orders[id]);
    }
  }

  /** Cost of the book at the averages the broker keeps. */
  function BookAtCost(s: State): real { Total(s.symbols, s.positions, CostOf) }

  function RealizedProfit(s: State): real { Total(s.symbols, s.positions, ProfitOf) }

  /** Cash plus cost basis equals initial equity plus realized profit less commission,
      up to exactly the cost misstated by fills that cross zero or reopen a symbol. */
  lemma CostIdentity(cfg: Config, s: State)
    requires Balanced(cfg, s)
    ensures s.cash + BookAtCost(s) == cfg.initialEquity + RealizedProfit(s) - s.paid + TotalSlip(s.log)
    ensures NeverStale(s.log) ==>
              s.cash + BookAtCost(s) == cfg.initialEquity + RealizedProfit(s) - s.paid
  {
    hide Worth, TotalSlip, Replay, SymbolsOf, Total, Protects;
    assert Moving(s.log);
    BookCost(s.log);
    if NeverStale(s.log) {
      NeverStaleNoSlip(s.log);
    }
  }

  /** One fill misstates cost exactly when it crosses zero or reopens a flat symbol at
      a price other than the average that is kept. */
  lemma SlipExactly(was: Option<Position>, signed: real, price: real)
    requires signed != 0.0
    ensures Slip(was, signed, price) != 0.0 <==> Stale(was, signed) && was.value.average != price
  {
    if Stale(was, signed) {
      NonZeroProduct(was.value.quantity + signed, was.value.average - price);
    }
  }

  /** Reopening a flat symbol always misstates cost, by the whole value of the fill: the
      average that is kept is 0. */
  lemma ReopeningSlip(log: seq<Fill>, f: Fill)
    requires Moving(log) && f.quantity > 0.0 && f.price > 0.0
    requires f.symbol in Replay(log) && Replay(log)[f.symbol].quantity == 0.0
    ensures Slip(Lookup(Replay(log), f.symbol), Signed(f), f.price) == -SignedNotional(f) != 0.0
  {
    FlatHasNoAverage(log, f.symbol);
    hide Replay;
    NonZeroProduct(Signed(f), f.price);
  }

  lemma NonZeroProduct(x: real, y: real)
    ensures Worth(x, y) == 0.0 <==> x == 0.0 || y == 0.0
  {
    if x != 0.0 {
      DivideBack(Worth(x, y), x);
      assert Worth(x, y) / x == y;
    }
  }

  /** Market value of one position as reported: flat positions are left out, and an
      unpriced symbol is valued at its own average. */
  function ReportedAt(prices: map<string, real>): Weight {
    (k: string, pos: Position) =>
      if pos.quantity == 0.0 then 0.0
      else Worth(pos.quantity, if k in prices then prices[k] else pos.average)
  }

  function Equity(s: State): real {
    s.cash + Total(s.symbols, s.positions, ReportedAt(s.prices))
  }

  lemma {:induction false} ReportedIsValue(keys: seq<string>, book: Book, prices: map<string, real>)
    requires forall k :: k in keys ==> k in prices
    ensures Total(keys, book, ReportedAt(prices)) == Total(keys, book, ValueAt(prices))
  {
    if keys != [] {
      var k := keys[|keys| - 1];
      assert k in keys;
      WorthOfNone(prices[k]);
      hide Worth;
      ReportedIsValue(keys[..|keys| - 1], book, prices);
    }
  }

  lemma {:induction false} SymbolsComeFromFills(log: seq<Fill>, k: string)
    ensures k in SymbolsOf(log) <==> exists f :: f in log && f.symbol == k
  {
    if log != [] {
      var n := |log| - 1;
      assert log == log[..n] + [log[n]];
      SymbolsComeFromFills(log[..n], k);
      if log[n].symbol == k {
        assert log[n] in log;
      }
    }
  }

  /** Reported equity is initial equity plus the gain of every fill at current prices
      less commission, whatever positions were turned over on the way. */
  lemma EquityIdentity(cfg: Config, s: State)
    requires Balanced(cfg, s)
    ensures Equity(s) == cfg.initialEquity + Sum(s.log, GainAt(s.prices)) - Worth(|s.log| as real, cfg.commission)
  {
    hide Worth, Replay, SymbolsOf, Total, Sum, Protects;
    assert Moving(s.log);
    FlatCommission(s.log, cfg.commission);
    BookValue(s.log, s.prices);
    GainIsMarkMinusCost(s.log, s.prices);
    forall k | k in s.symbols ensures k in s.prices {
      SymbolsComeFromFills(s.log, k);
    }
    ReportedIsValue(s.symbols, s.positions, s.prices);
  }

  /** Both identities after every trace of accepted calls, at any prices and with any ticks
      that raise: equity is exact, and cost is off by exactly what crossing and reopening
      fills misstate. */
  lemma EquityOfEveryRun(cfg: Config, prices: map<string, real>, ops: seq<Op>)
    requires AcceptedRun(cfg, Opening(cfg, prices), ops)
    ensures var s := Run(cfg, Opening(cfg, prices), ops);
            && Equity(s) == cfg.initialEquity + Sum(s.log, GainAt(s.prices)) - Worth(|s.log| as real, cfg.commission)
            && s.cash + BookAtCost(s) == cfg.initialEquity + RealizedProfit(s) - s.paid + TotalSlip(s.log)
  {
    hide Run, AcceptedRun, Listed, ClientsAgree, OpenArePending, OrdersSound, Balanced, Equity, BookAtCost,
         RealizedProfit, Inv;
    OpeningKeeps(cfg, prices);
    InvIsSturdy(cfg, Opening(cfg, prices));
    TraceStaysSturdy(cfg, Opening(cfg, prices), ops);
    EquityIdentity(cfg, Run(cfg, Opening(cfg, prices), ops));
    CostIdentity(cfg, Run(cfg, Opening(cfg, prices), ops));
  }

  /** For the same traces: money and net quantities are folds over the fill history, every
      recorded fill and every average price respects the limit or stop of its order, and
      stop-limit orders never fill. */
  lemma MoneyOfEveryRun(cfg: Config, prices: map<string, real>, ops: seq<Op>)
    requires AcceptedRun(cfg, Opening(cfg, prices), ops)
    ensures var s := Run(cfg, Opening(cfg, prices), ops);
            && (forall symbol :: Held(Lookup(s.positions, symbol)).quantity == Sum(s.log, NetIn(symbol)))
            && s.paid == Worth(|s.log| as real, cfg.commission)
            && s.cash == cfg.initialEquity - Sum(s.log, SignedNotional) - s.paid
            && (forall f :: f in s.log ==> f.brokerId in s.orders && Protects(s.orders[f.brokerId], f.price))
            && (forall id :: id in s.orders && s.orders[id].average.Some? ==>
                  Protects(s.orders[id], s.orders[id].average.value))
            && (forall id :: id in s.orders && s.orders[id].orderType == StopLimit ==> s.orders[id].filled == 0.0)
  {
    hide Run, AcceptedRun, Listed, ClientsAgree, OpenArePending, Worth, Sum, Inv, Replay, SymbolsOf;
    OpeningKeeps(cfg, prices);
    InvIsSturdy(cfg, Opening(cfg, prices));
    TraceStaysSturdy(cfg, Opening(cfg, prices), ops);
    var s := Run(cfg, Opening(cfg, prices), ops);
    assert forall f :: f in s.log ==> Recorded(cfg, s, f);
    FlatCommission(s.log, cfg.commission);
    forall symbol ensures Held(Lookup(s.positions, symbol)).quantity == Sum(s.log, NetIn(symbol)) {
      PositionIsNet(s.log, symbol);
    }
    forall id | id in s.orders ensures Sound(s.orders[id]) {
    }
  }

  /** A tick trades at current prices, so it changes equity by the commissions of its fills
      only, also when it raises after some of them. */
  lemma TickConservesEquity(cfg: Config, s: State)
    requires Sturdy(cfg, s)
    ensures var s' := TickOf(cfg, s).state;
            && |s'.log| >= |s.log|
            && Equity(s') == Equity(s) - Worth((|s'.log| - |s.log|) as real, cfg.commission)
  {
    hide Listed, ClientsAgree, OpenArePending, OrdersSound, Balanced, Worth, Sum, OpenIds, Equity, ProcessAll;
    var ids, s' := OpenIds(s.orders, s.orderIds), TickOf(cfg, s).state;
    TickStaysSturdy(cfg, s, ids);
    TickFrame(cfg, s, ids);
    var added := TickTradesAtMarket(cfg, s, ids);
    EquityIdentity(cfg, s);
    EquityIdentity(cfg, s');
    SumConcat(s.log, added, GainAt(s.prices));
    NoGainAtCurrentPrices(added, s.prices);
    WorthAdds(|s.log| as real, |added| as real, cfg.commission);
  }
}
