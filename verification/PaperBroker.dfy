/** The paper broker adapter itself: an object whose methods update its
    dictionaries in place, each proved to be a transition of the state machine. */
module PaperBroker {
  import opened Wrappers
  import opened Orders
  import opened Ledger
  import opened Broker
  import opened BrokerRuns
  import opened BrokerTraces
  import opened BrokerTheorems
  import opened BrokerTicks

  datatype PositionSnapshot = PositionSnapshot(
    symbol: string, quantity: real, average: real, marketPrice: real,
    marketValue: real, unrealized: real, realized: real, costBasis: real)

  datatype AccountSnapshot = AccountSnapshot(
    equity: real, cash: real, buyingPower: real, portfolioValue: real, dailyPnl: real,
    pendingOrders: nat, positions: nat)

  function SnapshotOf(symbol: string, pos: Position, prices: map<string, real>): PositionSnapshot {
    var price := if symbol in prices then prices[symbol] else pos.average;
    PositionSnapshot(symbol, pos.quantity, pos.average, price, Worth(pos.quantity, price),
                     Worth(pos.quantity, price - pos.average), pos.realized,
                     Worth(Abs(pos.quantity), pos.average))
  }

  /** Snapshots of the positions that are not flat, in the order of `keys`. */
  function Snapshots(keys: seq<string>, book: Book, prices: map<string, real>): seq<PositionSnapshot> {
    if keys == [] then []
    else
      var k := keys[|keys| - 1];
      Snapshots(keys[..|keys| - 1], book, prices)
      + (if k in book && book[k].quantity != 0.0 then [SnapshotOf(k, book[k], prices)] else [])
  }

  function MarketValue(snaps: seq<PositionSnapshot>): real {
    if snaps == [] then 0.0 else MarketValue(snaps[..|snaps| - 1]) + snaps[|snaps| - 1].marketValue
  }

  function Unrealized(snaps: seq<PositionSnapshot>): real {
    if snaps == [] then 0.0 else Unrealized(snaps[..|snaps| - 1]) + snaps[|snaps| - 1].unrealized
  }

  lemma SnapshotSumsAppend(snaps: seq<PositionSnapshot>, p: PositionSnapshot)
    ensures MarketValue(snaps + [p]) == MarketValue(snaps) + p.marketValue
    ensures Unrealized(snaps + [p]) == Unrealized(snaps) + p.unrealized
  {
    assert (snaps + [p])[..|snaps|] == snaps;
  }

  /** A snapshot reports its position, valued at the market price or, without one, at the
      average price. */
  predicate Reports(p: PositionSnapshot, pos: Position, prices: map<string, real>) {
    && p.quantity == pos.quantity && p.average == pos.average && p.realized == pos.realized
    && (if p.symbol in prices then p.marketPrice == prices[p.symbol] else p.marketPrice == pos.average)
    && p.marketValue == Worth(pos.quantity, p.marketPrice)
    && p.unrealized == Worth(pos.quantity, p.marketPrice - pos.average)
    && p.costBasis == Worth(if pos.quantity < 0.0 then -pos.quantity else pos.quantity, pos.average)
  }

  lemma SnapshotReports(k: string, pos: Position, prices: map<string, real>)
    ensures SnapshotOf(k, pos, prices).symbol == k && Reports(SnapshotOf(k, pos, prices), pos, prices)
  {
  }

  /** The snapshot is one of a position of `keys` that is not flat. */
  predicate Open(p: PositionSnapshot, keys: seq<string>, book: Book, prices: map<string, real>) {
    && p.symbol in keys && p.symbol in book && book[p.symbol].quantity != 0.0
    && Reports(p, book[p.symbol], prices)
  }

  lemma SnapshotsUnfold(keys: seq<string>, book: Book, prices: map<string, real>)
    ensures keys == [] ==> Snapshots(keys, book, prices) == []
    ensures keys != [] ==>
              var k := keys[|keys| - 1];
              Snapshots(keys, book, prices) ==
              Snapshots(keys[..|keys| - 1], book, prices)
              + (if k in book && book[k].quantity != 0.0 then [SnapshotOf(k, book[k], prices)] else [])
  {
    hide SnapshotOf;
  }

  /** The snapshots report exactly the positions that are not flat... */
  lemma {:induction false} SnapshotsAre(keys: seq<string>, book: Book, prices: map<string, real>)
    ensures forall p :: p in Snapshots(keys, book, prices) ==> Open(p, keys, book, prices)
    ensures forall k :: k in keys && k in book && book[k].quantity != 0.0 ==>
              SnapshotOf(k, book[k], prices) in Snapshots(keys, book, prices)
  {
    hide SnapshotOf, Reports, Snapshots;
    SnapshotsUnfold(keys, book, prices);
    if keys != [] {
      var n := |keys| - 1;
      SnapshotsAre(keys[..n], book, prices);
      if keys[n] in book {
        SnapshotReports(keys[n], book[keys[n]], prices);
      }
    }
  }

  /** ... each once and in the order of `keys`. */
  lemma {:induction false} SnapshotsInOrder(keys: seq<string>, book: Book, prices: map<string, real>)
    requires Distinct(keys)
    ensures SnapshotsFollow(Snapshots(keys, book, prices), keys)
  {
    SnapshotsUnfold(keys, book, prices);
    if keys != [] {
      hide Reports, SnapshotsFollow, Snapshots, SnapshotOf;
      var n := |keys| - 1;
      var before := Snapshots(keys[..n], book, prices);
      SnapshotsInOrder(keys[..n], book, prices);
      SnapshotsAre(keys[..n], book, prices);
      var pos := if keys[n] in book then book[keys[n]] else NoPosition;
      SnapshotReports(keys[n], pos, prices);
      SnapshotsFollowNext(before, keys, SnapshotOf(keys[n], pos, prices));
      assert before + [] == before;
    }
  }

  predicate StandsAt(snaps: seq<PositionSnapshot>, i: nat, keys: seq<string>, a: int) {
    i < |snaps| && 0 <= a < |keys| && keys[a] == snaps[i].symbol
  }

  ghost predicate SnapshotsFollow(snaps: seq<PositionSnapshot>, keys: seq<string>) {
    forall i, j, a, b :: 0 <= i < j < |snaps| && StandsAt(snaps, i, keys, a) && StandsAt(snaps, j, keys, b) ==> a < b
  }

  lemma SnapshotsFollowNext(snaps: seq<PositionSnapshot>, keys: seq<string>, p: PositionSnapshot)
    requires keys != [] && Distinct(keys) && SnapshotsFollow(snaps, keys[..|keys| - 1]) && p.symbol == keys[|keys| - 1]
    requires forall q :: q in snaps ==> q.symbol in keys[..|keys| - 1]
    ensures SnapshotsFollow(snaps, keys) && SnapshotsFollow(snaps + [p], keys)
  {
    var n := |keys| - 1;
    var longer := snaps + [p];
    forall i, j, a, b | 0 <= i < j < |longer| && StandsAt(longer, i, keys, a) && StandsAt(longer, j, keys, b)
      ensures a < b
    {
      assert longer[i] == snaps[i] && a < n;
      assert StandsAt(snaps, i, keys[..n], a);
      if j < |snaps| {
        assert b < n && StandsAt(snaps, j, keys[..n], b);
      }
    }
    forall i, j, a, b | 0 <= i < j < |snaps| && StandsAt(snaps, i, keys, a) && StandsAt(snaps, j, keys, b)
      ensures a < b
    {
      assert StandsAt(longer, i, keys, a) && StandsAt(longer, j, keys, b);
    }
  }

  lemma SnapshotWorth(k: string, pos: Position, prices: map<string, real>)
    ensures pos.quantity != 0.0 ==> SnapshotOf(k, pos, prices).marketValue == ReportedAt(prices)(k, pos)
    ensures pos.quantity != 0.0 ==> SnapshotOf(k, pos, prices).unrealized == ReportedAt(prices)(k, pos) - CostOf(k, pos)
    ensures pos.quantity == 0.0 ==> ReportedAt(prices)(k, pos) == 0.0 && CostOf(k, pos) == 0.0
  {
    hide Worth;
    WorthOfNone(pos.average);
    WorthDiffers(pos.quantity, if k in prices then prices[k] else pos.average, pos.average);
  }

  /** The snapshots add up to the reported market value, and their unrealized profit
      is that value less the cost of the book. */
  lemma {:induction false} SnapshotTotals(keys: seq<string>, book: Book, prices: map<string, real>)
    ensures MarketValue(Snapshots(keys, book, prices)) == Total(keys, book, ReportedAt(prices))
    ensures Unrealized(Snapshots(keys, book, prices)) ==
            Total(keys, book, ReportedAt(prices)) - Total(keys, book, CostOf)
  {
    hide SnapshotOf, ReportedAt, CostOf;
    if keys != [] {
      hide MarketValue, Unrealized;
      var rest, k := keys[..|keys| - 1], keys[|keys| - 1];
      SnapshotTotals(rest, book, prices);
      if k in book {
        SnapshotWorth(k, book[k], prices);
        SnapshotSumsAppend(Snapshots(rest, book, prices), SnapshotOf(k, book[k], prices));
      }
      assert Snapshots(rest, book, prices) + [] == Snapshots(rest, book, prices);
    }
  }

  lemma {:induction false} DistinctSize(keys: seq<string>)
    requires Distinct(keys)
    ensures |set k | k in keys| == |keys|
  {
    if keys != [] {
      var n := |keys| - 1;
      DistinctSize(keys[..n]);
      assert (set k | k in keys) == (set k | k in keys[..n]) + {keys[n]};
    }
  }

  // ----- The parts of the invariant that single methods need -----

  lemma ClientOrder(cfg: Config, s: State, c: string)
    requires Sturdy(cfg, s)
    ensures c in s.clientIds ==> s.clientIds[c] in s.orders && s.orders[s.clientIds[c]].clientId == c
  {
  }

  lemma SubmitKeepsBoth(cfg: Config, s: State, r: Request, freshId: string)
    requires Sturdy(cfg, s) && ValidRequest(r) && freshId !in s.orders
    ensures Sturdy(cfg, Submitting(s, r, freshId))
    ensures Inv(cfg, s) ==> Inv(cfg, Submitting(s, r, freshId))
  {
    hide Inv, Sturdy, Submitting;
    SubmitStaysSturdy(cfg, s, r, freshId);
    if Inv(cfg, s) {
      SubmitKeeps(cfg, s, r, freshId);
    }
  }

  lemma Acknowledged(r: Request, id: string)
    ensures var o := Acknowledge(r, id);
            Echoes(o, r) && o.status == Submitted && o.brokerId == id && o.clientId == r.clientId
  {
  }

  lemma SturdyLedger(cfg: Config, s: State)
    requires Sturdy(cfg, s)
    ensures Balanced(cfg, s)
  {
  }

  lemma OrderListing(cfg: Config, s: State)
    requires Sturdy(cfg, s)
    ensures Distinct(s.orderIds)
    ensures forall id :: id in s.orderIds <==> id in s.orders
    ensures forall id :: id in s.orders ==> s.orders[id].brokerId == id
  {
  }

  lemma OpenIdsUnfold(orders: map<string, Order>, ids: seq<string>)
    ensures ids == [] ==> OpenIds(orders, ids) == []
    ensures ids != [] ==>
              OpenIds(orders, ids) == OpenIds(orders, ids[..|ids| - 1])
                                      + (if IsOpen(orders, ids[|ids| - 1]) then [ids[|ids| - 1]] else [])
  {
  }

  /** The orders with the given ids. */
  function OrdersOf(orders: map<string, Order>, ids: seq<string>): seq<Order> {
    if ids == [] then []
    else
      var n := |ids| - 1;
      OrdersOf(orders, ids[..n]) + (if ids[n] in orders then [orders[ids[n]]] else [])
  }

  lemma OrdersOfUnfold(orders: map<string, Order>, ids: seq<string>)
    ensures OrdersOf(orders, []) == []
    ensures forall id :: id in orders ==> OrdersOf(orders, ids + [id]) == OrdersOf(orders, ids) + [orders[id]]
  {
    assert forall id :: (ids + [id])[..|ids|] == ids;
  }

  lemma NextOpen(orders: map<string, Order>, ids: seq<string>, i: nat)
    requires i < |ids| && ids[i] in orders
    ensures OrdersOf(orders, OpenIds(orders, ids[..i + 1])) ==
            OrdersOf(orders, OpenIds(orders, ids[..i])) + (if IsOpen(orders, ids[i]) then [orders[ids[i]]] else [])
  {
    hide OrdersOf, OpenIds, IsOpen;
    assert ids[..i + 1][..i] == ids[..i];
    OpenIdsUnfold(orders, ids[..i + 1]);
    OrdersOfUnfold(orders, OpenIds(orders, ids[..i]));
    assert OpenIds(orders, ids[..i]) + [] == OpenIds(orders, ids[..i]);
  }

  lemma {:induction false} OrdersOfAre(orders: map<string, Order>, ids: seq<string>)
    requires forall id :: id in ids ==> id in orders && orders[id].brokerId == id
    ensures |OrdersOf(orders, ids)| == |ids|
    ensures forall o :: o in OrdersOf(orders, ids) <==> o.brokerId in ids && o == orders[o.brokerId]
  {
    if ids != [] {
      var n := |ids| - 1;
      OrdersOfAre(orders, ids[..n]);
      assert ids == ids[..n] + [ids[n]];
    }
  }

  lemma {:induction false} OrdersOfAt(orders: map<string, Order>, ids: seq<string>)
    requires forall id :: id in ids ==> id in orders
    ensures |OrdersOf(orders, ids)| == |ids|
    ensures forall i :: 0 <= i < |ids| ==> OrdersOf(orders, ids)[i] == orders[ids[i]]
  {
    if ids != [] {
      OrdersOfAt(orders, ids[..|ids| - 1]);
    }
  }

  lemma OpenOrdersInOrder(cfg: Config, s: State)
    requires Sturdy(cfg, s)
    ensures Follows(OrdersOf(s.orders, OpenIds(s.orders, s.orderIds)), s.orderIds)
  {
    hide Sturdy, OpenIds, OrdersOf, IsOpen;
    var ids := OpenIds(s.orders, s.orderIds);
    var open := OrdersOf(s.orders, ids);
    OrderListing(cfg, s);
    OpenIdsAre(s.orders, s.orderIds);
    OrdersOfAt(s.orders, ids);
    forall i, j, a, b | 0 <= i < j < |open| && Stands(open, i, s.orderIds, a) && Stands(open, j, s.orderIds, b)
      ensures a < b
    {
      assert ids[i] in ids && ids[j] in ids;
      OpenIdsInOrder(s.orders, s.orderIds, i, j, a, b);
    }
  }

  /** The listed orders are the open ones; in a valid state they match the requests. */
  lemma OpenOrdersAre(cfg: Config, s: State)
    requires Sturdy(cfg, s)
    ensures var open := OrdersOf(s.orders, OpenIds(s.orders, s.orderIds));
            && |open| == |OpenIds(s.orders, s.orderIds)| && (Inv(cfg, s) ==> |open| == |s.pending|)
            && forall o :: o in open <==>
                 o.brokerId in s.orders && o == s.orders[o.brokerId] && !Terminal(o.status)
  {
    hide Inv, Sturdy, OpenIds, OrdersOf;
    var ids := OpenIds(s.orders, s.orderIds);
    OrderListing(cfg, s);
    OpenIdsAre(s.orders, s.orderIds);
    OrdersOfAre(s.orders, ids);
    forall id | id in s.orders ensures !Terminal(s.orders[id].status) <==> IsOpen(s.orders, id) {
      OpenStatus(cfg, s, id);
    }
    if Inv(cfg, s) {
      VisitsPending(cfg, s);
      DistinctSize(ids);
      assert (set k | k in ids) == s.pending.Keys;
    }
  }

  lemma OpenStatus(cfg: Config, s: State, id: string)
    requires Sturdy(cfg, s) && id in s.orders
    ensures !Terminal(s.orders[id].status) <==> IsOpen(s.orders, id)
  {
    hide Listed, ClientsAgree, OpenArePending, Balanced;
    assert Sound(s.orders[id]);
  }

  lemma HeldSymbols(cfg: Config, s: State)
    requires Sturdy(cfg, s)
    ensures Distinct(s.symbols) && forall k :: k in s.symbols <==> k in s.positions
  {
    SymbolsAreKeys(s.log);
  }

  lemma WorthNegates(quantity: real, price: real)
    ensures Worth(-quantity, price) == -Worth(quantity, price)
  {
  }

  /** A tick that does not raise fills, and answers with, exactly the orders that can trade. */
  lemma TradesExactly(cfg: Config, s: State)
    requires Sturdy(cfg, s)
    ensures var t := TickOf(cfg, s);
            !t.raised ==>
              forall id :: id in s.orders ==>
                && id in t.state.orders && (t.state.orders[id].filled > s.orders[id].filled <==> Tradable(s, id))
                && (t.state.orders[id] in t.filled <==> Tradable(s, id))
  {
    hide Sturdy, TickOf, Tradable;
    if !TickOf(cfg, s).raised {
      TickAnswersExactly(cfg, s);
      forall id | id in s.orders
        ensures id in TickOf(cfg, s).state.orders
        ensures TickOf(cfg, s).state.orders[id].filled > s.orders[id].filled <==> Tradable(s, id)
      {
        TickFillsExactly(cfg, s, id);
      }
    }
  }

  class Adapter {
    const cfg: Config
    var prices: map<string, real>
    var orders: map<string, Order>
    var orderIds: seq<string>
    var pending: map<string, Request>
    var clientIds: map<string, string>
    var fills: map<string, seq<Fill>>
    var positions: Book
    var symbols: seq<string>
    var cash: real
    var paid: real
    ghost var log: seq<Fill>

    ghost function View(): State
      reads this
    {
      State(prices, orders, orderIds, pending, clientIds, fills, positions, symbols, cash, paid, log)
    }

    /** The whole invariant. */
    ghost predicate Valid()
      reads this
    {
      Inv(cfg, View())
    }

    /** What every state satisfies, also after ticks that raised. */
    ghost predicate Usable()
      reads this
    {
      Sturdy(cfg, View())
    }

    constructor (cfg: Config, prices: map<string, real>)
      ensures Valid() && Usable() && this.cfg == cfg && View() == Opening(cfg, prices)
    {
      this.cfg := cfg;
      this.prices := prices;
      orders, orderIds, pending, clientIds, fills := map[], [], map[], map[], map[];
      positions, symbols, cash, paid, log := map[], [], cfg.initialEquity, 0.0, [];
      new;
      OpeningKeeps(cfg, prices);
      InvIsSturdy(cfg, View());
    }

    method SubmitOrder(r: Request, freshId: string) returns (o: Order)
      requires Usable() && ValidRequest(r) && freshId !in orders
      modifies this
      ensures Usable() && (old(Valid()) ==> Valid())
      ensures View() == Step(cfg, old(View()), Submit(r, freshId))
      ensures forall id :: id in old(orders) ==> id in orders && orders[id] == old(orders)[id]
      ensures orderIds == old(orderIds) + (if r.clientId in old(clientIds) then [] else [freshId])
      ensures unchanged(`prices, `positions, `symbols, `cash, `paid, `log)
      ensures r.clientId in clientIds && clientIds[r.clientId] in orders
      ensures o == orders[clientIds[r.clientId]] && o.clientId == r.clientId
      ensures r.clientId !in old(clientIds) ==> Echoes(o, r) && o.status == Submitted && o.brokerId == freshId
    {
      hide Inv, Sturdy, ValidRequest, Echoes, Acknowledge;
      SubmitKeepsBoth(cfg, View(), r, freshId);
      ClientOrder(cfg, View(), r.clientId);
      Acknowledged(r, freshId);
      if r.clientId in clientIds {
        return orders[clientIds[r.clientId]];
      }
      o := Acknowledge(r, freshId);
      orders := orders[freshId := o];
      orderIds := orderIds + [freshId];
      pending := pending[freshId := r];
      clientIds := clientIds[r.clientId := freshId];
      fills := fills[freshId := []];
    }

    /** None stands for the not-found error. */
    method CancelOrder(id: string) returns (o: Option<Order>)
      requires Usable()
      modifies this
      ensures Usable() && (old(Valid()) ==> Valid())
      ensures View() == Step(cfg, old(View()), Cancel(id))
      ensures forall x :: x in old(orders) && x != id ==> x in orders && orders[x] == old(orders)[x]
      ensures id in old(orders) && !Terminal(old(orders)[id].status) ==>
                id in orders && orders[id] == old(orders)[id].(status := Cancelled)
      ensures unchanged(`prices, `orderIds, `clientIds, `fills, `positions, `symbols, `cash, `paid, `log)
      ensures o.None? <==> id !in old(orders)
      ensures o.Some? ==> id in orders && o.value == orders[id] && Terminal(o.value.status)
    {
      hide Inv, Sturdy;
      CancelStaysSturdy(cfg, View(), id);
      if Valid() {
        CancelKeeps(cfg, View(), id);
      }
      if id !in orders {
        return None;
      }
      if Terminal(orders[id].status) {
        return Some(orders[id]);
      }
      orders := orders[id := orders[id].(status := Cancelled)];
      pending := pending - {id};
      return Some(orders[id]);
    }

    /** Moves one position; the entry is created on the first fill of its symbol. */
    method UpdatePosition(symbol: string, side: Side, quantity: real, price: real)
      requires symbol in symbols <==> symbol in positions
      modifies this`positions, this`symbols
      ensures positions == old(positions)[symbol := Moved(Lookup(old(positions), symbol),
                                                          if side == Buy then quantity else -quantity, price)]
      ensures symbols == AddKey(old(symbols), symbol)
    {
      hide Worth;
      var signed := if side == Buy then quantity else -quantity;
      if symbol !in positions {
        positions := positions[symbol := Position(signed, price, 0.0)];
        symbols := symbols + [symbol];
        return;
      }
      var pos := positions[symbol];
      var newQuantity := pos.quantity + signed;
      if newQuantity == 0.0 {
        var pnl := Worth(Abs(signed), price - pos.average);
        if pos.quantity < 0.0 {
          pnl := Worth(Abs(signed), pos.average - price);
        }
        pos := Position(0.0, 0.0, pos.realized + pnl);
      } else if (pos.quantity > 0.0 && signed > 0.0) || (pos.quantity < 0.0 && signed < 0.0) {
        var totalCost := Worth(Abs(pos.quantity), pos.average) + Worth(Abs(signed), price);
        pos := pos.(average := totalCost / Abs(newQuantity), quantity := newQuantity);
      } else {
        var closed := if Abs(signed) < Abs(pos.quantity) then Abs(signed) else Abs(pos.quantity);
        var pnl := if pos.quantity > 0.0 then Worth(closed, price - pos.average)
                   else Worth(closed, pos.average - price);
        pos := pos.(realized := pos.realized + pnl, quantity := newQuantity);
      }
      positions := positions[symbol := pos];
    }

    /** The ids a tick starts from: orders submitted or partially filled. */
    method PendingIds() returns (ids: seq<string>)
      requires Usable()
      ensures ids == OpenIds(orders, orderIds)
    {
      hide Sturdy;
      OrderListing(cfg, View());
      ids := [];
      for i := 0 to |orderIds|
        invariant ids == OpenIds(orders, orderIds[..i])
      {
        assert orderIds[..i + 1][..i] == orderIds[..i];
        assert orderIds[i] in orderIds;
        var status := orders[orderIds[i]].status;
        if status == Submitted || status == PartialFill {
          ids := ids + [orderIds[i]];
        }
      }
      assert orderIds[..|orderIds|] == orderIds;
    }

    /** A buy pays its notional, a sale receives it; both pay the commission. */
    method ChargeFill(side: Side, quantity: real, price: real)
      modifies this`cash, this`paid
      ensures cash == old(cash) - Worth(if side == Buy then quantity else -quantity, price) - cfg.commission
      ensures paid == old(paid) + cfg.commission
    {
      if side == Buy {
        cash := cash - (Worth(quantity, price) + cfg.commission);
      } else {
        cash := cash + (Worth(quantity, price) - cfg.commission);
        WorthNegates(quantity, price);
      }
      paid := paid + cfg.commission;
    }

    /** Replaces an order by its filled state and appends the fill to its list. */
    method RecordFill(o: Order, fill: Fill)
      modifies this`orders, this`fills, this`pending, this`log
      ensures orders == old(orders)[fill.brokerId := o]
      ensures fills == old(fills)[fill.brokerId :=
                (if fill.brokerId in old(fills) then old(fills)[fill.brokerId] else []) + [fill]]
      ensures pending == if o.status == Filled then old(pending) - {fill.brokerId} else old(pending)
      ensures log == old(log) + [fill]
    {
      var id := fill.brokerId;
      orders := orders[id := o];
      fills := fills[id := (if id in fills then fills[id] else []) + [fill]];
      if o.status == Filled {
        pending := pending - {id};
      }
      log := log + [fill];
    }

    /** Books the fill of an order whose new state is `o`. */
    method SettleFill(o: Order, fill: Fill)
      requires fill.symbol in symbols <==> fill.symbol in positions
      modifies this
      ensures View() == Booked(cfg, old(View()), o, fill)
    {
      hide Moved, Worth, Lookup, AddKey;
      RecordFill(o, fill);
      UpdatePosition(fill.symbol, fill.side, fill.quantity, fill.price);
      ChargeFill(fill.side, fill.quantity, fill.price);
    }

    /** The loop body of a tick: fills one pending order if its condition is met.
        `raised` reports that the fill record was refused because its price is not
        positive; the order itself has been updated by then. */
    method ProcessOrder(id: string, filled: seq<Order>) returns (filled': seq<Order>, raised: bool)
      requires Usable() && id in orders && (id in pending ==> 0.0 <= orders[id].filled < orders[id].quantity)
      modifies this
      ensures ProcessOne(cfg, Ticking(old(View()), filled, false), id) == Ticking(View(), filled', raised)
    {
      hide Sturdy, AfterFill, FillQuantity, Booked, ShouldFill;
      var order := orders[id];
      if id !in pending {
        return filled, false;
      }
      if order.symbol !in prices || !ShouldFill(order, prices[order.symbol]) {
        return filled, false;
      }
      var price := prices[order.symbol];
      var quantity := FillQuantity(order.quantity - order.filled, cfg.ratio);
      var updated := AfterFill(order, price, cfg.ratio);
      if price <= 0.0 {
        orders := orders[id := updated];
        return filled, true;
      }
      var fill := Fill(order.clientId, id, order.symbol, order.side, price, quantity, cfg.commission);
      HeldSymbols(cfg, View());
      SettleFill(updated, fill);
      return filled + [updated], false;
    }

    /** One tick over the orders that were open when it started; the skip for an order
        without a request is unreachable. */
    method ProcessPendingOrders() returns (filled: seq<Order>, raised: bool)
      requires Usable()
      modifies this
      ensures Usable() && View() == Step(cfg, old(View()), Tick)
      ensures raised == TickOf(cfg, old(View())).raised
      ensures !raised ==> filled == TickOf(cfg, old(View())).filled
      ensures old(Valid()) ==> (Valid() <==> !raised)
      ensures !raised ==>
                forall id :: id in old(orders) ==>
                  && id in orders && (orders[id].filled > old(orders)[id].filled <==> Tradable(old(View()), id))
                  && (orders[id] in filled <==> Tradable(old(View()), id))
    {
      hide Inv, Sturdy, ProcessOne, OpenIds, Tradable;
      ghost var before := View();
      TradesExactly(cfg, before);
      var ids := PendingIds();
      TickStaysSturdy(cfg, before, ids);
      if Valid() {
        TickKeepsExactly(cfg, before);
        VisitsPending(cfg, before);
        RaisesExactly(cfg, before, ids);
      }
      filled, raised := [], false;
      var i := 0;
      while i < |ids|
        invariant 0 <= i <= |ids|
        invariant ProcessAll(cfg, before, ids[..i]) == Ticking(View(), filled, false)
      {
        assert ids[..i + 1][..i] == ids[..i];
        RequestNeverMissing(cfg, before, i);
        filled, raised := ProcessOrder(ids[i], filled);
        if raised {
          RaisedStays(cfg, before, ids, i + 1);
          return;
        }
        i := i + 1;
      }
      assert ids[..i] == ids;
    }

    method UpdateMarketPrice(symbol: string, price: real)
      requires Usable()
      modifies this`prices
      ensures Usable() && (old(Valid()) ==> Valid())
      ensures View() == Step(cfg, old(View()), SetPrice(symbol, price))
      ensures symbol in prices && prices[symbol] == price && prices.Keys == old(prices).Keys + {symbol}
      ensures forall k :: k in old(prices) && k != symbol ==> prices[k] == old(prices)[k]
    {
      hide Inv, Sturdy;
      PriceStaysSturdy(cfg, View(), symbol, price);
      if Valid() {
        SetPriceKeeps(cfg, View(), symbol, price);
      }
      prices := prices[symbol := price];
    }

    method ClearAll()
      modifies this
      ensures Valid() && Usable() && View() == Step(cfg, old(View()), Clear)
      ensures unchanged(`prices) && cash == cfg.initialEquity && paid == 0.0 && log == []
      ensures orders == map[] && orderIds == [] && pending == map[] && clientIds == map[] && fills == map[]
      ensures positions == map[] && symbols == []
    {
      hide Inv, Sturdy;
      OpeningKeeps(cfg, prices);
      InvIsSturdy(cfg, Opening(cfg, prices));
      orders, orderIds, pending, clientIds, fills := map[], [], map[], map[], map[];
      positions, symbols, cash, paid, log := map[], [], cfg.initialEquity, 0.0, [];
    }

    /** Orders that are not terminal, in order of submission; in a valid state exactly one for
        every pending request. */
    method ListOpenOrders() returns (open: seq<Order>)
      requires Usable()
      ensures forall o :: o in open <==> o.brokerId in orders && o == orders[o.brokerId] && !Terminal(o.status)
      ensures |open| == |OpenIds(orders, orderIds)| && (Valid() ==> |open| == |pending|)
      ensures Follows(open, orderIds)
    {
      hide Inv, Sturdy, OpenIds, OrdersOf, Follows;
      OrderListing(cfg, View());
      OpenIdsUnfold(orders, []);
      OrdersOfUnfold(orders, []);
      open := [];
      for i := 0 to |orderIds|
        invariant open == OrdersOf(orders, OpenIds(orders, orderIds[..i]))
      {
        var id := orderIds[i];
        assert id in orderIds;
        OpenStatus(cfg, View(), id);
        NextOpen(orders, orderIds, i);
        if !Terminal(orders[id].status) {
          open := open + [orders[id]];
        }
      }
      assert orderIds[..|orderIds|] == orderIds;
      OpenOrdersAre(cfg, View());
      OpenOrdersInOrder(cfg, View());
    }

    method GetPositions() returns (snaps: seq<PositionSnapshot>)
      requires Usable()
      ensures snaps == Snapshots(symbols, positions, prices) && SnapshotsFollow(snaps, symbols)
      ensures forall p :: p in snaps ==> Open(p, symbols, positions, prices)
      ensures forall k :: k in positions && positions[k].quantity != 0.0 ==> exists p :: p in snaps && p.symbol == k
      ensures MarketValue(snaps) == Total(symbols, positions, ReportedAt(prices))
      ensures Unrealized(snaps) == MarketValue(snaps) - BookAtCost(View())
    {
      hide Sturdy, Snapshots, SnapshotOf, Reports, MarketValue, Unrealized, Total;
      HeldSymbols(cfg, View());
      SnapshotsAre(symbols, positions, prices);
      SnapshotsInOrder(symbols, positions, prices);
      SnapshotTotals(symbols, positions, prices);
      SnapshotsUnfold([], positions, prices);
      forall k | k in positions && positions[k].quantity != 0.0
        ensures exists p :: p in Snapshots(symbols, positions, prices) && p.symbol == k
      {
        SnapshotReports(k, positions[k], prices);
        assert SnapshotOf(k, positions[k], prices) in Snapshots(symbols, positions, prices);
      }
      snaps := [];
      for i := 0 to |symbols|
        invariant snaps == Snapshots(symbols[..i], positions, prices)
      {
        assert symbols[..i + 1][..i] == symbols[..i];
        assert symbols[i] in symbols;
        SnapshotsUnfold(symbols[..i + 1], positions, prices);
        var pos := positions[symbols[i]];
        if pos.quantity != 0.0 {
          snaps := snaps + [SnapshotOf(symbols[i], pos, prices)];
        }
      }
      assert symbols[..|symbols|] == symbols;
    }

    /** The account: equity is initial equity plus the gain of every fill at current
        prices less commission, and the daily profit is the part of it not realized. */
    method GetAccount() returns (a: AccountSnapshot)
      requires Usable()
      ensures a.equity == cfg.initialEquity + Sum(log, GainAt(prices)) - Worth(|log| as real, cfg.commission)
      ensures a.equity == cash + a.portfolioValue && a.cash == cash && a.buyingPower == cash + cash
      ensures a.dailyPnl == a.equity - (cfg.initialEquity + RealizedProfit(View()) - paid + TotalSlip(log))
      ensures a.pendingOrders == |OpenIds(orders, orderIds)| && (Valid() ==> a.pendingOrders == |pending|)
      ensures a.positions == |Snapshots(symbols, positions, prices)|
    {
      hide Inv, Sturdy, Balanced, Worth, Snapshots, Sum, TotalSlip, Total, OpenIds;
      SturdyLedger(cfg, View());
      var snaps := GetPositions();
      var portfolioValue, unrealized := 0.0, 0.0;
      for i := 0 to |snaps|
        invariant portfolioValue == MarketValue(snaps[..i]) && unrealized == Unrealized(snaps[..i])
      {
        assert snaps[..i + 1] == snaps[..i] + [snaps[i]];
        SnapshotSumsAppend(snaps[..i], snaps[i]);
        portfolioValue := portfolioValue + snaps[i].marketValue;
        unrealized := unrealized + snaps[i].unrealized;
      }
      assert snaps[..|snaps|] == snaps;
      var open := ListOpenOrders();
      EquityIdentity(cfg, View());
      CostIdentity(cfg, View());
      a := AccountSnapshot(cash + portfolioValue, cash, cash * 2.0, portfolioValue, unrealized, |open|, |snaps|);
    }
  }
}
