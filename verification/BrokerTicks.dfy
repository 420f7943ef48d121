/** What a tick does, said in terms of orders and prices: which orders fill, at what price
    and by how much, and what the caller is told. */
module BrokerTicks {
  import opened Wrappers
  import opened Orders
  import opened Ledger
  import opened Broker
  import opened BrokerRuns
  import opened BrokerTraces
  import opened TickPermutation

  /** For prices that request construction accepts, an order fills exactly at the prices that
      its limit or stop allows. */
  lemma FillsWhenProtected(o: Order, price: real)
    requires ValidPrices(o.orderType, o.limitPrice, o.stopPrice)
    ensures ShouldFill(o, price) <==> Protects(o, price)
  {
  }

  /** The order can trade now: it is open, its symbol has a price, and its limit or stop
      allows that price. */
  predicate Tradable(s: State, id: string) {
    && id in s.orders && !Terminal(s.orders[id].status)
    && s.orders[id].symbol in s.prices && Protects(s.orders[id], s.prices[s.orders[id].symbol])
  }

  lemma FiresExactly(cfg: Config, s: State, id: string)
    requires Sturdy(cfg, s)
    ensures Fires(s, id) <==> Tradable(s, id)
  {
    hide Listed, ClientsAgree, Balanced, ShouldFill, Protects, Echoes;
    if Fires(s, id) {
      FiringIsOpen(cfg, s, id);
    }
    if id in s.orders {
      assert Sound(s.orders[id]);
      if s.orders[id].symbol in s.prices {
        FillsWhenProtected(s.orders[id], s.prices[s.orders[id].symbol]);
      }
    }
  }

  lemma OpenIsVisited(cfg: Config, s: State, id: string)
    requires Sturdy(cfg, s) && id in s.orders
    ensures Distinct(OpenIds(s.orders, s.orderIds))
    ensures id in OpenIds(s.orders, s.orderIds) <==> !Terminal(s.orders[id].status)
  {
    hide ClientsAgree, Balanced, OpenIds, Protects;
    OpenIdsAre(s.orders, s.orderIds);
    assert Sound(s.orders[id]);
  }

  /** The fill that an order gets when it can trade. */
  function FillAt(cfg: Config, s: State, id: string, quantity: real): Fill
    requires Tradable(s, id)
  {
    var o := s.orders[id];
    Fill(o.clientId, id, o.symbol, o.side, s.prices[o.symbol], quantity, cfg.commission)
  }

  /** A tick that does not raise fills exactly the orders that can trade, each once and at the
      current price; an order is filled more afterwards if and only if it could trade, and
      every other order is as it was. */
  lemma TickFillsExactly(cfg: Config, s: State, id: string)
    requires Sturdy(cfg, s) && !TickOf(cfg, s).raised && id in s.orders
    ensures var s' := TickOf(cfg, s).state;
            && id in s'.orders
            && var o, o' := s.orders[id], s'.orders[id];
            && (o'.filled > o.filled <==> Tradable(s, id))
            && (!Tradable(s, id) ==> o' == o && FillsOf(s'.log, id) == FillsOf(s.log, id))
            && (Tradable(s, id) ==>
                FillsOf(s'.log, id) == FillsOf(s.log, id) + [FillAt(cfg, s, id, o'.filled - o.filled)])
            && (Tradable(s, id) ==> o'.filled - o.filled == FillQuantity(o.quantity - o.filled, cfg.ratio))
  {
    hide Sturdy, Fires, Tradable, OpenIds, ProcessAll, Events, FilledOrder, FillOf;
    var ids := OpenIds(s.orders, s.orderIds);
    OpenIsVisited(cfg, s, id);
    RaisesExactly(cfg, s, ids);
    ProcessAllAtOnce(cfg, s, ids);
    FiresExactly(cfg, s, id);
    EventsOfOrder(cfg, s, ids, id);
    FillsOfConcat(s.log, Events(cfg, s, ids), id);
    if Fires(s, id) {
      TradableIsOpen(s, id);
      FiringFills(cfg, s, id);
    } else {
      assert FillsOf(s.log, id) + [] == FillsOf(s.log, id);
    }
  }

  lemma TradableIsOpen(s: State, id: string)
    requires Tradable(s, id)
    ensures id in s.orders && !Terminal(s.orders[id].status)
  {
  }

  lemma FiringFills(cfg: Config, s: State, id: string)
    requires Sturdy(cfg, s) && Fires(s, id) && Tradable(s, id)
    ensures var o, o' := s.orders[id], FilledOrder(cfg, s, id);
            && o'.filled > o.filled && o'.filled - o.filled == FillQuantity(o.quantity - o.filled, cfg.ratio)
            && FillOf(cfg, s, id) == FillAt(cfg, s, id, o'.filled - o.filled)
  {
    hide Sturdy, FillQuantity, Blend, Protects, ShouldFill;
    var o := s.orders[id];
    FillIsPositive(o.quantity - o.filled, cfg.ratio);
  }

  /** In a valid state the orders that can trade are pending ones. */
  lemma ValidTickFillsExactly(cfg: Config, s: State, id: string)
    requires Inv(cfg, s) && !TickOf(cfg, s).raised && id in s.orders
    ensures var s', o := TickOf(cfg, s).state, s.orders[id];
            && id in s'.orders
            && (s'.orders[id].filled > o.filled <==>
                id in s.pending && o.symbol in s.prices && Protects(o, s.prices[o.symbol]))
  {
    hide Listed, ClientsAgree, PendingAgrees, OrdersSound, OrdersBacked, Balanced, TickOf, Protects;
    InvIsSturdy(cfg, s);
    OpenIsPending(s, id);
    hide Sturdy, Inv;
    TickFillsExactly(cfg, s, id);
  }

  // ----- What the caller is told -----

  /** Fills of a tick belong to orders that it visits. */
  lemma {:induction false} EventsAreVisited(cfg: Config, s: State, ids: seq<string>)
    ensures forall i :: 0 <= i < |Events(cfg, s, ids)| ==>
              Events(cfg, s, ids)[i].brokerId in ids && Fires(s, Events(cfg, s, ids)[i].brokerId)
  {
    if ids != [] {
      hide Fires;
      EventsAreVisited(cfg, s, ids[..|ids| - 1]);
    }
  }

  lemma {:induction false} EventsInOrder(cfg: Config, s: State, ids: seq<string>, i: nat, j: nat, a: nat, b: nat)
    requires Distinct(ids) && i < j < |Events(cfg, s, ids)| && a < |ids| && b < |ids|
    requires ids[a] == Events(cfg, s, ids)[i].brokerId && ids[b] == Events(cfg, s, ids)[j].brokerId
    ensures a < b
  {
    hide Fires;
    var n := |ids| - 1;
    var before := Events(cfg, s, ids[..n]);
    EventsAreVisited(cfg, s, ids[..n]);
    if j < |before| {
      EventsInOrder(cfg, s, ids[..n], i, j, a, b);
    }
  }

  /** The answer of a tick holds, fill by fill, the new state of the order. */
  lemma {:induction false} AnswersAre(cfg: Config, s: State, ids: seq<string>)
    requires Distinct(ids) && Payable(s, ids)
    ensures var t, events := ProcessAll(cfg, s, ids), Events(cfg, s, ids);
            && |t.filled| == |events|
            && forall i :: 0 <= i < |events| ==>
                 events[i].brokerId in t.state.orders && t.filled[i] == t.state.orders[events[i].brokerId]
  {
    if ids != [] {
      hide Fires, FilledOrder, Posted, AddKey, FillQuantity;
      var n := |ids| - 1;
      var before := ids[..n];
      assert ids[n] in ids && ids[n] !in before;
      AnswersAre(cfg, s, before);
      ProcessAllAtOnce(cfg, s, before);
      SameFiring(cfg, s, before, ids[n], ProcessAll(cfg, s, before));
      EventsAreVisited(cfg, s, before);
    }
  }

  lemma EventBelongs(cfg: Config, s: State, ids: seq<string>, id: string)
    requires Distinct(ids) && id in ids && Fires(s, id)
    ensures exists i :: 0 <= i < |Events(cfg, s, ids)| && Events(cfg, s, ids)[i].brokerId == id
  {
    hide Fires, Events;
    EventsOfOrder(cfg, s, ids, id);
    FillsComeFrom(Events(cfg, s, ids), id);
  }

  lemma {:induction false} FillsComeFrom(log: seq<Fill>, id: string)
    ensures FillsOf(log, id) != [] ==> exists i :: 0 <= i < |log| && log[i].brokerId == id
  {
    if log != [] {
      var n := |log| - 1;
      FillsComeFrom(log[..n], id);
      if FillsOf(log[..n], id) != [] {
        var i :| 0 <= i < n && log[..n][i].brokerId == id;
        assert log[i].brokerId == id;
      }
    }
  }

  /** The orders stand as their ids do, none twice. */
  ghost predicate Follows(orders: seq<Order>, ids: seq<string>) {
    forall i, j, a, b :: 0 <= i < j < |orders| && Stands(orders, i, ids, a) && Stands(orders, j, ids, b) ==> a < b
  }

  predicate Stands(orders: seq<Order>, i: nat, ids: seq<string>, a: int) {
    i < |orders| && 0 <= a < |ids| && ids[a] == orders[i].brokerId
  }

  /** A tick that does not raise answers with the new states of exactly the orders that were
      filled, each once and in the order of submission. */
  lemma TickAnswersExactly(cfg: Config, s: State)
    requires Sturdy(cfg, s) && !TickOf(cfg, s).raised
    ensures var t := TickOf(cfg, s);
            && (forall o :: o in t.filled ==> o.brokerId in s.orders && o.brokerId in t.state.orders
                                              && o == t.state.orders[o.brokerId])
            && (forall id :: id in s.orders ==>
                  id in t.state.orders
                  && (t.state.orders[id] in t.filled <==> t.state.orders[id].filled > s.orders[id].filled))
            && Follows(t.filled, s.orderIds)
  {
    hide Sturdy, Fires, OpenIds, ProcessAll, Events, OrdersAtOnce;
    var ids := OpenIds(s.orders, s.orderIds);
    var t, events := TickOf(cfg, s), Events(cfg, s, ids);
    SturdyListing(cfg, s);
    OpenIdsAre(s.orders, s.orderIds);
    RaisesExactly(cfg, s, ids);
    AnswersAre(cfg, s, ids);
    EventsAreVisited(cfg, s, ids);
    TickStaysSturdy(cfg, s, ids);
    TickFrame(cfg, s, ids);
    forall i | 0 <= i < |t.filled| ensures t.filled[i].brokerId == events[i].brokerId {
      OwnId(cfg, t.state, events[i].brokerId);
    }
    forall id | id in s.orders
      ensures id in t.state.orders
      ensures t.state.orders[id] in t.filled <==> t.state.orders[id].filled > s.orders[id].filled
    {
      AnsweredExactly(cfg, s, id);
    }
    forall i, j, a, b |
      0 <= i < j < |t.filled| && Stands(t.filled, i, s.orderIds, a) && Stands(t.filled, j, s.orderIds, b)
      ensures a < b
    {
      AnswersInOrder(cfg, s, i, j, a, b);
    }
  }

  lemma OwnId(cfg: Config, s: State, id: string)
    requires Sturdy(cfg, s) && id in s.orders
    ensures s.orders[id].brokerId == id
  {
  }

  lemma AnsweredExactly(cfg: Config, s: State, id: string)
    requires Sturdy(cfg, s) && !TickOf(cfg, s).raised && id in s.orders
    ensures var t := TickOf(cfg, s);
            id in t.state.orders
            && (t.state.orders[id] in t.filled <==> t.state.orders[id].filled > s.orders[id].filled)
  {
    hide Sturdy, Fires, OpenIds, ProcessAll, Events, Tradable;
    var ids := OpenIds(s.orders, s.orderIds);
    var t, events := TickOf(cfg, s), Events(cfg, s, ids);
    TickFillsExactly(cfg, s, id);
    FiresExactly(cfg, s, id);
    OpenIsVisited(cfg, s, id);
    RaisesExactly(cfg, s, ids);
    AnswersAre(cfg, s, ids);
    EventsAreVisited(cfg, s, ids);
    TickStaysSturdy(cfg, s, ids);
    OwnId(cfg, t.state, id);
    if Fires(s, id) {
      TradableIsOpen(s, id);
      EventBelongs(cfg, s, ids, id);
      var i :| 0 <= i < |events| && events[i].brokerId == id;
      assert t.filled[i] == t.state.orders[id];
    }
    if t.state.orders[id] in t.filled {
      var i :| 0 <= i < |t.filled| && t.filled[i] == t.state.orders[id];
      OwnId(cfg, t.state, events[i].brokerId);
    }
  }

  lemma AnswersInOrder(cfg: Config, s: State, i: nat, j: nat, a: nat, b: nat)
    requires Sturdy(cfg, s) && !TickOf(cfg, s).raised && i < j < |TickOf(cfg, s).filled|
    requires a < |s.orderIds| && b < |s.orderIds|
    requires s.orderIds[a] == TickOf(cfg, s).filled[i].brokerId && s.orderIds[b] == TickOf(cfg, s).filled[j].brokerId
    ensures a < b
  {
    hide Sturdy, Fires, OpenIds, ProcessAll, Events;
    var ids := OpenIds(s.orders, s.orderIds);
    var t, events := TickOf(cfg, s), Events(cfg, s, ids);
    SturdyListing(cfg, s);
    OpenIdsAre(s.orders, s.orderIds);
    RaisesExactly(cfg, s, ids);
    AnswersAre(cfg, s, ids);
    EventsAreVisited(cfg, s, ids);
    TickStaysSturdy(cfg, s, ids);
    OwnId(cfg, t.state, events[i].brokerId);
    OwnId(cfg, t.state, events[j].brokerId);
    var x :| 0 <= x < |ids| && ids[x] == events[i].brokerId;
    var y :| 0 <= y < |ids| && ids[y] == events[j].brokerId;
    EventsInOrder(cfg, s, ids, i, j, x, y);
    OpenIdsInOrder(s.orders, s.orderIds, x, y, a, b);
  }
}
