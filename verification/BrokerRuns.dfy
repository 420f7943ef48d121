/** What holds over whole runs of the paper broker: any sequence of submissions,
    cancellations, price changes, ticks and clears. */
module BrokerRuns {
  import opened Orders
  import opened Ledger
  import opened Broker

  // ----- A tick in closed form -----

  /** The fills of a tick, each computed from the state before the tick. */
  function Events(cfg: Config, s: State, ids: seq<string>): seq<Fill> {
    if ids == [] then []
    else
      var n := |ids| - 1;
      Events(cfg, s, ids[..n]) + (if Fires(s, ids[n]) then [FillOf(cfg, s, ids[n])] else [])
  }

  /** An order after a tick that visits `ids`, computed from the state before the tick. */
  function OrderAfter(cfg: Config, s: State, ids: seq<string>, id: string): Order
    requires id in s.orders
  {
    if id in ids && Fires(s, id) then FilledOrder(cfg, s, id) else s.orders[id]
  }

  predicate Payable(s: State, ids: seq<string>) {
    forall id :: id in ids && Fires(s, id) ==> FillPrice(s, id) > 0.0
  }

  ghost predicate OrdersAtOnce(cfg: Config, s: State, ids: seq<string>, orders: map<string, Order>) {
    && orders.Keys == s.orders.Keys
    && (forall id :: id in s.orders ==> orders[id] == OrderAfter(cfg, s, ids, id))
  }

  predicate CompletedBy(cfg: Config, s: State, ids: seq<string>, id: string) {
    id in ids && Fires(s, id) && FilledOrder(cfg, s, id).status == Filled
  }

  ghost predicate PendingAtOnce(cfg: Config, s: State, ids: seq<string>, pending: map<string, Request>) {
    && (forall id :: id in pending <==> id in s.pending && !CompletedBy(cfg, s, ids, id))
    && (forall id :: id in pending ==> pending[id] == s.pending[id])
  }

  /** `t` is the tick over `ids` carried out all at once on `s`. */
  ghost predicate AtOnce(cfg: Config, s: State, ids: seq<string>, t: Ticking) {
    && !t.raised
    && t.state.prices == s.prices && t.state.orderIds == s.orderIds && t.state.clientIds == s.clientIds
    && t.state.log == s.log + Events(cfg, s, ids)
    && OrdersAtOnce(cfg, s, ids, t.state.orders)
    && PendingAtOnce(cfg, s, ids, t.state.pending)
  }

  /** The sequential loop computes the simultaneous tick. */
  lemma {:induction false} ProcessAllAtOnce(cfg: Config, s: State, ids: seq<string>)
    requires Distinct(ids) && Payable(s, ids)
    ensures AtOnce(cfg, s, ids, ProcessAll(cfg, s, ids))
  {
    if ids == [] {
      assert s.log + [] == s.log;
    } else {
      var n := |ids| - 1;
      assert ids[n] in ids && ids[n] !in ids[..n];
      ProcessAllAtOnce(cfg, s, ids[..n]);
      AtOnceStep(cfg, s, ids[..n], ids[n], ProcessAll(cfg, s, ids[..n]));
      assert ids[..n] + [ids[n]] == ids;
    }
  }

  lemma SameFiring(cfg: Config, s: State, ids: seq<string>, id: string, t: Ticking)
    requires AtOnce(cfg, s, ids, t) && id !in ids
    ensures Fires(t.state, id) <==> Fires(s, id)
    ensures Fires(s, id) ==>
              && FillPrice(t.state, id) == FillPrice(s, id)
              && FillOf(cfg, t.state, id) == FillOf(cfg, s, id)
              && FilledOrder(cfg, t.state, id) == FilledOrder(cfg, s, id)
  {
    hide ShouldFill, AfterFill, FillQuantity, Events;
  }

  lemma OrdersStep(cfg: Config, s: State, ids: seq<string>, id: string, orders: map<string, Order>)
    requires OrdersAtOnce(cfg, s, ids, orders) && id !in ids
    ensures Fires(s, id) ==> OrdersAtOnce(cfg, s, ids + [id], orders[id := FilledOrder(cfg, s, id)])
    ensures !Fires(s, id) ==> OrdersAtOnce(cfg, s, ids + [id], orders)
  {
    hide FilledOrder;
  }

  lemma PendingStep(cfg: Config, s: State, ids: seq<string>, id: string, pending: map<string, Request>)
    requires PendingAtOnce(cfg, s, ids, pending) && id !in ids
    ensures PendingAtOnce(cfg, s, ids + [id],
                          if CompletedBy(cfg, s, [id], id) then pending - {id} else pending)
  {
    hide Fires, FilledOrder;
  }

  lemma AtOnceStep(cfg: Config, s: State, ids: seq<string>, id: string, t: Ticking)
    requires AtOnce(cfg, s, ids, t) && id !in ids
    requires Fires(s, id) ==> FillPrice(s, id) > 0.0
    ensures AtOnce(cfg, s, ids + [id], ProcessOne(cfg, t, id))
  {
    hide Fires, FillPrice, FilledOrder, Posted, OrdersAtOnce, PendingAtOnce;
    assert (ids + [id])[..|ids|] == ids;
    SameFiring(cfg, s, ids, id, t);
    OrdersStep(cfg, s, ids, id, t.state.orders);
    PendingStep(cfg, s, ids, id, t.state.pending);
  }

  lemma {:induction false} OpenIdsAre(orders: map<string, Order>, ids: seq<string>)
    ensures forall id :: id in OpenIds(orders, ids) <==> id in ids && IsOpen(orders, id)
    ensures Distinct(ids) ==> Distinct(OpenIds(orders, ids))
  {
    if ids != [] {
      hide IsOpen;
      var n := |ids| - 1;
      OpenIdsAre(orders, ids[..n]);
      assert ids == ids[..n] + [ids[n]];
      assert Distinct(ids) ==> ids[n] !in ids[..n];
    }
  }

  /** A tick visits orders in the order of submission. */
  lemma {:induction false} OpenIdsInOrder(orders: map<string, Order>, ids: seq<string>, i: nat, j: nat, a: nat, b: nat)
    requires Distinct(ids) && i < j < |OpenIds(orders, ids)| && a < |ids| && b < |ids|
    requires ids[a] == OpenIds(orders, ids)[i] && ids[b] == OpenIds(orders, ids)[j]
    ensures a < b
  {
    hide IsOpen;
    var n := |ids| - 1;
    var before := OpenIds(orders, ids[..n]);
    OpenIdsAre(orders, ids[..n]);
    if j < |before| {
      assert before[j] in before && before[i] in before;
      OpenIdsInOrder(orders, ids[..n], i, j, a, b);
    } else {
      assert before[i] in before;
    }
  }

  /** In a reachable state a tick visits exactly the pending orders, each once. */
  lemma VisitsPending(cfg: Config, s: State)
    requires Inv(cfg, s)
    ensures Distinct(OpenIds(s.orders, s.orderIds))
    ensures forall id :: id in OpenIds(s.orders, s.orderIds) <==> id in s.pending
  {
    hide OpenIds, OrdersBacked, Balanced;
    OpenIdsAre(s.orders, s.orderIds);
    forall id ensures id in OpenIds(s.orders, s.orderIds) <==> id in s.pending {
      OpenIsPending(s, id);
      if id in s.orders {
        assert Sound(s.orders[id]);
      }
    }
  }

  // ----- Ticks that raise -----

  lemma {:induction false} RaisedStays(cfg: Config, s: State, ids: seq<string>, k: nat)
    requires k <= |ids| && ProcessAll(cfg, s, ids[..k]).raised
    ensures ProcessAll(cfg, s, ids) == ProcessAll(cfg, s, ids[..k])
  {
    var n := |ids| - 1;
    if k == |ids| {
      assert ids[..k] == ids;
    } else {
      assert ids[..n][..k] == ids[..k];
      RaisedStays(cfg, s, ids[..n], k);
    }
  }

  /** The first order that fires at a price that is not positive stops the tick;
      all orders before it have been settled. */
  lemma {:induction false} FirstUnpayable(cfg: Config, s: State, ids: seq<string>) returns (k: nat)
    requires Distinct(ids) && !Payable(s, ids)
    ensures k < |ids| && Payable(s, ids[..k])
    ensures Fires(s, ids[k]) && FillPrice(s, ids[k]) <= 0.0
    ensures ProcessAll(cfg, s, ids) == ProcessAll(cfg, s, ids[..k + 1])
    ensures ProcessAll(cfg, s, ids).raised
  {
    hide Fires, FillPrice, FilledOrder, Settled, AtOnce;
    var n := |ids| - 1;
    assert ids == ids[..n] + [ids[n]];
    if Payable(s, ids[..n]) {
      k := n;
      LastUnpayable(cfg, s, ids[..n], ids[n]);
      assert ids[..n + 1] == ids;
    } else {
      k := FirstUnpayable(cfg, s, ids[..n]);
      assert ids[..n][..k] == ids[..k] && ids[..n][..k + 1] == ids[..k + 1];
      RaisedStays(cfg, s, ids, k + 1);
    }
  }

  lemma LastUnpayable(cfg: Config, s: State, ids: seq<string>, id: string)
    requires Distinct(ids) && Payable(s, ids) && id !in ids && Fires(s, id) && FillPrice(s, id) <= 0.0
    ensures ProcessAll(cfg, s, ids + [id]).raised
  {
    hide Fires, FillPrice, FilledOrder, Settled;
    ProcessAllAtOnce(cfg, s, ids);
    SameFiring(cfg, s, ids, id, ProcessAll(cfg, s, ids));
    assert (ids + [id])[..|ids|] == ids;
  }

  /** A tick raises exactly when some order fires at a price that is not positive. */
  lemma RaisesExactly(cfg: Config, s: State, ids: seq<string>)
    requires Distinct(ids)
    ensures ProcessAll(cfg, s, ids).raised <==> !Payable(s, ids)
  {
    if Payable(s, ids) {
      ProcessAllAtOnce(cfg, s, ids);
    } else {
      var k := FirstUnpayable(cfg, s, ids);
    }
  }

  /** A tick keeps the ledger in agreement exactly when every order that fires does
      so at a positive price; otherwise one order has been filled without a record. */
  lemma TickKeepsExactly(cfg: Config, s: State)
    requires Inv(cfg, s)
    ensures Inv(cfg, TickOf(cfg, s).state) <==> Payable(s, OpenIds(s.orders, s.orderIds))
  {
    hide Fires, FillPrice, Indexed, OrdersSound, OrdersBacked, Balanced, OpenIds;
    var ids := OpenIds(s.orders, s.orderIds);
    VisitsPending(cfg, s);
    RaisesExactly(cfg, s, ids);
    if Payable(s, ids) {
      ProcessAllKeeps(cfg, s, ids);
    } else {
      var k := FirstUnpayable(cfg, s, ids);
      UnrecordedFill(cfg, s, ids[..k], ids[k]);
      assert ids[..k + 1] == ids[..k] + [ids[k]];
    }
  }

  lemma UnrecordedFill(cfg: Config, s: State, ids: seq<string>, id: string)
    requires Inv(cfg, s) && Distinct(ids) && Payable(s, ids) && id !in ids
    requires Fires(s, id) && FillPrice(s, id) <= 0.0
    ensures !OrdersBacked(ProcessAll(cfg, s, ids + [id]).state)
  {
    hide Fires, FillPrice, FilledOrder, Settled, Indexed, Sound, Balanced, Backed, Worth;
    var t := ProcessAll(cfg, s, ids);
    ProcessAllAtOnce(cfg, s, ids);
    ProcessAllKeeps(cfg, s, ids);
    SameFiring(cfg, s, ids, id, t);
    assert (ids + [id])[..|ids|] == ids;
    var s' := ProcessAll(cfg, s, ids + [id]).state;
    assert s' == t.state.(orders := t.state.orders[id := FilledOrder(cfg, t.state, id)]);
    assert id in t.state.orders by { FiringIsOrder(s, id); }
    BackedOnlyOnce(cfg, t.state, id);
  }

  lemma FiringIsOrder(s: State, id: string)
    requires Fires(s, id)
    ensures id in s.orders
  {
  }

  /** One fill list cannot back an order both before and after a fill. */
  lemma BackedOnlyOnce(cfg: Config, s: State, id: string)
    requires OrdersSound(s) && OrdersBacked(s) && Fires(s, id)
    ensures !Backed(FilledOrder(cfg, s, id), s.fills[id])
  {
    hide Sound, AfterFill, Worth;
    FilledOrderSound(cfg, s, id);
  }
}
