/** Traces in which ticks may raise: what still holds in every state the adapter can be
    left in, at any prices. */
module BrokerTraces {
  import opened Orders
  import opened Ledger
  import opened Broker
  import opened BrokerRuns

  // ----- What a refused fill record does not break -----

  /** Every open order still has its request, and no cancelled one has. */
  ghost predicate OpenArePending(s: State) {
    && (forall id :: id in s.orders && !Terminal(s.orders[id].status) ==>
          id in s.pending && Echoes(s.orders[id], s.pending[id]))
    && (forall id :: id in s.pending ==> id in s.orders && s.orders[id].status != Cancelled)
  }

  /** The invariant without two parts: that completed orders leave the pending requests, and
      that fill lists back their orders. */
  ghost predicate Sturdy(cfg: Config, s: State) {
    Listed(s) && ClientsAgree(s) && OpenArePending(s) && OrdersSound(s) && Balanced(cfg, s)
  }

  lemma InvIsSturdy(cfg: Config, s: State)
    requires Inv(cfg, s)
    ensures Sturdy(cfg, s)
  {
    hide Balanced, OrdersBacked, Sound, Echoes;
  }

  lemma FiringIsOpen(cfg: Config, s: State, id: string)
    requires Sturdy(cfg, s) && Fires(s, id)
    ensures id in s.orders && !Terminal(s.orders[id].status)
  {
    hide Balanced, Listed, ClientsAgree, Protects, ShouldFill;
    assert Sound(s.orders[id]);
  }

  // ----- One fill, recorded or refused -----

  /** The order is replaced; everything else stays. */
  function WithOrder(s: State, id: string, o: Order): State { s.(orders := s.orders[id := o]) }

  lemma WithOrderListed(s: State, id: string, o: Order)
    requires Listed(s) && id in s.orders && SameIdentity(s.orders[id], o)
    ensures Listed(WithOrder(s, id, o))
  {
  }

  lemma WithOrderClients(s: State, id: string, o: Order)
    requires ClientsAgree(s) && id in s.orders && SameIdentity(s.orders[id], o)
    ensures ClientsAgree(WithOrder(s, id, o))
  {
  }

  lemma WithOrderPending(s: State, id: string, o: Order)
    requires OpenArePending(s) && id in s.orders && SameIdentity(s.orders[id], o)
    requires !Terminal(s.orders[id].status) && o.status != Cancelled
    ensures OpenArePending(WithOrder(s, id, o))
  {
  }

  lemma ReplacedLedger(cfg: Config, s: State, id: string, o: Order)
    requires OrdersSound(s) && Balanced(cfg, s) && id in s.orders && SameIdentity(s.orders[id], o) && Sound(o)
    ensures OrdersSound(WithOrder(s, id, o)) && Balanced(cfg, WithOrder(s, id, o))
  {
    hide Replay, Worth, Sound;
    assert forall f :: f in s.log ==> Recorded(cfg, s, f);
  }

  /** An update whose fill record is refused. */
  lemma RefusedKeeps(cfg: Config, s: State, id: string)
    requires Sturdy(cfg, s) && Fires(s, id)
    ensures Sturdy(cfg, WithOrder(s, id, FilledOrder(cfg, s, id)))
  {
    FiringIsOpen(cfg, s, id);
    hide Listed, ClientsAgree, OpenArePending, Balanced, Sound, AfterFill;
    FilledOrderSound(cfg, s, id);
    WithOrderListed(s, id, FilledOrder(cfg, s, id));
    WithOrderClients(s, id, FilledOrder(cfg, s, id));
    WithOrderPending(s, id, FilledOrder(cfg, s, id));
    ReplacedLedger(cfg, s, id, FilledOrder(cfg, s, id));
  }

  lemma BookedListed(s: State, s': State, id: string)
    requires Listed(s) && id in s.orders && s'.fills.Keys == s.fills.Keys + {id}
    requires s'.orders == s.orders && s'.orderIds == s.orderIds
    ensures Listed(s')
  {
    assert s.fills.Keys + {id} == s.fills.Keys;
  }

  lemma BookedClients(s: State, s': State)
    requires ClientsAgree(s) && s'.orders == s.orders && s'.clientIds == s.clientIds
    ensures ClientsAgree(s')
  {
  }

  lemma BookedPending(s: State, s': State, id: string)
    requires OpenArePending(s) && id in s.orders && s'.orders == s.orders
    requires s'.pending == if s.orders[id].status == Filled then s.pending - {id} else s.pending
    ensures OpenArePending(s')
  {
    hide Echoes;
  }

  lemma SettledKeeps(cfg: Config, s: State, id: string)
    requires Sturdy(cfg, s) && Fires(s, id) && FillPrice(s, id) > 0.0
    ensures Sturdy(cfg, Settled(cfg, s, id))
  {
    hide Listed, ClientsAgree, OpenArePending, Balanced, Sound, AfterFill, FillQuantity, Moved, Worth, Posted, AddKey,
         ShouldFill;
    RefusedKeeps(cfg, s, id);
    FilledOrderSound(cfg, s, id);
    SettleKeepsBalanced(cfg, s, id);
    var updated, booked := WithOrder(s, id, FilledOrder(cfg, s, id)), Settled(cfg, s, id);
    BookedListed(updated, booked, id);
    BookedClients(updated, booked);
    BookedPending(updated, booked, id);
  }

  lemma ProcessOneKeeps(cfg: Config, t: Ticking, id: string)
    requires Sturdy(cfg, t.state)
    ensures Sturdy(cfg, ProcessOne(cfg, t, id).state)
  {
    hide Sturdy, Fires, FilledOrder, Settled;
    if !t.raised && Fires(t.state, id) {
      RefusedKeeps(cfg, t.state, id);
      if FillPrice(t.state, id) > 0.0 {
        SettledKeeps(cfg, t.state, id);
      }
    }
  }

  /** A tick, raising or not, at every point of its loop. */
  lemma {:induction false} TickStaysSturdy(cfg: Config, s: State, ids: seq<string>)
    requires Sturdy(cfg, s)
    ensures Sturdy(cfg, ProcessAll(cfg, s, ids).state)
  {
    hide Sturdy, ProcessOne;
    if ids != [] {
      TickStaysSturdy(cfg, s, ids[..|ids| - 1]);
      ProcessOneKeeps(cfg, ProcessAll(cfg, s, ids[..|ids| - 1]), ids[|ids| - 1]);
    }
  }

  // ----- The other operations -----

  lemma SubmitLedger(cfg: Config, s: State, r: Request, freshId: string)
    requires OrdersSound(s) && Balanced(cfg, s) && ValidRequest(r) && freshId !in s.orders
    ensures OrdersSound(Submitting(s, r, freshId)) && Balanced(cfg, Submitting(s, r, freshId))
  {
    hide Replay, Worth, Protects;
    assert forall f :: f in s.log ==> Recorded(cfg, s, f);
  }

  lemma SubmitPending(s: State, r: Request, freshId: string)
    requires OpenArePending(s) && freshId !in s.orders && r.clientId !in s.clientIds
    ensures OpenArePending(Submitting(s, r, freshId))
  {
  }

  lemma SubmitStaysSturdy(cfg: Config, s: State, r: Request, freshId: string)
    requires Sturdy(cfg, s) && ValidRequest(r) && freshId !in s.orders
    ensures Sturdy(cfg, Submitting(s, r, freshId))
  {
    hide Listed, ClientsAgree, OpenArePending, OrdersSound, Balanced;
    if r.clientId !in s.clientIds {
      SubmitKeepsListed(s, r, freshId);
      SubmitKeepsClients(s, r, freshId);
      SubmitPending(s, r, freshId);
      SubmitLedger(cfg, s, r, freshId);
    }
  }

  lemma CancelPending(s: State, id: string)
    requires OpenArePending(s)
    ensures OpenArePending(Cancelling(s, id))
  {
  }

  lemma CancelStaysSturdy(cfg: Config, s: State, id: string)
    requires Sturdy(cfg, s)
    ensures Sturdy(cfg, Cancelling(s, id))
  {
    hide Listed, ClientsAgree, OpenArePending, Balanced;
    CancelPending(s, id);
    if id in s.orders && !Terminal(s.orders[id].status) {
      var o := s.orders[id].(status := Cancelled);
      assert Sound(s.orders[id]);
      ReplaceKeepsListed(s, id, o);
      ReplaceKeepsClients(s, id, o);
      ReplaceKeepsBalanced(cfg, s, id, o);
    }
  }

  lemma PriceStaysSturdy(cfg: Config, s: State, symbol: string, price: real)
    requires Sturdy(cfg, s)
    ensures Sturdy(cfg, s.(prices := s.prices[symbol := price]))
  {
    hide Balanced, Sound, Echoes;
    SetPriceKeepsBalanced(cfg, s, s.prices[symbol := price]);
  }

  // ----- Traces -----

  /** What the contracts demand of the caller: valid requests under ids never used before.
      Ticks may raise. */
  predicate Accepted(s: State, op: Op) { op.Submit? ==> ValidRequest(op.request) && op.freshId !in s.orders }

  predicate AcceptedRun(cfg: Config, s: State, ops: seq<Op>)
    decreases ops
  {
    ops == [] || (Accepted(s, ops[0]) && AcceptedRun(cfg, Step(cfg, s, ops[0]), ops[1..]))
  }

  lemma StepStaysSturdy(cfg: Config, s: State, op: Op)
    requires Sturdy(cfg, s) && Accepted(s, op)
    ensures Sturdy(cfg, Step(cfg, s, op))
  {
    hide Sturdy, Submitting, Cancelling, ProcessAll, Inv;
    match op
    case Submit(r, freshId) => SubmitStaysSturdy(cfg, s, r, freshId);
    case Cancel(id) => CancelStaysSturdy(cfg, s, id);
    case Tick => TickStaysSturdy(cfg, s, OpenIds(s.orders, s.orderIds));
    case SetPrice(symbol, price) => PriceStaysSturdy(cfg, s, symbol, price);
    case Clear =>
      OpeningKeeps(cfg, s.prices);
      InvIsSturdy(cfg, Opening(cfg, s.prices));
  }

  /** Every trace of accepted calls, raising ticks included. */
  lemma {:induction false} TraceStaysSturdy(cfg: Config, s: State, ops: seq<Op>)
    requires Sturdy(cfg, s) && AcceptedRun(cfg, s, ops)
    ensures Sturdy(cfg, Run(cfg, s, ops))
    decreases ops
  {
    if ops != [] {
      hide Sturdy, Step, Accepted;
      StepStaysSturdy(cfg, s, ops[0]);
      TraceStaysSturdy(cfg, Step(cfg, s, ops[0]), ops[1..]);
    }
  }

  lemma {:induction false} LegalIsAccepted(cfg: Config, s: State, ops: seq<Op>)
    requires LegalRun(cfg, s, ops)
    ensures AcceptedRun(cfg, s, ops)
    decreases ops
  {
    if ops != [] {
      hide Step;
      LegalIsAccepted(cfg, Step(cfg, s, ops[0]), ops[1..]);
    }
  }

  // ----- Ticks, order by order -----

  /** A tick replaces orders, and keeps prices, ids and client ids. */
  lemma {:induction false} TickFrame(cfg: Config, s: State, ids: seq<string>)
    ensures var s' := ProcessAll(cfg, s, ids).state;
            && s'.prices == s.prices && s'.orderIds == s.orderIds && s'.clientIds == s.clientIds
            && s'.orders.Keys == s.orders.Keys
            && forall id :: id in s.orders && id !in ids ==> s'.orders[id] == s.orders[id]
  {
    if ids != [] {
      hide Fires, AfterFill, FillQuantity, Posted, AddKey;
      var n := |ids| - 1;
      TickFrame(cfg, s, ids[..n]);
      var t := ProcessAll(cfg, s, ids[..n]);
      assert ids == ids[..n] + [ids[n]];
      if Fires(t.state, ids[n]) {
        FiringIsOrder(t.state, ids[n]);
      }
    }
  }

  /** The fills of a tick, raising or not, happen at current prices. */
  ghost predicate AtMarket(prices: map<string, real>, log: seq<Fill>) {
    forall f :: f in log ==> f.price == PriceOf(prices, f.symbol)
  }

  lemma {:induction false} TickTradesAtMarket(cfg: Config, s: State, ids: seq<string>) returns (added: seq<Fill>)
    ensures ProcessAll(cfg, s, ids).state.log == s.log + added && AtMarket(s.prices, added)
  {
    hide AfterFill, FillQuantity, Posted, AddKey, ShouldFill;
    if ids == [] {
      added := [];
    } else {
      var n := |ids| - 1;
      added := TickTradesAtMarket(cfg, s, ids[..n]);
      TickFrame(cfg, s, ids[..n]);
      var t := ProcessAll(cfg, s, ids[..n]);
      if !t.raised && Fires(t.state, ids[n]) && FillPrice(t.state, ids[n]) > 0.0 {
        var f := FillOf(cfg, t.state, ids[n]);
        assert s.log + (added + [f]) == (s.log + added) + [f];
        added := added + [f];
      }
    }
  }

  /** Every order a tick comes to is still open and still has its request: the skip for a
      missing request is never taken, also after ticks that raised. */
  lemma RequestNeverMissing(cfg: Config, s: State, k: nat)
    requires Sturdy(cfg, s) && k < |OpenIds(s.orders, s.orderIds)|
    ensures var ids := OpenIds(s.orders, s.orderIds);
            var s' := ProcessAll(cfg, s, ids[..k]).state;
            && Sturdy(cfg, s') && ids[k] in s'.orders && ids[k] in s'.pending
            && 0.0 <= s'.orders[ids[k]].filled < s'.orders[ids[k]].quantity
  {
    hide Sturdy, ProcessAll, OpenIds;
    var ids := OpenIds(s.orders, s.orderIds);
    SturdyListing(cfg, s);
    OpenIdsAre(s.orders, s.orderIds);
    assert ids[k] in ids && ids[k] !in ids[..k];
    TickStaysSturdy(cfg, s, ids[..k]);
    TickFrame(cfg, s, ids[..k]);
    OpenIsReady(cfg, ProcessAll(cfg, s, ids[..k]).state, ids[k]);
  }

  lemma SturdyListing(cfg: Config, s: State)
    requires Sturdy(cfg, s)
    ensures Distinct(s.orderIds) && forall id :: id in s.orderIds <==> id in s.orders
  {
  }

  lemma OpenIsReady(cfg: Config, s: State, id: string)
    requires Sturdy(cfg, s) && IsOpen(s.orders, id)
    ensures id in s.pending && 0.0 <= s.orders[id].filled < s.orders[id].quantity
  {
    hide Listed, ClientsAgree, Balanced;
    assert Sound(s.orders[id]);
  }
}
