/** The paper broker as a state machine: one transition per public operation, the
    loop body of a tick, and the invariant every operation keeps. */
module Broker {
  import opened Orders
  import opened Ledger

  datatype Config = Config(initialEquity: real, commission: real, ratio: real)

  /** Dictionaries keep insertion order: `orderIds` and `symbols` record it.  `log`
      is the history of all fills since the last clear. */
  datatype State = State(
    prices: map<string, real>,
    orders: map<string, Order>, orderIds: seq<string>,
    pending: map<string, Request>,
    clientIds: map<string, string>,
    fills: map<string, seq<Fill>>,
    positions: Book, symbols: seq<string>,
    cash: real, paid: real,
    log: seq<Fill>)

  function Opening(cfg: Config, prices: map<string, real>): State {
    State(prices, map[], [], map[], map[], map[], map[], [], cfg.initialEquity, 0.0, [])
  }

  datatype Op =
    | Submit(request: Request, freshId: string)
    | Cancel(id: string)
    | Tick
    | SetPrice(symbol: string, price: real)
    | Clear

  // ----- Transitions -----

  function Submitting(s: State, r: Request, freshId: string): State {
    if r.clientId in s.clientIds then s
    else s.(orders := s.orders[freshId := Acknowledge(r, freshId)],
            orderIds := s.orderIds + [freshId],
            pending := s.pending[freshId := r],
            clientIds := s.clientIds[r.clientId := freshId],
            fills := s.fills[freshId := []])
  }

  /** An unknown id raises and a terminal order is returned as it is; neither changes the state. */
  function Cancelling(s: State, id: string): State {
    if id !in s.orders || Terminal(s.orders[id].status) then s
    else s.(orders := s.orders[id := s.orders[id].(status := Cancelled)],
            pending := s.pending - {id})
  }

  /** The order is pending, priced and meets its fill condition.  The last conjunct holds of
      every order that a tick comes to (see BrokerTraces.RequestNeverMissing). */
  predicate Fires(s: State, id: string) {
    && id in s.orders && id in s.pending
    && s.orders[id].symbol in s.prices
    && ShouldFill(s.orders[id], s.prices[s.orders[id].symbol])
    && 0.0 <= s.orders[id].filled < s.orders[id].quantity
  }

  function FillPrice(s: State, id: string): real
    requires Fires(s, id)
  {
    s.prices[s.orders[id].symbol]
  }

  function FillOf(cfg: Config, s: State, id: string): Fill
    requires Fires(s, id)
  {
    var o := s.orders[id];
    Fill(o.clientId, id, o.symbol, o.side, FillPrice(s, id),
         FillQuantity(o.quantity - o.filled, cfg.ratio), cfg.commission)
  }

  function FilledOrder(cfg: Config, s: State, id: string): Order
    requires Fires(s, id)
  {
    AfterFill(s.orders[id], FillPrice(s, id), cfg.ratio)
  }

  /** Books one fill everywhere: order, fill list, position, cash, commission, pending. */
  function Booked(cfg: Config, s: State, o: Order, f: Fill): State {
    var id := f.brokerId;
    s.(orders := s.orders[id := o],
       fills := s.fills[id := (if id in s.fills then s.fills[id] else []) + [f]],
       positions := Posted(s.positions, f),
       symbols := AddKey(s.symbols, f.symbol),
       cash := s.cash - SignedNotional(f) - cfg.commission,
       paid := s.paid + cfg.commission,
       pending := if o.status == Filled then s.pending - {id} else s.pending,
       log := s.log + [f])
  }

  function Settled(cfg: Config, s: State, id: string): State
    requires Fires(s, id)
  {
    Booked(cfg, s, FilledOrder(cfg, s, id), FillOf(cfg, s, id))
  }

  /** A tick in progress: the fills so far and whether a fill record was refused. */
  datatype Ticking = Ticking(state: State, filled: seq<Order>, raised: bool)

  /** The loop body of a tick.  A fill record needs a positive price: it is refused
      after the order itself has already been updated. */
  function ProcessOne(cfg: Config, t: Ticking, id: string): Ticking {
    if t.raised || !Fires(t.state, id) then t
    else if FillPrice(t.state, id) <= 0.0 then
      t.(state := t.state.(orders := t.state.orders[id := FilledOrder(cfg, t.state, id)]), raised := true)
    else
      t.(state := Settled(cfg, t.state, id), filled := t.filled + [FilledOrder(cfg, t.state, id)])
  }

  function ProcessAll(cfg: Config, s: State, ids: seq<string>): Ticking {
    if ids == [] then Ticking(s, [], false)
    else ProcessOne(cfg, ProcessAll(cfg, s, ids[..|ids| - 1]), ids[|ids| - 1])
  }

  /** Ids of the orders a tick looks at, oldest first. */
  function OpenIds(orders: map<string, Order>, ids: seq<string>): seq<string> {
    if ids == [] then []
    else
      var n := |ids| - 1;
      OpenIds(orders, ids[..n]) + (if IsOpen(orders, ids[n]) then [ids[n]] else [])
  }

  predicate IsOpen(orders: map<string, Order>, id: string) {
    id in orders && (orders[id].status == Submitted || orders[id].status == PartialFill)
  }

  function TickOf(cfg: Config, s: State): Ticking {
    ProcessAll(cfg, s, OpenIds(s.orders, s.orderIds))
  }

  function Step(cfg: Config, s: State, op: Op): State {
    match op
    case Submit(r, freshId) => Submitting(s, r, freshId)
    case Cancel(id) => Cancelling(s, id)
    case Tick => TickOf(cfg, s).state
    case SetPrice(symbol, price) => s.(prices := s.prices[symbol := price])
    case Clear => Opening(cfg, s.prices)
  }

  /** What the contracts demand of one call: valid requests, ids never used before,
      and ticks whose fill records are all accepted. */
  predicate Legal(cfg: Config, s: State, op: Op) {
    match op
    case Submit(r, freshId) => ValidRequest(r) && freshId !in s.orders
    case Tick => !TickOf(cfg, s).raised
    case _ => true
  }

  function Run(cfg: Config, s: State, ops: seq<Op>): State
    decreases ops
  {
    if ops == [] then s else Run(cfg, Step(cfg, s, ops[0]), ops[1..])
  }

  predicate LegalRun(cfg: Config, s: State, ops: seq<Op>)
    decreases ops
  {
    ops == [] || (Legal(cfg, s, ops[0]) && LegalRun(cfg, Step(cfg, s, ops[0]), ops[1..]))
  }

  // ----- Invariant -----

  /** The fill price respected the limit or stop of its order. */
  predicate Protects(o: Order, price: real) {
    match o.orderType
    case Market => true
    case Limit =>
      o.limitPrice.Some? && (if o.side == Buy then price <= o.limitPrice.value else price >= o.limitPrice.value)
    case Stop =>
      o.stopPrice.Some? && (if o.side == Buy then price >= o.stopPrice.value else price <= o.stopPrice.value)
    case StopLimit => false
  }

  /** Life cycle of one order and the protection of its average price. */
  predicate Sound(o: Order) {
    && o.quantity > 0.0 && 0.0 <= o.filled
    && ValidPrices(o.orderType, o.limitPrice, o.stopPrice)
    && (o.average.Some? <==> o.filled > 0.0)
    && (o.average.Some? ==> Protects(o, o.average.value))
    && match o.status
       case Submitted => o.filled == 0.0
       case PartialFill => 0.0 < o.filled < o.quantity
       case Filled => o.filled >= o.quantity
       case Cancelled => o.filled < o.quantity
       case _ => false
  }

  ghost predicate OrdersSound(s: State) {
    forall id :: id in s.orders ==> Sound(s.orders[id])
  }

  /** Every order is listed once, under its own broker id, and has a fill list. */
  ghost predicate Listed(s: State) {
    && Distinct(s.orderIds)
    && (forall id :: id in s.orderIds <==> id in s.orders)
    && (forall id :: id in s.orders ==> s.orders[id].brokerId == id)
    && s.fills.Keys == s.orders.Keys
  }

  /** Pending requests are exactly those of the non-terminal orders. */
  ghost predicate PendingAgrees(s: State) {
    && (forall id :: id in s.pending <==> id in s.orders && !Terminal(s.orders[id].status))
    && (forall id :: id in s.pending ==> Echoes(s.orders[id], s.pending[id]))
  }

  /** Client ids and broker ids are in bijection. */
  ghost predicate ClientsAgree(s: State) {
    && (forall id :: id in s.orders ==>
          s.orders[id].clientId in s.clientIds && s.clientIds[s.orders[id].clientId] == id)
    && (forall c :: c in s.clientIds ==>
          s.clientIds[c] in s.orders && s.orders[s.clientIds[c]].clientId == c)
  }

  /** The four order indexes agree. */
  ghost predicate Indexed(s: State) {
    Listed(s) && PendingAgrees(s) && ClientsAgree(s)
  }

  /** One order agrees with its fills: their number of units and their total price. */
  predicate Backed(o: Order, fills: seq<Fill>) {
    && o.filled == Sum(fills, Quantity)
    && (if o.average.Some? then Worth(o.filled, o.average.value) else 0.0) == Sum(fills, Notional)
  }

  ghost predicate OrdersBacked(s: State) {
    forall id :: id in s.orders ==>
      id in s.fills && s.fills[id] == FillsOf(s.log, id) && Backed(s.orders[id], s.fills[id])
  }

  /** A fill record is accepted, charged, attributed to a known order and priced. */
  predicate Recorded(cfg: Config, s: State, f: Fill) {
    && f.price > 0.0 && f.quantity > 0.0 && f.commission == cfg.commission
    && f.symbol in s.prices
    && f.brokerId in s.orders
    && var o := s.orders[f.brokerId];
       f.clientId == o.clientId && f.symbol == o.symbol && f.side == o.side && Protects(o, f.price)
  }

  /** Positions, cash and commission agree with the fill history. */
  ghost predicate Balanced(cfg: Config, s: State) {
    && (forall f :: f in s.log ==> Recorded(cfg, s, f))
    && s.positions == Replay(s.log)
    && s.symbols == SymbolsOf(s.log)
    && s.paid == Sum(s.log, Commission)
    && s.cash == cfg.initialEquity - Sum(s.log, SignedNotional) - s.paid
  }

  ghost predicate Inv(cfg: Config, s: State) {
    Indexed(s) && OrdersSound(s) && OrdersBacked(s) && Balanced(cfg, s)
  }

  // ----- Every operation keeps the invariant -----

  lemma OpeningKeeps(cfg: Config, prices: map<string, real>)
    ensures Inv(cfg, Opening(cfg, prices))
  {
  }

  lemma SubmitKeepsListed(s: State, r: Request, freshId: string)
    requires Listed(s) && freshId !in s.orders && r.clientId !in s.clientIds
    ensures Listed(Submitting(s, r, freshId))
  {
    hide Echoes, Terminal;
  }

  lemma SubmitKeepsPending(s: State, r: Request, freshId: string)
    requires PendingAgrees(s) && freshId !in s.orders && r.clientId !in s.clientIds
    ensures PendingAgrees(Submitting(s, r, freshId))
  {
  }

  lemma SubmitKeepsClients(s: State, r: Request, freshId: string)
    requires ClientsAgree(s) && freshId !in s.orders && r.clientId !in s.clientIds
    ensures ClientsAgree(Submitting(s, r, freshId))
  {
  }

  lemma SubmitKeepsLedger(cfg: Config, s: State, r: Request, freshId: string)
    requires OrdersBacked(s) && Balanced(cfg, s) && freshId !in s.orders
    ensures OrdersBacked(Submitting(s, r, freshId)) && Balanced(cfg, Submitting(s, r, freshId))
  {
    hide Replay, Worth, Protects, FillsOf;
    FillsOfAbsent(s.log, freshId);
    assert forall f :: f in s.log ==> Recorded(cfg, s, f);
  }

  lemma SubmitKeeps(cfg: Config, s: State, r: Request, freshId: string)
    requires Inv(cfg, s) && ValidRequest(r) && freshId !in s.orders
    ensures Inv(cfg, Submitting(s, r, freshId))
  {
    hide Listed, PendingAgrees, ClientsAgree, OrdersBacked, Balanced;
    if r.clientId !in s.clientIds {
      SubmitKeepsListed(s, r, freshId);
      SubmitKeepsPending(s, r, freshId);
      SubmitKeepsClients(s, r, freshId);
      SubmitKeepsLedger(cfg, s, r, freshId);
    }
  }

  /** `s` with one order replaced; its request stays pending exactly while it is open. */
  function Replaced(s: State, id: string, o: Order): State {
    s.(orders := s.orders[id := o],
       pending := if Terminal(o.status) then s.pending - {id} else s.pending)
  }

  lemma ReplaceKeepsListed(s: State, id: string, o: Order)
    requires Listed(s) && id in s.orders && SameIdentity(s.orders[id], o)
    ensures Listed(Replaced(s, id, o))
  {
  }

  lemma ReplaceKeepsPending(s: State, id: string, o: Order)
    requires PendingAgrees(s) && id in s.pending && SameIdentity(s.orders[id], o)
    ensures PendingAgrees(Replaced(s, id, o))
  {
  }

  lemma ReplaceKeepsClients(s: State, id: string, o: Order)
    requires ClientsAgree(s) && id in s.orders && SameIdentity(s.orders[id], o)
    ensures ClientsAgree(Replaced(s, id, o))
  {
  }

  lemma ReplaceKeepsIndexed(s: State, id: string, o: Order)
    requires Indexed(s) && id in s.pending && SameIdentity(s.orders[id], o)
    ensures Indexed(Replaced(s, id, o))
  {
    OpenIsPending(s, id);
    hide Listed, PendingAgrees, ClientsAgree;
    ReplaceKeepsListed(s, id, o);
    ReplaceKeepsPending(s, id, o);
    ReplaceKeepsClients(s, id, o);
  }

  lemma ReplaceKeepsBalanced(cfg: Config, s: State, id: string, o: Order)
    requires Balanced(cfg, s) && id in s.orders && SameIdentity(s.orders[id], o)
    ensures Balanced(cfg, Replaced(s, id, o))
  {
    hide Replay, Worth;
    assert forall f :: f in s.log ==> Recorded(cfg, s, f);
  }

  lemma OpenIsPending(s: State, id: string)
    requires Indexed(s)
    ensures id in s.pending <==> id in s.orders && !Terminal(s.orders[id].status)
  {
  }

  lemma CancelKeeps(cfg: Config, s: State, id: string)
    requires Inv(cfg, s)
    ensures Inv(cfg, Cancelling(s, id))
  {
    hide Balanced, Indexed, Replay, Worth;
    if id in s.orders && !Terminal(s.orders[id].status) {
      var o := s.orders[id].(status := Cancelled);
      assert Sound(s.orders[id]);
      assert id in s.pending by { OpenIsPending(s, id); }
      ReplaceKeepsIndexed(s, id, o);
      ReplaceKeepsBalanced(cfg, s, id, o);
    }
  }

  lemma SetPriceKeepsBalanced(cfg: Config, s: State, prices: map<string, real>)
    requires Balanced(cfg, s) && s.prices.Keys <= prices.Keys
    ensures Balanced(cfg, s.(prices := prices))
  {
    hide Replay, Worth, Protects;
    assert forall f :: f in s.log ==> Recorded(cfg, s, f);
  }

  lemma SetPriceKeeps(cfg: Config, s: State, symbol: string, price: real)
    requires Inv(cfg, s)
    ensures Inv(cfg, s.(prices := s.prices[symbol := price]))
  {
    hide Balanced, Sound, Backed, Echoes, FillsOf;
    SetPriceKeepsBalanced(cfg, s, s.prices[symbol := price]);
  }

  lemma FilledOrderSound(cfg: Config, s: State, id: string)
    requires OrdersSound(s) && Fires(s, id)
    ensures Sound(FilledOrder(cfg, s, id)) && SameIdentity(s.orders[id], FilledOrder(cfg, s, id))
    ensures FilledOrder(cfg, s, id).status == Filled || FilledOrder(cfg, s, id).status == PartialFill
    ensures Protects(s.orders[id], FillPrice(s, id))
    ensures FilledOrder(cfg, s, id).filled == s.orders[id].filled + FillOf(cfg, s, id).quantity
    ensures FillOf(cfg, s, id).quantity > 0.0
  {
    hide FillQuantity, Blend;
    var o, p := s.orders[id], FillPrice(s, id);
    var q := FillQuantity(o.quantity - o.filled, cfg.ratio);
    FillIsPositive(o.quantity - o.filled, cfg.ratio);
    if o.average.Some? {
      if o.limitPrice.Some? {
        BlendWithin(o.average.value, o.filled, p, q, o.limitPrice.value);
      }
      if o.stopPrice.Some? {
        BlendWithin(o.average.value, o.filled, p, q, o.stopPrice.value);
      }
    }
  }

  lemma IndexedAlike(s: State, s': State)
    requires Indexed(s)
    requires s'.orders == s.orders && s'.orderIds == s.orderIds && s'.pending == s.pending
    requires s'.clientIds == s.clientIds && s'.fills.Keys == s.fills.Keys
    ensures Indexed(s')
  {
  }

  lemma OrderHasFills(s: State, id: string)
    requires Indexed(s) && id in s.orders
    ensures id in s.fills
  {
  }

  lemma SettleKeepsIndexed(cfg: Config, s: State, id: string)
    requires Indexed(s) && OrdersSound(s) && Fires(s, id)
    ensures Indexed(Settled(cfg, s, id))
  {
    hide Indexed, Sound, FillQuantity, AfterFill, Moved, Worth;
    assert id in s.fills by { OrderHasFills(s, id); }
    var o := FilledOrder(cfg, s, id);
    FilledOrderSound(cfg, s, id);
    ReplaceKeepsIndexed(s, id, o);
    IndexedAlike(Replaced(s, id, o), Settled(cfg, s, id));
  }

  lemma FillKeepsBacked(o: Order, fills: seq<Fill>, f: Fill, ratio: real)
    requires Sound(o) && o.filled < o.quantity && Backed(o, fills)
    requires f.quantity == FillQuantity(o.quantity - o.filled, ratio)
    ensures Backed(AfterFill(o, f.price, ratio), fills + [f])
  {
    hide FillQuantity, Blend, Worth;
    FillIsPositive(o.quantity - o.filled, ratio);
    SumAppend(fills, f, Quantity);
    SumAppend(fills, f, Notional);
    if o.average.Some? {
      WorthOfBlend(o.average.value, o.filled, f.price, f.quantity);
    }
  }

  lemma SettleKeepsBacked(cfg: Config, s: State, id: string)
    requires OrdersSound(s) && OrdersBacked(s) && Fires(s, id)
    ensures OrdersBacked(Settled(cfg, s, id))
  {
    hide Backed, FillQuantity, AfterFill, Moved, Worth, Sound;
    var f, s' := FillOf(cfg, s, id), Settled(cfg, s, id);
    forall x | x in s'.orders
      ensures x in s'.fills && s'.fills[x] == FillsOf(s'.log, x) && Backed(s'.orders[x], s'.fills[x])
    {
      FillsOfAppend(s.log, f, x);
      if x == id {
        FillKeepsBacked(s.orders[id], s.fills[id], f, cfg.ratio);
      }
    }
  }

  lemma SettleKeepsRecords(cfg: Config, s: State, id: string, f: Fill)
    requires OrdersSound(s) && Fires(s, id) && FillPrice(s, id) > 0.0
    requires f == FillOf(cfg, s, id) || Recorded(cfg, s, f)
    ensures Recorded(cfg, Settled(cfg, s, id), f)
  {
    hide FillQuantity, AfterFill, Moved, Worth, Sound;
    FilledOrderSound(cfg, s, id);
  }

  lemma SettleKeepsBalanced(cfg: Config, s: State, id: string)
    requires OrdersSound(s) && Balanced(cfg, s) && Fires(s, id) && FillPrice(s, id) > 0.0
    ensures Balanced(cfg, Settled(cfg, s, id))
  {
    hide FillQuantity, AfterFill, Moved, Worth, Sound, Recorded;
    var f, s' := FillOf(cfg, s, id), Settled(cfg, s, id);
    forall g | g in s'.log ensures Recorded(cfg, s', g) {
      SettleKeepsRecords(cfg, s, id, g);
    }
    ReplayAppend(s.log, f);
    SumAppend(s.log, f, Commission);
    SumAppend(s.log, f, SignedNotional);
  }

  lemma SettleKeeps(cfg: Config, s: State, id: string)
    requires Inv(cfg, s) && Fires(s, id) && FillPrice(s, id) > 0.0
    ensures Inv(cfg, Settled(cfg, s, id))
  {
    hide Indexed, OrdersBacked, Balanced, Sound, FillQuantity, AfterFill, Moved, Worth;
    SettleKeepsIndexed(cfg, s, id);
    FilledOrderSound(cfg, s, id);
    SettleKeepsBacked(cfg, s, id);
    SettleKeepsBalanced(cfg, s, id);
  }

  /** A tick that raises no error keeps the invariant at every point of its loop. */
  lemma {:induction false} ProcessAllKeeps(cfg: Config, s: State, ids: seq<string>)
    requires Inv(cfg, s) && !ProcessAll(cfg, s, ids).raised
    ensures Inv(cfg, ProcessAll(cfg, s, ids).state)
  {
    if ids != [] {
      hide Inv, Fires, FilledOrder, Settled;
      var t, id := ProcessAll(cfg, s, ids[..|ids| - 1]), ids[|ids| - 1];
      ProcessAllKeeps(cfg, s, ids[..|ids| - 1]);
      if Fires(t.state, id) {
        SettleKeeps(cfg, t.state, id);
      }
    }
  }

  lemma StepKeeps(cfg: Config, s: State, op: Op)
    requires Inv(cfg, s) && Legal(cfg, s, op)
    ensures Inv(cfg, Step(cfg, s, op))
  {
    hide Inv, Submitting, Cancelling, ProcessAll;
    match op
    case Submit(r, freshId) => SubmitKeeps(cfg, s, r, freshId);
    case Cancel(id) => CancelKeeps(cfg, s, id);
    case Tick => ProcessAllKeeps(cfg, s, OpenIds(s.orders, s.orderIds));
    case SetPrice(symbol, price) => SetPriceKeeps(cfg, s, symbol, price);
    case Clear => OpeningKeeps(cfg, s.prices);
  }

  lemma {:induction false} RunKeeps(cfg: Config, s: State, ops: seq<Op>)
    requires Inv(cfg, s) && LegalRun(cfg, s, ops)
    ensures Inv(cfg, Run(cfg, s, ops))
    decreases ops
  {
    if ops != [] {
      hide Inv, Step, Legal;
      StepKeeps(cfg, s, ops[0]);
      RunKeeps(cfg, Step(cfg, s, ops[0]), ops[1..]);
    }
  }
}
