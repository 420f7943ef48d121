/** The life of a single order over whole runs: what never changes, price
    protection, idempotent submission, and when a fillable order completes. */
module OrderLife {
  import opened Orders
  import opened Ledger
  import opened Broker
  import opened BrokerRuns
  import opened BrokerTraces

  // ----- One operation seen from one order -----

  /** What a tick does to one order. */
  function Ticked(cfg: Config, s: State, id: string): Order
    requires id in s.orders
  {
    if Fires(s, id) then FilledOrder(cfg, s, id) else s.orders[id]
  }

  lemma TickOfOrder(cfg: Config, s: State, id: string)
    requires Inv(cfg, s) && !TickOf(cfg, s).raised && id in s.orders
    ensures id in TickOf(cfg, s).state.orders
    ensures TickOf(cfg, s).state.orders[id] == Ticked(cfg, s, id)
  {
    hide Inv, ProcessAll, FilledOrder, OpenIds;
    var ids := OpenIds(s.orders, s.orderIds);
    VisitsPending(cfg, s);
    RaisesExactly(cfg, s, ids);
    ProcessAllAtOnce(cfg, s, ids);
  }

  /** What one operation may do to an existing order. */
  ghost predicate Evolves(o: Order, o': Order) {
    && SameIdentity(o, o')
    && o.filled <= o'.filled
    && (Terminal(o.status) ==> o' == o)
  }

  lemma FillEvolves(cfg: Config, s: State, id: string)
    requires Sturdy(cfg, s) && Fires(s, id)
    ensures id in s.orders && Evolves(s.orders[id], FilledOrder(cfg, s, id))
  {
    hide Sturdy, FilledOrder, Fires;
    FiringIsOpen(cfg, s, id);
    assert OrdersSound(s) by { SturdyOrders(cfg, s); }
    FilledOrderSound(cfg, s, id);
  }

  lemma SturdyOrders(cfg: Config, s: State)
    requires Sturdy(cfg, s)
    ensures OrdersSound(s)
  {
  }

  lemma ProcessOneEvolves(cfg: Config, t: Ticking, x: string, id: string)
    requires Sturdy(cfg, t.state) && id in t.state.orders
    ensures id in ProcessOne(cfg, t, x).state.orders
    ensures Evolves(t.state.orders[id], ProcessOne(cfg, t, x).state.orders[id])
  {
    hide Sturdy, FilledOrder, Fires, FillQuantity, Posted, AddKey, SignedNotional;
    if Fires(t.state, x) {
      FillEvolves(cfg, t.state, x);
    }
  }

  /** A tick, raising or not, seen from one order. */
  lemma {:induction false} TickEvolves(cfg: Config, s: State, ids: seq<string>, id: string)
    requires Sturdy(cfg, s) && id in s.orders
    ensures id in ProcessAll(cfg, s, ids).state.orders
    ensures Evolves(s.orders[id], ProcessAll(cfg, s, ids).state.orders[id])
  {
    if ids != [] {
      hide Sturdy, ProcessOne, Evolves;
      var n := |ids| - 1;
      var t := ProcessAll(cfg, s, ids[..n]);
      TickEvolves(cfg, s, ids[..n], id);
      TickStaysSturdy(cfg, s, ids[..n]);
      ProcessOneEvolves(cfg, t, ids[n], id);
      EvolvesOn(s.orders[id], t.state.orders[id], ProcessOne(cfg, t, ids[n]).state.orders[id]);
    }
  }

  lemma StepEvolves(cfg: Config, s: State, op: Op, id: string)
    requires Sturdy(cfg, s) && Accepted(s, op) && op != Clear && id in s.orders
    ensures id in Step(cfg, s, op).orders
    ensures Evolves(s.orders[id], Step(cfg, s, op).orders[id])
  {
    hide Sturdy, ProcessAll;
    if op == Tick {
      TickEvolves(cfg, s, OpenIds(s.orders, s.orderIds), id);
    }
  }

  lemma EvolvesOn(o: Order, o': Order, o'': Order)
    requires Evolves(o, o') && Evolves(o', o'')
    ensures Evolves(o, o'')
  {
  }

  /** Over any trace without a clear, raising ticks included: terminal orders never change
      again, filled quantity never decreases and identity fields never change. */
  lemma {:induction false} OrdersEvolve(cfg: Config, s: State, ops: seq<Op>, id: string)
    requires Sturdy(cfg, s) && AcceptedRun(cfg, s, ops) && Clear !in ops && id in s.orders
    ensures id in Run(cfg, s, ops).orders
    ensures Evolves(s.orders[id], Run(cfg, s, ops).orders[id])
    decreases ops
  {
    if ops != [] {
      hide Sturdy, Step, Accepted, Evolves;
      assert ops[0] in ops;
      var s' := Step(cfg, s, ops[0]);
      StepEvolves(cfg, s, ops[0], id);
      StepStaysSturdy(cfg, s, ops[0]);
      OrdersEvolve(cfg, s', ops[1..], id);
      EvolvesOn(s.orders[id], s'.orders[id], Run(cfg, s', ops[1..]).orders[id]);
    } else {
      hide Sturdy;
    }
  }

  /** In every reachable state an order is open exactly when it is not cancelled and
      not yet filled, the four indexes agree, and average prices respect limits and stops. */
  lemma OrdersOfEveryRun(cfg: Config, prices: map<string, real>, ops: seq<Op>, id: string)
    requires LegalRun(cfg, Opening(cfg, prices), ops)
    requires id in Run(cfg, Opening(cfg, prices), ops).orders
    ensures var s := Run(cfg, Opening(cfg, prices), ops); var o := s.orders[id];
            && Indexed(s)
            && (id in s.pending <==> o.status != Cancelled && o.filled < o.quantity)
            && (o.status == Filled <==> o.filled >= o.quantity)
            && (o.average.Some? ==> Protects(o, o.average.value))
            && (o.orderType == StopLimit ==> o.filled == 0.0 && FillsOf(s.log, id) == [])
  {
    hide Run, Indexed, OrdersBacked, Balanced;
    OpeningKeeps(cfg, prices);
    RunKeeps(cfg, Opening(cfg, prices), ops);
    var s := Run(cfg, Opening(cfg, prices), ops);
    OpenIsPending(s, id);
    assert Sound(s.orders[id]);
    if s.orders[id].orderType == StopLimit {
      NeverFilled(cfg, s, id);
    }
  }

  lemma NeverFilled(cfg: Config, s: State, id: string)
    requires Balanced(cfg, s) && id in s.orders && s.orders[id].orderType == StopLimit
    ensures FillsOf(s.log, id) == []
  {
    assert forall f :: f in s.log ==> Recorded(cfg, s, f);
    FillsOfAbsent(s.log, id);
  }

  // ----- Properties of single orders that every operation keeps -----

  /** Holds of a new order and is kept by cancellation and by every fill. */
  ghost predicate Orderwise(ratio: real, p: Order -> bool) {
    && (forall r: Request, id: string :: ValidRequest(r) ==> p(Acknowledge(r, id)))
    && (forall o: Order :: p(o) ==> p(o.(status := Cancelled)))
    && (forall o: Order, price: real :: 0.0 <= o.filled < o.quantity && p(o) ==> p(AfterFill(o, price, ratio)))
  }

  ghost predicate AllOrders(s: State, p: Order -> bool) {
    forall id :: id in s.orders ==> p(s.orders[id])
  }

  lemma {:induction false} OrderwiseTick(cfg: Config, s: State, ids: seq<string>, p: Order -> bool)
    requires Orderwise(cfg.ratio, p) && AllOrders(s, p)
    ensures AllOrders(ProcessAll(cfg, s, ids).state, p)
  {
    if ids != [] {
      hide AfterFill, Acknowledge, ShouldFill, FillOf, Posted;
      OrderwiseTick(cfg, s, ids[..|ids| - 1], p);
    }
  }

  lemma OrderwiseStep(cfg: Config, s: State, op: Op, p: Order -> bool)
    requires Accepted(s, op) && Orderwise(cfg.ratio, p) && AllOrders(s, p)
    ensures AllOrders(Step(cfg, s, op), p)
  {
    hide ProcessAll, AfterFill, Acknowledge;
    if op == Tick {
      OrderwiseTick(cfg, s, OpenIds(s.orders, s.orderIds), p);
    }
  }

  lemma TickKeepsIds(cfg: Config, s: State)
    requires Inv(cfg, s) && !TickOf(cfg, s).raised
    ensures TickOf(cfg, s).state.orders.Keys == s.orders.Keys
    ensures TickOf(cfg, s).state.prices == s.prices
  {
    hide Inv, ProcessAll, OpenIds;
    VisitsPending(cfg, s);
    RaisesExactly(cfg, s, OpenIds(s.orders, s.orderIds));
    ProcessAllAtOnce(cfg, s, OpenIds(s.orders, s.orderIds));
  }

  lemma {:induction false} OrderwiseRun(cfg: Config, s: State, ops: seq<Op>, p: Order -> bool)
    requires AcceptedRun(cfg, s, ops) && Orderwise(cfg.ratio, p) && AllOrders(s, p)
    ensures AllOrders(Run(cfg, s, ops), p)
    decreases ops
  {
    if ops != [] {
      hide Step, Accepted, Orderwise, AllOrders;
      OrderwiseStep(cfg, s, ops[0], p);
      OrderwiseRun(cfg, Step(cfg, s, ops[0]), ops[1..], p);
    }
  }

  /** At most half a unit too much, and nothing too much of a whole number of units. */
  predicate NotOverfilled(o: Order) {
    && o.filled <= o.quantity + 0.5
    && (Whole(o.quantity) ==> Whole(o.filled) && o.filled <= o.quantity)
  }

  lemma FloorOfWhole(x: real, n: int)
    requires x == n as real
    ensures x.Floor == n && Whole(x)
  {
  }

  lemma WholeSum(x: real, y: real)
    requires Whole(x) && Whole(y)
    ensures Whole(x + y) && Whole(x - y)
  {
    FloorOfWhole(x + y, x.Floor + y.Floor);
    FloorOfWhole(x - y, x.Floor - y.Floor);
  }

  lemma FillNotOverfilled(o: Order, price: real, ratio: real)
    requires 0.0 <= o.filled < o.quantity && NotOverfilled(o) && 0.0 <= ratio <= 1.0
    ensures NotOverfilled(AfterFill(o, price, ratio))
  {
    hide FillQuantity, Blend, Whole;
    var left := o.quantity - o.filled;
    FillQuantityBounds(left, ratio);
    if Whole(o.quantity) {
      WholeSum(o.quantity, o.filled);
      WholeSum(o.filled, FillQuantity(left, ratio));
    }
  }

  /** With a ratio in [0, 1] no run ever fills more than half a unit too much. */
  lemma NoRunOverfills(cfg: Config, prices: map<string, real>, ops: seq<Op>)
    requires AcceptedRun(cfg, Opening(cfg, prices), ops) && 0.0 <= cfg.ratio <= 1.0
    ensures AllOrders(Run(cfg, Opening(cfg, prices), ops), NotOverfilled)
  {
    hide Run, AcceptedRun, AfterFill;
    forall o: Order, price: real | 0.0 <= o.filled < o.quantity && NotOverfilled(o)
      ensures NotOverfilled(AfterFill(o, price, cfg.ratio))
    {
      FillNotOverfilled(o, price, cfg.ratio);
    }
    OrderwiseRun(cfg, Opening(cfg, prices), ops, NotOverfilled);
  }

  // ----- Which traces are legal -----

  /** Valid requests and positive prices, as the request and price contracts demand. */
  predicate GoodOp(op: Op) {
    && (op.Submit? ==> ValidRequest(op.request))
    && (op.SetPrice? ==> op.price > 0.0)
  }

  /** No submission reuses a broker id. */
  predicate FreshIds(ops: seq<Op>, used: set<string>) {
    if ops == [] then true
    else if ops[0].Submit? then ops[0].freshId !in used && FreshIds(ops[1..], used + {ops[0].freshId})
    else FreshIds(ops[1..], used)
  }

  ghost predicate Positive(prices: map<string, real>) {
    forall k :: k in prices ==> prices[k] > 0.0
  }

  lemma PositiveTickIsLegal(cfg: Config, s: State)
    requires Inv(cfg, s) && Positive(s.prices)
    ensures !TickOf(cfg, s).raised
  {
    hide Inv, OpenIds, ProcessAll;
    VisitsPending(cfg, s);
    RaisesExactly(cfg, s, OpenIds(s.orders, s.orderIds));
  }

  lemma PositiveStep(cfg: Config, s: State, op: Op)
    requires Inv(cfg, s) && Positive(s.prices) && GoodOp(op) && (op.Submit? ==> op.freshId !in s.orders)
    ensures Legal(cfg, s, op) && Positive(Step(cfg, s, op).prices)
    ensures Step(cfg, s, op).orders.Keys <= s.orders.Keys + (if op.Submit? then {op.freshId} else {})
  {
    hide Inv, ProcessAll, ValidRequest;
    if op == Tick {
      PositiveTickIsLegal(cfg, s);
      TickKeepsIds(cfg, s);
    }
  }

  /** With positive prices every trace of valid requests under fresh ids is legal. */
  lemma {:induction false} PositiveRunsAreLegal(cfg: Config, s: State, ops: seq<Op>, used: set<string>)
    requires Inv(cfg, s) && Positive(s.prices)
    requires (forall op :: op in ops ==> GoodOp(op)) && s.orders.Keys <= used && FreshIds(ops, used)
    ensures LegalRun(cfg, s, ops)
    decreases ops
  {
    if ops != [] {
      hide Inv, Step, Legal, GoodOp, Positive;
      var op := ops[0];
      assert op in ops;
      PositiveStep(cfg, s, op);
      StepKeeps(cfg, s, op);
      PositiveRunsAreLegal(cfg, Step(cfg, s, op), ops[1..], if op.Submit? then used + {op.freshId} else used);
    }
  }

  /** At any prices, every trace of valid requests under fresh ids is accepted. */
  lemma {:induction false} FreshRunsAreAccepted(cfg: Config, s: State, ops: seq<Op>, used: set<string>)
    requires forall op :: op in ops && op.Submit? ==> ValidRequest(op.request)
    requires s.orders.Keys <= used && FreshIds(ops, used)
    ensures AcceptedRun(cfg, s, ops)
    decreases ops
  {
    if ops != [] {
      hide ProcessAll, ValidRequest;
      var op, s' := ops[0], Step(cfg, s, ops[0]);
      assert op in ops;
      TickFrame(cfg, s, OpenIds(s.orders, s.orderIds));
      FreshRunsAreAccepted(cfg, s', ops[1..], if op.Submit? then used + {op.freshId} else used);
    }
  }

  // ----- Idempotent submission -----

  /** Drops every submission whose client id has been submitted before. */
  function WithoutRepeats(ops: seq<Op>, seen: set<string>): seq<Op> {
    if ops == [] then []
    else if ops[0].Submit? then
      var c := ops[0].request.clientId;
      if c in seen then WithoutRepeats(ops[1..], seen)
      else [ops[0]] + WithoutRepeats(ops[1..], seen + {c})
    else [ops[0]] + WithoutRepeats(ops[1..], seen)
  }

  /** Deleting re-submissions from a trace changes nothing, and leaves it acceptable. */
  lemma {:induction false} RepeatsAreHarmless(cfg: Config, s: State, ops: seq<Op>)
    requires AcceptedRun(cfg, s, ops) && Clear !in ops
    ensures AcceptedRun(cfg, s, WithoutRepeats(ops, s.clientIds.Keys))
    ensures Run(cfg, s, WithoutRepeats(ops, s.clientIds.Keys)) == Run(cfg, s, ops)
    decreases ops
  {
    if ops != [] {
      hide Accepted, ProcessAll;
      assert ops[0] in ops;
      var op, rest, s' := ops[0], ops[1..], Step(cfg, s, ops[0]);
      RepeatsAreHarmless(cfg, s', rest);
      ClientsAfter(cfg, s, op);
      var kept := WithoutRepeats(rest, s'.clientIds.Keys);
      if op.Submit? && op.request.clientId in s.clientIds {
      } else {
        assert WithoutRepeats(ops, s.clientIds.Keys) == [op] + kept;
        assert ([op] + kept)[1..] == kept;
      }
    }
  }

  lemma ClientsAfter(cfg: Config, s: State, op: Op)
    requires op != Clear
    ensures Step(cfg, s, op).clientIds.Keys ==
            if op.Submit? then s.clientIds.Keys + {op.request.clientId} else s.clientIds.Keys
  {
    hide ProcessAll, OpenIds;
    if op == Tick {
      TickFrame(cfg, s, OpenIds(s.orders, s.orderIds));
    }
  }

  // ----- Completion -----

  function Ticks(ops: seq<Op>): nat {
    if ops == [] then 0 else (if ops[0] == Tick then 1 else 0) + Ticks(ops[1..])
  }

  /** Nothing cancels the order, and at every tick it is filled already or fires. */
  ghost predicate KeepsFiring(cfg: Config, s: State, ops: seq<Op>, id: string)
    decreases ops
  {
    ops == [] ||
    (&& ops[0] != Clear && ops[0] != Cancel(id)
     && (ops[0] == Tick && id in s.pending ==> Fires(s, id))
     && KeepsFiring(cfg, Step(cfg, s, ops[0]), ops[1..], id))
  }

  /** A fillable order: what firing guarantees of it. */
  predicate Unfilled(o: Order) { 0.0 <= o.filled < o.quantity }

  /** `m` bounds the fills still needed by an order that satisfies `keeps`: every
      fill completes the order or lowers `m`. */
  ghost predicate BurnsDown(ratio: real, keeps: Order -> bool, m: Order -> int) {
    forall o: Order, price: real :: Unfilled(o) && keeps(o) ==>
      var o' := AfterFill(o, price, ratio);
      keeps(o') && (o'.status == Filled || (Unfilled(o') && m(o') <= m(o) - 1))
  }

  /** What one operation does to an order that keeps firing. */
  lemma StepOfFiring(cfg: Config, s: State, op: Op, id: string)
    requires Inv(cfg, s) && Legal(cfg, s, op) && id in s.orders && s.orders[id].status != Cancelled
    requires KeepsFiring(cfg, s, [op], id)
    ensures id in Step(cfg, s, op).orders
    ensures var o, o' := s.orders[id], Step(cfg, s, op).orders[id];
            && (o.status == Filled || op != Tick ==> o' == o)
            && (o.status != Filled && op == Tick ==> Unfilled(o) && exists p :: o' == AfterFill(o, p, cfg.ratio))
  {
    hide Indexed, OrdersBacked, Balanced, ProcessAll, AfterFill, ShouldFill;
    assert Sound(s.orders[id]);
    OpenIsPending(s, id);
    if op == Tick {
      TickOfOrder(cfg, s, id);
    }
  }

  /** An order that keeps firing is complete after `m` of it many ticks. */
  lemma {:induction false} BurnDown(cfg: Config, s: State, ops: seq<Op>, id: string,
                                    keeps: Order -> bool, m: Order -> int)
    requires Inv(cfg, s) && LegalRun(cfg, s, ops) && KeepsFiring(cfg, s, ops, id)
    requires BurnsDown(cfg.ratio, keeps, m)
    requires id in s.orders && s.orders[id].status != Cancelled && keeps(s.orders[id])
    ensures id in Run(cfg, s, ops).orders
    ensures var o, o' := s.orders[id], Run(cfg, s, ops).orders[id];
            if o.status == Filled then o' == o
            else o'.status == Filled || (Unfilled(o') && keeps(o') && m(o') <= m(o) - Ticks(ops))
    decreases ops
  {
    hide Inv, Step, Legal, Fires, AfterFill;
    if ops == [] {
      OpenIsUnfilled(cfg, s, id);
    } else {
      var s', rest := Step(cfg, s, ops[0]), ops[1..];
      StepKeeps(cfg, s, ops[0]);
      assert KeepsFiring(cfg, s, [ops[0]], id);
      StepOfFiring(cfg, s, ops[0], id);
      AfterFillStatus(s.orders[id], cfg.ratio);
      BurnDown(cfg, s', rest, id, keeps, m);
    }
  }

  lemma OpenIsUnfilled(cfg: Config, s: State, id: string)
    requires Inv(cfg, s) && id in s.orders
    ensures s.orders[id].status == Filled || s.orders[id].status == Cancelled || Unfilled(s.orders[id])
  {
    hide Indexed, OrdersBacked, Balanced;
    assert Sound(s.orders[id]);
  }

  lemma AfterFillStatus(o: Order, ratio: real)
    ensures Unfilled(o) ==> forall p :: AfterFill(o, p, ratio).status != Cancelled
  {
  }

  predicate AnyOrder(o: Order) { true }

  function UnitsLeft(o: Order): int { Ceiling(o.quantity - o.filled) }

  lemma UnitsBurnDown(ratio: real)
    ensures BurnsDown(ratio, AnyOrder, UnitsLeft)
  {
    forall o: Order, price: real | Unfilled(o)
      ensures var o' := AfterFill(o, price, ratio);
              o'.status == Filled || (Unfilled(o') && UnitsLeft(o') <= UnitsLeft(o) - 1)
    {
      hide FillQuantity, Blend;
      FillIsPositive(o.quantity - o.filled, ratio);
      FillQuantityBounds(o.quantity - o.filled, ratio);
    }
  }

  lemma UnitsPositive(o: Order)
    ensures Unfilled(o) ==> UnitsLeft(o) >= 1
  {
  }

  /** For any ratio, an order that keeps firing is filled within as many ticks as it
      has units left, counting a fraction as a unit. */
  lemma CompletesWithinUnits(cfg: Config, s: State, ops: seq<Op>, id: string)
    requires Inv(cfg, s) && LegalRun(cfg, s, ops) && KeepsFiring(cfg, s, ops, id)
    requires id in s.pending && Ticks(ops) >= Ceiling(s.orders[id].quantity - s.orders[id].filled)
    ensures id in Run(cfg, s, ops).orders && Run(cfg, s, ops).orders[id].status == Filled
  {
    OpenIsPending(s, id);
    hide Inv, LegalRun, KeepsFiring, Run, BurnsDown, Unfilled, Ceiling;
    UnitsBurnDown(cfg.ratio);
    BurnDown(cfg, s, ops, id, AnyOrder, UnitsLeft);
    UnitsPositive(Run(cfg, s, ops).orders[id]);
  }

  // ----- Halving -----

  /** Floor of the binary logarithm. */
  function Log2(n: int): nat {
    if n < 2 then 0 else 1 + Log2(n / 2)
  }

  lemma {:induction false} Log2Monotone(a: int, b: int)
    requires a <= b
    ensures Log2(a) <= Log2(b)
  {
    if a >= 2 {
      Log2Monotone(a / 2, b / 2);
    }
  }

  /** Independent reading of Log2: the largest power of two that fits. */
  lemma {:induction false} Log2IsLargestPower(n: int)
    requires n >= 1
    ensures Power2(Log2(n)) <= n < 2 * Power2(Log2(n))
  {
    if n >= 2 {
      Log2IsLargestPower(n / 2);
    }
  }

  function Power2(k: nat): int { if k == 0 then 1 else 2 * Power2(k - 1) }

  function HalvingBound(n: int): int {
    if n <= 1 then n else Log2(n - 1) + 2
  }

  predicate WholeOrder(o: Order) { Whole(o.quantity) && Whole(o.filled) }

  function HalvingsLeft(o: Order): int { HalvingBound((o.quantity - o.filled).Floor) }

  /** Half of a whole remainder, rounded half to even, leaves at most half of the rest. */
  lemma HalfOfWhole(n: int)
    requires n >= 1
    ensures var q := FillQuantity(n as real, 0.5);
            Whole(q) && 1.0 <= q <= n as real && n - q.Floor - 1 <= (n - 1) / 2
  {
    var h := n / 2;
    assert n == 2 * h || n == 2 * h + 1;
    assert n as real * 0.5 == if n == 2 * h then h as real else h as real + 0.5;
  }

  lemma HalvingBoundDrops(n: int, n': int)
    requires n >= 2 && 1 <= n' && n' - 1 <= (n - 1) / 2
    ensures HalvingBound(n') <= HalvingBound(n) - 1
  {
    Log2Monotone(n' - 1, (n - 1) / 2);
  }

  lemma HalvingsBurnDown()
    ensures BurnsDown(0.5, WholeOrder, HalvingsLeft)
  {
    forall o: Order, price: real | Unfilled(o) && WholeOrder(o)
      ensures var o' := AfterFill(o, price, 0.5);
              WholeOrder(o') && (o'.status == Filled || (Unfilled(o') && HalvingsLeft(o') <= HalvingsLeft(o) - 1))
    {
      HalvingStep(o, price);
    }
  }

  lemma HalvingsOf(o: Order, n: int)
    requires o.quantity - o.filled == n as real
    ensures HalvingsLeft(o) == HalvingBound(n)
  {
    hide HalvingBound;
    FloorOfWhole(o.quantity - o.filled, n);
  }

  lemma WholeFill(o: Order, price: real, total: int, done: int) returns (left: int)
    requires o.quantity == total as real && o.filled == done as real && 0 <= done < total
    ensures var o' := AfterFill(o, price, 0.5);
            && o'.quantity - o'.filled == left as real && o'.filled == (total - left) as real
            && (o'.status == Filled <==> left <= 0)
            && 0 <= left < total - done && left - 1 <= (total - done - 1) / 2
  {
    hide FillQuantity, Blend;
    var n := total - done;
    assert o.quantity - o.filled == n as real;
    HalfOfWhole(n);
    left := n - FillQuantity(n as real, 0.5).Floor;
  }

  lemma HalvingStep(o: Order, price: real)
    requires Unfilled(o) && WholeOrder(o)
    ensures var o' := AfterFill(o, price, 0.5);
            WholeOrder(o') && (o'.status == Filled || (Unfilled(o') && HalvingsLeft(o') <= HalvingsLeft(o) - 1))
  {
    hide AfterFill, HalvingsLeft, HalvingBound;
    var total, done := o.quantity.Floor, o.filled.Floor;
    var left := WholeFill(o, price, total, done);
    var o' := AfterFill(o, price, 0.5);
    FloorOfWhole(o'.filled, total - left);
    assert o'.quantity == o.quantity by { AfterFillKeepsQuantity(o, price); }
    HalvingsOf(o, total - done);
    HalvingsOf(o', left);
    if left >= 1 {
      HalvingBoundDrops(total - done, left);
    }
  }

  lemma AfterFillKeepsQuantity(o: Order, price: real)
    requires Unfilled(o)
    ensures AfterFill(o, price, 0.5).quantity == o.quantity
  {
  }

  /** At ratio one half a whole-unit order of q >= 2 units completes within
      floor(log2(q - 1)) + 2 ticks. */
  lemma CompletesWithinHalvings(cfg: Config, s: State, ops: seq<Op>, id: string, q: int)
    requires Inv(cfg, s) && LegalRun(cfg, s, ops) && KeepsFiring(cfg, s, ops, id)
    requires cfg.ratio == 0.5 && q >= 2
    requires id in s.pending && s.orders[id].quantity == q as real && s.orders[id].filled == 0.0
    requires Ticks(ops) >= Log2(q - 1) + 2
    ensures id in Run(cfg, s, ops).orders && Run(cfg, s, ops).orders[id].status == Filled
  {
    OpenIsPending(s, id);
    hide Inv, LegalRun, KeepsFiring, Run, BurnsDown, Log2, HalvingsLeft;
    HalvingsBurnDown();
    FloorOfWhole(s.orders[id].quantity, q);
    HalvingsOf(s.orders[id], q);
    BurnDown(cfg, s, ops, id, WholeOrder, HalvingsLeft);
    var o := Run(cfg, s, ops).orders[id];
    if o.status != Filled {
      HalvingsPositive(o);
    }
  }

  lemma HalvingsPositive(o: Order)
    requires Unfilled(o) && WholeOrder(o)
    ensures HalvingsLeft(o) >= 1
  {
    HalvingsOf(o, o.quantity.Floor - o.filled.Floor);
  }
}
