/** Orders, fills and the two pure decisions of the paper broker: when an order
    fills and how much of it fills.  Decimals are exact reals. */
module Orders {
  import opened Wrappers

  datatype Side = Buy | Sell
  datatype OrderType = Market | Limit | Stop | StopLimit
  datatype Status = Pending | Submitted | PartialFill | Filled | Cancelled | Rejected | Expired
  datatype TimeInForce = Day | Gtc | Ioc | Fok
  datatype ExecutionMode = Shadow | Paper | Live

  datatype Request = Request(
    clientId: string, symbol: string, side: Side, orderType: OrderType, quantity: real,
    limitPrice: Option<real>, stopPrice: Option<real>,
    timeInForce: TimeInForce, correlationId: string, mode: ExecutionMode)

  datatype Order = Order(
    clientId: string, brokerId: string, symbol: string, side: Side, orderType: OrderType,
    quantity: real, filled: real, average: Option<real>, status: Status,
    limitPrice: Option<real>, stopPrice: Option<real>,
    timeInForce: TimeInForce, correlationId: string, mode: ExecutionMode)

  datatype Fill = Fill(
    clientId: string, brokerId: string, symbol: string, side: Side,
    price: real, quantity: real, commission: real)

  /** What request construction enforces before an adapter ever sees the request. */
  predicate ValidRequest(r: Request) {
    && r.quantity > 0.0
    && ValidPrices(r.orderType, r.limitPrice, r.stopPrice)
  }

  predicate ValidPrices(t: OrderType, limitPrice: Option<real>, stopPrice: Option<real>) {
    && (limitPrice.Some? ==> limitPrice.value > 0.0)
    && (stopPrice.Some? ==> stopPrice.value > 0.0)
    && (t == Limit || t == StopLimit ==> limitPrice.Some?)
    && (t == Stop || t == StopLimit ==> stopPrice.Some?)
  }

  predicate Terminal(status: Status) {
    status == Filled || status == Cancelled || status == Rejected || status == Expired
  }

  /** The acknowledgement built when an order is accepted. */
  function Acknowledge(r: Request, brokerId: string): Order {
    Order(r.clientId, brokerId, r.symbol, r.side, r.orderType, r.quantity, 0.0, None, Submitted,
          r.limitPrice, r.stopPrice, r.timeInForce, r.correlationId, r.mode)
  }

  /** The fields of an order that echo its request. */
  predicate Echoes(o: Order, r: Request) {
    && o.clientId == r.clientId && o.symbol == r.symbol && o.side == r.side
    && o.orderType == r.orderType && o.quantity == r.quantity
    && o.limitPrice == r.limitPrice && o.stopPrice == r.stopPrice
    && o.timeInForce == r.timeInForce && o.correlationId == r.correlationId && o.mode == r.mode
  }

  /** Two states of one order agree on everything but its fill progress and status. */
  predicate SameIdentity(o: Order, o': Order) {
    o' == o.(filled := o'.filled, average := o'.average, status := o'.status)
  }

  /** Python's `price or default`: an absent or zero price selects the default. */
  predicate Given(price: Option<real>) {
    price.Some? && price.value != 0.0
  }

  /** Fill condition; a missing sell limit or buy stop defaults to plus infinity. */
  predicate ShouldFill(o: Order, market: real) {
    match o.orderType
    case Market => true
    case Limit =>
      if o.side == Buy then market <= (if Given(o.limitPrice) then o.limitPrice.value else 0.0)
      else Given(o.limitPrice) && market >= o.limitPrice.value
    case Stop =>
      if o.side == Buy then Given(o.stopPrice) && market >= o.stopPrice.value
      else market <= (if Given(o.stopPrice) then o.stopPrice.value else 0.0)
    case StopLimit => false
  }

  /** Decimal.quantize(Decimal("1")) under the default context: round half to even. */
  function HalfEven(x: real): (n: int)
    ensures x - 0.5 <= n as real <= x + 0.5
    ensures n as real == x - 0.5 || n as real == x + 0.5 ==> n % 2 == 0
  {
    var f := x.Floor;
    var d := x - f as real;
    if d < 0.5 || (d == 0.5 && f % 2 == 0) then f else f + 1
  }

  /** Quantity filled by one tick: the rounded share of the remainder, or all of
      the remainder when that share rounds to nothing. */
  function FillQuantity(remaining: real, ratio: real): real {
    RoundedShare(remaining, remaining * ratio)
  }

  function RoundedShare(remaining: real, share: real): real {
    var rounded := HalfEven(share) as real;
    if rounded <= 0.0 then remaining else rounded
  }

  /** Volume-weighted average of `f` units at `a` and `q` units at `p`. */
  function Blend(a: real, f: real, p: real, q: real): real
    requires f + q != 0.0
  {
    (Worth(f, a) + Worth(q, p)) / (f + q)
  }

  /** The order after a fill at `price`. */
  function AfterFill(o: Order, price: real, ratio: real): Order
    requires 0.0 <= o.filled < o.quantity
  {
    var q := FillQuantity(o.quantity - o.filled, ratio);
    FillIsPositive(o.quantity - o.filled, ratio);
    var filled := o.filled + q;
    var average := if o.average.Some? && o.filled > 0.0
                   then Blend(o.average.value, o.filled, price, q)
                   else price;
    o.(filled := filled, average := Some(average),
       status := if filled >= o.quantity then Filled else PartialFill)
  }

  lemma FillIsPositive(remaining: real, ratio: real)
    requires remaining > 0.0
    ensures FillQuantity(remaining, ratio) > 0.0
  {
  }

  // ----- Rounding -----

  lemma HalfEvenWhole(x: real, n: int)
    requires x <= n as real
    ensures HalfEven(x) <= n
  {
  }

  lemma RoundedShareBounds(remaining: real, share: real)
    requires 0.0 < remaining
    ensures RoundedShare(remaining, share) >= 1.0 || RoundedShare(remaining, share) == remaining
    ensures share <= remaining ==> RoundedShare(remaining, share) <= remaining + 0.5
    ensures share <= remaining && Whole(remaining) ==>
              RoundedShare(remaining, share) <= remaining && Whole(RoundedShare(remaining, share))
  {
    if share <= remaining && Whole(remaining) {
      HalfEvenWhole(share, remaining.Floor);
    }
  }

  /** Every fill takes at least one unit or the whole remainder; it overshoots the
      remainder by at most half a unit, and never when the remainder is whole. */
  lemma FillQuantityBounds(remaining: real, ratio: real)
    requires remaining > 0.0
    ensures FillQuantity(remaining, ratio) >= 1.0 || FillQuantity(remaining, ratio) == remaining
    ensures 0.0 <= ratio <= 1.0 ==> FillQuantity(remaining, ratio) <= remaining + 0.5
    ensures 0.0 <= ratio <= 1.0 && Whole(remaining) ==>
              FillQuantity(remaining, ratio) <= remaining && Whole(FillQuantity(remaining, ratio))
  {
    hide RoundedShare, Whole;
    RoundedShareBounds(remaining, remaining * ratio);
    if 0.0 <= ratio <= 1.0 {
      ShareAtMost(remaining, ratio);
    }
  }

  /** The fill is the share of the remainder rounded to the nearest unit, ties to even, or
      all of the remainder exactly when that share rounds to nothing. */
  lemma FillIsRoundedShare(remaining: real, ratio: real)
    requires remaining > 0.0
    ensures var q, share := FillQuantity(remaining, ratio), remaining * ratio;
            && (share <= 0.5 ==> q == remaining)
            && (share > 0.5 ==> Whole(q) && q >= 1.0 && share - 0.5 <= q <= share + 0.5)
            && (share > 0.5 && (q == share - 0.5 || q == share + 0.5) ==> q.Floor % 2 == 0)
  {
    var n := HalfEven(remaining * ratio);
    assert (n as real).Floor == n;
  }

  lemma ShareAtMost(remaining: real, ratio: real)
    requires remaining > 0.0 && 0.0 <= ratio <= 1.0
    ensures remaining * ratio <= remaining
  {
    assert remaining * ratio <= remaining * 1.0;
  }

  predicate Whole(x: real) {
    x == x.Floor as real
  }

  function Ceiling(x: real): int {
    if Whole(x) then x.Floor else x.Floor + 1
  }

  // ----- Money -----

  /** Worth of `quantity` units at `price`. */
  function Worth(quantity: real, price: real): real { quantity * price }

  lemma WorthOfNone(price: real)
    ensures Worth(0.0, price) == 0.0
  {
  }

  lemma WorthAdds(q: real, q': real, price: real)
    ensures Worth(q + q', price) == Worth(q, price) + Worth(q', price)
  {
  }

  lemma WorthDiffers(quantity: real, price: real, price': real)
    ensures Worth(quantity, price - price') == Worth(quantity, price) - Worth(quantity, price')
  {
  }

  lemma WorthGrows(quantity: real, price: real, price': real)
    requires quantity >= 0.0 && price <= price'
    ensures Worth(quantity, price) <= Worth(quantity, price')
  {
  }

  lemma DivideBack(x: real, y: real)
    requires y != 0.0
    ensures x / y * y == x
  {
  }

  /** An average price lies on the same side of a bound as the total does. */
  lemma UnitPrice(total: real, units: real, bound: real)
    requires units > 0.0
    ensures total <= Worth(units, bound) ==> total / units <= bound
    ensures total >= Worth(units, bound) ==> total / units >= bound
  {
    DivideBack(total, units);
  }

  /** A blended average values all units at what was paid for them. */
  lemma WorthOfBlend(a: real, f: real, p: real, q: real)
    requires f + q != 0.0
    ensures Worth(f + q, Blend(a, f, p, q)) == Worth(f, a) + Worth(q, p)
  {
    DivideBack(Worth(f, a) + Worth(q, p), f + q);
  }

  /** A blended average lies on the same side of a bound as both of its parts. */
  lemma BlendWithin(a: real, f: real, p: real, q: real, bound: real)
    requires f >= 0.0 && q > 0.0
    ensures a <= bound && p <= bound ==> Blend(a, f, p, q) <= bound
    ensures a >= bound && p >= bound ==> Blend(a, f, p, q) >= bound
  {
    hide Worth;
    UnitPrice(Worth(f, a) + Worth(q, p), f + q, bound);
    WorthAdds(f, q, bound);
    if a <= bound && p <= bound {
      WorthGrows(f, a, bound);
      WorthGrows(q, p, bound);
    }
    if a >= bound && p >= bound {
      WorthGrows(f, bound, a);
      WorthGrows(q, bound, p);
    }
  }
}
