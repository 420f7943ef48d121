/** The append-only fill history and the quantities derived from it: sums over
    fills, the position book with its weighted-average cost, and the accounting
    identities that tie the two together. */
module Ledger {
  import opened Wrappers
  import opened Orders

  // ----- Sums over a fill history -----

  function Sum(log: seq<Fill>, w: Fill -> real): real {
    if log == [] then 0.0 else Sum(log[..|log| - 1], w) + w(log[|log| - 1])
  }

  lemma SumAppend(log: seq<Fill>, f: Fill, w: Fill -> real)
    ensures Sum(log + [f], w) == Sum(log, w) + w(f)
  {
    assert (log + [f])[..|log|] == log;
  }

  lemma {:induction false} SumConcat(a: seq<Fill>, b: seq<Fill>, w: Fill -> real)
    ensures Sum(a + b, w) == Sum(a, w) + Sum(b, w)
  {
    if b == [] {
      assert a + b == a;
    } else {
      var n := |b| - 1;
      assert a + b == (a + b[..n]) + [b[n]];
      SumAppend(a + b[..n], b[n], w);
      SumConcat(a, b[..n], w);
    }
  }

  lemma SumWithout(log: seq<Fill>, k: nat, w: Fill -> real)
    requires k < |log|
    ensures Sum(log, w) == Sum(log[..k] + log[k + 1..], w) + w(log[k])
  {
    hide Sum;
    var a, x, b := log[..k], log[k], log[k + 1..];
    assert log == (a + [x]) + b;
    SumConcat(a + [x], b, w);
    SumAppend(a, x, w);
    SumConcat(a, b, w);
  }

  lemma MultisetWithout(log: seq<Fill>, k: nat)
    requires k < |log|
    ensures multiset(log[..k] + log[k + 1..]) == multiset(log) - multiset{log[k]}
  {
    assert log == log[..k] + [log[k]] + log[k + 1..];
  }

  /** A sum over fills does not depend on their order. */
  lemma {:induction false} SumPermute(a: seq<Fill>, b: seq<Fill>, w: Fill -> real)
    requires multiset(a) == multiset(b)
    ensures Sum(a, w) == Sum(b, w)
  {
    hide Sum;
    if a == [] {
      assert |multiset(b)| == 0;
    } else {
      var n := |a| - 1;
      assert a[n] in multiset(b);
      var k :| 0 <= k < |b| && b[k] == a[n];
      MultisetWithout(a, n);
      MultisetWithout(b, k);
      SumPermute(a[..n] + a[n + 1..], b[..k] + b[k + 1..], w);
      SumWithout(a, n, w);
      SumWithout(b, k, w);
    }
  }

  function Quantity(f: Fill): real { f.quantity }

  function Notional(f: Fill): real { Worth(f.quantity, f.price) }

  function Commission(f: Fill): real { f.commission }

  /** Position change of a fill: positive for a buy, negative for a sell. */
  function Signed(f: Fill): real {
    if f.side == Buy then f.quantity else -f.quantity
  }

  function SignedNotional(f: Fill): real { Worth(Signed(f), f.price) }

  function NetIn(symbol: string): Fill -> real {
    (f: Fill) => if f.symbol == symbol then Signed(f) else 0.0
  }

  function PriceOf(prices: map<string, real>, symbol: string): real {
    if symbol in prices then prices[symbol] else 0.0
  }

  /** Value of a fill's position change at the given prices. */
  function MarkedAt(prices: map<string, real>): Fill -> real {
    (f: Fill) => Worth(Signed(f), PriceOf(prices, f.symbol))
  }

  /** Gain of a fill since it happened, at the given prices. */
  function GainAt(prices: map<string, real>): Fill -> real {
    (f: Fill) => Worth(Signed(f), PriceOf(prices, f.symbol) - f.price)
  }

  lemma {:induction false} GainIsMarkMinusCost(log: seq<Fill>, prices: map<string, real>)
    ensures Sum(log, GainAt(prices)) == Sum(log, MarkedAt(prices)) - Sum(log, SignedNotional)
  {
    if log != [] {
      hide Worth;
      GainIsMarkMinusCost(log[..|log| - 1], prices);
      var f := log[|log| - 1];
      WorthDiffers(Signed(f), PriceOf(prices, f.symbol), f.price);
    }
  }

  /** Fills that happen at the current prices gain nothing. */
  lemma {:induction false} NoGainAtCurrentPrices(log: seq<Fill>, prices: map<string, real>)
    requires forall f :: f in log ==> f.price == PriceOf(prices, f.symbol)
    ensures Sum(log, GainAt(prices)) == 0.0
  {
    if log != [] {
      var n := |log| - 1;
      assert log[n] in log;
      NoGainAtCurrentPrices(log[..n], prices);
    }
  }

  /** The fills of one order, oldest first. */
  function FillsOf(log: seq<Fill>, id: string): seq<Fill> {
    if log == [] then []
    else
      var n := |log| - 1;
      FillsOf(log[..n], id) + (if log[n].brokerId == id then [log[n]] else [])
  }

  lemma FillsOfAppend(log: seq<Fill>, f: Fill, id: string)
    ensures FillsOf(log + [f], id) == FillsOf(log, id) + (if f.brokerId == id then [f] else [])
  {
    assert (log + [f])[..|log|] == log;
  }

  lemma {:induction false} FillsOfAbsent(log: seq<Fill>, id: string)
    requires forall f :: f in log ==> f.brokerId != id
    ensures FillsOf(log, id) == []
  {
    if log != [] {
      assert log[|log| - 1] in log;
      FillsOfAbsent(log[..|log| - 1], id);
    }
  }

  // ----- Positions -----

  datatype Position = Position(quantity: real, average: real, realized: real)

  const NoPosition := Position(0.0, 0.0, 0.0)

  type Book = map<string, Position>

  function Abs(x: real): real { if x < 0.0 then -x else x }

  function Lookup(book: Book, symbol: string): Option<Position> {
    if symbol in book then Some(book[symbol]) else None
  }

  function Held(was: Option<Position>): Position {
    if was.Some? then was.value else NoPosition
  }

  /** A position after a fill of `signed` units at `price`. */
  function Moved(was: Option<Position>, signed: real, price: real): Position {
    if was.None? then Position(signed, price, 0.0)
    else
      var pos := was.value;
      var q := pos.quantity + signed;
      if q == 0.0 then
        var pnl := if pos.quantity < 0.0 then Worth(Abs(signed), pos.average - price)
                   else Worth(Abs(signed), price - pos.average);
        Position(0.0, 0.0, pos.realized + pnl)
      else if (pos.quantity > 0.0 && signed > 0.0) || (pos.quantity < 0.0 && signed < 0.0) then
        Position(q, (Worth(Abs(pos.quantity), pos.average) + Worth(Abs(signed), price)) / Abs(q), pos.realized)
      else
        var closed := if Abs(signed) < Abs(pos.quantity) then Abs(signed) else Abs(pos.quantity);
        var pnl := if pos.quantity > 0.0 then Worth(closed, price - pos.average)
                   else Worth(closed, pos.average - price);
        Position(q, pos.average, pos.realized + pnl)
  }

  /** The fill turns a position over to the other side, or reopens a flat symbol:
      the units left were bought at `price` but keep the old average. */
  predicate Stale(was: Option<Position>, signed: real) {
    && was.Some?
    && var q, q' := was.value.quantity, was.value.quantity + signed;
    && q' != 0.0
    && (q == 0.0 || (q > 0.0 && q' < 0.0) || (q < 0.0 && q' > 0.0))
  }

  /** Cost basis misstated by one fill. */
  function Slip(was: Option<Position>, signed: real, price: real): real {
    if Stale(was, signed) then Worth(was.value.quantity + signed, was.value.average - price) else 0.0
  }

  lemma AddingAccounting(q: real, a: real, s: real, price: real)
    requires (q > 0.0 && s > 0.0) || (q < 0.0 && s < 0.0)
    ensures Worth(q + s, (Worth(Abs(q), a) + Worth(Abs(s), price)) / Abs(q + s)) == Worth(q, a) + Worth(s, price)
  {
    var n := a * Abs(q) + price * Abs(s);
    DivideBack(n, Abs(q + s));
  }

  lemma ReducingAccounting(q: real, a: real, s: real, price: real)
    requires (q >= 0.0 && s <= 0.0) || (q <= 0.0 && s >= 0.0)
    ensures Abs(s) <= Abs(q) ==>
              Worth(q + s, a) == Worth(q, a) + Worth(s, price)
                                 + (if q > 0.0 then Worth(Abs(s), price - a) else Worth(Abs(s), a - price))
    ensures Abs(s) >= Abs(q) ==>
              Worth(q + s, a) == Worth(q, a) + Worth(s, price)
                                 + (if q > 0.0 then Worth(Abs(q), price - a) else Worth(Abs(q), a - price))
                                 + Worth(q + s, a - price)
  {
    assert Worth(q + s, a) - Worth(q, a) - Worth(s, price) == (a - price) * s;
    assert (a - price) * (q + s) == (a - price) * q + (a - price) * s;
  }

  /** Accounting of one fill: the change in book cost is the money paid plus the
      profit realized plus the misstated cost. */
  lemma MovedAccounting(was: Option<Position>, signed: real, price: real)
    requires signed != 0.0
    ensures var pos, pos' := Held(was), Moved(was, signed, price);
            && pos'.quantity == pos.quantity + signed
            && Cost(pos') == Cost(pos) + Worth(signed, price)
               + (pos'.realized - pos.realized) + Slip(was, signed, price)
  {
    hide Worth;
    WorthOfNone(0.0);
    if was.Some? {
      var pos := was.value;
      if (pos.quantity > 0.0 && signed > 0.0) || (pos.quantity < 0.0 && signed < 0.0) {
        AddingAccounting(pos.quantity, pos.average, signed, price);
      } else {
        ReducingAccounting(pos.quantity, pos.average, signed, price);
        WorthOfNone(pos.average);
      }
    }
  }

  /** What a fill does to a position, side by side: the units that leave the old side realize
      the difference between price and average and leave the average as it is; units added to
      a side realize nothing and are averaged in.  Only a closed position loses its average. */
  lemma MovedExactly(was: Option<Position>, signed: real, price: real)
    requires signed != 0.0
    ensures var pos, pos' := Held(was), Moved(was, signed, price);
            var q, q' := pos.quantity, pos'.quantity;
            && q' == q + signed
            && (was.None? ==> pos' == Position(signed, price, 0.0))
            && (0.0 < q' < q || q < q' < 0.0 || (q != 0.0 && q' == 0.0) ==>
                pos'.realized == pos.realized + Worth(q - q', price - pos.average))
            && (0.0 < q' < q || q < q' < 0.0 ==> pos'.average == pos.average)
            && (was.Some? && q' == 0.0 ==> pos'.average == 0.0)
            && (0.0 < q < q' || q' < q < 0.0 ==>
                && pos'.realized == pos.realized
                && Worth(q', pos'.average) == Worth(q, pos.average) + Worth(signed, price))
            && (q' < 0.0 < q || q < 0.0 < q' ==>
                pos'.average == pos.average && pos'.realized == pos.realized + Worth(q, price - pos.average))
            && (was.Some? && q == 0.0 ==> pos'.average == pos.average && pos'.realized == pos.realized)
  {
    hide Worth;
    if was.Some? {
      var pos := was.value;
      var q, q' := pos.quantity, pos.quantity + signed;
      WorthOfNone(price - pos.average);
      WorthOfNone(pos.average - price);
      WorthTurns(Abs(signed), price - pos.average);
      WorthTurns(Abs(q), price - pos.average);
      if (q > 0.0 && signed > 0.0) || (q < 0.0 && signed < 0.0) {
        AddingAccounting(q, pos.average, signed, price);
      }
    }
  }

  lemma WorthTurns(quantity: real, gain: real)
    ensures Worth(-quantity, gain) == Worth(quantity, -gain)
  {
  }

  function Posted(book: Book, f: Fill): Book {
    book[f.symbol := Moved(Lookup(book, f.symbol), Signed(f), f.price)]
  }

  /** The book after a history of fills. */
  function Replay(log: seq<Fill>): Book {
    if log == [] then map[] else Posted(Replay(log[..|log| - 1]), log[|log| - 1])
  }

  /** Symbols in the order of their first fill. */
  function SymbolsOf(log: seq<Fill>): seq<string> {
    if log == [] then []
    else
      var symbols := SymbolsOf(log[..|log| - 1]);
      AddKey(symbols, log[|log| - 1].symbol)
  }

  function AddKey(keys: seq<string>, k: string): seq<string> {
    if k in keys then keys else keys + [k]
  }

  predicate Distinct(keys: seq<string>) {
    forall i, j :: 0 <= i < j < |keys| ==> keys[i] != keys[j]
  }

  lemma ReplayAppend(log: seq<Fill>, f: Fill)
    ensures Replay(log + [f]) == Posted(Replay(log), f)
    ensures SymbolsOf(log + [f]) == AddKey(SymbolsOf(log), f.symbol)
  {
    assert (log + [f])[..|log|] == log;
  }

  lemma {:induction false} SymbolsAreKeys(log: seq<Fill>)
    ensures Distinct(SymbolsOf(log))
    ensures forall k :: k in SymbolsOf(log) <==> k in Replay(log)
  {
    if log != [] {
      SymbolsAreKeys(log[..|log| - 1]);
    }
  }

  /** Symbols stand in the order of their first fills: before any fill in one of them there
      has been a fill in each of those that stand before it. */
  lemma {:induction false} SymbolsInOrder(log: seq<Fill>, i: nat, j: nat, b: nat)
    requires i < j < |SymbolsOf(log)| && b < |log| && log[b].symbol == SymbolsOf(log)[j]
    ensures exists a :: 0 <= a < b && log[a].symbol == SymbolsOf(log)[i]
  {
    var n := |log| - 1;
    var before := SymbolsOf(log[..n]);
    if b < n {
      SymbolHasFill(log[..n], b);
      SymbolsInOrder(log[..n], i, j, b);
      var a :| 0 <= a < b && log[..n][a].symbol == before[i];
      assert log[a].symbol == SymbolsOf(log)[i];
    } else {
      var a := FirstFill(log[..n], before[i]);
      assert log[a].symbol == SymbolsOf(log)[i];
    }
  }

  /** A symbol that has been filled stands among the symbols so far. */
  lemma SymbolHasFill(log: seq<Fill>, b: nat)
    requires b < |log|
    ensures log[b].symbol in SymbolsOf(log)
    decreases |log|
  {
    var n := |log| - 1;
    if b < n {
      SymbolHasFill(log[..n], b);
    }
  }

  lemma {:induction false} FirstFill(log: seq<Fill>, k: string) returns (a: nat)
    requires k in SymbolsOf(log)
    ensures a < |log| && log[a].symbol == k
  {
    var n := |log| - 1;
    if log[n].symbol == k {
      a := n;
    } else {
      a := FirstFill(log[..n], k);
    }
  }

  /** Fills move something: required by the fill record itself. */
  predicate Moving(log: seq<Fill>) {
    forall f :: f in log ==> f.quantity > 0.0
  }

  /** Each position is the signed sum of its symbol's fills. */
  lemma {:induction false} PositionIsNet(log: seq<Fill>, symbol: string)
    requires Moving(log)
    ensures Held(Lookup(Replay(log), symbol)).quantity == Sum(log, NetIn(symbol))
  {
    if log != [] {
      var n := |log| - 1;
      var f := log[n];
      assert f in log;
      PositionIsNet(log[..n], symbol);
      MovedAccounting(Lookup(Replay(log[..n]), f.symbol), Signed(f), f.price);
    }
  }

  /** A flat symbol has no average left. */
  lemma {:induction false} FlatHasNoAverage(log: seq<Fill>, symbol: string)
    requires Moving(log)
    ensures Held(Lookup(Replay(log), symbol)).quantity == 0.0 ==> Held(Lookup(Replay(log), symbol)).average == 0.0
  {
    if log != [] {
      var n := |log| - 1;
      assert log[n] in log;
      FlatHasNoAverage(log[..n], symbol);
      hide Worth;
    }
  }

  // ----- Totals over a book -----

  type Weight = (string, Position) -> real

  function Total(keys: seq<string>, book: Book, w: Weight): real {
    if keys == [] then 0.0
    else
      var k := keys[|keys| - 1];
      Total(keys[..|keys| - 1], book, w) + WeightAt(book, k, w)
  }

  function WeightAt(book: Book, k: string, w: Weight): real {
    if k in book then w(k, book[k]) else 0.0
  }

  lemma {:induction false} TotalUnaffected(keys: seq<string>, book: Book, k: string, pos: Position, w: Weight)
    requires k !in keys
    ensures Total(keys, book[k := pos], w) == Total(keys, book, w)
  {
    if keys != [] {
      assert keys[|keys| - 1] in keys;
      TotalUnaffected(keys[..|keys| - 1], book, k, pos, w);
    }
  }

  lemma {:induction false} TotalUpdateKnown(keys: seq<string>, book: Book, k: string, pos: Position, w: Weight)
    requires Distinct(keys) && k in keys
    ensures Total(keys, book[k := pos], w) == Total(keys, book, w) + w(k, pos) - WeightAt(book, k, w)
  {
    var n := |keys| - 1;
    if keys[n] == k {
      assert k !in keys[..n];
      TotalUnaffected(keys[..n], book, k, pos, w);
    } else {
      TotalUpdateKnown(keys[..n], book, k, pos, w);
    }
  }

  /** Setting one position changes a total by the change of that position. */
  lemma TotalUpdate(keys: seq<string>, book: Book, k: string, pos: Position, w: Weight)
    requires Distinct(keys)
    requires forall x :: x in keys <==> x in book
    ensures Total(AddKey(keys, k), book[k := pos], w) ==
            Total(keys, book, w) + w(k, pos) - WeightAt(book, k, w)
  {
    if k !in keys {
      assert (keys + [k])[..|keys|] == keys;
      TotalUnaffected(keys, book, k, pos, w);
    } else {
      TotalUpdateKnown(keys, book, k, pos, w);
    }
  }

  /** Cost basis carried by a position, negative for a short one. */
  function Cost(pos: Position): real { Worth(pos.quantity, pos.average) }

  function CostOf(k: string, pos: Position): real { Cost(pos) }

  function ProfitOf(k: string, pos: Position): real { pos.realized }

  function ValueAt(prices: map<string, real>): Weight {
    (k: string, pos: Position) => Worth(pos.quantity, PriceOf(prices, k))
  }

  /** Cost basis misstated over a whole history. */
  function TotalSlip(log: seq<Fill>): real {
    if log == [] then 0.0
    else
      var before, f := log[..|log| - 1], log[|log| - 1];
      TotalSlip(before) + Slip(Lookup(Replay(before), f.symbol), Signed(f), f.price)
  }

  /** No fill turns a position over or reopens a flat symbol. */
  predicate NeverStale(log: seq<Fill>) {
    forall k :: 0 <= k < |log| ==>
      !Stale(Lookup(Replay(log[..k]), log[k].symbol), Signed(log[k]))
  }

  lemma {:induction false} NeverStaleNoSlip(log: seq<Fill>)
    requires NeverStale(log)
    ensures TotalSlip(log) == 0.0
  {
    if log != [] {
      var n := |log| - 1;
      assert forall k :: 0 <= k < n ==> log[..n][..k] == log[..k];
      NeverStaleNoSlip(log[..n]);
    }
  }

  /** Book cost = money paid for positions + realized profit + misstated cost. */
  lemma {:induction false} BookCost(log: seq<Fill>)
    requires Moving(log)
    ensures Total(SymbolsOf(log), Replay(log), CostOf) ==
            Sum(log, SignedNotional) + Total(SymbolsOf(log), Replay(log), ProfitOf) + TotalSlip(log)
  {
    if log != [] {
      hide Moved, Slip, Worth;
      var before, f := log[..|log| - 1], log[|log| - 1];
      assert f in log;
      BookCost(before);
      SymbolsAreKeys(before);
      var book, was := Replay(before), Lookup(Replay(before), f.symbol);
      MovedAccounting(was, Signed(f), f.price);
      var pos := Moved(was, Signed(f), f.price);
      TotalUpdate(SymbolsOf(before), book, f.symbol, pos, CostOf);
      TotalUpdate(SymbolsOf(before), book, f.symbol, pos, ProfitOf);
      WorthOfNone(0.0);
      assert WeightAt(book, f.symbol, CostOf) == Cost(Held(was));
    }
  }

  /** One fill changes the value of its position by its own value. */
  lemma ValueMoves(book: Book, f: Fill, prices: map<string, real>)
    requires Signed(f) != 0.0
    ensures var pos := Moved(Lookup(book, f.symbol), Signed(f), f.price);
            ValueAt(prices)(f.symbol, pos) == WeightAt(book, f.symbol, ValueAt(prices)) + MarkedAt(prices)(f)
  {
    hide Moved, Worth, Slip, Cost;
    var was := Lookup(book, f.symbol);
    MovedAccounting(was, Signed(f), f.price);
    WorthAdds(Held(was).quantity, Signed(f), PriceOf(prices, f.symbol));
    WorthOfNone(PriceOf(prices, f.symbol));
  }

  /** Market value of the book = value of all fills at the same prices. */
  lemma {:induction false} BookValue(log: seq<Fill>, prices: map<string, real>)
    requires Moving(log)
    ensures Total(SymbolsOf(log), Replay(log), ValueAt(prices)) == Sum(log, MarkedAt(prices))
  {
    hide Moved, Worth, AddKey, ValueAt, MarkedAt, WeightAt;
    if log != [] {
      hide Total;
      var before, f := log[..|log| - 1], log[|log| - 1];
      assert f in log;
      BookValue(before, prices);
      SymbolsAreKeys(before);
      ValueMoves(Replay(before), f, prices);
      TotalUpdate(SymbolsOf(before), Replay(before), f.symbol,
        Moved(Lookup(Replay(before), f.symbol), Signed(f), f.price), ValueAt(prices));
    }
  }
}
