/** One tick in any order of its pending orders: order states, fills, cash,
    commission and net positions do not depend on it; cost basis may. */
module TickPermutation {
  import opened Orders
  import opened Ledger
  import opened Broker
  import opened BrokerRuns

  lemma {:induction false} EventsConcat(cfg: Config, s: State, a: seq<string>, b: seq<string>)
    ensures Events(cfg, s, a + b) == Events(cfg, s, a) + Events(cfg, s, b)
  {
    if b == [] {
      assert a + b == a;
    } else {
      hide Fires, FillOf;
      var n := |b| - 1;
      assert (a + b)[..|a + b| - 1] == a + b[..n];
      EventsConcat(cfg, s, a, b[..n]);
    }
  }

  lemma EventsWithout(cfg: Config, s: State, ids: seq<string>, k: nat)
    requires k < |ids|
    ensures multiset(Events(cfg, s, ids)) ==
            multiset(Events(cfg, s, ids[..k] + ids[k + 1..])) + multiset(Events(cfg, s, [ids[k]]))
  {
    hide Events;
    var a, x, b := ids[..k], [ids[k]], ids[k + 1..];
    assert ids == a + x + b;
    EventsConcat(cfg, s, a + x, b);
    EventsConcat(cfg, s, a, x);
    EventsConcat(cfg, s, a, b);
  }

  lemma {:induction false} EventsPermute(cfg: Config, s: State, a: seq<string>, b: seq<string>)
    requires multiset(a) == multiset(b)
    ensures multiset(Events(cfg, s, a)) == multiset(Events(cfg, s, b))
  {
    if a == [] {
      assert |multiset(b)| == 0;
    } else {
      hide Events;
      var n := |a| - 1;
      assert a == a[..n] + [a[n]];
      assert a[n] in multiset(b);
      var k :| 0 <= k < |b| && b[k] == a[n];
      var b' := b[..k] + b[k + 1..];
      assert b == b[..k] + [b[k]] + b[k + 1..];
      assert multiset(a[..n]) == multiset(a) - multiset{a[n]};
      assert multiset(b') == multiset(b) - multiset{b[k]};
      EventsPermute(cfg, s, a[..n], b');
      EventsConcat(cfg, s, a[..n], [a[n]]);
      EventsWithout(cfg, s, b, k);
    }
  }

  lemma {:induction false} FillsOfConcat(a: seq<Fill>, b: seq<Fill>, id: string)
    ensures FillsOf(a + b, id) == FillsOf(a, id) + FillsOf(b, id)
  {
    if b == [] {
      assert a + b == a;
    } else {
      var n := |b| - 1;
      assert a + b == (a + b[..n]) + [b[n]];
      FillsOfAppend(a + b[..n], b[n], id);
      FillsOfConcat(a, b[..n], id);
    }
  }

  /** A tick fills each order at most once. */
  lemma {:induction false} EventsOfOrder(cfg: Config, s: State, ids: seq<string>, id: string)
    requires Distinct(ids)
    ensures FillsOf(Events(cfg, s, ids), id) == if id in ids && Fires(s, id) then [FillOf(cfg, s, id)] else []
  {
    if ids != [] {
      hide Fires;
      var n := |ids| - 1;
      assert ids == ids[..n] + [ids[n]] && ids[n] !in ids[..n];
      EventsOfOrder(cfg, s, ids[..n], id);
      if Fires(s, ids[n]) {
        FillsOfAppend(Events(cfg, s, ids[..n]), FillOf(cfg, s, ids[n]), id);
        assert FillOf(cfg, s, ids[n]).brokerId == ids[n];
      } else {
        assert Events(cfg, s, ids) == Events(cfg, s, ids[..n]);
      }
    }
  }

  lemma DistinctPermute(a: seq<string>, b: seq<string>)
    requires Distinct(a) && multiset(a) == multiset(b)
    ensures Distinct(b) && forall id :: id in a <==> id in b
  {
    forall id ensures id in a <==> id in b {
      assert id in a <==> id in multiset(a);
      assert id in b <==> id in multiset(b);
    }
    forall i, j | 0 <= i < j < |b| ensures b[i] != b[j] {
      OnceInDistinct(a, b[i]);
      RepeatedCounts(b, i, j);
    }
  }

  lemma RepeatedCounts(b: seq<string>, i: nat, j: nat)
    requires i < j < |b|
    ensures b[i] == b[j] ==> multiset(b)[b[i]] >= 2
  {
    assert b == b[..j] + [b[j]] + b[j + 1..];
    assert b[i] in b[..j];
    assert b[i] in multiset(b[..j]);
  }

  lemma {:induction false} OnceInDistinct(a: seq<string>, x: string)
    requires Distinct(a)
    ensures multiset(a)[x] <= 1
  {
    if a != [] {
      var n := |a| - 1;
      assert a == a[..n] + [a[n]];
      OnceInDistinct(a[..n], x);
      if a[n] == x {
        assert x !in a[..n];
        assert x !in multiset(a[..n]);
      }
    }
  }

  lemma SameOrders(cfg: Config, s: State, a: seq<string>, b: seq<string>, ta: Ticking, tb: Ticking)
    requires AtOnce(cfg, s, a, ta) && AtOnce(cfg, s, b, tb)
    requires forall id :: id in a <==> id in b
    ensures ta.state.orders == tb.state.orders && ta.state.pending == tb.state.pending
  {
    hide Events, Fires, FilledOrder;
    assert forall id :: id in s.orders ==> OrderAfter(cfg, s, a, id) == OrderAfter(cfg, s, b, id);
    assert ta.state.pending.Keys == tb.state.pending.Keys;
  }

  /** The outcome of a tick up to the order of its fills and the cost basis. */
  ghost predicate SameOutcome(s: State, s': State) {
    && s.prices == s'.prices && s.orders == s'.orders && s.orderIds == s'.orderIds
    && s.pending == s'.pending && s.clientIds == s'.clientIds && s.fills == s'.fills
    && s.cash == s'.cash && s.paid == s'.paid
    && multiset(s.log) == multiset(s'.log)
    && (forall symbol :: symbol in s.positions <==> symbol in s'.positions)
    && (forall symbol :: Held(Lookup(s.positions, symbol)).quantity == Held(Lookup(s'.positions, symbol)).quantity)
  }

  /** States that agree with permuted histories have the same money and net positions. */
  lemma SameMoney(cfg: Config, s: State, s': State)
    requires Balanced(cfg, s) && Balanced(cfg, s') && multiset(s.log) == multiset(s'.log)
    ensures s.cash == s'.cash && s.paid == s'.paid
    ensures forall symbol :: Held(Lookup(s.positions, symbol)).quantity == Held(Lookup(s'.positions, symbol)).quantity
    ensures forall symbol :: symbol in s.positions <==> symbol in s'.positions
  {
    hide Sum, Worth, Replay, Protects, NetIn;
    SumPermute(s.log, s'.log, Commission);
    SumPermute(s.log, s'.log, SignedNotional);
    forall symbol
      ensures Held(Lookup(s.positions, symbol)).quantity == Held(Lookup(s'.positions, symbol)).quantity
    {
      PositionIsNet(s.log, symbol);
      PositionIsNet(s'.log, symbol);
      SumPermute(s.log, s'.log, NetIn(symbol));
    }
    forall symbol ensures symbol in s.positions <==> symbol in s'.positions {
      PositionsComeFromFills(s.log, symbol);
      PositionsComeFromFills(s'.log, symbol);
      SameMembers(s.log, s'.log);
    }
  }

  lemma SameMembers(a: seq<Fill>, b: seq<Fill>)
    requires multiset(a) == multiset(b)
    ensures forall f :: f in a <==> f in b
  {
    forall f ensures f in a <==> f in b {
      assert f in a <==> f in multiset(a);
      assert f in b <==> f in multiset(b);
    }
  }

  lemma {:induction false} PositionsComeFromFills(log: seq<Fill>, symbol: string)
    ensures symbol in Replay(log) <==> exists f :: f in log && f.symbol == symbol
  {
    if log != [] {
      hide Moved;
      var n := |log| - 1;
      assert log == log[..n] + [log[n]];
      PositionsComeFromFills(log[..n], symbol);
      if log[n].symbol == symbol {
        assert log[n] in log;
      }
    }
  }

  lemma SameFills(cfg: Config, s: State, a: seq<string>, b: seq<string>, sa: State, sb: State)
    requires Distinct(a) && Distinct(b) && forall id :: id in a <==> id in b
    requires Indexed(sa) && Indexed(sb) && OrdersBacked(sa) && OrdersBacked(sb)
    requires sa.orders == sb.orders
    requires sa.log == s.log + Events(cfg, s, a) && sb.log == s.log + Events(cfg, s, b)
    ensures sa.fills == sb.fills
  {
    hide PendingAgrees, ClientsAgree, FillsOf, Events, Backed, Fires, FillOf;
    forall id | id in sa.fills ensures sa.fills[id] == sb.fills[id] {
      FillsOfConcat(s.log, Events(cfg, s, a), id);
      FillsOfConcat(s.log, Events(cfg, s, b), id);
      EventsOfOrder(cfg, s, a, id);
      EventsOfOrder(cfg, s, b, id);
    }
  }

  /** Processing the orders of a tick in any permutation gives the same outcome. */
  lemma TickOrderIrrelevant(cfg: Config, s: State, a: seq<string>, b: seq<string>)
    requires Inv(cfg, s) && Distinct(a) && multiset(a) == multiset(b)
    requires !ProcessAll(cfg, s, a).raised
    ensures !ProcessAll(cfg, s, b).raised
    ensures SameOutcome(ProcessAll(cfg, s, a).state, ProcessAll(cfg, s, b).state)
  {
    hide Fires, FillPrice, ProcessAll, Indexed, OrdersBacked, OrdersSound, Balanced, Events,
         OrdersAtOnce, PendingAtOnce;
    DistinctPermute(a, b);
    RaisesExactly(cfg, s, a);
    ProcessAllAtOnce(cfg, s, a);
    ProcessAllAtOnce(cfg, s, b);
    ProcessAllKeeps(cfg, s, a);
    ProcessAllKeeps(cfg, s, b);
    var ta, tb := ProcessAll(cfg, s, a), ProcessAll(cfg, s, b);
    SameOrders(cfg, s, a, b, ta, tb);
    EventsPermute(cfg, s, a, b);
    SameFills(cfg, s, a, b, ta.state, tb.state);
    SameMoney(cfg, ta.state, tb.state);
  }
}
