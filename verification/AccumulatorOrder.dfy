/** Definitions by index: which statement defines a name last, and which name comes first. */
module AccumulatorOrder {
  import opened Wrappers
  import opened Accumulator

  predicate Defines(it: Item, k: string) { it.stmt.name == Some(k) }

  predicate Defined(items: seq<Item>, k: string) { exists a :: 0 <= a < |items| && Defines(items[a], k) }

  /** The statement at `a` is the last one that defines `k`. */
  predicate DefinedLast(items: seq<Item>, a: int, k: string) {
    0 <= a < |items| && Defines(items[a], k) && forall b :: a < b < |items| ==> !Defines(items[b], k)
  }

  /** `x` is defined before any definition of `y`. */
  predicate ComesFirst(items: seq<Item>, x: string, y: string) {
    forall b :: 0 <= b < |items| && Defines(items[b], y) ==> exists a :: 0 <= a < b && Defines(items[a], x)
  }

  lemma DefinedNext(items: seq<Item>, k: string)
    requires items != []
    ensures var n := |items| - 1; Defined(items, k) <==> Defined(items[..n], k) || Defines(items[n], k)
  {
    var n := |items| - 1;
    if Defined(items[..n], k) {
      var a :| 0 <= a < n && Defines(items[..n][a], k);
      assert Defines(items[a], k);
    }
    if Defined(items, k) {
      var a :| 0 <= a < |items| && Defines(items[a], k);
      assert a < n ==> Defines(items[..n][a], k);
    }
  }

  /** The table holds the last definitions. */
  lemma {:induction false} TableIsLast(items: seq<Item>)
    ensures forall k :: k in Table(items) <==> Defined(items, k)
    ensures forall k, a :: DefinedLast(items, a, k) ==> k in Table(items) && Table(items)[k] == items[a].stmt.body
  {
    if items != [] {
      var n := |items| - 1;
      TableIsLast(items[..n]);
      forall k ensures k in Table(items) <==> Defined(items, k) {
        DefinedNext(items, k);
      }
      forall k, a | DefinedLast(items, a, k)
        ensures 0 <= a < |items| && k in Table(items) && Table(items)[k] == items[a].stmt.body
      {
        if a < n {
          assert !Defines(items[n], k);
          assert DefinedLast(items[..n], a, k);
        }
      }
    }
  }

  // ----- The order of new symbols -----

  /** Names stand in the order of first definition, none twice. */
  lemma {:induction false} NamesInOrder(items: seq<Item>, i: nat, j: nat)
    requires i < j < |Names(items)|
    ensures Names(items)[i] != Names(items)[j] && ComesFirst(items, Names(items)[i], Names(items)[j])
  {
    var n := |items| - 1;
    var before, names := Names(items[..n]), Names(items);
    NamesAreKeys(items[..n]);
    TableIsLast(items[..n]);
    hide Table;
    assert before[i] in before && names[i] == before[i];
    if j < |before| {
      NamesInOrder(items[..n], i, j);
    }
    forall b | 0 <= b < |items| && Defines(items[b], names[j])
      ensures exists a :: 0 <= a < b && Defines(items[a], names[i])
    {
      if b < n {
        assert Defines(items[..n][b], names[j]);
        assert Defined(items[..n], names[j]);
        assert j < |before|;
        var a :| 0 <= a < b && Defines(items[..n][a], names[i]);
        assert Defines(items[a], names[i]);
      } else {
        assert Defined(items[..n], names[i]);
        var a :| 0 <= a < n && Defines(items[..n][a], names[i]);
        assert Defines(items[a], names[i]);
      }
    }
  }

  lemma NamesOfLast(items: seq<Item>, it: Item)
    ensures Names(items + [it]) ==
            if it.stmt.name.Some? && it.stmt.name.value !in Names(items) then Names(items) + [it.stmt.name.value]
            else Names(items)
  {
    assert (items + [it])[..|items|] == items;
  }

  /** The names are those that are defined, each once, in the order of first definition. */
  lemma NamesExactly(items: seq<Item>)
    ensures forall k :: k in Names(items) <==> Defined(items, k)
    ensures forall i, j :: 0 <= i < j < |Names(items)| ==>
              Names(items)[i] != Names(items)[j] && ComesFirst(items, Names(items)[i], Names(items)[j])
  {
    NamesAreKeys(items);
    TableIsLast(items);
    hide Names, Table, Defined, ComesFirst;
    forall i, j | 0 <= i < j < |Names(items)|
      ensures Names(items)[i] != Names(items)[j] && ComesFirst(items, Names(items)[i], Names(items)[j])
    {
      NamesInOrder(items, i, j);
    }
  }

  /** Leaving names out keeps the order of the others. */
  lemma {:induction false} WithoutInOrder(names: seq<string>, known: map<string, seq<Line>>, i: nat, j: nat)
    returns (a: nat, b: nat)
    requires i < j < |Without(names, known)|
    ensures a < b < |names| && names[a] == Without(names, known)[i] && names[b] == Without(names, known)[j]
  {
    var n := |names| - 1;
    var before := Without(names[..n], known);
    if j < |before| {
      a, b := WithoutInOrder(names[..n], known, i, j);
    } else {
      WithoutAre(names[..n], known);
      assert before[i] in before;
      a :| 0 <= a < n && names[..n][a] == before[i];
      b := n;
    }
  }

  /** A name that is defined has a last definition. */
  lemma {:induction false} HasLast(items: seq<Item>, k: string) returns (a: nat)
    requires Defined(items, k)
    ensures DefinedLast(items, a, k)
  {
    var n := |items| - 1;
    if Defines(items[n], k) {
      a := n;
    } else {
      DefinedNext(items, k);
      a := HasLast(items[..n], k);
      forall b | a < b < |items| ensures !Defines(items[b], k) {
        assert b < n ==> !Defines(items[..n][b], k);
      }
    }
  }
}
