/** Symbol-level merge of a proposed source file into an accumulator file: update,
    add, never delete.  The parser is abstract: a source is its lines together with
    the line spans and names of its top-level statements. */
module Accumulator {

  import opened Wrappers
  import opened Text

  // ----- Files as parsed documents -----

  datatype Line = Line(text: string)

  const EMPTY := Line("")

  /** A top-level statement, named when it defines a symbol. */
  datatype Stmt = Stmt(name: Option<string>, body: seq<Line>)

  /** A statement with the lines between it and the previous one: blank lines,
      comments and decorators. */
  datatype Item = Item(gap: seq<Line>, stmt: Stmt)

  datatype Doc = Doc(items: seq<Item>, tail: seq<Line>)

  function RenderItems(items: seq<Item>): seq<Line> {
    if items == [] then []
    else
      var it := items[|items| - 1];
      RenderItems(items[..|items| - 1]) + it.gap + it.stmt.body
  }

  function Render(doc: Doc): seq<Line> { RenderItems(doc.items) + doc.tail }

  /** A line without trailing white space. */
  function RStrip(line: Line): Line { Line(StripRight(line.text)) }

  predicate Blank(line: Line) { RStrip(line) == EMPTY }

  /** A statement spans at least one line and its last line is not blank. */
  predicate WellFormed(s: Stmt) { s.body != [] && !Blank(s.body[|s.body| - 1]) }

  ghost predicate WellFormedItems(items: seq<Item>) {
    forall i :: 0 <= i < |items| ==> WellFormed(items[i].stmt)
  }

  /** Lines of a text stripped at its end: blank lines at the end are dropped and the
      last line loses its trailing white space.  The empty text has one empty line. */
  function StripEnd(lines: seq<Line>): seq<Line> {
    if lines == [] then [EMPTY]
    else
      var n := |lines| - 1;
      if Blank(lines[n]) then StripEnd(lines[..n]) else lines[..n] + [RStrip(lines[n])]
  }

  // ----- Symbol tables -----

  /** A body up to trailing white space on its last line. */
  function Trim(body: seq<Line>): seq<Line> {
    if body == [] then [] else body[..|body| - 1] + [RStrip(body[|body| - 1])]
  }

  /** Symbols and their bodies; the last definition of a name counts. */
  function Table(items: seq<Item>): map<string, seq<Line>> {
    if items == [] then map[]
    else
      var t, s := Table(items[..|items| - 1]), items[|items| - 1].stmt;
      if s.name.Some? then t[s.name.value := s.body] else t
  }

  /** The table with bodies compared up to trailing white space. */
  function Symbols(items: seq<Item>): map<string, seq<Line>> {
    var t := Table(items);
    map k | k in t :: Trim(t[k])
  }

  /** Names in the order of their first definition. */
  function Names(items: seq<Item>): seq<string> {
    if items == [] then []
    else
      var names, s := Names(items[..|items| - 1]), items[|items| - 1].stmt;
      if s.name.Some? && s.name.value !in names then names + [s.name.value] else names
  }

  lemma {:induction false} NamesAreKeys(items: seq<Item>)
    ensures forall k :: k in Names(items) <==> k in Table(items)
  {
    if items != [] {
      NamesAreKeys(items[..|items| - 1]);
    }
  }

  // ----- The merge on documents -----

  function Updated(it: Item, table: map<string, seq<Line>>): Item {
    if it.stmt.name.Some? && it.stmt.name.value in table
    then it.(stmt := it.stmt.(body := table[it.stmt.name.value]))
    else it
  }

  function UpdateAll(items: seq<Item>, table: map<string, seq<Line>>): seq<Item> {
    if items == [] then []
    else UpdateAll(items[..|items| - 1], table) + [Updated(items[|items| - 1], table)]
  }

  /** Names not in `known`, in order. */
  function Without(names: seq<string>, known: map<string, seq<Line>>): seq<string> {
    if names == [] then []
    else
      var n := |names| - 1;
      Without(names[..n], known) + (if names[n] in known then [] else [names[n]])
  }

  /** New symbols at the end of the file, each after a blank line, the first one after
      the merge comment. */
  function Appended(names: seq<string>, table: map<string, seq<Line>>, hint: string): seq<Item> {
    if names == [] then []
    else
      var n := |names| - 1;
      var body := if names[n] in table then table[names[n]] else [];
      Appended(names[..n], table, hint) + [Item(NewGap(n, hint), Stmt(Some(names[n]), body))]
  }

  function NewGap(n: nat, hint: string): seq<Line> {
    if n == 0 && hint != "" then [EMPTY, Line("# -- new symbols merged: " + hint + " --")] else [EMPTY]
  }

  /** The document without trailing white space; `rest` is what remains of the tail. */
  function StripItems(doc: Doc): seq<Item> {
    if doc.items == [] || StripEnd(doc.tail) != [EMPTY] then doc.items
    else
      var n := |doc.items| - 1;
      doc.items[..n] + [doc.items[n].(stmt := doc.items[n].stmt.(body := Trim(doc.items[n].stmt.body)))]
  }

  function StripTail(doc: Doc): seq<Line> {
    if doc.items == [] || StripEnd(doc.tail) != [EMPTY] then StripEnd(doc.tail) else []
  }

  function Attach(items: seq<Item>, rest: seq<Line>, extra: seq<Item>): Doc {
    if extra == [] then Doc(items, rest)
    else Doc(items + [extra[0].(gap := rest + extra[0].gap)] + extra[1..], [])
  }

  /** The existing document with the bodies of the proposal. */
  function UpdatedDoc(existing: Doc, proposed: Doc): Doc {
    Doc(UpdateAll(existing.items, Table(proposed.items)), existing.tail)
  }

  /** The symbols that only the proposal has. */
  function Extra(existing: Doc, proposed: Doc, hint: string): seq<Item> {
    Appended(Without(Names(proposed.items), Table(existing.items)), Table(proposed.items), hint)
  }

  /** The merged document: existing symbols updated, new ones appended. */
  function MergeDoc(existing: Doc, proposed: Doc, hint: string): Doc {
    var updated := UpdatedDoc(existing, proposed);
    Attach(StripItems(updated), StripTail(updated), Extra(existing, proposed, hint))
  }

  // ----- Symbol tables of merged documents -----

  lemma {:induction false} TableConcat(a: seq<Item>, b: seq<Item>)
    ensures Table(a + b) == Table(a) + Table(b)
  {
    if b == [] {
      assert a + b == a;
    } else {
      var n := |b| - 1;
      assert (a + b)[..|a + b| - 1] == a + b[..n];
      TableConcat(a, b[..n]);
    }
  }

  /** Updating replaces exactly the bodies of names in the table. */
  lemma {:induction false} TableOfUpdated(items: seq<Item>, table: map<string, seq<Line>>)
    ensures Table(UpdateAll(items, table)).Keys == Table(items).Keys
    ensures forall k :: k in Table(items) ==>
              Table(UpdateAll(items, table))[k] == if k in table then table[k] else Table(items)[k]
  {
    if items != [] {
      var n := |items| - 1;
      TableOfUpdated(items[..n], table);
      TableOfLast(UpdateAll(items[..n], table), Updated(items[n], table));
    }
  }

  lemma {:induction false} UpdateAllAt(items: seq<Item>, table: map<string, seq<Line>>)
    ensures |UpdateAll(items, table)| == |items|
    ensures forall i :: 0 <= i < |items| ==> UpdateAll(items, table)[i] == Updated(items[i], table)
  {
    if items != [] {
      UpdateAllAt(items[..|items| - 1], table);
    }
  }

  lemma {:induction false} TableOfAppended(names: seq<string>, table: map<string, seq<Line>>, hint: string)
    requires forall k :: k in names ==> k in table
    ensures |Appended(names, table, hint)| == |names|
    ensures Table(Appended(names, table, hint)) == map k | k in names :: table[k]
  {
    if names != [] {
      var n := |names| - 1;
      assert names == names[..n] + [names[n]];
      TableOfAppended(names[..n], table, hint);
      var a := Appended(names, table, hint);
      assert a[..|a| - 1] == Appended(names[..n], table, hint);
    }
  }

  lemma {:induction false} WithoutAre(names: seq<string>, known: map<string, seq<Line>>)
    ensures forall k :: k in Without(names, known) <==> k in names && k !in known
  {
    if names != [] {
      assert names == names[..|names| - 1] + [names[|names| - 1]];
      WithoutAre(names[..|names| - 1], known);
    }
  }

  // ----- White space -----

  lemma {:induction false} StripRightTwice(text: string)
    ensures StripRight(StripRight(text)) == StripRight(text)
  {
    if text != "" && IsBlank(text[|text| - 1]) {
      StripRightTwice(text[..|text| - 1]);
    }
  }

  lemma RStripTwice(line: Line)
    ensures RStrip(RStrip(line)) == RStrip(line)
  {
    StripRightTwice(line.text);
  }

  lemma TrimTwice(body: seq<Line>)
    ensures Trim(Trim(body)) == Trim(body)
  {
    if body != [] {
      RStripTwice(body[|body| - 1]);
    }
  }

  /** Stripping keeps a last line with text, and strips nothing a second time. */
  lemma {:induction false} StripEndTwice(lines: seq<Line>)
    ensures StripEnd(StripEnd(lines)) == StripEnd(lines)
  {
    if lines != [] {
      var n := |lines| - 1;
      RStripTwice(lines[n]);
      if Blank(lines[n]) {
        StripEndTwice(lines[..n]);
      } else {
        var s := StripEnd(lines);
        assert s[..n] == lines[..n] && s[n] == RStrip(lines[n]);
      }
    }
  }

  /** Stripping a text whose last part is blank strips the part before it. */
  lemma {:induction false} StripEndConcat(a: seq<Line>, b: seq<Line>)
    ensures StripEnd(b) == [EMPTY] ==> StripEnd(a + b) == StripEnd(a)
    ensures StripEnd(b) != [EMPTY] ==> StripEnd(a + b) == a + StripEnd(b)
  {
    if b == [] {
      assert a + b == a;
    } else {
      var n := |b| - 1;
      assert (a + b)[..|a + b| - 1] == a + b[..n];
      if Blank(b[n]) {
        StripEndConcat(a, b[..n]);
      } else {
        var s := b[..n] + [RStrip(b[n])];
        assert s[n] != EMPTY;
        assert a + s == a + b[..n] + [RStrip(b[n])];
      }
    }
  }

  lemma StripEndOfBody(a: seq<Line>, body: seq<Line>)
    requires body != [] && !Blank(body[|body| - 1])
    ensures StripEnd(body) == Trim(body) && StripEnd(body) != [EMPTY]
    ensures StripEnd(a + body) == a + Trim(body)
  {
    assert Trim(body)[|body| - 1] != EMPTY;
    StripEndConcat(a, body);
  }

  // ----- Merging overrides the symbol table -----

  lemma TableOfLast(items: seq<Item>, it: Item)
    ensures Table(items + [it]) ==
            if it.stmt.name.Some? then Table(items)[it.stmt.name.value := it.stmt.body] else Table(items)
  {
    assert (items + [it])[..|items|] == items;
  }

  lemma SymbolsOfStripped(doc: Doc)
    ensures Symbols(StripItems(doc)) == Symbols(doc.items)
  {
    if doc.items != [] {
      var n := |doc.items| - 1;
      var it := doc.items[n];
      var trimmed := it.(stmt := it.stmt.(body := Trim(it.stmt.body)));
      assert doc.items == doc.items[..n] + [it];
      TableOfLast(doc.items[..n], it);
      TableOfLast(doc.items[..n], trimmed);
      TrimTwice(it.stmt.body);
    }
  }

  lemma TableOfOne(it: Item, gap: seq<Line>)
    ensures Table([it.(gap := gap)]) == Table([it])
  {
    assert [it][..0] == [it.(gap := gap)][..0] == [];
  }

  lemma TableOfAttached(items: seq<Item>, rest: seq<Line>, extra: seq<Item>)
    ensures Table(Attach(items, rest, extra).items) == Table(items) + Table(extra)
  {
    if extra == [] {
      assert Table(items) + Table([]) == Table(items);
    } else {
      hide Table;
      var gap := rest + extra[0].gap;
      var first := extra[0].(gap := gap);
      assert extra == [extra[0]] + extra[1..];
      TableConcat([extra[0]], extra[1..]);
      TableConcat([first], extra[1..]);
      TableOfOne(extra[0], gap);
      assert items + [first] + extra[1..] == items + ([first] + extra[1..]);
      TableConcat(items, [first] + extra[1..]);
    }
  }

  /** The symbols of the existing part of a merged file. */
  lemma SymbolsOfUpdated(existing: Doc, table: map<string, seq<Line>>, k: string)
    ensures var core := Symbols(StripItems(Doc(UpdateAll(existing.items, table), existing.tail)));
            && (k in core <==> k in Table(existing.items))
            && (k in core ==> core[k] == Trim(if k in table then table[k] else Table(existing.items)[k]))
  {
    hide Table, StripItems, UpdateAll, Trim;
    TableOfUpdated(existing.items, table);
    SymbolsOfStripped(Doc(UpdateAll(existing.items, table), existing.tail));
  }

  /** Right-biased override: no name is lost, and every name of the proposal carries the
      proposal's body, up to trailing white space on its last line. */
  lemma MergeOverrides(existing: Doc, proposed: Doc, hint: string)
    ensures Symbols(MergeDoc(existing, proposed, hint).items) == Symbols(existing.items) + Symbols(proposed.items)
  {
    hide Table, StripItems, StripTail, Attach, UpdateAll, Without, Names, Appended, Trim;
    var table := Table(proposed.items);
    var updated := Doc(UpdateAll(existing.items, table), existing.tail);
    var names := Without(Names(proposed.items), Table(existing.items));
    NamesAreKeys(proposed.items);
    WithoutAre(Names(proposed.items), Table(existing.items));
    TableOfAppended(names, table, hint);
    TableOfAttached(StripItems(updated), StripTail(updated), Appended(names, table, hint));
    var merged, expected := Symbols(MergeDoc(existing, proposed, hint).items),
                            Symbols(existing.items) + Symbols(proposed.items);
    forall k ensures (k in merged <==> k in expected) && (k in merged ==> merged[k] == expected[k]) {
      SymbolsOfUpdated(existing, table, k);
    }
    assert merged.Keys == expected.Keys;
  }

  // ----- What a merged file looks like -----

  lemma {:induction false} RenderConcat(a: seq<Item>, b: seq<Item>)
    ensures RenderItems(a + b) == RenderItems(a) + RenderItems(b)
  {
    if b == [] {
      assert a + b == a;
    } else {
      var n := |b| - 1;
      assert (a + b)[..|a + b| - 1] == a + b[..n];
      RenderConcat(a, b[..n]);
    }
  }

  lemma RenderOne(it: Item)
    ensures RenderItems([it]) == it.gap + it.stmt.body
  {
    assert [it][..0] == [];
  }

  lemma RenderLast(items: seq<Item>, it: Item)
    ensures RenderItems(items + [it]) == RenderItems(items) + it.gap + it.stmt.body
  {
    assert (items + [it])[..|items|] == items;
  }

  lemma Regroup(a: seq<Line>, r: seq<Line>, g: seq<Line>, b: seq<Line>, e: seq<Line>)
    ensures a + (r + g) + b + e == a + r + (g + b + e)
  {
  }

  lemma RenderAttached(items: seq<Item>, rest: seq<Line>, extra: seq<Item>)
    ensures Render(Attach(items, rest, extra)) == RenderItems(items) + rest + RenderItems(extra)
  {
    if extra != [] {
      var first := extra[0].(gap := rest + extra[0].gap);
      RenderLast(items, first);
      RenderConcat(items + [first], extra[1..]);
      RenderOne(extra[0]);
      RenderConcat([extra[0]], extra[1..]);
      assert extra == [extra[0]] + extra[1..];
      hide RenderItems;
      Regroup(RenderItems(items), rest, extra[0].gap, extra[0].stmt.body, RenderItems(extra[1..]));
    }
  }

  function TrimItem(it: Item): Item { it.(stmt := it.stmt.(body := Trim(it.stmt.body))) }

  lemma RenderTrimmed(items: seq<Item>, it: Item)
    requires WellFormed(it.stmt)
    ensures RenderItems(items + [TrimItem(it)]) == StripEnd(RenderItems(items + [it]))
  {
    hide RenderItems, StripEnd, Trim;
    RenderLast(items, it);
    RenderLast(items, TrimItem(it));
    StripEndOfBody(RenderItems(items) + it.gap, it.stmt.body);
  }

  /** Stripping a document strips its text. */
  lemma RenderStripped(doc: Doc)
    requires WellFormedItems(doc.items)
    ensures RenderItems(StripItems(doc)) + StripTail(doc) == StripEnd(Render(doc))
  {
    hide RenderItems, StripEnd, Trim;
    StripEndConcat(RenderItems(doc.items), doc.tail);
    if doc.items != [] {
      var n := |doc.items| - 1;
      assert doc.items == doc.items[..n] + [doc.items[n]];
      RenderTrimmed(doc.items[..n], doc.items[n]);
    } else {
      assert RenderItems([]) == [] by { RenderNothing(); }
      assert [] + doc.tail == doc.tail && [] + StripEnd(doc.tail) == StripEnd(doc.tail);
    }
  }

  lemma {:induction false} TableWellFormed(items: seq<Item>)
    requires WellFormedItems(items)
    ensures forall k, name: Option<string> :: k in Table(items) ==> WellFormed(Stmt(name, Table(items)[k]))
  {
    if items != [] {
      assert WellFormed(items[|items| - 1].stmt);
      TableWellFormed(items[..|items| - 1]);
    }
  }

  lemma UpdatedWellFormed(existing: Doc, proposed: Doc)
    requires WellFormedItems(existing.items) && WellFormedItems(proposed.items)
    ensures WellFormedItems(UpdatedDoc(existing, proposed).items)
  {
    hide WellFormed, Table;
    TableWellFormed(proposed.items);
    UpdateAllAt(existing.items, Table(proposed.items));
  }

  lemma {:induction false} AppendedAt(names: seq<string>, table: map<string, seq<Line>>, hint: string)
    requires forall k :: k in names ==> k in table
    ensures |Appended(names, table, hint)| == |names|
    ensures forall i :: 0 <= i < |names| ==>
              Appended(names, table, hint)[i] == Item(NewGap(i, hint), Stmt(Some(names[i]), table[names[i]]))
  {
    if names != [] {
      hide NewGap;
      assert names == names[..|names| - 1] + [names[|names| - 1]];
      AppendedAt(names[..|names| - 1], table, hint);
    }
  }

  lemma ExtraIs(existing: Doc, proposed: Doc, hint: string)
    ensures var names := Without(Names(proposed.items), Table(existing.items));
            && (forall k :: k in names <==> k in Table(proposed.items) && k !in Table(existing.items))
            && |Extra(existing, proposed, hint)| == |names|
            && forall i :: 0 <= i < |names| ==>
                 Extra(existing, proposed, hint)[i] ==
                 Item(NewGap(i, hint), Stmt(Some(names[i]), Table(proposed.items)[names[i]]))
  {
    hide Table, Names, NewGap;
    NamesAreKeys(proposed.items);
    WithoutAre(Names(proposed.items), Table(existing.items));
    AppendedAt(Without(Names(proposed.items), Table(existing.items)), Table(proposed.items), hint);
  }

  lemma ExtraWellFormed(existing: Doc, proposed: Doc, hint: string)
    requires WellFormedItems(proposed.items)
    ensures WellFormedItems(Extra(existing, proposed, hint))
  {
    hide WellFormed, Table, Without, Appended;
    TableWellFormed(proposed.items);
    ExtraIs(existing, proposed, hint);
  }

  /** The text of a merged file: the updated existing text, stripped, then the new symbols. */
  lemma MergeRenders(existing: Doc, proposed: Doc, hint: string)
    requires WellFormedItems(existing.items) && WellFormedItems(proposed.items)
    ensures Render(MergeDoc(existing, proposed, hint)) ==
            StripEnd(Render(UpdatedDoc(existing, proposed))) + RenderItems(Extra(existing, proposed, hint))
  {
    hide StripItems, StripTail, Attach, RenderItems, StripEnd, WellFormedItems, UpdateAll, Appended;
    UpdatedWellFormed(existing, proposed);
    var updated := UpdatedDoc(existing, proposed);
    RenderStripped(updated);
    RenderAttached(StripItems(updated), StripTail(updated), Extra(existing, proposed, hint));
  }

  lemma AttachAt(items: seq<Item>, rest: seq<Line>, extra: seq<Item>)
    ensures var m := Attach(items, rest, extra).items;
            && |m| == |items| + |extra|
            && (forall i :: 0 <= i < |items| ==> m[i] == items[i])
            && (forall i :: 0 <= i < |extra| ==> m[|items| + i].stmt == extra[i].stmt)
            && (forall i :: 0 <= i < |extra| ==> m[|items| + i].gap == (if i == 0 then rest else []) + extra[i].gap)
  {
    if extra != [] {
      assert forall i :: 0 < i < |extra| ==> [] + extra[i].gap == extra[i].gap;
    }
  }

  /** Existing statements keep their number, order, gaps and names; a body is the
      proposal's if it has that name and the old one otherwise, and only the last body can
      lose trailing white space.  New symbols follow in the proposal's order. */
  lemma MergeKeepsStatements(existing: Doc, proposed: Doc, hint: string)
    ensures var m, n := MergeDoc(existing, proposed, hint).items, |existing.items|;
            var names := Without(Names(proposed.items), Table(existing.items));
            && |m| == n + |names|
            && (forall i :: 0 <= i < n ==>
                  var it := Updated(existing.items[i], Table(proposed.items));
                  m[i] == it || (i == n - 1 && m[i] == TrimItem(it)))
            && (forall i :: 0 <= i < |names| ==>
                  && names[i] in Table(proposed.items)
                  && m[n + i].stmt == Stmt(Some(names[i]), Table(proposed.items)[names[i]]))
  {
    hide Table, Names, Without, Appended, StripEnd, Trim, NewGap, UpdateAll;
    var extra := Extra(existing, proposed, hint);
    ExtraIs(existing, proposed, hint);
    UpdateAllAt(existing.items, Table(proposed.items));
    var core := StripItems(UpdatedDoc(existing, proposed));
    AttachAt(core, StripTail(UpdatedDoc(existing, proposed)), extra);
    hide Attach;
  }

  // ----- Merging the same proposal again -----

  lemma {:induction false} UpdateAllConcat(a: seq<Item>, b: seq<Item>, table: map<string, seq<Line>>)
    ensures UpdateAll(a + b, table) == UpdateAll(a, table) + UpdateAll(b, table)
  {
    if b == [] {
      assert a + b == a;
    } else {
      var n := |b| - 1;
      assert (a + b)[..|a + b| - 1] == a + b[..n];
      UpdateAllConcat(a, b[..n], table);
    }
  }

  lemma HasMember(names: seq<string>)
    ensures names != [] ==> exists k :: k in names
  {
    if names != [] {
      assert names[0] in names;
    }
  }

  lemma MergeAgainAddsNothing(existing: Doc, proposed: Doc, hint: string)
    ensures Extra(MergeDoc(existing, proposed, hint), proposed, hint) == []
  {
    hide Table, MergeDoc, Without, Names, Appended, NewGap;
    var r := MergeDoc(existing, proposed, hint);
    MergeOverrides(existing, proposed, hint);
    ExtraIs(r, proposed, hint);
    var names := Without(Names(proposed.items), Table(r.items));
    forall k | k in Table(proposed.items) ensures k in Table(r.items) {
      assert k in Symbols(existing.items) + Symbols(proposed.items);
    }
    HasMember(names);
  }

  /** The existing file ends in a symbol that the proposal has, followed by blank lines only. */
  predicate LastIsProposed(existing: Doc, proposed: Doc) {
    && existing.items != []
    && StripEnd(existing.tail) == [EMPTY]
    && var last := existing.items[|existing.items| - 1].stmt;
       last.name.Some? && last.name.value in Table(proposed.items)
  }

  /** Updating the stripped document again undoes the stripping of a proposed last body. */
  lemma UpdateStripped(existing: Doc, proposed: Doc)
    ensures var updated := UpdatedDoc(existing, proposed);
            UpdateAll(StripItems(updated), Table(proposed.items)) ==
            if LastIsProposed(existing, proposed) then updated.items else StripItems(updated)
  {
    hide Table, StripEnd, Trim;
    var table, updated := Table(proposed.items), UpdatedDoc(existing, proposed);
    UpdateAllAt(existing.items, table);
    UpdateAllAt(StripItems(updated), table);
  }

  lemma UpdateExtra(existing: Doc, proposed: Doc, hint: string, i: nat, gap: seq<Line>)
    requires i < |Extra(existing, proposed, hint)|
    ensures var it := Extra(existing, proposed, hint)[i].(gap := gap); Updated(it, Table(proposed.items)) == it
  {
    hide Table, Without, Names, Appended, NewGap;
    ExtraIs(existing, proposed, hint);
  }

  /** Updating a merged document touches its existing part only. */
  lemma UpdateMerged(existing: Doc, proposed: Doc, hint: string)
    ensures var table, updated := Table(proposed.items), UpdatedDoc(existing, proposed);
            UpdatedDoc(MergeDoc(existing, proposed, hint), proposed) ==
            Attach(UpdateAll(StripItems(updated), table), StripTail(updated), Extra(existing, proposed, hint))
  {
    var table, updated := Table(proposed.items), UpdatedDoc(existing, proposed);
    var core, rest, extra := StripItems(updated), StripTail(updated), Extra(existing, proposed, hint);
    if extra != [] {
      hide StripItems, StripTail, Appended, Table, UpdateAll;
      var first := extra[0].(gap := rest + extra[0].gap);
      UpdateAllConcat(core + [first], extra[1..], table);
      UpdateAllConcat(core, [first], table);
      UpdateAllAt([first], table);
      UpdateAllAt(extra[1..], table);
      UpdateExtra(existing, proposed, hint, 0, first.gap);
      forall i | 0 <= i < |extra| - 1 ensures Updated(extra[1..][i], table) == extra[1..][i] {
        UpdateExtra(existing, proposed, hint, i + 1, extra[i + 1].gap);
      }
      assert UpdateAll([first], table) == [first];
      assert UpdateAll(extra[1..], table) == extra[1..];
    }
  }

  lemma TrimKeepsWellFormed(s: Stmt)
    requires WellFormed(s)
    ensures WellFormed(s.(body := Trim(s.body)))
  {
    RStripTwice(s.body[|s.body| - 1]);
  }

  lemma MergeWellFormed(existing: Doc, proposed: Doc, hint: string)
    requires WellFormedItems(existing.items) && WellFormedItems(proposed.items)
    ensures WellFormedItems(MergeDoc(existing, proposed, hint).items)
  {
    var updated := UpdatedDoc(existing, proposed);
    UpdatedWellFormed(existing, proposed);
    ExtraWellFormed(existing, proposed, hint);
    hide WellFormed, StripEnd, UpdateAll, Appended, Trim;
    if updated.items != [] {
      TrimKeepsWellFormed(updated.items[|updated.items| - 1].stmt);
    }
  }

  /** The text of new symbols ends in a line with text. */
  lemma ExtraHasText(existing: Doc, proposed: Doc, hint: string)
    requires WellFormedItems(proposed.items) && Extra(existing, proposed, hint) != []
    ensures StripEnd(RenderItems(Extra(existing, proposed, hint))) != [EMPTY]
  {
    var extra := Extra(existing, proposed, hint);
    ExtraWellFormed(existing, proposed, hint);
    hide Appended, RenderItems, StripEnd;
    var n := |extra| - 1;
    assert WellFormed(extra[n].stmt);
    assert extra == extra[..n] + [extra[n]];
    RenderLast(extra[..n], extra[n]);
    StripEndOfBody(RenderItems(extra[..n]) + extra[n].gap, extra[n].stmt.body);
    RStripTwice(extra[n].stmt.body[|extra[n].stmt.body| - 1]);
  }

  /** The body that stripping shortened comes back in the middle of the file. */
  predicate Respaced(existing: Doc, proposed: Doc, hint: string) {
    && LastIsProposed(existing, proposed)
    && Extra(existing, proposed, hint) != []
    && var body := Table(proposed.items)[existing.items[|existing.items| - 1].stmt.name.value];
       Trim(body) != body
  }

  /** The texts of an updated document before and after stripping its last body agree
      exactly when that body has no trailing white space. */
  lemma RenderLastProposed(existing: Doc, proposed: Doc)
    requires LastIsProposed(existing, proposed)
    requires WellFormedItems(existing.items) && WellFormedItems(proposed.items)
    ensures var updated := UpdatedDoc(existing, proposed);
            var body := Table(proposed.items)[existing.items[|existing.items| - 1].stmt.name.value];
            && StripTail(updated) == []
            && RenderItems(StripItems(updated)) == StripEnd(RenderItems(updated.items))
            && |RenderItems(StripItems(updated))| == |RenderItems(updated.items)|
            && (RenderItems(StripItems(updated)) == RenderItems(updated.items) <==> Trim(body) == body)
  {
    var table, updated := Table(proposed.items), UpdatedDoc(existing, proposed);
    var n := |existing.items| - 1;
    UpdateAllAt(existing.items, table);
    UpdatedWellFormed(existing, proposed);
    hide Table, StripEnd, RenderItems, UpdateAll;
    var it := updated.items[n];
    assert it == Updated(existing.items[n], table) && WellFormed(it.stmt);
    var a := RenderItems(updated.items[..n]) + it.gap;
    assert updated.items == updated.items[..n] + [it];
    RenderLast(updated.items[..n], it);
    RenderLast(updated.items[..n], TrimItem(it));
    StripEndOfBody(a, it.stmt.body);
    assert (a + it.stmt.body)[|a|..] == it.stmt.body && (a + Trim(it.stmt.body))[|a|..] == Trim(it.stmt.body);
  }

  lemma CancelRight(a: seq<Line>, b: seq<Line>, x: seq<Line>)
    requires |a| == |b|
    ensures a + x == b + x <==> a == b
  {
    assert (a + x)[..|a|] == a && (b + x)[..|b|] == b;
  }

  /** Merging a proposal into its own result changes nothing but trailing white space at
      the end of the file exactly when the first merge did not strip a proposed last body
      and then append new symbols after it. */
  lemma MergeAgainExactly(existing: Doc, proposed: Doc, hint: string)
    requires WellFormedItems(existing.items) && WellFormedItems(proposed.items)
    ensures var r := MergeDoc(existing, proposed, hint);
            Render(MergeDoc(r, proposed, hint)) == StripEnd(Render(r)) <==> !Respaced(existing, proposed, hint)
  {
    hide Table, RenderItems, StripEnd, StripItems, StripTail, UpdateAll, Attach, Appended, MergeDoc, Trim,
         WellFormedItems;
    var r := MergeDoc(existing, proposed, hint);
    var updated, extra := UpdatedDoc(existing, proposed), Extra(existing, proposed, hint);
    var core, rest, tail := StripItems(updated), StripTail(updated), RenderItems(extra);
    var again := UpdateAll(core, Table(proposed.items));
    MergeWellFormed(existing, proposed, hint);
    MergeAgainAddsNothing(existing, proposed, hint);
    MergeRenders(r, proposed, hint);
    RenderNothing();
    UpdateMerged(existing, proposed, hint);
    RenderAttached(again, rest, extra);
    assert Render(MergeDoc(r, proposed, hint)) == StripEnd(RenderItems(again) + rest + tail);
    MergeIsAttach(existing, proposed, hint);
    RenderAttached(core, rest, extra);
    assert Render(r) == RenderItems(core) + rest + tail;
    UpdateStripped(existing, proposed);
    if LastIsProposed(existing, proposed) {
      RenderLastProposed(existing, proposed);
      var a, b := RenderItems(updated.items), RenderItems(core);
      assert a + [] == a && b + [] == b;
      if extra == [] {
        assert tail == [];
        StripEndTwice(a);
      } else {
        ExtraHasText(existing, proposed, hint);
        StripEndConcat(a, tail);
        StripEndConcat(b, tail);
        CancelRight(a, b, StripEnd(tail));
      }
    }
  }

  lemma RenderNothing()
    ensures RenderItems([]) == []
  {
  }

  lemma MergeIsAttach(existing: Doc, proposed: Doc, hint: string)
    ensures var updated := UpdatedDoc(existing, proposed);
            MergeDoc(existing, proposed, hint) ==
            Attach(StripItems(updated), StripTail(updated), Extra(existing, proposed, hint))
  {
  }

  function Defining(name: string, body: seq<Line>): Item { Item([], Stmt(Some(name), body)) }

  lemma TableOfTwo(x: string, y: string, a: seq<Line>, b: seq<Line>)
    ensures Table([Defining(x, a)]) == map[x := a]
    ensures Table([Defining(x, a), Defining(y, b)]) == map[x := a][y := b]
  {
    TableOfLast([], Defining(x, a));
    assert [] + [Defining(x, a)] == [Defining(x, a)];
    TableOfLast([Defining(x, a)], Defining(y, b));
    assert [Defining(x, a)] + [Defining(y, b)] == [Defining(x, a), Defining(y, b)];
  }

  /** The exception is real: x is updated to a body with trailing blanks and y is new. */
  lemma RespacedExample(x: string, y: string, before: seq<Line>, body: seq<Line>, other: seq<Line>, hint: string)
    requires x != y && Trim(body) != body
    ensures Respaced(Doc([Defining(x, before)], []), Doc([Defining(x, body), Defining(y, other)], []), hint)
  {
    hide Table, Trim, StripEnd, Without, Names, Extra;
    var e, p := Doc([Defining(x, before)], []), Doc([Defining(x, body), Defining(y, other)], []);
    NothingStrips();
    TableOfTwo(x, y, before, []);
    TableOfTwo(x, y, body, other);
    ExtraIs(e, p, hint);
    assert y in Without(Names(p.items), Table(e.items));
  }

  lemma NothingStrips()
    ensures StripEnd([]) == [EMPTY]
  {
  }
}
