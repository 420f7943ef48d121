/** The merge as it runs: a cursor over the lines of the existing file, guided by the
    line spans of its statements, proved to compute the document merge. */
module AccumulatorMerge {
  import opened Wrappers
  import opened Accumulator
  import opened AccumulatorOrder

  /** A top-level statement as the parser reports it: lines start..end, end exclusive. */
  datatype Node = Node(name: Option<string>, start: nat, end: nat)

  datatype Source = Source(lines: seq<Line>, nodes: seq<Node>)

  function Slice(lines: seq<Line>, a: nat, b: nat): seq<Line> {
    if a <= b <= |lines| then lines[a..b] else []
  }

  /** First line after the statements `nodes`. */
  function EndOf(nodes: seq<Node>): nat { if nodes == [] then 0 else nodes[|nodes| - 1].end }

  /** Statements come in order, do not overlap and lie within the file. */
  predicate Spanned(src: Source) {
    forall i :: 0 <= i < |src.nodes| ==>
      EndOf(src.nodes[..i]) <= src.nodes[i].start < src.nodes[i].end <= |src.lines|
  }

  function ItemsOf(lines: seq<Line>, nodes: seq<Node>): seq<Item> {
    if nodes == [] then []
    else
      var n := |nodes| - 1;
      ItemsOf(lines, nodes[..n]) + [ItemOf(lines, EndOf(nodes[..n]), nodes[n])]
  }

  function ItemOf(lines: seq<Line>, cursor: nat, node: Node): Item {
    Item(Slice(lines, cursor, node.start), Stmt(node.name, Slice(lines, node.start, node.end)))
  }

  function DocOf(src: Source): Doc {
    Doc(ItemsOf(src.lines, src.nodes), Slice(src.lines, EndOf(src.nodes), |src.lines|))
  }

  lemma {:induction false} ItemsOfSize(lines: seq<Line>, nodes: seq<Node>)
    ensures |ItemsOf(lines, nodes)| == |nodes|
  {
    if nodes != [] {
      ItemsOfSize(lines, nodes[..|nodes| - 1]);
    }
  }

  lemma {:induction false} ItemsOfAt(lines: seq<Line>, nodes: seq<Node>, i: nat)
    requires i < |nodes|
    ensures |ItemsOf(lines, nodes)| == |nodes|
    ensures ItemsOf(lines, nodes)[i] == ItemOf(lines, EndOf(nodes[..i]), nodes[i])
  {
    hide ItemOf, EndOf;
    var n := |nodes| - 1;
    ItemsOfSize(lines, nodes[..n]);
    if i < n {
      ItemsOfAt(lines, nodes[..n], i);
      assert nodes[..n][..i] == nodes[..i];
    }
  }

  /** The i-th statement of a document is the parser's: its name, its lines, and before it the
      lines that follow the previous statement. */
  lemma DocOfAt(src: Source, i: nat)
    requires Spanned(src) && i < |src.nodes|
    ensures var node, cursor := src.nodes[i], if i == 0 then 0 else src.nodes[i - 1].end;
            && cursor <= node.start <= node.end <= |src.lines|
            && i < |DocOf(src).items|
            && DocOf(src).items[i] ==
               Item(src.lines[cursor..node.start], Stmt(node.name, src.lines[node.start..node.end]))
  {
    hide ItemsOf;
    ItemsOfAt(src.lines, src.nodes, i);
    assert EndOf(src.nodes[..i]) <= src.nodes[i].start < src.nodes[i].end <= |src.lines|;
  }

  /** A document has one statement for each of the parser's, and the lines after the last. */
  lemma DocOfEnds(src: Source)
    requires Spanned(src)
    ensures |DocOf(src).items| == |src.nodes|
    ensures var cursor := if src.nodes == [] then 0 else src.nodes[|src.nodes| - 1].end;
            cursor <= |src.lines| && DocOf(src).tail == src.lines[cursor..]
  {
    ItemsOfSize(src.lines, src.nodes);
    hide ItemsOf;
    if src.nodes != [] {
      DocOfAt(src, |src.nodes| - 1);
    }
  }

  /** Reading a source as a document loses nothing. */
  lemma DocRendersSource(src: Source)
    requires Spanned(src)
    ensures Render(DocOf(src)) == src.lines
  {
    hide ItemsOf, RenderItems, EndOf;
    ItemsRenderPrefix(src, |src.nodes|);
    assert src.nodes[..|src.nodes|] == src.nodes;
    var cursor := EndOf(src.nodes);
    assert src.lines[..cursor] + src.lines[cursor..] == src.lines;
  }

  lemma ItemsOfNext(lines: seq<Line>, nodes: seq<Node>, i: nat)
    requires i < |nodes|
    ensures ItemsOf(lines, nodes[..i + 1]) ==
            ItemsOf(lines, nodes[..i]) + [ItemOf(lines, EndOf(nodes[..i]), nodes[i])]
    ensures EndOf(nodes[..i + 1]) == nodes[i].end
  {
    assert nodes[..i + 1][..i] == nodes[..i];
  }

  lemma Glue(lines: seq<Line>, a: nat, b: nat, c: nat)
    requires a <= b <= c <= |lines|
    ensures lines[..a] + lines[a..b] + lines[b..c] == lines[..c]
  {
  }

  lemma {:induction false} ItemsRenderPrefix(src: Source, i: nat)
    requires Spanned(src) && i <= |src.nodes|
    ensures EndOf(src.nodes[..i]) <= |src.lines|
    ensures RenderItems(ItemsOf(src.lines, src.nodes[..i])) == src.lines[..EndOf(src.nodes[..i])]
  {
    if i > 0 {
      hide ItemsOf, RenderItems, EndOf;
      ItemsRenderPrefix(src, i - 1);
      ItemsOfNext(src.lines, src.nodes, i - 1);
      var cursor, node := EndOf(src.nodes[..i - 1]), src.nodes[i - 1];
      RenderLast(ItemsOf(src.lines, src.nodes[..i - 1]), ItemOf(src.lines, cursor, node));
      Glue(src.lines, cursor, node.start, node.end);
    }
  }

  /** What the merge returns: the existing file as it is, or new lines. */
  datatype Outcome = Unchanged | Rewritten(lines: seq<Line>)

  /** Fallback: only new symbols are added, without the merge comment. */
  function AddOnly(existing: Doc, proposed: Doc): Doc {
    Attach(StripItems(existing), StripTail(existing), Extra(existing, proposed, ""))
  }

  function MergeText(existing: Doc, proposed: Doc, hint: string, parses: seq<Line> -> bool): Outcome {
    if Table(proposed.items) == map[] then Unchanged
    else if parses(Render(MergeDoc(existing, proposed, hint)))
    then Rewritten(Render(MergeDoc(existing, proposed, hint)))
    else if Extra(existing, proposed, "") == [] then Unchanged
    else Rewritten(Render(AddOnly(existing, proposed)))
  }

  /** In the fallback existing symbols win: their bodies stay, new names are added. */
  lemma AddOnlyKeepsExisting(existing: Doc, proposed: Doc)
    ensures Symbols(AddOnly(existing, proposed).items) == Symbols(proposed.items) + Symbols(existing.items)
  {
    hide Table, StripItems, StripTail, Attach, Without, Names, Appended, Trim;
    var names := Without(Names(proposed.items), Table(existing.items));
    NamesAreKeys(proposed.items);
    WithoutAre(Names(proposed.items), Table(existing.items));
    TableOfAppended(names, Table(proposed.items), "");
    SymbolsOfStripped(existing);
    TableOfAttached(StripItems(existing), StripTail(existing), Extra(existing, proposed, ""));
    var merged, expected := Symbols(AddOnly(existing, proposed).items),
                            Symbols(proposed.items) + Symbols(existing.items);
    forall k ensures (k in merged <==> k in expected) && (k in merged ==> merged[k] == expected[k]) {
      assert k in Symbols(StripItems(existing)) <==> k in Symbols(existing.items);
    }
    assert merged.Keys == expected.Keys;
  }

  // ----- Lookup of symbol spans -----

  /** `spans` gives every symbol of `src` the lines of its last definition. */
  ghost predicate SpansOf(lines: seq<Line>, items: seq<Item>, spans: map<string, (nat, nat)>) {
    && (forall k :: k in spans <==> k in Table(items))
    && (forall k :: k in spans ==> Slice(lines, spans[k].0, spans[k].1) == Table(items)[k])
  }

  /** The span of a name is that of the last statement that defines it. */
  ghost predicate SpansLast(nodes: seq<Node>, items: seq<Item>, spans: map<string, (nat, nat)>) {
    forall k, a :: DefinedLast(items, a, k) ==>
      a < |nodes| && k in spans && spans[k] == (nodes[a].start, nodes[a].end)
  }

  lemma SpansLastNext(nodes: seq<Node>, items: seq<Item>, spans: map<string, (nat, nat)>, node: Node, it: Item)
    requires SpansLast(nodes, items, spans) && |nodes| == |items| && it.stmt.name == node.name
    ensures SpansLast(nodes + [node], items + [it],
                      if node.name.Some? then spans[node.name.value := (node.start, node.end)] else spans)
  {
    var after := if node.name.Some? then spans[node.name.value := (node.start, node.end)] else spans;
    forall k, a | DefinedLast(items + [it], a, k)
      ensures a < |nodes| + 1 && k in after && after[k] == ((nodes + [node])[a].start, (nodes + [node])[a].end)
    {
      if a < |items| {
        assert !Defines((items + [it])[|items|], k);
        assert forall b :: a <= b < |items| ==> (items + [it])[b] == items[b];
        assert DefinedLast(items, a, k);
      }
    }
  }

  /** Names and spans of the first `i` statements. */
  ghost predicate Scanned(src: Source, i: nat, names: seq<string>, spans: map<string, (nat, nat)>)
    requires i <= |src.nodes|
  {
    var items := ItemsOf(src.lines, src.nodes[..i]);
    names == Names(items) && SpansOf(src.lines, items, spans) && SpansLast(src.nodes[..i], items, spans)
  }

  lemma NoSpans(src: Source)
    ensures Scanned(src, 0, [], map[])
  {
  }

  lemma NextSymbol(src: Source, i: nat, names: seq<string>, spans: map<string, (nat, nat)>)
    requires i < |src.nodes| && Scanned(src, i, names, spans)
    ensures var node := src.nodes[i];
            var names' := if node.name.Some? && node.name.value !in spans then names + [node.name.value] else names;
            var spans' := if node.name.Some? then spans[node.name.value := (node.start, node.end)] else spans;
            Scanned(src, i + 1, names', spans')
  {
    hide SpansLast, Names, Table, SpansOf;
    var node, items := src.nodes[i], ItemsOf(src.lines, src.nodes[..i]);
    var cursor := EndOf(src.nodes[..i]);
    var it := ItemOf(src.lines, cursor, node);
    ItemsOfNext(src.lines, src.nodes, i);
    ItemsOfSize(src.lines, src.nodes[..i]);
    SpansLastNext(src.nodes[..i], items, spans, node, it);
    assert src.nodes[..i] + [node] == src.nodes[..i + 1];
    hide ItemsOf, EndOf;
    SpansOfNext(src.lines, items, spans, cursor, node);
    NamesOfLast(items, it);
    SpansOfKeys(src.lines, items, spans);
  }

  lemma SpansOfNext(lines: seq<Line>, items: seq<Item>, spans: map<string, (nat, nat)>, cursor: nat, node: Node)
    requires SpansOf(lines, items, spans)
    ensures SpansOf(lines, items + [ItemOf(lines, cursor, node)],
                    if node.name.Some? then spans[node.name.value := (node.start, node.end)] else spans)
  {
    TableOfLast(items, ItemOf(lines, cursor, node));
    hide Table, Slice;
  }

  lemma SpansOfKeys(lines: seq<Line>, items: seq<Item>, spans: map<string, (nat, nat)>)
    requires SpansOf(lines, items, spans)
    ensures forall k :: k in Names(items) <==> k in spans
  {
    hide Table, Names, Slice;
    NamesAreKeys(items);
  }

  /** Names in order of first definition, and the span of the last definition of each. */
  method SymbolSpans(src: Source) returns (names: seq<string>, spans: map<string, (nat, nat)>)
    ensures names == Names(DocOf(src).items)
    ensures SpansOf(src.lines, DocOf(src).items, spans)
    ensures forall k :: k in names <==> Defined(DocOf(src).items, k)
    ensures forall i, j :: 0 <= i < j < |names| ==>
              names[i] != names[j] && ComesFirst(DocOf(src).items, names[i], names[j])
    ensures SpansLast(src.nodes, DocOf(src).items, spans)
  {
    NoSpans(src);
    hide SpansOf, SpansLast, Defined, ComesFirst, Names, ItemsOf;
    names, spans := [], map[];
    for i := 0 to |src.nodes|
      invariant Scanned(src, i, names, spans)
    {
      var node := src.nodes[i];
      NextSymbol(src, i, names, spans);
      if node.name.Some? {
        if node.name.value !in spans {
          names := names + [node.name.value];
        }
        spans := spans[node.name.value := (node.start, node.end)];
      }
    }
    assert src.nodes[..|src.nodes|] == src.nodes;
    NamesExactly(DocOf(src).items);
  }

  lemma NoItems(lines: seq<Line>, table: map<string, seq<Line>>)
    ensures ItemsOf(lines, []) == [] && Table([]) == map[] && RenderItems(UpdateAll([], table)) == []
  {
  }

  lemma RenderUpdatedLast(items: seq<Item>, it: Item, table: map<string, seq<Line>>)
    ensures RenderItems(UpdateAll(items + [it], table)) ==
            RenderItems(UpdateAll(items, table)) + it.gap + Updated(it, table).stmt.body
  {
    assert (items + [it])[..|items|] == items;
    RenderLast(UpdateAll(items, table), Updated(it, table));
  }

  /** Copies the existing file, replacing the bodies of symbols that the proposal has. */
  method UpdateExisting(existing: Source, proposed: Source, spans: map<string, (nat, nat)>)
    returns (output: seq<Line>, updated: set<string>)
    requires Spanned(existing) && SpansOf(proposed.lines, DocOf(proposed).items, spans)
    ensures output == Render(UpdatedDoc(DocOf(existing), DocOf(proposed)))
    ensures forall k :: k in updated <==> k in Table(DocOf(existing).items) && k in spans
  {
    hide ItemsOf, RenderItems, UpdateAll, Table;
    ghost var table := Table(DocOf(proposed).items);
    var cursor := 0;
    output, updated := [], {};
    NoItems(existing.lines, table);
    for i := 0 to |existing.nodes|
      invariant cursor == EndOf(existing.nodes[..i]) <= |existing.lines|
      invariant output == RenderItems(UpdateAll(ItemsOf(existing.lines, existing.nodes[..i]), table))
      invariant forall k :: k in updated <==> k in Table(ItemsOf(existing.lines, existing.nodes[..i])) && k in spans
    {
      hide DocOf;
      var node := existing.nodes[i];
      ghost var items := ItemsOf(existing.lines, existing.nodes[..i]);
      ItemsOfNext(existing.lines, existing.nodes, i);
      TableOfLast(items, ItemOf(existing.lines, cursor, node));
      RenderUpdatedLast(items, ItemOf(existing.lines, cursor, node), table);
      output := output + existing.lines[cursor..node.start];
      cursor := node.end;
      if node.name.Some? && node.name.value in spans {
        var (ps, pe) := spans[node.name.value];
        output := output + Slice(proposed.lines, ps, pe);
        updated := updated + {node.name.value};
      } else {
        output := output + existing.lines[node.start..node.end];
      }
    }
    assert existing.nodes[..|existing.nodes|] == existing.nodes;
    output := output + existing.lines[cursor..];
  }

  /** The bodies that `table` gives to `names`. */
  function Bodies(names: seq<string>, table: map<string, seq<Line>>): seq<seq<Line>> {
    if names == [] then []
    else
      var k := names[|names| - 1];
      Bodies(names[..|names| - 1], table) + [if k in table then table[k] else []]
  }

  lemma {:induction false} BodiesAt(names: seq<string>, table: map<string, seq<Line>>)
    requires forall k :: k in names ==> k in table
    ensures |Bodies(names, table)| == |names|
    ensures forall i :: 0 <= i < |names| ==> names[i] in table && Bodies(names, table)[i] == table[names[i]]
  {
    if names != [] {
      assert names == names[..|names| - 1] + [names[|names| - 1]];
      BodiesAt(names[..|names| - 1], table);
    }
  }

  lemma WithoutNext(names: seq<string>, i: nat, known: map<string, seq<Line>>, table: map<string, seq<Line>>)
    requires i < |names| && names[i] in table
    ensures Bodies(Without(names[..i + 1], known), table) ==
            Bodies(Without(names[..i], known), table) + (if names[i] in known then [] else [table[names[i]]])
  {
    assert names[..i + 1][..i] == names[..i];
    var before := Without(names[..i], known);
    assert (before + [names[i]])[..|before|] == before;
    assert before + [] == before;
  }

  /** The bodies of proposed symbols that the existing file lacks, in the proposal's order. */
  method NewBlocks(lines: seq<Line>, names: seq<string>, spans: map<string, (nat, nat)>,
                   existing: map<string, (nat, nat)>,
                   ghost items: seq<Item>, ghost known: map<string, seq<Line>>)
    returns (blocks: seq<seq<Line>>)
    requires SpansOf(lines, items, spans) && names == Names(items)
    requires forall k :: k in existing <==> k in known
    ensures blocks == Bodies(Without(names, known), Table(items))
  {
    hide Table, Names, Without, Bodies;
    NamesAreKeys(items);
    NoNames(known, Table(items));
    blocks := [];
    for i := 0 to |names|
      invariant blocks == Bodies(Without(names[..i], known), Table(items))
    {
      assert names[i] in names;
      WithoutNext(names, i, known, Table(items));
      if names[i] !in existing {
        var (ps, pe) := spans[names[i]];
        blocks := blocks + [Slice(lines, ps, pe)];
      }
    }
    assert names[..|names|] == names;
  }

  lemma NoNames(known: map<string, seq<Line>>, table: map<string, seq<Line>>)
    ensures Bodies(Without([], known), table) == []
  {
  }

  lemma NothingAppended(text: seq<Line>, names: seq<string>, table: map<string, seq<Line>>, hint: string)
    requires forall k :: k in names ==> k in table
    ensures text + RenderItems(Appended(names[..0], table, hint)) == text
  {
  }

  lemma NextBlock(text: seq<Line>, names: seq<string>, table: map<string, seq<Line>>, hint: string, i: nat)
    requires i < |names| && forall k :: k in names ==> k in table
    ensures text + RenderItems(Appended(names[..i + 1], table, hint)) ==
            text + RenderItems(Appended(names[..i], table, hint)) + NewGap(i, hint) + table[names[i]]
  {
    hide NewGap, RenderItems;
    assert names[..i + 1][..i] == names[..i];
    RenderLast(Appended(names[..i], table, hint), Item(NewGap(i, hint), Stmt(Some(names[i]), table[names[i]])));
  }

  /** New blocks after the text: a blank line before each, the merge comment before the first. */
  method AppendBlocks(text: seq<Line>, blocks: seq<seq<Line>>, hint: string,
                      ghost names: seq<string>, ghost table: map<string, seq<Line>>)
    returns (result: seq<Line>)
    requires blocks == Bodies(names, table) && forall k :: k in names ==> k in table
    ensures result == text + RenderItems(Appended(names, table, hint))
  {
    BodiesAt(names, table);
    NothingAppended(text, names, table, hint);
    hide Bodies, NewGap, RenderItems, Appended;
    result := text;
    for i := 0 to |blocks|
      invariant result == text + RenderItems(Appended(names[..i], table, hint))
    {
      NextBlock(text, names, table, hint, i);
      result := result + NewGap(i, hint) + blocks[i];
    }
    assert names[..|names|] == names;
  }

  /** Merges a proposed source into an existing one; None stands for a source that does not
      parse, and `parses` is the final sanity check of the merged text. */
  method Merge(existing: Option<Source>, proposed: Option<Source>, hint: string, parses: seq<Line> -> bool)
    returns (out: Outcome)
    requires existing.Some? ==> Spanned(existing.value) && WellFormedItems(DocOf(existing.value).items)
    requires proposed.Some? ==> Spanned(proposed.value) && WellFormedItems(DocOf(proposed.value).items)
    ensures existing.None? || proposed.None? ==> out == Unchanged
    ensures existing.Some? && proposed.Some? ==>
              out == MergeText(DocOf(existing.value), DocOf(proposed.value), hint, parses)
  {
    if existing.None? || proposed.None? {
      return Unchanged;
    }
    hide DocOf, Table, Names, Without, StripEnd, RenderItems, Appended, MergeDoc, AddOnly, UpdatedDoc, WellFormedItems,
         Bodies;
    var e, p := existing.value, proposed.value;
    ghost var de, dp := DocOf(e), DocOf(p);
    var _, existingSpans := SymbolSpans(e);
    var names, spans := SymbolSpans(p);
    var output, updated := UpdateExisting(e, p, spans);
    var blocks := NewBlocks(p.lines, names, spans, existingSpans, dp.items, Table(de.items));
    ghost var fresh' := Without(names, Table(de.items));
    NamesAreKeys(dp.items);
    WithoutAre(names, Table(de.items));
    BodiesAt(fresh', Table(dp.items));
    AppendedSize(fresh', Table(dp.items), hint);
    AppendedSize(fresh', Table(dp.items), "");
    NothingToDo(de, dp, updated, spans);
    if blocks == [] && updated == {} {
      return Unchanged;
    }
    MergeRenders(de, dp, hint);
    var result := AppendBlocks(StripEnd(output), blocks, hint, fresh', Table(dp.items));
    if parses(result) {
      return Rewritten(result);
    }
    if blocks == [] {
      return Unchanged;
    }
    AddOnlyRenders(e, dp);
    result := AppendBlocks(StripEnd(e.lines), blocks, "", fresh', Table(dp.items));
    return Rewritten(result);
  }

  lemma AppendedSize(names: seq<string>, table: map<string, seq<Line>>, hint: string)
    ensures Appended(names, table, hint) == [] <==> names == []
  {
  }

  /** Nothing is updated and nothing is new exactly when the proposal has no symbols. */
  lemma NothingToDo(existing: Doc, proposed: Doc, updated: set<string>, spans: map<string, (nat, nat)>)
    requires forall k :: k in spans <==> k in Table(proposed.items)
    requires forall k :: k in updated <==> k in Table(existing.items) && k in spans
    ensures Without(Names(proposed.items), Table(existing.items)) == [] && updated == {} <==>
            Table(proposed.items) == map[]
  {
    hide Table, Names;
    var names := Without(Names(proposed.items), Table(existing.items));
    NamesAreKeys(proposed.items);
    WithoutAre(Names(proposed.items), Table(existing.items));
    HasMember(names);
    if names == [] && updated == {} {
      forall k ensures k !in Table(proposed.items) {
        assert k !in updated && k !in names;
      }
    }
  }

  lemma AddOnlyRenders(existing: Source, proposed: Doc)
    requires Spanned(existing) && WellFormedItems(DocOf(existing).items)
    ensures Render(AddOnly(DocOf(existing), proposed)) ==
            StripEnd(existing.lines) + RenderItems(Extra(DocOf(existing), proposed, ""))
  {
    hide DocOf, StripItems, StripTail, Attach, RenderItems, StripEnd, Extra;
    DocRendersSource(existing);
    RenderStripped(DocOf(existing));
    RenderAttached(StripItems(DocOf(existing)), StripTail(DocOf(existing)), Extra(DocOf(existing), proposed, ""));
  }
}
