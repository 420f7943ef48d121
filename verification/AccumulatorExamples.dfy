/** A small parser that meets the hypotheses about merges of texts, and a proposal that a
    second merge changes again. */
module AccumulatorExamples {
  import opened Wrappers
  import opened Text
  import opened Accumulator
  import opened AccumulatorMerge
  import opened AccumulatorSeries

  // ----- A parser by lines -----

  /** The line is a statement: it defines the symbol of its first letter. */
  predicate Opens(l: Line) { l.text != "" && (l.text[0] == 'x' || l.text[0] == 'y') }

  function NameOf(l: Line): string
    requires Opens(l)
  {
    [l.text[0]]
  }

  function StatementOf(l: Line, gap: seq<Line>): Item
    requires Opens(l)
  {
    Item(gap, Stmt(Some(NameOf(l)), [l]))
  }

  /** Every line that starts with x or y is a statement, every other line lies in a gap. */
  function Scan(lines: seq<Line>): Doc {
    if lines == [] then Doc([], [])
    else
      var n := |lines| - 1;
      var d := Scan(lines[..n]);
      if Opens(lines[n]) then Doc(d.items + [StatementOf(lines[n], d.tail)], []) else Doc(d.items, d.tail + [lines[n]])
  }

  function ByLines(): Parser { (text: seq<Line>) => Some(Scan(text)) }

  // ----- What it reads -----

  predicate Plain(lines: seq<Line>) { forall l :: l in lines ==> !Opens(l) }

  predicate SimpleStmt(s: Stmt) { |s.body| == 1 && Opens(s.body[0]) && s.name == Some(NameOf(s.body[0])) }

  predicate SimpleItems(items: seq<Item>) {
    forall i :: 0 <= i < |items| ==> SimpleStmt(items[i].stmt) && Plain(items[i].gap)
  }

  predicate Simple(doc: Doc) { SimpleItems(doc.items) && Plain(doc.tail) }

  lemma {:induction false} ScanIsSimple(lines: seq<Line>)
    ensures Simple(Scan(lines))
  {
    if lines != [] {
      ScanIsSimple(lines[..|lines| - 1]);
    }
  }

  lemma {:induction false} ScanRenders(lines: seq<Line>)
    ensures Render(Scan(lines)) == lines
  {
    if lines != [] {
      hide RenderItems;
      var n := |lines| - 1;
      ScanRenders(lines[..n]);
      var d := Scan(lines[..n]);
      assert lines == lines[..n] + [lines[n]];
      if Opens(lines[n]) {
        RenderLast(d.items, StatementOf(lines[n], d.tail));
      }
    } else {
      RenderNothing();
    }
  }

  lemma {:induction false} ScanPlain(lines: seq<Line>, gap: seq<Line>)
    requires Plain(gap)
    ensures Scan(lines + gap) == Doc(Scan(lines).items, Scan(lines).tail + gap)
  {
    if gap == [] {
      assert lines + gap == lines && Scan(lines).tail + gap == Scan(lines).tail;
    } else {
      var n := |gap| - 1;
      ScanPlain(lines, gap[..n]);
      assert (lines + gap)[..|lines + gap| - 1] == lines + gap[..n];
      assert (lines + gap)[|lines + gap| - 1] == gap[n] && gap[n] in gap;
      assert Scan(lines).tail + gap == (Scan(lines).tail + gap[..n]) + [gap[n]];
    }
  }

  lemma ScanStatement(lines: seq<Line>, l: Line)
    requires Opens(l)
    ensures Scan(lines + [l]) == Doc(Scan(lines).items + [StatementOf(l, Scan(lines).tail)], [])
  {
    assert (lines + [l])[..|lines|] == lines;
  }

  lemma {:induction false} ScanItems(items: seq<Item>)
    requires SimpleItems(items)
    ensures Scan(RenderItems(items)) == Doc(items, [])
  {
    if items != [] {
      var n := |items| - 1;
      var it := items[n];
      ScanItems(items[..n]);
      hide Scan;
      var before := RenderItems(items[..n]);
      ScanPlain(before, it.gap);
      ScanStatement(before + it.gap, it.stmt.body[0]);
      assert it.stmt.body == [it.stmt.body[0]];
      assert [] + it.gap == it.gap && items == items[..n] + [it];
    }
  }

  /** Simple documents are read back. */
  lemma ScanReads(doc: Doc)
    requires Simple(doc)
    ensures Scan(Render(doc)) == doc
  {
    hide Scan, RenderItems;
    ScanItems(doc.items);
    ScanPlain(RenderItems(doc.items), doc.tail);
    assert [] + doc.tail == doc.tail;
  }

  // ----- Merges of simple documents -----

  lemma StripsOpen(l: Line)
    ensures Opens(RStrip(l)) <==> Opens(l)
    ensures Opens(l) ==> NameOf(RStrip(l)) == NameOf(l) && !Blank(l)
  {
    StripRightPrefix(l.text);
    if Opens(l) {
      StripRightKeepsFirst(l.text);
    }
  }

  lemma {:induction false} StripEndPlain(lines: seq<Line>)
    requires Plain(lines)
    ensures Plain(StripEnd(lines))
  {
    if lines != [] {
      var n := |lines| - 1;
      assert lines[n] in lines;
      StripsOpen(lines[n]);
      StripEndPlain(lines[..n]);
    }
  }

  lemma {:induction false} TableIsSimple(items: seq<Item>)
    requires SimpleItems(items)
    ensures forall k :: k in Table(items) ==> SimpleStmt(Stmt(Some(k), Table(items)[k]))
  {
    if items != [] {
      TableIsSimple(items[..|items| - 1]);
    }
  }

  lemma SimpleIsWellFormed(items: seq<Item>)
    requires SimpleItems(items)
    ensures WellFormedItems(items)
  {
    forall i | 0 <= i < |items| ensures WellFormed(items[i].stmt) {
      StripsOpen(items[i].stmt.body[0]);
    }
  }

  lemma UpdatedIsSimple(e: Doc, p: Doc)
    requires Simple(e) && Simple(p)
    ensures Simple(UpdatedDoc(e, p))
  {
    TableIsSimple(p.items);
    UpdateAllAt(e.items, Table(p.items));
    hide Table, UpdateAll;
  }

  lemma StripIsSimple(doc: Doc)
    requires Simple(doc)
    ensures SimpleItems(StripItems(doc)) && Plain(StripTail(doc))
  {
    hide StripEnd, RStrip;
    StripEndPlain(doc.tail);
    if doc.items != [] {
      var body := doc.items[|doc.items| - 1].stmt.body;
      StripsOpen(body[0]);
      assert Trim(body) == [RStrip(body[0])];
    }
  }

  lemma GapIsPlain(n: nat, hint: string)
    ensures Plain(NewGap(n, hint))
  {
    var comment := Line("# -- new symbols merged: " + hint + " --");
    assert comment.text[0] == '#';
  }

  lemma ExtraIsSimple(e: Doc, p: Doc, hint: string)
    requires Simple(p)
    ensures SimpleItems(Extra(e, p, hint))
  {
    hide Table, Without, Names, Appended, NewGap;
    TableIsSimple(p.items);
    ExtraIs(e, p, hint);
    var names := Without(Names(p.items), Table(e.items));
    forall i | 0 <= i < |names| ensures Plain(NewGap(i, hint)) && names[i] in Table(p.items) {
      GapIsPlain(i, hint);
      assert names[i] in names;
    }
  }

  lemma AttachIsSimple(items: seq<Item>, rest: seq<Line>, extra: seq<Item>)
    requires SimpleItems(items) && Plain(rest) && SimpleItems(extra)
    ensures Simple(Attach(items, rest, extra))
  {
    hide SimpleStmt;
  }

  lemma MergesAreSimple(e: Doc, p: Doc, hint: string)
    requires Simple(e) && Simple(p)
    ensures Simple(MergeDoc(e, p, hint)) && Simple(AddOnly(e, p))
  {
    hide SimpleItems, Plain, Attach, Extra, StripItems, StripTail, UpdatedDoc;
    UpdatedIsSimple(e, p);
    StripIsSimple(UpdatedDoc(e, p));
    StripIsSimple(e);
    ExtraIsSimple(e, p, hint);
    ExtraIsSimple(e, p, "");
    AttachIsSimple(StripItems(UpdatedDoc(e, p)), StripTail(UpdatedDoc(e, p)), Extra(e, p, hint));
    AttachIsSimple(StripItems(e), StripTail(e), Extra(e, p, ""));
  }

  /** The parser meets the hypotheses of the results about series of merges. */
  lemma ByLinesReads()
    ensures Reads(ByLines())
  {
    var parse := ByLines();
    hide Scan, Render, MergeDoc, AddOnly, Simple, WellFormedItems;
    forall text ensures Render(Scan(text)) == text && WellFormedItems(Scan(text).items) {
      ScanRenders(text);
      ScanIsSimple(text);
      ScannedIsWellFormed(text);
    }
    forall text, prop, hint ensures ReadsBack(parse, text, prop, hint) {
      ScanIsSimple(text);
      ScanIsSimple(prop);
      MergesAreSimple(Scan(text), Scan(prop), hint);
      ScanReads(MergeDoc(Scan(text), Scan(prop), hint));
      ScanReads(AddOnly(Scan(text), Scan(prop)));
    }
  }

  lemma ScannedIsWellFormed(text: seq<Line>)
    ensures WellFormedItems(Scan(text).items)
  {
    hide Scan, WellFormedItems, SimpleItems;
    ScanIsSimple(text);
    SimpleIsWellFormed(Scan(text).items);
  }

  // ----- A merge that the next one changes -----

  lemma ScanOfOne(a: Line)
    requires Opens(a)
    ensures Scan([a]) == Doc([StatementOf(a, [])], [])
  {
    assert [] + [a] == [a];
    ScanStatement([], a);
  }

  lemma ScanOfTwo(a: Line, b: Line)
    requires Opens(a) && Opens(b)
    ensures Scan([a, b]) == Doc([StatementOf(a, []), StatementOf(b, [])], [])
  {
    assert [a] + [b] == [a, b];
    ScanOfOne(a);
    ScanStatement([a], b);
  }

  /** The text defines x; the proposal redefines it with trailing blanks and adds y.  The
      first merge strips the blanks and appends y, the second puts them back. */
  lemma SecondMergeRespaces(a: Line, b: Line, c: Line, hint: string)
    requires Opens(a) && Opens(b) && Opens(c) && NameOf(a) == NameOf(b) != NameOf(c) && RStrip(b) != b
    ensures var parse := ByLines();
            var once := MergeOnce(parse, [a], [b, c], hint);
            Reads(parse) && StripEnd(MergeOnce(parse, once, [b, c], hint)) != StripEnd(once)
  {
    hide Reads, MergeOnce, StripEnd, MergeDoc, Extra, Scan, Respaced, RStrip, Render;
    ByLinesReads();
    ScanOfOne(a);
    ScanOfTwo(b, c);
    assert Trim([b]) == [RStrip(b)];
    RespacedExample(NameOf(a), NameOf(c), [a], [b], [c], hint);
    TableOfTwo(NameOf(b), NameOf(c), [b], [c]);
    hide Table;
    assert NameOf(b) in Table(Scan([b, c]).items);
    MergeTwiceExactly(ByLines(), [a], [b, c], hint);
  }
}
