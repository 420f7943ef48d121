/** Merging one proposal after the other, text by text: every merge starts from what the
    parser reads in the result of the one before. */
module AccumulatorSeries {
  import opened Wrappers
  import opened Accumulator
  import opened AccumulatorMerge

  type Parser = seq<Line> -> Option<Doc>

  /** Reading and rendering are inverse on texts that parse and on the documents that merges
      make of them.  A merged text need not parse; new symbols behind a text that parses do. */
  ghost predicate Reads(parse: Parser) {
    && (forall text :: parse(text).Some? ==>
          Render(parse(text).value) == text && WellFormedItems(parse(text).value.items))
    && (forall text, prop, hint :: ReadsBack(parse, text, prop, hint))
  }

  ghost predicate ReadsBack(parse: Parser, text: seq<Line>, prop: seq<Line>, hint: string) {
    parse(text).Some? && parse(prop).Some? ==>
      var merged := MergeDoc(parse(text).value, parse(prop).value, hint);
      var added := AddOnly(parse(text).value, parse(prop).value);
      && (parse(Render(merged)).Some? ==> parse(Render(merged)) == Some(merged))
      && parse(Render(added)) == Some(added)
  }

  /** The text that one merge leaves. */
  function MergeOnce(parse: Parser, text: seq<Line>, prop: seq<Line>, hint: string): seq<Line> {
    if parse(text).None? || parse(prop).None? then text
    else
      match MergeText(parse(text).value, parse(prop).value, hint, (t: seq<Line>) => parse(t).Some?)
      case Unchanged => text
      case Rewritten(lines) => lines
  }

  /** A parser that reports spans reads documents. */
  function Documents(parser: seq<Line> -> Option<Source>): Parser {
    (text: seq<Line>) => match parser(text) case None => None case Some(src) => Some(DocOf(src))
  }

  ghost predicate Reports(parser: seq<Line> -> Option<Source>) {
    forall text :: parser(text).Some? ==>
      var src := parser(text).value;
      src.lines == text && Spanned(src) && WellFormedItems(DocOf(src).items)
  }

  /** The merge of two texts as the program runs it. */
  method MergeFile(parser: seq<Line> -> Option<Source>, text: seq<Line>, prop: seq<Line>, hint: string)
    returns (result: seq<Line>)
    requires Reports(parser)
    ensures result == MergeOnce(Documents(parser), text, prop, hint)
    ensures parser(text).None? || parser(prop).None? ==> result == text
  {
    hide DocOf, WellFormedItems, Table, MergeDoc, AddOnly, Extra, Render;
    var out := Merge(parser(text), parser(prop), hint, (t: seq<Line>) => parser(t).Some?);
    result := match out case Unchanged => text case Rewritten(lines) => lines;
  }

  function MergeSeries(parse: Parser, text: seq<Line>, props: seq<seq<Line>>, hint: string): seq<Line> {
    if props == [] then text
    else MergeOnce(parse, MergeSeries(parse, text, props[..|props| - 1], hint), props[|props| - 1], hint)
  }

  /** Symbols of a text; a text that does not parse has none. */
  function SymbolsIn(parse: Parser, text: seq<Line>): map<string, seq<Line>> {
    if parse(text).None? then map[] else Symbols(parse(text).value.items)
  }

  /** The merged text, before it is known whether it parses. */
  predicate MergedParses(parse: Parser, text: seq<Line>, prop: seq<Line>, hint: string) {
    parse(text).Some? && parse(prop).Some? ==>
      parse(Render(MergeDoc(parse(text).value, parse(prop).value, hint))).Some?
  }

  lemma SymbolKeys(items: seq<Item>)
    ensures Symbols(items).Keys == Table(items).Keys
  {
    hide Table;
  }

  // ----- One merge -----

  /** What one merge leaves, as the parser reads it. */
  lemma MergeOnceReads(parse: Parser, text: seq<Line>, prop: seq<Line>, hint: string)
    requires Reads(parse) && parse(text).Some? && parse(prop).Some?
    ensures var e, p, out := parse(text).value, parse(prop).value, MergeOnce(parse, text, prop, hint);
            && (Table(p.items) == map[] ==> out == text)
            && (Table(p.items) != map[] && MergedParses(parse, text, prop, hint) ==>
                out == Render(MergeDoc(e, p, hint)) && parse(out) == Some(MergeDoc(e, p, hint)))
            && (Table(p.items) != map[] && !MergedParses(parse, text, prop, hint) && Extra(e, p, "") == [] ==>
                out == text)
            && (Table(p.items) != map[] && !MergedParses(parse, text, prop, hint) && Extra(e, p, "") != [] ==>
                out == Render(AddOnly(e, p)) && parse(out) == Some(AddOnly(e, p)))
  {
    hide Table, MergeDoc, AddOnly, Extra, Render, WellFormedItems;
    assert ReadsBack(parse, text, prop, hint);
  }

  /** The two files give every name they share the same body. */
  ghost predicate Agree(a: map<string, seq<Line>>, b: map<string, seq<Line>>) {
    forall k :: k in a && k in b ==> a[k] == b[k]
  }

  lemma AgreeExactly(a: map<string, seq<Line>>, b: map<string, seq<Line>>)
    ensures a + b == b + a <==> Agree(a, b)
  {
    if a + b == b + a {
      forall k | k in a && k in b ensures a[k] == b[k] {
        assert (a + b)[k] == b[k] && (b + a)[k] == a[k];
      }
    } else {
      assert (a + b).Keys == (b + a).Keys;
    }
  }

  lemma OverrideByNothing(a: map<string, seq<Line>>, b: map<string, seq<Line>>)
    requires b.Keys <= a.Keys
    ensures b + a == a
  {
    assert (b + a).Keys == a.Keys;
  }

  /** In the fallback the symbols of the existing text win. */
  lemma FallbackSymbols(parse: Parser, text: seq<Line>, prop: seq<Line>, hint: string)
    requires Reads(parse) && parse(text).Some? && parse(prop).Some? && !MergedParses(parse, text, prop, hint)
    ensures parse(MergeOnce(parse, text, prop, hint)).Some?
    ensures SymbolsIn(parse, MergeOnce(parse, text, prop, hint)) == SymbolsIn(parse, prop) + SymbolsIn(parse, text)
  {
    hide Reads, Table, MergeDoc, AddOnly, Extra, MergeOnce, Symbols;
    var e, p := parse(text).value, parse(prop).value;
    MergeOnceReads(parse, text, prop, hint);
    AddOnlyKeepsExisting(e, p);
    SymbolKeys(e.items);
    SymbolKeys(p.items);
    NoExtraNoNames(e, p, "");
    if Table(p.items) == map[] || Extra(e, p, "") == [] {
      OverrideByNothing(Symbols(e.items), Symbols(p.items));
    }
  }

  lemma NoExtraNoNames(e: Doc, p: Doc, hint: string)
    ensures Extra(e, p, hint) == [] <==> Table(p.items).Keys <= Table(e.items).Keys
  {
    hide Table, Names, Appended, Without;
    ExtraIs(e, p, hint);
    HasMember(Without(Names(p.items), Table(e.items)));
    if Table(p.items).Keys <= Table(e.items).Keys {
      assert forall k :: k !in Without(Names(p.items), Table(e.items));
    } else {
      var k :| k in Table(p.items).Keys && k !in Table(e.items).Keys;
      assert k in Without(Names(p.items), Table(e.items));
    }
  }

  lemma MergedSymbols(parse: Parser, text: seq<Line>, prop: seq<Line>, hint: string)
    requires Reads(parse) && parse(text).Some? && parse(prop).Some? && MergedParses(parse, text, prop, hint)
    ensures parse(MergeOnce(parse, text, prop, hint)).Some?
    ensures SymbolsIn(parse, MergeOnce(parse, text, prop, hint)) == SymbolsIn(parse, text) + SymbolsIn(parse, prop)
  {
    hide Reads, Table, MergeDoc, AddOnly, Extra, MergeOnce, Symbols;
    var e, p := parse(text).value, parse(prop).value;
    MergeOnceReads(parse, text, prop, hint);
    MergeOverrides(e, p, hint);
    SymbolKeys(p.items);
    if Table(p.items) == map[] {
      assert Symbols(p.items) == map[];
      assert Symbols(e.items) + map[] == Symbols(e.items);
    }
  }

  /** One merge overrides the symbols of the text by those of the proposal, if and only if
      the merged text parses or the two agree on the names they share. */
  lemma MergeOnceOverridesExactly(parse: Parser, text: seq<Line>, prop: seq<Line>, hint: string)
    requires Reads(parse) && parse(text).Some? && parse(prop).Some?
    ensures var a, b := SymbolsIn(parse, text), SymbolsIn(parse, prop);
            && parse(MergeOnce(parse, text, prop, hint)).Some?
            && (SymbolsIn(parse, MergeOnce(parse, text, prop, hint)) == a + b <==>
                MergedParses(parse, text, prop, hint) || Agree(a, b))
  {
    hide Reads, MergedParses, MergeOnce, SymbolsIn, Agree;
    AgreeExactly(SymbolsIn(parse, text), SymbolsIn(parse, prop));
    if MergedParses(parse, text, prop, hint) {
      MergedSymbols(parse, text, prop, hint);
    } else {
      FallbackSymbols(parse, text, prop, hint);
    }
  }

  // ----- A series of merges -----

  /** Later proposals override earlier ones. */
  function Override(parse: Parser, base: map<string, seq<Line>>, props: seq<seq<Line>>): map<string, seq<Line>> {
    if props == [] then base
    else Override(parse, base, props[..|props| - 1]) + SymbolsIn(parse, props[|props| - 1])
  }

  /** Every merged text of the series parses. */
  ghost predicate SeriesParses(parse: Parser, text: seq<Line>, props: seq<seq<Line>>, hint: string) {
    forall i :: 0 <= i < |props| ==> MergedParses(parse, MergeSeries(parse, text, props[..i], hint), props[i], hint)
  }

  lemma OnceKeepsUnparsed(parse: Parser, text: seq<Line>, prop: seq<Line>, hint: string)
    ensures parse(prop).None? ==> MergeOnce(parse, text, prop, hint) == text && SymbolsIn(parse, prop) == map[]
  {
  }

  lemma SeriesParsesPrefix(parse: Parser, text: seq<Line>, props: seq<seq<Line>>, hint: string)
    requires props != [] && SeriesParses(parse, text, props, hint)
    ensures SeriesParses(parse, text, props[..|props| - 1], hint)
    ensures MergedParses(parse, MergeSeries(parse, text, props[..|props| - 1], hint), props[|props| - 1], hint)
  {
    hide MergedParses, MergeSeries;
    var n := |props| - 1;
    forall i | 0 <= i < n
      ensures MergedParses(parse, MergeSeries(parse, text, props[..n][..i], hint), props[..n][i], hint)
    {
      assert props[..n][..i] == props[..i];
    }
  }

  /** If every merged text parses, the series gives each name the body of the last proposal
      that has it, and loses none. */
  lemma {:induction false} SeriesOverrides(parse: Parser, text: seq<Line>, props: seq<seq<Line>>, hint: string)
    requires Reads(parse) && parse(text).Some? && SeriesParses(parse, text, props, hint)
    ensures parse(MergeSeries(parse, text, props, hint)).Some?
    ensures SymbolsIn(parse, MergeSeries(parse, text, props, hint)) == Override(parse, SymbolsIn(parse, text), props)
  {
    if props != [] {
      hide Reads, MergedParses, MergeOnce, SymbolsIn, SeriesParses;
      var n := |props| - 1;
      SeriesParsesPrefix(parse, text, props, hint);
      SeriesOverrides(parse, text, props[..n], hint);
      var before := MergeSeries(parse, text, props[..n], hint);
      if parse(props[n]).Some? {
        MergedSymbols(parse, before, props[n], hint);
      } else {
        OnceKeepsUnparsed(parse, before, props[n], hint);
        assert SymbolsIn(parse, before) + map[] == SymbolsIn(parse, before);
      }
    }
  }

  /** Whatever parses: no name of the file or of a proposal is lost, and no other appears. */
  lemma {:induction false} NoNameIsLost(parse: Parser, text: seq<Line>, props: seq<seq<Line>>, hint: string)
    requires Reads(parse) && parse(text).Some?
    ensures parse(MergeSeries(parse, text, props, hint)).Some?
    ensures SymbolsIn(parse, MergeSeries(parse, text, props, hint)).Keys ==
            Override(parse, SymbolsIn(parse, text), props).Keys
  {
    if props != [] {
      hide Reads, MergedParses, MergeOnce, SymbolsIn;
      var n := |props| - 1;
      NoNameIsLost(parse, text, props[..n], hint);
      var before := MergeSeries(parse, text, props[..n], hint);
      var a, b := SymbolsIn(parse, before), SymbolsIn(parse, props[n]);
      if parse(props[n]).None? {
        OnceKeepsUnparsed(parse, before, props[n], hint);
      } else if MergedParses(parse, before, props[n], hint) {
        MergedSymbols(parse, before, props[n], hint);
      } else {
        FallbackSymbols(parse, before, props[n], hint);
        assert (b + a).Keys == (a + b).Keys;
      }
    }
  }

  // ----- The same proposal again -----

  lemma StripStays(e: Doc, p: Doc, hint: string)
    requires WellFormedItems(e.items) && WellFormedItems(p.items) && Extra(e, p, hint) == []
    ensures StripEnd(Render(MergeDoc(e, p, hint))) == Render(MergeDoc(e, p, hint))
  {
    hide Table, RenderItems, StripEnd, MergeDoc, Extra, WellFormedItems, UpdateAll;
    MergeRenders(e, p, hint);
    RenderNothing();
    var stripped := StripEnd(Render(UpdatedDoc(e, p)));
    assert stripped + [] == stripped;
    StripEndTwice(Render(UpdatedDoc(e, p)));
  }

  lemma NoExtraEither(e: Doc, p: Doc, hint: string, hint': string)
    ensures Extra(e, p, hint) == [] <==> Extra(e, p, hint') == []
  {
    hide Extra, Table;
    NoExtraNoNames(e, p, hint);
    NoExtraNoNames(e, p, hint');
  }

  /** After a first merge the proposal has no new names. */
  lemma NothingNewAgain(parse: Parser, text: seq<Line>, prop: seq<Line>, hint: string)
    requires Reads(parse) && parse(text).Some? && parse(prop).Some?
    ensures parse(MergeOnce(parse, text, prop, hint)).Some?
    ensures Extra(parse(MergeOnce(parse, text, prop, hint)).value, parse(prop).value, hint) == []
  {
    hide Reads, MergedParses, MergeOnce, Extra, Table;
    var p, out := parse(prop).value, MergeOnce(parse, text, prop, hint);
    if MergedParses(parse, text, prop, hint) {
      MergedSymbols(parse, text, prop, hint);
    } else {
      FallbackSymbols(parse, text, prop, hint);
    }
    SymbolKeys(parse(out).value.items);
    SymbolKeys(p.items);
    NoExtraNoNames(parse(out).value, p, hint);
  }

  /** A merge that adds no name is final: the same proposal changes nothing after it. */
  lemma FinalAfterUpdate(parse: Parser, text: seq<Line>, prop: seq<Line>, hint: string)
    requires Reads(parse) && parse(text).Some? && parse(prop).Some?
    requires Extra(parse(text).value, parse(prop).value, hint) == []
    ensures var once := MergeOnce(parse, text, prop, hint); MergeOnce(parse, once, prop, hint) == once
  {
    var e, p, once := parse(text).value, parse(prop).value, MergeOnce(parse, text, prop, hint);
    MergeOnceReads(parse, text, prop, hint);
    NoExtraEither(e, p, hint, "");
    if Table(p.items) != map[] && MergedParses(parse, text, prop, hint) {
      MergeOnceReads(parse, once, prop, hint);
      NothingNewAgain(parse, text, prop, hint);
      NoExtraEither(MergeDoc(e, p, hint), p, hint, "");
      MergeAgainExactly(e, p, hint);
      StripStays(e, p, hint);
      hide Table, MergeDoc, Extra, WellFormedItems, Render, MergeOnce;
    }
  }

  /** From the second merge on, the same proposal changes nothing at all. */
  lemma ThirdMergeChangesNothing(parse: Parser, text: seq<Line>, prop: seq<Line>, hint: string)
    requires Reads(parse)
    ensures var twice := MergeOnce(parse, MergeOnce(parse, text, prop, hint), prop, hint);
            MergeOnce(parse, twice, prop, hint) == twice
  {
    if parse(text).Some? && parse(prop).Some? {
      hide Reads, MergeOnce, Extra;
      NothingNewAgain(parse, text, prop, hint);
      FinalAfterUpdate(parse, MergeOnce(parse, text, prop, hint), prop, hint);
    }
  }

  /** Merging the same proposal a second time changes at most trailing white space at the end
      of the file, if and only if the first merge did not strip a proposed last body and
      append new symbols after it, or the text with that body restored does not parse. */
  lemma MergeTwiceExactly(parse: Parser, text: seq<Line>, prop: seq<Line>, hint: string)
    requires Reads(parse) && parse(text).Some? && parse(prop).Some? && MergedParses(parse, text, prop, hint)
    requires Table(parse(prop).value.items) != map[]
    ensures var once := MergeOnce(parse, text, prop, hint);
            StripEnd(MergeOnce(parse, once, prop, hint)) == StripEnd(once) <==>
            !(Respaced(parse(text).value, parse(prop).value, hint) && MergedParses(parse, once, prop, hint))
  {
    var e, p, once := parse(text).value, parse(prop).value, MergeOnce(parse, text, prop, hint);
    MergeOnceReads(parse, text, prop, hint);
    MergeOnceReads(parse, once, prop, hint);
    NothingNewAgain(parse, text, prop, hint);
    NoExtraEither(MergeDoc(e, p, hint), p, hint, "");
    MergeAgainExactly(e, p, hint);
    MergeWellFormed(e, p, hint);
    StripStays(MergeDoc(e, p, hint), p, hint);
    hide Table, MergeDoc, Extra, WellFormedItems, Render, MergeOnce, StripEnd, Respaced;
  }

  /** After a fallback, merging again keeps the symbols, if and only if its merged text does
      not parse either or the two files agree on the names they share; if it does not parse,
      the text stays as it is. */
  lemma FallbackTwiceExactly(parse: Parser, text: seq<Line>, prop: seq<Line>, hint: string)
    requires Reads(parse) && parse(text).Some? && parse(prop).Some? && !MergedParses(parse, text, prop, hint)
    ensures var once := MergeOnce(parse, text, prop, hint);
            && (SymbolsIn(parse, MergeOnce(parse, once, prop, hint)) == SymbolsIn(parse, once) <==>
                !MergedParses(parse, once, prop, hint) || Agree(SymbolsIn(parse, text), SymbolsIn(parse, prop)))
            && (!MergedParses(parse, once, prop, hint) ==> MergeOnce(parse, once, prop, hint) == once)
  {
    hide Reads, MergedParses, MergeOnce, SymbolsIn, Agree, Extra, Table, MergeDoc, AddOnly, Render;
    var once := MergeOnce(parse, text, prop, hint);
    var a, b := SymbolsIn(parse, text), SymbolsIn(parse, prop);
    FallbackSymbols(parse, text, prop, hint);
    AgreeExactly(a, b);
    if MergedParses(parse, once, prop, hint) {
      MergedSymbols(parse, once, prop, hint);
      assert (b + a) + b == a + b;
    } else {
      NothingNewAgain(parse, text, prop, hint);
      NoExtraEither(parse(once).value, parse(prop).value, hint, "");
      MergeOnceReads(parse, once, prop, hint);
    }
  }

  // ----- Decorators -----

  lemma GapsAre(existing: Doc, proposed: Doc, hint: string)
    ensures var m, n := MergeDoc(existing, proposed, hint).items, |existing.items|;
            && |m| >= n && (forall i :: 0 <= i < n ==> m[i].gap == existing.items[i].gap)
            && forall j :: 0 <= j < |m| - n ==>
                 m[n + j].gap == (if j == 0 then StripTail(UpdatedDoc(existing, proposed)) else []) + NewGap(j, hint)
  {
    hide Table, Names, Appended, Without, NewGap, StripEnd, StripTail, Trim, UpdateAll, Attach;
    ExtraIs(existing, proposed, hint);
    UpdateAllAt(existing.items, Table(proposed.items));
    var updated := UpdatedDoc(existing, proposed);
    AttachAt(StripItems(updated), StripTail(updated), Extra(existing, proposed, hint));
    hide Extra;
  }

  lemma SameTail(existing: Doc, proposed: Doc)
    ensures StripTail(UpdatedDoc(existing, proposed)) == StripTail(existing)
  {
    UpdateAllAt(existing.items, Table(proposed.items));
  }

  /** What stands before a new symbol: a blank line, for the first one what is left of the end
      of the file and the merge comment. */
  predicate StandsApart(gap: seq<Line>, end: seq<Line>, first: bool, hint: string) {
    var comment := Line("# -- new symbols merged: " + hint + " --");
    if first then gap == end + (if hint == "" then [EMPTY] else [EMPTY, comment]) else gap == [EMPTY]
  }

  /** Decorators stand before the line at which a statement starts, so they lie in gaps.  An
      updated symbol keeps those of the file, and a new one comes without its own. */
  lemma GapsStay(existing: Doc, proposed: Doc, hint: string)
    ensures var m, n := MergeDoc(existing, proposed, hint).items, |existing.items|;
            && |m| >= n && (forall i :: 0 <= i < n ==> m[i].gap == existing.items[i].gap)
            && forall j :: 0 <= j < |m[n..]| ==> StandsApart(m[n..][j].gap, StripTail(existing), j == 0, hint)
  {
    hide MergeDoc, StripTail, UpdatedDoc, StandsApart, NewGap;
    GapsAre(existing, proposed, hint);
    SameTail(existing, proposed);
    var m, n := MergeDoc(existing, proposed, hint).items, |existing.items|;
    forall j | 0 <= j < |m[n..]| ensures StandsApart(m[n..][j].gap, StripTail(existing), j == 0, hint) {
      assert m[n..][j] == m[n + j];
      GapStandsApart(StripTail(existing), j, hint);
    }
  }

  lemma GapStandsApart(end: seq<Line>, j: nat, hint: string)
    ensures StandsApart((if j == 0 then end else []) + NewGap(j, hint), end, j == 0, hint)
  {
    assert [] + NewGap(j, hint) == NewGap(j, hint);
  }

  predicate SameStatements(a: seq<Item>, b: seq<Item>) {
    |a| == |b| && forall i :: 0 <= i < |a| ==> a[i].stmt == b[i].stmt
  }

  lemma {:induction false} TableOfStatements(a: seq<Item>, b: seq<Item>)
    requires SameStatements(a, b)
    ensures Table(a) == Table(b) && Names(a) == Names(b)
  {
    if a != [] {
      TableOfStatements(a[..|a| - 1], b[..|b| - 1]);
    }
  }

  /** What a proposal has between its statements, decorators included, has no effect. */
  lemma ProposedGapsDoNotMatter(existing: Doc, proposed: Doc, proposed': Doc, hint: string)
    requires SameStatements(proposed.items, proposed'.items)
    ensures MergeDoc(existing, proposed, hint) == MergeDoc(existing, proposed', hint)
    ensures AddOnly(existing, proposed) == AddOnly(existing, proposed')
  {
    TableOfStatements(proposed.items, proposed'.items);
  }

  // ----- An update that does not parse -----

  function Single(gap: seq<Line>, name: string, line: Line): Doc { Doc([Item(gap, Stmt(Some(name), [line]))], []) }

  /** A parser that knows two texts, each defining the symbol: once as a line below a
      decorator, once as a line that must not follow one. */
  function Picky(name: string, decorator: Line, def: Line, assignment: Line): Parser {
    (text: seq<Line>) =>
      if text == [decorator, def] then Some(Single([decorator], name, def))
      else if text == [assignment] then Some(Single([], name, assignment))
      else None
  }

  predicate Tidy(line: Line) { RStrip(line) == line && !Blank(line) }

  lemma SingleIs(gap: seq<Line>, name: string, line: Line)
    requires Tidy(line)
    ensures var d := Single(gap, name, line);
            && Render(d) == gap + [line]
            && Table(d.items) == map[name := [line]] && Symbols(d.items) == map[name := [line]]
            && StripItems(d) == d.items && StripTail(d) == [] && WellFormedItems(d.items)
  {
    var it := Item(gap, Stmt(Some(name), [line]));
    RenderOne(it);
    TableOfLast([], it);
    assert [] + [it] == [it];
    assert Trim([line]) == [line];
    NothingStrips();
  }

  lemma MergeSingles(gap: seq<Line>, gap': seq<Line>, name: string, line: Line, line': Line, hint: string)
    requires Tidy(line) && Tidy(line')
    ensures var d, d' := Single(gap, name, line), Single(gap', name, line');
            MergeDoc(d, d', hint) == Single(gap, name, line') && AddOnly(d, d') == d && Extra(d, d', hint) == []
  {
    var d, d' := Single(gap, name, line), Single(gap', name, line');
    SingleIs(gap, name, line);
    SingleIs(gap', name, line');
    SingleIs(gap, name, line');
    NoExtraNoNames(d, d', hint);
    NoExtraNoNames(d, d', "");
    UpdateAllAt(d.items, Table(d'.items));
    hide Table, StripItems, StripTail, Extra, UpdateAll, Render, Tidy;
  }

  lemma PickyKnows(name: string, decorator: Line, def: Line, assignment: Line)
    ensures var parse := Picky(name, decorator, def, assignment);
            && parse([decorator, def]) == Some(Single([decorator], name, def))
            && parse([assignment]) == Some(Single([], name, assignment))
            && (forall text :: parse(text).Some? ==> text == [decorator, def] || text == [assignment])
            && (def != assignment ==> parse([def]) == None && parse([decorator, assignment]) == None)
  {
    assert [decorator, def][1] == def && [decorator, assignment][1] == assignment;
    assert [def][0] == def && |[decorator, def]| == 2 && |[def]| == 1;
    hide Single;
  }

  lemma SingleReadsBack(parse: Parser, gap: seq<Line>, gap': seq<Line>, name: string, line: Line, line': Line,
                        hint: string)
    requires Tidy(line) && Tidy(line')
    requires parse(gap + [line]) == Some(Single(gap, name, line))
    requires parse(gap' + [line']) == Some(Single(gap', name, line'))
    requires parse(gap + [line']).Some? ==> parse(gap + [line']) == Some(Single(gap, name, line'))
    ensures ReadsBack(parse, gap + [line], gap' + [line'], hint)
  {
    hide Single, Tidy, MergeDoc, AddOnly, Render, Extra, StripItems, StripTail, Table, Symbols, WellFormedItems;
    MergeSingles(gap, gap', name, line, line', hint);
    SingleIs(gap, name, line);
    SingleIs(gap, name, line');
  }

  lemma PickyReads(name: string, decorator: Line, def: Line, assignment: Line)
    requires Tidy(def) && Tidy(assignment) && def != assignment
    ensures Reads(Picky(name, decorator, def, assignment))
  {
    hide Single, Tidy, MergeDoc, AddOnly, Render, StripItems, StripTail, Table, Symbols, WellFormedItems, ReadsBack,
         Picky;
    var parse := Picky(name, decorator, def, assignment);
    PickyKnows(name, decorator, def, assignment);
    SingleIs([decorator], name, def);
    SingleIs([], name, assignment);
    assert [decorator] + [def] == [decorator, def] && [] + [assignment] == [assignment];
    assert [decorator] + [assignment] == [decorator, assignment] && [] + [def] == [def];
    forall text, prop, hint ensures ReadsBack(parse, text, prop, hint) {
      SingleReadsBack(parse, [decorator], [decorator], name, def, def, hint);
      SingleReadsBack(parse, [decorator], [], name, def, assignment, hint);
      SingleReadsBack(parse, [], [decorator], name, assignment, def, hint);
      SingleReadsBack(parse, [], [], name, assignment, assignment, hint);
      UnreadIsFine(parse, text, prop, hint);
    }
  }

  lemma UnreadIsFine(parse: Parser, text: seq<Line>, prop: seq<Line>, hint: string)
    ensures parse(text).None? || parse(prop).None? ==> ReadsBack(parse, text, prop, hint)
  {
  }

  /** The override does fail: a decorated function stays when the proposal makes an assignment
      of it, because the merged text does not parse. */
  lemma DecoratedIsKept(name: string, decorator: Line, def: Line, assignment: Line, hint: string)
    requires Tidy(def) && Tidy(assignment) && def != assignment
    ensures var parse := Picky(name, decorator, def, assignment);
            && Reads(parse) && MergeOnce(parse, [decorator, def], [assignment], hint) == [decorator, def]
            && SymbolsIn(parse, [decorator, def]) == map[name := [def]]
            && SymbolsIn(parse, [assignment]) == map[name := [assignment]]
  {
    hide Single, Tidy, MergeDoc, AddOnly, Render, StripItems, StripTail, Table, Symbols, WellFormedItems, Picky, Reads,
         Extra, MergeOnce;
    var parse := Picky(name, decorator, def, assignment);
    PickyReads(name, decorator, def, assignment);
    PickyKnows(name, decorator, def, assignment);
    SingleIs([decorator], name, def);
    SingleIs([decorator], name, assignment);
    SingleIs([], name, assignment);
    assert [decorator] + [assignment] == [decorator, assignment];
    MergeSingles([decorator], [], name, def, assignment, hint);
    MergeSingles([decorator], [], name, def, assignment, "");
    MergeOnceReads(parse, [decorator, def], [assignment], hint);
    assert name in map[name := [assignment]];
  }
}
