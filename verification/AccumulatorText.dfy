/** The merged file statement by statement, on indices of the two files, and character by
    character, as the program joins it. */
module AccumulatorText {
  import opened Wrappers
  import opened Text
  import opened Accumulator
  import opened AccumulatorOrder
  import opened AccumulatorMerge

  // ----- New symbols -----

  function StmtsOf(items: seq<Item>): seq<Stmt> { seq(|items|, i requires 0 <= i < |items| => items[i].stmt) }

  predicate Listed(stmts: seq<Stmt>, k: string) { exists i :: 0 <= i < |stmts| && stmts[i].name == Some(k) }

  /** The statements are the symbols that only the proposal defines, each once, with its
      last body, and in the order in which the proposal first defines them. */
  ghost predicate AddsInOrder(added: seq<Stmt>, existing: seq<Item>, proposed: seq<Item>) {
    && (forall i :: 0 <= i < |added| ==> added[i].name.Some?)
    && (forall k :: Listed(added, k) <==> Defined(proposed, k) && !Defined(existing, k))
    && (forall i, a :: 0 <= i < |added| && DefinedLast(proposed, a, added[i].name.value) ==>
          added[i].body == proposed[a].stmt.body)
    && (forall i, j :: 0 <= i < j < |added| ==> added[i].name != added[j].name)
    && (forall i, j :: 0 <= i < j < |added| ==> ComesFirst(proposed, added[i].name.value, added[j].name.value))
  }

  lemma ExtraAre(e: Doc, p: Doc, hint: string)
    ensures var names, added := Without(Names(p.items), Table(e.items)), StmtsOf(Extra(e, p, hint));
            && |added| == |names|
            && (forall i :: 0 <= i < |names| ==> names[i] in Table(p.items))
            && (forall i :: 0 <= i < |names| ==> added[i] == Stmt(Some(names[i]), Table(p.items)[names[i]]))
            && (forall k :: k in names <==> Defined(p.items, k) && !Defined(e.items, k))
  {
    hide Table, Names, Without, Appended, NewGap, Defined, DefinedLast;
    ExtraIs(e, p, hint);
    TableIsLast(e.items);
    TableIsLast(p.items);
  }

  lemma ExtraInOrder(e: Doc, p: Doc, hint: string)
    ensures AddsInOrder(StmtsOf(Extra(e, p, hint)), e.items, p.items)
  {
    hide Table, Names, Without, ComesFirst, Extra, Defined, DefinedLast;
    var added, names := StmtsOf(Extra(e, p, hint)), Without(Names(p.items), Table(e.items));
    ExtraAre(e, p, hint);
    TableIsLast(p.items);
    forall k ensures Listed(added, k) <==> k in names {
      if k in names {
        var i :| 0 <= i < |names| && names[i] == k;
        assert added[i].name == Some(k);
      }
    }
    forall i, j | 0 <= i < j < |added|
      ensures names[i] != names[j] && ComesFirst(p.items, names[i], names[j])
    {
      var a, b := WithoutInOrder(Names(p.items), Table(e.items), i, j);
      NamesInOrder(p.items, a, b);
    }
  }

  lemma AttachAdds(items: seq<Item>, rest: seq<Line>, extra: seq<Item>)
    ensures var m := Attach(items, rest, extra).items;
            |m| >= |items| && StmtsOf(m[|items|..]) == StmtsOf(extra)
  {
    AttachAt(items, rest, extra);
    hide Attach;
    var m := Attach(items, rest, extra).items;
    forall i | 0 <= i < |extra| ensures StmtsOf(m[|items|..])[i] == StmtsOf(extra)[i] {
      assert m[|items| + i].stmt == extra[i].stmt;
    }
  }

  /** Both merges append the new symbols in the order of the proposal. */
  lemma MergeAddsInOrder(e: Doc, p: Doc, hint: string)
    ensures var m := MergeDoc(e, p, hint).items;
            |m| >= |e.items| && AddsInOrder(StmtsOf(m[|e.items|..]), e.items, p.items)
    ensures var m := AddOnly(e, p).items;
            |m| >= |e.items| && AddsInOrder(StmtsOf(m[|e.items|..]), e.items, p.items)
  {
    hide Attach, AddsInOrder, Extra, StripEnd, Trim, UpdateAll, Table, StmtsOf;
    UpdateAllAt(e.items, Table(p.items));
    ExtraInOrder(e, p, hint);
    ExtraInOrder(e, p, "");
    var updated := UpdatedDoc(e, p);
    AttachAdds(StripItems(updated), StripTail(updated), Extra(e, p, hint));
    AttachAdds(StripItems(e), StripTail(e), Extra(e, p, ""));
  }

  // ----- What stays -----

  /** The body, or that body without trailing white space if it ends the file. */
  predicate SameBody(body: seq<Line>, body': seq<Line>, last: bool) { body == body' || (last && body == Trim(body')) }

  /** The i-th statement keeps its gap and its name, and its body unless the proposal defines
      that name; then it has the proposal's last body. */
  ghost predicate StaysAt(m: seq<Item>, existing: seq<Item>, proposed: seq<Item>, i: nat)
    requires i < |m| && i < |existing|
  {
    var stmt, last := existing[i].stmt, i == |existing| - 1;
    && m[i].gap == existing[i].gap && m[i].stmt.name == stmt.name
    && (stmt.name.Some? && Defined(proposed, stmt.name.value) ==>
          forall a :: DefinedLast(proposed, a, stmt.name.value) ==>
            SameBody(m[i].stmt.body, proposed[a].stmt.body, last))
    && (stmt.name.None? || !Defined(proposed, stmt.name.value) ==> SameBody(m[i].stmt.body, stmt.body, last))
  }

  /** Existing statements stay where they are: unnamed ones and those that the proposal does
      not define as they were, the others with the proposal's body. */
  lemma MergeKeepsExactly(e: Doc, p: Doc, hint: string)
    ensures var m := MergeDoc(e, p, hint).items;
            |m| >= |e.items| && forall i :: 0 <= i < |e.items| ==> StaysAt(m, e.items, p.items, i)
  {
    hide Table, Names, Without, Trim, MergeDoc, DefinedLast, Defined;
    TableIsLast(p.items);
    MergeKeepsStatements(e, p, hint);
    var m := MergeDoc(e, p, hint).items;
    forall i | 0 <= i < |e.items| ensures StaysAt(m, e.items, p.items, i) {
      StaysExactly(m, e.items, p.items, i);
    }
  }

  lemma StaysExactly(m: seq<Item>, existing: seq<Item>, proposed: seq<Item>, i: nat)
    requires i < |existing| <= |m|
    requires var it := Updated(existing[i], Table(proposed));
             m[i] == it || (i == |existing| - 1 && m[i] == TrimItem(it))
    ensures StaysAt(m, existing, proposed, i)
  {
    hide Table, Trim;
    TableIsLast(proposed);
  }

  // ----- The file with the proposal's bodies -----

  /** A statement with the proposal's last body of its name, or as it is. */
  ghost predicate TakesAt(it: Item, was: Item, proposed: seq<Item>) {
    && it.gap == was.gap && it.stmt.name == was.stmt.name
    && (forall k, a :: Defines(was, k) && DefinedLast(proposed, a, k) ==> it.stmt.body == proposed[a].stmt.body)
    && ((forall k :: Defines(was, k) ==> !Defined(proposed, k)) ==> it.stmt.body == was.stmt.body)
  }

  /** The existing file with each statement that the proposal defines replaced. */
  ghost predicate Takes(u: Doc, e: Doc, p: Doc) {
    && u.tail == e.tail && |u.items| == |e.items|
    && forall i :: 0 <= i < |e.items| ==> TakesAt(u.items[i], e.items[i], p.items)
  }

  lemma TakesOne(it: Item, was: Item, proposed: seq<Item>)
    ensures TakesAt(it, was, proposed) <==> it == Updated(was, Table(proposed))
  {
    hide Table, Defined, DefinedLast;
    TableIsLast(proposed);
    if was.stmt.name.Some? {
      var k := was.stmt.name.value;
      assert Defines(was, k);
      if Defined(proposed, k) {
        var a := HasLast(proposed, k);
        LastInRange(proposed, a, k);
      }
    }
  }

  lemma LastInRange(items: seq<Item>, a: int, k: string)
    requires DefinedLast(items, a, k)
    ensures 0 <= a < |items|
  {
  }

  /** There is exactly one such file. */
  lemma TakesUnique(u: Doc, e: Doc, p: Doc)
    ensures Takes(u, e, p) <==> u == UpdatedDoc(e, p)
  {
    hide TakesAt, Updated, Table;
    UpdateAllAt(e.items, Table(p.items));
    hide UpdateAll;
    forall i | 0 <= i < |e.items| && i < |u.items|
      ensures TakesAt(u.items[i], e.items[i], p.items) <==> u.items[i] == Updated(e.items[i], Table(p.items))
    {
      TakesOne(u.items[i], e.items[i], p.items);
    }
  }

  // ----- Characters -----

  /** The text of a list of lines. */
  function Join(lines: seq<Line>): string {
    if lines == [] then ""
    else if |lines| == 1 then lines[0].text
    else Join(lines[..|lines| - 1]) + "\n" + lines[|lines| - 1].text
  }

  /** A text without white space at its end, line breaks included. */
  function RStripped(s: string): string {
    if s != "" && (IsBlank(s[|s| - 1]) || s[|s| - 1] == '\n') then RStripped(s[..|s| - 1]) else s
  }

  predicate Unbroken(lines: seq<Line>) { forall l :: l in lines ==> '\n' !in l.text }

  lemma {:induction false} JoinConcat(a: seq<Line>, b: seq<Line>)
    requires a != [] && b != []
    ensures Join(a + b) == Join(a) + "\n" + Join(b)
  {
    var n := |b| - 1;
    assert (a + b)[..|a + b| - 1] == a + b[..n];
    if n == 0 {
      assert a + b[..n] == a;
    } else {
      JoinConcat(a, b[..n]);
    }
  }

  /** Stripping a text that ends in a line. */
  lemma {:induction false} RStrippedLine(a: string, line: string)
    requires '\n' !in line
    ensures RStripped(a + line) == if StripRight(line) == "" then RStripped(a) else a + StripRight(line)
  {
    if line == "" {
      assert a + line == a;
    } else {
      var n := |line| - 1;
      assert (a + line)[..|a + line| - 1] == a + line[..n];
      if IsBlank(line[n]) {
        RStrippedLine(a, line[..n]);
      } else {
        assert line[n] in line;
      }
    }
  }

  /** Stripping lines at the end is stripping their text. */
  lemma {:induction false} StripEndIsRStrip(lines: seq<Line>)
    requires Unbroken(lines)
    ensures StripEnd(lines) != [] && Join(StripEnd(lines)) == RStripped(Join(lines))
  {
    if lines != [] {
      var n := |lines| - 1;
      var before, line := lines[..n], lines[n];
      assert line in lines;
      StripEndIsRStrip(before);
      if n == 0 {
        RStrippedLine("", line.text);
        assert "" + line.text == line.text && "" + StripRight(line.text) == StripRight(line.text);
        assert before == [] && [] + [RStrip(line)] == [RStrip(line)];
      } else {
        var front := Join(before) + "\n";
        assert Join(lines) == front + line.text;
        RStrippedLine(front, line.text);
        assert front[..|front| - 1] == Join(before);
        JoinConcat(before, [RStrip(line)]);
      }
    }
  }

  lemma JoinAfterBlank(base: seq<Line>, body: seq<Line>)
    requires base != [] && body != []
    ensures Join(base + [EMPTY] + body) == Join(base) + "\n\n" + Join(body)
  {
    JoinConcat(base + [EMPTY], body);
    JoinConcat(base, [EMPTY]);
    hide Join;
    var a, b := Join(base), Join(body);
    assert (a + "\n" + "") + "\n" + b == a + "\n\n" + b;
  }

  lemma JoinAfterComment(base: seq<Line>, comment: string, body: seq<Line>)
    requires base != [] && body != []
    ensures Join(base + [EMPTY, Line(comment)] + body) == Join(base) + "\n\n" + comment + "\n" + Join(body)
  {
    JoinConcat(base + [EMPTY, Line(comment)], body);
    JoinAfterBlank(base, [Line(comment)]);
    assert base + [EMPTY, Line(comment)] == base + [EMPTY] + [Line(comment)];
  }

  /** What stands before the n-th new symbol. */
  function Separator(n: nat, hint: string): string {
    if n == 0 && hint != "" then "\n\n" + ("# -- new symbols merged: " + hint + " --") + "\n" else "\n\n"
  }

  lemma JoinBlock(base: seq<Line>, n: nat, hint: string, body: seq<Line>)
    requires base != [] && body != []
    ensures Join(base + NewGap(n, hint) + body) == Join(base) + Separator(n, hint) + Join(body)
  {
    hide Join;
    JoinAfterBlank(base, body);
    var comment := "# -- new symbols merged: " + hint + " --";
    JoinAfterComment(base, comment, body);
    Associate(Join(base), "\n\n", comment, "\n", Join(body));
  }

  lemma Associate(a: string, b: string, c: string, d: string, e: string)
    ensures a + b + c + d + e == a + (b + c + d) + e
  {
  }

  /** Blocks in order, each after its separator. */
  function Suffix(hint: string, bodies: seq<seq<Line>>): string {
    if bodies == [] then ""
    else
      var n := |bodies| - 1;
      Suffix(hint, bodies[..n]) + Separator(n, hint) + Join(bodies[n])
  }

  function BodiesOf(items: seq<Item>): seq<seq<Line>> {
    seq(|items|, i requires 0 <= i < |items| => items[i].stmt.body)
  }

  lemma Reassociate<T>(a: seq<T>, b: seq<T>, c: seq<T>, d: seq<T>)
    ensures a + b + c + d == a + (b + c + d)
  {
  }

  lemma RenderFrom(base: seq<Line>, items: seq<Item>)
    requires items != []
    ensures var n := |items| - 1;
            base + RenderItems(items) == base + RenderItems(items[..n]) + items[n].gap + items[n].stmt.body
  {
    var n := |items| - 1;
    var front := RenderItems(items[..n]);
    assert RenderItems(items) == front + items[n].gap + items[n].stmt.body;
    hide RenderItems;
    Reassociate(base, front, items[n].gap, items[n].stmt.body);
  }

  lemma SuffixNext(hint: string, items: seq<Item>)
    requires items != []
    ensures var n := |items| - 1;
            Suffix(hint, BodiesOf(items)) ==
            Suffix(hint, BodiesOf(items[..n])) + Separator(n, hint) + Join(items[n].stmt.body)
  {
    hide Join, Separator;
    var n := |items| - 1;
    assert BodiesOf(items)[..n] == BodiesOf(items[..n]);
  }

  lemma {:induction false} JoinExtra(base: seq<Line>, extra: seq<Item>, hint: string)
    requires base != []
    requires forall i :: 0 <= i < |extra| ==> extra[i].gap == NewGap(i, hint) && extra[i].stmt.body != []
    ensures Join(base + RenderItems(extra)) == Join(base) + Suffix(hint, BodiesOf(extra))
  {
    if extra == [] {
      RenderNothing();
      assert base + [] == base && BodiesOf(extra) == [];
      assert Join(base) + "" == Join(base);
    } else {
      hide NewGap, Join, Suffix, Separator, RenderItems, BodiesOf;
      var n := |extra| - 1;
      JoinExtra(base, extra[..n], hint);
      RenderFrom(base, extra);
      SuffixNext(hint, extra);
      JoinBlock(base + RenderItems(extra[..n]), n, hint, extra[n].stmt.body);
      Reassociate(Join(base), Suffix(hint, BodiesOf(extra[..n])), Separator(n, hint), Join(extra[n].stmt.body));
    }
  }

  lemma BodiesNotEmpty(items: seq<Item>)
    requires WellFormedItems(items)
    ensures forall i :: 0 <= i < |items| ==> items[i].stmt.body != []
  {
  }

  lemma JoinNew(base: seq<Line>, e: Doc, p: Doc, hint: string)
    requires base != [] && WellFormedItems(p.items)
    ensures Join(base + RenderItems(Extra(e, p, hint))) == Join(base) + Suffix(hint, BodiesOf(Extra(e, p, hint)))
  {
    hide Join, RenderItems, WellFormedItems, Suffix, NewGap, Table, Names, Without, Appended;
    ExtraIs(e, p, hint);
    ExtraWellFormed(e, p, hint);
    hide Extra;
    BodiesNotEmpty(Extra(e, p, hint));
    JoinExtra(base, Extra(e, p, hint), hint);
  }

  lemma BodiesOfStmts(a: seq<Item>, b: seq<Item>)
    requires StmtsOf(a) == StmtsOf(b)
    ensures BodiesOf(a) == BodiesOf(b)
  {
    assert |StmtsOf(a)| == |a| && |StmtsOf(b)| == |b|;
    forall i | 0 <= i < |a| ensures a[i].stmt == b[i].stmt {
      assert StmtsOf(a)[i] == StmtsOf(b)[i];
    }
  }

  lemma NewBodies(e: Doc, p: Doc, hint: string)
    ensures var m := MergeDoc(e, p, hint).items;
            |m| >= |e.items| && BodiesOf(m[|e.items|..]) == BodiesOf(Extra(e, p, hint))
    ensures var m := AddOnly(e, p).items;
            |m| >= |e.items| && BodiesOf(m[|e.items|..]) == BodiesOf(Extra(e, p, ""))
  {
    hide Attach, Extra, StripEnd, Trim, UpdateAll, Table, StmtsOf, BodiesOf;
    UpdateAllAt(e.items, Table(p.items));
    var updated := UpdatedDoc(e, p);
    AttachAdds(StripItems(updated), StripTail(updated), Extra(e, p, hint));
    AttachAdds(StripItems(e), StripTail(e), Extra(e, p, ""));
    BodiesOfStmts(MergeDoc(e, p, hint).items[|e.items|..], Extra(e, p, hint));
    BodiesOfStmts(AddOnly(e, p).items[|e.items|..], Extra(e, p, ""));
  }

  /** The characters of a merged file: the text with the proposal's bodies in place, stripped
      at its end, then the new symbols with blank lines or the merge comment before them. */
  lemma MergedText(e: Doc, p: Doc, hint: string, u: Doc)
    requires WellFormedItems(e.items) && WellFormedItems(p.items) && Takes(u, e, p) && Unbroken(Render(u))
    ensures var m := MergeDoc(e, p, hint);
            |m.items| >= |e.items| &&
            Join(Render(m)) == RStripped(Join(Render(u))) + Suffix(hint, BodiesOf(m.items[|e.items|..]))
  {
    hide Join, RenderItems, StripEnd, Unbroken, WellFormedItems, MergeDoc, UpdateAll, Suffix, Extra, BodiesOf;
    TakesUnique(u, e, p);
    hide Takes;
    MergeRenders(e, p, hint);
    StripEndIsRStrip(Render(u));
    JoinNew(StripEnd(Render(u)), e, p, hint);
    NewBodies(e, p, hint);
  }

  /** The fallback keeps the existing text and adds the new symbols without the comment. */
  lemma AddOnlyText(src: Source, p: Doc)
    requires Spanned(src) && WellFormedItems(DocOf(src).items) && WellFormedItems(p.items) && Unbroken(src.lines)
    ensures var m, n := AddOnly(DocOf(src), p), |DocOf(src).items|;
            |m.items| >= n &&
            Join(Render(m)) == RStripped(Join(src.lines)) + Suffix("", BodiesOf(m.items[n..]))
  {
    hide Join, RenderItems, StripEnd, Unbroken, WellFormedItems, AddOnly, Suffix, Extra, BodiesOf, DocOf;
    AddOnlyRenders(src, p);
    StripEndIsRStrip(src.lines);
    JoinNew(StripEnd(src.lines), DocOf(src), p, "");
    NewBodies(DocOf(src), p, "");
  }

  // ----- Which text is returned -----

  predicate Adds(e: Doc, p: Doc, k: string) { Defined(p.items, k) && !Defined(e.items, k) }

  /** A file is left alone if nothing is proposed; otherwise the merge is returned if it
      parses, and if not the fallback, which needs a new symbol. */
  lemma MergeReturns(e: Doc, p: Doc, hint: string, parses: seq<Line> -> bool)
    ensures var out, text := MergeText(e, p, hint, parses), Render(MergeDoc(e, p, hint));
            && ((forall k :: !Defined(p.items, k)) ==> out == Unchanged)
            && ((exists k :: Defined(p.items, k)) && parses(text) ==> out == Rewritten(text))
            && ((exists k :: Adds(e, p, k)) && !parses(text) ==> out == Rewritten(Render(AddOnly(e, p))))
            && ((forall k :: !Adds(e, p, k)) && !parses(text) ==> out == Unchanged)
  {
    hide MergeDoc, AddOnly, Render, Defined, Table, Names, Without, Appended, NewGap;
    TableIsLast(p.items);
    TableIsLast(e.items);
    var names := Without(Names(p.items), Table(e.items));
    ExtraIs(e, p, "");
    HasMember(names);
    hide Extra;
    if k :| Defined(p.items, k) {
      assert k in Table(p.items);
    }
    if k :| Adds(e, p, k) {
      assert k in names;
    }
    if names != [] {
      assert Adds(e, p, names[0]);
    }
    if Table(p.items) != map[] {
      var k :| k in Table(p.items);
      assert Defined(p.items, k);
    }
  }
}
