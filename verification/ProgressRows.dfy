/** Progress files as lists of rows: what each row prints to, how the parser reads it
    back, and how the updaters and the repairer change it. */
module ProgressRows {
  import opened Wrappers
  import opened Text
  import opened Progress
  import opened ProgressLines

  /** One line of a progress file.  A damaged step row has lost its tag. */
  datatype Row =
    | Updated(value: string)
    | ActiveMilestone(value: string)
    | ActiveStep(value: string)
    | Other(text: string)
    | Milestone(id: string, title: string, status: Status)
    | Step(mid: string, k: nat, status: Status, damaged: bool)

  function PrintRow(row: Row): string {
    match row
    case Updated(value) => HeaderLine("Last updated", value)
    case ActiveMilestone(value) => HeaderLine("Active milestone", value)
    case ActiveStep(value) => HeaderLine("Active step", value)
    case Other(text) => text
    case Milestone(id, title, st) => MilestoneLine(id, title, st)
    case Step(mid, k, st, damaged) =>
      if k >= STEPS then "" else if damaged then DamagedLine(k, st) else StepLine(mid, k, st)
  }

  function Print(rows: seq<Row>): seq<string> {
    seq(|rows|, i requires 0 <= i < |rows| => PrintRow(rows[i]))
  }

  // ----- Well-formed rows -----

  function DigitsOf(id: string): nat { if id == "" then 0 else Run(id[1..], IsDigit) }

  /** A milestone id: M, digits and at most one capital letter. */
  predicate GoodId(id: string) {
    && id != "" && id[0] == 'M' && DigitsOf(id) > 0
    && (|id| == 1 + DigitsOf(id) || (|id| == 2 + DigitsOf(id) && 'A' <= id[|id| - 1] <= 'Z'))
  }

  /** An id that the repairer recognises: no letter at the end. */
  predicate Numeric(id: string) { |id| == 1 + DigitsOf(id) }

  ghost predicate GoodValue(value: string) { Tight(value) && forall i :: 0 <= i < |value| ==> value[i] != '[' }

  /** A line that is neither a tagged line nor one of the three known headers. */
  ghost predicate GoodOther(text: string) {
    && (forall i :: 0 <= i < |text| ==> text[i] != '[')
    && (text == "" || (text[0] == '#' && !IsBlank(text[|text| - 1])))
    && !Starts(text, "# Last updated:") && !Starts(text, "# Active step:")
    && (HeaderOf(text).Some? ==> HeaderOf(text).value.0 !in ["last updated", "active milestone", "active step"])
  }

  ghost predicate GoodRow(row: Row) {
    match row
    case Updated(value) => GoodValue(value)
    case ActiveMilestone(value) => GoodValue(value)
    case ActiveStep(value) => GoodValue(value)
    case Other(text) => GoodOther(text)
    case Milestone(id, title, st) => GoodId(id) && GoodTitle(title) && GoodStatus(st)
    case Step(mid, k, st, damaged) => GoodId(mid) && k < STEPS && GoodStatus(st) && (damaged ==> st == Done)
  }

  lemma {:induction false} RunHolds(s: string, p: char -> bool)
    ensures forall i :: 0 <= i < Run(s, p) ==> p(s[i])
  {
    if s != "" && p(s[0]) {
      RunHolds(s[1..], p);
      forall i | 0 <= i < Run(s, p) ensures p(s[i]) {
        if i > 0 {
          assert s[i] == s[1..][i - 1];
        }
      }
    }
  }

  lemma IdChars(id: string)
    requires GoodId(id)
    ensures forall i :: 0 <= i < |id| ==> IsAlnum(id[i])
    ensures forall i :: 1 <= i < 1 + DigitsOf(id) ==> IsDigit(id[i])
    ensures GoodTag(id)
  {
    RunHolds(id[1..], IsDigit);
    forall i | 1 <= i < 1 + DigitsOf(id) ensures IsDigit(id[i]) {
      assert id[i] == id[1..][i - 1];
    }
  }

  lemma StepTagGood(mid: string, k: nat)
    requires GoodId(mid) && k < STEPS
    ensures GoodTag(StepTag(mid, k))
  {
    IdChars(mid);
  }

  /** Step tags of good ids determine their parts, and are no milestone tags. */
  lemma StepTagsDiffer(mid: string, k: nat, mid': string, k': nat)
    requires GoodId(mid) && GoodId(mid') && k < STEPS && k' < STEPS
    ensures StepTag(mid, k) == StepTag(mid', k') <==> mid == mid' && k == k'
    ensures StepTag(mid, k) != mid'
  {
    IdChars(mid);
    IdChars(mid');
    var a, b := StepTag(mid, k), StepTag(mid', k');
    assert a[|mid|] == '-' && b[|mid'|] == '-';
    assert a[..|mid|] == mid && b[..|mid'|] == mid';
    assert a[|mid| + 1..] == StepId(k) && b[|mid'| + 1..] == StepId(k');
    StepIdsDiffer(k, k');
    if |mid| < |mid'| {
      assert b[|mid|] == mid'[|mid|];
    } else if |mid'| < |mid| {
      assert a[|mid'|] == mid[|mid'|];
    }
    assert a[|mid|] == '-' && !IsAlnum('-');
  }

  lemma StepIdsDiffer(k: nat, k': nat)
    requires k < STEPS && k' < STEPS
    ensures StepId(k) == StepId(k') <==> k == k'
    ensures StepId(k) == ['S', ('1' as int + k) as char]
  {
  }

  // ----- Reading rows back -----

  /** A header line gives its key in lower case and its stripped value. */
  lemma HeaderParts(key: string, value: string)
    requires Tight(key) && forall i :: 0 <= i < |key| ==> IsKeyChar(key[i])
    ensures HeaderOf(HeaderLine(key, value)) == Some((Lower(key), Strip(" " + value)))
  {
    var line := HeaderLine(key, value);
    var rest := key + ": " + value;
    assert line[1..] == " " + rest && line[..1] == "#";
    assert rest[0] == key[0];
    RunIs(" ", rest, IsBlank);
    assert line[2..] == rest;
    assert rest == key + (": " + value);
    RunIs(key, ": " + value, IsKeyChar);
    assert rest[..|key|] == key && rest[|key| + 1..] == " " + value;
    StripSpaces(0, key, 0);
    assert Spaces(0) + key + Spaces(0) == key;
  }

  lemma ReadHeader(key: string, value: string)
    requires Tight(key) && (forall i :: 0 <= i < |key| ==> IsKeyChar(key[i])) && Tight(value)
    ensures HeaderOf(HeaderLine(key, value)) == Some((Lower(key), value))
  {
    hide HeaderOf, HeaderLine, Lower;
    HeaderParts(key, value);
    StripSpaces(1, value, 0);
    assert Spaces(1) + value + Spaces(0) == " " + value;
  }

  lemma IdLengthIs(id: string, rest: string)
    requires GoodId(id)
    ensures IdLength(id + "]" + rest) == |id|
  {
    IdChars(id);
    var s, d := id + "]" + rest, DigitsOf(id);
    assert s[1..] == id[1..1 + d] + (id[1 + d..] + "]" + rest);
    RunIs(id[1..1 + d], id[1 + d..] + "]" + rest, IsDigit);
  }

  /** A line that starts with neither # nor [ is no header and no milestone. */
  lemma FirstCharDecides(line: string)
    ensures line != "" && line[0] != '#' ==> HeaderOf(line) == None
    ensures line != "" && line[0] != '[' ==> MilestoneOf(line) == None
  {
    if line != "" {
      assert line[..1][0] == line[0];
    }
  }

  lemma MilestoneShape(id: string, rest: string)
    requires GoodId(id)
    ensures var line := Tag(id) + rest;
            && line[0] == '[' && Starts(line, "[") && |line| >= |id| + 2
            && IdLength(line[1..]) == |id| && line[1 + |id|] == ']' && line[1..1 + |id|] == id
  {
    hide IdLength;
    var line := Tag(id) + rest;
    assert line[1..] == id + "]" + rest;
    IdLengthIs(id, rest);
    assert line[..1] == "[";
  }

  lemma ReadMilestone(id: string, title: string, st: Status)
    requires GoodId(id) && GoodTitle(title) && GoodStatus(st)
    ensures HeaderOf(MilestoneLine(id, title, st)) == None
    ensures MilestoneOf(MilestoneLine(id, title, st)) == Some((id, title, st))
  {
    hide GoodTitle, GoodStatus, StatusText, Cell, FieldAndStatus, GoodId, HeaderOf, IdLength, Starts, After;
    var line, text := MilestoneLine(id, title, st), StatusText(st);
    FieldParsed(Tag(id), title, 58, st);
    IdNotEmpty(id);
    FirstCharDecides(line);
    CellSplit(Tag(id), title, 58, text);
    MilestoneShape(id, After(title, 58, text));
  }

  lemma IdNotEmpty(id: string)
    requires GoodId(id)
    ensures |id| > 1
  {
  }

  lemma TwoBlanks(rest: string)
    ensures Run("  [" + rest, IsBlank) == 2
  {
    RunIs("  ", "[" + rest, IsBlank);
    assert "  " + ("[" + rest) == "  [" + rest;
  }

  lemma AlnumRun(mid: string, rest: string)
    requires GoodId(mid)
    ensures Run(mid + "-" + rest, IsAlnum) == |mid|
  {
    IdChars(mid);
    RunIs(mid, "-" + rest, IsAlnum);
    assert mid + ("-" + rest) == mid + "-" + rest;
  }

  lemma OneDigit(k: nat, rest: string)
    requires k < STEPS
    ensures Run([('1' as int + k) as char] + "]" + rest, IsDigit) == 1
  {
    var c := [('1' as int + k) as char];
    RunIs(c, "]" + rest, IsDigit);
    assert c + ("]" + rest) == c + "]" + rest;
  }

  lemma StepShape(mid: string, k: nat, rest: string)
    requires GoodId(mid) && k < STEPS
    ensures var line := Spaces(2) + Tag(StepTag(mid, k)) + rest;
            && line[0] == ' ' && |line| >= |mid| + 7
            && Run(line, IsBlank) == 2 && Starts(line[2..], "[")
            && Run(line[3..], IsAlnum) == |mid|
            && line[3 + |mid|] == '-' && line[4 + |mid|] == 'S' && line[6 + |mid|] == ']'
            && Run(line[5 + |mid|..], IsDigit) == 1
            && line[4 + |mid|..6 + |mid|] == StepId(k)
  {
    hide Run, GoodId;
    StepIdsDiffer(k, k);
    var line, sid := Spaces(2) + Tag(StepTag(mid, k)) + rest, StepId(k);
    assert line == "  [" + (mid + "-" + sid + "]" + rest);
    TwoBlanks(mid + "-" + sid + "]" + rest);
    assert line[2..][..1] == "[";
    assert line[3..] == mid + "-" + (sid + "]" + rest);
    AlnumRun(mid, sid + "]" + rest);
    assert line[5 + |mid|..] == [('1' as int + k) as char] + "]" + rest;
    OneDigit(k, rest);
  }

  lemma StepOfUnfold(line: string, a: nat, title: string, st: Status)
    requires |line| >= a + 7 && a > 0
    requires Run(line, IsBlank) == 2 && Starts(line[2..], "[") && Run(line[3..], IsAlnum) == a
    requires line[3 + a] == '-' && line[4 + a] == 'S' && line[6 + a] == ']' && Run(line[5 + a..], IsDigit) == 1
    requires FieldAndStatus(line, a + 7) == Some((title, st))
    ensures StepOf(line) == Some((line[4 + a..6 + a], st))
  {
    hide Run, FieldAndStatus, Starts;
    var s := line[3 + a..];
    assert s[2..] == line[5 + a..] && s[1..3] == line[4 + a..6 + a];
  }

  lemma ReadStep(mid: string, k: nat, st: Status)
    requires GoodId(mid) && k < STEPS && GoodStatus(st)
    ensures var line := StepLine(mid, k, st);
            HeaderOf(line) == None && MilestoneOf(line) == None && StepOf(line) == Some((StepId(k), st))
  {
    hide GoodTitle, GoodStatus, StatusText, Cell, FieldAndStatus, GoodId, StepId, StepLabel, Run, HeaderOf, MilestoneOf,
         StepOf, Starts, After;
    var line, pre, text := StepLine(mid, k, st), Spaces(2) + Tag(StepTag(mid, k)), StatusText(st);
    StepTitlesGood(k);
    IdNotEmpty(mid);
    FieldParsed(pre, StepLabel(k), 52, st);
    FirstCharDecides(line);
    CellSplit(pre, StepLabel(k), 52, text);
    StepShape(mid, k, After(StepLabel(k), 52, text));
    StepIdsDiffer(k, k);
    StepOfUnfold(line, |mid|, StepLabel(k), st);
  }

  lemma AfterStarts(title: string, width: nat, text: string)
    requires title != ""
    ensures |After(title, width, text)| > 1
    ensures After(title, width, text)[0] == ' ' && After(title, width, text)[1] == title[0]
  {
  }

  lemma DamagedShape(k: nat, st: Status)
    requires k < STEPS
    ensures var line := DamagedLine(k, st);
            && |line| > 3 && line[0] == ' ' && Run(line, IsBlank) == 3
            && !IsBlank(line[3]) && line[3] != '[' && line == Spaces(2) + After(StepLabel(k), 52, StatusText(st))
  {
    hide StatusText, Cell, After, StepLabel;
    var title, after := StepLabel(k), After(StepLabel(k), 52, StatusText(st));
    StepTitlesGood(k);
    CellSplit(Spaces(2), title, 52, StatusText(st));
    AfterStarts(title, 52, StatusText(st));
    assert DamagedLine(k, st) == Spaces(3) + after[1..];
    RunIs(Spaces(3), after[1..], IsBlank);
  }

  lemma ReadDamaged(k: nat, st: Status)
    requires k < STEPS
    ensures var line := DamagedLine(k, st); HeaderOf(line) == None && MilestoneOf(line) == None && StepOf(line) == None
  {
    var line := DamagedLine(k, st);
    DamagedShape(k, st);
    FirstCharDecides(line);
    hide DamagedLine, HeaderOf, MilestoneOf, Run, FieldAndStatus, After;
    assert line[3..][..1][0] == line[3];
  }

  // ----- Step labels -----

  predicate PlainChar(c: char) { ' ' <= c <= 'z' && c != '[' && c != ']' && c != '_' }

  /** Plain characters, no blank at either end and no two in a row. */
  predicate PlainTitle(s: string) {
    && s != "" && s[0] != ' ' && s[|s| - 1] != ' '
    && (forall i :: 0 <= i < |s| ==> PlainChar(s[i]))
    && (forall i :: 0 < i < |s| ==> !(s[i - 1] == ' ' && s[i] == ' '))
  }

  lemma PlainIsGood(s: string)
    requires PlainTitle(s)
    ensures GoodTitle(s)
  {
    assert forall i :: 0 <= i < |s| ==> PlainChar(s[i]);
  }

  lemma PlainJoin(a: string, b: string)
    requires PlainTitle(a) && PlainTitle(b)
    ensures PlainTitle(a + " " + b)
  {
  }

  lemma UnderstandIsPlain()
    ensures PlainTitle("UNDERSTAND -- review spec")
  {
  }

  lemma InterfaceFirstIsPlain()
    ensures PlainTitle("INTERFACE FIRST -- define contracts")
  {
  }

  lemma RedIsPlain()
    ensures PlainTitle("RED -- write failing tests")
  {
  }

  lemma GreenIsPlain()
    ensures PlainTitle("GREEN -- implement")
  {
  }

  lemma QualityGateIsPlain()
    ensures PlainTitle("QUALITY GATE -- format/lint/type/coverage")
  {
  }

  lemma RefactorIsPlain()
    ensures PlainTitle("REFACTOR")
  {
  }

  lemma IntegrationIsPlain()
    ensures PlainTitle("INTEGRATION -- integration tests")
  {
  }

  lemma ReviewIsPlain()
    ensures PlainTitle("REVIEW -- checklist sign-off")
  {
  }

  lemma StepTitlesGood(k: nat)
    requires k < STEPS
    ensures GoodTitle(StepLabel(k))
  {
    hide PlainTitle, GoodTitle;
    match k {
      case 0 => UnderstandIsPlain();
      case 1 => InterfaceFirstIsPlain();
      case 2 => RedIsPlain();
      case 3 => GreenIsPlain();
      case 4 => QualityGateIsPlain();
      case 5 => RefactorIsPlain();
      case 6 => IntegrationIsPlain();
      case 7 => ReviewIsPlain();
    }
    PlainIsGood(StepLabel(k));
  }

  /** Labels have different lengths, so the repairer finds the right step. */
  lemma LabelsDiffer(k: nat, k': nat)
    requires k < k' < STEPS
    ensures Lower(StepLabel(k)) != Lower(StepLabel(k'))
  {
    LabelLength(k);
    LabelLength(k');
  }

  lemma LabelLength(k: nat)
    requires k < STEPS
    ensures |Lower(StepLabel(k))| == match k case 0 => 25 case 1 => 35 case 2 => 26 case 3 => 18
                                             case 4 => 41 case 5 => 8 case 6 => 32 case _ => 28
  {
  }

  lemma {:induction false} LabelFound(k: nat, n: nat)
    requires k < n <= STEPS
    ensures StepOfLabel(Lower(StepLabel(k)), n) == Some(k)
  {
    hide StepLabel, Lower;
    if k < n - 1 {
      LabelsDiffer(k, n - 1);
      LabelFound(k, n - 1);
    }
  }

  // ----- Parsing rows -----

  /** What a row means to the parser; damaged rows mean nothing to it. */
  function Interpret(p: Parsed, row: Row): Parsed {
    match row
    case Updated(value) => p.(updated := value)
    case ActiveMilestone(value) => p.(milestone := value)
    case ActiveStep(value) => p.(step := value)
    case Other(_) => p
    case Milestone(id, title, st) => p.(entries := p.entries + [Entry(id, title, st, [])])
    case Step(_, k, st, damaged) => if damaged || k >= STEPS then p else WithStep(p, StepId(k), st)
  }

  function InterpretAll(rows: seq<Row>): Parsed {
    if rows == [] then NOTHING else Interpret(InterpretAll(rows[..|rows| - 1]), rows[|rows| - 1])
  }

  lemma LowerKeys()
    ensures Lower("Last updated") == "last updated"
    ensures Lower("Active milestone") == "active milestone"
    ensures Lower("Active step") == "active step"
  {
  }

  lemma ReadKnownHeader(value: string)
    requires Tight(value)
    ensures HeaderOf(HeaderLine("Last updated", value)) == Some(("last updated", value))
    ensures HeaderOf(HeaderLine("Active milestone", value)) == Some(("active milestone", value))
    ensures HeaderOf(HeaderLine("Active step", value)) == Some(("active step", value))
  {
    hide HeaderOf, HeaderLine;
    LowerKeys();
    ReadHeader("Last updated", value);
    ReadHeader("Active milestone", value);
    ReadHeader("Active step", value);
  }

  lemma ReadOther(text: string)
    requires GoodOther(text)
    ensures HeaderOf(text) == None ==> MilestoneOf(text) == None && StepOf(text) == None
  {
    assert MilestoneOf("") == None && StepOf("") == None;
    FirstCharDecides(text);
    hide HeaderOf, MilestoneOf;
    assert text == "" || !IsBlank(text[0]);
  }

  /** The parser reads a printed row as what the row means. */
  lemma ReadRow(p: Parsed, row: Row)
    requires GoodRow(row)
    ensures Feed(p, PrintRow(row)) == Interpret(p, row)
  {
    hide HeaderOf, MilestoneOf, StepOf, MilestoneLine, StepLine, DamagedLine, HeaderLine, StepLabel, WithStep;
    match row
    case Updated(value) => ReadKnownHeader(value);
    case ActiveMilestone(value) => ReadKnownHeader(value);
    case ActiveStep(value) => ReadKnownHeader(value);
    case Other(text) =>
      ReadOther(text);
      hide Starts;
    case Milestone(id, title, st) => ReadMilestone(id, title, st);
    case Step(mid, k, st, damaged) =>
      ReadStep(mid, k, st);
      ReadDamaged(k, st);
  }

  ghost predicate GoodRows(rows: seq<Row>) {
    forall i :: 0 <= i < |rows| ==> GoodRow(rows[i])
  }

  /** Parsing a printed file gives what its rows mean. */
  lemma {:induction false} ParsePrinted(rows: seq<Row>)
    requires GoodRows(rows)
    ensures Parse(Print(rows)) == InterpretAll(rows)
  {
    if rows != [] {
      hide Feed, Interpret, PrintRow, GoodRow;
      var n := |rows| - 1;
      assert Print(rows)[..n] == Print(rows[..n]);
      ParsePrinted(rows[..n]);
      ReadRow(InterpretAll(rows[..n]), rows[n]);
    }
  }
}
