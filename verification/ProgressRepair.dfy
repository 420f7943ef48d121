/** The repairer on printed rows: it restores exactly the damaged rows of milestones
    whose id it recognises. */
module ProgressRepair {
  import opened Wrappers
  import opened Text
  import opened Progress
  import opened ProgressLines
  import opened ProgressRows

  // ----- Lines the repairer leaves alone -----

  lemma {:induction false} LabelsAreLetters(key: string, n: nat)
    requires n <= STEPS
    ensures StepOfLabel(key, n).Some? ==> key != "" && 'a' <= key[0] <= 'z'
  {
    hide StepLabel, Lower;
    if n > 0 {
      LabelsAreLetters(key, n - 1);
      LabelFirst(n - 1);
    }
  }

  lemma LabelInitial(k: nat)
    requires k < STEPS
    ensures StepLabel(k) != "" && 'A' <= StepLabel(k)[0] <= 'Z'
  {
  }

  lemma LabelFirst(k: nat)
    requires k < STEPS
    ensures |Lower(StepLabel(k))| > 0 && 'a' <= Lower(StepLabel(k))[0] <= 'z'
  {
    LabelInitial(k);
    hide StepLabel;
    assert Lower(StepLabel(k))[0] == Down(StepLabel(k)[0]);
  }

  lemma StripKeepsFirst(s: string)
    requires s != "" && !IsBlank(s[0])
    ensures Strip(s) != "" && Strip(s)[0] == s[0]
  {
    StripRightKeepsFirst(s);
  }

  /** A word of letters is shorter than a text that starts with something else. */
  lemma EndsShort(s: string, w: string)
    requires s != "" && !IsLetter(s[0]) && w != "" && 'A' <= w[0] <= 'Z'
    ensures EndsUpper(s, w) ==> |w| < |s|
  {
    if |w| == |s| {
      assert s[|s| - |w|..] == s;
      assert Upper(s)[0] == Up(s[0]);
    }
  }

  lemma EndingIsShort(s: string)
    requires s != "" && !IsLetter(s[0]) && EndingStatus(s).Some?
    ensures 0 < |EndingStatus(s).value| < |s|
  {
    hide EndsUpper;
    EndsShort(s, "DONE");
    EndsShort(s, "IN_PROGRESS");
    EndsShort(s, "NOT_STARTED");
    EndsShort(s, "BLOCKED");
    EndsShort(s, "SKIPPED");
  }

  lemma LowerFirst(s: string)
    requires s != "" && !IsLetter(s[0])
    ensures |Lower(s)| == |s| && Lower(s)[0] == s[0]
  {
  }

  /** A line that starts with neither a blank nor a letter is not a damaged step. */
  lemma RepairSkips(line: string, mid: string)
    requires line == "" || (!IsBlank(line[0]) && !IsLetter(line[0]))
    ensures RepairLine(line, mid) == line
  {
    if line != "" {
      hide Strip, Lower, Cell, Bracketed, EndingStatus, StepOfLabel;
      var stripped := Strip(line);
      StripKeepsFirst(line);
      if EndingStatus(stripped).Some? {
        EndingIsShort(stripped);
        var rest := stripped[..|stripped| - |EndingStatus(stripped).value|];
        StripKeepsFirst(rest);
        LowerFirst(Strip(rest));
        LabelsAreLetters(Lower(Strip(rest)), STEPS);
      }
    }
  }

  lemma RepairSkipsStep(m: string, k: nat, st: Status, mid: string)
    requires GoodId(m) && k < STEPS
    ensures RepairLine(StepLine(m, k, st), mid) == StepLine(m, k, st)
  {
    hide Strip, Lower, EndingStatus, StepOfLabel, Cell, Run, GoodId, StatusText, StepLabel, After;
    TaggedIsBracketed(m, k, StepLabel(k), StatusText(st));
  }

  /** Every line with the tag of a step in front is bracketed, and no milestone line. */
  lemma TaggedIsBracketed(m: string, k: nat, title: string, text: string)
    requires GoodId(m) && k < STEPS
    ensures var line := Cell(Spaces(2) + Tag(StepTag(m, k)), title, 52, text); Bracketed(line) && RepairId(line) == None
  {
    IdChars(m);
    IdNotEmpty(m);
    var rest := After(title, 52, text);
    StepShape(m, k, rest);
    hide Cell, Run, StatusText, StepLabel, After, StepId;
    CellSplit(Spaces(2) + Tag(StepTag(m, k)), title, 52, text);
    var line := Spaces(2) + Tag(StepTag(m, k)) + rest;
    assert line[2] == '[' && line[3] == m[0] && line[4] == m[1];
    assert line[..2][0] == ' ';
  }

  // ----- Damaged lines -----

  /** A damaged line, stripped, is the padded label and the status word. */
  lemma StripDamaged(k: nat)
    requires k < STEPS
    ensures Strip(DamagedLine(k, Done)) == Field(StepLabel(k), 52) + "DONE"
  {
    StepTitlesGood(k);
    hide StepLabel;
    var body := Field(StepLabel(k), 52) + "DONE";
    assert body[0] == StepLabel(k)[0] && body[|body| - 1] == 'E';
    hide Field;
    assert DamagedLine(k, Done) == Spaces(3) + body;
    StripSpaces(3, body, 0);
    assert Spaces(3) + body + Spaces(0) == Spaces(3) + body;
  }

  lemma EndsInDone(s: string)
    ensures EndingStatus(s + "DONE") == Some("DONE") && (s + "DONE")[..|s|] == s
  {
    var t := s + "DONE";
    assert t[|t| - 4..] == "DONE";
    assert Upper("DONE") == "DONE";
  }

  /** The repairer turns a damaged line back into a step line of the milestone it is at. */
  lemma RepairDamaged(k: nat, mid: string)
    requires k < STEPS
    ensures RepairLine(DamagedLine(k, Done), mid) == StepLine(mid, k, Done)
  {
    var line, field := DamagedLine(k, Done), Field(StepLabel(k), 52);
    assert |field| >= 54;
    DamagedShape(k, Done);
    StripDamaged(k);
    EndsInDone(field);
    StepTitlesGood(k);
    LabelFound(k, STEPS);
    hide Cell, DamagedLine, Strip, EndingStatus, StepOfLabel, StepLabel, Lower, Run, After, Field, StepTag;
    StripField(StepLabel(k), 52);
    assert StatusText(Done) == "DONE";
  }

  // ----- Milestone lines -----

  lemma RepairIdOf(id: string, title: string, st: Status)
    requires GoodId(id)
    ensures RepairId(MilestoneLine(id, title, st)) == if Numeric(id) then Some(id) else None
  {
    hide Cell, StatusText, After, Field;
    IdChars(id);
    CellSplit(Tag(id), title, 58, StatusText(st));
    var rest, d := After(title, 58, StatusText(st)), DigitsOf(id);
    var line := Tag(id) + rest;
    assert line[..2] == "[M";
    assert line[2..] == id[1..1 + d] + (id[1 + d..] + "]" + rest);
    RunIs(id[1..1 + d], id[1 + d..] + "]" + rest, IsDigit);
    assert Numeric(id) ==> line[2 + d] == ']' && line[1..2 + d] == id;
    assert !Numeric(id) ==> line[2 + d] == id[1 + d];
  }

  lemma NoRepairId(line: string)
    requires line == "" || line[0] != '['
    ensures RepairId(line) == None
  {
    if |line| >= 2 {
      assert line[..2][0] == line[0];
    }
  }

  // ----- Rows -----

  /** What the repairer makes of a row below milestone `mid`. */
  function RepairRow(row: Row, mid: string): Row {
    if row.Step? && row.damaged then Step(mid, row.k, row.status, false) else row
  }

  function RepairIdOfRow(row: Row): Option<string> {
    if row.Milestone? && Numeric(row.id) then Some(row.id) else None
  }

  lemma RepairHeaderRow(row: Row, mid: string)
    requires GoodRow(row) && !row.Step? && !row.Milestone?
    ensures RepairId(PrintRow(row)) == None && RepairLine(PrintRow(row), mid) == PrintRow(row)
  {
    var line := PrintRow(row);
    assert line == "" || line[0] == '#';
    hide RepairId, RepairLine, PrintRow, GoodRow;
    NoRepairId(line);
    RepairSkips(line, mid);
  }

  lemma MilestoneLineStarts(id: string, title: string, st: Status)
    ensures MilestoneLine(id, title, st) != "" && MilestoneLine(id, title, st)[0] == '['
  {
    hide Field, StatusText;
    assert MilestoneLine(id, title, st)[0] == Tag(id)[0];
  }

  lemma RepairPrintedRow(row: Row, mid: string)
    requires GoodRow(row)
    ensures RepairId(PrintRow(row)) == RepairIdOfRow(row)
    ensures RepairLine(PrintRow(row), mid) == PrintRow(RepairRow(row, mid))
  {
    hide RepairId, RepairLine, MilestoneLine, StepLine, DamagedLine, HeaderLine, GoodId, GoodTitle, GoodOther,
         StepLabel, GoodStatus, Numeric, Cell;
    if row.Milestone? {
      RepairIdOf(row.id, row.title, row.status);
      MilestoneLineStarts(row.id, row.title, row.status);
      RepairSkips(PrintRow(row), mid);
    } else if row.Step? {
      if row.damaged {
        RepairDamaged(row.k, mid);
        DamagedStarts(row.k);
        NoRepairId(DamagedLine(row.k, Done));
      } else {
        RepairSkipsStep(row.mid, row.k, row.status, mid);
        StepLineIsNoMilestone(row.mid, row.k, row.status);
      }
    } else {
      RepairHeaderRow(row, mid);
    }
  }

  lemma DamagedStarts(k: nat)
    requires k < STEPS
    ensures DamagedLine(k, Done) != "" && DamagedLine(k, Done)[0] == ' '
  {
    hide After, Run, StepLabel, DamagedLine;
    DamagedShape(k, Done);
  }

  lemma StepLineIsNoMilestone(m: string, k: nat, st: Status)
    requires GoodId(m) && k < STEPS
    ensures RepairId(StepLine(m, k, st)) == None
  {
    hide Cell, RepairId, Bracketed, GoodId, StepLabel, StatusText;
    TaggedIsBracketed(m, k, StepLabel(k), StatusText(st));
  }

  // ----- Files -----

  /** Latest milestone the repairer has recognised above a row. */
  function RecognisedMid(rows: seq<Row>): string {
    if rows == [] then "M0"
    else
      match RepairIdOfRow(rows[|rows| - 1])
      case Some(id) => id
      case None => RecognisedMid(rows[..|rows| - 1])
  }

  function RepairRows(rows: seq<Row>): seq<Row> {
    seq(|rows|, i requires 0 <= i < |rows| => RepairRow(rows[i], RecognisedMid(rows[..i])))
  }

  lemma {:induction false} RecognisedInPrint(rows: seq<Row>)
    requires GoodRows(rows)
    ensures RepairMid(Print(rows)) == RecognisedMid(rows)
  {
    if rows != [] {
      hide RepairRow, RepairLine, RepairId, PrintRow, GoodRow, RepairIdOfRow;
      var n := |rows| - 1;
      assert Print(rows)[..n] == Print(rows[..n]);
      RecognisedInPrint(rows[..n]);
      RepairPrintedRow(rows[n], RecognisedMid(rows[..n]));
    }
  }

  /** One line of a repaired file. */
  lemma {:induction false} RepairAt(lines: seq<string>, i: nat)
    requires i < |lines|
    ensures |Repair(lines)| == |lines|
    ensures Repair(lines)[i] == if RepairId(lines[i]).Some? then lines[i]
            else RepairLine(lines[i], RepairMid(lines[..i]))
  {
    hide RepairLine, RepairId, RepairMid;
    var n := |lines| - 1;
    if n > 0 {
      RepairAt(lines[..n], if i < n then i else 0);
    }
    if i < n {
      assert lines[..n][..i] == lines[..i];
    }
  }

  lemma {:induction false} RepairKeepsLength(lines: seq<string>)
    ensures |Repair(lines)| == |lines|
  {
    if lines != [] {
      RepairAt(lines, 0);
    }
  }

  lemma RepairPrintedAt(rows: seq<Row>, i: nat)
    requires GoodRows(rows) && i < |rows| == |Repair(Print(rows))|
    ensures Repair(Print(rows))[i] == PrintRow(RepairRow(rows[i], RecognisedMid(rows[..i])))
  {
    hide RepairRow, RepairLine, RepairId, PrintRow, GoodRow, RepairIdOfRow, RecognisedMid, RepairMid, Repair;
    RepairAt(Print(rows), i);
    assert Print(rows)[..i] == Print(rows[..i]);
    RecognisedInPrint(rows[..i]);
    RepairPrintedRow(rows[i], RecognisedMid(rows[..i]));
    MilestonesStay(rows[i], RecognisedMid(rows[..i]));
  }

  /** Repairing a printed file is printing the repaired rows. */
  lemma RepairPrinted(rows: seq<Row>)
    requires GoodRows(rows)
    ensures Repair(Print(rows)) == Print(RepairRows(rows))
  {
    hide RepairRow, PrintRow, GoodRows, RecognisedMid, Repair;
    RepairKeepsLength(Print(rows));
    forall i | 0 <= i < |rows| ensures Repair(Print(rows))[i] == Print(RepairRows(rows))[i] {
      RepairPrintedAt(rows, i);
    }
  }

  lemma MilestonesStay(row: Row, mid: string)
    ensures RepairIdOfRow(row).Some? ==> RepairRow(row, mid) == row
  {
  }

  /** The milestone that the parser gives the next step row to. */
  function Owner(rows: seq<Row>): Option<string> {
    if rows == [] then None
    else if rows[|rows| - 1].Milestone? then Some(rows[|rows| - 1].id)
    else Owner(rows[..|rows| - 1])
  }

  /** Every step row stands below its own milestone. */
  ghost predicate Nested(rows: seq<Row>) {
    forall i :: 0 <= i < |rows| && rows[i].Step? ==> Owner(rows[..i]) == Some(rows[i].mid)
  }

  /** The repairer always knows a numeric id, and it is the owner's if that is numeric. */
  lemma {:induction false} RecognisedIsOwner(rows: seq<Row>)
    requires GoodRows(rows)
    ensures GoodId(RecognisedMid(rows)) && Numeric(RecognisedMid(rows))
    ensures Owner(rows).Some? && Numeric(Owner(rows).value) ==> Owner(rows).value == RecognisedMid(rows)
  {
    if rows == [] {
      assert "M0"[1..] == "0";
    } else {
      hide GoodId, Numeric;
      assert GoodRow(rows[|rows| - 1]);
      RecognisedIsOwner(rows[..|rows| - 1]);
    }
  }

  function Mend(row: Row): Row { if row.Step? then Step(row.mid, row.k, row.status, false) else row }

  function MendAll(rows: seq<Row>): seq<Row> { seq(|rows|, i requires 0 <= i < |rows| => Mend(rows[i])) }

  predicate Lettered(row: Row) { row.Step? && row.damaged && !Numeric(row.mid) }

  lemma StepLinesDiffer(m: string, m': string, k: nat)
    requires GoodId(m) && GoodId(m') && m != m' && k < STEPS
    ensures StepLine(m, k, Done) != StepLine(m', k, Done)
  {
    StepTagGood(m, k);
    StepTagGood(m', k);
    StepTagsDiffer(m, k, m', k);
    hide StepId, StatusText, Cell, StepLabel, GoodId, GoodTag, Starts;
    TagInFront(2, StepTag(m, k), StepLabel(k), 52, StatusText(Done), StepTag(m, k));
    TagInFront(2, StepTag(m', k), StepLabel(k), 52, StatusText(Done), StepTag(m, k));
  }

  /** One row is mended as it should be unless it belongs to a lettered milestone. */
  lemma RowMended(rows: seq<Row>, i: nat)
    requires GoodRows(rows) && Nested(rows) && i < |rows|
    ensures PrintRow(RepairRow(rows[i], RecognisedMid(rows[..i]))) == PrintRow(Mend(rows[i])) <==> !Lettered(rows[i])
  {
    hide GoodId, Numeric, StepLine, DamagedLine, MilestoneLine, HeaderLine, RecognisedMid, GoodTitle, GoodOther;
    assert GoodRow(rows[i]);
    RecognisedIsOwner(rows[..i]);
    if Lettered(rows[i]) {
      StepLinesDiffer(RecognisedMid(rows[..i]), rows[i].mid, rows[i].k);
    }
  }

  /** Repairing gives every damaged step row its own tag back, if and only if none of
      them belongs to a milestone whose id ends in a letter. */
  lemma RepairExactly(rows: seq<Row>)
    requires GoodRows(rows) && Nested(rows)
    ensures Repair(Print(rows)) == Print(MendAll(rows)) <==> forall i :: 0 <= i < |rows| ==> !Lettered(rows[i])
  {
    RepairPrinted(rows);
    hide PrintRow, RepairRow, Mend, GoodRows, Nested, Lettered, Repair, RecognisedMid;
    forall i | 0 <= i < |rows|
      ensures Repair(Print(rows))[i] == Print(MendAll(rows))[i] <==> !Lettered(rows[i])
    {
      RowMended(rows, i);
    }
    assert |Repair(Print(rows))| == |Print(MendAll(rows))|;
  }

  // ----- Repairing twice -----

  lemma {:induction false} RepairMidGood(lines: seq<string>)
    ensures GoodId(RepairMid(lines))
  {
    if lines == [] {
      assert "M0"[1..] == "0";
    } else {
      hide GoodId, RepairId;
      RepairMidGood(lines[..|lines| - 1]);
      RepairIdGood(lines[|lines| - 1]);
    }
  }

  lemma RepairIdGood(line: string)
    ensures RepairId(line).Some? ==> GoodId(RepairId(line).value)
  {
    if RepairId(line).Some? {
      var id, d := RepairId(line).value, Run(line[2..], IsDigit);
      assert line[..2][1] == 'M';
      RunHolds(line[2..], IsDigit);
      assert id[1..] == line[2..][..d] && id[1..] + "" == id[1..];
      RunIs(id[1..], "", IsDigit);
    }
  }

  lemma RepairLineTwice(line: string, mid: string)
    requires GoodId(mid) && RepairId(line) == None
    ensures RepairId(RepairLine(line, mid)) == None
    ensures RepairLine(RepairLine(line, mid), mid) == RepairLine(line, mid)
  {
    hide Strip, Lower, EndingStatus, StepOfLabel, Cell, GoodId, StepLabel, Bracketed, RepairId, StepTag;
    var stripped := Strip(line);
    if EndingStatus(stripped).Some? && |EndingStatus(stripped).value| <= |stripped| {
      var word := EndingStatus(stripped).value;
      var title := Strip(stripped[..|stripped| - |word|]);
      var k := StepOfLabel(Lower(title), STEPS);
      if k.Some? && k.value < STEPS {
        TaggedIsBracketed(mid, k.value, title, word);
      }
    }
  }

  /** Repairing a repaired file changes nothing, whatever the file held. */
  lemma {:induction false} RepairTwice(lines: seq<string>)
    ensures RepairMid(Repair(lines)) == RepairMid(lines)
    ensures Repair(Repair(lines)) == Repair(lines)
  {
    if lines != [] {
      hide RepairId, RepairLine, GoodId;
      var n := |lines| - 1;
      RepairTwice(lines[..n]);
      RepairMidGood(lines[..n]);
      assert Repair(lines)[..|Repair(lines)| - 1] == Repair(lines[..n]);
      if RepairId(lines[n]) == None {
        RepairLineTwice(lines[n], RepairMid(lines[..n]));
      }
    }
  }
}
