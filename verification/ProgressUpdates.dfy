/** How the two updaters and the repairer act on the rows of a progress file. */
module ProgressUpdates {
  import opened Text
  import opened Progress
  import opened ProgressLines
  import opened ProgressRows

  predicate Open(st: Status) { st == NotStarted || st == InProgress }

  /** The intended effect of completing step `c` of milestone `mid` on one row. */
  function AdvanceRow(row: Row, mid: string, c: nat, now: string): Row
    requires c < STEPS
  {
    match row
    case Updated(_) => Updated(now)
    case ActiveStep(_) => ActiveStep(NextHeader(mid, c))
    case Milestone(id, title, st) =>
      if c + 1 == STEPS && id == mid && Open(st) then Milestone(id, title, Done) else row
    case Step(m, k, st, damaged) =>
      if damaged || m != mid then row
      else if k == c && Open(st) then Step(m, k, Done, false)
      else if k == c + 1 && st == NotStarted then Step(m, k, InProgress, false)
      else row
    case _ => row
  }

  /** The same by the old updater: the completed step row is left damaged. */
  function OldAdvanceRow(row: Row, mid: string, c: nat, now: string): Row
    requires c < STEPS
  {
    if row.Step? && !row.damaged && row.mid == mid && row.k == c && Open(row.status)
    then Step(row.mid, row.k, Done, true)
    else AdvanceRow(row, mid, c, now)
  }

  // ----- Lines without a tag -----

  lemma NoBracketNoSub(line: string, x: string, both: bool, word: string, keep: bool, spaced: bool, first: bool)
    requires forall i :: 0 <= i < |line| ==> line[i] != '['
    ensures Sub(line, Tag(x), both, word, keep, spaced, first) == line
  {
    SubNothing(line, Tag(x), both, word, keep, spaced, first);
  }

  /** Without brackets only the header substitutions can apply. */
  lemma AdvancePlain(line: string, first: bool, mid: string, c: nat, now: string)
    requires c < STEPS && (forall i :: 0 <= i < |line| ==> line[i] != '[')
    requires forall i :: 0 <= i < |now| ==> now[i] != '['
    requires forall i :: 0 <= i < |NextHeader(mid, c)| ==> NextHeader(mid, c)[i] != '['
    ensures var l := SubHeader(SubHeader(line, "# Last updated:", now), "# Active step:", NextHeader(mid, c));
            AdvanceLine(line, first, mid, c, now) == l && OldAdvanceLine(line, first, mid, c, now) == l
  {
    hide NextHeader, Sub;
    var l2 := SubHeader(line, "# Last updated:", now);
    var l3 := SubHeader(l2, "# Active step:", NextHeader(mid, c));
    NoBracketNoSub(line, StepTag(mid, c), true, StatusText(Done), true, true, first);
    NoBracketNoSub(line, StepTag(mid, c), true, StatusText(Done), false, false, first);
    NoBracketNoSub(l2, mid, true, StatusText(Done), true, false, first);
    if c + 1 < STEPS {
      NoBracketNoSub(l3, StepTag(mid, c + 1), false, StatusText(InProgress), true, true, first);
      NoBracketNoSub(l3, StepTag(mid, c + 1), false, StatusText(InProgress), true, false, first);
    }
  }

  ghost predicate NoBracket(s: string) { forall i :: 0 <= i < |s| ==> s[i] != '[' }

  lemma ConcatGood(a: string, title: string, b: string, mid: string, z: string)
    requires a != "" && !IsBlank(a[0]) && z != "" && !IsBlank(z[|z| - 1])
    requires NoBracket(a) && NoBracket(title) && NoBracket(b) && NoBracket(mid) && NoBracket(z)
    ensures GoodValue(a + title + b + mid + z)
  {
    var s := a + title + b + mid + z;
    assert s[0] == a[0] && s[|s| - 1] == z[|z| - 1];
  }

  lemma CompleteHeaderGood(mid: string)
    requires mid != "" && !IsBlank(mid[0]) && NoBracket(mid)
    ensures GoodValue(mid + " COMPLETE -- advance Active milestone")
  {
    var tail := " COMPLETE -- advance Active milestone";
    ConcatGood(mid, "", "", "", tail);
    assert mid + "" + "" + "" + tail == mid + tail;
  }

  lemma StepHeaderGood(digit: char, title: string, mid: string)
    requires IsDigit(digit) && NoBracket(title) && NoBracket(mid)
    ensures GoodValue("STEP " + [digit] + " -- " + title + " (" + mid + ")")
  {
    ConcatGood("STEP " + [digit] + " -- ", title, " (", mid, ")");
  }

  lemma NextHeaderGood(mid: string, c: nat)
    requires GoodId(mid) && c < STEPS
    ensures GoodValue(NextHeader(mid, c))
  {
    IdChars(mid);
    hide StepLabel;
    if c + 1 < STEPS {
      StepTitlesGood(c + 1);
      hide GoodId, GoodValue;
      StepHeaderGood((('1' as int) + c + 1) as char, StepLabel(c + 1), mid);
    } else {
      hide GoodValue;
      CompleteHeaderGood(mid);
    }
  }

  lemma HeaderNoBracket(value: string)
    requires NoBracket(value)
    ensures NoBracket(HeaderLine("Last updated", value)) && NoBracket(HeaderLine("Active milestone", value))
    ensures NoBracket(HeaderLine("Active step", value))
  {
  }

  lemma SubKnownHeaders(value: string, now: string, next: string)
    ensures SubHeader(HeaderLine("Last updated", value), "# Last updated:", now) == HeaderLine("Last updated", now)
    ensures SubHeader(HeaderLine("Last updated", now), "# Active step:", next) == HeaderLine("Last updated", now)
    ensures SubHeader(HeaderLine("Active step", value), "# Last updated:", now) == HeaderLine("Active step", value)
    ensures SubHeader(HeaderLine("Active step", value), "# Active step:", next) == HeaderLine("Active step", next)
    ensures SubHeader(HeaderLine("Active milestone", value), "# Last updated:", now) ==
            HeaderLine("Active milestone", value)
    ensures SubHeader(HeaderLine("Active milestone", value), "# Active step:", next) ==
            HeaderLine("Active milestone", value)
  {
    assert HeaderLine("Last updated", value)[..15] == "# Last updated:";
    assert HeaderLine("Last updated", now)[2] == 'L';
    assert HeaderLine("Active step", value)[..14] == "# Active step:";
    assert HeaderLine("Active step", value)[2] == 'A';
    assert HeaderLine("Active milestone", value)[9] == 'm' && HeaderLine("Active milestone", value)[2] == 'A';
    assert HeaderLine("Active milestone", value)[..14][9] == 'm';
  }

  /** Header rows and other plain rows under both updaters. */
  lemma AdvanceHeaderRow(row: Row, first: bool, mid: string, c: nat, now: string)
    requires GoodRow(row) && !row.Milestone? && !row.Step? && GoodId(mid) && c < STEPS && GoodValue(now)
    ensures AdvanceLine(PrintRow(row), first, mid, c, now) == PrintRow(AdvanceRow(row, mid, c, now))
    ensures OldAdvanceLine(PrintRow(row), first, mid, c, now) == PrintRow(AdvanceRow(row, mid, c, now))
  {
    NextHeaderGood(mid, c);
    hide AdvanceLine, OldAdvanceLine, NextHeader, HeaderLine, GoodId, SubHeader, HeaderOf;
    if row.Other? {
      AdvancePlain(row.text, first, mid, c, now);
      SubHeaderMisses(row.text, now, NextHeader(mid, c));
    } else {
      HeaderNoBracket(row.value);
      AdvancePlain(PrintRow(row), first, mid, c, now);
      SubKnownHeaders(row.value, now, NextHeader(mid, c));
    }
  }

  lemma SubHeaderMisses(line: string, now: string, next: string)
    requires !Starts(line, "# Last updated:") && !Starts(line, "# Active step:")
    ensures SubHeader(line, "# Last updated:", now) == line && SubHeader(line, "# Active step:", next) == line
  {
  }

  // ----- Tagged lines -----

  lemma CellIsNoHeader(lead: nat, id: string, title: string, width: nat, text: string)
    ensures var line := Cell(Spaces(lead) + Tag(id), title, width, text);
            !Starts(line, "# Last updated:") && !Starts(line, "# Active step:")
  {
    var line := Cell(Spaces(lead) + Tag(id), title, width, text);
    hide Field;
    assert line[0] == (Spaces(lead) + Tag(id))[0];
    if |line| >= 15 { assert line[..15][0] == line[0]; }
    if |line| >= 14 { assert line[..14][0] == line[0]; }
  }

  lemma SubStepLine(m: string, k: nat, st: Status, mid: string, c: nat, both: bool, st': Status, spaced: bool,
                    first: bool)
    requires GoodId(m) && k < STEPS && GoodStatus(st) && GoodId(mid) && c < STEPS
    ensures var line := StepLine(m, k, st);
            var hit := m == mid && k == c && (st == NotStarted || (both && st == InProgress));
            && Sub(line, Tag(StepTag(mid, c)), both, StatusText(st'), true, spaced, first) ==
               StepLine(m, k, if hit then st' else st)
            && Sub(line, Tag(StepTag(mid, c)), both, StatusText(st'), false, spaced, first) ==
               (if hit then DamagedLine(k, st') else line)
  {
    StepTitlesGood(k);
    StepTagGood(m, k);
    StepTagGood(mid, c);
    StepTagsDiffer(m, k, mid, c);
    OpenStatus(st, both);
    hide StepLabel, StepId, GoodId, GoodTitle, GoodStatus, GoodTag, Cell, Sub, StatusText, OpenWord;
    SubCell(2, StepTag(m, k), StepLabel(k), 52, st, StepTag(mid, c), both, StatusText(st'), true, spaced, first);
    SubCell(2, StepTag(m, k), StepLabel(k), 52, st, StepTag(mid, c), both, StatusText(st'), false, spaced, first);
    assert Spaces(2) + "" == Spaces(2);
  }

  lemma SubStepLineByMilestone(m: string, k: nat, st: Status, mid: string, word: string, first: bool)
    requires GoodId(m) && k < STEPS && GoodStatus(st) && GoodId(mid)
    ensures var line := StepLine(m, k, st);
            Sub(line, Tag(mid), true, word, true, false, first) == line
  {
    StepTitlesGood(k);
    StepTagGood(m, k);
    IdChars(mid);
    StepTagsDiffer(m, k, mid, k);
    hide StepLabel, StepId, GoodId, GoodTitle, GoodStatus, GoodTag, Cell, Sub, StatusText, OpenWord;
    SubCell(2, StepTag(m, k), StepLabel(k), 52, st, mid, true, word, true, false, first);
  }

  lemma SubMilestoneLine(id: string, title: string, st: Status, mid: string, first: bool)
    requires GoodId(id) && GoodTitle(title) && GoodStatus(st) && GoodId(mid)
    ensures Sub(MilestoneLine(id, title, st), Tag(mid), true, StatusText(Done), true, false, first) ==
            MilestoneLine(id, title, if id == mid && Open(st) then Done else st)
  {
    IdChars(id);
    IdChars(mid);
    OpenStatus(st, true);
    hide GoodId, GoodTitle, GoodStatus, GoodTag, Cell, Sub, StatusText, OpenWord;
    SubCell(0, id, title, 58, st, mid, true, StatusText(Done), true, false, first);
    assert Spaces(0) + Tag(id) == Tag(id);
  }

  lemma SubMilestoneLineByStep(id: string, title: string, st: Status, mid: string, c: nat,
                               both: bool, word: string, keep: bool, spaced: bool, first: bool)
    requires GoodId(id) && GoodTitle(title) && GoodStatus(st) && GoodId(mid) && c < STEPS
    ensures Sub(MilestoneLine(id, title, st), Tag(StepTag(mid, c)), both, word, keep, spaced, first) ==
            MilestoneLine(id, title, st)
  {
    IdChars(id);
    StepTagGood(mid, c);
    StepTagsDiffer(mid, c, id, c);
    hide GoodId, GoodTitle, GoodStatus, GoodTag, Cell, Sub, StatusText, OpenWord, StepId;
    SubCell(0, id, title, 58, st, StepTag(mid, c), both, word, keep, spaced, first);
    assert Spaces(0) + Tag(id) == Tag(id);
  }

  lemma StepLineNoHeader(m: string, k: nat, st: Status, now: string, next: string)
    requires k < STEPS
    ensures var line := StepLine(m, k, st);
            SubHeader(line, "# Last updated:", now) == line && SubHeader(line, "# Active step:", next) == line
  {
    hide StepLabel, StepId, StatusText, Cell, Starts;
    CellIsNoHeader(2, StepTag(m, k), StepLabel(k), 52, StatusText(st));
    SubHeaderMisses(StepLine(m, k, st), now, next);
  }

  lemma MilestoneLineNoHeader(id: string, title: string, st: Status, now: string, next: string)
    ensures var line := MilestoneLine(id, title, st);
            SubHeader(line, "# Last updated:", now) == line && SubHeader(line, "# Active step:", next) == line
  {
    hide StatusText, Cell, Starts;
    CellIsNoHeader(0, id, title, 58, StatusText(st));
    assert Spaces(0) + Tag(id) == Tag(id);
    SubHeaderMisses(MilestoneLine(id, title, st), now, next);
  }

  lemma DamagedNoBracket(k: nat)
    requires k < STEPS
    ensures NoBracket(DamagedLine(k, Done))
    ensures !Starts(DamagedLine(k, Done), "# Last updated:") && !Starts(DamagedLine(k, Done), "# Active step:")
  {
    StepTitlesGood(k);
    hide StepLabel;
    var line := DamagedLine(k, Done);
    assert line[0] == ' ';
    if |line| >= 15 { assert line[..15][0] == ' ' && line[..14][0] == ' '; }
  }

  /** A tagless row is left alone. */
  lemma AdvanceDamagedRow(k: nat, first: bool, mid: string, c: nat, now: string)
    requires k < STEPS && GoodId(mid) && c < STEPS && GoodValue(now)
    ensures var line := DamagedLine(k, Done);
            AdvanceLine(line, first, mid, c, now) == line && OldAdvanceLine(line, first, mid, c, now) == line
  {
    NextHeaderGood(mid, c);
    DamagedNoBracket(k);
    hide AdvanceLine, OldAdvanceLine, NextHeader, StepLabel, DamagedLine, SubHeader, Starts, GoodId;
    AdvancePlain(DamagedLine(k, Done), first, mid, c, now);
    SubHeaderMisses(DamagedLine(k, Done), now, NextHeader(mid, c));
  }

  lemma AdvanceStepRow(m: string, k: nat, st: Status, first: bool, mid: string, c: nat, now: string)
    requires GoodId(m) && k < STEPS && GoodStatus(st) && GoodId(mid) && c < STEPS && GoodValue(now)
    ensures AdvanceLine(StepLine(m, k, st), first, mid, c, now) ==
            PrintRow(AdvanceRow(Step(m, k, st, false), mid, c, now))
    ensures OldAdvanceLine(StepLine(m, k, st), first, mid, c, now) ==
            PrintRow(OldAdvanceRow(Step(m, k, st, false), mid, c, now))
  {
    hide Sub, StepLine, DamagedLine, StepLabel, StepTag, NextHeader, SubHeader, GoodId, GoodValue, StatusText;
    var hit := m == mid && k == c && Open(st);
    var st1 := if hit then Done else st;
    SubStepLine(m, k, st, mid, c, true, Done, true, first);
    SubStepLine(m, k, st, mid, c, true, Done, false, first);
    StepLineNoHeader(m, k, st1, now, NextHeader(mid, c));
    if c + 1 < STEPS {
      SubStepLine(m, k, st1, mid, c + 1, false, InProgress, true, first);
      SubStepLine(m, k, st1, mid, c + 1, false, InProgress, false, first);
    } else {
      SubStepLineByMilestone(m, k, st1, mid, StatusText(Done), first);
    }
    if hit {
      DamagedStays(k, first, mid, c, now);
    }
  }

  /** The later substitutions of the old updater do not touch the damaged line. */
  lemma DamagedStays(k: nat, first: bool, mid: string, c: nat, now: string)
    requires k < STEPS && c < STEPS
    ensures var line := DamagedLine(k, Done);
            && SubHeader(line, "# Last updated:", now) == line
            && SubHeader(line, "# Active step:", NextHeader(mid, c)) == line
            && Sub(line, Tag(mid), true, StatusText(Done), true, false, first) == line
            && (c + 1 < STEPS ==>
                Sub(line, Tag(StepTag(mid, c + 1)), false, StatusText(InProgress), true, false, first) == line)
  {
    DamagedNoBracket(k);
    hide StepLabel, DamagedLine, StepId, NextHeader, SubHeader, Sub, Starts;
    var line := DamagedLine(k, Done);
    SubHeaderMisses(line, now, NextHeader(mid, c));
    NoBracketNoSub(line, mid, true, StatusText(Done), true, false, first);
    if c + 1 < STEPS {
      NoBracketNoSub(line, StepTag(mid, c + 1), false, StatusText(InProgress), true, false, first);
    }
  }

  lemma AdvanceMilestoneRow(id: string, title: string, st: Status, first: bool, mid: string, c: nat, now: string)
    requires GoodId(id) && GoodTitle(title) && GoodStatus(st) && GoodId(mid) && c < STEPS && GoodValue(now)
    ensures AdvanceLine(MilestoneLine(id, title, st), first, mid, c, now) ==
            PrintRow(AdvanceRow(Milestone(id, title, st), mid, c, now))
    ensures OldAdvanceLine(MilestoneLine(id, title, st), first, mid, c, now) ==
            PrintRow(AdvanceRow(Milestone(id, title, st), mid, c, now))
  {
    hide Sub, MilestoneLine, StepTag, NextHeader, SubHeader, GoodId, GoodValue, StatusText, GoodTitle;
    SubMilestoneLineByStep(id, title, st, mid, c, true, StatusText(Done), true, true, first);
    SubMilestoneLineByStep(id, title, st, mid, c, true, StatusText(Done), false, false, first);
    MilestoneLineNoHeader(id, title, st, now, NextHeader(mid, c));
    if c + 1 < STEPS {
      SubMilestoneLineByStep(id, title, st, mid, c + 1, false, StatusText(InProgress), true, true, first);
      SubMilestoneLineByStep(id, title, st, mid, c + 1, false, StatusText(InProgress), true, false, first);
    } else {
      SubMilestoneLine(id, title, st, mid, first);
      MilestoneLineNoHeader(id, title, Done, now, NextHeader(mid, c));
    }
  }

  /** Each updater changes a printed row to the row it is meant to be. */
  lemma AdvancePrintedRow(row: Row, first: bool, mid: string, c: nat, now: string)
    requires GoodRow(row) && GoodId(mid) && c < STEPS && GoodValue(now)
    ensures AdvanceLine(PrintRow(row), first, mid, c, now) == PrintRow(AdvanceRow(row, mid, c, now))
    ensures OldAdvanceLine(PrintRow(row), first, mid, c, now) == PrintRow(OldAdvanceRow(row, mid, c, now))
    ensures GoodRow(AdvanceRow(row, mid, c, now)) && GoodRow(OldAdvanceRow(row, mid, c, now))
  {
    NextHeaderGood(mid, c);
    hide AdvanceLine, OldAdvanceLine, NextHeader, GoodId, GoodTitle, GoodValue, MilestoneLine, StepLine, DamagedLine,
         HeaderLine, StepLabel, GoodOther;
    if row.Milestone? {
      AdvanceMilestoneRow(row.id, row.title, row.status, first, mid, c, now);
    } else if row.Step? {
      if row.damaged {
        AdvanceDamagedRow(row.k, first, mid, c, now);
      } else {
        AdvanceStepRow(row.mid, row.k, row.status, first, mid, c, now);
      }
    } else {
      AdvanceHeaderRow(row, first, mid, c, now);
    }
  }
}
