/** The operations on progress files as the program runs them: bootstrap, parse, update
    and repair, each against its specification. */
module ProgressFile {
  import opened Wrappers
  import opened Text
  import opened Progress
  import opened ProgressLines
  import opened ProgressRows
  import opened ProgressUpdates
  import opened ProgressPlan

  // ----- Bootstrap -----

  lemma PrintSnoc(rows: seq<Row>, row: Row)
    ensures Print(rows + [row]) == Print(rows) + [PrintRow(row)]
  {
    hide PrintRow;
  }

  /** The lines of one milestone, all of it not started. */
  method AppendGoal(lines: seq<string>, g: Goal, ghost rows: seq<Row>) returns (longer: seq<string>)
    requires lines == Print(rows)
    ensures longer == Print(rows + GoalRows(g, 0))
    ensures lines + [MilestoneLine(g.id, g.title, NotStarted)] <= longer && |longer| == |lines| + 1 + STEPS
    ensures forall k :: 0 <= k < STEPS ==> longer[|lines| + 1..][k] == StepLine(g.id, k, NotStarted)
  {
    hide PrintRow, Print, StepStatus, GoalStatus, MilestoneLine, StepLine;
    longer := lines + [MilestoneLine(g.id, g.title, NotStarted)];
    RowPrinted(g);
    PrintSnoc(rows, Milestone(g.id, g.title, GoalStatus(0)));
    ghost var top := rows + [Milestone(g.id, g.title, GoalStatus(0))];
    assert top + StepRows(g, 0)[..0] == top;
    for k := 0 to STEPS
      invariant longer == Print(top + StepRows(g, 0)[..k])
      invariant lines + [MilestoneLine(g.id, g.title, NotStarted)] <= longer && |longer| == |lines| + 1 + k
      invariant forall j :: 0 <= j < k ==> longer[|lines| + 1..][j] == StepLine(g.id, j, NotStarted)
    {
      longer := longer + [StepLine(g.id, k, NotStarted)];
      StepPrinted(g, k);
      ghost var step := Step(g.id, k, StepStatus(k, 0), false);
      PrintSnoc(top + StepRows(g, 0)[..k], step);
      assert top + StepRows(g, 0)[..k + 1] == top + StepRows(g, 0)[..k] + [step];
    }
    assert top + StepRows(g, 0)[..STEPS] == rows + GoalRows(g, 0);
  }

  /** The skeleton of a new progress file. */
  method Bootstrap(name: string, now: string, plan: seq<Goal>) returns (lines: seq<string>)
    ensures lines == Print(BootstrapRows(name, now, plan))
    ensures |lines| >= 6
    ensures lines[..6] ==
            ["# Progress: " + Spaced(name), "# Workplan: " + name + ".md", "# Last updated: " + now,
             "# Active milestone: M0", "# Active step: " + "STEP 1 -- UNDERSTAND (begin M0 Bootstrap)", ""]
  {
    lines := ["# Progress: " + Spaced(name), "# Workplan: " + name + ".md", "# Last updated: " + now,
              "# Active milestone: M0", "# Active step: " + FIRST_STEP, ""];
    HeadPrinted(name, now);
    hide HeadRows, PrintRow, Print, GoalRows, Spaced;
    ghost var head, top := HeadRows(name, now, FIRST_STEP), lines;
    assert head + PlanRows(plan[..0], Zeros(0)) == head;
    for i := 0 to |plan|
      invariant lines == Print(head + PlanRows(plan[..i], Zeros(i)))
      invariant |lines| >= 6 && lines[..6] == top
    {
      lines := AppendGoal(lines, plan[i], head + PlanRows(plan[..i], Zeros(i)));
      NextGoal(head, plan, i);
    }
    assert plan[..|plan|] == plan;
  }

  lemma NextGoal(head: seq<Row>, plan: seq<Goal>, i: nat)
    requires i < |plan|
    ensures head + PlanRows(plan[..i], Zeros(i)) + GoalRows(plan[i], 0) == head + PlanRows(plan[..i + 1], Zeros(i + 1))
  {
    hide GoalRows;
    assert plan[..i + 1][..i] == plan[..i] && Zeros(i + 1)[..i] == Zeros(i);
    assert PlanRows(plan[..i + 1], Zeros(i + 1)) == PlanRows(plan[..i], Zeros(i)) + GoalRows(plan[i], 0);
  }

  lemma HeadPrinted(name: string, now: string)
    ensures Print(HeadRows(name, now, FIRST_STEP)) ==
            ["# Progress: " + Spaced(name), "# Workplan: " + name + ".md", "# Last updated: " + now,
             "# Active milestone: M0", "# Active step: " + FIRST_STEP, ""]
  {
    HeadingText(Spaced(name), name + ".md", now, FIRST_STEP);
    hide HeaderLine, Spaced;
    assert "# Workplan: " + (name + ".md") == "# Workplan: " + name + ".md";
  }

  lemma HeadingText(spaced: string, file: string, now: string, step: string)
    ensures HeaderLine("Progress", spaced) == "# Progress: " + spaced
    ensures HeaderLine("Workplan", file) == "# Workplan: " + file
    ensures HeaderLine("Last updated", now) == "# Last updated: " + now
    ensures HeaderLine("Active milestone", "M0") == "# Active milestone: M0"
    ensures HeaderLine("Active step", step) == "# Active step: " + step
  {
    assert "# " + "Progress" + ": " == "# Progress: ";
    assert "# " + "Workplan" + ": " == "# Workplan: ";
    assert "# " + "Last updated" + ": " == "# Last updated: ";
    assert "# " + "Active step" + ": " == "# Active step: ";
  }

  lemma RowPrinted(g: Goal)
    ensures PrintRow(Milestone(g.id, g.title, GoalStatus(0))) == MilestoneLine(g.id, g.title, NotStarted)
  {
    hide MilestoneLine;
  }

  lemma StepPrinted(g: Goal, k: nat)
    requires k < STEPS
    ensures PrintRow(Step(g.id, k, StepStatus(k, 0), false)) == StepLine(g.id, k, NotStarted)
  {
    hide StepLine;
  }

  // ----- Parse -----

  function Header(headers: map<string, string>, key: string, default: string): string {
    if key in headers then headers[key] else default
  }

  function Known(headers: map<string, string>): Parsed {
    Parsed(Header(headers, "last updated", "unknown"), Header(headers, "active milestone", "M0"),
           Header(headers, "active step", "STEP 1"), [])
  }

  function Opened(entries: seq<Entry>, current: Option<Entry>): seq<Entry> {
    if current.None? then entries else entries + [current.value]
  }

  lemma HeaderKeysDiffer()
    ensures "last updated" != "active milestone" && "last updated" != "active step" &&
            "active milestone" != "active step"
  {
    assert "last updated"[0] == 'l' && "active milestone"[0] == 'a' && "active step"[0] == 'a';
    assert |"active milestone"| != |"active step"|;
  }

  lemma HeaderSet(headers: map<string, string>, entries: seq<Entry>, key: string, value: string)
    ensures Known(headers[key := value]).(entries := entries) ==
            WithHeader(Known(headers).(entries := entries), key, value)
  {
    HeaderKeysDiffer();
  }

  /** The parsed file, or nothing if there is no file; the latest milestone is kept aside
      until the next one or the end of the file. */
  method ParseProgress(file: Option<seq<string>>) returns (p: Option<Parsed>)
    ensures p == match file case None => None case Some(lines) => Some(Parse(lines))
  {
    if file.None? {
      return None;
    }
    var lines := file.value;
    var headers: map<string, string> := map[];
    var entries: seq<Entry> := [];
    var current: Option<Entry> := None;
    hide HeaderOf, MilestoneOf, StepOf;
    for i := 0 to |lines|
      invariant Known(headers).(entries := Opened(entries, current)) == Parse(lines[..i])
      invariant current.None? ==> entries == []
    {
      assert lines[..i + 1][..i] == lines[..i];
      var line := lines[i];
      var header := HeaderOf(line);
      if header.Some? {
        HeaderSet(headers, Opened(entries, current), header.value.0, header.value.1);
        headers := headers[header.value.0 := header.value.1];
      } else {
        hide Known, WithHeader;
        var milestone := MilestoneOf(line);
        if milestone.Some? {
          if current.Some? {
            entries := entries + [current.value];
          }
          current := Some(Entry(milestone.value.0, milestone.value.1, milestone.value.2, []));
        } else {
          var step := StepOf(line);
          if step.Some? && current.Some? {
            StepAppends(Known(headers).(entries := entries), current.value, step.value.0, step.value.1);
            current := Some(current.value.(steps := current.value.steps + [(step.value.0, step.value.1)]));
          }
        }
      }
    }
    assert lines[..|lines|] == lines;
    if current.Some? {
      entries := entries + [current.value];
    }
    p := Some(Parsed(Header(headers, "last updated", "unknown"), Header(headers, "active milestone", "M0"),
                     Header(headers, "active step", "STEP 1"), entries));
  }

  // ----- Repair -----

  lemma SameSnoc(a: seq<string>, x: string, lines: seq<string>, i: nat)
    requires i < |lines| && |a| == i
    ensures a + [x] == lines[..i + 1] <==> a == lines[..i] && x == lines[i]
  {
    assert (a + [x])[..i] == a && lines[..i + 1][..i] == lines[..i];
  }

  /** Positions at which two files differ. */
  ghost function Differences(a: seq<string>, b: seq<string>): set<nat>
    requires |a| == |b|
  {
    set i: nat | i < |a| && a[i] != b[i]
  }

  lemma NoDifferences(lines: seq<string>)
    ensures Differences([], lines[..0]) == {}
  {
  }

  lemma DifferencesNext(a: seq<string>, x: string, lines: seq<string>, i: nat)
    requires i < |lines| && |a| == i
    ensures |Differences(a + [x], lines[..i + 1])| == |Differences(a, lines[..i])| + if x == lines[i] then 0 else 1
  {
    var before, after := Differences(a, lines[..i]), Differences(a + [x], lines[..i + 1]);
    assert i !in before;
    if x == lines[i] {
      assert after == before;
    } else {
      assert after == before + {i};
    }
  }

  /** The repaired lines and the number of lines repaired. */
  method RepairLines(lines: seq<string>) returns (repaired: seq<string>, repairs: nat)
    ensures repaired == Repair(lines) && (repairs == 0 <==> repaired == lines)
    ensures |repaired| == |lines| && repairs == |Differences(repaired, lines)|
  {
    repaired, repairs := [], 0;
    var mid := "M0";
    hide RepairLine, RepairId, Differences;
    assert Differences([], lines[..0]) == {} by { NoDifferences(lines); }
    for i := 0 to |lines|
      invariant mid == RepairMid(lines[..i]) && repaired == Repair(lines[..i])
      invariant |repaired| == i && (repairs == 0 <==> repaired == lines[..i])
      invariant repairs == |Differences(repaired, lines[..i])|
    {
      assert lines[..i + 1][..i] == lines[..i];
      var line, id := lines[i], RepairId(lines[i]);
      if id.Some? {
        mid := id.value;
        SameSnoc(repaired, line, lines, i);
        DifferencesNext(repaired, line, lines, i);
        repaired := repaired + [line];
      } else {
        var fixed := RepairLine(line, mid);
        if fixed != line {
          repairs := repairs + 1;
        }
        SameSnoc(repaired, fixed, lines, i);
        DifferencesNext(repaired, fixed, lines, i);
        repaired := repaired + [fixed];
      }
    }
    assert lines[..|lines|] == lines;
  }

  // ----- Update -----

  /** Position of a step id, in any case, in the step sequence. */
  function StepIndex(sid: string, n: nat): (r: Option<nat>)
    requires n <= STEPS
    ensures r.Some? ==> r.value < n && StepId(r.value) == Upper(sid)
    ensures r.None? ==> forall k :: 0 <= k < n ==> StepId(k) != Upper(sid)
  {
    if n == 0 then None else if StepId(n - 1) == Upper(sid) then Some(n - 1) else StepIndex(sid, n - 1)
  }

  function NextStep(sid: string): Option<string> {
    var c := StepIndex(sid, STEPS);
    if c.Some? && c.value + 1 < STEPS then Some(StepId(c.value + 1)) else None
  }

  /** The next step is the one behind `sid` in the sequence, whatever the case of `sid`; the
      last step and an unknown id have none. */
  ghost predicate IsNextStep(sid: string, next: Option<string>) {
    && (forall c :: 0 <= c < STEPS - 1 && Upper(sid) == StepId(c) ==> next == Some(StepId(c + 1)))
    && (Upper(sid) == StepId(STEPS - 1) ==> next == None)
    && ((forall c :: 0 <= c < STEPS ==> Upper(sid) != StepId(c)) ==> next == None)
  }

  lemma NextStepIs(sid: string)
    ensures IsNextStep(sid, NextStep(sid))
    ensures forall c :: 0 <= c < STEPS && sid == StepId(c) ==>
              NextStep(sid) == if c + 1 < STEPS then Some(StepId(c + 1)) else None
  {
    hide StepId;
    var n := StepIndex(sid, STEPS);
    forall c | 0 <= c < STEPS && Upper(sid) == StepId(c) ensures n == Some(c) {
      StepIdsDiffer(c, n.value);
    }
    forall c | 0 <= c < STEPS && sid == StepId(c) ensures n == Some(c) {
      IndexOfStep(c, STEPS);
    }
  }

  function SubLines(lines: seq<string>, tag: string, both: bool, word: string, keep: bool, spaced: bool): seq<string> {
    seq(|lines|, i requires 0 <= i < |lines| => Sub(lines[i], tag, both, word, keep, spaced, i == 0))
  }

  function SubHeaders(lines: seq<string>, prefix: string, value: string): seq<string> {
    seq(|lines|, i requires 0 <= i < |lines| => SubHeader(lines[i], prefix, value))
  }

  /** One line after step `sid` of `mid`, for any step id, by the corrected or the old updater. */
  function UpdateLine(line: string, first: bool, mid: string, sid: string, now: string, corrected: bool): string {
    var l1 := Sub(line, Tag(mid + "-" + sid), true, StatusText(Done), corrected, corrected, first);
    var l2 := SubHeader(l1, "# Last updated:", now);
    var c := StepIndex(sid, STEPS);
    if c.Some? && c.value + 1 < STEPS then
      Sub(SubHeader(l2, "# Active step:", NextHeader(mid, c.value)), Tag(StepTag(mid, c.value + 1)), false,
          StatusText(InProgress), true, corrected, first)
    else
      SubHeader(Sub(l2, Tag(mid), true, StatusText(Done), true, false, first), "# Active step:",
        NextHeader(mid, STEPS - 1))
  }

  lemma {:induction false} IndexOfStep(c: nat, n: nat)
    requires c < n <= STEPS
    ensures StepIndex(StepId(c), n) == Some(c)
  {
    StepIdsDiffer(c, n - 1);
    UpperStepId(c);
    if c < n - 1 {
      IndexOfStep(c, n - 1);
    }
  }

  lemma UpperStepId(c: nat)
    requires c < STEPS
    ensures Upper(StepId(c)) == StepId(c)
  {
    StepIdsDiffer(c, c);
    hide StepId;
  }

  /** For the ids of the step sequence these are the updates that the theorems are about. */
  lemma UpdateIsAdvance(line: string, first: bool, mid: string, c: nat, now: string)
    requires c < STEPS
    ensures UpdateLine(line, first, mid, StepId(c), now, true) == AdvanceLine(line, first, mid, c, now)
    ensures UpdateLine(line, first, mid, StepId(c), now, false) == OldAdvanceLine(line, first, mid, c, now)
  {
    IndexOfStep(c, STEPS);
    hide Sub, SubHeader, NextHeader, StepIndex, StepId;
  }

  ghost predicate UpdatedBy(before: seq<string>, after: seq<string>, mid: string, sid: string, now: string,
                            corrected: bool) {
    && |after| == |before|
    && forall i :: 0 <= i < |after| ==> after[i] == UpdateLine(before[i], i == 0, mid, sid, now, corrected)
  }

  /** The progress file on disk; `present` says whether it exists. */
  class File {
    var present: bool
    var lines: seq<string>

    /** The substitutions of both updaters, one after the other. */
    method Rewrite(mid: string, sid: string, now: string, corrected: bool) returns (next: Option<string>)
      modifies this`lines
      ensures next == NextStep(sid) && UpdatedBy(old(lines), lines, mid, sid, now, corrected)
      ensures IsNextStep(sid, next)
      ensures forall c :: 0 <= c < STEPS && sid == StepId(c) ==>
                next == if c + 1 < STEPS then Some(StepId(c + 1)) else None
    {
      NextStepIs(sid);
      hide Sub, SubHeader, NextHeader, StepId, IsNextStep;
      var text := SubLines(lines, Tag(mid + "-" + sid), true, StatusText(Done), corrected, corrected);
      var c := StepIndex(sid, STEPS);
      text := SubHeaders(text, "# Last updated:", now);
      if c.Some? && c.value + 1 < STEPS {
        text := SubHeaders(text, "# Active step:", NextHeader(mid, c.value));
        text := SubLines(text, Tag(StepTag(mid, c.value + 1)), false, StatusText(InProgress), true, corrected);
        next := Some(StepId(c.value + 1));
      } else {
        text := SubLines(text, Tag(mid), true, StatusText(Done), true, false);
        text := SubHeaders(text, "# Active step:", NextHeader(mid, STEPS - 1));
        next := None;
      }
      lines := text;
    }

    /** Completing a step rewrites the file and returns the next step of the milestone. */
    method AdvanceStep(mid: string, sid: string, now: string) returns (next: Option<string>)
      modifies this
      ensures present == old(present)
      ensures !present ==> next == None && lines == old(lines)
      ensures present ==> next == NextStep(sid) && UpdatedBy(old(lines), lines, mid, sid, now, true)
      ensures present ==> IsNextStep(sid, next)
      ensures present ==> forall c :: 0 <= c < STEPS && sid == StepId(c) ==>
                next == if c + 1 < STEPS then Some(StepId(c + 1)) else None
      ensures present ==> forall c :: 0 <= c < STEPS && sid == StepId(c) ==> lines == Advance(old(lines), mid, c, now)
    {
      if !present {
        return None;
      }
      next := Rewrite(mid, sid, now, true);
      hide UpdatedBy, NextStep, IsNextStep, AdvanceLine, StepId;
      UpdatesAreAdvances(old(lines), lines, mid, sid, now);
    }

    /** The same by the older program, which loses the tag of the completed step. */
    method OldAdvanceStep(mid: string, sid: string, now: string) returns (next: Option<string>)
      modifies this
      ensures present == old(present)
      ensures !present ==> next == None && lines == old(lines)
      ensures present ==> next == NextStep(sid) && UpdatedBy(old(lines), lines, mid, sid, now, false)
      ensures present ==> IsNextStep(sid, next)
      ensures present ==> forall c :: 0 <= c < STEPS && sid == StepId(c) ==>
                next == if c + 1 < STEPS then Some(StepId(c + 1)) else None
      ensures present ==>
              forall c :: 0 <= c < STEPS && sid == StepId(c) ==> lines == OldAdvance(old(lines), mid, c, now)
    {
      if !present {
        return None;
      }
      next := Rewrite(mid, sid, now, false);
      hide UpdatedBy, NextStep, IsNextStep, OldAdvanceLine, StepId;
      UpdatesAreOldAdvances(old(lines), lines, mid, sid, now);
    }

    /** A missing file is left alone; otherwise it holds the repaired lines. */
    method RepairProgress() returns (repairs: nat)
      modifies this
      ensures present == old(present)
      ensures lines == if present then Repair(old(lines)) else old(lines)
      ensures |lines| == |old(lines)| && repairs == |Differences(lines, old(lines))|
    {
      repairs := 0;
      if present {
        var repaired, n := RepairLines(lines);
        repairs := n;
        if repairs > 0 {
          lines := repaired;
        }
      }
    }
  }

  lemma UpdatesAreAdvances(before: seq<string>, after: seq<string>, mid: string, sid: string, now: string)
    requires UpdatedBy(before, after, mid, sid, now, true)
    ensures forall c :: 0 <= c < STEPS && sid == StepId(c) ==> after == Advance(before, mid, c, now)
  {
    hide UpdateLine, AdvanceLine, OldAdvanceLine, StepId;
    forall c | 0 <= c < STEPS && sid == StepId(c) ensures after == Advance(before, mid, c, now) {
      forall i | 0 <= i < |before| ensures after[i] == AdvanceLine(before[i], i == 0, mid, c, now) {
        UpdateIsAdvance(before[i], i == 0, mid, c, now);
      }
    }
  }

  lemma UpdatesAreOldAdvances(before: seq<string>, after: seq<string>, mid: string, sid: string, now: string)
    requires UpdatedBy(before, after, mid, sid, now, false)
    ensures forall c :: 0 <= c < STEPS && sid == StepId(c) ==> after == OldAdvance(before, mid, c, now)
  {
    hide UpdateLine, AdvanceLine, OldAdvanceLine, StepId;
    forall c | 0 <= c < STEPS && sid == StepId(c) ensures after == OldAdvance(before, mid, c, now) {
      forall i | 0 <= i < |before| ensures after[i] == OldAdvanceLine(before[i], i == 0, mid, c, now) {
        UpdateIsAdvance(before[i], i == 0, mid, c, now);
      }
    }
  }

  // ----- Step ids outside the sequence -----

  lemma UnknownTag(mid: string, sid: string, m: string, k: nat)
    requires GoodId(mid) && GoodId(m) && k < STEPS && StepIndex(sid, STEPS).None?
    ensures mid + "-" + sid != StepTag(m, k) && mid + "-" + sid != m
  {
    IdChars(mid);
    IdChars(m);
    UpperStepId(k);
    hide StepId, GoodId, GoodTag, StepIndex, Upper;
    var a, b := mid + "-" + sid, StepTag(m, k);
    assert a[|mid|] == '-' && b[|m|] == '-' && !IsAlnum('-');
    assert a[..|mid|] == mid && b[..|m|] == m && a[|mid| + 1..] == sid && b[|m| + 1..] == StepId(k);
    if |mid| < |m| {
      assert b[|mid|] == m[|mid|];
    } else if |m| < |mid| {
      assert a[|m|] == mid[|m|];
    }
    assert StepId(k) != Upper(sid) by { UnknownIndex(sid, k); }
  }

  lemma UnknownIndex(sid: string, k: nat)
    requires k < STEPS && StepIndex(sid, STEPS).None?
    ensures StepId(k) != Upper(sid)
  {
    hide StepId, Upper;
  }

  ghost predicate Unknown(sid: string) {
    StepIndex(sid, STEPS).None? && forall i :: 0 <= i < |sid| ==> sid[i] != '[' && sid[i] != ']'
  }

  lemma UnknownTagGood(mid: string, sid: string)
    requires GoodId(mid) && Unknown(sid)
    ensures GoodTag(mid + "-" + sid)
  {
    IdChars(mid);
  }

  /** A step id outside the sequence completes its milestone... */
  lemma UnknownStepClosesMilestone(id: string, title: string, st: Status, first: bool, mid: string, sid: string,
                                   now: string)
    requires GoodId(id) && GoodTitle(title) && GoodStatus(st) && GoodId(mid) && Unknown(sid)
    ensures UpdateLine(MilestoneLine(id, title, st), first, mid, sid, now, true) ==
            MilestoneLine(id, title, if id == mid && Open(st) then Done else st)
  {
    hide GoodId, GoodTitle, GoodStatus, GoodTag, Cell, Sub, StatusText, OpenWord, StepId, StepLabel, SubHeader,
         NextHeader, StepIndex, StepTag;
    UnknownTagGood(mid, sid);
    assert GoodTag(id) by { IdChars(id); }
    UnknownTag(mid, sid, id, 0);
    SubCell(0, id, title, 58, st, mid + "-" + sid, true, StatusText(Done), true, true, first);
    assert Spaces(0) + Tag(id) == Tag(id);
    hide MilestoneLine;
    SubMilestoneLine(id, title, st, mid, first);
    MilestoneLineNoHeader(id, title, st, now, NextHeader(mid, STEPS - 1));
    MilestoneLineNoHeader(id, title, Done, now, NextHeader(mid, STEPS - 1));
  }

  /** ... but none of its steps. */
  lemma UnknownStepCompletesNone(id: string, k: nat, st: Status, first: bool, mid: string, sid: string, now: string)
    requires GoodId(id) && k < STEPS && GoodStatus(st) && GoodId(mid) && Unknown(sid)
    ensures UpdateLine(StepLine(id, k, st), first, mid, sid, now, true) == StepLine(id, k, st)
  {
    hide GoodId, GoodTitle, GoodStatus, GoodTag, Cell, Sub, StatusText, OpenWord, StepId, StepLabel, SubHeader,
         NextHeader, StepIndex, StepTag;
    UnknownTagGood(mid, sid);
    UnknownTag(mid, sid, id, k);
    StepTagGood(id, k);
    StepTitlesGood(k);
    SubCell(2, StepTag(id, k), StepLabel(k), 52, st, mid + "-" + sid, true, StatusText(Done), true, true, first);
    hide StepLine;
    StepLineNoHeader(id, k, st, now, NextHeader(mid, STEPS - 1));
    SubStepLineByMilestone(id, k, st, mid, StatusText(Done), first);
  }
}
