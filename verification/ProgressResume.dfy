/** The workplan's own milestones, and resuming work from the active-step header. */
module ProgressResume {
  import opened Wrappers
  import opened Text
  import opened Progress
  import opened ProgressLines
  import opened ProgressRows
  import opened ProgressUpdates
  import opened ProgressRuns
  import opened ProgressMeaning
  import opened ProgressPlan

  // ----- The milestones -----

  const MILESTONES := 13

  /** M0 to M12. */
  function MilestoneId(i: nat): string
    requires i < MILESTONES
  {
    if i < 10 then ['M', ('0' as int + i) as char] else ['M', '1', ('0' as int + i - 10) as char]
  }

  function MilestoneTitle(i: nat): string
    requires i < MILESTONES
  {
    match i
    case 0 => "Bootstrap"
    case 1 => "Docker Runtime"
    case 2 => "DB Schema + Migrations + Audit Ledger"
    case 3 => "Auth + RBAC"
    case 4 => "Jobs + Queue Classes + Compute Policy"
    case 5 => "Artifact Registry + Storage Abstraction"
    case 6 => "Feed Registry + Versioned Config" + " " + "+ Connectivity Tests"
    case 7 => "Ingest Pipeline"
    case 8 => "Verification + Gaps +" + " " + "Anomalies + Certification"
    case 9 => "Symbol Lineage"
    case 10 => "Parity Service"
    case 11 => "Alerting + Observability Hardening"
    case _ => "Operator API Docs + Acceptance Pack"
  }

  function Milestones(): seq<Goal> {
    seq(MILESTONES, i requires 0 <= i < MILESTONES => Goal(MilestoneId(i), MilestoneTitle(i)))
  }

  lemma SchemaIsPlain() ensures PlainTitle("DB Schema + Migrations + Audit Ledger") {}

  lemma JobsIsPlain() ensures PlainTitle("Jobs + Queue Classes + Compute Policy") {}

  lemma ArtifactIsPlain() ensures PlainTitle("Artifact Registry + Storage Abstraction") {}

  lemma FeedIsPlain()
    ensures PlainTitle("Feed Registry + Versioned Config" + " " + "+ Connectivity Tests")
  {
    assert PlainTitle("Feed Registry + Versioned Config") && PlainTitle("+ Connectivity Tests");
    PlainJoin("Feed Registry + Versioned Config", "+ Connectivity Tests");
  }

  lemma VerificationIsPlain()
    ensures PlainTitle("Verification + Gaps +" + " " + "Anomalies + Certification")
  {
    assert PlainTitle("Verification + Gaps +") && PlainTitle("Anomalies + Certification");
    PlainJoin("Verification + Gaps +", "Anomalies + Certification");
  }

  lemma AlertingIsPlain() ensures PlainTitle("Alerting + Observability Hardening") {}

  lemma OperatorIsPlain() ensures PlainTitle("Operator API Docs + Acceptance Pack") {}

  lemma ShortTitlesPlain()
    ensures PlainTitle("Bootstrap") && PlainTitle("Docker Runtime") && PlainTitle("Auth + RBAC")
    ensures PlainTitle("Ingest Pipeline") && PlainTitle("Symbol Lineage") && PlainTitle("Parity Service")
  {
  }

  lemma TitlesGood(i: nat)
    requires i < MILESTONES
    ensures GoodTitle(MilestoneTitle(i))
  {
    hide PlainTitle, GoodTitle;
    ShortTitlesPlain();
    match i {
      case 2 => SchemaIsPlain();
      case 4 => JobsIsPlain();
      case 5 => ArtifactIsPlain();
      case 6 => FeedIsPlain();
      case 8 => VerificationIsPlain();
      case 11 => AlertingIsPlain();
      case 12 => OperatorIsPlain();
      case _ =>
    }
    PlainIsGood(MilestoneTitle(i));
  }

  lemma IdsGood(i: nat)
    requires i < MILESTONES
    ensures GoodId(MilestoneId(i)) && Numeric(MilestoneId(i))
  {
    var id := MilestoneId(i);
    RunIs(id[1..], "", IsDigit);
    assert id[1..] + "" == id[1..];
  }

  lemma MilestonesGood()
    ensures GoodPlan(Milestones())
  {
    hide GoodId, GoodTitle, MilestoneTitle, Numeric;
    forall i | 0 <= i < MILESTONES ensures GoodId(MilestoneId(i)) && GoodTitle(MilestoneTitle(i)) {
      IdsGood(i);
      TitlesGood(i);
    }
  }

  /** For the workplan's own milestones, repairing always makes up for the old updater. */
  lemma OldRunIsRepairable(name: string, now: string, ws: seq<Work>)
    requires GoodName(name) && GoodValue(now) && Legal(Milestones(), ws)
    ensures GoodUpdates(Updates(Milestones(), ws))
    ensures var boot := Print(BootstrapRows(name, now, Milestones()));
            Repair(OldRun(boot, Updates(Milestones(), ws))) == ProgressRuns.Run(boot, Updates(Milestones(), ws))
  {
    hide GoodName, GoodValue, GoodPlan, Print, BootstrapRows, Updates, OldRun, ProgressRuns.Run, Repair, Legal,
         Numeric, MilestoneTitle;
    MilestonesGood();
    OldRunFromBootstrap(name, now, Milestones(), ws);
    forall i | 0 <= i < |ws| ensures ws[i].j < MILESTONES && Numeric(Milestones()[ws[i].j].id) {
      UpdateAt(Milestones(), ws, i);
      IdsGood(ws[i].j);
    }
  }

  /** With a lettered milestone, one completed step is enough for the repair to write the tag
      of another milestone; what is read back is right all the same. */
  lemma LetteredIsMisfiled(name: string, now: string)
    requires GoodName(name) && GoodValue(now)
    ensures var plan, ws := [Goal("M1A", "Bootstrap")], [Work(0, now)];
            && Legal(plan, ws) && GoodUpdates(Updates(plan, ws))
            && var boot := Print(BootstrapRows(name, now, plan));
               var repaired, meant := Repair(OldRun(boot, Updates(plan, ws))),
                 ProgressRuns.Run(boot, Updates(plan, ws));
               repaired != meant && Parse(repaired) == Parse(meant)
  {
    var plan, ws := [Goal("M1A", "Bootstrap")], [Work(0, now)];
    assert "M1A"[1..] == "1" + "A";
    RunIs("1", "A", IsDigit);
    ShortTitlesPlain();
    PlainIsGood("Bootstrap");
    assert GoodPlan(plan) by { hide GoodTitle; }
    assert Legal(plan, ws) by { assert ws[..0] == []; }
    assert !Numeric(plan[ws[0].j].id);
    hide GoodName, GoodValue, GoodPlan, Print, BootstrapRows, Updates, OldRun, ProgressRuns.Run, Repair, Legal, Numeric,
         Parse;
    OldRunFromBootstrap(name, now, plan, ws);
    RepairReadsBack(name, now, plan, ws);
  }

  // ----- Resuming -----

  /** The digits of a step number at the front of `t`: after STEP and blanks, or after S. */
  function NumberIn(t: string): Option<string> {
    if t == "" then None
    else
      var b := if |t| >= 4 then Text.Run(t[4..], IsBlank) else 0;
      var d := if |t| >= 4 then Text.Run(t[4 + b..], IsDigit) else 0;
      if StartsUpper(t, "STEP") && b > 0 && d > 0 then Some(t[4 + b..4 + b + d])
      else if Up(t[0]) == 'S' && Text.Run(t[1..], IsDigit) > 0 then Some(t[1..1 + Text.Run(t[1..], IsDigit)])
      else None
  }

  function NumberAt(s: string, i: nat): Option<string> { if i >= |s| then None else NumberIn(s[i..]) }

  predicate NumberHere(s: string, i: nat) { NumberAt(s, i).Some? }

  function Value(digits: string): nat {
    if digits == "" then 0
    else
      var last := digits[|digits| - 1];
      Value(digits[..|digits| - 1]) * 10 + if IsDigit(last) then last as int - '0' as int else 0
  }

  /** The step that a description of the active step names; S4 if it names none. */
  function StepIdFromDetail(s: string): string {
    match Find(s, 0, NumberHere)
    case None => StepId(3)
    case Some(i) =>
      var n := if NumberAt(s, i).Some? then Value(NumberAt(s, i).value) else 0;
      if 1 <= n <= STEPS then StepId(n - 1) else StepId(3)
  }

  lemma NumberInFront(k: nat, rest: string)
    requires k < STEPS
    ensures StepIdFromDetail("STEP " + [(('1' as int) + k) as char] + " -- " + rest) == StepId(k)
  {
    var c := (('1' as int) + k) as char;
    var s := "STEP " + [c] + " -- " + rest;
    var t := s[0..];
    assert t == s;
    assert t[..4] == "STEP" && Upper(t[..4]) == "STEP";
    assert t[4..] == " " + ([c] + " -- " + rest);
    RunIs(" ", [c] + " -- " + rest, IsBlank);
    assert t[5..] == [c] + (" -- " + rest) && t[5..6] == [c];
    RunIs([c], " -- " + rest, IsDigit);
    assert NumberAt(s, 0) == Some([c]);
    FindIs(s, 0, 0, NumberHere);
    hide NumberAt, StepId;
    assert [c][..0] == "";
    assert Value([c]) == k + 1;
  }

  const COMPLETE := " COMPLETE -- advance Active milestone"

  /** The only S of the message stands in front of "tone". */
  lemma CompleteChars(i: nat)
    requires i < |COMPLETE|
    ensures Up(COMPLETE[i]) == 'S' ==> |COMPLETE| == 37 && i == 32
  {
  }

  lemma CompleteTail()
    ensures COMPLETE[33] == 't' && COMPLETE[34] == 'o' && COMPLETE[0] == ' '
  {
  }

  /** A step number needs an S with a digit or TE behind it. */
  lemma NumberNeeds(s: string, i: nat)
    requires i < |s|
    ensures NumberAt(s, i).Some? ==>
            && Up(s[i]) == 'S' && i + 1 < |s|
            && (IsDigit(s[i + 1]) || (i + 2 < |s| && Up(s[i + 1]) == 'T' && Up(s[i + 2]) == 'E'))
  {
    var t := s[i..];
    if StartsUpper(t, "STEP") {
      assert Upper(t[..4])[0] == 'S' && Upper(t[..4])[1] == 'T' && Upper(t[..4])[2] == 'E';
    } else if NumberAt(s, i).Some? {
      assert t[1..] != "" && t[1..][0] == s[i + 1];
    }
  }

  lemma NoNumber(mid: string, i: nat)
    requires GoodId(mid) && i < |mid + COMPLETE|
    ensures !NumberHere(mid + COMPLETE, i)
  {
    hide NumberIn;
    var s := mid + COMPLETE;
    IdChars(mid);
    CompleteTail();
    NumberNeeds(s, i);
    hide NumberAt;
    if i >= |mid| {
      var j := i - |mid|;
      CompleteChars(j);
      assert s[i] == COMPLETE[j] && (j + 2 < |COMPLETE| ==> s[i + 1] == COMPLETE[j + 1] && s[i + 2] == COMPLETE[j + 2]);
    }
  }

  /** The header that an update writes names the next step; after the last step of a
      milestone it names none, and the default is S4. */
  lemma ResumeFromHeader(mid: string, c: nat)
    requires GoodId(mid) && c < STEPS
    ensures StepIdFromDetail(NextHeader(mid, c)) == if c + 1 < STEPS then StepId(c + 1) else "S4"
  {
    hide StepLabel, GoodId, Find, NumberAt;
    if c + 1 < STEPS {
      var rest := StepLabel(c + 1) + " (" + mid + ")";
      var front := "STEP " + [(('1' as int) + c + 1) as char] + " -- ";
      assert NextHeader(mid, c) == front + rest;
      NumberInFront(c + 1, rest);
    } else {
      forall i | 0 <= i < |mid + COMPLETE| ensures !NumberHere(mid + COMPLETE, i) {
        NoNumber(mid, i);
      }
      FindNone(mid + COMPLETE, 0, NumberHere);
      assert NextHeader(mid, c) == mid + COMPLETE;
    }
  }

  /** A word that introduces a step number: S, or STEP and blanks, in any case. */
  predicate NumberWord(w: string) {
    || Upper(w) == "S"
    || (|w| > 4 && Upper(w[..4]) == "STEP" && forall i :: 4 <= i < |w| ==> IsBlank(w[i]))
  }

  lemma NumberAfterS(t: string, digits: string, rest: string)
    requires t != "" && Up(t[0]) == 'S' && t[1..] == digits + rest
    requires digits != "" && forall i :: 0 <= i < |digits| ==> IsDigit(digits[i])
    requires rest == "" || !IsDigit(rest[0])
    ensures NumberIn(t) == Some(digits)
  {
    RunIs(digits, rest, IsDigit);
    assert t[1] == t[1..][0] == digits[0];
    if |t| >= 4 {
      assert Upper(t[..4])[1] == Up(t[1]);
    }
    assert t[1..1 + |digits|] == digits;
  }

  lemma NumberAfterStep(t: string, blanks: string, digits: string, rest: string)
    requires |t| >= 4 && Upper(t[..4]) == "STEP" && t[4..] == blanks + digits + rest
    requires blanks != "" && forall i :: 0 <= i < |blanks| ==> IsBlank(blanks[i])
    requires digits != "" && forall i :: 0 <= i < |digits| ==> IsDigit(digits[i])
    requires rest == "" || !IsDigit(rest[0])
    ensures NumberIn(t) == Some(digits)
  {
    assert t[4..] == blanks + (digits + rest);
    RunIs(blanks, digits + rest, IsBlank);
    var n := 4 + |blanks|;
    assert t[n..] == t[4..][|blanks|..] == digits + rest;
    RunIs(digits, rest, IsDigit);
    assert t[n..n + |digits|] == t[n..][..|digits|] == digits;
  }

  lemma NumberAfterWord(front: string, w: string, digits: string, rest: string)
    requires NumberWord(w) && digits != "" && forall i :: 0 <= i < |digits| ==> IsDigit(digits[i])
    requires rest == "" || !IsDigit(rest[0])
    ensures NumberAt(front + w + digits + rest, |front|) == Some(digits)
  {
    hide NumberIn;
    var t := (front + w + digits + rest)[|front|..];
    assert t == w + digits + rest;
    if Upper(w) == "S" {
      assert Upper(w)[0] == Up(w[0]) && Upper(w)[0] == 'S' && |w| == 1;
      assert t[1..] == digits + rest;
      NumberAfterS(t, digits, rest);
    } else {
      assert t[..4] == w[..4];
      assert t[4..] == w[4..] + digits + rest;
      NumberAfterStep(t, w[4..], digits, rest);
    }
  }

  lemma NumberFound(s: string, k: nat, digits: string)
    requires k < |s| && NumberAt(s, k) == Some(digits) && forall j :: 0 <= j < k ==> !NumberHere(s, j)
    ensures StepIdFromDetail(s) == if 1 <= Value(digits) <= STEPS then StepId(Value(digits) - 1) else "S4"
  {
    assert StepId(3) == "S4";
    hide NumberAt, Value, StepId;
    FindIs(s, 0, k, NumberHere);
    hide Find;
  }

  /** The first step number of a description counts; a number that is no step gives S4. */
  lemma FirstNumberCounts(front: string, w: string, digits: string, rest: string)
    requires NumberWord(w) && digits != "" && forall i :: 0 <= i < |digits| ==> IsDigit(digits[i])
    requires rest == "" || !IsDigit(rest[0])
    requires forall i :: 0 <= i < |front| ==> Up(front[i]) != 'S'
    ensures StepIdFromDetail(front + w + digits + rest) ==
            if 1 <= Value(digits) <= STEPS then StepId(Value(digits) - 1) else "S4"
  {
    var s := front + w + digits + rest;
    NumberAfterWord(front, w, digits, rest);
    forall j | 0 <= j < |front| ensures !NumberHere(s, j) {
      assert s[j] == front[j];
      NumberNeeds(s, j);
    }
    hide NumberAt, StepIdFromDetail, NumberWord, StepId, Value;
    NumberFound(s, |front|, digits);
  }

  lemma {:induction false} ActiveIs(rows: seq<Row>, value: string)
    requires forall i :: 0 <= i < |rows| && rows[i].ActiveStep? ==> rows[i].value == value
    ensures HasActiveStep(rows) ==> InterpretAll(rows).step == value
  {
    if rows != [] {
      var n := |rows| - 1;
      ActiveIs(rows[..n], value);
      HeadersSnoc(rows);
      hide HasActiveStep;
    }
  }

  lemma ResumeRead(rows: seq<Row>, a: nat, mid: string, c: nat)
    requires GoodRows(rows) && GoodId(mid) && c < STEPS && a < |rows| && rows[a].ActiveStep?
    requires forall i :: 0 <= i < |rows| && rows[i].ActiveStep? ==> rows[i].value == NextHeader(mid, c)
    ensures StepIdFromDetail(Parse(Print(rows)).step) == if c + 1 < STEPS then StepId(c + 1) else "S4"
  {
    assert HasActiveStep(rows);
    hide StepIdFromDetail, Parse, Print, NextHeader, GoodRow, GoodId, StepId, HasActiveStep, InterpretAll;
    ParsePrinted(rows);
    ActiveIs(rows, NextHeader(mid, c));
    ResumeFromHeader(mid, c);
  }

  lemma ActiveAfter(row: Row, u: Update)
    requires u.c < STEPS
    ensures AdvanceRow(row, u.mid, u.c, u.now).ActiveStep? <==> row.ActiveStep?
    ensures row.ActiveStep? ==> AdvanceRow(row, u.mid, u.c, u.now).value == NextHeader(u.mid, u.c)
    ensures OldAdvanceRow(row, u.mid, u.c, u.now).ActiveStep? <==> row.ActiveStep?
    ensures row.ActiveStep? ==> OldAdvanceRow(row, u.mid, u.c, u.now).value == NextHeader(u.mid, u.c)
  {
    hide NextHeader;
  }

  lemma ResumeAfterOld(rows: seq<Row>, u: Update)
    requires GoodRows(rows) && GoodUpdate(u) && HasActiveStep(rows)
    ensures StepIdFromDetail(Parse(OldAdvance(Print(rows), u.mid, u.c, u.now)).step) ==
            if u.c + 1 < STEPS then StepId(u.c + 1) else "S4"
  {
    var a :| 0 <= a < |rows| && rows[a].ActiveStep?;
    hide StepIdFromDetail, Parse, OldAdvance, Print, NextHeader, GoodRow, GoodId, GoodValue, StepId, OldAdvanceRow,
         AdvanceRow, GoodRows, HasActiveStep;
    var rows' := seq(|rows|, i requires 0 <= i < |rows| => OldAdvanceRow(rows[i], u.mid, u.c, u.now));
    forall i | 0 <= i < |rows|
      ensures rows'[i].ActiveStep? <==> rows[i].ActiveStep?
      ensures rows'[i].ActiveStep? ==> rows'[i].value == NextHeader(u.mid, u.c)
    {
      ActiveAfter(rows[i], u);
    }
    OldAdvancePrinted(rows, rows', u);
    ResumeRead(rows', a, u.mid, u.c);
  }

  /** One update, by either updater, on any well-formed file with an active-step header: what
      is read back from it resumes at the step behind the completed one. */
  lemma ResumeAfterUpdate(rows: seq<Row>, u: Update)
    requires GoodRows(rows) && GoodUpdate(u) && HasActiveStep(rows)
    ensures var next := if u.c + 1 < STEPS then StepId(u.c + 1) else "S4";
            && StepIdFromDetail(Parse(Advance(Print(rows), u.mid, u.c, u.now)).step) == next
            && StepIdFromDetail(Parse(OldAdvance(Print(rows), u.mid, u.c, u.now)).step) == next
  {
    var a :| 0 <= a < |rows| && rows[a].ActiveStep?;
    hide StepIdFromDetail, Parse, Advance, OldAdvance, Print, NextHeader, GoodRow, GoodId, GoodValue, StepId,
         AdvanceRow, OldAdvanceRow, GoodRows, HasActiveStep;
    ResumeAfterOld(rows, u);
    var rows' := seq(|rows|, i requires 0 <= i < |rows| => AdvanceRow(rows[i], u.mid, u.c, u.now));
    forall i | 0 <= i < |rows|
      ensures rows'[i].ActiveStep? <==> rows[i].ActiveStep?
      ensures rows'[i].ActiveStep? ==> rows'[i].value == NextHeader(u.mid, u.c)
    {
      ActiveAfter(rows[i], u);
    }
    AdvancePrinted(rows, rows', u);
    ResumeRead(rows', a, u.mid, u.c);
  }

  lemma FirstInFront(s: string)
    requires |s| >= 10 && s[..10] == "STEP 1 -- "
    ensures StepIdFromDetail(s) == "S1"
  {
    assert s == "STEP 1 -- " + s[10..];
    assert "STEP 1 -- " == "STEP " + ['1'] + " -- ";
    assert StepId(0) == "S1";
    hide StepIdFromDetail, StepId;
    NumberInFront(0, s[10..]);
  }

  lemma ResumeFresh()
    ensures StepIdFromDetail(FIRST_STEP) == "S1"
  {
    hide StepIdFromDetail;
    FirstInFront(FIRST_STEP);
  }

  /** A new file resumes at S1, and after any legal run the file resumes at the step behind the
      one completed last. */
  lemma ResumeAfterRun(name: string, now: string, plan: seq<Goal>, ws: seq<Work>)
    requires GoodName(name) && GoodValue(now) && GoodPlan(plan) && Legal(plan, ws)
    ensures GoodUpdates(Updates(plan, ws))
    ensures var done := if ws == [] then 0 else Count(ws, ws[|ws| - 1].j);
            StepIdFromDetail(Parse(ProgressRuns.Run(Print(BootstrapRows(name, now, plan)), Updates(plan, ws))).step) ==
            if done == 0 then "S1" else if done < STEPS then StepId(done) else "S4"
  {
    hide GoodName, GoodValue, GoodId, GoodTitle, Print, BootstrapRows, Updates, ProgressRuns.Run, StepIdFromDetail,
         NextHeader, StepId, Parse, Entries, Counts;
    EveryRunIsReadable(name, now, plan, ws);
    if ws == [] {
      ResumeFresh();
    } else {
      var n := |ws| - 1;
      CountBounded(plan, ws, ws[n].j);
      ResumeFromHeader(plan[ws[n].j].id, Count(ws[..n], ws[n].j));
    }
  }
}
