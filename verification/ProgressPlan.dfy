/** Progress files as the bootstrap writes them, and every run of in-order updates from
    there: the file always says exactly how many steps of each milestone are complete. */
module ProgressPlan {
  import opened Wrappers
  import opened Text
  import opened Progress
  import opened ProgressLines
  import opened ProgressRows
  import opened ProgressUpdates
  import opened ProgressRepair
  import opened ProgressRuns

  /** One milestone of a workplan. */
  datatype Goal = Goal(id: string, title: string)

  ghost predicate GoodPlan(plan: seq<Goal>) {
    && (forall i :: 0 <= i < |plan| ==> GoodId(plan[i].id) && GoodTitle(plan[i].title))
    && (forall i, j :: 0 <= i < j < |plan| ==> plan[i].id != plan[j].id)
  }

  // ----- Rows of a plan -----

  /** Status of step `k` when the first `n` steps are complete. */
  function StepStatus(k: nat, n: nat): Status {
    if k < n then Done else if k == n && n > 0 then InProgress else NotStarted
  }

  function GoalStatus(n: nat): Status { if n == STEPS then Done else NotStarted }

  function StepRows(g: Goal, n: nat): seq<Row> {
    seq(STEPS, k requires 0 <= k < STEPS => Step(g.id, k, StepStatus(k, n), false))
  }

  function GoalRows(g: Goal, n: nat): seq<Row> { [Milestone(g.id, g.title, GoalStatus(n))] + StepRows(g, n) }

  function PlanRows(plan: seq<Goal>, counts: seq<nat>): seq<Row>
    requires |counts| == |plan|
  {
    if plan == [] then []
    else
      var n := |plan| - 1;
      PlanRows(plan[..n], counts[..n]) + GoalRows(plan[n], counts[n])
  }

  /** Underscores of the plan's file name become spaces in its heading. */
  function Spaced(name: string): string {
    seq(|name|, i requires 0 <= i < |name| => if name[i] == '_' then ' ' else name[i])
  }

  function HeadRows(name: string, updated: string, step: string): seq<Row> {
    [Other(HeaderLine("Progress", Spaced(name))), Other(HeaderLine("Workplan", name + ".md")),
     Updated(updated), ActiveMilestone("M0"), ActiveStep(step), Other("")]
  }

  function FileRows(name: string, updated: string, step: string, plan: seq<Goal>, counts: seq<nat>): seq<Row>
    requires |counts| == |plan|
  {
    HeadRows(name, updated, step) + PlanRows(plan, counts)
  }

  const FIRST_STEP := "STEP 1 -- UNDERSTAND (begin M0 Bootstrap)"

  function Zeros(n: nat): seq<nat> { seq(n, i => 0) }

  function BootstrapRows(name: string, now: string, plan: seq<Goal>): seq<Row> {
    FileRows(name, now, FIRST_STEP, plan, Zeros(|plan|))
  }

  // ----- Plans are well formed -----

  ghost predicate GoodName(name: string) {
    name != "" && NoBracket(name) && name[|name| - 1] != '_' && !IsBlank(name[|name| - 1])
  }

  lemma HeadingKeys()
    ensures Lower("Progress") == "progress" && Lower("Workplan") == "workplan"
    ensures "progress" !in ["last updated", "active milestone", "active step"]
    ensures "workplan" !in ["last updated", "active milestone", "active step"]
  {
  }

  lemma HeadingShape(key: string, value: string)
    requires key in ["Progress", "Workplan"]
    requires value != "" && NoBracket(value) && !IsBlank(value[|value| - 1])
    ensures var line := HeaderLine(key, value);
            NoBracket(line) && |line| > 2 && line[0] == '#' && line[2] in ['P', 'W'] && !IsBlank(line[|line| - 1])
  {
    var line := HeaderLine(key, value);
    assert line[|line| - 1] == value[|value| - 1];
    assert line[2] == key[0];
  }

  lemma HeadingGood(key: string, value: string)
    requires key in ["Progress", "Workplan"]
    requires value != "" && NoBracket(value) && !IsBlank(value[|value| - 1])
    ensures GoodOther(HeaderLine(key, value))
  {
    HeadingKeys();
    HeadingShape(key, value);
    HeaderParts(key, value);
    HeadingIsNoUpdate(HeaderLine(key, value));
    hide HeaderOf, Starts, Strip, HeaderLine, Lower;
  }

  lemma HeadingIsNoUpdate(line: string)
    requires |line| > 2 && line[2] in ['P', 'W']
    ensures !Starts(line, "# Last updated:") && !Starts(line, "# Active step:")
  {
    if |line| >= 15 {
      assert line[..15][2] == line[2];
    }
    if |line| >= 14 {
      assert line[..14][2] == line[2];
    }
  }

  lemma FirstStepGood()
    ensures GoodValue("M0") && GoodValue(FIRST_STEP)
  {
    var a, b := "STEP 1 -- UNDERSTAND (", "begin M0 Bootstrap)";
    assert NoBracket(a) && NoBracket(b) && NoBracket("");
    assert FIRST_STEP == a + "" + "" + "" + b;
    ConcatGood(a, "", "", "", b);
  }

  lemma HeadingsGood(name: string)
    requires GoodName(name)
    ensures GoodOther(HeaderLine("Progress", Spaced(name))) && GoodOther(HeaderLine("Workplan", name + ".md"))
  {
    hide GoodOther, HeaderLine;
    HeadingGood("Progress", Spaced(name));
    HeadingGood("Workplan", name + ".md");
  }

  lemma HeadGood(name: string, updated: string, step: string)
    requires GoodName(name) && GoodValue(updated) && GoodValue(step)
    ensures GoodRows(HeadRows(name, updated, step))
  {
    hide GoodOther, HeaderLine, GoodValue, GoodName, Spaced;
    FirstStepGood();
    HeadingsGood(name);
    EmptyIsGood();
  }

  lemma EmptyIsGood()
    ensures GoodOther("")
  {
  }

  lemma {:induction false} PlanGood(plan: seq<Goal>, counts: seq<nat>)
    requires GoodPlan(plan) && |counts| == |plan|
    ensures GoodRows(PlanRows(plan, counts))
  {
    if plan != [] {
      hide GoodId, GoodTitle;
      var n := |plan| - 1;
      PlanGood(plan[..n], counts[..n]);
      assert GoodRows(GoalRows(plan[n], counts[n]));
    }
  }

  lemma FileGood(name: string, updated: string, step: string, plan: seq<Goal>, counts: seq<nat>)
    requires GoodName(name) && GoodValue(updated) && GoodValue(step) && GoodPlan(plan) && |counts| == |plan|
    ensures GoodRows(FileRows(name, updated, step, plan, counts))
  {
    hide GoodName, GoodValue, GoodPlan, HeadRows, PlanRows, GoodRow;
    HeadGood(name, updated, step);
    PlanGood(plan, counts);
  }

  // ----- One update -----

  function AdvanceRows(rows: seq<Row>, u: Update): seq<Row>
    requires u.c < STEPS
  {
    seq(|rows|, i requires 0 <= i < |rows| => AdvanceRow(rows[i], u.mid, u.c, u.now))
  }

  lemma AdvanceRowsConcat(a: seq<Row>, b: seq<Row>, u: Update)
    requires u.c < STEPS
    ensures AdvanceRows(a + b, u) == AdvanceRows(a, u) + AdvanceRows(b, u)
  {
  }

  lemma AdvanceGoal(g: Goal, n: nat, u: Update)
    requires n <= STEPS && u.c < STEPS && (u.mid == g.id ==> u.c == n)
    ensures AdvanceRows(GoalRows(g, n), u) == GoalRows(g, if u.mid == g.id then n + 1 else n)
  {
    hide NextHeader;
  }

  /** Completing the next step of one milestone adds one to its count. */
  lemma {:induction false} AdvancePlan(plan: seq<Goal>, counts: seq<nat>, j: nat, u: Update)
    requires GoodPlan(plan) && |counts| == |plan| && (forall i :: 0 <= i < |plan| ==> counts[i] <= STEPS)
    requires u.c < STEPS
    requires if j < |plan| then u.mid == plan[j].id && u.c == counts[j]
             else (forall i :: 0 <= i < |plan| ==> u.mid != plan[i].id)
    ensures AdvanceRows(PlanRows(plan, counts), u) ==
            PlanRows(plan, if j < |plan| then counts[j := counts[j] + 1] else counts)
  {
    hide AdvanceRow, GoalRows, GoodId, GoodTitle;
    if plan == [] {
      assert AdvanceRows([], u) == [];
    } else {
      var n := |plan| - 1;
      var counts' := if j < |plan| then counts[j := counts[j] + 1] else counts;
      AdvancePlan(plan[..n], counts[..n], j, u);
      AdvanceRowsConcat(PlanRows(plan[..n], counts[..n]), GoalRows(plan[n], counts[n]), u);
      AdvanceGoal(plan[n], counts[n], u);
      assert counts'[..n] == if j < n then counts[..n][j := counts[j] + 1] else counts[..n];
    }
  }

  lemma AdvanceHead(name: string, updated: string, step: string, u: Update)
    requires u.c < STEPS
    ensures AdvanceRows(HeadRows(name, updated, step), u) == HeadRows(name, u.now, NextHeader(u.mid, u.c))
  {
    hide NextHeader, HeaderLine;
  }

  // ----- Runs -----

  /** The next step of milestone `j` is completed at time `now`. */
  datatype Work = Work(j: nat, now: string)

  function Count(ws: seq<Work>, j: nat): nat {
    if ws == [] then 0 else Count(ws[..|ws| - 1], j) + if ws[|ws| - 1].j == j then 1 else 0
  }

  /** Steps of a milestone are completed in order, milestones in any order. */
  ghost predicate Legal(plan: seq<Goal>, ws: seq<Work>) {
    ws != [] ==>
      var n := |ws| - 1;
      Legal(plan, ws[..n]) && ws[n].j < |plan| && GoodValue(ws[n].now) && Count(ws[..n], ws[n].j) < STEPS
  }

  ghost function Updates(plan: seq<Goal>, ws: seq<Work>): seq<Update>
    requires Legal(plan, ws)
  {
    if ws == [] then []
    else
      var n := |ws| - 1;
      Updates(plan, ws[..n]) + [Update(plan[ws[n].j].id, Count(ws[..n], ws[n].j), ws[n].now)]
  }

  function Counts(ws: seq<Work>, m: nat): seq<nat> { seq(m, j requires 0 <= j < m => Count(ws, j)) }

  /** Value of the active-step header after a run. */
  ghost function StepHeader(plan: seq<Goal>, ws: seq<Work>): string
    requires Legal(plan, ws)
  {
    if ws == [] then FIRST_STEP
    else
      var n := |ws| - 1;
      NextHeader(plan[ws[n].j].id, Count(ws[..n], ws[n].j))
  }

  function UpdatedHeader(now: string, ws: seq<Work>): string { if ws == [] then now else ws[|ws| - 1].now }

  lemma {:induction false} UpdatesGood(plan: seq<Goal>, ws: seq<Work>)
    requires GoodPlan(plan) && Legal(plan, ws)
    ensures GoodUpdates(Updates(plan, ws)) && |Updates(plan, ws)| == |ws|
  {
    if ws != [] {
      UpdatesGood(plan, ws[..|ws| - 1]);
      hide GoodId, GoodValue, GoodTitle;
    }
  }

  lemma {:induction false} CountBounded(plan: seq<Goal>, ws: seq<Work>, j: nat)
    requires Legal(plan, ws)
    ensures Count(ws, j) <= STEPS
  {
    if ws != [] {
      CountBounded(plan, ws[..|ws| - 1], j);
    }
  }

  lemma CountsSnoc(plan: seq<Goal>, ws: seq<Work>)
    requires ws != [] && ws[|ws| - 1].j < |plan|
    ensures var n := |ws| - 1;
            var before := Counts(ws[..n], |plan|);
            Counts(ws, |plan|) == before[ws[n].j := before[ws[n].j] + 1]
  {
  }

  lemma HeaderGood(plan: seq<Goal>, ws: seq<Work>)
    requires GoodPlan(plan) && Legal(plan, ws)
    ensures GoodValue(StepHeader(plan, ws))
  {
    hide GoodValue, GoodId, NextHeader;
    FirstStepGood();
    if ws != [] {
      NextHeaderGood(plan[ws[|ws| - 1].j].id, Count(ws[..|ws| - 1], ws[|ws| - 1].j));
    }
  }

  /** The file of a plan after a run, as rows. */
  ghost function RowsOfRun(name: string, now: string, plan: seq<Goal>, ws: seq<Work>): seq<Row>
    requires Legal(plan, ws)
  {
    FileRows(name, UpdatedHeader(now, ws), StepHeader(plan, ws), plan, Counts(ws, |plan|))
  }

  lemma RowsOfRunGood(name: string, now: string, plan: seq<Goal>, ws: seq<Work>)
    requires GoodName(name) && GoodValue(now) && GoodPlan(plan) && Legal(plan, ws)
    ensures GoodRows(RowsOfRun(name, now, plan, ws))
  {
    hide GoodName, GoodPlan, StepHeader, FileRows, GoodRows, Count;
    HeaderGood(plan, ws);
    assert GoodValue(UpdatedHeader(now, ws)) by {
      hide GoodValue;
    }
    hide GoodValue;
    FileGood(name, UpdatedHeader(now, ws), StepHeader(plan, ws), plan, Counts(ws, |plan|));
  }

  lemma AdvanceRowsOfRun(name: string, now: string, plan: seq<Goal>, ws: seq<Work>)
    requires GoodPlan(plan) && Legal(plan, ws) && ws != []
    ensures var n := |ws| - 1;
            AdvanceRows(RowsOfRun(name, now, plan, ws[..n]),
              Update(plan[ws[n].j].id, Count(ws[..n], ws[n].j), ws[n].now)) ==
            RowsOfRun(name, now, plan, ws)
  {
    hide HeadRows, PlanRows, GoodPlan, GoodValue, AdvanceRow, NextHeader, AdvanceRows;
    var n := |ws| - 1;
    var j, before := ws[n].j, Counts(ws[..n], |plan|);
    var u := Update(plan[j].id, Count(ws[..n], j), ws[n].now);
    forall i | 0 <= i < |plan| ensures before[i] <= STEPS {
      CountBounded(plan, ws[..n], i);
    }
    AdvanceRowsConcat(HeadRows(name, UpdatedHeader(now, ws[..n]), StepHeader(plan, ws[..n])), PlanRows(plan, before),
      u);
    AdvanceHead(name, UpdatedHeader(now, ws[..n]), StepHeader(plan, ws[..n]), u);
    AdvancePlan(plan, before, j, u);
    CountsSnoc(plan, ws);
  }

  /** From the bootstrap file, every legal run leaves exactly the file of its counts. */
  lemma {:induction false} RunFromBootstrap(name: string, now: string, plan: seq<Goal>, ws: seq<Work>)
    requires GoodName(name) && GoodValue(now) && GoodPlan(plan) && Legal(plan, ws)
    ensures GoodUpdates(Updates(plan, ws))
    ensures ProgressRuns.Run(Print(BootstrapRows(name, now, plan)), Updates(plan, ws)) ==
            Print(RowsOfRun(name, now, plan, ws))
  {
    UpdatesGood(plan, ws);
    if ws == [] {
      hide Print, FileRows;
      assert Counts(ws, |plan|) == Zeros(|plan|);
    } else {
      hide GoodName, GoodPlan, GoodValue, Print, RowsOfRun, Advance, GoodRows, AdvanceRow, GoodUpdate, BootstrapRows;
      var n := |ws| - 1;
      var us := Updates(plan, ws);
      RunFromBootstrap(name, now, plan, ws[..n]);
      RowsOfRunGood(name, now, plan, ws[..n]);
      AdvanceRowsOfRun(name, now, plan, ws);
      assert us[..n] == Updates(plan, ws[..n]) && GoodUpdate(us[n]);
      AdvancePrinted(RowsOfRun(name, now, plan, ws[..n]), RowsOfRun(name, now, plan, ws), us[n]);
    }
  }

  // ----- What the file says -----

  function EntrySteps(n: nat, k: nat): seq<(string, Status)>
    requires k <= STEPS
  {
    seq(k, i requires 0 <= i < k => (StepId(i), StepStatus(i, n)))
  }

  function EntryOf(g: Goal, n: nat): Entry { Entry(g.id, g.title, GoalStatus(n), EntrySteps(n, STEPS)) }

  lemma InterpretSnoc(rows: seq<Row>, row: Row)
    ensures InterpretAll(rows + [row]) == Interpret(InterpretAll(rows), row)
  {
    hide Interpret;
    assert (rows + [row])[..|rows|] == rows;
  }

  lemma {:induction false} InterpretSteps(rows: seq<Row>, g: Goal, n: nat, k: nat)
    requires k <= STEPS
    ensures var p := InterpretAll(rows);
            InterpretAll(rows + [Milestone(g.id, g.title, GoalStatus(n))] + StepRows(g, n)[..k]) ==
            p.(entries := p.entries + [Entry(g.id, g.title, GoalStatus(n), EntrySteps(n, k))])
  {
    hide StepId, StepStatus, GoalStatus, InterpretAll, WithStep;
    var front := rows + [Milestone(g.id, g.title, GoalStatus(n))];
    if k == 0 {
      assert front + StepRows(g, n)[..0] == front;
      InterpretSnoc(rows, Milestone(g.id, g.title, GoalStatus(n)));
    } else {
      InterpretSteps(rows, g, n, k - 1);
      var step := Step(g.id, k - 1, StepStatus(k - 1, n), false);
      assert front + StepRows(g, n)[..k] == front + StepRows(g, n)[..k - 1] + [step];
      InterpretSnoc(front + StepRows(g, n)[..k - 1], step);
      StepAppends(InterpretAll(rows), Entry(g.id, g.title, GoalStatus(n), EntrySteps(n, k - 1)), StepId(k - 1),
        StepStatus(k - 1, n));
      assert EntrySteps(n, k) == EntrySteps(n, k - 1) + [(StepId(k - 1), StepStatus(k - 1, n))];
    }
  }

  lemma StepAppends(p: Parsed, e: Entry, sid: string, st: Status)
    ensures WithStep(p.(entries := p.entries + [e]), sid, st) ==
            p.(entries := p.entries + [Entry(e.id, e.title, e.status, e.steps + [(sid, st)])])
  {
    assert (p.entries + [e])[..|p.entries|] == p.entries;
  }

  lemma InterpretGoal(rows: seq<Row>, g: Goal, n: nat)
    ensures var p := InterpretAll(rows);
            InterpretAll(rows + GoalRows(g, n)) == p.(entries := p.entries + [EntryOf(g, n)])
  {
    hide InterpretAll, EntrySteps, GoalStatus, StepStatus;
    InterpretSteps(rows, g, n, STEPS);
    assert StepRows(g, n)[..STEPS] == StepRows(g, n);
    assert rows + [Milestone(g.id, g.title, GoalStatus(n))] + StepRows(g, n) == rows + GoalRows(g, n);
  }

  function Entries(plan: seq<Goal>, counts: seq<nat>): seq<Entry>
    requires |counts| == |plan|
  {
    seq(|plan|, i requires 0 <= i < |plan| => EntryOf(plan[i], counts[i]))
  }

  lemma {:induction false} InterpretPlan(rows: seq<Row>, plan: seq<Goal>, counts: seq<nat>)
    requires |counts| == |plan|
    ensures var p := InterpretAll(rows);
            InterpretAll(rows + PlanRows(plan, counts)) == p.(entries := p.entries + Entries(plan, counts))
  {
    hide InterpretAll, EntryOf, GoalRows;
    if plan == [] {
      assert rows + PlanRows(plan, counts) == rows;
    } else {
      var n := |plan| - 1;
      InterpretPlan(rows, plan[..n], counts[..n]);
      InterpretGoal(rows + PlanRows(plan[..n], counts[..n]), plan[n], counts[n]);
      assert rows + PlanRows(plan, counts) == rows + PlanRows(plan[..n], counts[..n]) + GoalRows(plan[n], counts[n]);
      assert Entries(plan, counts) == Entries(plan[..n], counts[..n]) + [EntryOf(plan[n], counts[n])];
    }
  }

  lemma InterpretHead(name: string, updated: string, step: string)
    ensures InterpretAll(HeadRows(name, updated, step)) == Parsed(updated, "M0", step, [])
  {
    hide HeaderLine, WithStep, InterpretAll;
    var rows := HeadRows(name, updated, step);
    assert InterpretAll([]) == NOTHING by { NoRows(); }
    InterpretSnoc([], rows[0]);
    InterpretSnoc([rows[0]], rows[1]);
    InterpretSnoc([rows[0], rows[1]], rows[2]);
    InterpretSnoc([rows[0], rows[1], rows[2]], rows[3]);
    InterpretSnoc([rows[0], rows[1], rows[2], rows[3]], rows[4]);
    InterpretSnoc([rows[0], rows[1], rows[2], rows[3], rows[4]], rows[5]);
    assert [] + [rows[0]] == [rows[0]] && [rows[0]] + [rows[1]] == [rows[0], rows[1]];
    assert [rows[0], rows[1]] + [rows[2]] == [rows[0], rows[1], rows[2]];
    assert [rows[0], rows[1], rows[2]] + [rows[3]] == [rows[0], rows[1], rows[2], rows[3]];
    assert [rows[0], rows[1], rows[2], rows[3]] + [rows[4]] == [rows[0], rows[1], rows[2], rows[3], rows[4]];
    assert [rows[0], rows[1], rows[2], rows[3], rows[4]] + [rows[5]] == rows;
  }

  lemma NoRows()
    ensures InterpretAll([]) == NOTHING
  {
  }

  /** After every legal run from the bootstrap, the parser finds for each milestone exactly
      its completed steps done, the next one in progress, the milestone done when all its
      steps are, and the headers of the last update. */
  lemma EveryRunIsReadable(name: string, now: string, plan: seq<Goal>, ws: seq<Work>)
    requires GoodName(name) && GoodValue(now) && GoodPlan(plan) && Legal(plan, ws)
    ensures GoodUpdates(Updates(plan, ws))
    ensures Parse(ProgressRuns.Run(Print(BootstrapRows(name, now, plan)), Updates(plan, ws))) ==
            Parsed(UpdatedHeader(now, ws), "M0", StepHeader(plan, ws), Entries(plan, Counts(ws, |plan|)))
  {
    hide GoodName, GoodValue, GoodPlan, Print, Parse, ProgressRuns.Run, BootstrapRows, GoodUpdates, Updates, Legal,
         GoodRows, HeadRows, PlanRows, InterpretAll, StepHeader, UpdatedHeader, Entries, Count;
    RunFromBootstrap(name, now, plan, ws);
    RowsOfRunGood(name, now, plan, ws);
    ParsePrinted(RowsOfRun(name, now, plan, ws));
    InterpretHead(name, UpdatedHeader(now, ws), StepHeader(plan, ws));
    InterpretPlan(HeadRows(name, UpdatedHeader(now, ws), StepHeader(plan, ws)), plan, Counts(ws, |plan|));
    assert [] + Entries(plan, Counts(ws, |plan|)) == Entries(plan, Counts(ws, |plan|));
  }

  // ----- The old updater from the bootstrap -----

  lemma {:induction false} OwnerInGoal(rows: seq<Row>, g: Goal, n: nat, k: nat)
    requires k <= STEPS
    ensures Owner(rows + [Milestone(g.id, g.title, GoalStatus(n))] + StepRows(g, n)[..k]) == Some(g.id)
  {
    hide StepStatus, GoalStatus;
    var all := rows + [Milestone(g.id, g.title, GoalStatus(n))] + StepRows(g, n)[..k];
    if k > 0 {
      OwnerInGoal(rows, g, n, k - 1);
      assert all[..|all| - 1] == rows + [Milestone(g.id, g.title, GoalStatus(n))] + StepRows(g, n)[..k - 1];
    }
  }

  lemma NestedGoal(rows: seq<Row>, g: Goal, n: nat)
    requires Nested(rows)
    ensures Nested(rows + GoalRows(g, n))
  {
    hide Owner, GoalStatus, StepStatus;
    var all := rows + GoalRows(g, n);
    forall i | 0 <= i < |all| && all[i].Step? ensures Owner(all[..i]) == Some(all[i].mid) {
      if i < |rows| {
        assert all[..i] == rows[..i];
      } else {
        var k := i - |rows| - 1;
        OwnerInGoal(rows, g, n, k);
        assert all[..i] == rows + [Milestone(g.id, g.title, GoalStatus(n))] + StepRows(g, n)[..k];
      }
    }
  }

  lemma {:induction false} NestedPlan(rows: seq<Row>, plan: seq<Goal>, counts: seq<nat>)
    requires Nested(rows) && |counts| == |plan|
    ensures Nested(rows + PlanRows(plan, counts))
  {
    hide Nested, GoalRows;
    if plan == [] {
      assert rows + PlanRows(plan, counts) == rows;
    } else {
      var n := |plan| - 1;
      NestedPlan(rows, plan[..n], counts[..n]);
      NestedGoal(rows + PlanRows(plan[..n], counts[..n]), plan[n], counts[n]);
      assert rows + PlanRows(plan, counts) == rows + PlanRows(plan[..n], counts[..n]) + GoalRows(plan[n], counts[n]);
    }
  }

  /** Step rows of a fresh plan: undamaged, not started, one for every step of every milestone. */
  lemma {:induction false} FreshSteps(plan: seq<Goal>, j: nat, k: nat)
    requires k < STEPS && j < |plan|
    ensures Step(plan[j].id, k, NotStarted, false) in PlanRows(plan, Zeros(|plan|))
  {
    var n := |plan| - 1;
    assert Zeros(|plan|)[..n] == Zeros(n);
    if j < n {
      FreshSteps(plan[..n], j, k);
    } else {
      assert GoalRows(plan[n], 0)[1 + k] == Step(plan[n].id, k, NotStarted, false);
    }
  }

  lemma {:induction false} FreshRows(plan: seq<Goal>)
    ensures forall row :: row in PlanRows(plan, Zeros(|plan|)) && row.Step? ==> !row.damaged
  {
    if plan != [] {
      var n := |plan| - 1;
      FreshRows(plan[..n]);
      assert Zeros(|plan|)[..n] == Zeros(n);
    }
  }

  lemma {:induction false} UpdateAt(plan: seq<Goal>, ws: seq<Work>, i: nat)
    requires Legal(plan, ws) && i < |ws|
    ensures |Updates(plan, ws)| == |ws| && ws[i].j < |plan|
    ensures Updates(plan, ws)[i].mid == plan[ws[i].j].id && Updates(plan, ws)[i].c < STEPS
  {
    hide GoodValue;
    var n := |ws| - 1;
    if n > 0 {
      UpdateAt(plan, ws[..n], if i < n then i else 0);
    }
  }

  lemma FreshMended(name: string, now: string, plan: seq<Goal>)
    ensures MendAll(BootstrapRows(name, now, plan)) == BootstrapRows(name, now, plan)
  {
    var rows := BootstrapRows(name, now, plan);
    FreshRows(plan);
    hide PlanRows, HeaderLine;
    forall i | 0 <= i < |rows| ensures Mend(rows[i]) == rows[i] {
      assert i >= 6 ==> rows[i] in PlanRows(plan, Zeros(|plan|));
    }
  }

  lemma HeadNested(name: string, updated: string, step: string)
    ensures Nested(HeadRows(name, updated, step))
  {
  }

  /** The steps that lose their tag are those of the milestones that were worked on. */
  lemma TagsLost(name: string, now: string, plan: seq<Goal>, ws: seq<Work>)
    requires GoodPlan(plan) && Legal(plan, ws)
    ensures var rows := BootstrapRows(name, now, plan);
            (forall i :: 0 <= i < |rows| && LosesTag(rows[i], Updates(plan, ws)) ==> Numeric(rows[i].mid)) <==>
            (forall i :: 0 <= i < |ws| ==> ws[i].j < |plan| && Numeric(plan[ws[i].j].id))
  {
    hide GoodPlan, Legal, Numeric, HeadRows, PlanRows, Updates;
    var rows, us := BootstrapRows(name, now, plan), Updates(plan, ws);
    if forall i :: 0 <= i < |rows| && LosesTag(rows[i], us) ==> Numeric(rows[i].mid) {
      forall i | 0 <= i < |ws| ensures ws[i].j < |plan| && Numeric(plan[ws[i].j].id) {
        UpdateAt(plan, ws, i);
        FreshSteps(plan, ws[i].j, us[i].c);
        var row := Step(plan[ws[i].j].id, us[i].c, NotStarted, false);
        assert row in rows;
        var r :| 0 <= r < |rows| && rows[r] == row;
        assert LosesTag(rows[r], us);
      }
    }
    if forall i :: 0 <= i < |ws| ==> ws[i].j < |plan| && Numeric(plan[ws[i].j].id) {
      forall r | 0 <= r < |rows| && LosesTag(rows[r], us) ensures Numeric(rows[r].mid) {
        FreshStep(name, now, plan, r);
        var i :| 0 <= i < |us| && us[i].mid == rows[r].mid && us[i].c == rows[r].k;
        UpdatesLength(plan, ws);
        UpdateAt(plan, ws, i);
      }
    }
  }

  lemma {:induction false} UpdatesLength(plan: seq<Goal>, ws: seq<Work>)
    requires Legal(plan, ws)
    ensures |Updates(plan, ws)| == |ws|
  {
    if ws != [] {
      UpdateAt(plan, ws, 0);
    }
  }

  lemma FreshStep(name: string, now: string, plan: seq<Goal>, r: nat)
    requires r < |BootstrapRows(name, now, plan)|
    ensures var row := BootstrapRows(name, now, plan)[r]; row.Step? ==> !row.damaged
  {
    FreshRows(plan);
    hide PlanRows, HeaderLine;
    assert r >= 6 ==> BootstrapRows(name, now, plan)[r] in PlanRows(plan, Zeros(|plan|));
  }

  /** From the bootstrap, repairing what the old updater leaves gives the corrected
      updater's file, if and only if every milestone worked on has an id without letter. */
  lemma OldRunFromBootstrap(name: string, now: string, plan: seq<Goal>, ws: seq<Work>)
    requires GoodName(name) && GoodValue(now) && GoodPlan(plan) && Legal(plan, ws)
    ensures GoodUpdates(Updates(plan, ws))
    ensures var boot := Print(BootstrapRows(name, now, plan));
            Repair(OldRun(boot, Updates(plan, ws))) == ProgressRuns.Run(boot, Updates(plan, ws)) <==>
            forall i :: 0 <= i < |ws| ==> ws[i].j < |plan| && Numeric(plan[ws[i].j].id)
  {
    UpdatesGood(plan, ws);
    hide GoodName, GoodPlan, Legal, Numeric, HeadRows, PlanRows, Updates, OldRun, ProgressRuns.Run, Print, Repair,
         LosesTag, GoodUpdates, GoodRows, Nested, MendAll;
    FirstStepGood();
    hide GoodValue;
    FileGood(name, now, FIRST_STEP, plan, Zeros(|plan|));
    HeadNested(name, now, FIRST_STEP);
    NestedPlan(HeadRows(name, now, FIRST_STEP), plan, Zeros(|plan|));
    FreshMended(name, now, plan);
    RepairedOldRun(BootstrapRows(name, now, plan), Updates(plan, ws));
    TagsLost(name, now, plan, ws);
  }

  /** The repaired file reads back as the corrected updater's, for every plan. */
  lemma RepairReadsBack(name: string, now: string, plan: seq<Goal>, ws: seq<Work>)
    requires GoodName(name) && GoodValue(now) && GoodPlan(plan) && Legal(plan, ws)
    ensures GoodUpdates(Updates(plan, ws))
    ensures var boot := Print(BootstrapRows(name, now, plan));
            Parse(Repair(OldRun(boot, Updates(plan, ws)))) == Parse(ProgressRuns.Run(boot, Updates(plan, ws)))
  {
    hide GoodName, GoodPlan, Print, FileRows, Updates, OldRun, ProgressRuns.Run, Repair, Legal, Parse, GoodRows,
         MendAll;
    UpdatesGood(plan, ws);
    FirstStepGood();
    hide GoodValue;
    FileGood(name, now, FIRST_STEP, plan, Zeros(|plan|));
    FreshMended(name, now, plan);
    RepairParses(BootstrapRows(name, now, plan), Updates(plan, ws));
  }

  lemma GoodSlices(us: seq<Update>, i: nat)
    requires GoodUpdates(us) && i <= |us|
    ensures GoodUpdates(us[..i]) && GoodUpdates(us[i..]) && us[..i] + us[i..] == us
  {
    hide GoodUpdate;
  }

  /** From the bootstrap of any plan: whenever the old updater is replaced by the corrected
      one, after one repair, the file reads back exactly the steps completed so far, the next
      ones in progress, and the headers of the last update. */
  lemma OldRunReadsBack(name: string, now: string, plan: seq<Goal>, ws: seq<Work>, i: nat)
    requires GoodName(name) && GoodValue(now) && GoodPlan(plan) && Legal(plan, ws) && i <= |ws|
    ensures var us := Updates(plan, ws);
            && |us| == |ws| && GoodUpdates(us[..i]) && GoodUpdates(us[i..])
            && Parse(ProgressRuns.Run(Repair(OldRun(Print(BootstrapRows(name, now, plan)), us[..i])), us[i..])) ==
               Parsed(UpdatedHeader(now, ws), "M0", StepHeader(plan, ws), Entries(plan, Counts(ws, |plan|)))
  {
    hide GoodName, GoodPlan, Legal, HeadRows, PlanRows, Updates, OldRun, ProgressRuns.Run, Print, Repair, GoodUpdates,
         GoodRows, MendAll, Parse, StepHeader, UpdatedHeader, Entries, Counts;
    var us := Updates(plan, ws);
    UpdatesGood(plan, ws);
    GoodSlices(us, i);
    FirstStepGood();
    hide GoodValue;
    FileGood(name, now, FIRST_STEP, plan, Zeros(|plan|));
    FreshMended(name, now, plan);
    RepairedOldRunParses(BootstrapRows(name, now, plan), us[..i], us[i..]);
    EveryRunIsReadable(name, now, plan, ws);
  }
}
