/** What an update does to the parsed file, without looking at its characters. */
module ProgressMeaning {
  import opened Wrappers
  import opened Progress
  import opened ProgressLines
  import opened ProgressRows
  import opened ProgressUpdates
  import opened ProgressRepair
  import opened ProgressRuns

  function AdvanceStep(step: (string, Status), c: nat): (string, Status)
    requires c < STEPS
  {
    if step.0 == StepId(c) && Open(step.1) then (step.0, Done)
    else if c + 1 < STEPS && step.0 == StepId(c + 1) && step.1 == NotStarted then (step.0, InProgress)
    else step
  }

  function AdvanceSteps(steps: seq<(string, Status)>, c: nat): seq<(string, Status)>
    requires c < STEPS
  {
    seq(|steps|, i requires 0 <= i < |steps| => AdvanceStep(steps[i], c))
  }

  /** Completing step `c` of `mid`: its step is done, the next one is in progress, and the
      milestone is done with its last step.  Entries of other milestones do not change. */
  function AdvanceEntry(e: Entry, mid: string, c: nat): Entry
    requires c < STEPS
  {
    if e.id != mid then e
    else Entry(e.id, e.title, if c + 1 == STEPS && Open(e.status) then Done else e.status, AdvanceSteps(e.steps, c))
  }

  function AdvanceEntries(es: seq<Entry>, mid: string, c: nat): seq<Entry>
    requires c < STEPS
  {
    seq(|es|, i requires 0 <= i < |es| => AdvanceEntry(es[i], mid, c))
  }

  predicate HasUpdated(rows: seq<Row>) { exists i :: 0 <= i < |rows| && rows[i].Updated? }

  predicate HasActiveStep(rows: seq<Row>) { exists i :: 0 <= i < |rows| && rows[i].ActiveStep? }

  /** The parsed file after an update: headers that are there get their new values. */
  function AdvanceParsed(p: Parsed, u: Update, timed: bool, stepped: bool): Parsed
    requires u.c < STEPS
  {
    Parsed(if timed then u.now else p.updated, p.milestone,
           if stepped then NextHeader(u.mid, u.c) else p.step, AdvanceEntries(p.entries, u.mid, u.c))
  }

  lemma StepRowMeaning(st: Status, k: nat, u: Update, m: string)
    requires k < STEPS && u.c < STEPS && m == u.mid
    ensures var row := AdvanceRow(Step(m, k, st, false), u.mid, u.c, u.now);
            row.Step? && row.k == k && !row.damaged && AdvanceStep((StepId(k), st), u.c) == (StepId(k), row.status)
  {
    StepIdsDiffer(k, u.c);
    if u.c + 1 < STEPS {
      StepIdsDiffer(k, u.c + 1);
    }
    hide StepId;
  }

  lemma WithStepAdvances(p: Parsed, k: nat, st: Status, u: Update)
    requires u.c < STEPS && k < STEPS && p.entries != []
    ensures var mid := p.entries[|p.entries| - 1].id;
            var st' := if mid == u.mid then AdvanceStep((StepId(k), st), u.c).1 else st;
            AdvanceEntries(WithStep(p, StepId(k), st).entries, u.mid, u.c) ==
            WithStep(p.(entries := AdvanceEntries(p.entries, u.mid, u.c)), StepId(k), st').entries
  {
    hide StepId;
    var n := |p.entries| - 1;
    var e := p.entries[n];
    var longer := e.(steps := e.steps + [(StepId(k), st)]);
    assert WithStep(p, StepId(k), st).entries == p.entries[..n] + [longer];
    if e.id == u.mid {
      assert AdvanceSteps(longer.steps, u.c) == AdvanceSteps(e.steps, u.c) + [AdvanceStep((StepId(k), st), u.c)];
    }
    assert AdvanceEntries(p.entries, u.mid, u.c)[..n] == AdvanceEntries(p.entries[..n], u.mid, u.c);
  }

  /** The updated row means to the updated file what the row means to the file. */
  lemma RowCommutes(p: Parsed, row: Row, u: Update, timed: bool, stepped: bool)
    requires GoodRow(row) && u.c < STEPS
    requires row.Step? ==> p.entries != [] && p.entries[|p.entries| - 1].id == row.mid
    ensures Interpret(AdvanceParsed(p, u, timed, stepped), AdvanceRow(row, u.mid, u.c, u.now)) ==
            AdvanceParsed(Interpret(p, row), u, timed || row.Updated?, stepped || row.ActiveStep?)
  {
    hide NextHeader, StepId, WithStep, GoodId, GoodTitle, GoodValue, GoodOther, AdvanceStep, GoodStatus;
    if row.Milestone? {
      var e := Entry(row.id, row.title, row.status, []);
      assert AdvanceEntries(p.entries + [e], u.mid, u.c) ==
        AdvanceEntries(p.entries, u.mid, u.c) + [AdvanceEntry(e, u.mid, u.c)];
      assert AdvanceSteps([], u.c) == [];
    } else if row.Step? && !row.damaged {
      WithStepAdvances(p, row.k, row.status, u);
      if row.mid == u.mid {
        StepRowMeaning(row.status, row.k, u, row.mid);
      }
      hide AdvanceEntries;
      StepInterpreted(p, row, u, timed, stepped);
    }
  }

  /** A step changes the entries only, and in a way that depends on the entries only. */
  lemma WithStepKeeps(p: Parsed, q: Parsed, sid: string, st: Status)
    requires p.entries == q.entries
    ensures WithStep(p, sid, st).entries == WithStep(q, sid, st).entries
    ensures var r := WithStep(p, sid, st); r.updated == p.updated && r.milestone == p.milestone && r.step == p.step
  {
  }

  lemma StepInterpreted(p: Parsed, row: Row, u: Update, timed: bool, stepped: bool)
    requires row.Step? && !row.damaged && row.k < STEPS && u.c < STEPS
    requires var after := AdvanceRow(row, u.mid, u.c, u.now);
             && after.Step? && after.k == row.k && !after.damaged
             && AdvanceEntries(WithStep(p, StepId(row.k), row.status).entries, u.mid, u.c) ==
                WithStep(p.(entries := AdvanceEntries(p.entries, u.mid, u.c)), StepId(row.k), after.status).entries
    ensures Interpret(AdvanceParsed(p, u, timed, stepped), AdvanceRow(row, u.mid, u.c, u.now)) ==
            AdvanceParsed(Interpret(p, row), u, timed, stepped)
  {
    hide NextHeader, StepId, AdvanceEntries, AdvanceRow, WithStep;
    var after := AdvanceRow(row, u.mid, u.c, u.now);
    var q := AdvanceParsed(p, u, timed, stepped);
    WithStepKeeps(p, p, StepId(row.k), row.status);
    WithStepKeeps(q, p.(entries := AdvanceEntries(p.entries, u.mid, u.c)), StepId(row.k), after.status);
  }

  lemma WithStepLast(p: Parsed, sid: string, st: Status)
    requires p.entries != []
    ensures var es := WithStep(p, sid, st).entries; es != [] && es[|es| - 1].id == p.entries[|p.entries| - 1].id
  {
  }

  /** The owner of the next step row is the last entry. */
  lemma {:induction false} OwnerIsLast(rows: seq<Row>)
    requires Owner(rows).Some?
    ensures var es := InterpretAll(rows).entries; es != [] && es[|es| - 1].id == Owner(rows).value
  {
    hide StepId, WithStep;
    var n := |rows| - 1;
    if !rows[n].Milestone? {
      OwnerIsLast(rows[..n]);
      if rows[n].Step? && rows[n].k < STEPS {
        WithStepLast(InterpretAll(rows[..n]), StepId(rows[n].k), rows[n].status);
      }
    }
  }

  lemma HeadersSnoc(rows: seq<Row>)
    requires rows != []
    ensures var n := |rows| - 1;
            && (HasUpdated(rows) <==> HasUpdated(rows[..n]) || rows[n].Updated?)
            && (HasActiveStep(rows) <==> HasActiveStep(rows[..n]) || rows[n].ActiveStep?)
  {
    var n := |rows| - 1;
    assert rows == rows[..n] + [rows[n]];
  }

  lemma {:induction false} MeaningAdvances(rows: seq<Row>, rows': seq<Row>, u: Update)
    requires GoodRows(rows) && Nested(rows) && GoodUpdate(u) && |rows'| == |rows|
    requires forall i :: 0 <= i < |rows| ==> rows'[i] == AdvanceRow(rows[i], u.mid, u.c, u.now)
    ensures InterpretAll(rows') == AdvanceParsed(InterpretAll(rows), u, HasUpdated(rows), HasActiveStep(rows))
  {
    hide AdvanceRow, Interpret, GoodRow, GoodUpdate, NextHeader, Owner, GoodId, GoodValue;
    assert u.c < STEPS by { GoodUpdateStep(u); }
    if rows == [] {
      assert AdvanceEntries([], u.mid, u.c) == [];
    } else {
      hide HasUpdated, HasActiveStep, AdvanceEntries;
      var n := |rows| - 1;
      NestedPrefix(rows, n);
      MeaningAdvances(rows[..n], rows'[..n], u);
      HeadersSnoc(rows);
      if rows[n].Step? {
        OwnerIsLast(rows[..n]);
      }
      RowCommutes(InterpretAll(rows[..n]), rows[n], u, HasUpdated(rows[..n]), HasActiveStep(rows[..n]));
    }
  }

  lemma NestedPrefix(rows: seq<Row>, n: nat)
    requires Nested(rows) && n <= |rows|
    ensures Nested(rows[..n])
  {
    hide Owner;
    forall i | 0 <= i < n && rows[..n][i].Step? ensures Owner(rows[..n][..i]) == Some(rows[..n][i].mid) {
      assert rows[..n][..i] == rows[..i];
    }
  }

  /** Parsing the updated text gives the update of the parsed text. */
  lemma ParseAfterAdvance(rows: seq<Row>, u: Update)
    requires GoodRows(rows) && Nested(rows) && GoodUpdate(u)
    ensures Parse(Advance(Print(rows), u.mid, u.c, u.now)) ==
            AdvanceParsed(Parse(Print(rows)), u, HasUpdated(rows), HasActiveStep(rows))
  {
    assert u.c < STEPS;
    hide Parse, Advance, Print, AdvanceParsed, GoodRow, AdvanceRow, GoodUpdate, Nested, GoodRows, HasUpdated,
         HasActiveStep;
    var rows' := seq(|rows|, i requires 0 <= i < |rows| => AdvanceRow(rows[i], u.mid, u.c, u.now));
    AdvancePrinted(rows, rows', u);
    ParsePrinted(rows);
    ParsePrinted(rows');
    MeaningAdvances(rows, rows', u);
  }

  /** A status that an update may still change. */
  predicate Unfinished(st: Status) { st == NotStarted || st == InProgress }

  /** The text of a line after an update: the completed step is done and the next one in
      progress if they were unfinished, and with the last step the milestone is done; headers
      get their new values and every other line stays. */
  ghost predicate LineAfter(row: Row, line: string, u: Update)
    requires GoodRow(row) && GoodUpdate(u)
  {
    match row
    case Updated(_) => line == HeaderLine("Last updated", u.now)
    case ActiveStep(_) => line == HeaderLine("Active step", NextHeader(u.mid, u.c))
    case Milestone(id, title, st) =>
      line == MilestoneLine(id, title, if id == u.mid && u.c == STEPS - 1 && Unfinished(st) then Done else st)
    case Step(mid, k, st, damaged) =>
      var st' := if mid == u.mid && k == u.c && Unfinished(st) then Done
                 else if mid == u.mid && k == u.c + 1 && st == NotStarted then InProgress
                 else st;
      line == if damaged then DamagedLine(k, st) else StepLine(mid, k, st')
    case Other(text) => line == text
    case ActiveMilestone(value) => line == HeaderLine("Active milestone", value)
  }

  lemma RowAfterIs(row: Row, u: Update)
    requires GoodRow(row) && GoodUpdate(u)
    ensures LineAfter(row, PrintRow(AdvanceRow(row, u.mid, u.c, u.now)), u)
  {
    hide HeaderLine, MilestoneLine, StepLine, DamagedLine, NextHeader, GoodId, GoodValue, GoodTitle, GoodOther;
  }

  /** Every line of a well-formed file after an update. */
  lemma LinesAfterAdvance(rows: seq<Row>, u: Update, i: nat)
    requires GoodRows(rows) && GoodUpdate(u) && i < |rows|
    ensures LineAfter(rows[i], Advance(Print(rows), u.mid, u.c, u.now)[i], u)
  {
    hide AdvanceLine, OldAdvanceLine, PrintRow, GoodRow, GoodId, GoodValue, LineAfter, AdvanceRow, OldAdvanceRow;
    assert Print(rows)[i] == PrintRow(rows[i]);
    AdvancePrintedRow(rows[i], i == 0, u.mid, u.c, u.now);
    RowAfterIs(rows[i], u);
  }
}
