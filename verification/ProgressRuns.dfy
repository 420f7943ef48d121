/** Any sequence of updates of a progress file: the corrected updater keeps every line
    readable, and repairing after the old updater gives the same file. */
module ProgressRuns {
  import opened Wrappers
  import opened Progress
  import opened ProgressLines
  import opened ProgressRows
  import opened ProgressUpdates
  import opened ProgressRepair

  /** Step `c` of milestone `mid` is completed at time `now`. */
  datatype Update = Update(mid: string, c: nat, now: string)

  ghost predicate GoodUpdate(u: Update) { GoodId(u.mid) && u.c < STEPS && GoodValue(u.now) }

  ghost predicate GoodUpdates(us: seq<Update>) { forall i :: 0 <= i < |us| ==> GoodUpdate(us[i]) }

  /** The file after a sequence of updates. */
  ghost function Run(lines: seq<string>, us: seq<Update>): seq<string>
    requires GoodUpdates(us)
  {
    if us == [] then lines
    else
      var n := |us| - 1;
      assert GoodUpdate(us[n]);
      Advance(Run(lines, us[..n]), us[n].mid, us[n].c, us[n].now)
  }

  ghost function OldRun(lines: seq<string>, us: seq<Update>): seq<string>
    requires GoodUpdates(us)
  {
    if us == [] then lines
    else
      var n := |us| - 1;
      assert GoodUpdate(us[n]);
      OldAdvance(OldRun(lines, us[..n]), us[n].mid, us[n].c, us[n].now)
  }

  ghost function RowAfter(row: Row, us: seq<Update>): Row
    requires GoodUpdates(us)
  {
    if us == [] then row
    else
      var n := |us| - 1;
      assert GoodUpdate(us[n]);
      AdvanceRow(RowAfter(row, us[..n]), us[n].mid, us[n].c, us[n].now)
  }

  ghost function OldRowAfter(row: Row, us: seq<Update>): Row
    requires GoodUpdates(us)
  {
    if us == [] then row
    else
      var n := |us| - 1;
      assert GoodUpdate(us[n]);
      OldAdvanceRow(OldRowAfter(row, us[..n]), us[n].mid, us[n].c, us[n].now)
  }

  ghost function RowsAfter(rows: seq<Row>, us: seq<Update>): seq<Row>
    requires GoodUpdates(us)
  {
    seq(|rows|, i requires 0 <= i < |rows| => RowAfter(rows[i], us))
  }

  ghost function OldRowsAfter(rows: seq<Row>, us: seq<Update>): seq<Row>
    requires GoodUpdates(us)
  {
    seq(|rows|, i requires 0 <= i < |rows| => OldRowAfter(rows[i], us))
  }

  // ----- Files as rows -----

  lemma AdvancePrinted(rows: seq<Row>, rows': seq<Row>, u: Update)
    requires GoodRows(rows) && GoodUpdate(u) && |rows'| == |rows|
    requires forall i :: 0 <= i < |rows| ==> rows'[i] == AdvanceRow(rows[i], u.mid, u.c, u.now)
    ensures GoodRows(rows') && Advance(Print(rows), u.mid, u.c, u.now) == Print(rows')
  {
    hide AdvanceRow, OldAdvanceRow, AdvanceLine, OldAdvanceLine, PrintRow, GoodRow, GoodId, GoodValue;
    forall i | 0 <= i < |rows|
      ensures GoodRow(rows'[i]) && Advance(Print(rows), u.mid, u.c, u.now)[i] == PrintRow(rows'[i])
    {
      AdvancePrintedRow(rows[i], i == 0, u.mid, u.c, u.now);
    }
  }

  lemma OldAdvancePrinted(rows: seq<Row>, rows': seq<Row>, u: Update)
    requires GoodRows(rows) && GoodUpdate(u) && |rows'| == |rows|
    requires forall i :: 0 <= i < |rows| ==> rows'[i] == OldAdvanceRow(rows[i], u.mid, u.c, u.now)
    ensures GoodRows(rows') && OldAdvance(Print(rows), u.mid, u.c, u.now) == Print(rows')
  {
    hide AdvanceRow, OldAdvanceRow, AdvanceLine, OldAdvanceLine, PrintRow, GoodRow, GoodId, GoodValue;
    forall i | 0 <= i < |rows|
      ensures GoodRow(rows'[i]) && OldAdvance(Print(rows), u.mid, u.c, u.now)[i] == PrintRow(rows'[i])
    {
      AdvancePrintedRow(rows[i], i == 0, u.mid, u.c, u.now);
    }
  }

  /** Every sequence of updates acts row by row, and every row stays readable. */
  lemma {:induction false} RunPrinted(rows: seq<Row>, us: seq<Update>)
    requires GoodRows(rows) && GoodUpdates(us)
    ensures GoodRows(RowsAfter(rows, us)) && Run(Print(rows), us) == Print(RowsAfter(rows, us))
  {
    hide Advance, AdvanceRow, PrintRow, GoodRow, GoodUpdate;
    if us == [] {
      assert RowsAfter(rows, us) == rows;
    } else {
      var n := |us| - 1;
      assert GoodUpdate(us[n]);
      RunPrinted(rows, us[..n]);
      AdvancePrinted(RowsAfter(rows, us[..n]), RowsAfter(rows, us), us[n]);
    }
  }

  lemma {:induction false} OldRunPrinted(rows: seq<Row>, us: seq<Update>)
    requires GoodRows(rows) && GoodUpdates(us)
    ensures GoodRows(OldRowsAfter(rows, us)) && OldRun(Print(rows), us) == Print(OldRowsAfter(rows, us))
  {
    hide OldAdvance, OldAdvanceRow, PrintRow, GoodRow, GoodUpdate;
    if us == [] {
      assert OldRowsAfter(rows, us) == rows;
    } else {
      var n := |us| - 1;
      assert GoodUpdate(us[n]);
      OldRunPrinted(rows, us[..n]);
      OldAdvancePrinted(OldRowsAfter(rows, us[..n]), OldRowsAfter(rows, us), us[n]);
    }
  }

  // ----- The old updater, repaired -----

  ghost predicate Completes(us: seq<Update>, mid: string, k: nat) {
    exists i :: 0 <= i < |us| && us[i].mid == mid && us[i].c == k
  }

  /** The row has no tag after the old updater has run. */
  ghost predicate LosesTag(row: Row, us: seq<Update>) {
    row.Step? && (row.damaged || (Open(row.status) && Completes(us, row.mid, row.k)))
  }

  lemma CompletesSnoc(us: seq<Update>, mid: string, k: nat)
    requires us != []
    ensures var n := |us| - 1;
            Completes(us, mid, k) <==> Completes(us[..n], mid, k) || (us[n].mid == mid && us[n].c == k)
  {
    var n := |us| - 1;
    if Completes(us[..n], mid, k) {
      var i :| 0 <= i < n && us[..n][i].mid == mid && us[..n][i].c == k;
      assert us[i].mid == mid;
    }
    if Completes(us, mid, k) {
      var i :| 0 <= i < |us| && us[i].mid == mid && us[i].c == k;
      assert i < n ==> us[..n][i].mid == mid;
    }
  }

  /** A row under the old updater: same kind and place, tag lost exactly when a step that
      was open is completed, and otherwise what the corrected updater makes of it. */
  lemma {:induction false} OldRow(row: Row, us: seq<Update>)
    requires GoodRow(row) && GoodUpdates(us)
    ensures var after := OldRowAfter(row, us);
            && (after.Step? <==> row.Step?) && (after.Milestone? <==> row.Milestone?)
            && (row.Step? ==> after.mid == row.mid && after.k == row.k && (after.damaged ==> after.status == Done)
                              && (after.damaged <==> LosesTag(row, us)) && (Open(after.status) ==> Open(row.status))
                              && (Open(row.status) && !Completes(us, row.mid, row.k) ==> Open(after.status)))
            && (row.Milestone? ==> after.id == row.id)
            && Mend(after) == RowAfter(Mend(row), us)
  {
    hide GoodId, GoodValue, NextHeader, GoodTitle, GoodStatus, GoodOther, Completes;
    if us == [] {
      assert row.Step? ==> !Completes(us, row.mid, row.k) by { NoUpdates(us); }
    } else {
      var n := |us| - 1;
      assert GoodUpdate(us[n]);
      OldRow(row, us[..n]);
      if row.Step? {
        CompletesSnoc(us, row.mid, row.k);
      }
    }
  }

  lemma NoUpdates(us: seq<Update>)
    requires us == []
    ensures forall mid, k :: !Completes(us, mid, k)
  {
  }

  // ----- Owners depend only on milestones -----

  ghost predicate SameShape(rows: seq<Row>, rows': seq<Row>) {
    && |rows| == |rows'|
    && (forall i :: 0 <= i < |rows| ==> (rows[i].Milestone? <==> rows'[i].Milestone?))
    && (forall i :: 0 <= i < |rows| ==> (rows[i].Step? <==> rows'[i].Step?))
    && (forall i :: 0 <= i < |rows| && rows[i].Milestone? ==> rows[i].id == rows'[i].id)
    && (forall i :: 0 <= i < |rows| && rows[i].Step? ==> rows[i].mid == rows'[i].mid)
  }

  lemma {:induction false} SameOwner(rows: seq<Row>, rows': seq<Row>)
    requires SameShape(rows, rows')
    ensures Owner(rows) == Owner(rows')
  {
    if rows != [] {
      SameOwner(rows[..|rows| - 1], rows'[..|rows| - 1]);
    }
  }

  lemma SameNesting(rows: seq<Row>, rows': seq<Row>)
    requires SameShape(rows, rows') && Nested(rows)
    ensures Nested(rows')
  {
    hide Owner;
    forall i | 0 <= i < |rows'| && rows'[i].Step? ensures Owner(rows'[..i]) == Some(rows'[i].mid) {
      SameOwner(rows[..i], rows'[..i]);
    }
  }

  lemma OldRowsShape(rows: seq<Row>, us: seq<Update>)
    requires GoodRows(rows) && GoodUpdates(us)
    ensures SameShape(rows, OldRowsAfter(rows, us))
    ensures MendAll(OldRowsAfter(rows, us)) == RowsAfter(MendAll(rows), us)
    ensures forall i :: 0 <= i < |rows| && rows[i].Step? ==>
            (OldRowsAfter(rows, us)[i].damaged <==> LosesTag(rows[i], us))
  {
    hide OldRowAfter, RowAfter, GoodRow, GoodUpdates, LosesTag, Mend;
    forall i | 0 <= i < |rows|
      ensures var after := OldRowAfter(rows[i], us);
              && (after.Step? <==> rows[i].Step?) && (after.Milestone? <==> rows[i].Milestone?)
              && (rows[i].Step? ==> after.mid == rows[i].mid && (after.damaged <==> LosesTag(rows[i], us)))
              && (rows[i].Milestone? ==> after.id == rows[i].id)
              && Mend(after) == RowAfter(Mend(rows[i]), us)
    {
      OldRow(rows[i], us);
    }
  }

  lemma MendAllGood(rows: seq<Row>)
    requires GoodRows(rows)
    ensures GoodRows(MendAll(rows))
  {
    hide GoodId, GoodTitle, GoodStatus, GoodValue, GoodOther;
    forall i | 0 <= i < |rows| ensures GoodRow(MendAll(rows)[i]) {
      assert GoodRow(rows[i]);
    }
  }

  /** Repairing the file that the old updater leaves gives, character by character, the
      file that the corrected updater would have left, if and only if no step that loses
      its tag belongs to a milestone whose id ends in a letter. */
  lemma RepairedOldRun(rows: seq<Row>, us: seq<Update>)
    requires GoodRows(rows) && Nested(rows) && GoodUpdates(us)
    ensures Repair(OldRun(Print(rows), us)) == Run(Print(MendAll(rows)), us) <==>
            forall i :: 0 <= i < |rows| && LosesTag(rows[i], us) ==> Numeric(rows[i].mid)
  {
    hide GoodRows, Nested, GoodUpdates, LosesTag, OldRun, Run, OldRowsAfter, Repair, Print, MendAll, RowsAfter, Numeric;
    var after := OldRowsAfter(rows, us);
    OldRunPrinted(rows, us);
    OldRowsShape(rows, us);
    SameNesting(rows, after);
    RepairExactly(after);
    MendAllGood(rows);
    RunPrinted(MendAll(rows), us);
    LetteredAfter(rows, after, us);
  }

  lemma LetteredAfter(rows: seq<Row>, after: seq<Row>, us: seq<Update>)
    requires SameShape(rows, after)
    requires forall i :: 0 <= i < |rows| && rows[i].Step? ==> (after[i].damaged <==> LosesTag(rows[i], us))
    ensures (forall i :: 0 <= i < |rows| ==> !Lettered(after[i])) <==>
            forall i :: 0 <= i < |rows| && LosesTag(rows[i], us) ==> Numeric(rows[i].mid)
  {
    hide Numeric, Completes, Open;
    if forall i :: 0 <= i < |rows| ==> !Lettered(after[i]) {
      forall i | 0 <= i < |rows| && LosesTag(rows[i], us) ensures Numeric(rows[i].mid) {
        assert !Lettered(after[i]);
      }
    }
  }

  // ----- What is read back after a repair -----

  /** Rows that differ at most in the milestone of a tag whose step is done. */
  ghost predicate Alike(row: Row, row': Row) {
    || row == row'
    || (row.Step? && row'.Step? && row.k == row'.k && !row.damaged && !row'.damaged && row.status == row'.status ==
      Done)
  }

  ghost predicate AllAlike(rows: seq<Row>, rows': seq<Row>) {
    |rows| == |rows'| && forall i :: 0 <= i < |rows| ==> Alike(rows[i], rows'[i])
  }

  /** The parser drops the milestone of a tag and goes by the latest milestone line. */
  lemma {:induction false} AlikeMeansAlike(rows: seq<Row>, rows': seq<Row>)
    requires AllAlike(rows, rows')
    ensures InterpretAll(rows) == InterpretAll(rows')
  {
    hide WithStep, StepId;
    if rows != [] {
      var n := |rows| - 1;
      assert Alike(rows[n], rows'[n]);
      AlikeMeansAlike(rows[..n], rows'[..n]);
    }
  }

  lemma AlikeParse(rows: seq<Row>, rows': seq<Row>)
    requires GoodRows(rows) && GoodRows(rows') && AllAlike(rows, rows')
    ensures Parse(Print(rows)) == Parse(Print(rows'))
  {
    hide GoodRows, AllAlike, Parse, Print, InterpretAll;
    ParsePrinted(rows);
    ParsePrinted(rows');
    AlikeMeansAlike(rows, rows');
  }

  /** Repairing gives every damaged row some tag, of a milestone the repairer recognises. */
  lemma RepairedIsAlike(rows: seq<Row>)
    requires GoodRows(rows)
    ensures GoodRows(RepairRows(rows)) && AllAlike(RepairRows(rows), MendAll(rows))
  {
    hide GoodId, GoodTitle, GoodStatus, GoodValue, GoodOther, RecognisedMid, Numeric, Owner;
    forall i | 0 <= i < |rows|
      ensures GoodRow(RepairRows(rows)[i]) && Alike(RepairRows(rows)[i], MendAll(rows)[i])
    {
      assert GoodRow(rows[i]);
      RecognisedIsOwner(rows[..i]);
    }
  }

  /** Later updates touch no step that is done, whatever its tag says. */
  lemma {:induction false} StaysAlike(row: Row, row': Row, us: seq<Update>)
    requires Alike(row, row') && GoodUpdates(us)
    ensures Alike(RowAfter(row, us), RowAfter(row', us))
  {
    if us != [] {
      hide GoodUpdate, NextHeader;
      assert GoodUpdate(us[|us| - 1]);
      GoodUpdateStep(us[|us| - 1]);
      StaysAlike(row, row', us[..|us| - 1]);
    }
  }

  lemma GoodUpdateStep(u: Update)
    requires GoodUpdate(u)
    ensures u.c < STEPS
  {
  }

  lemma AllStayAlike(rows: seq<Row>, rows': seq<Row>, us: seq<Update>)
    requires AllAlike(rows, rows') && GoodUpdates(us)
    ensures AllAlike(RowsAfter(rows, us), RowsAfter(rows', us))
  {
    hide Alike, RowAfter, GoodUpdates;
    forall i | 0 <= i < |rows| ensures Alike(RowsAfter(rows, us)[i], RowsAfter(rows', us)[i]) {
      StaysAlike(rows[i], rows'[i], us);
    }
  }

  lemma {:induction false} RunOn(lines: seq<string>, us: seq<Update>, vs: seq<Update>)
    requires GoodUpdates(us) && GoodUpdates(vs)
    ensures GoodUpdates(us + vs) && Run(lines, us + vs) == Run(Run(lines, us), vs)
  {
    hide Advance, GoodUpdate;
    if vs == [] {
      assert us + vs == us;
    } else {
      var n := |vs| - 1;
      RunOn(lines, us, vs[..n]);
      assert (us + vs)[..|us + vs| - 1] == us + vs[..n];
      assert GoodUpdate(vs[n]) && (us + vs)[|us + vs| - 1] == vs[n];
    }
  }

  /** Repairing what the old updater leaves and going on with the corrected one reads back as
      if the corrected updater had made all the updates, for every milestone id and every
      nesting of the rows. */
  lemma RepairedOldRunParses(rows: seq<Row>, us: seq<Update>, vs: seq<Update>)
    requires GoodRows(rows) && GoodUpdates(us) && GoodUpdates(vs)
    ensures GoodUpdates(us + vs)
    ensures Parse(Run(Repair(OldRun(Print(rows), us)), vs)) == Parse(Run(Print(MendAll(rows)), us + vs))
  {
    hide GoodRows, GoodUpdates, Run, OldRun, Repair, Print, Parse, MendAll, RepairRows, OldRowsAfter, RowsAfter,
         AllAlike,
         LosesTag, SameShape;
    var after := OldRowsAfter(rows, us);
    OldRunPrinted(rows, us);
    OldRowsShape(rows, us);
    RepairPrinted(after);
    RepairedIsAlike(after);
    MendAllGood(rows);
    RunPrinted(MendAll(rows), us);
    var repaired, meant := RepairRows(after), RowsAfter(MendAll(rows), us);
    RunPrinted(repaired, vs);
    RunPrinted(meant, vs);
    AllStayAlike(repaired, meant, vs);
    AlikeParse(RowsAfter(repaired, vs), RowsAfter(meant, vs));
    RunOn(Print(MendAll(rows)), us, vs);
  }

  /** In particular the repaired file itself reads back as the corrected updater's. */
  lemma RepairParses(rows: seq<Row>, us: seq<Update>)
    requires GoodRows(rows) && GoodUpdates(us)
    ensures Parse(Repair(OldRun(Print(rows), us))) == Parse(Run(Print(MendAll(rows)), us))
  {
    hide GoodRows, Parse, Repair, OldRun, Print, MendAll;
    RepairedOldRunParses(rows, us, []);
    assert us + [] == us;
  }
}
