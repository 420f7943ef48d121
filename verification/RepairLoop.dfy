/** The repair loop as the program runs it: one session that rewrites files, journal and
    bookkeeping in place, each method proved to compute the loop's specification. */
module RepairLoop {
  import opened Journal
  import opened TestRuns
  import opened RepairRounds
  import opened RepairTheorems

  lemma NoWrites(w: Workspace, outputs: seq<Output>, at: int)
    ensures ApplyAll(w, AgentWrites(outputs[..0], at)) == w
  {
  }

  lemma NextWrite(w: Workspace, outputs: seq<Output>, at: int, i: nat)
    requires i < |outputs|
    ensures ApplyAll(w, AgentWrites(outputs[..i + 1], at)) ==
            Apply(ApplyAll(w, AgentWrites(outputs[..i], at)), Write(outputs[i].path, outputs[i].content, at + i))
  {
    hide Apply;
    assert AgentWrites(outputs[..i + 1], at)[..i] == AgentWrites(outputs[..i], at);
  }

  class Session {
    const world: World

    // Project files and their journal.
    var files: Files
    var journal: seq<Entry>
    var clock: int

    // Bookkeeping of the loop.
    var baseline: set<string>
    var envSkip: set<string>
    var promoted: set<string>
    var attempts: map<string, nat>
    var abandoned: set<string>
    var fingerprints: seq<set<string>>
    var counts: seq<nat>
    var agentCalls: nat

    // Calls made for each test file.
    ghost var callsFor: map<string, nat>

    ghost function View(): State
      reads this
    {
      State(files, journal, clock, envSkip, promoted, attempts, abandoned, fingerprints, counts, agentCalls, callsFor)
    }

    constructor (world: World, files: Files, journal: seq<Entry>, clock: int)
      ensures this.world == world && View() == Beginning(files, journal, clock)
      ensures this.files == files && this.journal == journal && this.clock == clock && agentCalls == 0
      ensures envSkip == {} && promoted == {} && abandoned == {} && attempts == map[]
      ensures fingerprints == [] && counts == []
    {
      this.world, this.files, this.journal, this.clock := world, files, journal, clock;
      baseline, envSkip, promoted, abandoned := {}, {}, {}, {};
      attempts, fingerprints, counts, agentCalls, callsFor := map[], [], [], 0, map[];
    }

    method Now() returns (ts: int)
      modifies this`clock
      ensures ts == old(clock) && clock == old(clock) + 1
    {
      ts := clock;
      clock := clock + 1;
    }

    /** Records the previous content, then writes. */
    method JournaledWrite(path: string, content: string)
      modifies this`files, this`journal, this`clock
      ensures clock == old(clock) + 1
      ensures Workspace(files, journal) ==
              Apply(Workspace(old(files), old(journal)), Write(path, content, old(clock)))
      ensures files == old(files)[path := content]
      ensures journal ==
              old(journal) + [Entry(old(clock), path, if path in old(files) then old(files)[path] else "")]
    {
      var ts := Now();
      var prev := if path in files then files[path] else "";
      journal := journal + [Entry(ts, path, prev)];
      files := files[path := content];
    }

    /** Restores every file recorded at or after `since`, the most recent record first. */
    method RollbackWritesSince(since: int) returns (restored: nat)
      modifies this`files
      ensures files == Undo(old(files), Since(journal, since))
      ensures restored == |Since(journal, since)| == |Recorded(journal, since)|
    {
      SinceCounts(journal, since);
      var toRestore := Since(journal, since);
      restored := 0;
      var i := |toRestore|;
      assert toRestore[..i] == toRestore;
      while i > 0
        invariant 0 <= i <= |toRestore| && restored == |toRestore| - i
        invariant Undo(files, toRestore[..i]) == Undo(old(files), toRestore)
      {
        i := i - 1;
        var e := toRestore[i];
        assert toRestore[..i + 1][..i] == toRestore[..i];
        if e.prev != "" {
          files := files[e.path := e.prev];
        } else if e.path in files {
          files := files - {e.path};
        } else {
          assert files - {e.path} == files;
        }
        restored := restored + 1;
      }
    }

    /** One agent call: every file of the answer is journaled and written. */
    method CallAgent() returns (written: seq<string>)
      modifies this`files, this`journal, this`clock, this`agentCalls
      ensures View() == Called(world, old(View()))
      ensures |written| == |world.agent(old(agentCalls))|
      ensures forall k :: 0 <= k < |written| ==> written[k] == world.agent(old(agentCalls))[k].path
    {
      hide ApplyAll, Apply, AgentWrites;
      var outputs := world.agent(agentCalls);
      ghost var w := Workspace(files, journal);
      NoWrites(w, outputs, clock);
      agentCalls := agentCalls + 1;
      written := [];
      for i := 0 to |outputs|
        modifies this`files, this`journal, this`clock
        invariant clock == old(clock) + i && |written| == i
        invariant forall k :: 0 <= k < i ==> written[k] == outputs[k].path
        invariant Workspace(files, journal) == ApplyAll(w, AgentWrites(outputs[..i], old(clock)))
      {
        NextWrite(w, outputs, old(clock), i);
        JournaledWrite(outputs[i].path, outputs[i].content);
        written := written + [outputs[i].path];
      }
      assert outputs[..|outputs|] == outputs;
    }

    /** One agent call, undone at once if tests at risk fail afterwards. */
    method Attempt(atRisk: seq<string>)
      modifies this`files, this`journal, this`clock, this`agentCalls
      ensures View() == Attempted(world, old(View()), atRisk)
    {
      hide Called, Undo, Since;
      var since := Now();
      assert View() == old(View()).(clock := old(clock) + 1);
      var written := CallAgent();
      if atRisk != [] && written != [] && !world.together(files, atRisk) {
        var restored := RollbackWritesSince(since);
      }
    }

    /** The first attempt and the retries for one test file. */
    method AttemptAndRetry(test: string) returns (pass: bool)
      modifies this`files, this`journal, this`clock, this`agentCalls, this`attempts, this`abandoned, this`callsFor
      ensures View() == Repaired(world, old(View()), test)
      ensures pass <==> world.alone(files, test)
    {
      hide Attempted, Count;
      attempts := OneMore(attempts, test);
      var atRisk := world.atRisk(agentCalls, test);
      callsFor := OneMore(callsFor, test);
      Attempt(atRisk);
      pass := world.alone(files, test);
      var retry := 1;
      while retry <= PER_FILE_RETRIES && !pass
        invariant 1 <= retry <= PER_FILE_RETRIES + 1
        invariant pass <==> world.alone(files, test)
        invariant Retried(world, View(), test, atRisk, PER_FILE_RETRIES + 1 - retry) ==
                  Repaired(world, old(View()), test)
      {
        attempts := OneMore(attempts, test);
        if Count(attempts, test) > MAX_FILE_ATTEMPTS {
          abandoned := abandoned + {test};
          return;
        }
        callsFor := OneMore(callsFor, test);
        Attempt(atRisk);
        pass := world.alone(files, test);
        retry := retry + 1;
      }
    }

    /** Repairs one failing test file, unless it passes, is unreadable, lacks its tooling or
        has used up its attempts. */
    method RepairFile(test: string)
      modifies this`files, this`journal, this`clock, this`agentCalls,
               this`envSkip, this`promoted, this`attempts, this`abandoned, this`callsFor
      ensures View() == Tried(world, old(View()), baseline, test)
    {
      hide Repaired, Count;
      if world.alone(files, test) || !world.readable(files, test) {
        return;
      }
      if world.needsTooling(files, test) {
        envSkip := envSkip + {test};
        return;
      }
      var used := Count(attempts, test);
      attempts := attempts[test := used];
      if used >= MAX_FILE_ATTEMPTS {
        abandoned := abandoned + {test};
        return;
      }
      var pass := AttemptAndRetry(test);
      if pass && test in baseline {
        promoted := promoted + {test};
      }
    }

    /** The inner loop over the first failing test files of a round. */
    method RepairFiles(failing: seq<string>)
      modifies this`files, this`journal, this`clock, this`agentCalls,
               this`envSkip, this`promoted, this`attempts, this`abandoned, this`callsFor
      ensures View() == TriedAll(world, old(View()), baseline, Take(failing, MAX_FILE_ROUNDS))
    {
      hide Tried;
      ghost var tests := Take(failing, MAX_FILE_ROUNDS);
      var n := if |failing| < MAX_FILE_ROUNDS then |failing| else MAX_FILE_ROUNDS;
      for i := 0 to n
        invariant View() == TriedAll(world, old(View()), baseline, tests[..i])
      {
        assert tests[..i + 1][..i] == tests[..i];
        RepairFile(failing[i]);
      }
      assert tests[..n] == tests;
    }

    /** Records the failing set of this round unless an earlier round had the same one. */
    method RecordFingerprint(failing: seq<string>) returns (seen: bool)
      modifies this`fingerprints
      ensures var fingerprint := Fingerprint(failing, envSkip);
              && seen == (fingerprint in old(fingerprints))
              && fingerprints == if seen then old(fingerprints) else old(fingerprints) + [fingerprint]
    {
      var fingerprint := Fingerprint(failing, envSkip);
      seen := fingerprint in fingerprints;
      if !seen {
        fingerprints := fingerprints + [fingerprint];
      }
    }

    /** The end of a round: the regression guard, then the convergence checks. */
    method Judge(start: int) returns (end: RoundEnd)
      modifies this`files, this`counts
      ensures Verdict(View(), end) == Judged(world, old(View()), baseline, start)
    {
      hide Undo, Since, FailingSet, Green, Regressions;
      if Green(world, files) {
        return AllPass;
      }
      var named := FailingSet(world, files);
      var current := named - envSkip;
      if Regressions(current, baseline, promoted) != {} {
        var restored := RollbackWritesSince(start);
        return Regression;
      }
      var actionable := current - envSkip - abandoned;
      assert actionable == named - envSkip - abandoned;
      if |actionable| == 0 {
        return if named == {} then NoVerdict else NothingActionable;
      }
      assert actionable != {};
      counts := counts + [|actionable|];
      var n := |counts|;
      if n >= 3 && counts[n - 1] >= counts[n - 2] >= counts[n - 3] {
        return Stall;
      }
      return Next;
    }

    /** One round.  If it caused a regression it has been rolled back to its start. */
    method Round(iteration: nat) returns (end: RoundEnd)
      modifies this`files, this`journal, this`clock, this`agentCalls, this`envSkip, this`promoted, this`attempts,
               this`abandoned, this`callsFor, this`fingerprints, this`counts
      ensures Verdict(View(), end) == RoundOf(world, old(View()), baseline, iteration)
    {
      hide Green, Failing, Called, TriedAll, Judged, Fingerprint;
      var start := Now();
      if Green(world, files) {
        return AllPass;
      }
      var failing := Failing(world, files);
      var seen := RecordFingerprint(failing);
      if seen {
        return Oscillation;
      }
      if failing == [] {
        return NoReport;
      }
      if world.sharedRoot(iteration, files) {
        var written := CallAgent();
        failing := Failing(world, files);
      }
      RepairFiles(failing);
      end := Judge(start);
    }

    /** The whole loop.  Whatever the agent writes: every test outside the skipped ones that
        passed at the start, or was promoted in a round that was kept, passes at the end, if
        the last kept run of the suite was blind to none of them; only empty files that the
        rollback of the last round has lost can get in the way. */
    method Run() returns (end: RoundEnd)
      requires View() == Beginning(files, journal, clock) && Dated(View())
      modifies this
      ensures var e := Finish(world, old(files), old(journal), old(clock));
              var shield := Shield(world, old(files), e);
              && View() == e.state && end == e.end && baseline == FailingSet(world, old(files))
              && (files == LastJudged(e) && Whole(world, files, shield, envSkip) ==>
                  Safe(world, files, shield, envSkip))
              && (forall t :: Count(callsFor, t) <= MAX_FILE_ATTEMPTS)
    {
      hide RoundOf, FailingSet, PassingSet, Passes, Whole, Safe, Dated;
      RunProtects(world, files, journal, clock);
      RunIsBounded(world, files, journal, clock);
      baseline := FailingSet(world, files);
      end := Next;
      var iteration := 1;
      while iteration <= MAX_ITERATIONS && end == Next
        invariant 1 <= iteration <= MAX_ITERATIONS + 1
        invariant baseline == FailingSet(world, old(files))
        invariant var e := Finish(world, old(files), old(journal), old(clock));
                  if end == Next then RunOf(world, View(), baseline, iteration) == e
                  else View() == e.state && end == e.end
      {
        end := Round(iteration);
        iteration := iteration + 1;
      }
    }
  }
}
