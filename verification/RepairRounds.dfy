/** The repair loop of the implementation step as a function of its state: round after
    round an untrusted agent rewrites files, constrained by the write journal, a regression
    guard, a per-file attempt budget and an oscillation check. */
module RepairRounds {
  import opened Journal
  import opened TestRuns

  const MAX_ITERATIONS := 3
  const MAX_FILE_ROUNDS := 10
  const PER_FILE_RETRIES := 1
  const MAX_FILE_ATTEMPTS := 4
  const CALLS_PER_ROUND := 1 + MAX_FILE_ROUNDS * (1 + PER_FILE_RETRIES)

  /** `callsFor` counts the agent calls made for each test file; the program keeps no such
      count, only `attempts`. */
  datatype State = State(
    files: Files, journal: seq<Entry>, clock: int,
    envSkip: set<string>, promoted: set<string>, attempts: map<string, nat>, abandoned: set<string>,
    fingerprints: seq<set<string>>, counts: seq<nat>, agentCalls: nat, callsFor: map<string, nat>)

  function Beginning(files: Files, journal: seq<Entry>, clock: int): State {
    State(files, journal, clock, {}, {}, map[], {}, [], [], 0, map[])
  }

  /** Why a round ended the loop, if it did.  NoVerdict is a red suite after the repairs
      whose output names no test file, NoReport the same before them. */
  datatype RoundEnd = Next | AllPass | Oscillation | NoReport | Regression | NoVerdict | NothingActionable | Stall

  datatype Verdict = Verdict(state: State, end: RoundEnd)

  function Count(m: map<string, nat>, t: string): nat { if t in m then m[t] else 0 }

  function OneMore(m: map<string, nat>, t: string): map<string, nat> { m[t := Count(m, t) + 1] }

  // ----- Attempts -----

  /** The journaled writes of one agent answer, from time `at` on. */
  function AgentWrites(outputs: seq<Output>, at: int): seq<Event> {
    seq(|outputs|, i requires 0 <= i < |outputs| => Write(outputs[i].path, outputs[i].content, at + i))
  }

  /** One agent call: every file of the answer is journaled and written, in order. */
  function Called(world: World, s: State): State {
    var outputs := world.agent(s.agentCalls);
    var w := ApplyAll(Workspace(s.files, s.journal), AgentWrites(outputs, s.clock));
    s.(files := w.files, journal := w.journal, clock := s.clock + |outputs|, agentCalls := s.agentCalls + 1)
  }

  /** One agent call, undone at once if tests at risk fail afterwards. */
  function Attempted(world: World, s: State, atRisk: seq<string>): State {
    var s' := Called(world, s.(clock := s.clock + 1));
    if atRisk != [] && world.agent(s.agentCalls) != [] && !world.together(s'.files, atRisk)
    then s'.(files := Undo(s'.files, Since(s'.journal, s.clock))) else s'
  }

  function AttemptedFor(world: World, s: State, test: string, atRisk: seq<string>): State {
    Attempted(world, s.(callsFor := OneMore(s.callsFor, test)), atRisk)
  }

  /** The retries: each is counted before the limit is checked. */
  function Retried(world: World, s: State, test: string, atRisk: seq<string>, retries: nat): State
    decreases retries
  {
    if retries == 0 || world.alone(s.files, test) then s
    else
      var s' := s.(attempts := OneMore(s.attempts, test));
      if Count(s'.attempts, test) > MAX_FILE_ATTEMPTS then s'.(abandoned := s.abandoned + {test})
      else Retried(world, AttemptedFor(world, s', test, atRisk), test, atRisk, retries - 1)
  }

  function Repaired(world: World, s: State, test: string): State {
    var atRisk := world.atRisk(s.agentCalls, test);
    var s' := AttemptedFor(world, s.(attempts := OneMore(s.attempts, test)), test, atRisk);
    Retried(world, s', test, atRisk, PER_FILE_RETRIES)
  }

  /** The loop body for one failing test file. */
  function Tried(world: World, s: State, baseline: set<string>, test: string): State {
    if world.alone(s.files, test) || !world.readable(s.files, test) then s
    else if world.needsTooling(s.files, test) then s.(envSkip := s.envSkip + {test})
    else
      var s' := s.(attempts := s.attempts[test := Count(s.attempts, test)]);
      if Count(s.attempts, test) >= MAX_FILE_ATTEMPTS then s'.(abandoned := s.abandoned + {test})
      else
        var r := Repaired(world, s', test);
        if world.alone(r.files, test) && test in baseline then r.(promoted := r.promoted + {test}) else r
  }

  function TriedAll(world: World, s: State, baseline: set<string>, tests: seq<string>): State {
    if tests == [] then s
    else
      var n := |tests| - 1;
      Tried(world, TriedAll(world, s, baseline, tests[..n]), baseline, tests[n])
  }

  // ----- Rounds -----

  predicate NotDropping(counts: seq<nat>) {
    var n := |counts|;
    n >= 3 && counts[n - 1] >= counts[n - 2] >= counts[n - 3]
  }

  /** The end of a round that began at `start`: guard, then convergence checks. */
  function Judged(world: World, s: State, baseline: set<string>, start: int): Verdict {
    var named := FailingSet(world, s.files);
    var actionable := named - s.envSkip - s.abandoned;
    var s' := s.(counts := s.counts + [|actionable|]);
    if Green(world, s.files) then Verdict(s, AllPass)
    else if !Silent(world, s.files, baseline, s.promoted, s.envSkip)
    then Verdict(s.(files := Undo(s.files, Since(s.journal, start))), Regression)
    else if named == {} then Verdict(s, NoVerdict)
    else if actionable == {} then Verdict(s, NothingActionable)
    else Verdict(s', if NotDropping(s'.counts) then Stall else Next)
  }

  /** The failing test files of a round that are not skipped. */
  function Fingerprint(failing: seq<string>, skipped: set<string>): set<string> {
    set t | t in failing && t !in skipped
  }

  function Take(tests: seq<string>, n: nat): seq<string> { if |tests| <= n then tests else tests[..n] }

  function Fixed(world: World, s: State, iteration: nat): State {
    if world.sharedRoot(iteration, s.files) then Called(world, s) else s
  }

  function RoundOf(world: World, s: State, baseline: set<string>, iteration: nat): Verdict {
    var failing := Failing(world, s.files);
    var fingerprint := Fingerprint(failing, s.envSkip);
    var begun := s.(clock := s.clock + 1);
    var recorded := begun.(fingerprints := s.fingerprints + [fingerprint]);
    if Green(world, s.files) then Verdict(begun, AllPass)
    else if fingerprint in s.fingerprints then Verdict(begun, Oscillation)
    else if failing == [] then Verdict(recorded, NoReport)
    else
      var fixed := Fixed(world, recorded, iteration);
      var tests := Take(Failing(world, fixed.files), MAX_FILE_ROUNDS);
      Judged(world, TriedAll(world, fixed, baseline, tests), baseline, s.clock)
  }

  /** The end of the loop, with the state before its last round. */
  datatype Ending = Ending(state: State, end: RoundEnd, before: State)

  function RunOf(world: World, s: State, baseline: set<string>, iteration: nat): Ending
    decreases MAX_ITERATIONS + 1 - iteration
  {
    if iteration > MAX_ITERATIONS then Ending(s, Next, s)
    else
      var r := RoundOf(world, s, baseline, iteration);
      if r.end == Next then RunOf(world, r.state, baseline, iteration + 1) else Ending(r.state, r.end, s)
  }

  // ----- Every round can be undone -----

  ghost predicate Before(journal: seq<Entry>, limit: int) {
    forall k :: 0 <= k < |journal| ==> journal[k].ts < limit
  }

  ghost predicate Dated(s: State) { Before(s.journal, s.clock) }

  /** All records lie in the past, and the records since `start` lead back to `origin`. */
  ghost predicate Undoable(s: State, origin: Files, start: int) {
    start <= s.clock && Dated(s) && Traced(origin, s.files, Since(s.journal, start))
  }

  lemma {:induction false} WritesDated(w: Workspace, outputs: seq<Output>, at: int)
    requires Before(w.journal, at)
    ensures Before(ApplyAll(w, AgentWrites(outputs, at)).journal, at + |outputs|)
  {
    if outputs != [] {
      var n := |outputs| - 1;
      assert AgentWrites(outputs, at)[..n] == AgentWrites(outputs[..n], at);
      WritesDated(w, outputs[..n], at);
      WriteDated(ApplyAll(w, AgentWrites(outputs[..n], at)), outputs[n].path, outputs[n].content, at + n);
    }
  }

  lemma WriteDated(w: Workspace, path: string, content: string, at: int)
    requires Before(w.journal, at)
    ensures Before(Apply(w, Write(path, content, at)).journal, at + 1)
  {
  }

  lemma CalledKeeps(world: World, s: State, origin: Files, start: int)
    requires Undoable(s, origin, start)
    ensures Undoable(Called(world, s), origin, start)
  {
    hide Traced, Since, ApplyAll;
    var w, outputs := Workspace(s.files, s.journal), world.agent(s.agentCalls);
    WritesDated(w, outputs, s.clock);
    EventsKeepTraced(origin, w, start, AgentWrites(outputs, s.clock));
  }

  lemma LaterKeeps(s: State, origin: Files, start: int)
    requires Undoable(s, origin, start)
    ensures Undoable(s.(clock := s.clock + 1), origin, start)
  {
  }

  lemma AttemptedKeeps(world: World, s: State, origin: Files, start: int, atRisk: seq<string>)
    requires Undoable(s, origin, start)
    ensures Undoable(Attempted(world, s, atRisk), origin, start)
  {
    hide Traced, Since, ApplyAll, Undo;
    var later := s.(clock := s.clock + 1);
    LaterKeeps(s, origin, start);
    CalledKeeps(world, later, origin, start);
    var s' := Called(world, later);
    RollbackKeepsTraced(origin, Workspace(s'.files, s'.journal), start, s.clock);
  }

  /** An attempt that breaks tests at risk leaves the files as they were, except for
      overwritten files that existed empty; any other attempt stays. */
  lemma AttemptIsUndone(world: World, s: State, atRisk: seq<string>)
    requires Dated(s)
    ensures var tried := Called(world, s.(clock := s.clock + 1));
            var after := Attempted(world, s, atRisk);
            && after.journal == tried.journal
            && after.files == if atRisk != [] && world.agent(s.agentCalls) != [] && !world.together(tried.files, atRisk)
                              then WithoutEmpty(s.files, Since(tried.journal, s.clock)) else tried.files
  {
    hide Since, ApplyAll, Undo, WithoutEmpty;
    var w, events := Workspace(s.files, s.journal), AgentWrites(world.agent(s.agentCalls), s.clock + 1);
    RollbackRestores(w, s.clock, events);
  }

  // ----- Attempt budgets -----

  function Min(a: int, b: int): int { if a < b then a else b }

  /** Calls per test file are its attempts, cut off at the limit; only exhausted files
      are abandoned. */
  ghost predicate WithinBudget(attempts: map<string, nat>, calls: map<string, nat>, abandoned: set<string>) {
    && (forall t :: Count(calls, t) == Min(Count(attempts, t), MAX_FILE_ATTEMPTS))
    && (forall t :: t in abandoned ==> Count(calls, t) == MAX_FILE_ATTEMPTS)
  }

  ghost predicate Budgeted(s: State) { WithinBudget(s.attempts, s.callsFor, s.abandoned) }

  /** An attempt below the limit reaches the agent; one at the limit abandons the file. */
  lemma AttemptKeepsBudget(attempts: map<string, nat>, calls: map<string, nat>, abandoned: set<string>, test: string)
    requires WithinBudget(attempts, calls, abandoned)
    ensures Count(attempts, test) < MAX_FILE_ATTEMPTS ==>
              WithinBudget(OneMore(attempts, test), OneMore(calls, test), abandoned)
    ensures Count(attempts, test) >= MAX_FILE_ATTEMPTS ==>
              && WithinBudget(attempts[test := Count(attempts, test)], calls, abandoned + {test})
              && WithinBudget(OneMore(attempts, test), calls, abandoned + {test})
    ensures WithinBudget(attempts[test := Count(attempts, test)], calls, abandoned)
  {
    assert Count(calls, test) == Min(Count(attempts, test), MAX_FILE_ATTEMPTS);
    forall t
      ensures Count(OneMore(attempts, test), t) == Count(attempts, t) + (if t == test then 1 else 0)
      ensures Count(OneMore(calls, test), t) == Count(calls, t) + (if t == test then 1 else 0)
      ensures Count(attempts[test := Count(attempts, test)], t) == Count(attempts, t)
      ensures Count(calls, t) == Min(Count(attempts, t), MAX_FILE_ATTEMPTS)
    {
    }
  }

  lemma CountOneMore(m: map<string, nat>, t: string)
    ensures Count(OneMore(m, t), t) == Count(m, t) + 1 && Count(m[t := Count(m, t)], t) == Count(m, t)
  {
  }

  /** What the work on test files leaves alone. */
  predicate SameRound(s: State, s': State) { s'.fingerprints == s.fingerprints && s'.counts == s.counts }

  lemma AttemptedFrame(world: World, s: State, test: string, atRisk: seq<string>)
    ensures var s' := AttemptedFor(world, s, test, atRisk);
            && s'.attempts == s.attempts && s'.abandoned == s.abandoned && s'.callsFor == OneMore(s.callsFor, test)
            && s'.envSkip == s.envSkip && s'.promoted == s.promoted && SameRound(s, s')
            && s'.agentCalls == s.agentCalls + 1
  {
  }

  lemma {:induction false} RetriedKeeps(world: World, s: State, test: string, atRisk: seq<string>, retries: nat,
                                        origin: Files, start: int)
    requires Undoable(s, origin, start) && Budgeted(s)
    ensures var s' := Retried(world, s, test, atRisk, retries);
            && Undoable(s', origin, start) && Budgeted(s') && SameRound(s, s')
            && s'.envSkip == s.envSkip && s'.promoted == s.promoted
            && s.agentCalls <= s'.agentCalls <= s.agentCalls + retries
    decreases retries
  {
    hide Undoable, AttemptedFor, WithinBudget, OneMore, Count;
    if retries != 0 && !world.alone(s.files, test) {
      AttemptKeepsBudget(s.attempts, s.callsFor, s.abandoned, test);
      CountOneMore(s.attempts, test);
      var s' := s.(attempts := OneMore(s.attempts, test));
      SameWorkspace(s, s', origin, start);
      if Count(s'.attempts, test) > MAX_FILE_ATTEMPTS {
        SameWorkspace(s, s'.(abandoned := s.abandoned + {test}), origin, start);
      } else {
        AttemptedForKeeps(world, s', test, atRisk, origin, start);
        AttemptedFrame(world, s', test, atRisk);
        RetriedKeeps(world, AttemptedFor(world, s', test, atRisk), test, atRisk, retries - 1, origin, start);
      }
    }
  }

  lemma SameWorkspace(s: State, s': State, origin: Files, start: int)
    requires Undoable(s, origin, start) && s'.files == s.files && s'.journal == s.journal && s'.clock == s.clock
    ensures Undoable(s', origin, start)
  {
  }

  lemma AttemptedForKeeps(world: World, s: State, test: string, atRisk: seq<string>, origin: Files, start: int)
    requires Undoable(s, origin, start)
    ensures Undoable(AttemptedFor(world, s, test, atRisk), origin, start)
  {
    hide Attempted, Undoable;
    var s' := s.(callsFor := OneMore(s.callsFor, test));
    SameWorkspace(s, s', origin, start);
    AttemptedKeeps(world, s', origin, start, atRisk);
  }

  lemma RepairedKeeps(world: World, s: State, test: string, origin: Files, start: int)
    requires Undoable(s, origin, start) && Budgeted(s) && Count(s.attempts, test) < MAX_FILE_ATTEMPTS
    ensures var s' := Repaired(world, s, test);
            && Undoable(s', origin, start) && Budgeted(s') && SameRound(s, s')
            && s'.envSkip == s.envSkip && s'.promoted == s.promoted
            && s.agentCalls < s'.agentCalls <= s.agentCalls + 1 + PER_FILE_RETRIES
  {
    hide Undoable, AttemptedFor, WithinBudget, OneMore, Retried, Count;
    var atRisk := world.atRisk(s.agentCalls, test);
    var s' := s.(attempts := OneMore(s.attempts, test));
    AttemptKeepsBudget(s.attempts, s.callsFor, s.abandoned, test);
    SameWorkspace(s, s', origin, start);
    AttemptedForKeeps(world, s', test, atRisk, origin, start);
    AttemptedFrame(world, s', test, atRisk);
    RetriedKeeps(world, AttemptedFor(world, s', test, atRisk), test, atRisk, PER_FILE_RETRIES, origin, start);
  }

  /** Repairing one file keeps the round undoable and the budget, and makes at most two
      calls; it is skipped exactly when its tooling is missing, called for exactly within
      its budget, and promoted exactly when it failed at the baseline and its own run is green now. */
  lemma TriedKeeps(world: World, s: State, baseline: set<string>, test: string, origin: Files, start: int)
    requires Undoable(s, origin, start) && Budgeted(s)
    ensures var s' := Tried(world, s, baseline, test);
            var wanted := !world.alone(s.files, test) && world.readable(s.files, test);
            var tooling := world.needsTooling(s.files, test);
            && Undoable(s', origin, start) && Budgeted(s') && SameRound(s, s')
            && s'.agentCalls <= s.agentCalls + 1 + PER_FILE_RETRIES
            && s'.envSkip == s.envSkip + (if wanted && tooling then {test} else {})
            && (s'.agentCalls > s.agentCalls <==> wanted && !tooling && Count(s.attempts, test) < MAX_FILE_ATTEMPTS)
            && (s'.agentCalls <= s.agentCalls ==> s'.files == s.files && s'.agentCalls == s.agentCalls)
            && s'.promoted == s.promoted +
               (if s'.agentCalls > s.agentCalls && world.alone(s'.files, test) && test in baseline
                then {test} else {})
  {
    hide Undoable, WithinBudget, Repaired, OneMore, Count;
    AttemptKeepsBudget(s.attempts, s.callsFor, s.abandoned, test);
    CountOneMore(s.attempts, test);
    var s' := s.(attempts := s.attempts[test := Count(s.attempts, test)]);
    SameWorkspace(s, s', origin, start);
    var same := Tried(world, s, baseline, test).(files := s.files, journal := s.journal, clock := s.clock);
    SameWorkspace(s, same, origin, start);
    if Count(s.attempts, test) < MAX_FILE_ATTEMPTS {
      RepairedKeeps(world, s', test, origin, start);
      var r := Repaired(world, s', test);
      SameWorkspace(r, r.(promoted := r.promoted + {test}), origin, start);
    }
  }

  lemma {:induction false} TriedAllKeeps(world: World, s: State, baseline: set<string>, tests: seq<string>,
                                         origin: Files, start: int)
    requires Undoable(s, origin, start) && Budgeted(s)
    ensures var s' := TriedAll(world, s, baseline, tests);
            && Undoable(s', origin, start) && Budgeted(s') && SameRound(s, s')
            && s.agentCalls <= s'.agentCalls <= s.agentCalls + |tests| * (1 + PER_FILE_RETRIES)
            && s.envSkip <= s'.envSkip && s.promoted <= s'.promoted <= s.promoted + baseline
  {
    hide Undoable, Tried, Budgeted, Count;
    if tests != [] {
      var n := |tests| - 1;
      TriedAllKeeps(world, s, baseline, tests[..n], origin, start);
      TriedKeeps(world, TriedAll(world, s, baseline, tests[..n]), baseline, tests[n], origin, start);
    }
  }

  // ----- Whole rounds -----

  ghost predicate Different(fingerprints: seq<set<string>>) {
    forall i, j :: 0 <= i < j < |fingerprints| ==> fingerprints[i] != fingerprints[j]
  }

  /** The invariant between rounds: the guard finds nothing. */
  ghost predicate Settled(world: World, s: State, baseline: set<string>) {
    && Dated(s) && Budgeted(s) && Different(s.fingerprints) && s.promoted <= baseline
    && Silent(world, s.files, baseline, s.promoted, s.envSkip)
  }

  lemma GreenIsSilent(world: World, files: Files, baseline: set<string>, promoted: set<string>, skipped: set<string>)
    ensures Green(world, files) ==> Silent(world, files, baseline, promoted, skipped)
  {
    SilentMeans(world, files, baseline, promoted, skipped);
  }

  /** Why a red run names no file. */
  predicate Unreported(world: World, files: Files) {
    || !world.starts(files) || world.collected(files) == []
    || (AllPassing(world, files) && !world.gate(files))
  }

  /** The end of a round: a regression is undone, and without one the guard is silent. */
  lemma JudgedKeeps(world: World, s: State, baseline: set<string>, origin: Files, start: int)
    requires Undoable(s, origin, start) && Budgeted(s)
    ensures var v := Judged(world, s, baseline, start);
            && v.state == s.(files := v.state.files, counts := v.state.counts)
            && v.end != Oscillation && v.end != NoReport
            && (v.end == AllPass <==> Green(world, s.files))
            && (v.end != Regression ==>
                v.state.files == s.files && Silent(world, s.files, baseline, s.promoted, s.envSkip))
            && (v.end == Regression ==> !Silent(world, s.files, baseline, s.promoted, s.envSkip)
                                        && v.state.files == WithoutEmpty(origin, Since(s.journal, start)))
            && (v.end == NoVerdict ==> Unreported(world, s.files))
  {
    hide Traced, Undo, Since, Silent, FailingSet, WithoutEmpty, Green, NotDropping, AllPassing;
    GreenIsSilent(world, s.files, baseline, s.promoted, s.envSkip);
    UndoTraced(origin, s.files, Since(s.journal, start));
    RedWithoutReport(world, s.files);
  }

  lemma FixedKeeps(world: World, s: State, iteration: nat, origin: Files, start: int)
    requires Undoable(s, origin, start)
    ensures var s' := Fixed(world, s, iteration);
            && Undoable(s', origin, start) && SameRound(s, s') && s.agentCalls <= s'.agentCalls <= s.agentCalls + 1
            && s' == s.(files := s'.files, journal := s'.journal, clock := s'.clock, agentCalls := s'.agentCalls)
  {
    hide Undoable;
    CalledKeeps(world, s, origin, start);
  }

  lemma RecordKeeps(s: State, fingerprint: set<string>)
    requires Different(s.fingerprints) && fingerprint !in s.fingerprints
    ensures Different(s.fingerprints + [fingerprint])
  {
  }

  /** The working part of a round. */
  lemma WorkKeeps(world: World, s: State, baseline: set<string>, iteration: nat, origin: Files, start: int)
    requires Undoable(s, origin, start) && Budgeted(s) && s.promoted <= baseline
    ensures var fixed := Fixed(world, s, iteration);
            var s' := TriedAll(world, fixed, baseline, Take(Failing(world, fixed.files), MAX_FILE_ROUNDS));
            && Undoable(s', origin, start) && Budgeted(s') && SameRound(s, s')
            && s'.agentCalls <= s.agentCalls + CALLS_PER_ROUND
            && s.envSkip <= s'.envSkip && s.promoted <= s'.promoted <= baseline
  {
    hide Undoable, TriedAll, Failing, WithinBudget, Fixed;
    FixedKeeps(world, s, iteration, origin, start);
    var fixed := Fixed(world, s, iteration);
    TriedAllKeeps(world, fixed, baseline, Take(Failing(world, fixed.files), MAX_FILE_ROUNDS), origin, start);
  }

  lemma BegunKeeps(world: World, s: State, baseline: set<string>)
    requires Settled(world, s, baseline)
    ensures Settled(world, s.(clock := s.clock + 1), baseline)
    ensures Undoable(s.(clock := s.clock + 1), s.files, s.clock)
  {
    hide Silent, Different, WithinBudget, Traced;
    NothingToTrace(s.files, s.journal, s.clock);
  }

  /** One round.  If it is kept the guard is silent about its files; if it caused a
      regression the files are those of its start, up to empty ones. */
  lemma RoundKeeps(world: World, s: State, baseline: set<string>, iteration: nat)
    requires Settled(world, s, baseline)
    ensures var r := RoundOf(world, s, baseline, iteration);
            && s.envSkip <= r.state.envSkip && s.promoted <= r.state.promoted <= baseline
            && Budgeted(r.state) && Different(r.state.fingerprints)
            && r.state.agentCalls <= s.agentCalls + CALLS_PER_ROUND
            && (r.end != Regression ==> Settled(world, r.state, baseline))
            && (r.end == Regression ==> r.state.files == WithoutEmpty(s.files, Since(r.state.journal, s.clock)))
            && (r.end == AllPass ==> Green(world, r.state.files))
            && (r.end == NoVerdict || r.end == NoReport ==> Unreported(world, r.state.files))
  {
    hide Undoable, Budgeted, Different, Silent, Green, Failing, Fingerprint, Fixed, TriedAll, Judged, WithoutEmpty,
         Since, Dated, AllPassing;
    BegunKeeps(world, s, baseline);
    var failing := Failing(world, s.files);
    var fingerprint := Fingerprint(failing, s.envSkip);
    var begun := s.(clock := s.clock + 1);
    var recorded := begun.(fingerprints := s.fingerprints + [fingerprint]);
    if !Green(world, s.files) && fingerprint !in s.fingerprints {
      RecordKeeps(begun, fingerprint);
      SameWorkspace(begun, recorded, s.files, s.clock);
      SameBooks(begun, recorded);
      if failing == [] {
        RedWithoutReport(world, s.files);
        NamesNothing(world, s.files);
      } else {
        WorkKeeps(world, recorded, baseline, iteration, s.files, s.clock);
        var fixed := Fixed(world, recorded, iteration);
        var worked := TriedAll(world, fixed, baseline, Take(Failing(world, fixed.files), MAX_FILE_ROUNDS));
        JudgedKeeps(world, worked, baseline, s.files, s.clock);
        JudgedBooks(world, worked, baseline, s.files, s.clock);
      }
    }
  }

  lemma NamesNothing(world: World, files: Files)
    requires Failing(world, files) == []
    ensures FailingSet(world, files) == {}
  {
  }

  lemma SameBooks(s: State, s': State)
    requires s'.attempts == s.attempts && s'.callsFor == s.callsFor && s'.abandoned == s.abandoned
    requires s'.journal == s.journal && s'.clock == s.clock
    ensures Budgeted(s) ==> Budgeted(s')
    ensures Dated(s) ==> Dated(s')
  {
  }

  lemma JudgedBooks(world: World, s: State, baseline: set<string>, origin: Files, start: int)
    requires Undoable(s, origin, start) && Budgeted(s)
    ensures Budgeted(Judged(world, s, baseline, start).state) && Dated(Judged(world, s, baseline, start).state)
  {
    hide WithinBudget, Traced, Silent, Green, NotDropping;
  }
}
