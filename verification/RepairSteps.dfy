/** What single steps of the repair loop do, said in terms of files, calls and named tests,
    and the loop as the sequence of its rounds. */
module RepairSteps {
  import opened Journal
  import opened TestRuns
  import opened RepairRounds

  // ----- One agent call -----

  /** The k-th output is the last one for this path. */
  predicate LastFor(outputs: seq<Output>, k: int, path: string) {
    0 <= k < |outputs| && outputs[k].path == path && forall j :: k < j < |outputs| ==> outputs[j].path != path
  }

  predicate Mentions(outputs: seq<Output>, path: string) {
    exists k :: 0 <= k < |outputs| && outputs[k].path == path
  }

  /** Every path of the answer holds its last output, and every other path is as it was. */
  ghost predicate Written(files: Files, files': Files, outputs: seq<Output>) {
    && (forall k, path :: LastFor(outputs, k, path) ==> path in files' && files'[path] == outputs[k].content)
    && (forall path :: !Mentions(outputs, path) ==> SameAt(files, files', path))
  }

  /** The record of the k-th output: its path, its time, and what was there before it. */
  ghost predicate NotedAt(files: Files, outputs: seq<Output>, k: nat, e: Entry, at: int)
    requires k < |outputs|
  {
    && e.path == outputs[k].path && e.ts == at + k
    && (!Mentions(outputs[..k], e.path) ==> e.prev == Content(files, e.path))
    && (forall j :: LastFor(outputs[..k], j, e.path) ==> e.prev == outputs[j].content)
  }

  /** One record for each output, in order. */
  ghost predicate Noted(files: Files, added: seq<Entry>, outputs: seq<Output>, at: int) {
    |added| == |outputs| && forall k :: 0 <= k < |added| ==> NotedAt(files, outputs, k, added[k], at)
  }

  lemma MentionsNext(outputs: seq<Output>, path: string)
    requires outputs != []
    ensures var n := |outputs| - 1;
            Mentions(outputs, path) <==> Mentions(outputs[..n], path) || outputs[n].path == path
  {
    var n := |outputs| - 1;
    if Mentions(outputs[..n], path) {
      var k :| 0 <= k < n && outputs[..n][k].path == path;
      assert outputs[k].path == path;
    }
    if Mentions(outputs, path) {
      var k :| 0 <= k < |outputs| && outputs[k].path == path;
      assert k < n ==> outputs[..n][k].path == path;
    }
  }

  lemma WrittenNext(files: Files, middle: Files, outputs: seq<Output>)
    requires outputs != [] && Written(files, middle, outputs[..|outputs| - 1])
    ensures var o := outputs[|outputs| - 1]; Written(files, middle[o.path := o.content], outputs)
  {
    var n := |outputs| - 1;
    var files' := middle[outputs[n].path := outputs[n].content];
    forall k, path | LastFor(outputs, k, path) ensures path in files' && files'[path] == outputs[k].content {
      if k < n {
        assert outputs[n].path != path;
        assert LastFor(outputs[..n], k, path);
      }
    }
    forall path | !Mentions(outputs, path) ensures SameAt(files, files', path) {
      MentionsNext(outputs, path);
    }
  }

  lemma ContentBefore(files: Files, middle: Files, outputs: seq<Output>, path: string)
    requires Written(files, middle, outputs)
    ensures !Mentions(outputs, path) ==> Content(middle, path) == Content(files, path)
    ensures forall j :: LastFor(outputs, j, path) ==> Content(middle, path) == outputs[j].content
  {
  }

  lemma NotedPrefix(files: Files, outputs: seq<Output>, k: nat, e: Entry, at: int)
    requires k < |outputs| - 1 && NotedAt(files, outputs[..|outputs| - 1], k, e, at)
    ensures NotedAt(files, outputs, k, e, at)
  {
    assert outputs[..|outputs| - 1][..k] == outputs[..k];
  }

  lemma NotedNext(files: Files, middle: Files, added: seq<Entry>, outputs: seq<Output>, at: int)
    requires outputs != [] && Noted(files, added, outputs[..|outputs| - 1], at)
    requires Written(files, middle, outputs[..|outputs| - 1])
    ensures var n := |outputs| - 1;
            var path := outputs[n].path;
            Noted(files, added + [Entry(at + n, path, Content(middle, path))], outputs, at)
  {
    hide NotedAt, Written;
    var n := |outputs| - 1;
    var path := outputs[n].path;
    var last := Entry(at + n, path, Content(middle, path));
    forall k | 0 <= k < |added + [last]| ensures NotedAt(files, outputs, k, (added + [last])[k], at) {
      if k < n {
        NotedPrefix(files, outputs, k, added[k], at);
      } else {
        NotedLast(files, middle, outputs, at);
      }
    }
  }

  lemma NotedLast(files: Files, middle: Files, outputs: seq<Output>, at: int)
    requires outputs != [] && Written(files, middle, outputs[..|outputs| - 1])
    ensures var n := |outputs| - 1;
            NotedAt(files, outputs, n, Entry(at + n, outputs[n].path, Content(middle, outputs[n].path)), at)
  {
    ContentBefore(files, middle, outputs[..|outputs| - 1], outputs[|outputs| - 1].path);
  }

  lemma NextWorkspace(w: Workspace, outputs: seq<Output>, at: int)
    requires outputs != []
    ensures var n := |outputs| - 1;
            ApplyAll(w, AgentWrites(outputs, at)) ==
            Apply(ApplyAll(w, AgentWrites(outputs[..n], at)), Write(outputs[n].path, outputs[n].content, at + n))
  {
    hide Apply;
    assert AgentWrites(outputs, at)[..|outputs| - 1] == AgentWrites(outputs[..|outputs| - 1], at);
  }

  lemma {:induction false} WritesAre(w: Workspace, outputs: seq<Output>, at: int)
    ensures var w' := ApplyAll(w, AgentWrites(outputs, at));
            && w.journal <= w'.journal && Noted(w.files, w'.journal[|w.journal|..], outputs, at)
            && Written(w.files, w'.files, outputs)
  {
    if outputs != [] {
      hide Written, Noted, ApplyAll, AgentWrites;
      var n := |outputs| - 1;
      NextWorkspace(w, outputs, at);
      WritesAre(w, outputs[..n], at);
      var middle := ApplyAll(w, AgentWrites(outputs[..n], at));
      WrittenNext(w.files, middle.files, outputs);
      var added := middle.journal[|w.journal|..];
      NotedNext(w.files, middle.files, added, outputs, at);
      var last := Entry(at + n, outputs[n].path, Content(middle.files, outputs[n].path));
      assert (middle.journal + [last])[|w.journal|..] == added + [last];
    } else {
      assert AgentWrites(outputs, at) == [];
    }
  }

  /** One agent call writes the whole answer and nothing else, and notes every write. */
  lemma CallWritesExactly(world: World, s: State)
    ensures var s', outputs := Called(world, s), world.agent(s.agentCalls);
            && Written(s.files, s'.files, outputs)
            && s.journal <= s'.journal && Noted(s.files, s'.journal[|s.journal|..], outputs, s.clock)
            && s'.clock == s.clock + |outputs| && s'.agentCalls == s.agentCalls + 1
            && s' == s.(files := s'.files, journal := s'.journal, clock := s'.clock, agentCalls := s'.agentCalls)
  {
    hide ApplyAll, AgentWrites, Written, Noted;
    WritesAre(Workspace(s.files, s.journal), world.agent(s.agentCalls), s.clock);
  }

  // ----- One test file -----

  predicate SameWork(s: State, s': State) {
    s'.files == s.files && s'.journal == s.journal && s'.clock == s.clock && s'.agentCalls == s.agentCalls
  }

  lemma AttemptedAlike(world: World, s: State, s': State, atRisk: seq<string>)
    requires SameWork(s, s')
    ensures SameWork(Attempted(world, s, atRisk), Attempted(world, s', atRisk))
  {
    hide ApplyAll, AgentWrites, Undo, Since;
  }

  /** The test file is to be repaired: red on its own, readable and with its tooling. */
  predicate Repairable(world: World, s: State, test: string) {
    !world.alone(s.files, test) && world.readable(s.files, test) && !world.needsTooling(s.files, test)
  }

  lemma RetriedExactly(world: World, s: State, test: string, atRisk: seq<string>)
    ensures var r := Retried(world, s, test, atRisk, 1);
            var counted := s.(attempts := OneMore(s.attempts, test));
            r == if world.alone(s.files, test) then s
                 else if Count(s.attempts, test) >= MAX_FILE_ATTEMPTS then counted.(abandoned := s.abandoned + {test})
                 else AttemptedFor(world, counted, test, atRisk)
  {
    hide AttemptedFor;
    assert forall x :: Retried(world, x, test, atRisk, 0) == x;
  }

  /** An attempt for a test file works like an attempt. */
  lemma AttemptedForExactly(world: World, s: State, s': State, test: string, atRisk: seq<string>)
    requires SameWork(s, s')
    ensures var r := AttemptedFor(world, s', test, atRisk);
            SameWork(Attempted(world, s, atRisk), r) && r.attempts == s'.attempts && r.abandoned == s'.abandoned
  {
    AttemptedFrame(world, s', test, atRisk);
    hide Attempted;
    AttemptedAlike(world, s, s'.(callsFor := OneMore(s'.callsFor, test)), atRisk);
  }

  lemma RepairedExactly(world: World, s: State, test: string)
    ensures var r := Repaired(world, s, test);
            var used, atRisk := Count(s.attempts, test), world.atRisk(s.agentCalls, test);
            var first := Attempted(world, s, atRisk);
            var red := !world.alone(first.files, test);
            && (!red || used + 1 >= MAX_FILE_ATTEMPTS ==> SameWork(first, r))
            && (red && used + 1 < MAX_FILE_ATTEMPTS ==> SameWork(Attempted(world, first, atRisk), r))
            && r.abandoned == s.abandoned + (if red && used + 1 >= MAX_FILE_ATTEMPTS then {test} else {})
            && r.attempts == s.attempts[test := used + if red then 2 else 1]
  {
    hide AttemptedFor, Attempted, Retried;
    var atRisk := world.atRisk(s.agentCalls, test);
    var first := Attempted(world, s, atRisk);
    var s1 := s.(attempts := OneMore(s.attempts, test));
    AttemptedForExactly(world, s, s1, test, atRisk);
    var s2 := AttemptedFor(world, s1, test, atRisk);
    RetriedExactly(world, s2, test, atRisk);
    AttemptedForExactly(world, first, s2.(attempts := OneMore(s2.attempts, test)), test, atRisk);
  }

  /** One test file gets one attempt if that makes it green or is its last one, two attempts
      if the first leaves it red and there is one more, and none if it has used them up; it is
      abandoned exactly when an attempt would exceed the limit. */
  lemma TriedExactly(world: World, s: State, baseline: set<string>, test: string)
    ensures var s' := Tried(world, s, baseline, test);
            var used, atRisk := Count(s.attempts, test), world.atRisk(s.agentCalls, test);
            var first := Attempted(world, s, atRisk);
            var red := !world.alone(first.files, test);
            var tried := Repairable(world, s, test) && used < MAX_FILE_ATTEMPTS;
            && (!tried ==> SameWork(s, s'))
            && (tried && (!red || used + 1 == MAX_FILE_ATTEMPTS) ==> SameWork(first, s'))
            && (tried && red && used + 1 < MAX_FILE_ATTEMPTS ==> SameWork(Attempted(world, first, atRisk), s'))
            && s'.abandoned == s.abandoned +
               (if (Repairable(world, s, test) && !tried) || (tried && red && used + 1 == MAX_FILE_ATTEMPTS)
                then {test} else {})
            && (forall t :: t != test ==> Count(s'.attempts, t) == Count(s.attempts, t))
            && Count(s'.attempts, test) == used + (if !tried then 0 else if red then 2 else 1)
  {
    hide Attempted, Repaired;
    var s1 := s.(attempts := s.attempts[test := Count(s.attempts, test)]);
    var atRisk := world.atRisk(s.agentCalls, test);
    RepairedExactly(world, s1, test);
    AttemptedAlike(world, s, s1, atRisk);
    AttemptedAlike(world, Attempted(world, s, atRisk), Attempted(world, s1, atRisk), atRisk);
  }

  // ----- The end of a round -----

  /** Failing test files that the output names and that may still be repaired. */
  function Actionable(world: World, s: State): set<string> { FailingSet(world, s.files) - s.envSkip - s.abandoned }

  /** Some named test file is neither skipped nor a failure of the baseline that stayed one. */
  ghost predicate Regressed(world: World, s: State, baseline: set<string>) {
    exists t :: t in FailingSet(world, s.files) && t !in s.envSkip && (t !in baseline || t in s.promoted)
  }

  lemma SilentExactly(world: World, s: State, baseline: set<string>)
    ensures Silent(world, s.files, baseline, s.promoted, s.envSkip) <==> !Regressed(world, s, baseline)
  {
    hide Silent, FailingSet;
    SilentMeans(world, s.files, baseline, s.promoted, s.envSkip);
  }

  /** How a round ends: green, regressed, without a report, with nothing left to repair, or
      with a count of what is left, which stalls if it has not dropped twice in a row. */
  lemma JudgedExactly(world: World, s: State, baseline: set<string>, start: int)
    ensures var v := Judged(world, s, baseline, start);
            var green, named, left := Green(world, s.files), FailingSet(world, s.files), Actionable(world, s);
            var red := !green && !Regressed(world, s, baseline);
            var n := |s.counts|;
            && (v.end == AllPass <==> green)
            && (v.end == Regression <==> !green && Regressed(world, s, baseline))
            && (v.end == NoVerdict <==> red && named == {})
            && (v.end == NothingActionable <==> red && named != {} && left == {})
            && (v.end == Stall <==> red && left != {} && n >= 2 && |left| >= s.counts[n - 1] >= s.counts[n - 2])
            && (v.end == Next <==> red && left != {} && !(n >= 2 && |left| >= s.counts[n - 1] >= s.counts[n - 2]))
            && v.state.counts == s.counts + (if v.end == Next || v.end == Stall then [|left|] else [])
            && (v.end != Regression ==> v.state.files == s.files)
            && v.state == s.(files := v.state.files, counts := v.state.counts)
  {
    hide Silent, FailingSet, Green, Undo, Since, Regressed;
    SilentExactly(world, s, baseline);
  }

  // ----- One round -----

  /** The named test files that are not skipped. */
  function Named(world: World, s: State): set<string> { FailingSet(world, s.files) - s.envSkip }

  lemma NamedIsFingerprint(world: World, s: State)
    ensures Fingerprint(Failing(world, s.files), s.envSkip) == Named(world, s)
    ensures Failing(world, s.files) == [] <==> FailingSet(world, s.files) == {}
  {
    hide Failing;
    if Failing(world, s.files) != [] {
      assert Failing(world, s.files)[0] in FailingSet(world, s.files);
    }
  }

  /** A round has work to do: the suite is red, names a file, and names another set of files
      than in every recorded round. */
  predicate Works(world: World, s: State) {
    !Green(world, s.files) && Named(world, s) !in s.fingerprints && FailingSet(world, s.files) != {}
  }

  /** A round without work ends at once and touches no file; a round with work records its
      failing set, makes the batch fix if there is a shared root, and treats the first ten
      failing test files that are left, in order. */
  lemma RoundExactly(world: World, s: State, baseline: set<string>, iteration: nat) returns (turns: seq<State>)
    ensures var r := RoundOf(world, s, baseline, iteration);
            && (Green(world, s.files) ==> r.end == AllPass)
            && (r.end == Oscillation <==> !Green(world, s.files) && Named(world, s) in s.fingerprints)
            && (r.end == NoReport <==>
                !Green(world, s.files) && Named(world, s) !in s.fingerprints && FailingSet(world, s.files) == {})
            && (!Works(world, s) ==> r.state.files == s.files && r.state.agentCalls == s.agentCalls)
            && (Works(world, s) ==>
                var begun := s.(clock := s.clock + 1, fingerprints := s.fingerprints + [Named(world, s)]);
                && turns != []
                && turns[0] == (if world.sharedRoot(iteration, s.files) then Called(world, begun) else begun)
                && var failing := Failing(world, turns[0].files);
                && |turns| == 1 + (if |failing| <= 10 then |failing| else 10)
                && (forall i :: 0 <= i < |turns| - 1 ==> turns[i + 1] == Tried(world, turns[i], baseline, failing[i]))
                && r == Judged(world, turns[|turns| - 1], baseline, s.clock))
  {
    hide Green, FailingSet, Failing, Called, Tried, Fingerprint;
    NamedIsFingerprint(world, s);
    turns := [];
    JudgedEnds(world, baseline, s.clock);
    if Works(world, s) {
      var begun := s.(clock := s.clock + 1, fingerprints := s.fingerprints + [Named(world, s)]);
      var fixed := Fixed(world, begun, iteration);
      var tests := Take(Failing(world, fixed.files), MAX_FILE_ROUNDS);
      turns := TurnsOf(world, fixed, baseline, tests);
    }
  }

  lemma JudgedEnds(world: World, baseline: set<string>, start: int)
    ensures forall s :: Judged(world, s, baseline, start).end != Oscillation
                        && Judged(world, s, baseline, start).end != NoReport
  {
    hide Green, FailingSet, Silent, Undo, Since, NotDropping;
  }

  lemma {:induction false} TurnsOf(world: World, s: State, baseline: set<string>, tests: seq<string>)
    returns (turns: seq<State>)
    ensures |turns| == |tests| + 1 && turns[0] == s && turns[|tests|] == TriedAll(world, s, baseline, tests)
    ensures forall i :: 0 <= i < |tests| ==> turns[i + 1] == Tried(world, turns[i], baseline, tests[i])
  {
    hide Tried;
    if tests == [] {
      turns := [s];
    } else {
      var n := |tests| - 1;
      var before := TurnsOf(world, s, baseline, tests[..n]);
      turns := before + [TriedAll(world, s, baseline, tests)];
    }
  }

  // ----- The whole loop -----

  /** The states between rounds, from the round with number `from` on: every round but the
      last one says Next. */
  ghost predicate Rounds(world: World, baseline: set<string>, states: seq<State>, from: nat) {
    && states != []
    && forall i :: 0 <= i < |states| - 1 ==>
         RoundOf(world, states[i], baseline, from + i) == Verdict(states[i + 1], Next)
  }

  /** The loop runs its rounds until one does not say Next, and at most MAX_ITERATIONS. */
  lemma {:induction false} RunIsRounds(world: World, s: State, baseline: set<string>, from: nat)
    returns (states: seq<State>)
    requires from <= MAX_ITERATIONS + 1
    ensures var e := RunOf(world, s, baseline, from);
            && Rounds(world, baseline, states, from) && states[0] == s
            && e.before == states[|states| - 1]
            && (e.end == Next <==> from + |states| - 1 > MAX_ITERATIONS)
            && (e.end == Next ==> e.state == e.before && |states| == MAX_ITERATIONS + 2 - from)
            && (e.end != Next ==> RoundOf(world, e.before, baseline, from + |states| - 1) == Verdict(e.state, e.end))
    decreases MAX_ITERATIONS + 1 - from
  {
    hide RoundOf;
    states := [s];
    if from <= MAX_ITERATIONS {
      var r := RoundOf(world, s, baseline, from);
      if r.end == Next {
        var later := RunIsRounds(world, r.state, baseline, from + 1);
        states := [s] + later;
        forall i | 0 <= i < |states| - 1
          ensures RoundOf(world, states[i], baseline, from + i) == Verdict(states[i + 1], Next)
        {
          if i > 0 {
            assert RoundOf(world, later[i - 1], baseline, from + 1 + (i - 1)) == Verdict(later[i], Next);
          }
        }
      }
    }
  }

  lemma {:induction false} TurnsKeepBooks(world: World, baseline: set<string>, s: State, tests: seq<string>)
    ensures var s' := TriedAll(world, s, baseline, tests);
            s'.fingerprints == s.fingerprints && s'.counts == s.counts
  {
    if tests != [] {
      var n := |tests| - 1;
      TurnsKeepBooks(world, baseline, s, tests[..n]);
      TriedKeepsBooks(world, TriedAll(world, s, baseline, tests[..n]), baseline, tests[n]);
      hide Tried;
    }
  }

  lemma TriedKeepsBooks(world: World, s: State, baseline: set<string>, test: string)
    ensures var s' := Tried(world, s, baseline, test); s'.fingerprints == s.fingerprints && s'.counts == s.counts
  {
    hide Attempted;
    forall x, atRisk ensures SameRound(x, Attempted(world, x, atRisk)) {
      AttemptKeepsBooks(world, x, atRisk);
    }
    var atRisk := world.atRisk(s.agentCalls, test);
    assert forall x :: Retried(world, x, test, atRisk, 0) == x;
  }

  lemma AttemptKeepsBooks(world: World, s: State, atRisk: seq<string>)
    ensures SameRound(s, Attempted(world, s, atRisk))
  {
    hide ApplyAll, Undo, Since;
  }

  /** A round that says Next has recorded what it found and counted what it left. */
  lemma NextRoundBooks(world: World, s: State, baseline: set<string>, iteration: nat)
    ensures var r := RoundOf(world, s, baseline, iteration);
            && (r.end == Next ==> r.state.fingerprints == s.fingerprints + [Named(world, s)])
            && (r.end == Next ==> r.state.counts == s.counts + [|Actionable(world, r.state)|])
            && (r.end == Next || r.end == Stall ==>
                (r.end == Stall <==> var left, n := |Actionable(world, r.state)|, |s.counts|;
                                     n >= 2 && left >= s.counts[n - 1] >= s.counts[n - 2]))
  {
    hide Green, FailingSet, Failing, Called, Tried, TriedAll, Fingerprint, Judged, Regressed;
    NamedIsFingerprint(world, s);
    var begun := s.(clock := s.clock + 1, fingerprints := s.fingerprints + [Named(world, s)]);
    var fixed := Fixed(world, begun, iteration);
    var tests := Take(Failing(world, fixed.files), MAX_FILE_ROUNDS);
    CalledBooks(world, begun);
    TurnsKeepBooks(world, baseline, fixed, tests);
    JudgedExactly(world, TriedAll(world, fixed, baseline, tests), baseline, s.clock);
  }

  lemma CalledBooks(world: World, s: State)
    ensures SameRound(s, Called(world, s))
  {
  }

  /** What is recorded between rounds: the failing set of every round and the number of files
      that each left to repair. */
  lemma {:induction false} BooksOfRounds(world: World, baseline: set<string>, states: seq<State>, i: nat)
    requires Rounds(world, baseline, states, 1) && i < |states|
    requires states[0].fingerprints == [] && states[0].counts == []
    ensures |states[i].fingerprints| == i && |states[i].counts| == i
    ensures forall j :: 0 <= j < i ==> states[i].fingerprints[j] == Named(world, states[j])
    ensures forall j :: 0 <= j < i ==> states[i].counts[j] == |Actionable(world, states[j + 1])|
  {
    hide RoundOf, Named, Actionable;
    if i > 0 {
      BooksOfRounds(world, baseline, states, i - 1);
      NextRoundBooks(world, states[i - 1], baseline, i);
      assert RoundOf(world, states[i - 1], baseline, 1 + (i - 1)) == Verdict(states[i], Next);
    }
  }

  /** In a run, a round ends in an oscillation if and only if the suite is red and names, but
      for skipped files, exactly what it named in some earlier round. */
  lemma OscillatesExactly(world: World, baseline: set<string>, states: seq<State>)
    requires Rounds(world, baseline, states, 1) && states[0].fingerprints == [] && states[0].counts == []
    ensures var n := |states| - 1;
            RoundOf(world, states[n], baseline, n + 1).end == Oscillation <==>
            && !Green(world, states[n].files)
            && exists j :: 0 <= j < n && Named(world, states[j]) == Named(world, states[n])
  {
    hide RoundOf, Green, Named, Actionable, Works;
    var n := |states| - 1;
    BooksOfRounds(world, baseline, states, n);
    var turns := RoundExactly(world, states[n], baseline, n + 1);
    if Named(world, states[n]) in states[n].fingerprints {
      var j :| 0 <= j < n && states[n].fingerprints[j] == Named(world, states[n]);
      assert Named(world, states[j]) == Named(world, states[n]);
    }
    if j :| 0 <= j < n && Named(world, states[j]) == Named(world, states[n]) {
      assert states[n].fingerprints[j] == Named(world, states[n]);
    }
  }

  /** In a run, a round that leaves files to repair stalls if and only if it leaves no fewer
      than the round before, and that one no fewer than the one before it. */
  lemma StallsExactly(world: World, baseline: set<string>, states: seq<State>)
    requires Rounds(world, baseline, states, 1) && states[0].fingerprints == [] && states[0].counts == []
    ensures var n := |states| - 1;
            var r := RoundOf(world, states[n], baseline, n + 1);
            r.end == Next || r.end == Stall ==>
              (r.end == Stall <==>
                n >= 2 && |Actionable(world, r.state)| >= |Actionable(world, states[n])|
                       >= |Actionable(world, states[n - 1])|)
  {
    hide RoundOf, Green, Named, Actionable;
    var n := |states| - 1;
    BooksOfRounds(world, baseline, states, n);
    NextRoundBooks(world, states[n], baseline, n + 1);
  }
}
