/** What the repair loop guarantees over whole runs, and where the guarantee ends. */
module RepairTheorems {
  import opened Journal
  import opened TestRuns
  import opened RepairRounds

  /** Rounds keep the invariant until one is rolled back, to the files of its start. */
  lemma {:induction false} RunSettles(world: World, s: State, baseline: set<string>, iteration: nat)
    requires Settled(world, s, baseline) && iteration <= MAX_ITERATIONS + 1
    ensures var e := RunOf(world, s, baseline, iteration);
            && Settled(world, e.before, baseline) && Budgeted(e.state) && Different(e.state.fingerprints)
            && s.envSkip <= e.before.envSkip <= e.state.envSkip
            && s.promoted <= e.before.promoted <= e.state.promoted <= baseline
            && e.state.agentCalls <= s.agentCalls + (MAX_ITERATIONS + 1 - iteration) * CALLS_PER_ROUND
            && (e.end != Regression ==> Settled(world, e.state, baseline))
            && (e.end == Regression ==>
                e.state.files == WithoutEmpty(e.before.files, Since(e.state.journal, e.before.clock)))
            && (e.end == AllPass ==> Green(world, e.state.files))
            && (e.end == NoVerdict || e.end == NoReport ==> Unreported(world, e.state.files))
    decreases MAX_ITERATIONS + 1 - iteration
  {
    hide RoundOf, Settled, Green, WithoutEmpty, Since, WithinBudget, Different, Unreported;
    if iteration <= MAX_ITERATIONS {
      RoundKeeps(world, s, baseline, iteration);
      var r := RoundOf(world, s, baseline, iteration);
      if r.end == Next {
        RunSettles(world, r.state, baseline, iteration + 1);
      }
    } else {
      SettledBooks(world, s, baseline);
    }
  }

  lemma SettledBooks(world: World, s: State, baseline: set<string>)
    requires Settled(world, s, baseline)
    ensures Budgeted(s) && Different(s.fingerprints) && s.promoted <= baseline
    ensures Silent(world, s.files, baseline, s.promoted, s.envSkip)
  {
  }

  lemma BeginningSettles(world: World, files: Files, journal: seq<Entry>, clock: int)
    requires Dated(Beginning(files, journal, clock))
    ensures Settled(world, Beginning(files, journal, clock), FailingSet(world, files))
  {
    hide FailingSet, Silent;
    SilentMeans(world, files, FailingSet(world, files), {}, {});
  }

  lemma SilentGrows(world: World, files: Files, baseline: set<string>, promoted: set<string>, skipped: set<string>,
                    more: set<string>)
    requires Silent(world, files, baseline, promoted, skipped) && skipped <= more
    ensures Silent(world, files, baseline, promoted, more)
  {
    hide Silent, FailingSet;
    SilentMeans(world, files, baseline, promoted, skipped);
    SilentMeans(world, files, baseline, promoted, more);
  }

  /** The loop on a project, from its baseline run on. */
  function Finish(world: World, files: Files, journal: seq<Entry>, clock: int): Ending {
    RunOf(world, Beginning(files, journal, clock), FailingSet(world, files), 1)
  }

  /** Tests promoted in a round that was kept. */
  function Kept(e: Ending): set<string> { if e.end == Regression then e.before.promoted else e.state.promoted }

  /** The files that the last run of the suite was about, of those that were kept. */
  function LastJudged(e: Ending): Files { if e.end == Regression then e.before.files else e.state.files }

  /** The tests to be protected: those that passed at the start, and those promoted since. */
  function Shield(world: World, files: Files, e: Ending): set<string> { PassingSet(world, files) + Kept(e) }

  /** Whatever the agent writes: at the end every test outside the skipped ones that passed
      at the start, or was promoted in a round that was kept, passes, if and only if those do
      that the last kept run of the suite was blind to.  In particular they all do when that
      run was whole.  The files are those of that run, up to empty files that a rollback of
      the last round has lost. */
  lemma RunProtects(world: World, files: Files, journal: seq<Entry>, clock: int)
    requires Dated(Beginning(files, journal, clock))
    ensures var e := Finish(world, files, journal, clock);
            var shield, skipped, last := Shield(world, files, e), e.state.envSkip, LastJudged(e);
            && (Safe(world, last, shield, skipped) <==>
                forall t :: t in shield && t !in skipped && Blind(world, last, t) ==> Passes(world, last, t))
            && (Whole(world, last, shield, skipped) ==> Safe(world, last, shield, skipped))
            && (e.state.files == last <==>
                !(e.end == Regression && LosesEmpty(last, Since(e.state.journal, e.before.clock))))
            && (e.end == Regression ==> e.state.files == WithoutEmpty(last, Since(e.state.journal, e.before.clock)))
            && (e.end == AllPass ==> Green(world, last))
  {
    hide Silent, Settled, RunOf, Blind, Passes, Green, Since, WithoutEmpty, LosesEmpty, Beginning, FailingSet,
         PassingSet;
    var baseline := FailingSet(world, files);
    var e := Finish(world, files, journal, clock);
    BeginningSettles(world, files, journal, clock);
    RunSettles(world, Beginning(files, journal, clock), baseline, 1);
    SettledBooks(world, e.before, baseline);
    SilentGrows(world, e.before.files, baseline, e.before.promoted, e.before.envSkip, e.state.envSkip);
    if e.end != Regression {
      SettledBooks(world, e.state, baseline);
    }
    GuardIsExact(world, files, LastJudged(e), Kept(e), e.state.envSkip);
    WithoutEmptyExactly(LastJudged(e), Since(e.state.journal, e.before.clock));
  }

  /** No test file gets more than its budget of calls, abandoned ones have used it up, no
      failing set is recorded twice, and the number of calls is bounded. */
  lemma RunIsBounded(world: World, files: Files, journal: seq<Entry>, clock: int)
    requires Dated(Beginning(files, journal, clock))
    ensures var e := Finish(world, files, journal, clock);
            && (forall t :: Count(e.state.callsFor, t) <= MAX_FILE_ATTEMPTS)
            && (forall t :: t in e.state.abandoned ==> Count(e.state.callsFor, t) == MAX_FILE_ATTEMPTS)
            && Different(e.state.fingerprints)
            && e.state.agentCalls <= MAX_ITERATIONS * CALLS_PER_ROUND
            && Kept(e) <= e.state.promoted <= FailingSet(world, files)
  {
    hide Silent, Settled, RunOf, Different, FailingSet;
    BeginningSettles(world, files, journal, clock);
    RunSettles(world, Beginning(files, journal, clock), FailingSet(world, files), 1);
  }

  /** A loop that ends on a red suite without a report was blind to every test, or all the
      tests that it found pass and only the gate does not. */
  lemma NoVerdictIsBlind(world: World, files: Files, journal: seq<Entry>, clock: int)
    requires Dated(Beginning(files, journal, clock))
    ensures var e := Finish(world, files, journal, clock);
            e.end == NoVerdict || e.end == NoReport ==>
              || (forall t :: Blind(world, e.state.files, t))
              || (AllPassing(world, e.state.files) && !world.gate(e.state.files))
  {
    hide Silent, Settled, RunOf, FailingSet;
    BeginningSettles(world, files, journal, clock);
    RunSettles(world, Beginning(files, journal, clock), FailingSet(world, files), 1);
  }

  // ----- The guarantee does end there -----

  const CONFIG := "pytest.ini"
  const WANTED := "tests/test_a.py"
  const OTHER := "tests/test_b.py"

  /** The runner's configuration is the given text. */
  predicate Configured(files: Files, content: string) { CONFIG in files && files[CONFIG] == content }

  /** A project with one failing and one passing test file, whose runner does not start with
      the given configuration, and an agent whose first answer writes it. */
  function Misconfigured(content: string): World {
    World(files => !Configured(files, content),
          files => [WANTED, OTHER],
          (files, t) => true,
          (files, t) => t == OTHER && !Configured(files, content),
          files => true,
          (files, t) => t == OTHER && !Configured(files, content),
          (files, tests) => true,
          (files, t) => true,
          (files, t) => false,
          n => if n == 0 then [Output(CONFIG, content)] else [],
          (n, files) => false,
          (n, t) => [])
  }

  lemma NamesDiffer()
    ensures WANTED != OTHER
  {
    assert WANTED[11] == 'a' && OTHER[11] == 'b';
  }

  lemma FirstReport(content: string, files: Files)
    requires !Configured(files, content)
    ensures var world := Misconfigured(content);
            && !Green(world, files) && Failing(world, files) == [WANTED]
            && OTHER in PassingSet(world, files) && Fingerprint([WANTED], {}) == {WANTED}
  {
    NamesDiffer();
    hide CONFIG, WANTED, OTHER;
    var world := Misconfigured(content);
    assert !Passes(world, files, WANTED) && Passes(world, files, OTHER);
    assert WANTED in world.collected(files);
    assert !Interrupted(world, files);
    var p := t => !Passes(world, files, t);
    assert [WANTED, OTHER][..1] == [WANTED] && [WANTED][..0] == [];
    assert Filter([WANTED, OTHER], p) == Filter([WANTED], p) == [WANTED];
  }

  lemma SecondReport(content: string, files: Files)
    requires Configured(files, content)
    ensures var world := Misconfigured(content);
            && !Green(world, files) && FailingSet(world, files) == {}
            && forall t :: !Passes(world, files, t) && !world.alone(files, t)
  {
    hide CONFIG, WANTED, OTHER;
  }

  lemma FirstCall(content: string, s: State)
    requires s.agentCalls == 0
    ensures Called(Misconfigured(content), s).files == s.files[CONFIG := content]
  {
    hide CONFIG, WANTED, OTHER;
    var w, events := Workspace(s.files, s.journal), AgentWrites([Output(CONFIG, content)], s.clock);
    assert events == [Write(CONFIG, content, s.clock)] && events[..0] == [];
    assert ApplyAll(w, events) == Apply(w, events[0]);
  }

  lemma LaterCall(content: string, s: State)
    requires s.agentCalls > 0
    ensures Called(Misconfigured(content), s).files == s.files
  {
    hide CONFIG, WANTED, OTHER;
    assert AgentWrites([], s.clock) == [];
  }

  lemma Escaping(content: string, s: State, baseline: set<string>)
    requires !Configured(s.files, content) && s.agentCalls == 0 && s.attempts == map[] && s.promoted == {} &&
             s.envSkip == {}
    ensures var s' := Tried(Misconfigured(content), s, baseline, WANTED);
            s'.files == s.files[CONFIG := content] && s'.promoted == {} && s'.envSkip == {}
  {
    NamesDiffer();
    hide Called, CONFIG, WANTED, OTHER;
    var world := Misconfigured(content);
    var s1 := s.(attempts := s.attempts[WANTED := 0]);
    var s2 := s1.(attempts := OneMore(s1.attempts, WANTED), callsFor := OneMore(s1.callsFor, WANTED),
      clock := s.clock + 1);
    FirstCall(content, s2);
    CalledFrame(world, s2);
    var s3 := Called(world, s2);
    assert AttemptedFor(world, s1.(attempts := OneMore(s1.attempts, WANTED)), WANTED, []) == s3;
    SecondReport(content, s3.files);
    var s4 := s3.(attempts := OneMore(s3.attempts, WANTED));
    var s5 := s4.(callsFor := OneMore(s4.callsFor, WANTED), clock := s4.clock + 1);
    LaterCall(content, s5);
    CalledFrame(world, s5);
    assert AttemptedFor(world, s4, WANTED, []) == Called(world, s5);
    assert Retried(world, Called(world, s5), WANTED, [], 0) == Called(world, s5);
    assert Count(s4.attempts, WANTED) == 2;
    assert Retried(world, s3, WANTED, [], 1) == Called(world, s5);
    assert Repaired(world, s1, WANTED) == Called(world, s5);
  }

  lemma CalledFrame(world: World, s: State)
    ensures var s' := Called(world, s);
            s' == s.(files := s'.files, journal := s'.journal, clock := s'.clock, agentCalls := s.agentCalls + 1)
  {
  }

  lemma EscapingRound(content: string, s: State)
    requires !Configured(s.files, content) && s == Beginning(s.files, s.journal, s.clock)
    ensures var world := Misconfigured(content);
            var r := RoundOf(world, s, FailingSet(world, s.files), 1);
            r.end == NoVerdict && r.state.files == s.files[CONFIG := content] && r.state.envSkip == {}
  {
    hide Tried, Silent, Green, Failing, FailingSet, PassingSet, Passes, CONFIG, WANTED, OTHER, Fingerprint;
    var world := Misconfigured(content);
    var baseline := FailingSet(world, s.files);
    FirstReport(content, s.files);
    var recorded := s.(clock := s.clock + 1, fingerprints := [{WANTED}]);
    assert [WANTED][..0] == [];
    var worked := Tried(world, recorded, baseline, WANTED);
    assert TriedAll(world, recorded, baseline, [WANTED]) == worked;
    Escaping(content, recorded, baseline);
    EscapingVerdict(content, worked, baseline, s.clock);
    NoBatch(content, recorded);
    assert Take([WANTED], MAX_FILE_ROUNDS) == [WANTED];
    assert s.fingerprints + [{WANTED}] == [{WANTED}];
    assert {WANTED} !in s.fingerprints && Fingerprint([WANTED], s.envSkip) == {WANTED};
    var r := RoundOf(world, s, baseline, 1);
    assert r == Judged(world, worked, baseline, s.clock);
  }

  lemma NoBatch(content: string, s: State)
    ensures Fixed(Misconfigured(content), s, 1) == s
  {
  }

  lemma EscapingVerdict(content: string, s: State, baseline: set<string>, start: int)
    requires Configured(s.files, content)
    ensures Judged(Misconfigured(content), s, baseline, start) == Verdict(s, NoVerdict)
  {
    hide Silent, Green, FailingSet, Passes, CONFIG, WANTED, OTHER, NotDropping, Misconfigured;
    SecondReport(content, s.files);
    SilentMeans(Misconfigured(content), s.files, baseline, s.promoted, s.envSkip);
  }

  /** One agent answer is enough: the first round ends the loop on a red suite without a
      report, nothing is rolled back, and a test that passed at the start fails.  The project
      may have any other configuration before. */
  lemma ConfigurationEscapes(files: Files, journal: seq<Entry>, clock: int, content: string)
    requires !Configured(files, content)
    ensures var world := Misconfigured(content);
            var e := Finish(world, files, journal, clock);
            && e.end == NoVerdict && e.state.files == files[CONFIG := content]
            && OTHER in PassingSet(world, files) && OTHER !in e.state.envSkip
            && !Passes(world, e.state.files, OTHER)
  {
    hide RoundOf, FailingSet, PassingSet, Passes, CONFIG, WANTED, OTHER, Misconfigured, Green, Failing, Fingerprint;
    FirstReport(content, files);
    EscapingRound(content, Beginning(files, journal, clock));
    SecondReport(content, files[CONFIG := content]);
  }
}
