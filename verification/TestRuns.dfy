/** What a run of the test suite shows of the tests' own verdicts, and what it hides. */
module TestRuns {
  import opened Journal

  datatype Output = Output(path: string, content: string)

  /** Everything the repair loop does not control.  Tests are functions of the files; the
      agent and the heuristics may answer anything at any call, and a run may be red for
      reasons of its own, such as a coverage gate. */
  datatype World = World(
    starts: Files -> bool,                   // the runner's configuration and shared fixtures load
    collected: Files -> seq<string>,         // test files, sorted, in which a run of the suite finds tests or errors
    imports: (Files, string) -> bool,        // a test file can be imported
    succeeds: (Files, string) -> bool,       // its tests succeed once it is imported
    gate: Files -> bool,                     // what else a run of the suite must meet to be green
    alone: (Files, string) -> bool,          // a run of one test file is green
    together: (Files, seq<string>) -> bool,  // a run of several test files is green
    readable: (Files, string) -> bool,       // the test file exists and is not empty
    needsTooling: (Files, string) -> bool,   // the test needs tooling that is missing
    agent: nat -> seq<Output>,               // files written by the n-th agent call
    sharedRoot: (nat, Files) -> bool,        // a round starts with a batch fix
    atRisk: (nat, string) -> seq<string>)    // passing tests put at risk by an attempt

  /** The verdict of one test file: its tests pass. */
  predicate Passes(world: World, files: Files, t: string) {
    world.imports(files, t) && world.succeeds(files, t)
  }

  predicate AllPassing(world: World, files: Files) {
    forall t :: t in world.collected(files) ==> Passes(world, files, t)
  }

  /** A run of the whole suite is green; one that finds no test is not. */
  predicate Green(world: World, files: Files) {
    world.starts(files) && world.collected(files) != [] && AllPassing(world, files) && world.gate(files)
  }

  /** Some test file cannot be imported: the run stops before any test. */
  predicate Interrupted(world: World, files: Files) {
    exists t :: t in world.collected(files) && !world.imports(files, t)
  }

  function Filter(tests: seq<string>, p: string -> bool): (r: seq<string>)
    ensures forall t :: t in r <==> t in tests && p(t)
  {
    if tests == [] then []
    else
      var rest := Filter(tests[..|tests| - 1], p);
      if p(tests[|tests| - 1]) then rest + [tests[|tests| - 1]] else rest
  }

  lemma {:induction false} FilterConcat(a: seq<string>, b: seq<string>, p: string -> bool)
    ensures Filter(a + b, p) == Filter(a, p) + Filter(b, p)
    ensures forall t :: Filter([t], p) == if p(t) then [t] else []
  {
    assert forall t: string :: [t][..0] == [];
    if b == [] {
      assert a + b == a;
    } else {
      var n := |b| - 1;
      assert (a + b)[..|a + b| - 1] == a + b[..n];
      FilterConcat(a, b[..n], p);
    }
  }

  /** The test files that the output of a suite run names: none if it passes or cannot
      start, those that cannot be imported if there are any, and the failing ones otherwise. */
  function Failing(world: World, files: Files): seq<string> {
    if Green(world, files) || !world.starts(files) then []
    else if Interrupted(world, files) then Filter(world.collected(files), t => !world.imports(files, t))
    else Filter(world.collected(files), t => !Passes(world, files, t))
  }

  function FailingSet(world: World, files: Files): set<string> {
    set t | t in Failing(world, files)
  }

  /** A run says nothing about this test file: it did not start, did not find the file, or
      stopped because of another one. */
  predicate Blind(world: World, files: Files, t: string) {
    || !world.starts(files)
    || t !in world.collected(files)
    || (world.imports(files, t) && Interrupted(world, files))
  }

  /** The output names exactly the failing test files that the run is not blind to. */
  lemma ReportExactly(world: World, files: Files, t: string)
    ensures t in FailingSet(world, files) <==> !Passes(world, files, t) && !Blind(world, files, t)
  {
    if Green(world, files) && t in world.collected(files) {
      assert Passes(world, files, t);
    }
  }

  /** A red run names no file if and only if it did not start, found no test, or failed its
      gate with all tests passing. */
  lemma RedWithoutReport(world: World, files: Files)
    ensures !Green(world, files) && FailingSet(world, files) == {} <==>
            || !world.starts(files) || world.collected(files) == []
            || (AllPassing(world, files) && !world.gate(files))
  {
    if world.starts(files) && world.collected(files) != [] && !AllPassing(world, files) {
      var t :| t in world.collected(files) && !Passes(world, files, t);
      if Interrupted(world, files) {
        var u :| u in world.collected(files) && !world.imports(files, u);
        ReportExactly(world, files, u);
      } else {
        ReportExactly(world, files, t);
      }
    }
  }

  // ----- The regression guard -----

  function PassingSet(world: World, files: Files): set<string> {
    set t | t in world.collected(files) && Passes(world, files, t)
  }

  /** What the code calls a regression: newly named, or promoted and named again. */
  function Regressions(current: set<string>, baseline: set<string>, promoted: set<string>): set<string> {
    (current - baseline) + (promoted * current)
  }

  /** The guard finds nothing in a run of the suite. */
  predicate Silent(world: World, files: Files, baseline: set<string>, promoted: set<string>, skipped: set<string>) {
    Regressions(FailingSet(world, files) - skipped, baseline, promoted) == {}
  }

  /** Every test to be protected passes, by its own verdict. */
  ghost predicate Safe(world: World, files: Files, shield: set<string>, skipped: set<string>) {
    forall t :: t in shield && t !in skipped ==> Passes(world, files, t)
  }

  lemma SilentMeans(world: World, files: Files, baseline: set<string>, promoted: set<string>, skipped: set<string>)
    ensures Silent(world, files, baseline, promoted, skipped) <==>
            forall t :: t in FailingSet(world, files) && t !in skipped ==> t in baseline && t !in promoted
  {
    var current := FailingSet(world, files) - skipped;
    var regressions := Regressions(current, baseline, promoted);
    if regressions == {} {
      forall t | t in FailingSet(world, files) && t !in skipped ensures t in baseline && t !in promoted {
        assert t in current && t !in regressions;
      }
    } else {
      var t :| t in regressions;
      assert t in FailingSet(world, files) && t !in skipped;
    }
  }

  /** Tests that passed at the baseline were not named there, whatever that run showed. */
  lemma PassingIsNotNamed(world: World, origin: Files, t: string)
    requires t in PassingSet(world, origin)
    ensures t !in FailingSet(world, origin)
  {
    ReportExactly(world, origin, t);
  }

  /** If the guard finds nothing, the tests that passed at the baseline or were promoted all
      pass, if and only if those that the run is blind to do. */
  lemma GuardIsExact(world: World, origin: Files, files: Files, promoted: set<string>, skipped: set<string>)
    requires Silent(world, files, FailingSet(world, origin), promoted, skipped)
    ensures var shield := PassingSet(world, origin) + promoted;
            Safe(world, files, shield, skipped) <==>
            forall t :: t in shield && t !in skipped && Blind(world, files, t) ==> Passes(world, files, t)
  {
    hide FailingSet, Silent, Blind, Passes;
    var shield := PassingSet(world, origin) + promoted;
    SilentMeans(world, files, FailingSet(world, origin), promoted, skipped);
    forall t | t in shield && t !in skipped && !Blind(world, files, t) ensures Passes(world, files, t) {
      ReportExactly(world, files, t);
      if t in PassingSet(world, origin) {
        PassingIsNotNamed(world, origin, t);
      }
    }
  }

  /** The verdicts do not change what a run starts, finds and imports. */
  function WithVerdicts(world: World, succeeds: (Files, string) -> bool): World {
    world.(succeeds := succeeds)
  }

  /** A test file that is named whatever the tests' verdicts are. */
  predicate NamedAnyway(world: World, files: Files, t: string) {
    world.starts(files) && t in world.collected(files) && !world.imports(files, t)
  }

  /** A run whose silence is a proof: it is blind to no test to be protected. */
  ghost predicate Whole(world: World, files: Files, shield: set<string>, skipped: set<string>) {
    forall t :: t in shield && t !in skipped ==> !Blind(world, files, t)
  }

  lemma BlindIsShape(world: World, files: Files, succeeds: (Files, string) -> bool, t: string)
    ensures Blind(WithVerdicts(world, succeeds), files, t) == Blind(world, files, t)
  {
    assert Interrupted(WithVerdicts(world, succeeds), files) == Interrupted(world, files);
  }

  /** The tests that the guard reports when it sees them fail. */
  ghost predicate Watched(t: string, baseline: set<string>, promoted: set<string>, skipped: set<string>) {
    t !in skipped && (t in promoted || t !in baseline)
  }

  /** No regression found means no regression, for every verdict the tests may have, if and
      only if the run is blind to no protected test or names a watched one in any case. */
  lemma SilenceProvesExactly(world: World, files: Files, baseline: set<string>, passing: set<string>,
                             promoted: set<string>, skipped: set<string>)
    requires passing !! baseline
    ensures (forall succeeds: (Files, string) -> bool ::
               Silent(WithVerdicts(world, succeeds), files, baseline, promoted, skipped) ==>
               Safe(WithVerdicts(world, succeeds), files, passing + promoted, skipped))
            <==>
            || Whole(world, files, passing + promoted, skipped)
            || exists t :: Watched(t, baseline, promoted, skipped) && NamedAnyway(world, files, t)
  {
    if Whole(world, files, passing + promoted, skipped) {
      forall succeeds: (Files, string) -> bool
        | Silent(WithVerdicts(world, succeeds), files, baseline, promoted, skipped)
        ensures Safe(WithVerdicts(world, succeeds), files, passing + promoted, skipped)
      {
        WholeSilenceIsSafe(world, files, baseline, passing, promoted, skipped, succeeds);
      }
    } else if t :| Watched(t, baseline, promoted, skipped) && NamedAnyway(world, files, t) {
      forall succeeds: (Files, string) -> bool
        ensures !Silent(WithVerdicts(world, succeeds), files, baseline, promoted, skipped)
      {
        NamedIsFound(world, files, baseline, promoted, skipped, succeeds, t);
      }
    } else {
      SilentThoughBroken(world, files, baseline, passing + promoted, promoted, skipped);
    }
  }

  lemma WholeSilenceIsSafe(world: World, files: Files, baseline: set<string>, passing: set<string>,
                           promoted: set<string>, skipped: set<string>, succeeds: (Files, string) -> bool)
    requires passing !! baseline && Whole(world, files, passing + promoted, skipped)
    requires Silent(WithVerdicts(world, succeeds), files, baseline, promoted, skipped)
    ensures Safe(WithVerdicts(world, succeeds), files, passing + promoted, skipped)
  {
    hide FailingSet, Silent, Blind, Passes;
    var w := WithVerdicts(world, succeeds);
    SilentMeans(w, files, baseline, promoted, skipped);
    forall t | t in passing + promoted && t !in skipped ensures Passes(w, files, t) {
      ReportExactly(w, files, t);
      BlindIsShape(world, files, succeeds, t);
    }
  }

  lemma NamedIsFound(world: World, files: Files, baseline: set<string>, promoted: set<string>, skipped: set<string>,
                     succeeds: (Files, string) -> bool, t: string)
    requires Watched(t, baseline, promoted, skipped) && NamedAnyway(world, files, t)
    ensures !Silent(WithVerdicts(world, succeeds), files, baseline, promoted, skipped)
  {
    hide FailingSet, Silent;
    var w := WithVerdicts(world, succeeds);
    SilentMeans(w, files, baseline, promoted, skipped);
    ReportExactly(w, files, t);
  }

  /** Verdicts under which only tests that the run is blind to fail. */
  function Unseen(world: World): (Files, string) -> bool {
    (files: Files, t: string) => !Blind(world, files, t)
  }

  lemma SilentThoughBroken(world: World, files: Files, baseline: set<string>, shield: set<string>,
                           promoted: set<string>, skipped: set<string>)
    requires !Whole(world, files, shield, skipped)
    requires forall t :: Watched(t, baseline, promoted, skipped) ==> !NamedAnyway(world, files, t)
    ensures Silent(WithVerdicts(world, Unseen(world)), files, baseline, promoted, skipped)
    ensures !Safe(WithVerdicts(world, Unseen(world)), files, shield, skipped)
  {
    var w := WithVerdicts(world, Unseen(world));
    hide FailingSet, Silent;
    var t :| t in shield && t !in skipped && Blind(world, files, t);
    assert !Passes(w, files, t);
    SilentMeans(w, files, baseline, promoted, skipped);
    forall u | u in FailingSet(w, files) && u !in skipped ensures u in baseline && u !in promoted {
      ReportExactly(w, files, u);
      BlindIsShape(world, files, Unseen(world), u);
      assert !Watched(u, baseline, promoted, skipped) || !NamedAnyway(world, files, u);
    }
  }
}
