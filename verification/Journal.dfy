/** The write journal: every agent write records the previous content first, and a
    rollback replays those records backwards from a point in time. */
module Journal {

  type Files = map<string, string>

  /** The journal stores "" both for a file that was absent and for one that was empty. */
  datatype Entry = Entry(ts: int, path: string, prev: string)

  function Content(files: Files, path: string): string {
    if path in files then files[path] else ""
  }

  /** Undoes one record: an empty previous content deletes the file. */
  function Restore(files: Files, e: Entry): Files {
    if e.prev != "" then files[e.path := e.prev] else files - {e.path}
  }

  /** Undoes records, the most recent first. */
  function Undo(files: Files, entries: seq<Entry>): Files
    decreases |entries|
  {
    if entries == [] then files
    else Undo(Restore(files, entries[|entries| - 1]), entries[..|entries| - 1])
  }

  /** The records at or after `ts`, in journal order. */
  function Since(journal: seq<Entry>, ts: int): seq<Entry> {
    if journal == [] then []
    else
      var n := |journal| - 1;
      Since(journal[..n], ts) + (if journal[n].ts >= ts then [journal[n]] else [])
  }

  /** Positions of the records at or after `ts`. */
  function Recorded(journal: seq<Entry>, ts: int): set<nat> { set i: nat | i < |journal| && journal[i].ts >= ts }

  lemma {:induction false} SinceCounts(journal: seq<Entry>, ts: int)
    ensures |Since(journal, ts)| == |Recorded(journal, ts)|
  {
    if journal == [] {
      assert Recorded(journal, ts) == {};
    } else {
      var n := |journal| - 1;
      SinceCounts(journal[..n], ts);
      var before := Recorded(journal[..n], ts);
      assert n !in before;
      assert Recorded(journal, ts) == if journal[n].ts >= ts then before + {n} else before;
    }
  }

  datatype Workspace = Workspace(files: Files, journal: seq<Entry>)

  datatype Event =
    | Write(path: string, content: string, ts: int)
    | Rollback(since: int)

  function Apply(w: Workspace, ev: Event): Workspace {
    match ev
    case Write(path, content, ts) =>
      Workspace(w.files[path := content], w.journal + [Entry(ts, path, Content(w.files, path))])
    case Rollback(since) =>
      w.(files := Undo(w.files, Since(w.journal, since)))
  }

  function ApplyAll(w: Workspace, events: seq<Event>): Workspace {
    if events == [] then w else Apply(ApplyAll(w, events[..|events| - 1]), events[|events| - 1])
  }

  predicate NotBefore(ev: Event, ts: int) {
    match ev
    case Write(_, _, at) => at >= ts
    case Rollback(since) => since >= ts
  }

  // ----- What undoing a list of records gives -----

  /** Some record is about `path`. */
  predicate Touches(entries: seq<Entry>, path: string) {
    entries != [] && (entries[|entries| - 1].path == path || Touches(entries[..|entries| - 1], path))
  }

  /** Content recorded by the earliest record of `path`. */
  function FirstPrev(entries: seq<Entry>, path: string): string
    requires Touches(entries, path)
  {
    var n := |entries| - 1;
    if Touches(entries[..n], path) then FirstPrev(entries[..n], path) else entries[n].prev
  }

  /** The file at `path` is the one recorded as `content`. */
  predicate HoldsRecorded(files: Files, path: string, content: string) {
    if content == "" then path !in files else path in files && files[path] == content
  }

  predicate SameAt(files: Files, files': Files, path: string) {
    (path in files <==> path in files') && (path in files ==> files[path] == files'[path])
  }

  /** Undoing records leaves untouched paths alone and puts every touched path back to
      the content of its earliest record. */
  lemma {:induction false} UndoAt(files: Files, entries: seq<Entry>, path: string)
    ensures !Touches(entries, path) ==> SameAt(files, Undo(files, entries), path)
    ensures Touches(entries, path) ==> HoldsRecorded(Undo(files, entries), path, FirstPrev(entries, path))
    decreases |entries|
  {
    if entries != [] {
      UndoAt(Restore(files, entries[|entries| - 1]), entries[..|entries| - 1], path);
    }
  }

  lemma TouchesAppend(entries: seq<Entry>, e: Entry, path: string)
    ensures Touches(entries + [e], path) <==> Touches(entries, path) || e.path == path
    ensures Touches(entries, path) ==> FirstPrev(entries + [e], path) == FirstPrev(entries, path)
    ensures !Touches(entries, path) && e.path == path ==>
              Touches(entries + [e], path) && FirstPrev(entries + [e], path) == e.prev
  {
    assert (entries + [e])[..|entries|] == entries;
  }

  lemma SinceAppend(journal: seq<Entry>, e: Entry, ts: int)
    ensures Since(journal + [e], ts) == Since(journal, ts) + (if e.ts >= ts then [e] else [])
  {
    assert (journal + [e])[..|journal|] == journal;
  }

  lemma {:induction false} SinceNone(journal: seq<Entry>, ts: int)
    requires forall k :: 0 <= k < |journal| ==> journal[k].ts < ts
    ensures Since(journal, ts) == []
  {
    if journal != [] {
      SinceNone(journal[..|journal| - 1], ts);
    }
  }

  /** A later rollback point touches no more paths. */
  lemma {:induction false} SinceLater(journal: seq<Entry>, ts: int, later: int, path: string)
    requires ts <= later && Touches(Since(journal, later), path)
    ensures Touches(Since(journal, ts), path)
  {
    if journal != [] {
      var n := |journal| - 1;
      var earlier, more := Since(journal[..n], later), Since(journal[..n], ts);
      TouchesAppend(earlier, journal[n], path);
      TouchesAppend(more, journal[n], path);
      assert earlier + [] == earlier && more + [] == more;
      if Touches(earlier, path) {
        SinceLater(journal[..n], ts, later, path);
      }
    }
  }

  // ----- Rolling back to a recorded point in time -----

  /** `entries` are the records made since the files were `origin`, and they suffice
      to get back there. */
  ghost predicate Traced(origin: Files, files: Files, entries: seq<Entry>) {
    forall path :: TracedAt(origin, files, entries, path)
  }

  ghost predicate TracedAt(origin: Files, files: Files, entries: seq<Entry>, path: string) {
    if Touches(entries, path) then FirstPrev(entries, path) == Content(origin, path)
    else SameAt(origin, files, path)
  }

  lemma WriteKeepsTraced(origin: Files, w: Workspace, ts: int, path: string, content: string, at: int)
    requires Traced(origin, w.files, Since(w.journal, ts)) && at >= ts
    ensures var w' := Apply(w, Write(path, content, at)); Traced(origin, w'.files, Since(w'.journal, ts))
  {
    var e := Entry(at, path, Content(w.files, path));
    var w' := Apply(w, Write(path, content, at));
    SinceAppend(w.journal, e, ts);
    forall p ensures TracedAt(origin, w'.files, Since(w'.journal, ts), p) {
      assert TracedAt(origin, w.files, Since(w.journal, ts), p);
      TouchesAppend(Since(w.journal, ts), e, p);
    }
  }

  lemma RollbackKeepsTraced(origin: Files, w: Workspace, ts: int, since: int)
    requires Traced(origin, w.files, Since(w.journal, ts)) && since >= ts
    ensures Traced(origin, Apply(w, Rollback(since)).files, Since(w.journal, ts))
  {
    var files := Apply(w, Rollback(since)).files;
    forall p ensures TracedAt(origin, files, Since(w.journal, ts), p) {
      assert TracedAt(origin, w.files, Since(w.journal, ts), p);
      UndoAt(w.files, Since(w.journal, since), p);
      if Touches(Since(w.journal, since), p) {
        SinceLater(w.journal, ts, since, p);
      }
    }
  }

  lemma {:induction false} EventsKeepTraced(origin: Files, w: Workspace, ts: int, events: seq<Event>)
    requires Traced(origin, w.files, Since(w.journal, ts))
    requires forall k :: 0 <= k < |events| ==> NotBefore(events[k], ts)
    ensures Traced(origin, ApplyAll(w, events).files, Since(ApplyAll(w, events).journal, ts))
  {
    hide Traced;
    if events != [] {
      var n := |events| - 1;
      EventsKeepTraced(origin, w, ts, events[..n]);
      var w' := ApplyAll(w, events[..n]);
      match events[n]
      case Write(path, content, at) => WriteKeepsTraced(origin, w', ts, path, content, at);
      case Rollback(since) => RollbackKeepsTraced(origin, w', ts, since);
    }
  }

  /** Nothing has happened yet. */
  lemma NothingToTrace(files: Files, journal: seq<Entry>, ts: int)
    requires forall k :: 0 <= k < |journal| ==> journal[k].ts < ts
    ensures Traced(files, files, Since(journal, ts))
  {
    SinceNone(journal, ts);
  }

  /** `origin` with every touched file that was empty deleted. */
  function WithoutEmpty(origin: Files, entries: seq<Entry>): Files {
    map path | path in origin && !(origin[path] == "" && Touches(entries, path)) :: origin[path]
  }

  lemma SameEverywhere(files: Files, files': Files)
    requires forall path :: SameAt(files, files', path)
    ensures files == files'
  {
    forall path ensures path in files <==> path in files' {
      assert SameAt(files, files', path);
    }
    forall path | path in files ensures files[path] == files'[path] {
      assert SameAt(files, files', path);
    }
  }

  lemma UndoTraced(origin: Files, files: Files, entries: seq<Entry>)
    requires Traced(origin, files, entries)
    ensures Undo(files, entries) == WithoutEmpty(origin, entries)
  {
    var undone, expected := Undo(files, entries), WithoutEmpty(origin, entries);
    forall path ensures SameAt(undone, expected, path) {
      UndoAt(files, entries, path);
      assert TracedAt(origin, files, entries, path);
    }
    SameEverywhere(undone, expected);
  }

  /** Existing-but-empty files are the only ones a rollback can lose. */
  ghost predicate LosesEmpty(origin: Files, entries: seq<Entry>) {
    exists path :: path in origin && origin[path] == "" && Touches(entries, path)
  }

  lemma WithoutEmptyExactly(origin: Files, entries: seq<Entry>)
    ensures WithoutEmpty(origin, entries) == origin <==> !LosesEmpty(origin, entries)
  {
    if LosesEmpty(origin, entries) {
      var path :| path in origin && origin[path] == "" && Touches(entries, path);
      assert path !in WithoutEmpty(origin, entries);
    }
  }

  /** After any sequence of journaled writes and inner rollbacks since `ts`, rolling back
      to `ts` restores every path to its content then, except that files which existed
      but were empty and have been written since are deleted. */
  lemma RollbackRestores(w: Workspace, ts: int, events: seq<Event>)
    requires forall k :: 0 <= k < |w.journal| ==> w.journal[k].ts < ts
    requires forall k :: 0 <= k < |events| ==> NotBefore(events[k], ts)
    ensures var w' := ApplyAll(w, events); var entries := Since(w'.journal, ts);
            && Apply(w', Rollback(ts)).files == WithoutEmpty(w.files, entries)
            && (Apply(w', Rollback(ts)).files == w.files <==> !LosesEmpty(w.files, entries))
  {
    NothingToTrace(w.files, w.journal, ts);
    EventsKeepTraced(w.files, w, ts, events);
    var w' := ApplyAll(w, events);
    var entries := Since(w'.journal, ts);
    UndoTraced(w.files, w'.files, entries);
    WithoutEmptyExactly(w.files, entries);
  }

  /** The loss happens: writing an empty file, such as a package marker, and rolling
      back deletes it. */
  lemma EmptyFileIsLost(path: string, content: string, ts: int)
    ensures var w := Workspace(map[path := ""], []);
            Apply(ApplyAll(w, [Write(path, content, ts)]), Rollback(ts)).files == map[]
  {
    var w := Workspace(map[path := ""], []);
    var ev, e := Write(path, content, ts), Entry(ts, path, "");
    assert ApplyAll(w, [ev]) == Apply(w, ev);
    assert Since([e], ts) == [e] by { SinceAppend([], e, ts); }
    var files := map[path := content];
    assert Undo(files, [e]) == Undo(Restore(files, e), []);
    assert files - {path} == map[];
  }
}
