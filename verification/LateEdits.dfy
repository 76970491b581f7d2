/** What goes wrong outside the conditions of cache transparency: a file edited
    between being read and its result being stored, and a file that can no longer
    be read. */
module LateEdits {
  import opened Basics
  import opened Diagnostics
  import opened Cache
  import opened LintRuns

  // ------------------------------------------------------------- stale entries

  /** The map answers for `now` by its stamp, with the lint of `read`. */
  ghost predicate Stale(env: Env, entries: Entries, path: string, read: Bytes, now: File) {
    var key := env.pathHash(path);
    && key in entries
    && entries[key].stamp == StampOf(MetaOf(Some(now)), 0)
    && entries[key].diagnostics == Pack(FullLint(env, path, read))
  }

  ghost predicate WorkerStale(env: Env, path: string, read: Bytes, w: Worker) {
    !InFlight(w) && !w.Reading? && (w.Returned? || w.Recorded? ==> w.result == FullLint(env, path, read))
  }

  /** The stale result is in the map, and in the index or about to be. */
  ghost predicate Served(env: Env, v: State, path: string, read: Bytes, now: File) {
    && FileAt(v.files, path) == Some(now)
    && (v.running ==> Stale(env, v.entries, path, read, now))
    && ((v.running && v.dirty) || Stale(env, LoadIndex(v.index), path, read, now))
    && (path in v.workers ==> WorkerStale(env, path, read, v.workers[path]))
  }

  /** No event that makes the stale result go away: the file stays as it is, and
      runs end in a flush. */
  predicate Lasting(e: Event, path: string) {
    match e
    case Worked(_) => true
    case Edited(q, _) => q != path
    case Began(_) => true
    case Ended(flushed) => flushed
    case Killed => false
    case IndexLost => false
  }

  // ------------------------------------------------------------ steps keep it

  /** A later worker is answered by the stamp. */
  lemma ServedAdvances(env: Env, v: State, path: string, read: Bytes, now: File)
    requires GoodEnv(env) && env.cacheOn && !env.excluded(path) && v.running && path in v.workers
    requires Served(env, v, path, read, now)
    ensures Served(env, Work(env, v, path), path, read, now)
  {
    PackRoundTrip(FullLint(env, path, read), path);
    assert WorkerStale(env, path, read, v.workers[path]);
  }

  lemma OthersAdvance(env: Env, v: State, q: string, path: string, read: Bytes, now: File)
    requires GoodEnv(env) && q in v.workers && q != path && v.running && Served(env, v, path, read, now)
    ensures Served(env, Work(env, v, q), path, read, now)
  {
    AdvanceTouchesOwnEntry(env, q, FileAt(v.files, q), v.entries, v.found, v.workers[q]);
    assert env.pathHash(q) != env.pathHash(path);
    var key := env.pathHash(path);
    var after := Work(env, v, q).entries;
    assert key in after <==> key in v.entries;
  }

  lemma EventKeepsServed(env: Env, v: State, e: Event, path: string, read: Bytes, now: File)
    requires GoodEnv(env) && env.cacheOn && !env.excluded(path)
    requires Served(env, v, path, read, now) && Possible(env, v, e) && Lasting(e, path)
    ensures Served(env, Happen(env, v, e), path, read, now)
  {
    match e
    case Worked(q) =>
      if q == path {
        ServedAdvances(env, v, path, read, now);
      } else {
        OthersAdvance(env, v, q, path, read, now);
      }
    case Edited(q, file) => assert FileAt(Happen(env, v, e).files, path) == FileAt(v.files, path);
    case Began(paths) =>
    case Ended(flushed) =>
  }

  lemma {:induction false} HistoryKeepsServed(env: Env, v: State, late: seq<Event>, u: State, path: string,
                                              read: Bytes, now: File)
    requires GoodEnv(env) && env.cacheOn && !env.excluded(path)
    requires Served(env, v, path, read, now) && History(env, v, late, u)
    requires forall i :: 0 <= i < |late| ==> Lasting(late[i], path)
    ensures Served(env, u, path, read, now)
    decreases |late|
  {
    if late != [] {
      EventKeepsServed(env, v, late[0], path, read, now);
      HistoryKeepsServed(env, Happen(env, v, late[0]), late[1..], u, path, read, now);
    }
  }

  /** A worker about to write the map, after any history: edits at any time, of this
      file too, as often as may be. */
  ghost predicate AboutToWrite(env: Env, s: State, early: seq<Event>, t: State, path: string) {
    && GoodEnv(env) && env.cacheOn && Fresh(env, s) && History(env, s, early, t)
    && path in t.workers && (t.workers[path].Matched? || t.workers[path].Storing?)
  }

  /** What the write leaves: the lint of what was read, under the stamp of what is
      there by then. */
  lemma WriteLeaves(env: Env, s: State, early: seq<Event>, t: State, path: string)
    requires AboutToWrite(env, s, early, t, path)
    ensures var v, read, key := Work(env, t, path), t.workers[path].content, env.pathHash(path);
            && v.running && v.dirty && v.files == t.files && !env.excluded(path)
            && v.workers[path] == Returned(t.workers[path].seen, FullLint(env, path, read))
            && key in v.entries
            && v.entries[key].stamp == StampOf(MetaOf(FileAt(t.files, path)), |read|)
            && EntryOf(env, v.entries[key], path, read)
  {
    HistoryKeepsBase(env, s, early, t, path);
    var w, file := t.workers[path], FileAt(t.files, path);
    if w.Matched? {
      MatchedReturnsLint(env, path, file, t.entries, w);
    } else {
      StoringReturnsLint(env, path, file, t.entries, w);
    }
  }

  /** However often a file is edited while its worker is busy: if it is `now` when
      the result is written, then whatever is recorded for it from then on, in this
      run and in every later one, is the lint of the content that was read, as long
      as the file stays as it is and runs are flushed. So it is the uncached result
      if and only if the two contents lint alike. */
  lemma LateEditIsServed(env: Env, s: State, early: seq<Event>, t: State, path: string, now: File,
                         late: seq<Event>, u: State)
    requires AboutToWrite(env, s, early, t, path) && FileAt(t.files, path) == Some(now)
    requires History(env, Work(env, t, path), late, u)
    requires forall i :: 0 <= i < |late| ==> Lasting(late[i], path)
    requires path in u.workers && u.workers[path].Recorded?
    ensures var read, r := t.workers[path].content, u.workers[path].result;
            && FileAt(u.files, path) == Some(now)
            && r == FullLint(env, path, read)
            && (now.readable ==>
                  (r == Uncached(env, path, FileAt(u.files, path))
                   <==> FullLint(env, path, read) == FullLint(env, path, now.content)))
  {
    WriteLeaves(env, s, early, t, path);
    HistoryKeepsServed(env, Work(env, t, path), late, u, path, t.workers[path].content, now);
  }

  /** If the file is gone when the result is written, the entry gets the time of the
      epoch and the length that was read: a file that comes back is answered by it
      exactly if it has that length and no time after the epoch. */
  lemma LateDeletion(env: Env, s: State, early: seq<Event>, t: State, path: string, back: File)
    requires AboutToWrite(env, s, early, t, path) && FileAt(t.files, path) == None
    ensures var read := t.workers[path].content;
            LookupByStat(Work(env, t, path).entries, env.pathHash(path), path, MetaOf(Some(back)))
            == if |back.content| == |read| && Seen(back.modified) == 0 then StatHit(FullLint(env, path, read)) else Miss
  {
    WriteLeaves(env, s, early, t, path);
    var read := t.workers[path].content;
    StampTells(Meta(None, 0), Meta(back.modified, |back.content|), |read|, 0);
    PackRoundTrip(FullLint(env, path, read), path);
  }

  // ---------------------------------------------------------------- witnesses

  const RB := "a.rb"

  const OFFENSE := Diagnostic(RB, 1, 0, Convention, "A/B", "m", false)

  /** One cop, which fires on the text "a" of one file; contents are told apart by
      the nanosecond of their modification. */
  function Example(): Env {
    Env(p => p,
        b => seq(|b|, i requires 0 <= i < |b| => b[i] as int as char),
        c => false,
        p => [],
        (p, c) => if p == RB && c == [97] then [OFFENSE] else [],
        p => false,
        (p, st: Stamp) => if st.nanos == 1 then [97] else [98],
        true,
        false)
  }

  lemma ExampleIsGood()
    ensures GoodEnv(Example())
  {
    var env := Example();
    forall a, b | env.contentHash(a) == env.contentHash(b)
      ensures a == b
    {
      var x, y := env.contentHash(a), env.contentHash(b);
      assert |x| == |a| && |y| == |b|;
      forall i | 0 <= i < |a|
        ensures a[i] == b[i]
      {
        assert x[i] == y[i];
      }
    }
  }

  /** A machine doing nothing but lint one file. */
  function Alone(file: File, index: Option<Contents>, entries: Entries, dirty: bool, w: Worker): State {
    State(map[RB := file], index, entries, dirty, true, map[RB := w], false)
  }

  /** A history that ends in the given state. */
  ghost predicate Leads(env: Env, events: seq<Event>, t: State) {
    History(env, Nothing(), events, t)
  }

  /** A machine with no files on which the linter has never run. */
  function Nothing(): State {
    State(map[], None, map[], false, false, map[], false)
  }

  lemma {:induction false} OneMore(env: Env, s: State, events: seq<Event>, t: State, e: Event)
    requires History(env, s, events, t) && Possible(env, t, e)
    ensures History(env, s, events + [e], Happen(env, t, e))
    decreases |events|
  {
    if events == [] {
      assert [e][1..] == [];
      assert History(env, Happen(env, t, e), [], Happen(env, t, e));
    } else {
      OneMore(env, Happen(env, s, events[0]), events[1..], t, e);
      assert (events + [e])[1..] == events[1..] + [e];
    }
  }

  lemma Moves(env: Env, events: seq<Event>, t: State, e: Event, u: State) returns (more: seq<Event>)
    requires Leads(env, events, t) && Possible(env, t, e) && Happen(env, t, e) == u
    ensures Leads(env, more, u)
  {
    OneMore(env, Nothing(), events, t, e);
    more := events + [e];
  }

  /** The worker of the lone file takes one step. */
  lemma Steps(env: Env, events: seq<Event>, file: File, index: Option<Contents>, entries: Entries, dirty: bool, w: Worker,
              after: Effect) returns (more: seq<Event>)
    requires !env.failFast && !Done(w)
    requires Leads(env, events, Alone(file, index, entries, dirty, w))
    requires Advance(env, RB, Some(file), entries, false, w) == after
    ensures Leads(env, more, Alone(file, index, after.entries, dirty || after.wrote, after.worker))
  {
    var t := Alone(file, index, entries, dirty, w);
    assert t.workers[RB := after.worker] == map[RB := after.worker];
    more := Moves(env, events, t, Worked(RB), Alone(file, index, after.entries, dirty || after.wrote, after.worker));
  }

  /** The lone file is linted for the first time, up to the lint itself. */
  lemma FirstSteps(env: Env, file: File) returns (events: seq<Event>)
    requires !env.failFast && env.cacheOn && !env.excluded(RB) && !env.undecodable(file.content)
    requires Genuine(env, RB, file) && file.readable
    ensures Leads(env, events, Alone(file, None, map[], false, Linting(Some(file), file.content)))
  {
    var seen, c := Some(file), file.content;
    events := Moves(env, [], Nothing(), Edited(RB, seen), Nothing().(files := map[RB := file]));
    events := Moves(env, events, Nothing().(files := map[RB := file]), Began({RB}), Alone(file, None, map[], false, Idle));
    events := Steps(env, events, file, None, map[], false, Idle, Effect(Entered, map[], false));
    events := Steps(env, events, file, None, map[], false, Entered, Effect(Reading, map[], false));
    events := Steps(env, events, file, None, map[], false, Reading, Effect(Holding(seen, c), map[], false));
    events := Steps(env, events, file, None, map[], false, Holding(seen, c), Effect(Linting(seen, c), map[], false));
  }

  /** From the lint of `c` to the flushed end of the run; `file` is what is on disk
      by then. */
  lemma LastSteps(env: Env, events: seq<Event>, file: File, seen: Option<File>, c: Bytes)
    returns (more: seq<Event>, entries: Entries)
    requires !env.failFast && env.cacheOn && !env.undecodable(c)
    requires Leads(env, events, Alone(file, None, map[], false, Linting(seen, c)))
    ensures Leads(env, more, Alone(file, Some(Whole(entries)), entries, true, Recorded(seen, env.lint(RB, c))).(running := false))
    ensures entries == Stored(map[], env.pathHash(RB), StampOf(MetaOf(Some(file)), |c|), env.contentHash(c), env.lint(RB, c))
  {
    var r := env.lint(RB, c);
    entries := Stored(map[], env.pathHash(RB), StampOf(MetaOf(Some(file)), |c|), env.contentHash(c), r);
    more := Steps(env, events, file, None, map[], false, Linting(seen, c), Effect(Storing(seen, c, r), map[], false));
    more := Steps(env, more, file, None, map[], false, Storing(seen, c, r), Effect(Returned(seen, r), entries, true));
    more := Steps(env, more, file, None, entries, true, Returned(seen, r), Effect(Recorded(seen, r), entries, false));
    var t := Alone(file, None, entries, true, Recorded(seen, r));
    more := Moves(env, more, t, Ended(true), t.(running := false, index := Some(Whole(entries))));
  }

  /** A second run, answered by the stamp. */
  lemma SecondRun(env: Env, events: seq<Event>, t: State, file: File, entries: Entries, r: seq<Diagnostic>)
    returns (more: seq<Event>)
    requires !env.failFast && env.cacheOn && !env.excluded(RB)
    requires Leads(env, events, t) && !t.running && t.files == map[RB := file] && t.index == Some(Whole(entries))
    requires LookupByStat(entries, env.pathHash(RB), RB, MetaOf(Some(file))) == StatHit(r)
    ensures Leads(env, more, Alone(file, t.index, entries, false, Recorded(Some(file), r)))
  {
    more := Moves(env, events, t, Began({RB}), Alone(file, t.index, entries, false, Idle));
    more := Steps(env, more, file, t.index, entries, false, Idle, Effect(Entered, entries, false));
    more := Steps(env, more, file, t.index, entries, false, Entered, Effect(Returned(Some(file), r), entries, false));
    more := Steps(env, more, file, t.index, entries, false, Returned(Some(file), r),
                  Effect(Recorded(Some(file), r), entries, false));
  }

  /** The file changes between two runs, but not its stamp. */
  lemma ChangeBetweenRuns(env: Env, file: File, now: File) returns (events: seq<Event>, entries: Entries)
    requires !env.failFast && env.cacheOn && !env.excluded(RB) && !env.undecodable(file.content)
    requires Genuine(env, RB, file) && file.readable && Genuine(env, RB, now)
    requires StampOf(MetaOf(Some(file)), |file.content|) == StampOf(MetaOf(Some(now)), 0)
    requires Storable(env.lint(RB, file.content), RB)
    ensures Leads(env, events, Alone(now, Some(Whole(entries)), entries, false, Recorded(Some(now), env.lint(RB, file.content))))
  {
    var r := env.lint(RB, file.content);
    events := FirstSteps(env, file);
    events, entries := LastSteps(env, events, file, Some(file), file.content);
    var mid := Alone(file, Some(Whole(entries)), entries, true, Recorded(Some(file), r)).(running := false);
    events := Moves(env, events, mid, Edited(RB, Some(now)), mid.(files := map[RB := now]));
    PackRoundTrip(r, RB);
    events := SecondRun(env, events, mid.(files := map[RB := now]), now, entries, r);
  }

  /** The file changes between being read and its result being stored. */
  lemma ChangeInFlight(env: Env, file: File, now: File) returns (events: seq<Event>, entries: Entries)
    requires !env.failFast && env.cacheOn && !env.excluded(RB) && !env.undecodable(file.content)
    requires Genuine(env, RB, file) && file.readable && Genuine(env, RB, now)
    requires Storable(env.lint(RB, file.content), RB)
    ensures Leads(env, events, Alone(now, Some(Whole(entries)), entries, false, Recorded(Some(now), env.lint(RB, file.content))))
  {
    var r := env.lint(RB, file.content);
    events := FirstSteps(env, file);
    var linting := Alone(file, None, map[], false, Linting(Some(file), file.content));
    events := Moves(env, events, linting, Edited(RB, Some(now)), linting.(files := map[RB := now]));
    events, entries := LastSteps(env, events, now, Some(file), file.content);
    var mid := Alone(now, Some(Whole(entries)), entries, true, Recorded(Some(file), r)).(running := false);
    PackRoundTrip(r, RB);
    events := SecondRun(env, events, mid, now, entries, r);
  }

  /** Lint a file, make it unreadable, lint again: the second run records an
      offense where a run without the cache records none. */
  lemma UnreadableFileExample() returns (events: seq<Event>, t: State)
    ensures GoodEnv(Example()) && Fresh(Example(), Nothing()) && History(Example(), Nothing(), events, t)
    ensures RB in t.workers && t.workers[RB].Recorded? && t.workers[RB].seen == FileAt(t.files, RB)
    ensures t.workers[RB].result == [OFFENSE] && Uncached(Example(), RB, FileAt(t.files, RB)) == []
  {
    ExampleIsGood();
    var file, closed := File(Some(1), [97], true), File(Some(1), [97], false);
    var entries: Entries;
    events, entries := ChangeBetweenRuns(Example(), file, closed);
    t := Alone(closed, Some(Whole(entries)), entries, false, Recorded(Some(closed), [OFFENSE]));
  }

  /** Edit a file while it is being linted: the next run records the offense of the
      text that is gone. */
  lemma LateEditExample() returns (events: seq<Event>, t: State)
    ensures GoodEnv(Example()) && Fresh(Example(), Nothing()) && History(Example(), Nothing(), events, t)
    ensures RB in t.workers && t.workers[RB].Recorded? && t.workers[RB].seen == FileAt(t.files, RB)
    ensures t.workers[RB].result == [OFFENSE] && Uncached(Example(), RB, FileAt(t.files, RB)) == []
    ensures FileAt(t.files, RB).Some? && FileAt(t.files, RB).value.readable
  {
    ExampleIsGood();
    var file, now := File(Some(1), [97], true), File(Some(2), [98], true);
    var entries: Entries;
    events, entries := ChangeInFlight(Example(), file, now);
    t := Alone(now, Some(Whole(entries)), entries, false, Recorded(Some(now), [OFFENSE]));
  }
}
