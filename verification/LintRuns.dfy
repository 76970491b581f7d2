/** Whole linter runs over one cache: parallel workers each following
    `lint_file`, the fail-fast flag they share, file edits, flushes, crashes and
    restarts (src/linter.rs, `run_linter` and `lint_file`; src/cache.rs). */
module LintRuns {
  import opened Basics
  import opened Diagnostics
  import opened Cache

  /** Everything a session holds fixed. `version` is the assumption behind the
      stat tier: a path's stamp determines its content. */
  datatype Env = Env(
    pathHash: string -> string,
    contentHash: Bytes -> string,
    undecodable: Bytes -> bool,
    encodingReport: string -> seq<Diagnostic>,
    lint: (string, Bytes) -> seq<Diagnostic>,
    excluded: string -> bool,
    version: (string, Stamp) -> Bytes,
    cacheOn: bool,
    failFast: bool)

  /** Invalid UTF-8 without an encoding comment gets the one syntax offense and
      no cop runs; anything else is linted. */
  function FullLint(env: Env, path: string, content: Bytes): seq<Diagnostic> {
    if env.undecodable(content) then env.encodingReport(path) else env.lint(path, content)
  }

  ghost predicate GoodEnv(env: Env) {
    && (forall p, q :: env.pathHash(p) == env.pathHash(q) ==> p == q)
    && (forall a, b :: env.contentHash(a) == env.contentHash(b) ==> a == b)
    && (forall p, c :: Storable(FullLint(env, p, c), p))
  }

  datatype File = File(modified: Option<int>, content: Bytes, readable: bool)

  function MetaOf(file: Option<File>): Option<Meta> {
    match file
    case Some(f) => Some(Meta(f.modified, |f.content|))
    case None => None
  }

  /** What `lint_file` returns for a file when there is no cache. */
  function Uncached(env: Env, path: string, file: Option<File>): seq<Diagnostic> {
    if env.excluded(path) || file.None? || !file.value.readable then []
    else FullLint(env, path, file.value.content)
  }

  // ------------------------------------------------------------------ state

  /** Where a worker stands in its file. `seen` is the file as it was when it was
      read or, if a stat hit answered for it, when it was checked. */
  datatype Worker =
    | Idle
    | Skipped
    | Entered
    | Reading
    | Holding(seen: Option<File>, content: Bytes)
    | Matched(seen: Option<File>, content: Bytes)
    | Linting(seen: Option<File>, content: Bytes)
    | Storing(seen: Option<File>, content: Bytes, result: seq<Diagnostic>)
    | Returned(seen: Option<File>, result: seq<Diagnostic>)
    | Recorded(seen: Option<File>, result: seq<Diagnostic>)

  datatype State = State(
    files: map<string, File>,
    index: Option<Contents>,
    entries: Entries,
    dirty: bool,
    running: bool,
    workers: map<string, Worker>,
    found: bool)

  function FileAt(files: map<string, File>, path: string): Option<File> {
    if path in files then Some(files[path]) else None
  }

  /** Between reading its file and its last use of it. */
  predicate InFlight(w: Worker) {
    w.Holding? || w.Matched? || w.Linting? || w.Storing?
  }

  predicate Done(w: Worker) {
    w.Skipped? || w.Recorded?
  }

  // ------------------------------------------------------------------ steps

  /** The worker's next place, the map after the step, and whether the step
      wrote to the map. */
  datatype Effect = Effect(worker: Worker, entries: Entries, wrote: bool)

  function StatCheck(env: Env, path: string, file: Option<File>, entries: Entries): Worker {
    if env.excluded(path) then Returned(file, [])
    else if !env.cacheOn then Reading
    else
      match LookupByStat(entries, env.pathHash(path), path, MetaOf(file))
      case StatHit(found) => Returned(file, found)
      case _ => Reading
  }

  function ReadFile(env: Env, path: string, file: Option<File>): Worker {
    if file.None? || !file.value.readable then Returned(file, [])
    else if env.undecodable(file.value.content) then
      Finish(env, file, file.value.content, env.encodingReport(path))
    else Holding(file, file.value.content)
  }

  /** A fresh result is stored when the cache is on. */
  function Finish(env: Env, seen: Option<File>, content: Bytes, result: seq<Diagnostic>): Worker {
    if env.cacheOn then Storing(seen, content, result) else Returned(seen, result)
  }

  function ContentCheck(env: Env, path: string, entries: Entries, seen: Option<File>, content: Bytes): Worker {
    if env.cacheOn && ContentMatches(entries, env.pathHash(path), env.contentHash(content))
    then Matched(seen, content) else Linting(seen, content)
  }

  function RefreshEntry(env: Env, path: string, file: Option<File>, entries: Entries,
                        seen: Option<File>, content: Bytes): Effect
  {
    var (lookup, after) := Refresh(entries, env.pathHash(path), path, StampOf(MetaOf(file), |content|));
    match lookup
    case ContentHit(found) => Effect(Returned(seen, found), after, true)
    case _ => Effect(Linting(seen, content), entries, false)
  }

  function StoreEntry(env: Env, path: string, file: Option<File>, entries: Entries,
                      seen: Option<File>, content: Bytes, result: seq<Diagnostic>): Effect
  {
    Effect(Returned(seen, result),
           Stored(entries, env.pathHash(path), StampOf(MetaOf(file), |content|), env.contentHash(content), result),
           true)
  }

  /** One atomic step of the worker on `path`. */
  function Advance(env: Env, path: string, file: Option<File>, entries: Entries, found: bool, w: Worker): Effect {
    match w
    case Idle => Effect(if env.failFast && found then Skipped else Entered, entries, false)
    case Entered => Effect(StatCheck(env, path, file, entries), entries, false)
    case Reading => Effect(ReadFile(env, path, file), entries, false)
    case Holding(seen, content) => Effect(ContentCheck(env, path, entries, seen, content), entries, false)
    case Matched(seen, content) => RefreshEntry(env, path, file, entries, seen, content)
    case Linting(seen, content) => Effect(Finish(env, seen, content, env.lint(path, content)), entries, false)
    case Storing(seen, content, result) => StoreEntry(env, path, file, entries, seen, content, result)
    case Returned(seen, result) => Effect(Recorded(seen, result), entries, false)
    case Skipped => Effect(w, entries, false)
    case Recorded(_, _) => Effect(w, entries, false)
  }

  /** The step as seen by the whole run. Other workers' steps may come between
      any two, in particular between the read-locked match and the write-locked
      refresh. */
  function Work(env: Env, s: State, path: string): State
    requires path in s.workers
  {
    var w := s.workers[path];
    var e := Advance(env, path, FileAt(s.files, path), s.entries, s.found, w);
    s.(workers := s.workers[path := e.worker],
       entries := e.entries,
       dirty := s.dirty || e.wrote,
       found := s.found || (env.failFast && w.Returned? && w.result != []))
  }

  datatype Event =
    | Worked(path: string)
    | Edited(path: string, file: Option<File>)
    | Began(paths: set<string>)
    | Ended(flushed: bool)
    | Killed
    | IndexLost

  /** A file is as its stamp says. */
  ghost predicate Genuine(env: Env, path: string, file: File) {
    file.content == env.version(path, StampOf(MetaOf(Some(file)), 0))
  }

  ghost predicate Possible(env: Env, s: State, e: Event) {
    match e
    case Worked(path) => s.running && path in s.workers && !Done(s.workers[path])
    case Edited(path, file) => file.Some? ==> Genuine(env, path, file.value)
    case Began(paths) => !s.running
    case Ended(flushed) => s.running && forall p :: p in s.workers ==> Done(s.workers[p])
    case Killed => s.running
    case IndexLost => true
  }

  function Happen(env: Env, s: State, e: Event): State
    requires e.Worked? ==> e.path in s.workers
  {
    match e
    case Worked(path) => Work(env, s, path)
    case Edited(path, file) =>
      s.(files := match file case Some(f) => s.files[path := f] case None => s.files - {path})
    case Began(paths) =>
      s.(running := true, entries := LoadIndex(s.index), dirty := false, found := false,
         workers := map p | p in paths :: Idle)
    case Ended(flushed) =>
      s.(running := false, index := if env.cacheOn && s.dirty && flushed then Some(Whole(s.entries)) else s.index)
    case Killed => s.(running := false, workers := map[], found := false)
    case IndexLost => s.(index := None)
  }

  /** The state after a history; every event must be possible when it comes. */
  ghost predicate History(env: Env, s: State, events: seq<Event>, t: State)
    decreases |events|
  {
    if events == [] then t == s
    else Possible(env, s, events[0]) && History(env, Happen(env, s, events[0]), events[1..], t)
  }

  /** No edit of `path` comes while its worker is using what it read. Edits of
      other files, and of this one at any other time, are free. */
  ghost predicate Undisturbed(env: Env, s: State, events: seq<Event>, path: string)
    decreases |events|
  {
    events == [] ||
    (&& !(events[0].Edited? && events[0].path == path && path in s.workers && InFlight(s.workers[path]))
     && (events[0].Worked? ==> events[0].path in s.workers)
     && Undisturbed(env, Happen(env, s, events[0]), events[1..], path))
  }

  // -------------------------------------------------------------- invariant

  /** The entry holds the lint result of content `c` of `path`, and its stamp is
      one that only `c` can have there. */
  ghost predicate EntryFor(env: Env, e: Entry, path: string, c: Bytes) {
    && env.contentHash(c) == e.contentHash
    && env.version(path, e.stamp) == c
    && e.diagnostics == Pack(FullLint(env, path, c))
  }

  ghost predicate Sound(env: Env, entries: Entries, path: string) {
    env.pathHash(path) in entries ==> exists c :: EntryFor(env, entries[env.pathHash(path)], path, c)
  }

  /** What a worker's local values promise, given its file and the map. */
  ghost predicate WorkerOk(env: Env, path: string, file: Option<File>, entries: Entries, w: Worker) {
    && (w.Reading? ==> !env.excluded(path))
    && (InFlight(w) ==> w.seen == file && Usable(env, path, file, w.content))
    && ((w.Holding? || w.Matched? || w.Linting?) ==> !env.undecodable(w.content))
    && (w.Matched? ==> ContentMatches(entries, env.pathHash(path), env.contentHash(w.content)))
    && (w.Storing? ==> w.result == FullLint(env, path, w.content))
    && ((w.Returned? || w.Recorded?) ==> Faithful(env, path, w.seen, w.result))
    && ((w.Returned? || w.Recorded?) && env.cacheOn && !env.excluded(path) && w.seen.Some? && w.seen.value.readable
        ==> Warm(env, path, w.seen.value, entries))
  }

  ghost predicate Usable(env: Env, path: string, file: Option<File>, content: Bytes) {
    !env.excluded(path) && file.Some? && file.value.readable && content == file.value.content
  }

  /** The map answers for the file by its stamp. */
  ghost predicate Warm(env: Env, path: string, file: File, entries: Entries) {
    env.pathHash(path) in entries && entries[env.pathHash(path)].stamp == StampOf(MetaOf(Some(file)), 0)
  }

  /** The result is the uncached one; only a stat hit on a file that can be
      statted but not read may differ, and then it is the lint of its content. */
  ghost predicate Faithful(env: Env, path: string, seen: Option<File>, result: seq<Diagnostic>) {
    || result == Uncached(env, path, seen)
    || (&& env.cacheOn && !env.excluded(path) && seen.Some? && !seen.value.readable
        && result == FullLint(env, path, seen.value.content))
  }

  ghost predicate FileOk(env: Env, path: string, file: Option<File>) {
    file.Some? ==> Genuine(env, path, file.value)
  }

  /** All that concerns one path. */
  ghost predicate Inv(env: Env, s: State, path: string) {
    && FileOk(env, path, FileAt(s.files, path))
    && Sound(env, s.entries, path) && Sound(env, LoadIndex(s.index), path)
    && (path in s.workers ==> WorkerOk(env, path, FileAt(s.files, path), s.entries, s.workers[path]))
  }

  // ------------------------------------------- the map stays sound

  /** With injective hashes an entry speaks about one content. */
  lemma EntryDetermines(env: Env, entries: Entries, path: string) returns (c: Bytes)
    requires GoodEnv(env) && Sound(env, entries, path) && env.pathHash(path) in entries
    ensures EntryFor(env, entries[env.pathHash(path)], path, c)
    ensures Unpack(entries[env.pathHash(path)].diagnostics, path) == FullLint(env, path, c)
  {
    c :| EntryFor(env, entries[env.pathHash(path)], path, c);
    PackRoundTrip(FullLint(env, path, c), path);
  }

  /** A stat hit returns the lint of what the file holds now. */
  lemma StatHitIsLint(env: Env, entries: Entries, path: string, file: File)
    requires GoodEnv(env) && Sound(env, entries, path) && Genuine(env, path, file)
    requires LookupByStat(entries, env.pathHash(path), path, MetaOf(Some(file))).StatHit?
    ensures LookupByStat(entries, env.pathHash(path), path, MetaOf(Some(file)))
            == StatHit(FullLint(env, path, file.content))
  {
    var c := EntryDetermines(env, entries, path);
  }

  /** The write-locked half: the result is the lint of the matched content and
      the refreshed entry is sound. */
  lemma RefreshIsSound(env: Env, entries: Entries, path: string, file: File)
    requires GoodEnv(env) && Sound(env, entries, path) && Genuine(env, path, file)
    requires ContentMatches(entries, env.pathHash(path), env.contentHash(file.content))
    ensures var r := Refresh(entries, env.pathHash(path), path, StampOf(MetaOf(Some(file)), |file.content|));
            r.0 == ContentHit(FullLint(env, path, file.content)) && Sound(env, r.1, path)
  {
    var c := EntryDetermines(env, entries, path);
    assert c == file.content;
    assert EntryFor(env, entries[env.pathHash(path)].(stamp := StampOf(MetaOf(Some(file)), 0)), path, c);
  }

  lemma StoredIsSound(env: Env, entries: Entries, path: string, file: File)
    requires Genuine(env, path, file)
    ensures Sound(env, Stored(entries, env.pathHash(path), StampOf(MetaOf(Some(file)), |file.content|),
                              env.contentHash(file.content), FullLint(env, path, file.content)), path)
  {
    assert EntryFor(env, Entry(StampOf(MetaOf(Some(file)), |file.content|), env.contentHash(file.content),
                               Pack(FullLint(env, path, file.content))), path, file.content);
  }

  // ------------------------------------------- every step keeps the invariant

  lemma AdvanceTouchesOwnEntry(env: Env, path: string, file: Option<File>, entries: Entries, found: bool, w: Worker)
    ensures var after := Advance(env, path, file, entries, found, w).entries;
            forall k :: k != env.pathHash(path) ==>
                          (k in after <==> k in entries) && (k in entries ==> after[k] == entries[k])
  {
  }

  lemma StatCheckIsOk(env: Env, path: string, file: Option<File>, entries: Entries)
    requires GoodEnv(env) && Sound(env, entries, path) && FileOk(env, path, file)
    ensures WorkerOk(env, path, file, entries, StatCheck(env, path, file, entries))
  {
    if file.Some? && LookupByStat(entries, env.pathHash(path), path, MetaOf(file)).StatHit? {
      StatHitIsLint(env, entries, path, file.value);
    }
  }

  lemma RefreshEntryIsOk(env: Env, path: string, file: Option<File>, entries: Entries, w: Worker)
    requires GoodEnv(env) && Sound(env, entries, path) && FileOk(env, path, file)
    requires w.Matched? && WorkerOk(env, path, file, entries, w)
    ensures var e := RefreshEntry(env, path, file, entries, w.seen, w.content);
            Sound(env, e.entries, path) && WorkerOk(env, path, file, e.entries, e.worker)
  {
    RefreshIsSound(env, entries, path, file.value);
  }

  lemma StoreEntryIsOk(env: Env, path: string, file: Option<File>, entries: Entries, w: Worker)
    requires GoodEnv(env) && FileOk(env, path, file)
    requires w.Storing? && WorkerOk(env, path, file, entries, w)
    ensures var e := StoreEntry(env, path, file, entries, w.seen, w.content, w.result);
            Sound(env, e.entries, path) && WorkerOk(env, path, file, e.entries, e.worker)
  {
    StoredIsSound(env, entries, path, file.value);
  }

  /** One step keeps the path's entry sound and the worker's own promises. */
  lemma AdvanceIsOk(env: Env, path: string, file: Option<File>, entries: Entries, found: bool, w: Worker)
    requires GoodEnv(env) && Sound(env, entries, path) && FileOk(env, path, file)
    requires WorkerOk(env, path, file, entries, w)
    ensures var e := Advance(env, path, file, entries, found, w);
            Sound(env, e.entries, path) && WorkerOk(env, path, file, e.entries, e.worker)
  {
    match w
    case Entered => StatCheckIsOk(env, path, file, entries);
    case Matched(_, _) => RefreshEntryIsOk(env, path, file, entries, w);
    case Storing(_, _, _) => StoreEntryIsOk(env, path, file, entries, w);
    case _ =>
  }

  /** A step of any worker keeps the invariant of any path: its own, or one whose
      entry it cannot touch. */
  lemma WorkKeepsInv(env: Env, s: State, q: string, path: string)
    requires GoodEnv(env) && Inv(env, s, path) && q in s.workers
    ensures Inv(env, Work(env, s, q), path)
  {
    if q == path {
      AdvanceIsOk(env, path, FileAt(s.files, path), s.entries, s.found, s.workers[path]);
    } else {
      AdvanceTouchesOwnEntry(env, q, FileAt(s.files, q), s.entries, s.found, s.workers[q]);
      assert env.pathHash(q) != env.pathHash(path);
    }
  }

  lemma EventKeepsInv(env: Env, s: State, e: Event, path: string)
    requires GoodEnv(env) && Inv(env, s, path) && Possible(env, s, e)
    requires e.Edited? && e.path == path && path in s.workers ==> !InFlight(s.workers[path])
    ensures Inv(env, Happen(env, s, e), path)
  {
    match e
    case Worked(q) => WorkKeepsInv(env, s, q, path);
    case _ =>
  }

  /** Every history, of any length and any interleaving, keeps the invariant of
      every path it does not disturb. */
  lemma {:induction false} HistoryKeepsInv(env: Env, s: State, events: seq<Event>, t: State, path: string)
    requires GoodEnv(env) && Inv(env, s, path) && History(env, s, events, t) && Undisturbed(env, s, events, path)
    ensures Inv(env, t, path)
    decreases |events|
  {
    if events != [] {
      EventKeepsInv(env, s, events[0], path);
      HistoryKeepsInv(env, Happen(env, s, events[0]), events[1..], t, path);
    }
  }

  /** The fail-fast flag is up only if some finished file had offenses, and files
      are skipped only when it is. */
  ghost predicate FlagOk(env: Env, s: State) {
    && (s.found ==> exists p :: p in s.workers && s.workers[p].Recorded? && s.workers[p].result != [])
    && (forall p :: p in s.workers && s.workers[p].Skipped? ==> s.found && env.failFast)
  }

  lemma WorkKeepsFlag(env: Env, s: State, path: string)
    requires FlagOk(env, s) && path in s.workers && !Done(s.workers[path])
    ensures FlagOk(env, Work(env, s, path))
  {
    var t := Work(env, s, path);
    if s.found {
      var p :| p in s.workers && s.workers[p].Recorded? && s.workers[p].result != [];
      assert p in t.workers && t.workers[p] == s.workers[p];
    } else if t.found {
      assert t.workers[path].Recorded?;
    }
    forall p | p in t.workers && t.workers[p].Skipped?
      ensures t.found && env.failFast
    {
      assert p == path || s.workers[p].Skipped?;
    }
  }

  lemma EventKeepsFlag(env: Env, s: State, e: Event)
    requires FlagOk(env, s) && Possible(env, s, e)
    ensures FlagOk(env, Happen(env, s, e))
  {
    if e.Worked? { WorkKeepsFlag(env, s, e.path); }
  }

  /** The flag keeps its meaning under every schedule and every edit. */
  lemma {:induction false} HistoryKeepsFlag(env: Env, s: State, events: seq<Event>, t: State)
    requires FlagOk(env, s) && History(env, s, events, t)
    ensures FlagOk(env, t)
    decreases |events|
  {
    if events != [] {
      EventKeepsFlag(env, s, events[0]);
      HistoryKeepsFlag(env, Happen(env, s, events[0]), events[1..], t);
    }
  }

  /** Under --fail-fast an offense recorded raises the flag. */
  ghost predicate OffenseRaises(env: Env, s: State) {
    env.failFast ==> forall p :: p in s.workers && s.workers[p].Recorded? && s.workers[p].result != [] ==> s.found
  }

  lemma EventKeepsRaised(env: Env, s: State, e: Event)
    requires OffenseRaises(env, s) && Possible(env, s, e)
    ensures OffenseRaises(env, Happen(env, s, e))
  {
    var t := Happen(env, s, e);
    forall p | env.failFast && p in t.workers && t.workers[p].Recorded? && t.workers[p].result != []
      ensures t.found
    {
      assert e.Worked? && p != e.path ==> s.workers[p] == t.workers[p];
    }
  }

  lemma {:induction false} HistoryKeepsRaised(env: Env, s: State, events: seq<Event>, t: State)
    requires OffenseRaises(env, s) && History(env, s, events, t)
    ensures OffenseRaises(env, t)
    decreases |events|
  {
    if events != [] {
      EventKeepsRaised(env, s, events[0]);
      HistoryKeepsRaised(env, Happen(env, s, events[0]), events[1..], t);
    }
  }

  /** Once the flag is up, a file not yet started is never linted in this run. */
  ghost predicate Barred(env: Env, s: State, path: string) {
    s.found && path in s.workers && (s.workers[path].Idle? || s.workers[path].Skipped?)
  }

  lemma {:induction false} RunKeepsBarred(env: Env, t: State, late: seq<Event>, u: State, path: string)
    requires env.failFast && Barred(env, t, path) && History(env, t, late, u)
    requires forall i :: 0 <= i < |late| ==> !late[i].Began? && !late[i].Killed?
    ensures Barred(env, u, path)
    decreases |late|
  {
    if late != [] {
      RunKeepsBarred(env, Happen(env, t, late[0]), late[1..], u, path);
    }
  }

  /** A machine on which the linter has never run. */
  ghost predicate Fresh(env: Env, s: State) {
    && (forall p :: p in s.files ==> Genuine(env, p, s.files[p]))
    && s.index == None && s.entries == map[] && s.workers == map[] && !s.running && !s.found
  }

  /** The history of a machine, undisturbed as far as `path` is concerned. */
  ghost predicate Life(env: Env, s: State, events: seq<Event>, t: State, path: string) {
    GoodEnv(env) && Fresh(env, s) && History(env, s, events, t) && Undisturbed(env, s, events, path)
  }

  // ------------------------------------------------------------ main results

  /** Cache transparency, file by file: after any history of edits, runs,
      interleavings, flushes, crashes and restarts in which this file was not
      edited while its worker was using what it had read, a result recorded for it
      is what linting the file it read would have returned without a cache, unless
      a file that could be statted but not read was answered by its stamp. */
  lemma CacheIsTransparent(env: Env, s: State, events: seq<Event>, t: State, path: string)
    requires Life(env, s, events, t, path)
    requires path in t.workers && t.workers[path].Recorded?
    ensures var w := t.workers[path];
            (w.seen.Some? ==> w.seen.value.readable || !env.cacheOn) ==> w.result == Uncached(env, path, w.seen)
  {
    HistoryKeepsInv(env, s, events, t, path);
  }

  /** What a recorded result is, case by case: nothing for an excluded, missing or
      unreadable file, the one encoding offense for undecodable content, and else
      the lint of what the file held when it was read. */
  lemma RecordedCaseByCase(env: Env, s: State, events: seq<Event>, t: State, path: string)
    requires Life(env, s, events, t, path)
    requires path in t.workers && t.workers[path].Recorded?
    requires t.workers[path].seen.Some? ==> t.workers[path].seen.value.readable || !env.cacheOn
    ensures var file, r := t.workers[path].seen, t.workers[path].result;
            && (env.excluded(path) ==> r == [])
            && (file.None? || !file.value.readable ==> r == [])
            && (!env.excluded(path) && file.Some? && file.value.readable ==>
                  r == if env.undecodable(file.value.content) then env.encodingReport(path)
                       else env.lint(path, file.value.content))
  {
    CacheIsTransparent(env, s, events, t, path);
  }

  /** The content tier is used: a worker holding content whose hash its entry has is
      answered from the map without a lint, in two steps. */
  lemma SameContentIsNotLinted(env: Env, s: State, events: seq<Event>, t: State, path: string)
    requires GoodEnv(env) && Fresh(env, s) && History(env, s, events, t) && env.cacheOn
    requires path in t.workers && t.workers[path].Holding?
    requires env.pathHash(path) in t.entries
    requires t.entries[env.pathHash(path)].contentHash == env.contentHash(t.workers[path].content)
    ensures var u := Happen(env, Happen(env, t, Worked(path)), Worked(path));
            u.workers[path] == Returned(t.workers[path].seen, FullLint(env, path, t.workers[path].content))
  {
    HistoryKeepsBase(env, s, events, t, path);
    var v := Happen(env, t, Worked(path));
    EventKeepsBase(env, t, Worked(path), path);
    assert v.workers[path] == Matched(t.workers[path].seen, t.workers[path].content);
    MatchedReturnsLint(env, path, FileAt(v.files, path), v.entries, v.workers[path]);
  }

  /** The cache is of use: once a run has been flushed, or had nothing to add to the
      index, a later run answers for each readable file it covered, if still the same,
      by its stamp alone, without reading it. */
  lemma FlushedRunIsWarm(env: Env, s: State, events: seq<Event>, t: State, path: string, paths: set<string>)
    requires Life(env, s, events, t, path)
    requires Possible(env, t, Ended(true)) && (t.dirty || LoadIndex(t.index) == t.entries) && env.cacheOn
    requires path in t.workers && t.workers[path].Recorded? && !env.excluded(path)
    requires t.workers[path].seen == FileAt(t.files, path) && path in t.files && t.files[path].readable
    ensures var u := Happen(env, Happen(env, t, Ended(true)), Began(paths));
            StatCheck(env, path, FileAt(u.files, path), u.entries)
            == Returned(FileAt(t.files, path), FullLint(env, path, t.files[path].content))
  {
    HistoryKeepsInv(env, s, events, t, path);
    StatHitIsLint(env, t.entries, path, t.files[path]);
  }

  /** The exception, exactly: a stat hit answers for an unreadable file, and
      agrees with the uncached run if and only if the file is readable or clean. */
  lemma StatHitIgnoresPermissions(env: Env, entries: Entries, path: string, file: File)
    requires GoodEnv(env) && Sound(env, entries, path) && Genuine(env, path, file) && !env.excluded(path)
    requires LookupByStat(entries, env.pathHash(path), path, MetaOf(Some(file))).StatHit?
    ensures LookupByStat(entries, env.pathHash(path), path, MetaOf(Some(file))).found
            == Uncached(env, path, Some(file))
            <==> file.readable || FullLint(env, path, file.content) == []
  {
    StatHitIsLint(env, entries, path, file);
  }

  /** Within a run: the map is as loaded, or something was written to it. */
  ghost predicate AsLoaded(s: State, loaded: Entries) {
    s.running && (s.dirty || s.entries == loaded)
  }

  lemma {:induction false} RunKeepsAsLoaded(env: Env, t: State, late: seq<Event>, u: State, loaded: Entries)
    requires AsLoaded(t, loaded) && History(env, t, late, u)
    requires forall i :: 0 <= i < |late| ==> late[i].Worked? || late[i].Edited? || late[i].IndexLost?
    ensures AsLoaded(u, loaded)
    decreases |late|
  {
    if late != [] {
      RunKeepsAsLoaded(env, Happen(env, t, late[0]), late[1..], u, loaded);
    }
  }

  /** A run that finds everything in the index writes nothing: its map is the one
      loaded, and its end leaves the index file alone. */
  lemma CleanRunLeavesIndex(env: Env, s: State, paths: set<string>, late: seq<Event>, u: State)
    requires Possible(env, s, Began(paths)) && History(env, Happen(env, s, Began(paths)), late, u)
    requires forall i :: 0 <= i < |late| ==> late[i].Worked? || late[i].Edited? || late[i].IndexLost?
    requires !u.dirty
    ensures u.entries == LoadIndex(s.index)
    ensures forall flushed :: Happen(env, u, Ended(flushed)).index == u.index
  {
    RunKeepsAsLoaded(env, Happen(env, s, Began(paths)), late, u, LoadIndex(s.index));
  }

  // ----------------------------------------------- disturbed files

  /** The entry's hash and diagnostics belong to one content, whatever its stamp
      says. */
  ghost predicate EntryOf(env: Env, e: Entry, path: string, c: Bytes) {
    env.contentHash(c) == e.contentHash && e.diagnostics == Pack(FullLint(env, path, c))
  }

  ghost predicate Paired(env: Env, entries: Entries, path: string) {
    env.pathHash(path) in entries ==> exists c :: EntryOf(env, entries[env.pathHash(path)], path, c)
  }

  /** What a worker's local values promise however its file is edited meanwhile. */
  ghost predicate WorkerPaired(env: Env, path: string, entries: Entries, w: Worker) {
    && (w.Reading? ==> !env.excluded(path))
    && (InFlight(w) ==> Usable(env, path, w.seen, w.content))
    && ((w.Holding? || w.Matched? || w.Linting?) ==> !env.undecodable(w.content))
    && (w.Matched? ==> ContentMatches(entries, env.pathHash(path), env.contentHash(w.content)))
    && (w.Storing? ==> w.result == FullLint(env, path, w.content) && env.cacheOn)
  }

  /** What is true of a path on any machine, however often it is disturbed. */
  ghost predicate Base(env: Env, s: State, path: string) {
    && FileOk(env, path, FileAt(s.files, path))
    && Paired(env, s.entries, path) && Paired(env, LoadIndex(s.index), path)
    && (path in s.workers ==> WorkerPaired(env, path, s.entries, s.workers[path])
                              && (InFlight(s.workers[path]) ==> s.running))
  }

  lemma PairedDetermines(env: Env, entries: Entries, path: string, content: Bytes)
    requires GoodEnv(env) && Paired(env, entries, path)
    requires ContentMatches(entries, env.pathHash(path), env.contentHash(content))
    ensures EntryOf(env, entries[env.pathHash(path)], path, content)
    ensures Unpack(entries[env.pathHash(path)].diagnostics, path) == FullLint(env, path, content)
  {
    var c :| EntryOf(env, entries[env.pathHash(path)], path, c);
    assert c == content;
    PackRoundTrip(FullLint(env, path, content), path);
  }

  /** The content tier needs no stability: a matched worker returns the lint of the
      content it read, whatever the file is by then. */
  lemma MatchedReturnsLint(env: Env, path: string, file: Option<File>, entries: Entries, w: Worker)
    requires GoodEnv(env) && Paired(env, entries, path) && w.Matched? && WorkerPaired(env, path, entries, w)
    ensures var e := RefreshEntry(env, path, file, entries, w.seen, w.content);
            && e.worker == Returned(w.seen, FullLint(env, path, w.content))
            && e.wrote && env.pathHash(path) in e.entries
            && e.entries[env.pathHash(path)].stamp == StampOf(MetaOf(file), |w.content|)
            && EntryOf(env, e.entries[env.pathHash(path)], path, w.content)
  {
    PairedDetermines(env, entries, path, w.content);
  }

  lemma StoringReturnsLint(env: Env, path: string, file: Option<File>, entries: Entries, w: Worker)
    requires w.Storing? && WorkerPaired(env, path, entries, w)
    ensures var e := StoreEntry(env, path, file, entries, w.seen, w.content, w.result);
            && e.worker == Returned(w.seen, FullLint(env, path, w.content))
            && e.wrote && env.pathHash(path) in e.entries
            && e.entries[env.pathHash(path)].stamp == StampOf(MetaOf(file), |w.content|)
            && EntryOf(env, e.entries[env.pathHash(path)], path, w.content)
  {
  }

  lemma AdvanceKeepsPaired(env: Env, path: string, file: Option<File>, entries: Entries, found: bool, w: Worker)
    requires GoodEnv(env) && Paired(env, entries, path) && WorkerPaired(env, path, entries, w)
    ensures var e := Advance(env, path, file, entries, found, w);
            Paired(env, e.entries, path) && WorkerPaired(env, path, e.entries, e.worker)
  {
    match w
    case Matched(_, _) => MatchedReturnsLint(env, path, file, entries, w);
    case Storing(_, _, _) => StoringReturnsLint(env, path, file, entries, w);
    case _ =>
  }

  lemma EventKeepsBase(env: Env, s: State, e: Event, path: string)
    requires GoodEnv(env) && Base(env, s, path) && Possible(env, s, e)
    ensures Base(env, Happen(env, s, e), path)
  {
    match e
    case Worked(q) =>
      if q == path {
        AdvanceKeepsPaired(env, path, FileAt(s.files, path), s.entries, s.found, s.workers[path]);
      } else {
        AdvanceTouchesOwnEntry(env, q, FileAt(s.files, q), s.entries, s.found, s.workers[q]);
        assert env.pathHash(q) != env.pathHash(path);
      }
    case Ended(_) => assert path in s.workers ==> Done(s.workers[path]);
    case _ =>
  }

  lemma {:induction false} HistoryKeepsBase(env: Env, s: State, events: seq<Event>, t: State, path: string)
    requires GoodEnv(env) && Base(env, s, path) && History(env, s, events, t)
    ensures Base(env, t, path)
    decreases |events|
  {
    if events != [] {
      EventKeepsBase(env, s, events[0], path);
      HistoryKeepsBase(env, Happen(env, s, events[0]), events[1..], t, path);
    }
  }

  /** Past its stat check: not answered by a stamp, or done with the uncached
      result. */
  ghost predicate PastStat(env: Env, path: string, w: Worker) {
    || w.Reading? || InFlight(w)
    || ((w.Returned? || w.Recorded?) && w.result == Uncached(env, path, w.seen))
  }

  lemma EventKeepsPastStat(env: Env, s: State, e: Event, path: string)
    requires GoodEnv(env) && Base(env, s, path) && Possible(env, s, e) && !e.Began? && !e.Killed?
    requires path in s.workers && PastStat(env, path, s.workers[path])
    ensures var t := Happen(env, s, e); path in t.workers && PastStat(env, path, t.workers[path])
  {
    if e == Worked(path) {
      var w := s.workers[path];
      if w.Matched? { MatchedReturnsLint(env, path, FileAt(s.files, path), s.entries, w); }
      if w.Storing? { StoringReturnsLint(env, path, FileAt(s.files, path), s.entries, w); }
    }
  }

  lemma {:induction false} RunKeepsPastStat(env: Env, t: State, late: seq<Event>, u: State, path: string)
    requires GoodEnv(env) && Base(env, t, path) && History(env, t, late, u)
    requires forall i :: 0 <= i < |late| ==> !late[i].Began? && !late[i].Killed?
    requires path in t.workers && PastStat(env, path, t.workers[path])
    ensures path in u.workers && PastStat(env, path, u.workers[path])
    decreases |late|
  {
    if late != [] {
      EventKeepsPastStat(env, t, late[0], path);
      EventKeepsBase(env, t, late[0], path);
      RunKeepsPastStat(env, Happen(env, t, late[0]), late[1..], u, path);
    }
  }

  /** Only stat hits need the file to keep still. After any history whatever, a
      worker that gets past its stat check records the uncached result for the file
      it read, by the content tier or by linting, however the file is edited in the
      same run. */
  lemma ReadingIsTransparent(env: Env, s: State, events: seq<Event>, t: State, late: seq<Event>, u: State, path: string)
    requires GoodEnv(env) && Fresh(env, s) && History(env, s, events, t)
    requires path in t.workers && t.workers[path].Reading?
    requires History(env, t, late, u) && forall i :: 0 <= i < |late| ==> !late[i].Began? && !late[i].Killed?
    requires path in u.workers && u.workers[path].Recorded?
    ensures u.workers[path].result == Uncached(env, path, u.workers[path].seen)
  {
    HistoryKeepsBase(env, s, events, t, path);
    RunKeepsPastStat(env, t, late, u, path);
  }

  /** The invariant with the index as it will be: the run is going to write it, or
      it is right already. */
  ghost predicate Repaired(env: Env, s: State, path: string) {
    Inv(env, s.(index := None), path) && ((s.running && s.dirty) || Sound(env, LoadIndex(s.index), path))
  }

  /** The write of a worker whose file is as it read it makes the path right again,
      whatever was in the map before. */
  lemma WriteRepairs(env: Env, s: State, events: seq<Event>, t: State, path: string)
    requires GoodEnv(env) && Fresh(env, s) && History(env, s, events, t)
    requires path in t.workers && (t.workers[path].Matched? || t.workers[path].Storing?)
    requires t.workers[path].seen == FileAt(t.files, path)
    ensures Repaired(env, Work(env, t, path), path)
  {
    HistoryKeepsBase(env, s, events, t, path);
    var w, file := t.workers[path], FileAt(t.files, path);
    if w.Matched? {
      MatchedReturnsLint(env, path, file, t.entries, w);
    } else {
      StoringReturnsLint(env, path, file, t.entries, w);
    }
    var v := Work(env, t, path);
    assert EntryFor(env, v.entries[env.pathHash(path)], path, w.content);
  }

  /** No event loses what the run has put right before it is in the index. */
  predicate KeepsMap(e: Event) {
    e != Killed && e != Ended(false)
  }

  lemma EventKeepsRepaired(env: Env, s: State, e: Event, path: string)
    requires GoodEnv(env) && env.cacheOn && Repaired(env, s, path) && Possible(env, s, e) && KeepsMap(e)
    requires e.Edited? && e.path == path && path in s.workers ==> !InFlight(s.workers[path])
    ensures Repaired(env, Happen(env, s, e), path)
  {
    if Sound(env, LoadIndex(s.index), path) {
      assert Inv(env, s, path);
      EventKeepsInv(env, s, e, path);
    } else {
      EventKeepsInv(env, s.(index := None), e, path);
    }
  }

  lemma {:induction false} HistoryKeepsRepaired(env: Env, t: State, late: seq<Event>, u: State, path: string)
    requires GoodEnv(env) && env.cacheOn && Repaired(env, t, path) && History(env, t, late, u)
    requires Undisturbed(env, t, late, path) && forall i :: 0 <= i < |late| ==> KeepsMap(late[i])
    ensures Repaired(env, u, path)
    decreases |late|
  {
    if late != [] {
      EventKeepsRepaired(env, t, late[0], path);
      HistoryKeepsRepaired(env, Happen(env, t, late[0]), late[1..], u, path);
    }
  }

  /** So a disturbance does not last: after any history, from the first write by a
      worker whose file is as it read it, the file's results are the uncached ones
      again, as long as it is not disturbed anew and runs end in a flush. */
  lemma TransparentAfterRepair(env: Env, s: State, events: seq<Event>, t: State, late: seq<Event>, u: State, path: string)
    requires GoodEnv(env) && env.cacheOn && Fresh(env, s) && History(env, s, events, t)
    requires path in t.workers && (t.workers[path].Matched? || t.workers[path].Storing?)
    requires t.workers[path].seen == FileAt(t.files, path)
    requires var v := Work(env, t, path);
             History(env, v, late, u) && Undisturbed(env, v, late, path)
    requires forall i :: 0 <= i < |late| ==> KeepsMap(late[i])
    requires path in u.workers && u.workers[path].Recorded?
    ensures var w := u.workers[path];
            (w.seen.Some? ==> w.seen.value.readable) ==> w.result == Uncached(env, path, w.seen)
  {
    WriteRepairs(env, s, events, t, path);
    HistoryKeepsRepaired(env, Work(env, t, path), late, u, path);
  }

  // ------------------------------------------------------------- whole runs

  /** The diagnostics of a finished run, in the order of the file list. */
  function Collected(s: State, order: seq<string>): seq<Diagnostic> {
    if order == [] then []
    else
      (if order[0] in s.workers && s.workers[order[0]].Recorded? then s.workers[order[0]].result else [])
      + Collected(s, order[1..])
  }

  function CollectedUncached(env: Env, files: map<string, File>, order: seq<string>): seq<Diagnostic> {
    if order == [] then []
    else Uncached(env, order[0], FileAt(files, order[0])) + CollectedUncached(env, files, order[1..])
  }

  /** A run over the files of `order` is finished, and each is as it was when its
      worker saw it; with the cache on, those statted were readable. */
  ghost predicate Finished(env: Env, t: State, order: seq<string>) {
    && (forall p :: p in order <==> p in t.workers)
    && (forall p :: p in t.workers ==> Done(t.workers[p]))
    && (forall p :: p in t.workers && t.workers[p].Recorded? ==>
          t.workers[p].seen == FileAt(t.files, p) && (env.cacheOn && p in t.files ==> t.files[p].readable))
  }

  ghost predicate Lives(env: Env, s: State, events: seq<Event>, t: State, order: seq<string>) {
    && GoodEnv(env) && Fresh(env, s) && History(env, s, events, t)
    && forall p :: p in order ==> Life(env, s, events, t, p)
  }

  lemma RecordedIsUncached(env: Env, s: State, events: seq<Event>, t: State, order: seq<string>)
    requires Lives(env, s, events, t, order) && Finished(env, t, order)
    ensures forall p :: p in t.workers && t.workers[p].Recorded? ==>
                          t.workers[p].result == Uncached(env, p, FileAt(t.files, p))
  {
    forall p | p in t.workers && t.workers[p].Recorded?
      ensures t.workers[p].result == Uncached(env, p, FileAt(t.files, p))
    {
      assert p in order;
      CacheIsTransparent(env, s, events, t, p);
    }
  }

  lemma {:induction false} CollectedIsUncached(env: Env, t: State, order: seq<string>)
    requires forall p :: p in order ==> p in t.workers && t.workers[p].Recorded?
                                        && t.workers[p].result == Uncached(env, p, FileAt(t.files, p))
    ensures Collected(t, order) == CollectedUncached(env, t.files, order)
  {
    if order != [] {
      assert order[0] in order;
      assert forall q :: q in order[1..] ==> q in order;
      CollectedIsUncached(env, t, order[1..]);
    }
  }

  /** Without --fail-fast a run collects what a run without the cache collects,
      file for file and in order. */
  lemma RunOutputIsUncached(env: Env, s: State, events: seq<Event>, t: State, order: seq<string>)
    requires Lives(env, s, events, t, order) && Finished(env, t, order) && !env.failFast
    ensures Collected(t, order) == CollectedUncached(env, t.files, order)
  {
    HistoryKeepsFlag(env, s, events, t);
    RecordedIsUncached(env, s, events, t, order);
    CollectedIsUncached(env, t, order);
  }

  lemma {:induction false} CollectedEmpty(t: State, order: seq<string>)
    ensures Collected(t, order) == [] <==>
            forall p :: p in order && p in t.workers && t.workers[p].Recorded? ==> t.workers[p].result == []
  {
    if order != [] {
      CollectedEmpty(t, order[1..]);
      assert forall p :: p in order <==> p == order[0] || p in order[1..];
    }
  }

  /** --fail-fast stops: in any reachable state an offense recorded has raised the
      flag, and a file whose worker had not started by then contributes nothing to
      what the run collects, however it goes on. */
  lemma FailFastStops(env: Env, s: State, events: seq<Event>, t: State, late: seq<Event>, u: State, path: string)
    requires env.failFast && Fresh(env, s) && History(env, s, events, t)
    requires path in t.workers && t.workers[path].Idle?
    requires exists p :: p in t.workers && t.workers[p].Recorded? && t.workers[p].result != []
    requires History(env, t, late, u) && forall i :: 0 <= i < |late| ==> !late[i].Began? && !late[i].Killed?
    ensures t.found && path in u.workers && (u.workers[path].Idle? || u.workers[path].Skipped?)
    ensures Collected(u, [path]) == []
  {
    HistoryKeepsRaised(env, s, events, t);
    RunKeepsBarred(env, t, late, u, path);
    assert [path][1..] == [];
  }

  lemma {:induction false} UncachedEmpty(env: Env, files: map<string, File>, order: seq<string>)
    requires CollectedUncached(env, files, order) == []
    ensures forall p :: p in order ==> Uncached(env, p, FileAt(files, p)) == []
  {
    if order != [] {
      UncachedEmpty(env, files, order[1..]);
      assert forall p :: p in order <==> p == order[0] || p in order[1..];
    }
  }

  /** With --fail-fast, under every schedule: what is collected are uncached
      results of some of the files, and a run comes out clean exactly when the
      full uncached run does. */
  lemma FailFastAgreesOnClean(env: Env, s: State, events: seq<Event>, t: State, order: seq<string>)
    requires Lives(env, s, events, t, order) && Finished(env, t, order)
    ensures forall p :: p in t.workers && t.workers[p].Recorded? ==>
                          t.workers[p].result == Uncached(env, p, FileAt(t.files, p))
    ensures Collected(t, order) == [] <==> CollectedUncached(env, t.files, order) == []
  {
    HistoryKeepsFlag(env, s, events, t);
    RecordedIsUncached(env, s, events, t, order);
    CollectedEmpty(t, order);
    if Collected(t, order) == [] {
      assert !t.found;
      CollectedIsUncached(env, t, order);
    }
    if CollectedUncached(env, t.files, order) == [] {
      UncachedEmpty(env, t.files, order);
    }
  }
}
