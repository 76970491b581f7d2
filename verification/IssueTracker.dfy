/** What syncs do to the tracker (scripts/dispatch_cops.py, `cmd_issues_sync`): where
    a flawless one converges to, and what the next one repairs of one in which
    commands failed. */
module IssueTracker {
  import opened Basics
  import opened IssueSync

  // ---------------------------------------------------------- nothing failed

  ghost predicate Flawless(w: World) {
    && (forall c :: w.creates(c) && w.closes(c))
    && forall c :: w.tries(c)[0] == Attempt(true, true, true, true, true)
  }

  /** Exactly one state label, the given one. */
  ghost predicate OnlyState(issue: Issue, s: IssueState) {
    forall t :: State(t) in issue.tags <==> t == s
  }

  lemma FlawlessAct(d: Corpus, issues: map<string, Issue>, w: World, c: string)
    requires Flawless(w)
    ensures Act(d, issues, w, c).0 == Some(SyncOne(d, c, IssueAt(issues, c)))
    ensures Act(d, issues, w, c).1 ==
            if c !in issues then Created else if issues[c].open then Updated else Reopened
  {
    var aim := AimFor(d, c, IssueAt(issues, c));
    if c in issues {
      var tags := issues[c].tags;
      assert Unmanaged(tags) + aim.tags == aim.tags + Unmanaged(tags);
    }
    assert aim.tags + {} == aim.tags;
  }

  lemma FlawlessIsSynced(d: Corpus, issues: map<string, Issue>, w: World, sch: Schedule)
    requires Flawless(w) && Queues(sch, Closings(d, issues))
    ensures BestEffort(d, issues, w, sch) == Synced(d, issues)
  {
    ClosedOnlyWhatCloses(d, issues, w, sch);
    forall c
      ensures Act(d, issues, w, c).0 == Some(SyncOne(d, c, IssueAt(issues, c)))
    {
      FlawlessAct(d, issues, w, c);
    }
    assert BestEffort(d, issues, w, sch).Keys == Synced(d, issues).Keys;
  }

  /** What an issue carries once it is up to date: one state label, which is
      pr-open exactly when there is an open PR and blocked exactly when a block is
      kept; one difficulty label; its department; and the new counts. */
  ghost predicate UpToDate(d: Corpus, cop: string, existing: Option<Issue>, now: Issue) {
    var counts := if cop in d.entries then (d.entries[cop].fp, d.entries[cop].fn) else (0, 0);
    var wasBlocked := existing.Some? && State(Blocked) in existing.value.tags;
    var kept := cop !in d.openPrs && wasBlocked && existing.value.marker == Some(counts);
    && now.open && Tracker in now.tags && now.marker == Some(counts)
    && (State(PrOpen) in now.tags <==> cop in d.openPrs)
    && (State(Blocked) in now.tags <==> kept)
    && (State(Backlog) in now.tags <==> cop !in d.openPrs && !kept)
    && (forall l :: Level(l) in now.tags <==> l == d.level(cop))
    && Dept(d.dept(cop)) in now.tags
    && (forall t :: existing.Some? && t in existing.value.tags && !t.State? && !t.Level? ==> t in now.tags)
    && (forall t :: t in now.tags && (t.Foreign? || (t.Dept? && t.name != d.dept(cop))) ==>
          existing.Some? && t in existing.value.tags)
  }

  lemma SyncOneIsUpToDate(d: Corpus, cop: string, existing: Option<Issue>)
    ensures UpToDate(d, cop, existing, SyncOne(d, cop, existing))
  {
  }

  /** From any tracker at all, one flawless sync leaves each diverging cop in
      scope with an open, up-to-date issue; every other open issue in scope has an
      open PR; every other closed issue, and everything out of scope, is as it
      was. */
  lemma SyncConverges(d: Corpus, issues: map<string, Issue>, w: World, sch: Schedule)
    requires Flawless(w) && Queues(sch, Closings(d, issues))
    ensures var after := BestEffort(d, issues, w, sch);
            && (forall c :: c in Targets(d) ==> c in after && UpToDate(d, c, IssueAt(issues, c), after[c]))
            && (forall c :: c in after && d.inScope(c) && after[c].open && c !in Targets(d) ==> c in d.openPrs)
            && (forall c :: !d.inScope(c) || (c in issues && !issues[c].open && c !in Targets(d)) ==>
                  IssueAt(after, c) == IssueAt(issues, c))
  {
    FlawlessIsSynced(d, issues, w, sch);
    forall c | c in Targets(d)
      ensures UpToDate(d, c, IssueAt(issues, c), Synced(d, issues)[c])
    {
      SyncOneIsUpToDate(d, c, IssueAt(issues, c));
    }
  }

  /** Which cops a sync covers, in terms of the corpus alone: after a flawless sync a
      cop in scope has an open, up-to-date issue if it has divergences on the corpus,
      or in some style variant, or in the synthetic benchmark with nothing on the
      corpus at all; an open issue of any other cop in scope is closed unless a PR is
      open, and then left as it is. */
  lemma SyncCovers(d: Corpus, issues: map<string, Issue>, w: World, sch: Schedule, c: string)
    requires Flawless(w) && Queues(sch, Closings(d, issues)) && d.inScope(c)
    ensures var after := BestEffort(d, issues, w, sch);
            if (c in d.entries && d.entries[c].total > 0) || c in d.variants
               || (c in d.synthetic && (d.synthetic[c].0 > 0 || d.synthetic[c].1 > 0)
                   && (c !in d.entries || (d.entries[c].total == 0 && d.entries[c].matches == 0)))
            then c in after && UpToDate(d, c, IssueAt(issues, c), after[c])
            else if c in issues && issues[c].open && c !in d.openPrs
            then IssueAt(after, c) == Some(issues[c].(open := false))
            else IssueAt(after, c) == IssueAt(issues, c)
  {
    FlawlessIsSynced(d, issues, w, sch);
    SyncOneIsUpToDate(d, c, IssueAt(issues, c));
  }

  lemma SyncOneTwice(d: Corpus, cop: string, existing: Option<Issue>)
    ensures var once := SyncOne(d, cop, existing);
            SyncOne(d, cop, Some(once)) == once
  {
    var once := SyncOne(d, cop, existing);
    var s := Choose(existing, cop in d.openPrs, EntryOf(d, cop));
    assert State(Blocked) in once.tags <==> s == Blocked;
    assert Choose(Some(once), cop in d.openPrs, EntryOf(d, cop)) == s;
    assert SyncOne(d, cop, Some(once)).tags == once.tags;
  }

  lemma SyncedTwice(d: Corpus, issues: map<string, Issue>)
    ensures Synced(d, Synced(d, issues)) == Synced(d, issues)
    ensures Closings(d, Synced(d, issues)) == {}
  {
    var after := Synced(d, issues);
    forall c | c in Targets(d)
      ensures SyncOne(d, c, Some(after[c])) == after[c]
    {
      SyncOneTwice(d, c, IssueAt(issues, c));
    }
    assert Synced(d, after).Keys == after.Keys;
  }

  /** A second flawless sync on the same data creates, reopens and closes nothing
      and changes no label. */
  lemma SyncIsIdempotent(d: Corpus, issues: map<string, Issue>, v: World, first: Schedule, w: World, second: Schedule)
    requires Flawless(v) && Flawless(w) && Queues(first, Closings(d, issues))
    ensures var after := BestEffort(d, issues, v, first);
            && Closings(d, after) == {}
            && (Queues(second, {}) ==> BestEffort(d, after, w, second) == after)
            && (forall c :: c in Targets(d) ==> Act(d, after, w, c).1 == Updated)
  {
    var after := BestEffort(d, issues, v, first);
    FlawlessIsSynced(d, issues, v, first);
    SyncedTwice(d, issues);
    if Queues(second, {}) { FlawlessIsSynced(d, after, w, second); }
    forall c | c in Targets(d)
      ensures Act(d, after, w, c).1 == Updated
    {
      FlawlessAct(d, after, w, c);
    }
  }

  // --------------------------------------------------------- something failed

  predicate Edits(reopen: bool, a: Attempt) {
    (reopen ==> a.reopens && a.comments) && a.edits
  }

  /** Some attempt that was made rewrote the body. */
  predicate EverEdited(reopen: bool, tries: seq<Attempt>) {
    tries != [] && (Edits(reopen, tries[0]) || EverEdited(reopen, tries[1..]))
  }

  /** Some attempt that was made took the old labels off. */
  predicate EverRemoved(reopen: bool, tries: seq<Attempt>) {
    && tries != []
    && ((Edits(reopen, tries[0]) && tries[0].removes)
        || (!(Edits(reopen, tries[0]) && tries[0].adds) && EverRemoved(reopen, tries[1..])))
  }

  /** Some attempt came through. */
  predicate EverAdded(reopen: bool, tries: seq<Attempt>) {
    tries != [] && ((Edits(reopen, tries[0]) && tries[0].adds) || EverAdded(reopen, tries[1..]))
  }

  /** Some attempt that was made reopened the issue. */
  predicate EverReopened(reopen: bool, tries: seq<Attempt>) {
    reopen && tries != [] && (tries[0].reopens || EverReopened(reopen, tries[1..]))
  }

  /** What any pattern of failures leaves of an issue. */
  lemma {:induction false} RetryEffect(reopen: bool, aim: Aim, was: Issue, tries: seq<Attempt>)
    ensures var (after, ok) := Retry(reopen, aim, was, tries);
            && ok == EverAdded(reopen, tries)
            && after.open == (was.open || EverReopened(reopen, tries))
            && after.marker == (if EverEdited(reopen, tries) then Some(aim.marker) else was.marker)
            && (forall t :: t in after.tags <==>
                  (t in was.tags && !(IsManaged(t) && EverRemoved(reopen, tries)))
                  || (t in aim.tags && EverAdded(reopen, tries)))
    decreases |tries|
  {
    if tries != [] {
      var (next, ok) := Try(reopen, aim, was, tries[0]);
      RetryEffect(reopen, aim, next, tries[1..]);
    }
  }

  /** An action reported as done leaves exactly one state label if and only if the
      unchecked removal took effect or there was no other state label. */
  lemma LabelsOfDoneAction(d: Corpus, cop: string, was: Issue, reopen: bool, tries: Tries)
    requires EverAdded(reopen, tries)
    ensures var s := Choose(Some(was), cop in d.openPrs, EntryOf(d, cop));
            OnlyState(Retry(reopen, AimFor(d, cop, Some(was)), was, tries).0, s) <==>
            EverRemoved(reopen, tries) || forall t :: State(t) in was.tags ==> t == s
  {
    RetryEffect(reopen, AimFor(d, cop, Some(was)), was, tries);
  }

  /** The body already shows the new counts but the blocked label was never taken
      off: the next sync sees nothing new and blocks again. */
  predicate LosesUnblocking(was: Issue, e: Entry, reopen: bool, tries: seq<Attempt>) {
    was.marker != Some((e.fp, e.fn)) && EverEdited(reopen, tries) && !EverRemoved(reopen, tries)
  }

  /** The blocked label was taken off and not put back. */
  predicate LosesBlock(was: Issue, e: Entry, reopen: bool, tries: seq<Attempt>) {
    was.marker == Some((e.fp, e.fn)) && EverRemoved(reopen, tries) && !EverAdded(reopen, tries)
  }

  predicate Lost(d: Corpus, cop: string, was: Issue, tries: seq<Attempt>) {
    && State(Blocked) in was.tags && cop !in d.openPrs
    && (LosesUnblocking(was, EntryOf(d, cop), !was.open, tries) || LosesBlock(was, EntryOf(d, cop), !was.open, tries))
  }

  lemma RepairsOne(d: Corpus, cop: string, was: Issue, tries: seq<Attempt>)
    ensures var after := Retry(!was.open, AimFor(d, cop, Some(was)), was, tries).0;
            SyncOne(d, cop, Some(after)) == SyncOne(d, cop, Some(was)) <==> !Lost(d, cop, was, tries)
  {
    var aim := AimFor(d, cop, Some(was));
    RetryEffect(!was.open, aim, was, tries);
    var after := Retry(!was.open, aim, was, tries).0;
    var s, t := Choose(Some(was), cop in d.openPrs, EntryOf(d, cop)), Choose(Some(after), cop in d.openPrs, EntryOf(d, cop));
    var x, y := SyncOne(d, cop, Some(was)), SyncOne(d, cop, Some(after));
    assert State(s) in x.tags && (State(t) in x.tags <==> t == s) && State(t) in y.tags;
    assert s == t <==> !Lost(d, cop, was, tries);
    if s == t {
      assert x.tags == y.tags;
    }
  }

  lemma RepairsTarget(d: Corpus, issues: map<string, Issue>, w: World, sch: Schedule, c: string)
    requires c in Targets(d)
    ensures SyncOne(d, c, IssueAt(BestEffort(d, issues, w, sch), c)) == SyncOne(d, c, IssueAt(issues, c))
            <==> !(c in issues && Lost(d, c, issues[c], w.tries(c)))
  {
    if c in issues {
      RepairsOne(d, c, issues[c], w.tries(c));
    } else if w.creates(c) {
      assert Act(d, issues, w, c).0.value.tags == SyncOne(d, c, None).tags;
      SyncOneTwice(d, c, None);
    }
  }

  lemma RepairsOther(d: Corpus, issues: map<string, Issue>, w: World, sch: Schedule, c: string)
    requires Queues(sch, Closings(d, issues)) && c !in Targets(d)
    ensures var between := BestEffort(d, issues, w, sch);
            IssueAt(Synced(d, between), c) == IssueAt(Synced(d, issues), c)
  {
    ClosedOnlyWhatCloses(d, issues, w, sch);
  }

  /** Whatever fails in a sync, and whichever closings it gets to, one flawless
      sync on the same data afterwards leaves the tracker as if nothing had failed:
      exactly when no blocked issue without a PR lost track, either of being
      unblocked or of being blocked. */
  lemma NextSyncRepairs(d: Corpus, issues: map<string, Issue>, w: World, sch: Schedule)
    requires Queues(sch, Closings(d, issues))
    ensures Synced(d, BestEffort(d, issues, w, sch)) == Synced(d, issues) <==>
            forall c :: c in Targets(d) && c in issues ==> !Lost(d, c, issues[c], w.tries(c))
  {
    var x, y := Synced(d, BestEffort(d, issues, w, sch)), Synced(d, issues);
    forall c
      ensures IssueAt(x, c) == IssueAt(y, c) <==> !(c in Targets(d) && c in issues && Lost(d, c, issues[c], w.tries(c)))
    {
      if c in Targets(d) {
        RepairsTarget(d, issues, w, sch, c);
      } else {
        RepairsOther(d, issues, w, sch, c);
      }
    }
    SameIssues(x, y);
  }

  lemma SameIssues(x: map<string, Issue>, y: map<string, Issue>)
    ensures x == y <==> forall c :: IssueAt(x, c) == IssueAt(y, c)
  {
    if forall c :: IssueAt(x, c) == IssueAt(y, c) {
      assert forall c :: (c in x <==> c in y) && (c in x ==> x[c] == y[c]) by {
        forall c
          ensures (c in x <==> c in y) && (c in x ==> x[c] == y[c])
        {
          assert IssueAt(x, c) == IssueAt(y, c);
        }
      }
    }
  }

  // ---------------------------------------------------------------- examples

  /** One cop that diverges with one fp, and no PR. */
  function OneCop(cop: string, e: Entry): Corpus {
    Corpus(map[cop := e], {}, map[], {}, c => Simple, c => "A", c => true)
  }

  const SMOOTH: Tries := [Attempt(true, true, true, true, true), Attempt(true, true, true, true, true), Attempt(true, true, true, true, true)]
  const NOT_REMOVED: Tries := [Attempt(true, true, true, false, true), Attempt(true, true, true, true, true), Attempt(true, true, true, true, true)]

  lemma NotRemovedEffect()
    ensures EverEdited(false, NOT_REMOVED) && EverAdded(false, NOT_REMOVED) && !EverRemoved(false, NOT_REMOVED)
  {
  }

  /** A failing removal goes unnoticed: the action is reported as an update, and the
      next flawless sync blocks the issue that it should have unblocked. */
  lemma FailedRemovalBlocksAgain(d: Corpus, issues: map<string, Issue>, w: World, sch: Schedule, cop: string)
    requires Queues(sch, Closings(d, issues))
    requires cop in Targets(d) && cop in issues && cop !in d.openPrs && w.tries(cop) == NOT_REMOVED
    requires issues[cop].open && State(Blocked) in issues[cop].tags
    requires issues[cop].marker != Some((EntryOf(d, cop).fp, EntryOf(d, cop).fn))
    ensures var after := BestEffort(d, issues, w, sch);
            && Act(d, issues, w, cop).1 == Updated
            && State(Blocked) in Synced(d, after)[cop].tags
            && State(Blocked) !in Synced(d, issues)[cop].tags
            && Synced(d, after) != Synced(d, issues)
  {
    var was := issues[cop];
    NotRemovedEffect();
    RetryEffect(false, AimFor(d, cop, Some(was)), was, NOT_REMOVED);
    var between := BestEffort(d, issues, w, sch);
    assert IssueAt(between, cop) == Some(Retry(false, AimFor(d, cop, Some(was)), was, NOT_REMOVED).0);
    SyncOneIsUpToDate(d, cop, IssueAt(between, cop));
    SyncOneIsUpToDate(d, cop, Some(was));
    assert Synced(d, between)[cop] != Synced(d, issues)[cop];
  }

  const NOT_ADDED: Tries := [Attempt(true, true, true, true, false), Attempt(true, true, true, true, false), Attempt(true, true, true, true, false)]

  lemma NotAddedEffect()
    ensures !EverAdded(false, NOT_ADDED) && EverRemoved(false, NOT_ADDED)
  {
  }

  /** An issue blocked at the same counts, and additions that fail three times after
      the labels came off: reported as failed, and the next flawless sync leaves out
      the block it should have kept. */
  lemma FailedAdditionUnblocks(d: Corpus, issues: map<string, Issue>, w: World, sch: Schedule, cop: string)
    requires Queues(sch, Closings(d, issues))
    requires cop in Targets(d) && cop in issues && cop !in d.openPrs && w.tries(cop) == NOT_ADDED
    requires issues[cop].open && State(Blocked) in issues[cop].tags
    requires issues[cop].marker == Some((EntryOf(d, cop).fp, EntryOf(d, cop).fn))
    ensures var after := BestEffort(d, issues, w, sch);
            && Act(d, issues, w, cop).1 == Failed
            && State(Blocked) !in Synced(d, after)[cop].tags
            && State(Blocked) in Synced(d, issues)[cop].tags
            && Synced(d, after) != Synced(d, issues)
  {
    var was := issues[cop];
    NotAddedEffect();
    RetryEffect(false, AimFor(d, cop, Some(was)), was, NOT_ADDED);
    var between := BestEffort(d, issues, w, sch);
    assert IssueAt(between, cop) == Some(Retry(false, AimFor(d, cop, Some(was)), was, NOT_ADDED).0);
    SyncOneIsUpToDate(d, cop, IssueAt(between, cop));
    SyncOneIsUpToDate(d, cop, Some(was));
    assert Synced(d, between)[cop] != Synced(d, issues)[cop];
  }

  /** One issue, blocked at other counts. */
  lemma FailedRemovalExample(d: Corpus, issues: map<string, Issue>, w: World)
    requires d == OneCop("A/B", Entry(1, 0, 0, 1))
    requires issues == map["A/B" := Issue(true, {Tracker, State(Blocked)}, Some((2, 0)))]
    requires w == World(c => NOT_REMOVED, c => true, c => true)
    ensures Queues(Schedule([], 0), Closings(d, issues))
    ensures Synced(d, BestEffort(d, issues, w, Schedule([], 0))) != Synced(d, issues)
  {
    assert "A/B" in Targets(d);
    assert Closings(d, issues) == {};
    FailedRemovalBlocksAgain(d, issues, w, Schedule([], 0), "A/B");
  }

  lemma SecondInQueue(closes: string -> bool, bad: string, good: string)
    requires !closes(bad) && closes(good) && bad != good
    ensures ClosedBy(Schedule([bad, good], 1), closes) == {}
    ensures ClosedBy(Schedule([bad, good], 2), closes) == {good}
  {
    var order := [bad, good];
    StartedAt(order, closes, 1, 1);
    StartedAt(order, closes, 2, 1);
    assert order[1] in ClosedBy(Schedule(order, 2), closes);
  }

  /** Two resolved issues, of which the first fails to close: the sync ends in an
      error, and whether the second is closed is up to the schedule. */
  lemma FailedCloseExample(d: Corpus, issues: map<string, Issue>, w: World)
    requires d == OneCop("A/B", Entry(1, 0, 0, 1))
    requires issues == map["A/C" := Issue(true, {Tracker}, None), "A/D" := Issue(true, {Tracker}, None)]
    requires w == World(c => SMOOTH, c => true, c => c != "A/C")
    ensures var early, late := Schedule(["A/C", "A/D"], 1), Schedule(["A/C", "A/D"], 2);
            && Queues(early, Closings(d, issues)) && Queues(late, Closings(d, issues))
            && !AllClose(d, issues, w)
            && "A/D" in BestEffort(d, issues, w, early) && BestEffort(d, issues, w, early)["A/D"].open
            && "A/D" in BestEffort(d, issues, w, late) && !BestEffort(d, issues, w, late)["A/D"].open
  {
    assert Targets(d) == {"A/B"};
    TwoResolved(d, issues);
    SecondInQueue(w.closes, "A/C", "A/D");
    StillOpen(d, issues, w, Schedule(["A/C", "A/D"], 1), "A/D");
    StillOpen(d, issues, w, Schedule(["A/C", "A/D"], 2), "A/D");
  }

  lemma TwoResolved(d: Corpus, issues: map<string, Issue>)
    requires d == OneCop("A/B", Entry(1, 0, 0, 1)) && Targets(d) == {"A/B"}
    requires issues == map["A/C" := Issue(true, {Tracker}, None), "A/D" := Issue(true, {Tracker}, None)]
    ensures Closings(d, issues) == {"A/C", "A/D"} && "A/C" != "A/D"
  {
    assert "A/C"[2] == 'C' && "A/D"[2] == 'D' && "A/B"[2] == 'B';
    forall c
      ensures c in Closings(d, issues) <==> c == "A/C" || c == "A/D"
    {
      assert c in issues <==> c == "A/C" || c == "A/D";
    }
  }

  /** Everything in scope, no PR, and the three ways of diverging. */
  function Covering(entries: map<string, Entry>, variants: set<string>, synthetic: map<string, (nat, nat)>): Corpus {
    Corpus(entries, variants, synthetic, {}, c => Simple, c => "A", c => true)
  }

  ghost predicate OpenAfter(d: Corpus, issues: map<string, Issue>, w: World, c: string) {
    c in BestEffort(d, issues, w, Schedule([], 0)) && BestEffort(d, issues, w, Schedule([], 0))[c].open
  }

  lemma CoveredIsOpen(d: Corpus, issues: map<string, Issue>, w: World, c: string)
    requires Flawless(w) && d.inScope(c) && Closings(d, issues) == {}
    requires (c in d.entries && d.entries[c].total > 0) || c in d.variants
             || (c in d.synthetic && (d.synthetic[c].0 > 0 || d.synthetic[c].1 > 0)
                 && (c !in d.entries || (d.entries[c].total == 0 && d.entries[c].matches == 0)))
    ensures OpenAfter(d, issues, w, c)
  {
    SyncCovers(d, issues, w, Schedule([], 0), c);
  }

  /** A cop that diverges on the corpus gets an issue. */
  lemma EntryExample(d: Corpus, w: World)
    requires Flawless(w) && d == Covering(map["A/B" := Entry(1, 0, 5, 1)], {}, map[])
    ensures OpenAfter(d, map[], w, "A/B")
  {
    CoveredIsOpen(d, map[], w, "A/B");
  }

  /** So does one that diverges only in a style variant, and an issue it has stays
      open. */
  lemma VariantExample(d: Corpus, issues: map<string, Issue>, w: World, tags: set<Tag>)
    requires Flawless(w) && d == Covering(map[], {"A/V"}, map[])
    requires |issues| == 0 || issues == map["A/V" := Issue(true, tags, None)]
    ensures OpenAfter(d, issues, w, "A/V")
  {
    assert "A/V" in Targets(d);
    assert Closings(d, issues) == {};
    CoveredIsOpen(d, issues, w, "A/V");
  }

  /** And one that diverges only in the synthetic benchmark. */
  lemma SyntheticExample(d: Corpus, w: World)
    requires Flawless(w)
    requires d == Covering(map[], {}, map["A/S" := (0, 1)])
             || d == Covering(map["A/S" := Entry(0, 0, 0, 0)], {}, map["A/S" := (1, 0)])
    ensures OpenAfter(d, map[], w, "A/S")
  {
    CoveredIsOpen(d, map[], w, "A/S");
  }

  /** A cop whose synthetic divergence comes with matches on the corpus is not
      covered: its open issue is closed. */
  lemma MatchedSyntheticExample(d: Corpus, issues: map<string, Issue>, w: World, sch: Schedule, tags: set<Tag>)
    requires Flawless(w) && d == Covering(map["A/B" := Entry(0, 0, 3, 0)], {}, map["A/B" := (1, 0)])
    requires issues == map["A/B" := Issue(true, tags, None)] && Queues(sch, Closings(d, issues))
    ensures IssueAt(BestEffort(d, issues, w, sch), "A/B") == Some(Issue(false, tags, None))
  {
    SyncCovers(d, issues, w, sch, "A/B");
  }
}
