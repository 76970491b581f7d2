/** Synchronising tracker issues with corpus results (scripts/dispatch_cops.py,
    `cmd_issues_sync`): which issues a sync creates, reopens, updates and closes,
    what state labels they end with, and what is left behind when commands
    fail. */
module IssueSync {
  import opened Basics

  datatype IssueState = Backlog | PrOpen | Blocked

  datatype Difficulty = Simple | Medium | Complex | ConfigOnly | SynthOnly

  datatype Tag = Tracker | State(s: IssueState) | Level(d: Difficulty) | Dept(name: string) | Foreign(name: string)

  /** An issue; `marker` is the fp and fn recorded in its body, if readable. */
  datatype Issue = Issue(open: bool, tags: set<Tag>, marker: Option<(nat, nat)>)

  datatype Entry = Entry(fp: nat, fn: nat, matches: nat, total: nat)

  /** One corpus run, the open bot PRs, and the --department filter. */
  datatype Corpus = Corpus(
    entries: map<string, Entry>,
    variants: set<string>,
    synthetic: map<string, (nat, nat)>,
    openPrs: set<string>,
    level: string -> Difficulty,
    dept: string -> string,
    inScope: string -> bool)

  // ------------------------------------------------------- what must be open

  function EntryOf(d: Corpus, cop: string): Entry {
    if cop in d.entries then d.entries[cop] else Entry(0, 0, 0, 0)
  }

  predicate Diverges(d: Corpus, cop: string) {
    (cop in d.entries && d.entries[cop].total > 0) || cop in d.variants
  }

  /** Diverges in the synthetic benchmark and has no corpus data. */
  predicate SyntheticOnly(d: Corpus, cop: string) {
    && !Diverges(d, cop)
    && cop in d.synthetic && (d.synthetic[cop].0 > 0 || d.synthetic[cop].1 > 0)
    && EntryOf(d, cop).total == 0 && EntryOf(d, cop).matches == 0
  }

  function Targets(d: Corpus): set<string> {
    set cop | cop in d.entries.Keys + d.variants + d.synthetic.Keys
              && d.inScope(cop) && (Diverges(d, cop) || SyntheticOnly(d, cop))
  }

  // -------------------------------------------------------------- one issue

  /** `choose_issue_state`. */
  function Choose(existing: Option<Issue>, hasOpenPr: bool, e: Entry): IssueState {
    if hasOpenPr then PrOpen
    else if existing.Some? && State(Blocked) in existing.value.tags then
      if existing.value.marker != Some((e.fp, e.fn)) then Backlog else Blocked
    else Backlog
  }

  /** What a sync means an issue to carry: its labels and its recorded counts. */
  datatype Aim = Aim(tags: set<Tag>, marker: (nat, nat))

  function AimFor(d: Corpus, cop: string, existing: Option<Issue>): Aim {
    var e := EntryOf(d, cop);
    var s := Choose(existing, cop in d.openPrs, e);
    Aim({Tracker, State(s), Level(d.level(cop)), Dept(d.dept(cop))}, (e.fp, e.fn))
  }

  /** The labels a sync takes off before adding its own. */
  predicate IsManaged(t: Tag) {
    t.State? || t.Level?
  }

  function Unmanaged(tags: set<Tag>): set<Tag> {
    set t | t in tags && !IsManaged(t)
  }

  /** What becomes of one diverging cop's issue when nothing fails. */
  function SyncOne(d: Corpus, cop: string, existing: Option<Issue>): Issue {
    var aim := AimFor(d, cop, existing);
    Issue(true, aim.tags + (match existing case Some(was) => Unmanaged(was.tags) case None => {}), Some(aim.marker))
  }

  predicate ToClose(d: Corpus, issues: map<string, Issue>, cop: string) {
    cop in issues && cop !in Targets(d) && d.inScope(cop) && cop !in d.openPrs && issues[cop].open
  }

  function IssueAt(issues: map<string, Issue>, cop: string): Option<Issue> {
    if cop in issues then Some(issues[cop]) else None
  }

  /** The tracker after a sync in which every command succeeds. */
  function Synced(d: Corpus, issues: map<string, Issue>): map<string, Issue> {
    map cop | cop in issues.Keys + Targets(d) ::
      if cop in Targets(d) then SyncOne(d, cop, IssueAt(issues, cop))
      else if ToClose(d, issues, cop) then issues[cop].(open := false)
      else issues[cop]
  }

  // ------------------------------------------------------ commands that fail

  /** Which commands of one attempt would succeed. The exit status of the label
      removal is ignored; every other failure ends the attempt. */
  datatype Attempt = Attempt(reopens: bool, comments: bool, edits: bool, removes: bool, adds: bool)

  /** One attempt at updating an issue, reopening it first if it was closed when
      the sync began. Returns the issue and whether the attempt came through. */
  function Try(reopen: bool, aim: Aim, issue: Issue, a: Attempt): (Issue, bool) {
    if reopen && !a.reopens then (issue, false)
    else
      var awake := if reopen then issue.(open := true) else issue;
      if (reopen && !a.comments) || !a.edits then (awake, false)
      else
        var kept := if a.removes then Unmanaged(awake.tags) else awake.tags;
        (awake.(marker := Some(aim.marker), tags := kept + if a.adds then aim.tags else {}), a.adds)
  }

  /** Attempts until one comes through or they run out. */
  function Retry(reopen: bool, aim: Aim, issue: Issue, tries: seq<Attempt>): (Issue, bool)
    decreases |tries|
  {
    if tries == [] then (issue, false)
    else
      var (next, ok) := Try(reopen, aim, issue, tries[0]);
      if ok then (next, true) else Retry(reopen, aim, next, tries[1..])
  }

  const MAX_ATTEMPTS := 3

  type Tries = s: seq<Attempt> | |s| == 3 witness seq(3, _ => Attempt(true, true, true, true, true))

  /** How the outside world answers one sync, cop by cop. */
  datatype World = World(tries: string -> Tries, creates: string -> bool, closes: string -> bool)

  /** One attempt with its commands in the order they are sent. */
  method TryOnce(reopen: bool, aim: Aim, issue: Issue, a: Attempt) returns (next: Issue, ok: bool)
    ensures (next, ok) == Try(reopen, aim, issue, a)
  {
    next := issue;
    if reopen {
      if !a.reopens {
        return next, false;
      }
      next := next.(open := true);
      if !a.comments {
        return next, false;
      }
    }
    if !a.edits {
      return next, false;
    }
    next := next.(marker := Some(aim.marker));
    if a.removes {
      next := next.(tags := Unmanaged(next.tags));
    }
    if !a.adds {
      assert next.tags + {} == next.tags;
      return next, false;
    }
    next, ok := next.(tags := next.tags + aim.tags), true;
  }

  /** The retry loop around an action. */
  method RunWithRetries(reopen: bool, aim: Aim, was: Issue, tries: Tries) returns (issue: Issue, ok: bool)
    ensures (issue, ok) == Retry(reopen, aim, was, tries)
  {
    issue, ok := was, false;
    var attempt := 1;
    assert tries[0..] == tries;
    while attempt <= MAX_ATTEMPTS
      invariant 1 <= attempt <= MAX_ATTEMPTS + 1
      invariant Retry(reopen, aim, was, tries) == Retry(reopen, aim, issue, tries[attempt - 1..])
      invariant !ok
    {
      assert tries[attempt - 1..][1..] == tries[attempt..];
      issue, ok := TryOnce(reopen, aim, issue, tries[attempt - 1]);
      if ok {
        return;
      }
      attempt := attempt + 1;
    }
  }

  // ------------------------------------------------------------- the program

  datatype Result = Created | Updated | Reopened | Failed

  /** What becomes of one target, and how its action is reported. */
  function Act(d: Corpus, issues: map<string, Issue>, w: World, cop: string): (Option<Issue>, Result) {
    var aim := AimFor(d, cop, IssueAt(issues, cop));
    if cop !in issues then
      if w.creates(cop) then (Some(Issue(true, aim.tags, Some(aim.marker))), Created) else (None, Failed)
    else
      var (after, ok) := Retry(!issues[cop].open, aim, issues[cop], w.tries(cop));
      (Some(after), if !ok then Failed else if issues[cop].open then Updated else Reopened)
  }

  type Plan = string -> (Option<Issue>, Result)

  function PlanOf(d: Corpus, issues: map<string, Issue>, w: World): Plan {
    cop => Act(d, issues, w, cop)
  }

  /** The tracker after the actions for `done` and the closings `closed`. */
  function Acted(issues: map<string, Issue>, plan: Plan, done: set<string>, closed: set<string>): map<string, Issue> {
    map c | c in issues.Keys + done && (c in done ==> plan(c).0.Some?) ::
      if c in done then plan(c).0.value
      else if c in closed then issues[c].(open := false)
      else issues[c]
  }

  function Closings(d: Corpus, issues: map<string, Issue>): set<string> {
    set c | c in issues && ToClose(d, issues, c)
  }

  /** How the closing phase goes: the order in which the closings are queued, and
      how far down the queue the workers have got when a failure that has come up
      cancels the rest. */
  datatype Schedule = Schedule(order: seq<string>, reach: nat)

  ghost predicate Queues(sch: Schedule, closing: set<string>) {
    && (forall c :: c in sch.order <==> c in closing)
    && (forall i, j :: 0 <= i < j < |sch.order| ==> sch.order[i] != sch.order[j])
  }

  /** Number of closings started: all of them if none fails; otherwise at least up
      to the first that fails. */
  function Started(order: seq<string>, closes: string -> bool, reach: nat): (n: nat)
    ensures n <= |order|
    ensures n < |order| ==> n >= reach && exists i :: 0 <= i < n && !closes(order[i])
  {
    if order == [] then 0
    else if closes(order[0]) then 1 + Started(order[1..], closes, if reach > 0 then reach - 1 else 0)
    else if reach <= 1 then 1
    else if reach <= |order| then reach
    else |order|
  }

  /** The closings among the first i of the queue that succeed. */
  function ClosedAmong(order: seq<string>, closes: string -> bool, i: nat): set<string>
    requires i <= |order|
  {
    set j | 0 <= j < i && closes(order[j]) :: order[j]
  }

  /** The closings that took effect. */
  function ClosedBy(sch: Schedule, closes: string -> bool): set<string> {
    ClosedAmong(sch.order, closes, Started(sch.order, closes, sch.reach))
  }

  /** The tracker after a sync against a world in which commands may fail. */
  function BestEffort(d: Corpus, issues: map<string, Issue>, w: World, sch: Schedule): map<string, Issue> {
    Acted(issues, PlanOf(d, issues, w), Targets(d), ClosedBy(sch, w.closes))
  }

  function Reported(plan: Plan, done: set<string>, r: Result): set<string> {
    set c | c in done && plan(c).1 == r
  }

  datatype Summary = Summary(created: nat, updated: nat, reopened: nat, failed: nat)

  function Counter(s: Summary, r: Result): nat {
    match r
    case Created => s.created
    case Updated => s.updated
    case Reopened => s.reopened
    case Failed => s.failed
  }

  /** Each counter is the number of targets whose action ended that way. */
  ghost predicate CountsAre(s: Summary, plan: Plan, done: set<string>) {
    forall r: Result :: Counter(s, r) == |Reported(plan, done, r)|
  }

  function Bump(s: Summary, r: Result): (b: Summary)
    ensures forall q: Result :: Counter(b, q) == Counter(s, q) + (if q == r then 1 else 0)
  {
    match r
    case Created => s.(created := s.created + 1)
    case Updated => s.(updated := s.updated + 1)
    case Reopened => s.(reopened := s.reopened + 1)
    case Failed => s.(failed := s.failed + 1)
  }

  lemma CountOne(plan: Plan, done: set<string>, c: string, s: Summary)
    requires CountsAre(s, plan, done) && c !in done
    ensures CountsAre(Bump(s, plan(c).1), plan, done + {c})
  {
    var b := Bump(s, plan(c).1);
    forall r: Result
      ensures Counter(b, r) == |Reported(plan, done + {c}, r)|
    {
      var before, after := Reported(plan, done, r), Reported(plan, done + {c}, r);
      if plan(c).1 == r {
        assert after == before + {c};
      } else {
        assert after == before;
      }
    }
  }

  class GitHub {
    var issues: map<string, Issue>

    constructor (issues: map<string, Issue>)
      ensures this.issues == issues
    {
      this.issues := issues;
    }

    /** Carry out the action planned for a target from the snapshot. */
    method Perform(d: Corpus, snapshot: map<string, Issue>, w: World, cop: string, ghost plan: Plan) returns (r: Result)
      requires IssueAt(issues, cop) == IssueAt(snapshot, cop) && plan == PlanOf(d, snapshot, w)
      modifies this
      ensures r == plan(cop).1
      ensures issues == Put(old(issues), cop, plan(cop).0)
    {
      var aim := AimFor(d, cop, IssueAt(snapshot, cop));
      if cop !in snapshot {
        if !w.creates(cop) {
          return Failed;
        }
        issues := issues[cop := Issue(true, aim.tags, Some(aim.marker))];
        return Created;
      }
      var reopen := !snapshot[cop].open;
      var after, ok := RunWithRetries(reopen, aim, issues[cop], w.tries(cop));
      issues := issues[cop := after];
      r := if !ok then Failed else if reopen then Reopened else Updated;
    }

    method Close(cop: string, succeeds: bool)
      requires cop in issues
      modifies this
      ensures issues == if succeeds then old(issues)[cop := old(issues)[cop].(open := false)] else old(issues)
    {
      if succeeds {
        issues := issues[cop := issues[cop].(open := false)];
      }
    }
  }

  function Put(issues: map<string, Issue>, cop: string, after: Option<Issue>): map<string, Issue> {
    if after.Some? then issues[cop := after.value] else issues
  }

  lemma ActedStep(issues: map<string, Issue>, plan: Plan, done: set<string>, c: string)
    requires c !in done && (c in issues ==> plan(c).0.Some?)
    ensures IssueAt(Acted(issues, plan, done, {}), c) == IssueAt(issues, c)
    ensures Acted(issues, plan, done + {c}, {}) == Put(Acted(issues, plan, done, {}), c, plan(c).0)
  {
    var x, y := Acted(issues, plan, done, {}), Acted(issues, plan, done + {c}, {});
    assert c !in issues ==> c !in x;
    assert c in issues ==> c in x && x[c] == issues[c];
    assert forall k :: k != c ==> (k in x <==> k in y) && (k in x ==> x[k] == y[k]);
  }

  lemma ActedNothing(issues: map<string, Issue>, plan: Plan)
    ensures Acted(issues, plan, {}, {}) == issues
    ensures CountsAre(Summary(0, 0, 0, 0), plan, {})
  {
    forall r: Result
      ensures Reported(plan, {}, r) == {}
    {
    }
  }

  /** Tracker and counters are right for the targets done. */
  ghost predicate Progress(now: map<string, Issue>, snapshot: map<string, Issue>, plan: Plan, done: set<string>, s: Summary) {
    now == Acted(snapshot, plan, done, {}) && CountsAre(s, plan, done)
  }

  lemma ProgressStep(now: map<string, Issue>, snapshot: map<string, Issue>, plan: Plan, done: set<string>, s: Summary, c: string)
    requires Progress(now, snapshot, plan, done, s) && c !in done && (c in snapshot ==> plan(c).0.Some?)
    ensures IssueAt(now, c) == IssueAt(snapshot, c)
    ensures Progress(Put(now, c, plan(c).0), snapshot, plan, done + {c}, Bump(s, plan(c).1))
  {
    ActedStep(snapshot, plan, done, c);
    CountOne(plan, done, c, s);
  }

  method RunAction(hub: GitHub, d: Corpus, w: World, cop: string, snapshot: map<string, Issue>, before: Summary,
                   ghost plan: Plan, ghost done: set<string>) returns (s: Summary)
    requires plan == PlanOf(d, snapshot, w) && cop !in done
    requires Progress(hub.issues, snapshot, plan, done, before)
    modifies hub
    ensures Progress(hub.issues, snapshot, plan, done + {cop}, s)
  {
    ProgressStep(hub.issues, snapshot, plan, done, before, cop);
    var r := hub.Perform(d, snapshot, w, cop, plan);
    s := Bump(before, r);
  }

  /** Run the planned actions, in any order. */
  method RunActions(hub: GitHub, d: Corpus, w: World, targets: set<string>, ghost plan: Plan) returns (s: Summary)
    requires plan == PlanOf(d, hub.issues, w)
    modifies hub
    ensures Progress(hub.issues, old(hub.issues), plan, targets, s)
  {
    var snapshot := hub.issues;
    var pending := targets;
    s := Summary(0, 0, 0, 0);
    ActedNothing(snapshot, plan);
    assert targets - pending == {};
    while pending != {}
      invariant pending <= targets
      invariant Progress(hub.issues, snapshot, plan, targets - pending, s)
      decreases pending
    {
      var cop :| cop in pending;
      s := RunAction(hub, d, w, cop, snapshot, s, plan, targets - pending);
      OneFewer(targets, pending, cop);
      pending := pending - {cop};
    }
    assert targets - pending == targets;
  }

  lemma OneFewer<T>(all: set<T>, pending: set<T>, x: T)
    requires x in pending && pending <= all
    ensures all - pending + {x} == all - (pending - {x})
  {
  }

  lemma CloseStep(issues: map<string, Issue>, plan: Plan, done: set<string>, closed: set<string>, c: string)
    requires c in issues && c !in done
    ensures var x := Acted(issues, plan, done, closed);
            && c in x
            && Acted(issues, plan, done, closed + {c}) == x[c := x[c].(open := false)]
  {
    var x, y := Acted(issues, plan, done, closed), Acted(issues, plan, done, closed + {c});
    assert x.Keys == y.Keys;
    assert forall k :: k in x && k != c ==> x[k] == y[k];
  }

  lemma {:induction false} StartedAt(order: seq<string>, closes: string -> bool, reach: nat, i: nat)
    requires i < |order|
    ensures i < Started(order, closes, reach) <==>
            i < reach || forall j :: 0 <= j < i ==> closes(order[j])
    decreases |order|
  {
    if i == 0 {
    } else {
      if closes(order[0]) {
        StartedAt(order[1..], closes, if reach > 0 then reach - 1 else 0, i - 1);
        assert (forall j :: 0 <= j < i ==> closes(order[j])) <==> (forall j :: 0 <= j < i - 1 ==> closes(order[1..][j])) by {
          if forall j :: 0 <= j < i - 1 ==> closes(order[1..][j]) {
            forall j | 0 <= j < i
              ensures closes(order[j])
            {
              assert j > 0 ==> closes(order[1..][j - 1]);
            }
          }
        }
      }
    }
  }

  lemma ClosedAmongStep(order: seq<string>, closes: string -> bool, i: nat)
    requires i < |order|
    ensures ClosedAmong(order, closes, i + 1) ==
            if closes(order[i]) then ClosedAmong(order, closes, i) + {order[i]} else ClosedAmong(order, closes, i)
  {
  }

  ghost predicate FailedAmong(order: seq<string>, closes: string -> bool, i: nat)
    requires i <= |order|
  {
    exists j :: 0 <= j < i && !closes(order[j])
  }

  lemma StartedIs(order: seq<string>, closes: string -> bool, reach: nat, i: nat)
    requires i <= |order| && (i > 0 ==> i - 1 < Started(order, closes, reach))
    requires i == |order| || (FailedAmong(order, closes, i) && i >= reach)
    ensures i == Started(order, closes, reach)
  {
    if i < |order| { StartedAt(order, closes, reach, i); }
  }

  lemma NextStarts(order: seq<string>, closes: string -> bool, reach: nat, i: nat)
    requires i < |order| && (!FailedAmong(order, closes, i) || i < reach)
    ensures i < Started(order, closes, reach)
  {
    StartedAt(order, closes, reach, i);
  }

  /** Close what is resolved, in queue order. A failing close is raised once its
      turn comes, and what has not been started by then is cancelled. */
  method CloseAll(hub: GitHub, closes: string -> bool, sch: Schedule, ghost snapshot: map<string, Issue>,
                  ghost plan: Plan, ghost done: set<string>) returns (raised: bool)
    requires forall i :: 0 <= i < |sch.order| ==> sch.order[i] in snapshot && sch.order[i] !in done
    requires hub.issues == Acted(snapshot, plan, done, {})
    modifies hub
    ensures hub.issues == Acted(snapshot, plan, done, ClosedBy(sch, closes))
    ensures raised <==> exists i :: 0 <= i < |sch.order| && !closes(sch.order[i])
  {
    raised := false;
    var order, i := sch.order, 0;
    assert ClosedAmong(order, closes, 0) == {};
    while i < |order| && (!raised || i < sch.reach)
      invariant 0 <= i <= |order|
      invariant raised <==> FailedAmong(order, closes, i)
      invariant i > 0 ==> i - 1 < Started(order, closes, sch.reach)
      invariant hub.issues == Acted(snapshot, plan, done, ClosedAmong(order, closes, i))
    {
      NextStarts(order, closes, sch.reach, i);
      ClosedAmongStep(order, closes, i);
      CloseStep(snapshot, plan, done, ClosedAmong(order, closes, i), order[i]);
      hub.Close(order[i], closes(order[i]));
      raised := raised || !closes(order[i]);
      i := i + 1;
    }
    StartedIs(order, closes, sch.reach, i);
  }

  /** No closing fails. */
  ghost predicate AllClose(d: Corpus, issues: map<string, Issue>, w: World) {
    forall c :: c in Closings(d, issues) ==> w.closes(c)
  }

  lemma CountersAre(s: Summary, plan: Plan, done: set<string>)
    requires CountsAre(s, plan, done)
    ensures s.created == |Reported(plan, done, Created)| && s.updated == |Reported(plan, done, Updated)|
    ensures s.reopened == |Reported(plan, done, Reopened)| && s.failed == |Reported(plan, done, Failed)|
  {
    assert Counter(s, Created) == s.created && Counter(s, Updated) == s.updated;
    assert Counter(s, Reopened) == s.reopened && Counter(s, Failed) == s.failed;
  }

  /** The whole sync: actions planned from one snapshot run in any order, then
      what is resolved is closed. A summary comes back if and only if no closing
      fails; otherwise the sync ends in an error. */
  method IssuesSync(hub: GitHub, d: Corpus, w: World, sch: Schedule) returns (s: Option<Summary>)
    requires Queues(sch, Closings(d, hub.issues))
    modifies hub
    ensures hub.issues == BestEffort(d, old(hub.issues), w, sch)
    ensures s.Some? <==> AllClose(d, old(hub.issues), w)
    ensures s.Some? ==>
              var plan, all := PlanOf(d, old(hub.issues), w), Targets(d);
              && s.value.created == |Reported(plan, all, Created)| && s.value.updated == |Reported(plan, all, Updated)|
              && s.value.reopened == |Reported(plan, all, Reopened)| && s.value.failed == |Reported(plan, all, Failed)|
  {
    var snapshot := hub.issues;
    ghost var plan := PlanOf(d, snapshot, w);
    var targets := Targets(d);
    forall i | 0 <= i < |sch.order|
      ensures sch.order[i] in snapshot && sch.order[i] !in targets
    {
      assert sch.order[i] in Closings(d, snapshot);
    }
    var summary := RunActions(hub, d, w, targets, plan);
    CountersAre(summary, plan, targets);
    var raised := CloseAll(hub, w.closes, sch, snapshot, plan, targets);
    QueueMeans(sch, Closings(d, snapshot), w.closes);
    s := if raised then None else Some(summary);
  }

  lemma QueueMeans(sch: Schedule, closing: set<string>, closes: string -> bool)
    requires Queues(sch, closing)
    ensures (exists i :: 0 <= i < |sch.order| && !closes(sch.order[i])) <==> !(forall c :: c in closing ==> closes(c))
    ensures ClosedBy(sch, closes) <= set c | c in closing && closes(c)
    ensures (forall c :: c in closing ==> closes(c)) ==> ClosedBy(sch, closes) == closing
  {
    if c :| c in closing && !closes(c) {
      assert c in sch.order;
      var i :| 0 <= i < |sch.order| && sch.order[i] == c;
      assert !closes(sch.order[i]);
    }
    forall c | c in ClosedBy(sch, closes)
      ensures c in closing && closes(c)
    {
      assert c in sch.order;
    }
    if forall c :: c in closing ==> closes(c) {
      forall c | c in closing
        ensures c in ClosedBy(sch, closes)
      {
        var i :| 0 <= i < |sch.order| && sch.order[i] == c;
        forall j | 0 <= j < i
          ensures closes(sch.order[j])
        {
          assert sch.order[j] in closing;
        }
        StartedAt(sch.order, closes, sch.reach, i);
      }
    }
  }

  // ------------------------------------------------- when a closing fails

  /** Only resolved issues whose closing succeeds are ever closed, whatever the
      schedule; with no failure all of them are. */
  lemma ClosedOnlyWhatCloses(d: Corpus, issues: map<string, Issue>, w: World, sch: Schedule)
    requires Queues(sch, Closings(d, issues))
    ensures ClosedBy(sch, w.closes) <= set c | c in Closings(d, issues) && w.closes(c)
    ensures AllClose(d, issues, w) ==> ClosedBy(sch, w.closes) == Closings(d, issues)
    ensures forall c :: c in issues && c !in Targets(d) && c !in ClosedBy(sch, w.closes) ==>
                          IssueAt(BestEffort(d, issues, w, sch), c) == Some(issues[c])
  {
    QueueMeans(sch, Closings(d, issues), w.closes);
  }

  lemma StillOpen(d: Corpus, issues: map<string, Issue>, w: World, sch: Schedule, c: string)
    requires c in Closings(d, issues)
    ensures c in BestEffort(d, issues, w, sch)
    ensures BestEffort(d, issues, w, sch)[c].open <==> c !in ClosedBy(sch, w.closes)
  {
  }

  /** The queue is the listing's order; only how far the workers get is open. */
  ghost predicate SameForEveryReach(d: Corpus, issues: map<string, Issue>, w: World, order: seq<string>) {
    forall r: nat, q: nat ::
      BestEffort(d, issues, w, Schedule(order, r)) == BestEffort(d, issues, w, Schedule(order, q))
  }

  ghost predicate NoneBehindFailure(order: seq<string>, closes: string -> bool) {
    forall i, j :: 0 <= i < j < |order| && !closes(order[i]) ==> !closes(order[j])
  }

  lemma ReachIsIdle(order: seq<string>, closes: string -> bool, reach: nat)
    requires NoneBehindFailure(order, closes)
    ensures ClosedBy(Schedule(order, reach), closes) == set c | c in order && closes(c)
  {
    forall c | c in order && closes(c)
      ensures c in ClosedBy(Schedule(order, reach), closes)
    {
      var i :| 0 <= i < |order| && order[i] == c;
      StartedAt(order, closes, reach, i);
    }
  }

  lemma ReachDecides(order: seq<string>, closes: string -> bool, i: nat, j: nat)
    requires forall k, m :: 0 <= k < m < |order| ==> order[k] != order[m]
    requires i < j < |order| && !closes(order[i]) && closes(order[j])
    ensures order[j] !in ClosedBy(Schedule(order, 0), closes)
    ensures order[j] in ClosedBy(Schedule(order, |order|), closes)
  {
    StartedAt(order, closes, 0, j);
    StartedAt(order, closes, |order|, j);
  }

  /** For the queue the listing gives, the tracker a sync leaves is the same however
      far the workers get if and only if no closing that succeeds is queued behind
      one that fails. */
  lemma ScheduleMatters(d: Corpus, issues: map<string, Issue>, w: World, order: seq<string>)
    requires Queues(Schedule(order, 0), Closings(d, issues))
    ensures SameForEveryReach(d, issues, w, order) <==> NoneBehindFailure(order, w.closes)
  {
    if NoneBehindFailure(order, w.closes) {
      forall r: nat, q: nat
        ensures BestEffort(d, issues, w, Schedule(order, r)) == BestEffort(d, issues, w, Schedule(order, q))
      {
        ReachIsIdle(order, w.closes, r);
        ReachIsIdle(order, w.closes, q);
      }
    } else {
      var i, j :| 0 <= i < j < |order| && !w.closes(order[i]) && w.closes(order[j]);
      ReachDecides(order, w.closes, i, j);
      assert order[j] in Closings(d, issues);
      StillOpen(d, issues, w, Schedule(order, 0), order[j]);
      StillOpen(d, issues, w, Schedule(order, |order|), order[j]);
      assert BestEffort(d, issues, w, Schedule(order, 0)) != BestEffort(d, issues, w, Schedule(order, |order|));
    }
  }

  /** The same whatever order the listing came in. */
  ghost predicate SameForEveryListing(d: Corpus, issues: map<string, Issue>, w: World) {
    forall order :: Queues(Schedule(order, 0), Closings(d, issues)) ==> SameForEveryReach(d, issues, w, order)
  }

  /** A queue that starts with the given closing. */
  lemma {:induction false} QueueFrom(first: string, closing: set<string>) returns (order: seq<string>)
    requires first in closing
    ensures order != [] && order[0] == first && Queues(Schedule(order, 0), closing)
    decreases closing
  {
    var rest := closing - {first};
    if rest == {} {
      order := [first];
    } else {
      var second :| second in rest;
      var tail := QueueFrom(second, rest);
      order := [first] + tail;
      assert forall c :: c in order <==> c == first || c in tail;
    }
  }

  /** When the listing's order is not known, the closings must all succeed or all
      fail. */
  lemma ListingMatters(d: Corpus, issues: map<string, Issue>, w: World)
    ensures SameForEveryListing(d, issues, w) <==>
            AllClose(d, issues, w) || forall c :: c in Closings(d, issues) ==> !w.closes(c)
  {
    if AllClose(d, issues, w) || forall c :: c in Closings(d, issues) ==> !w.closes(c) {
      forall order | Queues(Schedule(order, 0), Closings(d, issues))
        ensures SameForEveryReach(d, issues, w, order)
      {
        assert forall i :: 0 <= i < |order| ==> order[i] in Closings(d, issues);
        ScheduleMatters(d, issues, w, order);
      }
    } else {
      var bad :| bad in Closings(d, issues) && !w.closes(bad);
      var good :| good in Closings(d, issues) && w.closes(good);
      var order := QueueFrom(bad, Closings(d, issues));
      assert good in order;
      var j :| 0 <= j < |order| && order[j] == good;
      assert !NoneBehindFailure(order, w.closes);
      ScheduleMatters(d, issues, w, order);
    }
  }
}
