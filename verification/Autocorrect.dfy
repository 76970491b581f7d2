/** The autocorrect loop: lint, apply the accepted edits, lint again, until the
    text settles, refuses to change, or 200 rounds have passed
    (src/linter.rs, `lint_source_inner`). */
module Autocorrect {
  import opened Basics
  import opened Correction
  import opened Diagnostics
  import opened Orbits

  datatype LintPass = LintPass(diagnostics: seq<Diagnostic>, corrections: seq<Edit>)

  /** The cops and the parser, as functions of the text alone. */
  datatype Linter = Linter(
    once: Bytes -> LintPass,
    onceOff: Bytes -> seq<Diagnostic>,
    parses: Bytes -> bool
  )

  const MAX_ITERATIONS: nat := 200

  /** Panicked is the slice panic of applying an out-of-range edit. */
  datatype Outcome =
    | Finished(diagnostics: seq<Diagnostic>, bytes: Option<Bytes>, correctedCount: nat)
    | Panicked

  // ------------------------------------------------------------ one round

  datatype Verdict = Settled | Stuck | Crash | Continue(next: Bytes)

  function Judge(l: Linter, text: Bytes): Verdict {
    var corrections := l.once(text).corrections;
    if corrections == [] then Settled
    else
      match Scan(text, Accepted(corrections), 0)
      case None => Crash
      case Some(next) => if next == text then Stuck else Continue(next)
  }

  /** One round, when it goes on. */
  function Step(l: Linter): Bytes -> Option<Bytes> {
    text =>
      match Judge(l, text)
      case Continue(next) => Some(next)
      case _ => None
  }

  /** The text after n rounds that each changed it; None if the rounds end
      earlier. */
  function Orbit(l: Linter, original: Bytes, n: nat): Option<Bytes> {
    After(Step(l), original, n)
  }

  /** The diagnostics marked corrected by the first n passes. */
  function Gathered(l: Linter, original: Bytes, n: nat): seq<Diagnostic> {
    if n == 0 then []
    else
      match Orbit(l, original, n - 1)
      case None => []
      case Some(text) => Gathered(l, original, n - 1) + Corrected(l.once(text).diagnostics)
  }

  // ------------------------------------------------------------- the exits

  datatype Exit = SettledAfter(n: nat) | StuckAfter(n: nat) | CrashedAfter(n: nat) | CapReached

  /** How the loop ends when it has completed n rounds. */
  function ExitFrom(l: Linter, original: Bytes, cap: nat, n: nat): Exit
    requires n <= cap && Orbit(l, original, n).Some?
    decreases cap - n
  {
    if n == cap then CapReached
    else
      match Judge(l, Orbit(l, original, n).value)
      case Settled => SettledAfter(n)
      case Stuck => StuckAfter(n)
      case Crash => CrashedAfter(n)
      case Continue(_) => ExitFrom(l, original, cap, n + 1)
  }

  /** Re-parse check on the way out. */
  function Validated(l: Linter, original: Bytes, text: Bytes): Option<Bytes> {
    if text == original || !l.parses(text) then None else Some(text)
  }

  function Report(diagnostics: seq<Diagnostic>, bytes: Option<Bytes>): Outcome {
    Finished(diagnostics, bytes, |Corrected(diagnostics)|)
  }

  /** What the loop returns, read off the exit it takes. */
  ghost predicate ReturnsAs(l: Linter, original: Bytes, cap: nat, exit: Exit, r: Outcome) {
    match exit
    case SettledAfter(n) =>
      && Orbit(l, original, n).Some?
      && var text := Orbit(l, original, n).value;
         r == Report(Gathered(l, original, n) + l.once(text).diagnostics, Validated(l, original, text))
    case StuckAfter(n) =>
      r == Report(Gathered(l, original, n + 1), None)
    case CrashedAfter(n) =>
      r == Panicked
    case CapReached =>
      && Orbit(l, original, cap).Some?
      && var text := Orbit(l, original, cap).value;
         r == Report(Gathered(l, original, cap) + l.onceOff(text), Validated(l, original, text))
  }

  /** Lint passes made on the way to an exit. */
  function PassesBy(exit: Exit, cap: nat): nat {
    if exit == CapReached then cap + 1 else exit.n + 1
  }

  method ValidateCorrectedBytes(l: Linter, original: Bytes, current: Bytes) returns (r: Option<Bytes>)
    ensures r == Validated(l, original, current)
  {
    if current == original {
      return None;
    }
    if !l.parses(current) {
      return None;
    }
    r := Some(current);
  }

  method CountCorrected(ds: seq<Diagnostic>) returns (n: nat)
    ensures n == |Corrected(ds)|
  {
    n := 0;
    assert ds[..0] == [];
    for i := 0 to |ds|
      invariant n == |Corrected(ds[..i])|
    {
      assert ds[..i+1] == ds[..i] + [ds[i]];
      CorrectedSplits(ds[..i], [ds[i]]);
      if ds[i].corrected {
        n := n + 1;
      }
    }
    assert ds[..|ds|] == ds;
  }

  /** One round: a lint pass and, if it proposes corrections, applying them. */
  method Round(l: Linter, current: Bytes) returns (diagnostics: seq<Diagnostic>, verdict: Verdict)
    ensures diagnostics == l.once(current).diagnostics
    ensures verdict == Judge(l, current)
  {
    var pass := l.once(current);
    diagnostics := pass.diagnostics;
    if pass.corrections == [] {
      return diagnostics, Settled;
    }
    var edits := new CorrectionSet.FromVec(pass.corrections);
    var applied := edits.Apply(current);
    verdict :=
      match applied
      case None => Crash
      case Some(next) => if next == current then Stuck else Continue(next);
  }

  /** The loop, for any cap on the number of rounds: it takes exactly one of
      the four exits. */
  method Iterate(l: Linter, original: Bytes, cap: nat) returns (r: Outcome, ghost passes: nat)
    ensures ReturnsAs(l, original, cap, ExitFrom(l, original, cap, 0), r)
    ensures passes == PassesBy(ExitFrom(l, original, cap, 0), cap)
  {
    passes := 0;
    var current := original;
    var gathered: seq<Diagnostic> := [];
    for i := 0 to cap
      invariant passes == i
      invariant Orbit(l, original, i) == Some(current)
      invariant gathered == Gathered(l, original, i)
      invariant ExitFrom(l, original, cap, 0) == ExitFrom(l, original, cap, i)
    {
      var diagnostics, verdict := Round(l, current);
      passes := passes + 1;
      if verdict == Settled {
        var all := gathered + diagnostics;
        var count := CountCorrected(all);
        var bytes := ValidateCorrectedBytes(l, original, current);
        return Finished(all, bytes, count), passes;
      }
      gathered := gathered + Corrected(diagnostics);
      if verdict == Crash {
        return Panicked, passes;
      }
      if verdict == Stuck {
        var count := CountCorrected(gathered);
        return Finished(gathered, None, count), passes;
      }
      assert Step(l)(current) == Some(verdict.next);
      current := verdict.next;
    }
    var diagnostics := l.onceOff(current);
    passes := passes + 1;
    var all := gathered + diagnostics;
    var count := CountCorrected(all);
    var bytes := ValidateCorrectedBytes(l, original, current);
    r := Finished(all, bytes, count);
  }

  /** `lint_source_inner`: with autocorrect off there is one pass and no
      rewriting; otherwise the loop, at most 201 passes. */
  method LintSourceInner(l: Linter, autocorrect: bool, original: Bytes)
    returns (r: Outcome, ghost passes: nat)
    ensures !autocorrect ==> r == Finished(l.onceOff(original), None, 0) && passes == 1
    ensures autocorrect ==> ReturnsAs(l, original, MAX_ITERATIONS, ExitFrom(l, original, MAX_ITERATIONS, 0), r)
    ensures passes <= 201
    ensures autocorrect && Orbit(l, original, 200).Some? ==> passes == 201
  {
    if autocorrect {
      ExitByCap(l, original, MAX_ITERATIONS);
      ExitIsFirstStop(l, original, MAX_ITERATIONS, 0);
      r, passes := Iterate(l, original, MAX_ITERATIONS);
    } else {
      r, passes := Finished(l.onceOff(original), None, 0), 1;
    }
  }

  // ------------------------------------------------------- what exits mean

  /** Each exit is the first round whose verdict is not to continue. */
  lemma {:induction false} ExitIsFirstStop(l: Linter, original: Bytes, cap: nat, n: nat)
    requires n <= cap && Orbit(l, original, n).Some?
    ensures match ExitFrom(l, original, cap, n)
            case SettledAfter(k) =>
              n <= k < cap && Orbit(l, original, k).Some? && Judge(l, Orbit(l, original, k).value) == Settled
            case StuckAfter(k) =>
              n <= k < cap && Orbit(l, original, k).Some? && Judge(l, Orbit(l, original, k).value) == Stuck
            case CrashedAfter(k) =>
              n <= k < cap && Orbit(l, original, k).Some? && Judge(l, Orbit(l, original, k).value) == Crash
            case CapReached => Orbit(l, original, cap).Some?
    decreases cap - n
  {
    if n < cap && Judge(l, Orbit(l, original, n).value).Continue? {
      ExitIsFirstStop(l, original, cap, n + 1);
    }
  }

  /** After an exit before the cap there is no further round. */
  lemma EarlyExitEndsOrbit(l: Linter, original: Bytes, cap: nat)
    ensures var exit := ExitFrom(l, original, cap, 0);
            exit != CapReached ==> exit.n < cap && Orbit(l, original, exit.n).Some? && Orbit(l, original, exit.n + 1).None?
  {
    ExitIsFirstStop(l, original, cap, 0);
  }

  lemma GoingOnReachesCap(l: Linter, original: Bytes, cap: nat)
    requires forall k: nat :: Orbit(l, original, k).Some?
    ensures ExitFrom(l, original, cap, 0) == CapReached
  {
    EarlyExitEndsOrbit(l, original, cap);
  }

  /** Texts visited by a run that stops before the cap are pairwise distinct. */
  lemma StoppedRunsNeverRepeat(l: Linter, original: Bytes, cap: nat, n: nat, i: nat, j: nat)
    requires ExitFrom(l, original, cap, 0) != CapReached && ExitFrom(l, original, cap, 0).n == n
    requires i < j <= n
    ensures Orbit(l, original, i).Some? && Orbit(l, original, j).Some?
    ensures Orbit(l, original, i) != Orbit(l, original, j)
  {
    EarlyExitEndsOrbit(l, original, cap);
    StoppingNeverRepeats(Step(l), original, n, i, j);
  }

  /** Conversely, once a text comes back the loop can only end at the cap. */
  lemma RepeatRunsToCap(l: Linter, original: Bytes, cap: nat, i: nat, j: nat)
    requires i < j && Orbit(l, original, j).Some?
    requires Orbit(l, original, i) == Orbit(l, original, j)
    ensures ExitFrom(l, original, cap, 0) == CapReached
    ensures Orbit(l, original, cap).Some?
  {
    forall k: nat
      ensures Orbit(l, original, k).Some?
    {
      NeverStops(Step(l), original, i, j - i, k);
    }
    GoingOnReachesCap(l, original, cap);
  }

  /** Corrections that undo each other every p rounds, p dividing the cap, use
      every round, report everything they touched as corrected, and write
      nothing. */
  lemma CycleWritesNothing(l: Linter, original: Bytes, p: nat, laps: nat, r: Outcome)
    requires p > 0 && Orbit(l, original, p) == Some(original)
    requires ReturnsAs(l, original, p * laps, ExitFrom(l, original, p * laps, 0), r)
    ensures r == Report(Gathered(l, original, p * laps) + l.onceOff(original), None)
  {
    RepeatRunsToCap(l, original, p * laps, 0, p);
    RoundAndRound(Step(l), original, p, laps);
  }

  // --------------------------------------------------- what is written back

  /** The text the run ends with, when it ends with one. */
  function FinalText(l: Linter, original: Bytes, cap: nat): Option<Bytes> {
    match ExitFrom(l, original, cap, 0)
    case SettledAfter(n) => Orbit(l, original, n)
    case CapReached => Orbit(l, original, cap)
    case _ => None
  }

  /** Bytes are handed back exactly when the run settles or reaches the cap on
      a text that parses and is not the original; they arise by at most `cap`
      applications, each of which changed the text; and unless the cap was hit
      a further pass proposes nothing. */
  lemma WrittenBytes(l: Linter, original: Bytes, cap: nat, r: Outcome, b: Bytes)
    requires ReturnsAs(l, original, cap, ExitFrom(l, original, cap, 0), r)
    ensures r.Finished? && r.bytes == Some(b) <==>
            FinalText(l, original, cap) == Some(b) && b != original && l.parses(b)
    ensures r.Finished? && r.bytes == Some(b) ==>
              exists n: nat :: 1 <= n <= cap && Orbit(l, original, n) == Some(b)
                               && (n < cap ==> l.once(b).corrections == [])
  {
    ExitIsFirstStop(l, original, cap, 0);
    if r.Finished? && r.bytes == Some(b) {
      var n := match ExitFrom(l, original, cap, 0) case SettledAfter(k) => k case _ => cap;
      assert Orbit(l, original, n) == Some(b);
    }
  }

  /** Settling after at least one round always leaves a different text: the
      original proposed corrections and the final text does not. So after
      settling, bytes are withheld only because they do not parse. */
  lemma SettlingChangesText(l: Linter, original: Bytes, cap: nat, n: nat, r: Outcome)
    requires ExitFrom(l, original, cap, 0) == SettledAfter(n) && n > 0
    requires ReturnsAs(l, original, cap, SettledAfter(n), r)
    ensures Orbit(l, original, n).value != original
    ensures r.bytes == (if l.parses(Orbit(l, original, n).value) then Orbit(l, original, n) else None)
  {
    EarlyExitEndsOrbit(l, original, cap);
    StoppingNeverRepeats(Step(l), original, n, 0, n);
  }

  /** Autocorrecting the written text again proposes and writes nothing. */
  lemma SettledTextIsStable(l: Linter, original: Bytes, cap: nat, n: nat, r: Outcome)
    requires ExitFrom(l, original, cap, 0) == SettledAfter(n) && Orbit(l, original, n).Some?
    requires ReturnsAs(l, Orbit(l, original, n).value, cap,
                       ExitFrom(l, Orbit(l, original, n).value, cap, 0), r)
    ensures r == Report(l.once(Orbit(l, original, n).value).diagnostics, None)
  {
    ExitIsFirstStop(l, original, cap, 0);
    var text := Orbit(l, original, n).value;
    assert ExitFrom(l, text, cap, 0) == SettledAfter(0);
    assert [] + l.once(text).diagnostics == l.once(text).diagnostics;
  }

  // ---------------------------------------------- verdicts and reports

  /** The verdict of a round in terms of its edits: settled without any, a crash if
      applying them fails, stuck if it changes nothing, and else on with what they
      make of the text. */
  lemma VerdictMeans(l: Linter, text: Bytes)
    ensures var edits, v := l.once(text).corrections, Judge(l, text);
            && (v.Settled? <==> edits == [])
            && (v.Crash? <==> edits != [] && Scan(text, Accepted(edits), 0) == None)
            && (v.Stuck? <==> edits != [] && Scan(text, Accepted(edits), 0) == Some(text))
            && (forall next :: v == Continue(next) <==>
                                 edits != [] && next != text && Scan(text, Accepted(edits), 0) == Some(next))
  {
  }

  lemma {:induction false} CorrectedHas(ds: seq<Diagnostic>, d: Diagnostic)
    ensures d in Corrected(ds) <==> d in ds && d.corrected
  {
    if ds != [] { CorrectedHas(ds[1..], d); }
  }

  lemma {:induction false} GatheredHas(l: Linter, original: Bytes, n: nat, d: Diagnostic)
    requires n > 0 ==> Orbit(l, original, n - 1).Some?
    ensures d in Gathered(l, original, n) <==>
            exists k: nat :: k < n && Orbit(l, original, k).Some?
                             && d in l.once(Orbit(l, original, k).value).diagnostics && d.corrected
  {
    if n > 0 {
      if n > 1 { PrefixClosed(Step(l), original, n - 2, n - 1); }
      GatheredHas(l, original, n - 1, d);
      CorrectedHas(l.once(Orbit(l, original, n - 1).value).diagnostics, d);
    }
  }

  /** What is reported: of every pass but the last the diagnostics marked corrected,
      and of the last, made on the settled text or after the cap, all of them. A
      stuck run has no such last pass. */
  lemma WhatIsReported(l: Linter, original: Bytes, cap: nat, r: Outcome, d: Diagnostic)
    requires ReturnsAs(l, original, cap, ExitFrom(l, original, cap, 0), r) && r.Finished?
    ensures var exit := ExitFrom(l, original, cap, 0);
            var last := if exit == CapReached then cap else exit.n;
            && Orbit(l, original, last).Some?
            && (d in r.diagnostics <==>
                  || (exists k: nat :: k < last && Orbit(l, original, k).Some?
                                       && d in l.once(Orbit(l, original, k).value).diagnostics && d.corrected)
                  || (exit.CapReached? && d in l.onceOff(Orbit(l, original, last).value))
                  || (!exit.CapReached? && d in l.once(Orbit(l, original, last).value).diagnostics
                      && (exit.SettledAfter? || d.corrected)))
  {
    ExitIsFirstStop(l, original, cap, 0);
    var exit := ExitFrom(l, original, cap, 0);
    var last := if exit == CapReached then cap else exit.n;
    if last > 0 { PrefixClosed(Step(l), original, last - 1, last); }
    GatheredHas(l, original, last, d);
    if exit.StuckAfter? { CorrectedHas(l.once(Orbit(l, original, last).value).diagnostics, d); }
  }

  // ------------------------------------------- reported but not written

  /** The loop reaches every round of the orbit. */
  lemma {:induction false} ExitFromRound(l: Linter, original: Bytes, cap: nat, n: nat)
    requires n <= cap && Orbit(l, original, n).Some?
    ensures ExitFrom(l, original, cap, 0) == ExitFrom(l, original, cap, n)
    decreases n
  {
    if n > 0 {
      PrefixClosed(Step(l), original, n - 1, n);
      ExitFromRound(l, original, cap, n - 1);
      assert Judge(l, Orbit(l, original, n - 1).value).Continue?;
    }
  }

  /** Round n is run and ends with the given verdict. */
  ghost predicate RoundEnds(l: Linter, original: Bytes, n: nat, v: Verdict) {
    Orbit(l, original, n).Some? && Judge(l, Orbit(l, original, n).value) == v
  }

  lemma ExitByRound(l: Linter, original: Bytes, cap: nat, n: nat)
    requires n < cap
    ensures ExitFrom(l, original, cap, 0) == SettledAfter(n) <==> RoundEnds(l, original, n, Settled)
    ensures ExitFrom(l, original, cap, 0) == StuckAfter(n) <==> RoundEnds(l, original, n, Stuck)
  {
    ExitIsFirstStop(l, original, cap, 0);
    if Orbit(l, original, n).Some? {
      ExitFromRound(l, original, cap, n);
    }
  }

  lemma ExitByCap(l: Linter, original: Bytes, cap: nat)
    ensures ExitFrom(l, original, cap, 0) == CapReached <==> Orbit(l, original, cap).Some?
  {
    ExitIsFirstStop(l, original, cap, 0);
    if Orbit(l, original, cap).Some? {
      ExitFromRound(l, original, cap, cap);
    }
  }

  ghost predicate HasMarked(ds: seq<Diagnostic>) {
    exists d :: d in ds && d.corrected
  }

  /** What a pass on the text after k rounds reports; the one after the last
      allowed round is made with autocorrect off. */
  function PassReport(l: Linter, cap: nat, k: nat, text: Bytes): seq<Diagnostic> {
    if k < cap then l.once(text).diagnostics else l.onceOff(text)
  }

  /** Pass number k is made and marks a diagnostic. */
  ghost predicate PassMarks(l: Linter, original: Bytes, cap: nat, k: nat) {
    && k <= cap && Orbit(l, original, k).Some?
    && HasMarked(PassReport(l, cap, k, Orbit(l, original, k).value))
  }

  /** Why a run that finishes writes nothing. */
  ghost predicate WritesNothing(l: Linter, original: Bytes, cap: nat) {
    // some round's edits changed nothing
    || (exists n: nat :: n < cap && RoundEnds(l, original, n, Stuck))
    // the original proposes no edits
    || (cap > 0 && RoundEnds(l, original, 0, Settled))
    // settled later, on a text that does not parse
    || (exists n: nat :: 1 <= n < cap && RoundEnds(l, original, n, Settled) && !l.parses(Orbit(l, original, n).value))
    // back at the original at the cap, or there on a text that does not parse
    || Orbit(l, original, cap) == Some(original)
    || (Orbit(l, original, cap).Some? && !l.parses(Orbit(l, original, cap).value))
  }

  lemma {:induction false} CorrectedShows(ds: seq<Diagnostic>)
    ensures Corrected(ds) != [] <==> HasMarked(ds)
  {
    if ds != [] {
      CorrectedShows(ds[1..]);
      assert forall d :: d in ds <==> d == ds[0] || d in ds[1..];
    }
  }

  lemma {:induction false} AllCorrected(ds: seq<Diagnostic>)
    ensures Corrected(Corrected(ds)) == Corrected(ds)
  {
    if ds != [] { AllCorrected(ds[1..]); }
  }

  lemma MarkedSplits(a: seq<Diagnostic>, b: seq<Diagnostic>)
    ensures Corrected(a + b) != [] <==> Corrected(a) != [] || HasMarked(b)
    ensures Corrected(a + Corrected(b)) != [] <==> Corrected(a) != [] || HasMarked(b)
  {
    CorrectedSplits(a, b);
    CorrectedSplits(a, Corrected(b));
    AllCorrected(b);
    CorrectedShows(b);
  }

  lemma GatheredStep(l: Linter, original: Bytes, n: nat)
    requires n > 0 && Orbit(l, original, n - 1).Some?
    ensures Corrected(Gathered(l, original, n)) != [] <==>
            Corrected(Gathered(l, original, n - 1)) != []
            || HasMarked(l.once(Orbit(l, original, n - 1).value).diagnostics)
  {
    MarkedSplits(Gathered(l, original, n - 1), l.once(Orbit(l, original, n - 1).value).diagnostics);
  }

  /** Some pass before number n marks a diagnostic. */
  ghost predicate MarksBefore(l: Linter, original: Bytes, cap: nat, n: nat) {
    exists k: nat :: k < n && PassMarks(l, original, cap, k)
  }

  /** What is gathered is marked, and there is some exactly if a pass marked it. */
  lemma {:induction false} GatheredShows(l: Linter, original: Bytes, cap: nat, n: nat)
    requires n <= cap && (n > 0 ==> Orbit(l, original, n - 1).Some?)
    ensures Corrected(Gathered(l, original, n)) != [] <==> MarksBefore(l, original, cap, n)
  {
    if n > 0 {
      if n > 1 { PrefixClosed(Step(l), original, n - 2, n - 1); }
      GatheredShows(l, original, cap, n - 1);
      GatheredStep(l, original, n);
      assert MarksBefore(l, original, cap, n) <==>
             MarksBefore(l, original, cap, n - 1) || PassMarks(l, original, cap, n - 1);
    }
  }

  /** No pass is made after the last one. */
  lemma NoPassAfter(l: Linter, original: Bytes, cap: nat, n: nat)
    requires n <= cap && (n < cap ==> Orbit(l, original, n + 1).None?)
    ensures (exists k: nat :: PassMarks(l, original, cap, k)) <==>
            MarksBefore(l, original, cap, n) || PassMarks(l, original, cap, n)
  {
    forall k: nat | PassMarks(l, original, cap, k)
      ensures k <= n
    {
      if k > n + 1 { PrefixClosed(Step(l), original, n + 1, k); }
    }
  }

  lemma ReportShows(l: Linter, original: Bytes, cap: nat, n: nat)
    requires n <= cap && Orbit(l, original, n).Some? && (n < cap ==> Orbit(l, original, n + 1).None?)
    ensures var all := Gathered(l, original, n) + PassReport(l, cap, n, Orbit(l, original, n).value);
            Corrected(all) != [] <==> exists k: nat :: PassMarks(l, original, cap, k)
  {
    if n > 0 { PrefixClosed(Step(l), original, n - 1, n); }
    GatheredShows(l, original, cap, n);
    MarkedSplits(Gathered(l, original, n), PassReport(l, cap, n, Orbit(l, original, n).value));
    NoPassAfter(l, original, cap, n);
  }

  lemma StuckReportShows(l: Linter, original: Bytes, cap: nat, n: nat)
    requires n < cap && Orbit(l, original, n).Some? && Orbit(l, original, n + 1).None?
    ensures Corrected(Gathered(l, original, n + 1)) != [] <==> exists k: nat :: PassMarks(l, original, cap, k)
  {
    if n > 0 { PrefixClosed(Step(l), original, n - 1, n); }
    GatheredShows(l, original, cap, n);
    GatheredStep(l, original, n + 1);
    NoPassAfter(l, original, cap, n);
  }

  /** The count is positive exactly when some pass that was made marked a
      diagnostic. */
  lemma CountShows(l: Linter, original: Bytes, cap: nat, r: Outcome)
    requires ReturnsAs(l, original, cap, ExitFrom(l, original, cap, 0), r) && r.Finished?
    ensures r.correctedCount > 0 <==> exists k: nat :: PassMarks(l, original, cap, k)
  {
    ExitIsFirstStop(l, original, cap, 0);
    EarlyExitEndsOrbit(l, original, cap);
    match ExitFrom(l, original, cap, 0)
    case SettledAfter(n) => ReportShows(l, original, cap, n);
    case StuckAfter(n) => StuckReportShows(l, original, cap, n);
    case CapReached => ReportShows(l, original, cap, cap);
  }

  lemma NothingShows(l: Linter, original: Bytes, cap: nat, r: Outcome)
    requires ReturnsAs(l, original, cap, ExitFrom(l, original, cap, 0), r) && r.Finished?
    ensures r.bytes == None <==> WritesNothing(l, original, cap)
  {
    ExitIsFirstStop(l, original, cap, 0);
    ExitByCap(l, original, cap);
    forall n: nat | n < cap
      ensures ExitFrom(l, original, cap, 0) == SettledAfter(n) <==> RoundEnds(l, original, n, Settled)
      ensures ExitFrom(l, original, cap, 0) == StuckAfter(n) <==> RoundEnds(l, original, n, Stuck)
    {
      ExitByRound(l, original, cap, n);
    }
    assert Orbit(l, original, 0) == Some(original);
    match ExitFrom(l, original, cap, 0)
    case SettledAfter(n) =>
      if n > 0 { SettlingChangesText(l, original, cap, n, r); }
    case _ =>
  }

  /** A run that finishes reports offenses as corrected and writes nothing exactly
      when some pass it makes marks a diagnostic and one of the reasons for not
      writing holds; both can be read off the texts the rounds go through. */
  lemma ReportedButNotWritten(l: Linter, original: Bytes, cap: nat, r: Outcome)
    requires ReturnsAs(l, original, cap, ExitFrom(l, original, cap, 0), r)
    ensures r.Panicked? <==> exists n: nat :: n < cap && RoundEnds(l, original, n, Crash)
    ensures r.Finished? && r.bytes == None && r.correctedCount > 0 <==>
            && !(exists n: nat :: n < cap && RoundEnds(l, original, n, Crash))
            && (exists k: nat :: PassMarks(l, original, cap, k))
            && WritesNothing(l, original, cap)
  {
    ExitIsFirstStop(l, original, cap, 0);
    forall n: nat | n < cap && RoundEnds(l, original, n, Crash)
      ensures r.Panicked?
    {
      ExitFromRound(l, original, cap, n);
    }
    if r.Panicked? {
      var n := ExitFrom(l, original, cap, 0).n;
      assert RoundEnds(l, original, n, Crash);
    } else {
      CountShows(l, original, cap, r);
      NothingShows(l, original, cap, r);
    }
  }

  const MARKED := Diagnostic("a.rb", 1, 0, Convention, "A/B", "m", true)

  /** Rewrites "a" to "b", then keeps proposing to rewrite "b" to itself. */
  function StubbornLinter(): Linter {
    Linter(
      text =>
        if text == [97] then LintPass([MARKED], [Edit(0, 1, [98], "A/B", 0)])
        else if text == [98] then LintPass([], [Edit(0, 1, [98], "A/B", 0)])
        else LintPass([], []),
      text => [],
      text => true)
  }

  /** A stuck run drops the text its earlier rounds produced, yet reports their
      diagnostics as corrected. */
  lemma StuckRunForgetsProgress(r: Outcome)
    requires ReturnsAs(StubbornLinter(), [97], 200, ExitFrom(StubbornLinter(), [97], 200, 0), r)
    ensures r == Finished([MARKED], None, 1)
    ensures Orbit(StubbornLinter(), [97], 1) == Some([98])
  {
    var l := StubbornLinter();
    var a: Bytes, b: Bytes := [97], [98];
    OneEdit(a, b);
    OneEdit(b, b);
    assert Judge(l, a) == Continue(b);
    assert Judge(l, b) == Stuck;
    assert Orbit(l, a, 0) == Some(a);
    assert Step(l)(a) == Some(b);
    assert Orbit(l, a, 1) == Some(b);
    assert ExitFrom(l, a, 200, 1) == StuckAfter(1);
    assert ExitFrom(l, a, 200, 0) == StuckAfter(1);
    assert Gathered(l, a, 1) == [] + Corrected(l.once(a).diagnostics) == [MARKED];
    assert Gathered(l, a, 2) == [MARKED];
  }

  /** Rewrites "a" to "b" and "b" to "a". */
  function FlipLinter(): Linter {
    Linter(
      text =>
        if text == [97] then LintPass([MARKED], [Edit(0, 1, [98], "A/B", 0)])
        else if text == [98] then LintPass([MARKED], [Edit(0, 1, [97], "A/B", 0)])
        else LintPass([], []),
      text => [],
      text => true)
  }

  /** Corrections that undo each other: 200 rounds, offenses reported corrected,
      nothing written. */
  lemma FlippingWritesNothing(r: Outcome)
    requires ReturnsAs(FlipLinter(), [97], 2 * 100, ExitFrom(FlipLinter(), [97], 2 * 100, 0), r)
    ensures r.Finished? && r.bytes == None && r.correctedCount > 0
    ensures Orbit(FlipLinter(), [97], 2) == Some([97]) && Orbit(FlipLinter(), [97], 1) == Some([98])
  {
    FlipTurns();
    FlipsWriteNothing(100, r);
  }

  lemma FlipTurns()
    ensures Orbit(FlipLinter(), [97], 2) == Some([97]) && Orbit(FlipLinter(), [97], 1) == Some([98])
  {
    var l := FlipLinter();
    var a: Bytes, b: Bytes := [97], [98];
    OneEdit(a, b);
    OneEdit(b, a);
    assert Judge(l, a) == Continue(b) && Judge(l, b) == Continue(a);
    assert Orbit(l, a, 0) == Some(a) && Step(l)(a) == Some(b) && Step(l)(b) == Some(a);
    assert Orbit(l, a, 1) == Some(b);
  }

  lemma FlipsWriteNothing(laps: nat, r: Outcome)
    requires laps > 0 && Orbit(FlipLinter(), [97], 2) == Some([97])
    requires ReturnsAs(FlipLinter(), [97], 2 * laps, ExitFrom(FlipLinter(), [97], 2 * laps, 0), r)
    ensures r.Finished? && r.bytes == None && r.correctedCount > 0
  {
    var l := FlipLinter();
    CycleWritesNothing(l, [97], 2, laps, r);
    CountShows(l, [97], 2 * laps, r);
    assert Orbit(l, [97], 0) == Some([97]);
    assert MARKED in l.once([97]).diagnostics;
    assert PassMarks(l, [97], 2 * laps, 0);
  }

  lemma OneEdit(text: Bytes, result: Bytes)
    requires |text| == 1 && |result| == 1
    ensures Scan(text, Accepted([Edit(0, 1, result, "A/B", 0)]), 0) == Some(result)
  {
    var e := Edit(0, 1, result, "A/B", 0);
    assert StableSort([e]) == Insert(e, []) == [e];
    assert [e][1..] == [];
    assert Filter([e][1..], 1) == [];
    assert Filter([e], 0) == [e];
    assert text == [text[0]];
    SingleScan(text[0], e);
  }
}
