/** The delta reducer as a whole (scripts/reduce_mismatch.py): the memoised
    interest check, the three phases as the program runs them, and what the
    reduced file is worth. */
module Reducer {
  import opened Basics
  import opened Subsequence
  import opened Text
  import opened Brackets
  import opened LineReduction
  import B = BlockReduction
  import S = StructureReduction

  /** File contents of a candidate. */
  function Render(lines: Lines): string {
    if lines == [] then "" else Join(lines, '\n') + "\n"
  }

  /** The memo never confuses two candidates: lines come from splitting at line
      breaks, so different candidates have different texts. */
  lemma RenderIsInjective(a: Lines, b: Lines)
    requires (forall l :: l in a ==> '\n' !in l) && (forall l :: l in b ==> '\n' !in l)
    requires Render(a) == Render(b)
    ensures a == b
  {
    if a != [] && b != [] {
      var x, y := Join(a, '\n'), Join(b, '\n');
      assert x == (x + "\n")[..|x|] && y == (y + "\n")[..|y|];
      SplitJoin(a, '\n');
      SplitJoin(b, '\n');
    }
  }

  /** `is_interesting` with its memo. `check` stands for running both tools on a
      file with the given text. */
  class Tester {
    const check: string -> bool
    var memo: map<string, bool>
    var calls: nat
    ghost var asked: nat

    /** The memo only holds true answers, and the tools have run once for each
        distinct text. */
    ghost predicate Valid()
      reads this
    {
      && (forall text :: text in memo ==> memo[text] == check(text))
      && calls == |memo| <= asked
    }

    constructor (check: string -> bool)
      ensures Valid() && this.check == check && calls == 0 && asked == 0
    {
      this.check := check;
      memo := map[];
      calls := 0;
      asked := 0;
    }

    /** Interest as a property of the lines. */
    function Accepts(): Lines -> bool {
      lines => check(Render(lines))
    }

    method IsInteresting(candidate: Lines) returns (interesting: bool)
      requires Valid()
      modifies this
      ensures Valid() && asked == old(asked) + 1
      ensures interesting == Accepts()(candidate)
      ensures memo.Keys == old(memo.Keys) + {Render(candidate)}
    {
      var text := Render(candidate);
      asked := asked + 1;
      if text in memo {
        return memo[text];
      }
      calls := calls + 1;
      interesting := check(text);
      memo := memo[text := interesting];
    }
  }

  // ---------------------------------------------------------------- phase 0

  /** What is still to come from span i on, with the checks made so far. */
  ghost predicate SpansLeft(p: Lines -> bool, lines: Lines, all: S.Attempt, made: int, spans: seq<Stretch>, i: nat)
    requires i <= |spans|
  {
    var rest := S.FirstRemovable(p, lines, spans[i..]);
    all.accepted == rest.accepted && all.tests == made + rest.tests
  }

  lemma SpansTurn(p: Lines -> bool, lines: Lines, all: S.Attempt, made: int, spans: seq<Stretch>, i: nat)
    requires i < |spans| && SpansLeft(p, lines, all, made, spans, i)
    ensures var c := S.Cut(lines, spans[i]);
            if c == [] then SpansLeft(p, lines, all, made, spans, i + 1)
            else if p(c) then all.accepted == Some(spans[i]) && all.tests == made + 1
            else SpansLeft(p, lines, all, made + 1, spans, i + 1)
  {
    assert spans[i..][1..] == spans[i+1..] && spans[i..][0] == spans[i];
  }

  lemma SpansEnds(p: Lines -> bool, lines: Lines, spans: seq<Stretch>)
    ensures SpansLeft(p, lines, S.FirstRemovable(p, lines, spans), 0, spans, 0)
    ensures S.FirstRemovable(p, lines, spans[|spans|..]) == S.Attempt(None, 0)
  {
    assert spans[0..] == spans;
  }

  method TrySpans(t: Tester, lines: Lines, spans: seq<Stretch>) returns (accepted: Option<Stretch>)
    requires t.Valid()
    modifies t
    ensures t.Valid()
    ensures accepted == S.FirstRemovable(t.Accepts(), lines, spans).accepted
    ensures t.asked == old(t.asked) + S.FirstRemovable(t.Accepts(), lines, spans).tests
  {
    ghost var p := t.Accepts();
    ghost var all := S.FirstRemovable(p, lines, spans);
    SpansEnds(p, lines, spans);
    var i := 0;
    while i < |spans|
      invariant 0 <= i <= |spans| && t.Valid()
      invariant SpansLeft(p, lines, all, t.asked - old(t.asked), spans, i)
    {
      SpansTurn(p, lines, all, t.asked - old(t.asked), spans, i);
      var candidate := S.Cut(lines, spans[i]);
      if candidate == [] {
        i := i + 1;
        continue;
      }
      var interesting := t.IsInteresting(candidate);
      if interesting {
        return Some(spans[i]);
      }
      i := i + 1;
    }
    accepted := None;
  }

  method ReduceStructure(t: Tester, original: Lines) returns (lines: Lines)
    requires t.Valid()
    modifies t
    ensures t.Valid()
    ensures S.GoodFinder(S.Finder())
    ensures var o := S.ReduceSpans(S.Finder(), t.Accepts(), original);
            lines == o.lines && t.asked == old(t.asked) + o.tests
  {
    S.FinderIsGood();
    ghost var find, p := S.Finder(), t.Accepts();
    ghost var all := S.ReduceSpans(find, p, original);
    lines := original;
    var changed := true;
    while changed
      invariant t.Valid()
      invariant changed ==> all.lines == S.ReduceSpans(find, p, lines).lines
                            && old(t.asked) + all.tests == t.asked + S.ReduceSpans(find, p, lines).tests
      invariant !changed ==> all.lines == lines && old(t.asked) + all.tests == t.asked
      decreases |lines|, changed
    {
      changed := false;
      var spans := S.FindRubySpans(lines);
      spans := S.LargestFirst(spans);
      S.TryAllIsGood(find, p, lines);
      var accepted := TrySpans(t, lines, spans);
      if accepted.Some? {
        lines := S.Cut(lines, accepted.value);
        changed := true;
      }
    }
  }

  // ---------------------------------------------------------------- phase 1

  method TryChunks(t: Tester, lines: Lines, n: nat) returns (accepted: Option<Lines>)
    requires t.Valid() && 2 <= n <= |lines|
    modifies t
    ensures t.Valid()
    ensures accepted == B.Sweep(t.Accepts(), lines, n, 0).accepted
    ensures t.asked == old(t.asked) + B.Sweep(t.Accepts(), lines, n, 0).tests
  {
    ghost var p := t.Accepts();
    ghost var all := B.Sweep(p, lines, n, 0);
    var size := B.ChunkSize(|lines|, n);
    for i := 0 to n
      invariant t.Valid()
      invariant var rest := B.Sweep(p, lines, n, i);
                all.accepted == rest.accepted && old(t.asked) + all.tests == t.asked + rest.tests
    {
      B.ChunkFits(|lines|, n, i);
      var start := i * size;
      var end := if i < n - 1 then start + size else |lines|;
      var candidate := lines[..start] + lines[end..];
      assert candidate == B.Candidate(lines, n, i);
      if candidate == [] {
        assert false;
      }
      var interesting := t.IsInteresting(candidate);
      if interesting {
        return Some(candidate);
      }
    }
    accepted := None;
  }

  /** What is still to come from `lines` and `n`, with the checks made so far. */
  ghost predicate BlocksLeft(p: Lines -> bool, all: Outcome, made: int, lines: Lines, n: nat)
    requires n >= 2
  {
    var rest := B.Ddmin(p, lines, n);
    all.lines == rest.lines && all.tests == made + rest.tests
  }

  lemma BlocksTurn(p: Lines -> bool, all: Outcome, made: int, lines: Lines, n: nat, next: Lines, accepted: bool, tests: nat)
    requires 2 <= n <= |lines| && BlocksLeft(p, all, made, lines, n)
    requires var sweep := B.Sweep(p, lines, n, 0);
             && accepted == sweep.accepted.Some? && tests == sweep.tests
             && next == if accepted then sweep.accepted.value else lines
    ensures BlocksLeft(p, all, made + tests, next, B.NextN(n, accepted))
    ensures accepted ==> |next| < |lines|
  {
    B.DdminTurn(p, lines, n);
  }

  lemma BlocksDone(p: Lines -> bool, all: Outcome, made: int, lines: Lines, n: nat)
    requires n > |lines| && n >= 2 && BlocksLeft(p, all, made, lines, n)
    ensures all.lines == lines && all.tests == made
  {
  }

  method BlockTurn(t: Tester, original: Lines, n: nat, ghost all: Outcome, ghost made: int)
    returns (lines: Lines, next: nat)
    requires t.Valid() && 2 <= n <= |original| && BlocksLeft(t.Accepts(), all, made, original, n)
    modifies t
    ensures t.Valid() && next >= 2
    ensures BlocksLeft(t.Accepts(), all, made + t.asked - old(t.asked), lines, next)
    ensures |lines| < |original| || (lines == original && next == 2 * n)
  {
    ghost var p := t.Accepts();
    var accepted := TryChunks(t, original, n);
    lines, next := original, n * 2;
    if accepted.Some? {
      lines, next := accepted.value, if n - 1 > 2 then n - 1 else 2;
    }
    BlocksTurn(p, all, made, original, n, lines, accepted.Some?, B.Sweep(p, original, n, 0).tests);
  }

  method ReduceBlocks(t: Tester, original: Lines) returns (lines: Lines)
    requires t.Valid()
    modifies t
    ensures t.Valid()
    ensures var o := B.Ddmin(t.Accepts(), original, 2);
            lines == o.lines && t.asked == old(t.asked) + o.tests
  {
    ghost var all := B.Ddmin(t.Accepts(), original, 2);
    lines := original;
    var n := 2;
    while n <= |lines|
      invariant n >= 2 && t.Valid()
      invariant BlocksLeft(t.Accepts(), all, t.asked - old(t.asked), lines, n)
      decreases |lines|, |lines| - n
    {
      lines, n := BlockTurn(t, lines, n, all, t.asked - old(t.asked));
    }
    BlocksDone(t.Accepts(), all, t.asked - old(t.asked), lines, n);
  }

  // ---------------------------------------------------------------- phase 2

  method ReduceLines(t: Tester, original: Lines) returns (lines: Lines)
    requires t.Valid()
    modifies t
    ensures t.Valid()
    ensures var o := LinePass(t.Accepts(), original, []);
            lines == o.lines && t.asked == old(t.asked) + o.tests
  {
    ghost var p := t.Accepts();
    ghost var all := LinePass(p, original, []);
    lines := original;
    var i := |lines| - 1;
    assert original[..i+1] == original && original[i+1..] == [];
    while i >= 0
      invariant -1 <= i < |lines| && t.Valid()
      invariant var rest := LinePass(p, lines[..i+1], lines[i+1..]);
                all.lines == rest.lines && old(t.asked) + all.tests == t.asked + rest.tests
    {
      ghost var head, tail := lines[..i+1], lines[i+1..];
      assert head[..|head|-1] == lines[..i] && head[|head|-1] == lines[i];
      assert [lines[i]] + tail == lines[i..];
      var candidate := lines[..i] + lines[i+1..];
      if candidate == [] {
        i := i - 1;
        continue;
      }
      var interesting := t.IsInteresting(candidate);
      if interesting {
        assert candidate[..i] == lines[..i] && candidate[i..] == tail;
        lines := candidate;
      }
      i := i - 1;
    }
    assert lines[..0] == [] && lines[0..] == lines;
  }

  // ------------------------------------------------------------ all of it

  /** The three phases in a row, for any span finder. */
  function Phases(find: Lines -> seq<Stretch>, p: Lines -> bool, original: Lines): Outcome
    requires S.GoodFinder(find)
  {
    var zero := S.ReduceSpans(find, p, original);
    var one := B.Ddmin(p, zero.lines, 2);
    var two := LinePass(p, one.lines, []);
    Outcome(two.lines, zero.tests + one.tests + two.tests)
  }

  function ReduceAll(p: Lines -> bool, original: Lines): Outcome {
    S.FinderIsGood();
    Phases(S.Finder(), p, original)
  }

  lemma PhaseZero(find: Lines -> seq<Stretch>, p: Lines -> bool, original: Lines) returns (zero: Outcome)
    requires S.GoodFinder(find)
    ensures zero == S.ReduceSpans(find, p, original)
    ensures Sub(zero.lines, original) && |zero.lines| <= |original|
    ensures (zero.lines == original || p(zero.lines)) && (original != [] ==> zero.lines != [])
    ensures zero.tests <= S.SpanBudget(|original|)
  {
    zero := S.ReduceSpans(find, p, original);
    S.ReduceSpansShrinks(find, p, original);
    S.ReduceSpansTests(find, p, original);
    SubLength(zero.lines, original);
  }

  lemma PhaseOne(p: Lines -> bool, lines: Lines, n: nat) returns (one: Outcome)
    requires |lines| <= n
    ensures one == B.Ddmin(p, lines, 2)
    ensures Sub(one.lines, lines) && |one.lines| <= |lines|
    ensures (one.lines == lines || p(one.lines)) && (lines != [] ==> one.lines != [])
    ensures one.tests <= n * (n + 1)
  {
    one := B.Ddmin(p, lines, 2);
    B.DdminShrinks(p, lines, 2);
    B.DdminIsQuadratic(p, lines);
    SubLength(one.lines, lines);
    Scale(|lines|, n, |lines| + 1);
    Scale(|lines| + 1, n + 1, n);
  }

  lemma PhaseTwo(p: Lines -> bool, lines: Lines, original: Lines) returns (two: Outcome)
    requires Sub(lines, original)
    ensures two == LinePass(p, lines, [])
    ensures Sub(two.lines, lines)
    ensures (two.lines == lines || p(two.lines)) && (lines != [] ==> two.lines != [])
    ensures two.tests <= |lines|
    ensures MonotoneWithin(p, original) ==> Minimal(p, two.lines)
  {
    two := LinePass(p, lines, []);
    assert lines + [] == lines;
    LinePassShrinks(p, lines, []);
    if MonotoneWithin(p, original) {
      forall a, b | a != [] && Sub(a, b) && Sub(b, lines) && p(a)
        ensures p(b)
      {
        SubTrans(b, lines, original);
      }
      LinePassIsMinimal(p, lines);
    }
  }

  /** The reduced file keeps some of the lines in their order, is interesting unless
      nothing was deleted, is not empty unless the original was, and for a predicate
      monotone within the original is a smallest reproduction; a file of N lines
      costs at most k(k + 1)/2 + N(N + 1) + N checks, k = N / 2. */
  ghost predicate SoundReduction(p: Lines -> bool, original: Lines, r: Outcome) {
    && Sub(r.lines, original)
    && (r.lines == original || p(r.lines))
    && (original != [] ==> r.lines != [])
    && (MonotoneWithin(p, original) ==> Minimal(p, r.lines))
    && r.tests <= S.SpanBudget(|original|) + |original| * (|original| + 1) + |original|
  }

  /** What the phases promise of themselves adds up. */
  lemma PhasesAddUp(p: Lines -> bool, original: Lines, zero: Outcome, one: Outcome, two: Outcome)
    requires Sub(zero.lines, original) && |zero.lines| <= |original|
    requires Sub(one.lines, zero.lines) && |one.lines| <= |zero.lines| && Sub(two.lines, one.lines)
    requires (zero.lines == original || p(zero.lines)) && (one.lines == zero.lines || p(one.lines))
    requires two.lines == one.lines || p(two.lines)
    requires original != [] ==> zero.lines != [] && one.lines != [] && two.lines != []
    requires MonotoneWithin(p, original) ==> Minimal(p, two.lines)
    requires zero.tests <= S.SpanBudget(|original|) && one.tests <= |original| * (|original| + 1)
    requires two.tests <= |one.lines|
    ensures SoundReduction(p, original, Outcome(two.lines, zero.tests + one.tests + two.tests))
  {
    SubTrans(one.lines, zero.lines, original);
    SubTrans(two.lines, one.lines, original);
  }

  lemma PhasesAreSound(find: Lines -> seq<Stretch>, p: Lines -> bool, original: Lines)
    requires S.GoodFinder(find)
    ensures SoundReduction(p, original, Phases(find, p, original))
  {
    var zero := PhaseZero(find, p, original);
    var one := PhaseOne(p, zero.lines, |original|);
    SubTrans(one.lines, zero.lines, original);
    var two := PhaseTwo(p, one.lines, original);
    PhasesAddUp(p, original, zero, one, two);
  }

  lemma ReductionIsSound(p: Lines -> bool, original: Lines)
    ensures SoundReduction(p, original, ReduceAll(p, original))
  {
    S.FinderIsGood();
    PhasesAreSound(S.Finder(), p, original);
  }

  /** The program: the tools run at most once per distinct candidate. */
  method Reduce(t: Tester, original: Lines) returns (lines: Lines)
    requires t.Valid()
    modifies t
    ensures t.Valid()
    ensures lines == ReduceAll(t.Accepts(), original).lines
    ensures t.asked == old(t.asked) + ReduceAll(t.Accepts(), original).tests
  {
    lines := ReduceStructure(t, original);
    lines := ReduceBlocks(t, lines);
    lines := ReduceLines(t, lines);
  }
}
