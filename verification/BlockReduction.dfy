/** The middle phase of the delta reducer (scripts/reduce_mismatch.py,
    `reduce_blocks`): ddmin over ever finer chunks. */
module BlockReduction {
  import opened Basics
  import opened Subsequence
  import opened LineReduction

  /** `max(1, len(lines) // n)`. */
  function ChunkSize(len: nat, n: nat): (c: nat)
    requires n > 0
    ensures c >= 1
  {
    if len / n > 1 then len / n else 1
  }

  function ChunkStart(len: nat, n: nat, i: nat): nat
    requires n > 0
  {
    i * ChunkSize(len, n)
  }

  function ChunkEnd(len: nat, n: nat, i: nat): nat
    requires n > 0
  {
    if i < n - 1 then ChunkStart(len, n, i) + ChunkSize(len, n) else len
  }

  /** Chunks lie inside the file, none is the whole file, and what is left keeps
      at least n - 1 lines. */
  lemma ChunkFits(len: nat, n: nat, i: nat)
    requires 2 <= n <= len && i < n
    ensures ChunkStart(len, n, i) < ChunkEnd(len, n, i) <= len
    ensures ChunkStart(len, n, i) + (len - ChunkEnd(len, n, i)) >= n - 1
  {
    var c := ChunkSize(len, n);
    DivisionBound(len, n);
    Scale(i, n - 1, c);
    assert n * c == (n - 1) * c + c;
    Scale(1, c, n - 1);
    assert 1 * (n - 1) <= c * (n - 1);
  }

  lemma DivisionBound(len: nat, n: nat)
    requires 1 <= n <= len
    ensures n * ChunkSize(len, n) <= len
  {
    assert n * (len / n) + len % n == len;
  }

  function Candidate(lines: Lines, n: nat, i: nat): (r: Lines)
    requires 2 <= n <= |lines| && i < n
    ensures n - 1 <= |r| < |lines|
  {
    ChunkFits(|lines|, n, i);
    lines[..ChunkStart(|lines|, n, i)] + lines[ChunkEnd(|lines|, n, i)..]
  }

  lemma CandidateIsSub(lines: Lines, n: nat, i: nat)
    requires 2 <= n <= |lines| && i < n
    ensures Sub(Candidate(lines, n, i), lines)
  {
    ChunkFits(|lines|, n, i);
    CutIsSub(lines, ChunkStart(|lines|, n, i), ChunkEnd(|lines|, n, i));
  }

  datatype SweepResult = SweepResult(accepted: Option<Lines>, tests: nat)

  /** Try the chunks from number i on; stop at the first that can go. No
      candidate is ever empty, so none is skipped. */
  function Sweep(p: Lines -> bool, lines: Lines, n: nat, i: nat): SweepResult
    requires 2 <= n <= |lines| && i <= n
    decreases n - i
  {
    if i == n then SweepResult(None, 0)
    else
      var candidate := Candidate(lines, n, i);
      if p(candidate) then SweepResult(Some(candidate), 1)
      else
        var rest := Sweep(p, lines, n, i + 1);
        SweepResult(rest.accepted, rest.tests + 1)
  }

  /** Chunk number j is the first, from number i on, that can go. */
  ghost predicate FirstToGo(p: Lines -> bool, lines: Lines, n: nat, i: nat, j: nat)
    requires 2 <= n <= |lines| && i <= j < n
  {
    p(Candidate(lines, n, j)) && forall k :: i <= k < j ==> !p(Candidate(lines, n, k))
  }

  lemma {:induction false} SweepFindsFirst(p: Lines -> bool, lines: Lines, n: nat, i: nat)
    requires 2 <= n <= |lines| && i <= n
    ensures var r := Sweep(p, lines, n, i);
            && r.tests <= n - i
            && (r.accepted.None? <==> forall j :: i <= j < n ==> !p(Candidate(lines, n, j)))
            && (r.accepted.Some? ==>
                  && p(r.accepted.value) && Sub(r.accepted.value, lines)
                  && n - 1 <= |r.accepted.value| < |lines|)
    decreases n - i
  {
    if i < n {
      CandidateIsSub(lines, n, i);
      if !p(Candidate(lines, n, i)) {
        SweepFindsFirst(p, lines, n, i + 1);
      }
    }
  }

  /** What is accepted is the first chunk that can go, after one test for each up to
      it. */
  lemma {:induction false} SweepTakesFirst(p: Lines -> bool, lines: Lines, n: nat, i: nat, j: nat)
    requires 2 <= n <= |lines| && i <= j < n && FirstToGo(p, lines, n, i, j)
    ensures Sweep(p, lines, n, i) == SweepResult(Some(Candidate(lines, n, j)), j - i + 1)
    decreases j - i
  {
    if i < j { SweepTakesFirst(p, lines, n, i + 1, j); }
  }

  /** The chunks tile the file: each starts where the one before ends, all but the
      last are as long as the file divided by their number, and the last takes the
      remainder as well. */
  lemma ChunksTile(len: nat, n: nat, i: nat)
    requires 2 <= n <= len && i < n
    ensures ChunkStart(len, n, 0) == 0
    ensures i + 1 < n ==> ChunkEnd(len, n, i) == ChunkStart(len, n, i + 1)
    ensures i + 1 == n ==> ChunkEnd(len, n, i) == len
    ensures ChunkEnd(len, n, i) - ChunkStart(len, n, i) == len / n + (if i + 1 == n then len % n else 0)
  {
    WholeChunks(len, n);
    assert (i + 1) * (len / n) == i * (len / n) + len / n;
    if i + 1 == n {
      assert n * (len / n) == (n - 1) * (len / n) + len / n;
    }
  }

  lemma WholeChunks(len: nat, n: nat)
    requires 1 <= n <= len
    ensures ChunkSize(len, n) == len / n && len == n * (len / n) + len % n
  {
    DivisionBound(len, n);
    assert len / n >= 1;
  }

  /** How many chunks the next sweep uses. */
  function NextN(n: nat, accepted: bool): nat {
    if !accepted then 2 * n else if n - 1 > 2 then n - 1 else 2
  }

  /** The loop. Each acceptance shrinks the file; each refusal doubles n. */
  function Ddmin(p: Lines -> bool, lines: Lines, n: nat): Outcome
    requires n >= 2
    decreases |lines|, if n <= |lines| then |lines| - n + 1 else 0
  {
    if n > |lines| then Outcome(lines, 0)
    else
      SweepFindsFirst(p, lines, n, 0);
      var sweep := Sweep(p, lines, n, 0);
      var rest :=
        match sweep.accepted
        case Some(candidate) => Ddmin(p, candidate, NextN(n, true))
        case None => Ddmin(p, lines, NextN(n, false));
      Outcome(rest.lines, sweep.tests + rest.tests)
  }

  /** One turn of the loop. */
  lemma DdminTurn(p: Lines -> bool, lines: Lines, n: nat)
    requires 2 <= n <= |lines|
    ensures var sweep := Sweep(p, lines, n, 0);
            var next := if sweep.accepted.Some? then sweep.accepted.value else lines;
            && (sweep.accepted.Some? ==> n - 1 <= |next| < |lines|)
            && Ddmin(p, lines, n).lines == Ddmin(p, next, NextN(n, sweep.accepted.Some?)).lines
            && Ddmin(p, lines, n).tests == sweep.tests + Ddmin(p, next, NextN(n, sweep.accepted.Some?)).tests
  {
    SweepFindsFirst(p, lines, n, 0);
  }

  lemma {:induction false} DdminShrinks(p: Lines -> bool, lines: Lines, n: nat)
    requires n >= 2
    ensures var r := Ddmin(p, lines, n).lines;
            Sub(r, lines) && (lines != [] ==> r != []) && (r == lines || p(r))
    decreases |lines|, if n <= |lines| then |lines| - n + 1 else 0
  {
    if n > |lines| {
      SubRefl(lines);
    } else {
      SweepFindsFirst(p, lines, n, 0);
      match Sweep(p, lines, n, 0).accepted
      case Some(candidate) =>
        DdminShrinks(p, candidate, NextN(n, true));
        SubTrans(Ddmin(p, candidate, NextN(n, true)).lines, candidate, lines);
      case None =>
        DdminShrinks(p, lines, NextN(n, false));
    }
  }

  /** Tests that may still be needed, doubled: L(L + 1) + 2L - 2n. A refused
      sweep costs at most n and doubles n; an accepted one costs at most n <= L
      and gives up a line. */
  function Budget(len: nat, n: nat): int {
    len * (len + 1) + 2 * len - 2 * n
  }

  lemma BudgetDrops(len: nat, less: nat)
    requires less < len
    ensures less * (less + 1) + 2 * less <= len * (len + 1) + 2 * len - 2 * len - 2
  {
    assert less * (less + 1) <= (len - 1) * len by {
      assert less * (less + 1) <= less * len <= (len - 1) * len;
    }
    assert (len - 1) * len == len * len - len;
    assert len * (len + 1) == len * len + len;
  }

  lemma BudgetDone(len: nat, n: nat)
    requires len >= 1 && n <= 2 * len
    ensures Budget(len, n) >= 0
  {
    Scale(2, len + 1, len);
  }

  lemma BudgetAccepted(len: nat, less: nat, n: nat)
    requires less < len && 2 <= n <= len
    ensures 2 * n + Budget(less, NextN(n, true)) <= Budget(len, n)
  {
    BudgetDrops(len, less);
  }

  lemma {:induction false} DdminTests(p: Lines -> bool, lines: Lines, n: nat)
    requires 2 <= n <= 2 * |lines|
    ensures 2 * Ddmin(p, lines, n).tests <= Budget(|lines|, n)
    decreases |lines|, if n <= |lines| then |lines| - n + 1 else 0
  {
    if n > |lines| {
      BudgetDone(|lines|, n);
    } else {
      SweepFindsFirst(p, lines, n, 0);
      var sweep := Sweep(p, lines, n, 0);
      match sweep.accepted
      case Some(candidate) =>
        DdminTests(p, candidate, NextN(n, true));
        BudgetAccepted(|lines|, |candidate|, n);
      case None =>
        DdminTests(p, lines, NextN(n, false));
    }
  }

  /** From n = 2, a file of N lines costs at most N(N + 3)/2 - 2 tests. */
  lemma DdminIsQuadratic(p: Lines -> bool, lines: Lines)
    ensures lines == [] ==> Ddmin(p, lines, 2).tests == 0
    ensures lines != [] ==> 2 * Ddmin(p, lines, 2).tests <= |lines| * (|lines| + 3) - 4
    ensures Ddmin(p, lines, 2).tests <= |lines| * (|lines| + 1)
  {
    if lines != [] {
      DdminTests(p, lines, 2);
      var len := |lines|;
      assert len * (len + 3) == len * (len + 1) + 2 * len;
      Scale(1, len, len);
    }
  }

  /** Where the second half of the file is enough, no more than that is left: it is
      the first thing tried. */
  lemma HalfIsTried(p: Lines -> bool, lines: Lines)
    requires |lines| >= 2 && p(lines[|lines| / 2..])
    ensures |Ddmin(p, lines, 2).lines| <= |lines| - |lines| / 2
  {
    ChunksTile(|lines|, 2, 0);
    var half := lines[|lines| / 2..];
    assert Candidate(lines, 2, 0) == half;
    SweepTakesFirst(p, lines, 2, 0, 0);
    DdminTurn(p, lines, 2);
    DdminShrinks(p, half, 2);
    SubLength(Ddmin(p, half, 2).lines, half);
  }

  /** Likewise where the first half is enough and the second is not. */
  lemma OtherHalfIsTried(p: Lines -> bool, lines: Lines)
    requires |lines| >= 2 && !p(lines[|lines| / 2..]) && p(lines[..|lines| / 2])
    ensures |Ddmin(p, lines, 2).lines| <= |lines| / 2
  {
    ChunksTile(|lines|, 2, 0);
    ChunksTile(|lines|, 2, 1);
    var half := lines[..|lines| / 2];
    assert Candidate(lines, 2, 0) == lines[|lines| / 2..];
    assert Candidate(lines, 2, 1) == half;
    SweepTakesFirst(p, lines, 2, 0, 1);
    DdminTurn(p, lines, 2);
    DdminShrinks(p, half, 2);
    SubLength(Ddmin(p, half, 2).lines, half);
  }

  /** What the last refused sweep tells about the result. */
  ghost predicate RefusedAt(p: Lines -> bool, lines: Lines, n: nat) {
    && 2 <= n <= |lines| < 2 * n
    && forall i :: 0 <= i < n ==> !p(Candidate(lines, n, i))
  }

  /** The loop ends on a single line or right after a full refused sweep of more
      than half as many chunks as there are lines. */
  lemma {:induction false} DdminEndsRefused(p: Lines -> bool, lines: Lines, n: nat)
    requires n >= 2 && lines != []
    requires n > |lines| ==> |lines| == 1 || (n % 2 == 0 && RefusedAt(p, lines, n / 2))
    ensures var r := Ddmin(p, lines, n).lines;
            |r| == 1 || exists m :: RefusedAt(p, r, m)
    decreases |lines|, if n <= |lines| then |lines| - n + 1 else 0
  {
    if n <= |lines| {
      SweepFindsFirst(p, lines, n, 0);
      match Sweep(p, lines, n, 0).accepted
      case Some(candidate) =>
        DdminEndsRefused(p, candidate, NextN(n, true));
      case None =>
        DdminEndsRefused(p, lines, NextN(n, false));
    }
  }

  /** So in the result every line of its first half is needed: deleting any one
      of the first m - 1 lines loses the mismatch, and 2m exceeds the length.
      Lines past that are only tried together, which is what the last phase is
      for. */
  lemma FirstHalfIsNeeded(p: Lines -> bool, lines: Lines)
    requires lines != []
    ensures var r := Ddmin(p, lines, 2).lines;
            |r| == 1 ||
            exists m :: 2 <= m <= |r| < 2 * m
                        && (forall i :: 0 <= i < m - 1 ==> Needed(p, r, i))
                        && !p(r[..m-1])
  {
    DdminEndsRefused(p, lines, 2);
    var r := Ddmin(p, lines, 2).lines;
    if |r| != 1 {
      var m: nat :| RefusedAt(p, r, m);
      assert ChunkSize(|r|, m) == 1 by { HalfChunk(|r|, m); }
      forall i | 0 <= i < m - 1
        ensures Needed(p, r, i)
      {
        assert Candidate(r, m, i) == Without(r, i);
      }
      assert Candidate(r, m, m - 1) == r[..m-1];
    }
  }

  lemma HalfChunk(len: nat, m: nat)
    requires m <= len < 2 * m
    ensures len / m == 1
  {
  }

  lemma RefusedFileStays(p: Lines -> bool, lines: Lines, n: nat)
    requires RefusedAt(p, lines, n)
    ensures Ddmin(p, lines, n).lines == lines
  {
    SweepFindsFirst(p, lines, n, 0);
  }

  /** ddmin alone is not 1-minimal, even for a monotone predicate: of three
      lines the last two are only ever tried together. */
  lemma DdminIsNotOneMinimal(a: string, b: string, c: string, p: Lines -> bool)
    requires a != b && forall x :: p(x) <==> x == [a, b, c] || x == [a, b]
    ensures MonotoneWithin(p, [a, b, c])
    ensures Ddmin(p, [a, b, c], 2).lines == [a, b, c]
    ensures !OneMinimal(p, [a, b, c])
  {
    var l := [a, b, c];
    forall x, y | x != [] && Sub(x, y) && Sub(y, l) && p(x)
      ensures p(y)
    {
      SubLength(x, y);
      SubLength(y, l);
      if |y| == 2 {
        assert y == x;
      }
    }
    forall i: nat | i < 2
      ensures !p(Candidate(l, 2, i))
    {
      assert ChunkSize(3, 2) == 1;
      if i == 0 {
        assert Candidate(l, 2, i) == [b, c] && [b, c][0] == b;
      } else {
        assert |Candidate(l, 2, i)| == 1;
      }
    }
    RefusedFileStays(p, l, 2);
    assert Without(l, 2) == [a, b];
    assert !Needed(p, l, 2);
  }
}
