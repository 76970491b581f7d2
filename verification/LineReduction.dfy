/** The last phase of the delta reducer (scripts/reduce_mismatch.py,
    `reduce_lines`): delete single lines as long as the mismatch stays. */
module LineReduction {
  import opened Basics
  import opened Subsequence

  type Lines = seq<string>

  /** Lines left and candidates tried. */
  datatype Outcome = Outcome(lines: Lines, tests: nat)

  /** Single pass, bottom to top: `head` is still to be tried, last line first;
      `tail` has been tried and kept. */
  function LinePass(p: Lines -> bool, head: Lines, tail: Lines): Outcome
    decreases |head|
  {
    if head == [] then Outcome(tail, 0)
    else
      var rest, line := head[..|head| - 1], head[|head| - 1];
      if rest + tail == [] then LinePass(p, rest, [line] + tail)
      else
        var r := LinePass(p, rest, if p(rest + tail) then tail else [line] + tail);
        Outcome(r.lines, r.tests + 1)
  }

  /** More of the original file never hides the mismatch; the empty file, which is
      never tried, is left out of account. */
  ghost predicate MonotoneWithin(p: Lines -> bool, original: Lines) {
    forall a, b :: a != [] && Sub(a, b) && Sub(b, original) && p(a) ==> p(b)
  }

  /** No single line can go. */
  ghost predicate OneMinimal(p: Lines -> bool, lines: Lines) {
    forall i :: 0 <= i < |lines| ==> Needed(p, lines, i)
  }

  ghost predicate Needed(p: Lines -> bool, lines: Lines, i: nat)
    requires i < |lines|
  {
    Without(lines, i) != [] ==> !p(Without(lines, i))
  }

  /** Nothing but the whole is interesting. */
  ghost predicate Minimal(p: Lines -> bool, lines: Lines) {
    forall a :: a != [] && Sub(a, lines) && p(a) ==> a == lines
  }

  lemma DropLast(head: Lines, tail: Lines)
    requires head != []
    ensures head + tail == head[..|head| - 1] + ([head[|head| - 1]] + tail)
    ensures Sub(head[..|head| - 1] + tail, head + tail)
    ensures Without(head + tail, |head| - 1) == head[..|head| - 1] + tail
  {
    var n := |head| - 1;
    CutIsSub(head + tail, n, n + 1);
    assert (head + tail)[..n] + (head + tail)[n+1..] == head[..n] + tail;
  }

  lemma {:induction false} LinePassShrinks(p: Lines -> bool, head: Lines, tail: Lines)
    ensures var r := LinePass(p, head, tail);
            && Sub(r.lines, head + tail) && r.tests <= |head|
            && (head + tail != [] ==> r.lines != [])
            && (r.lines == head + tail || p(r.lines))
    decreases |head|
  {
    if head == [] {
      assert head + tail == tail;
      SubRefl(tail);
    } else {
      var rest, line := head[..|head| - 1], head[|head| - 1];
      DropLast(head, tail);
      if rest + tail != [] && p(rest + tail) {
        LinePassShrinks(p, rest, tail);
        SubTrans(LinePass(p, rest, tail).lines, rest + tail, head + tail);
      } else {
        LinePassShrinks(p, rest, [line] + tail);
      }
    }
  }

  /** Every line of the part already tried is needed, given all of the rest. */
  ghost predicate TailNeeded(p: Lines -> bool, head: Lines, tail: Lines) {
    forall i :: |head| <= i < |head| + |tail| ==> Needed(p, head + tail, i)
  }

  lemma TailStaysNeeded(p: Lines -> bool, head: Lines, tail: Lines, original: Lines)
    requires MonotoneWithin(p, original) && Sub(head + tail, original)
    requires head != [] && TailNeeded(p, head, tail)
    ensures TailNeeded(p, head[..|head| - 1], tail)
  {
    var rest := head[..|head| - 1];
    forall i | |rest| <= i < |rest| + |tail|
      ensures Needed(p, rest + tail, i)
    {
      var small, large := Without(rest + tail, i), Without(head + tail, i + 1);
      assert Needed(p, head + tail, i + 1);
      var t := Without(tail, i - |rest|);
      assert small == rest + t;
      assert large == head + t;
      DropLast(head, t);
      WithoutIsSub(head + tail, i + 1);
      SubTrans(large, head + tail, original);
    }
  }

  lemma WithoutIsSub(lines: Lines, i: nat)
    requires i < |lines|
    ensures Sub(Without(lines, i), lines)
  {
    CutIsSub(lines, i, i + 1);
  }

  lemma {:induction false} LinePassIsOneMinimal(p: Lines -> bool, head: Lines, tail: Lines, original: Lines)
    requires MonotoneWithin(p, original) && Sub(head + tail, original)
    requires TailNeeded(p, head, tail)
    ensures OneMinimal(p, LinePass(p, head, tail).lines)
    decreases |head|
  {
    if head == [] {
      assert head + tail == tail;
    } else {
      var rest, line := head[..|head| - 1], head[|head| - 1];
      DropLast(head, tail);
      if rest + tail != [] && p(rest + tail) {
        TailStaysNeeded(p, head, tail, original);
        SubTrans(rest + tail, head + tail, original);
        LinePassIsOneMinimal(p, rest, tail, original);
      } else {
        assert Needed(p, head + tail, |head| - 1);
        LinePassIsOneMinimal(p, rest, [line] + tail, original);
      }
    }
  }

  /** For a predicate that is monotone within the file, one pass leaves a
      smallest reproduction: no proper part of the result is interesting. */
  lemma LinePassIsMinimal(p: Lines -> bool, original: Lines)
    requires MonotoneWithin(p, original)
    ensures Minimal(p, LinePass(p, original, []).lines)
  {
    var r := LinePass(p, original, []).lines;
    assert original + [] == original;
    SubRefl(original);
    LinePassIsOneMinimal(p, original, [], original);
    LinePassShrinks(p, original, []);
    forall a | a != [] && Sub(a, r) && p(a)
      ensures a == r
    {
      SubLength(a, r);
      if |a| < |r| {
        var i := SubAvoidsOne(a, r);
        assert Sub(a, Without(r, i)) && Needed(p, r, i);
        SubLength(a, Without(r, i));
        WithoutIsSub(r, i);
        SubTrans(Without(r, i), r, original);
        assert false;
      }
    }
  }

  lemma {:induction false} PassChangesNothing(p: Lines -> bool, head: Lines, tail: Lines)
    ensures LinePass(p, head, tail).lines == head + tail <==>
            forall i :: 0 <= i < |head| ==> Needed(p, head + tail, i)
    decreases |head|
  {
    if head == [] {
      assert head + tail == tail;
    } else {
      var rest, line := head[..|head| - 1], head[|head| - 1];
      DropLast(head, tail);
      if rest + tail != [] && p(rest + tail) {
        LinePassShrinks(p, rest, tail);
        SubLength(LinePass(p, rest, tail).lines, rest + tail);
        assert !Needed(p, head + tail, |rest|);
      } else {
        PassChangesNothing(p, rest, [line] + tail);
        assert Needed(p, head + tail, |rest|);
      }
    }
  }

  /** For any predicate at all, a file is 1-minimal exactly when a pass over it
      removes nothing: running the pass once more is the test. */
  lemma OneMinimalIffPassIdle(p: Lines -> bool, lines: Lines)
    ensures LinePass(p, lines, []).lines == lines <==> OneMinimal(p, lines)
  {
    assert lines + [] == lines;
    PassChangesNothing(p, lines, []);
  }

  /** Without monotonicity one pass is not enough. */
  lemma OnePassCanLeaveRemovableLine()
    ensures var p: Lines -> bool := x => x in {["a", "b", "c"], ["a", "c"], ["a"]};
            && LinePass(p, ["a", "b", "c"], []).lines == ["a", "c"]
            && !OneMinimal(p, ["a", "c"])
  {
    var p: Lines -> bool := x => x in {["a", "b", "c"], ["a", "c"], ["a"]};
    var a, b, c := "a", "b", "c";
    assert [a, b, c][..2] == [a, b] && [a, b][..1] == [a] && [a][..0] == [];
    assert [a, b] + [] == [a, b] && [a] + [c] == [a, c] && [] + [c] == [c] && [c] + [] == [c];
    assert |[a, b]| == 2 && |[c]| == 1 && [c][0] == c && c != a;
    assert LinePass(p, [], [a] + [c]) == Outcome([a, c], 0);
    assert !p([c]);
    assert LinePass(p, [a], [c]).lines == [a, c];
    assert p([a] + [c]);
    assert LinePass(p, [a, b], [c]).lines == [a, c];
    assert !p([a, b] + []);
    assert LinePass(p, [a, b, c], []).lines == [a, c];
    assert Without([a, c], 1) == [a];
    assert !Needed(p, [a, c], 1);
  }
}
