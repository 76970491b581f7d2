/** Matching an opener with its closer by counting, and collecting the
    outermost matches of a list from left to right. */
module Brackets {
  import opened Basics

  /** Depth before position `stop`, having entered one block before `from`. */
  function Depth(deltas: seq<int>, from: nat, stop: nat): int
    requires from <= stop <= |deltas|
    decreases stop
  {
    if from == stop then 1 else Depth(deltas, from, stop - 1) + deltas[stop-1]
  }

  /** Position i is the first after which everything opened since `from`, and
      the block that was open, is closed. */
  ghost predicate ClosesAt(deltas: seq<int>, from: nat, i: nat) {
    && from <= i < |deltas|
    && Depth(deltas, from, i + 1) == 0
    && forall k :: from <= k <= i ==> Depth(deltas, from, k) >= 1
  }

  /** Nothing closes more than one block. */
  ghost predicate Unit(deltas: seq<int>) {
    forall i :: 0 <= i < |deltas| ==> deltas[i] >= -1
  }

  function FirstClose(deltas: seq<int>, from: nat, i: nat): Option<nat>
    requires from <= i <= |deltas|
    decreases |deltas| - i
  {
    if i == |deltas| then None
    else if Depth(deltas, from, i + 1) == 0 then Some(i)
    else FirstClose(deltas, from, i + 1)
  }

  lemma {:induction false} FirstCloseIsFirst(deltas: seq<int>, from: nat, i: nat)
    requires from <= i <= |deltas| && Unit(deltas)
    requires forall k :: from <= k <= i ==> Depth(deltas, from, k) >= 1
    ensures var r := FirstClose(deltas, from, i);
            && (r.Some? ==> ClosesAt(deltas, from, r.value))
            && (r.None? ==> forall k :: from <= k <= |deltas| ==> Depth(deltas, from, k) >= 1)
    decreases |deltas| - i
  {
    if i < |deltas| && Depth(deltas, from, i + 1) != 0 {
      FirstCloseIsFirst(deltas, from, i + 1);
    }
  }

  /** The search returns the first return to depth zero, and fails exactly when
      there is none. */
  lemma FirstCloseExactly(deltas: seq<int>, from: nat)
    requires from <= |deltas| && Unit(deltas)
    ensures forall i: nat :: FirstClose(deltas, from, from) == Some(i) <==> ClosesAt(deltas, from, i)
    ensures var r := FirstClose(deltas, from, from);
            r.Some? ==> from <= r.value < |deltas| && deltas[r.value] == -1
  {
    FirstCloseIsFirst(deltas, from, from);
    var r := FirstClose(deltas, from, from);
    assert r.Some? ==> Depth(deltas, from, r.value) >= 1;
    forall i: nat | ClosesAt(deltas, from, i)
      ensures r == Some(i)
    {
      CloseIsUnique(deltas, from, i, r);
    }
  }

  lemma CloseIsUnique(deltas: seq<int>, from: nat, i: nat, r: Option<nat>)
    requires ClosesAt(deltas, from, i)
    requires r.Some? ==> ClosesAt(deltas, from, r.value)
    requires r.None? ==> forall k :: from <= k <= |deltas| ==> Depth(deltas, from, k) >= 1
    ensures r == Some(i)
  {
    assert Depth(deltas, from, i + 1) == 0;
    assert r.Some? && Depth(deltas, from, r.value + 1) == 0;
    assert !(r.value + 1 <= i) && !(i + 1 <= r.value);
  }

  // ------------------------------------------------------------- collecting

  /** At each position, the end of the stretch that starts there, if any. */
  type Ends = seq<Option<nat>>

  /** A stretch covers at least two positions. */
  ghost predicate Ahead(ends: Ends) {
    forall i :: 0 <= i < |ends| && ends[i].Some? ==> i + 2 <= ends[i].value <= |ends|
  }

  datatype Stretch = Stretch(start: nat, end: nat)

  /** Left to right: take the stretch starting here and go on behind it, or go on
      with the next position. */
  function Collect(ends: Ends, i: nat): seq<Stretch>
    requires i <= |ends| && Ahead(ends)
    decreases |ends| - i
  {
    if i == |ends| then []
    else
      match ends[i]
      case Some(end) => [Stretch(i, end)] + Collect(ends, end)
      case None => Collect(ends, i + 1)
  }

  lemma {:induction false} CollectedAreDisjoint(ends: Ends, i: nat)
    requires i <= |ends| && Ahead(ends)
    ensures var s := Collect(ends, i);
            && (forall k :: 0 <= k < |s| ==>
                  i <= s[k].start && s[k].start + 2 <= s[k].end <= |ends| && ends[s[k].start] == Some(s[k].end))
            && (forall k, m :: 0 <= k < m < |s| ==> s[k].end <= s[m].start)
            && 2 * |s| <= |ends| - i
    decreases |ends| - i
  {
    if i < |ends| {
      match ends[i]
      case Some(end) => CollectedAreDisjoint(ends, end);
      case None => CollectedAreDisjoint(ends, i + 1);
    }
  }

  /** Nothing is passed over: a position where a stretch starts is itself taken
      or lies inside a stretch taken earlier. */
  lemma {:induction false} CollectedAreComplete(ends: Ends, i: nat, j: nat)
    requires i <= j < |ends| && Ahead(ends) && ends[j].Some?
    ensures exists s :: s in Collect(ends, i) && s.start <= j < s.end
    decreases |ends| - i
  {
    match ends[i]
    case Some(end) =>
      var first := Stretch(i, end);
      if j < end {
        assert first in Collect(ends, i);
      } else {
        CollectedAreComplete(ends, end, j);
        var s :| s in Collect(ends, end) && s.start <= j < s.end;
        assert s in Collect(ends, i);
      }
    case None =>
      CollectedAreComplete(ends, i + 1, j);
  }

  // --------------------------------------------------- matched stretches

  /** The position that closes the block opened at `start`. */
  function Match(deltas: seq<int>, start: nat): Option<nat>
    requires start < |deltas|
  {
    FirstClose(deltas, start + 1, start + 1)
  }

  /** End, exclusive, of the stretch that starts at i, if one starts there and is
      ever closed. */
  function StretchEnd(starts: seq<bool>, deltas: seq<int>, i: nat): Option<nat>
    requires |starts| == |deltas| && i < |deltas|
  {
    if !starts[i] then None
    else
      match Match(deltas, i)
      case Some(e) => Some(e + 1)
      case None => None
  }

  function StretchEnds(starts: seq<bool>, deltas: seq<int>): (r: Ends)
    requires |starts| == |deltas|
    ensures |r| == |deltas|
    ensures forall i :: 0 <= i < |r| ==> r[i] == StretchEnd(starts, deltas, i)
  {
    seq(|deltas|, i requires 0 <= i < |deltas| => StretchEnd(starts, deltas, i))
  }

  lemma StretchesAhead(starts: seq<bool>, deltas: seq<int>)
    requires |starts| == |deltas| && Unit(deltas)
    ensures Ahead(StretchEnds(starts, deltas))
  {
    forall i | 0 <= i < |deltas| && StretchEnd(starts, deltas, i).Some?
      ensures i + 2 <= StretchEnd(starts, deltas, i).value <= |deltas|
    {
      FirstCloseExactly(deltas, i + 1);
    }
  }

  function Stretches(starts: seq<bool>, deltas: seq<int>): seq<Stretch>
    requires |starts| == |deltas| && Unit(deltas)
  {
    StretchesAhead(starts, deltas);
    Collect(StretchEnds(starts, deltas), 0)
  }

  /** In order, pairwise disjoint and at least two long; each from a start to the
      first position that closes it; and every start that is ever closed lies in
      one. */
  ghost predicate WellCollected(starts: seq<bool>, deltas: seq<int>, r: seq<Stretch>)
    requires |starts| == |deltas|
  {
    && (forall s :: s in r ==> s.start + 2 <= s.end <= |deltas| && starts[s.start]
                               && ClosesAt(deltas, s.start + 1, s.end - 1))
    && (forall k, m :: 0 <= k < m < |r| ==> r[k].end <= r[m].start)
    && (forall j :: 0 <= j < |deltas| && StretchEnd(starts, deltas, j).Some? ==>
          exists s :: s in r && s.start <= j < s.end)
  }

  lemma StretchesAreRight(starts: seq<bool>, deltas: seq<int>)
    requires |starts| == |deltas| && Unit(deltas)
    ensures WellCollected(starts, deltas, Stretches(starts, deltas))
    ensures 2 * |Stretches(starts, deltas)| <= |deltas|
    ensures forall s :: s in Stretches(starts, deltas) ==> s.start + 2 <= s.end <= |deltas|
  {
    StretchesAhead(starts, deltas);
    var ends := StretchEnds(starts, deltas);
    CollectedAreDisjoint(ends, 0);
    var r := Collect(ends, 0);
    forall s | s in r
      ensures s.start + 2 <= s.end <= |deltas| && starts[s.start] && ClosesAt(deltas, s.start + 1, s.end - 1)
    {
      FirstCloseExactly(deltas, s.start + 1);
    }
    forall j | 0 <= j < |deltas| && StretchEnd(starts, deltas, j).Some?
      ensures exists s :: s in r && s.start <= j < s.end
    {
      CollectedAreComplete(ends, 0, j);
    }
  }
}
