/** Autocorrect edits: choosing a non-overlapping set of byte-range edits and
    applying it in one left-to-right scan (src/correction.rs). */
module Correction {
  import opened Basics

  /** One source-level edit: replace bytes [start..end) with `replacement`. */
  datatype Edit = Edit(start: nat, end: nat, replacement: Bytes, copName: string, copIndex: nat)

  // ---------------------------------------------------------------- sorting

  /** The order handed to `sort_by`: start offset first, registry index second. */
  predicate KeyLeq(a: Edit, b: Edit) {
    a.start < b.start || (a.start == b.start && a.copIndex <= b.copIndex)
  }

  predicate SameKey(a: Edit, b: Edit) {
    a.start == b.start && a.copIndex == b.copIndex
  }

  ghost predicate Sorted(s: seq<Edit>) {
    forall i, j :: 0 <= i < j < |s| ==> KeyLeq(s[i], s[j])
  }

  function Insert(c: Edit, s: seq<Edit>): seq<Edit> {
    if s == [] || KeyLeq(c, s[0]) then [c] + s else [s[0]] + Insert(c, s[1..])
  }

  /** The library's stable sort: equal keys keep their input order. */
  function StableSort(raw: seq<Edit>): seq<Edit> {
    if raw == [] then [] else Insert(raw[0], StableSort(raw[1..]))
  }

  lemma {:induction false} InsertedFrom(c: Edit, s: seq<Edit>, x: Edit)
    requires x in Insert(c, s)
    ensures x == c || x in s
  {
    if !(s == [] || KeyLeq(c, s[0])) && x != s[0] { InsertedFrom(c, s[1..], x); }
  }

  lemma {:induction false} InsertSorted(c: Edit, s: seq<Edit>)
    requires Sorted(s)
    ensures Sorted(Insert(c, s))
    ensures multiset(Insert(c, s)) == multiset(s) + multiset{c}
  {
    if s == [] || KeyLeq(c, s[0]) {
    } else {
      InsertSorted(c, s[1..]);
      var t := Insert(c, s[1..]);
      assert s == [s[0]] + s[1..];
      forall j | 0 <= j < |t|
        ensures KeyLeq(s[0], t[j])
      {
        InsertedFrom(c, s[1..], t[j]);
      }
    }
  }

  lemma {:induction false} StableSortSorts(raw: seq<Edit>)
    ensures Sorted(StableSort(raw))
    ensures multiset(StableSort(raw)) == multiset(raw)
  {
    if raw == [] {
    } else {
      StableSortSorts(raw[1..]);
      InsertSorted(raw[0], StableSort(raw[1..]));
      assert raw == [raw[0]] + raw[1..];
    }
  }

  lemma {:induction false} StableSortFixesSorted(s: seq<Edit>)
    requires Sorted(s)
    ensures StableSort(s) == s
  {
    if s == [] {
    } else {
      StableSortFixesSorted(s[1..]);
      if |s| > 1 { assert KeyLeq(s[0], s[1]); }
    }
  }

  // ---------------------------------------------------------- greedy filter

  /** The first-merged-wins filter over a sorted list; `bound` is the end of the
      last accepted edit. */
  function Filter(s: seq<Edit>, bound: nat): seq<Edit> {
    if s == [] then []
    else if s[0].start < bound then Filter(s[1..], bound)
    else [s[0]] + Filter(s[1..], s[0].end)
  }

  /** What the filter's bound has become after reading `s`. */
  function BoundAfter(s: seq<Edit>, bound: nat): nat {
    if s == [] then bound
    else BoundAfter(s[1..], if s[0].start < bound then bound else s[0].end)
  }

  /** The set built from an unsorted list of edits. */
  function Accepted(raw: seq<Edit>): seq<Edit> {
    Filter(StableSort(raw), 0)
  }

  lemma {:induction false} FilterSplits(a: seq<Edit>, b: seq<Edit>, bound: nat)
    ensures Filter(a + b, bound) == Filter(a, bound) + Filter(b, BoundAfter(a, bound))
  {
    if a == [] {
      assert a + b == b;
    } else {
      assert (a + b)[1..] == a[1..] + b;
      FilterSplits(a[1..], b, if a[0].start < bound then bound else a[0].end);
    }
  }

  /** Each edit starts no earlier than the previous one ends, from `bound` on. */
  ghost predicate Chained(s: seq<Edit>, bound: nat) {
    && (s != [] ==> bound <= s[0].start)
    && forall i :: 0 < i < |s| ==> s[i-1].end <= s[i].start
  }

  lemma {:induction false} FilterKeepsSome(s: seq<Edit>, bound: nat)
    ensures multiset(Filter(s, bound)) <= multiset(s)
    ensures forall c :: c in Filter(s, bound) ==> c in s
  {
    if s != [] {
      assert s == [s[0]] + s[1..];
      var b := if s[0].start < bound then bound else s[0].end;
      FilterKeepsSome(s[1..], b);
      assert multiset(s) == multiset{s[0]} + multiset(s[1..]);
    }
  }

  lemma {:induction false} FilterStaysSorted(s: seq<Edit>, bound: nat)
    requires Sorted(s)
    ensures Sorted(Filter(s, bound))
  {
    if s != [] {
      var b := if s[0].start < bound then bound else s[0].end;
      FilterStaysSorted(s[1..], b);
      FilterKeepsSome(s[1..], b);
      assert forall c :: c in s[1..] ==> KeyLeq(s[0], c);
    }
  }

  lemma {:induction false} FilterIsChained(s: seq<Edit>, bound: nat)
    ensures Chained(Filter(s, bound), bound)
  {
    if s != [] {
      FilterIsChained(s[1..], if s[0].start < bound then bound else s[0].end);
    }
  }

  lemma FilterChains(s: seq<Edit>, bound: nat)
    requires Sorted(s)
    ensures Chained(Filter(s, bound), bound) && Sorted(Filter(s, bound))
  {
    FilterStaysSorted(s, bound);
    FilterIsChained(s, bound);
  }

  /** `a` is why `c` was dropped: it sorts no later and covers the start of `c`. */
  ghost predicate Blocks(a: Edit, c: Edit) {
    KeyLeq(a, c) && a.start <= c.start < a.end
  }

  lemma {:induction false} FilterIsMaximal(s: seq<Edit>, bound: nat, c: Edit)
    requires Sorted(s)
    requires multiset(Filter(s, bound))[c] < multiset(s)[c]
    ensures c.start < bound || exists a :: a in Filter(s, bound) && Blocks(a, c)
  {
    assert s != [];
    assert s == [s[0]] + s[1..];
    assert c in multiset(s);
    assert c in s;
    assert KeyLeq(s[0], c);
    if s[0].start < bound {
      if c.start >= bound {
        assert c != s[0];
        FilterIsMaximal(s[1..], bound, c);
      }
    } else {
      FilterIsMaximal(s[1..], s[0].end, c);
      if c.start < s[0].end {
        assert Blocks(s[0], c);
      }
    }
  }

  /** The set is sorted, pairwise disjoint, drawn from the input with
      multiplicity, and maximal: whatever was dropped starts inside an accepted
      edit that sorts no later. */
  lemma AcceptedIsGreedyMaximal(raw: seq<Edit>)
    ensures Sorted(Accepted(raw))
    ensures forall i, j :: 0 <= i < j < |Accepted(raw)| ==> Accepted(raw)[i].end <= Accepted(raw)[j].start
    ensures multiset(Accepted(raw)) <= multiset(raw)
    ensures forall c :: multiset(Accepted(raw))[c] < multiset(raw)[c] ==>
                          exists a :: a in Accepted(raw) && Blocks(a, c)
  {
    var s := StableSort(raw);
    StableSortSorts(raw);
    FilterChains(s, 0);
    FilterKeepsSome(s, 0);
    var acc := Accepted(raw);
    forall i, j | 0 <= i < j < |acc|
      ensures acc[i].end <= acc[j].start
    {
      assert acc[i].end <= acc[i+1].start;
      assert i + 1 == j || KeyLeq(acc[i+1], acc[j]);
    }
    forall c | multiset(acc)[c] < multiset(raw)[c]
      ensures exists a :: a in acc && Blocks(a, c)
    {
      FilterIsMaximal(s, 0, c);
    }
  }

  // ----------------------------------------------------- order independence

  ghost predicate SameForEveryOrder(raw: seq<Edit>) {
    forall other: seq<Edit> :: multiset(other) == multiset(raw) ==> Accepted(other) == Accepted(raw)
  }

  /** No accepted edit has a different edit with the same sort key beside it. */
  ghost predicate NoAcceptedTwin(acc: seq<Edit>, all: seq<Edit>) {
    forall c, d :: c in acc && d in all && SameKey(c, d) ==> c == d
  }

  /** An edit that is read while the bound is still `bound`, and is dropped,
      might as well not be there. */
  lemma {:induction false} FilterIgnoresDropped(s: seq<Edit>, bound: nat, k: nat)
    requires k < |s| && forall j :: 0 <= j <= k ==> s[j].start < bound
    ensures Filter(s, bound) == Filter(Without(s, k), bound)
  {
    if k == 0 {
      assert Without(s, 0) == s[1..];
    } else {
      FilterIgnoresDropped(s[1..], bound, k - 1);
      assert Without(s, k)[1..] == Without(s[1..], k - 1);
    }
  }

  lemma PermutationHeads(s: seq<Edit>, t: seq<Edit>)
    requires Sorted(s) && Sorted(t) && multiset(s) == multiset(t) && s != []
    ensures |s| == |t| && s[0] in t && t[0] in s && SameKey(s[0], t[0])
  {
    assert |multiset(s)| == |s| && |multiset(t)| == |t|;
    assert s[0] in multiset(t) && t[0] in multiset(s);
  }

  /** Both lists lose the first list's dropped head. */
  lemma DroppedHead(s: seq<Edit>, t: seq<Edit>, bound: nat) returns (u: seq<Edit>)
    requires Sorted(s) && Sorted(t) && multiset(s) == multiset(t) && s != [] && s[0].start < bound
    ensures Sorted(u) && multiset(u) == multiset(s[1..])
    ensures Filter(t, bound) == Filter(u, bound)
  {
    PermutationHeads(s, t);
    var k :| 0 <= k < |t| && t[k] == s[0];
    assert forall j :: 0 <= j < k ==> KeyLeq(t[j], t[k]);
    FilterIgnoresDropped(t, bound, k);
    u := Without(t, k);
    WithoutSame(s, t, 0, k);
    assert Without(s, 0) == s[1..];
  }

  /** Both lists start with the same accepted head. */
  lemma AcceptedHead(s: seq<Edit>, t: seq<Edit>, bound: nat)
    requires Sorted(s) && Sorted(t) && multiset(s) == multiset(t) && s != [] && s[0].start >= bound
    requires NoAcceptedTwin(Filter(s, bound), s)
    ensures t != [] && s[0] == t[0] && multiset(s[1..]) == multiset(t[1..])
    ensures NoAcceptedTwin(Filter(s[1..], s[0].end), s[1..])
  {
    PermutationHeads(s, t);
    assert s[0] == Filter(s, bound)[0] && s[0] in Filter(s, bound);
    WithoutSame(s, t, 0, 0);
    assert Without(s, 0) == s[1..] && Without(t, 0) == t[1..];
    assert forall c :: c in Filter(s[1..], s[0].end) ==> c in Filter(s, bound);
  }

  lemma {:induction false} FilterOfPermutation(s: seq<Edit>, t: seq<Edit>, bound: nat)
    requires Sorted(s) && Sorted(t) && multiset(s) == multiset(t)
    requires NoAcceptedTwin(Filter(s, bound), s)
    ensures Filter(s, bound) == Filter(t, bound)
    decreases |s|
  {
    if s == [] {
      assert |multiset(t)| == 0;
    } else if s[0].start < bound {
      var u := DroppedHead(s, t, bound);
      FilterOfPermutation(s[1..], u, bound);
    } else {
      AcceptedHead(s, t, bound);
      FilterOfPermutation(s[1..], t[1..], s[0].end);
    }
  }

  /** Position of the first edit sharing the key of s[i]. */
  lemma FirstOfKey(s: seq<Edit>, i: nat) returns (g: nat)
    requires Sorted(s) && i < |s|
    ensures g <= i
    ensures forall k :: g <= k <= i ==> SameKey(s[k], s[i])
    ensures forall k :: 0 <= k < g ==> KeyLeq(s[k], s[i]) && !SameKey(s[k], s[i])
  {
    g := i;
    while g > 0 && SameKey(s[g-1], s[i])
      invariant g <= i
      invariant forall k :: g <= k <= i ==> SameKey(s[k], s[i])
    {
      g := g - 1;
    }
    if g > 0 {
      assert KeyLeq(s[g-1], s[i]) && !SameKey(s[g-1], s[i]);
      forall k | 0 <= k < g
        ensures KeyLeq(s[k], s[i]) && !SameKey(s[k], s[i])
      {
        assert k == g - 1 || KeyLeq(s[k], s[g-1]);
      }
    }
  }

  /** Moving s[i] to the front of the run of edits sharing its key. */
  function Promote(s: seq<Edit>, g: nat, i: nat): seq<Edit>
    requires g <= i < |s|
  {
    s[..g] + [s[i]] + (s[g..i] + s[i+1..])
  }

  lemma PromoteKeepsOrder(s: seq<Edit>, g: nat, i: nat)
    requires Sorted(s) && g <= i < |s| && forall k :: g <= k <= i ==> SameKey(s[k], s[i])
    ensures Sorted(Promote(s, g, i)) && multiset(Promote(s, g, i)) == multiset(s)
  {
    assert s == s[..g] + s[g..i] + [s[i]] + s[i+1..];
  }

  lemma PromotedIsAccepted(s: seq<Edit>, g: nat, i: nat)
    requires Sorted(s) && g <= i < |s| && BoundAfter(s[..g], 0) <= s[i].start
    ensures var n := |Filter(s[..g], 0)|;
            n < |Filter(Promote(s, g, i), 0)| && Filter(Promote(s, g, i), 0)[n] == s[i]
  {
    var rest := s[g..i] + s[i+1..];
    assert Promote(s, g, i) == s[..g] + ([s[i]] + rest);
    FilterSplits(s[..g], [s[i]] + rest, 0);
  }

  /** An accepted edit finds the bound at or below its start already at the
      beginning of its run, since what the filter keeps of the run starts there or
      later and is sorted. */
  lemma AcceptedRunIsOpen(s: seq<Edit>, g: nat, c: Edit)
    requires Sorted(s) && g < |s| && SameKey(s[g], c)
    requires forall k :: 0 <= k < g ==> !SameKey(s[k], c) && KeyLeq(s[k], c)
    requires c in Filter(s, 0)
    ensures BoundAfter(s[..g], 0) <= c.start
  {
    var b := BoundAfter(s[..g], 0);
    var before, after := Filter(s[..g], 0), Filter(s[g..], b);
    assert Filter(s, 0) == before + after by {
      assert s == s[..g] + s[g..];
      FilterSplits(s[..g], s[g..], 0);
    }
    assert c !in before by {
      FilterKeepsSome(s[..g], 0);
      assert forall x :: x in s[..g] ==> !SameKey(x, c);
    }
    FilterChains(s[g..], b);
    var k :| 0 <= k < |after| && after[k] == c;
    assert k == 0 || KeyLeq(after[0], after[k]);
  }

  lemma TwinBreaksOrder(raw: seq<Edit>, c: Edit, d: Edit)
    requires c in Accepted(raw) && d in raw && SameKey(c, d) && c != d
    ensures !SameForEveryOrder(raw)
  {
    var s := StableSort(raw);
    StableSortSorts(raw);
    FilterKeepsSome(s, 0);
    assert d in multiset(s);
    var i :| 0 <= i < |s| && s[i] == c;
    var j :| 0 <= j < |s| && s[j] == d;
    var gi := FirstOfKey(s, i);
    var gj := FirstOfKey(s, j);
    assert SameKey(s[gi], s[i]) && SameKey(s[gj], s[j]);
    assert gi == gj;
    AcceptedRunIsOpen(s, gi, c);
    var p, q := Promote(s, gi, i), Promote(s, gi, j);
    PromoteKeepsOrder(s, gi, i);
    PromoteKeepsOrder(s, gi, j);
    StableSortFixesSorted(p);
    StableSortFixesSorted(q);
    PromotedIsAccepted(s, gi, i);
    PromotedIsAccepted(s, gi, j);
    assert Accepted(p) != Accepted(q);
  }

  /** The set does not depend on the order the edits arrive in exactly when no
      accepted edit shares its (start, registry index) key with a different
      edit. */
  lemma OrderIndependence(raw: seq<Edit>)
    ensures SameForEveryOrder(raw) <==> NoAcceptedTwin(Accepted(raw), raw)
  {
    if NoAcceptedTwin(Accepted(raw), raw) {
      StableSortSorts(raw);
      forall c, d | c in Accepted(raw) && d in StableSort(raw) && SameKey(c, d)
        ensures c == d
      {
        assert d in multiset(raw);
      }
      forall other: seq<Edit> | multiset(other) == multiset(raw)
        ensures Accepted(other) == Accepted(raw)
      {
        StableSortSorts(other);
        FilterOfPermutation(StableSort(raw), StableSort(other), 0);
      }
    } else {
      var c, d :| c in Accepted(raw) && d in raw && SameKey(c, d) && c != d;
      TwinBreaksOrder(raw, c, d);
    }
  }

  /** So distinct keys are enough. */
  lemma DistinctKeysSuffice(raw: seq<Edit>)
    requires forall c, d :: c in raw && d in raw && SameKey(c, d) ==> c == d
    ensures SameForEveryOrder(raw)
  {
    StableSortSorts(raw);
    FilterKeepsSome(StableSort(raw), 0);
    forall c | c in Accepted(raw)
      ensures c in raw
    {
      assert c in multiset(raw);
    }
    OrderIndependence(raw);
  }

  /** Two edits with one key: whichever comes first is accepted, and the text ends
      differently. */
  lemma TwinsExample()
    ensures var c, d := Edit(0, 1, [98], "A/B", 0), Edit(0, 1, [99], "A/B", 0);
            && Accepted([c, d]) == [c] && Accepted([d, c]) == [d]
            && Scan([97], [c], 0) == Some([98]) && Scan([97], [d], 0) == Some([99])
  {
    var c, d := Edit(0, 1, [98], "A/B", 0), Edit(0, 1, [99], "A/B", 0);
    FirstOfTwo(c, d);
    FirstOfTwo(d, c);
    SingleScan(97, c);
    SingleScan(97, d);
  }

  lemma FirstOfTwo(c: Edit, d: Edit)
    requires KeyLeq(c, d) && d.start < c.end
    ensures Accepted([c, d]) == [c]
    ensures !KeyLeq(d, c) ==> Accepted([d, c]) == [c]
  {
    assert [c, d][1..] == [d] && [d][1..] == [] && [d, c][1..] == [c] && [c][1..] == [];
    assert StableSort([d]) == [d] && StableSort([c]) == [c];
    assert StableSort([c, d]) == [c, d];
    assert Filter([d], c.end) == [];
    if !KeyLeq(d, c) {
      assert Insert(d, [c]) == [c] + Insert(d, []);
      assert StableSort([d, c]) == [c, d];
    }
  }

  lemma SingleScan(b: byte, c: Edit)
    requires c.start == 0 && c.end == 1
    ensures Scan([b], [c], 0) == Some(c.replacement)
  {
    var nothing: Bytes := [];
    assert [c][1..] == [];
    assert Scan([b], [], 1) == Some(nothing);
    assert nothing + c.replacement + nothing == c.replacement;
  }

  /** The lower registry index wins: if two edits start together and do not both
      stand, the one accepted is not the one of the later cop. */
  lemma LowerIndexWins(raw: seq<Edit>, c: Edit, d: Edit)
    requires c in raw && d in Accepted(raw)
    requires c.start == d.start && c.copIndex < d.copIndex
    ensures c in Accepted(raw) && c.end <= d.start
  {
    AcceptedIsGreedyMaximal(raw);
    var acc := Accepted(raw);
    var j :| 0 <= j < |acc| && acc[j] == d;
    forall a | a in acc
      ensures !Blocks(a, c)
    {
      var i :| 0 <= i < |acc| && acc[i] == a;
      assert i < j ==> a.end <= d.start;
      assert j < i ==> KeyLeq(d, a);
    }
    assert c in multiset(raw);
    assert c in multiset(acc);
    var i :| 0 <= i < |acc| && acc[i] == c;
    assert j < i ==> KeyLeq(d, c);
  }

  /** Two cops rewrite the same byte: whichever comes first in the list, the one
      registered first has its way. */
  lemma LowerIndexExample()
    ensures var c, d := Edit(0, 1, [98], "A/B", 0), Edit(0, 1, [99], "C/D", 5);
            && Accepted([c, d]) == [c] && Accepted([d, c]) == [c]
            && Scan([97], Accepted([c, d]), 0) == Some([98])
  {
    var c, d := Edit(0, 1, [98], "A/B", 0), Edit(0, 1, [99], "C/D", 5);
    FirstOfTwo(c, d);
    SingleScan(97, c);
  }

  // ------------------------------------------------------------ application

  /** The single scan. None stands for the slice panic on a start past the end
      of the source. */
  function Scan(source: Bytes, cs: seq<Edit>, cursor: nat): Option<Bytes> {
    if cs == [] then
      Some(if cursor < |source| then source[cursor..] else [])
    else if cs[0].start > cursor && cs[0].start > |source| then
      None
    else
      var gap := if cs[0].start > cursor then source[cursor..cs[0].start] else [];
      match Scan(source, cs[1..], cs[0].end)
      case None => None
      case Some(rest) => Some(gap + cs[0].replacement + rest)
  }

  /** Where the scan's cursor stands before edit i. */
  function CursorBefore(cs: seq<Edit>, i: nat, cursor: nat): nat
    requires i <= |cs|
  {
    if i == 0 then cursor else cs[i-1].end
  }

  /** The scan fails exactly when some edit starts past both the end of the
      source and the cursor. */
  lemma {:induction false} ScanFailsExactly(source: Bytes, cs: seq<Edit>, cursor: nat)
    ensures Scan(source, cs, cursor).None? <==>
            exists i :: 0 <= i < |cs| && cs[i].start > |source| && cs[i].start > CursorBefore(cs, i, cursor)
  {
    if cs != [] {
      var t := cs[1..];
      ScanFailsExactly(source, t, cs[0].end);
      forall i | 0 <= i < |t|
        ensures CursorBefore(t, i, cs[0].end) == CursorBefore(cs, i + 1, cursor) && t[i] == cs[i+1]
      {}
      if i :| 0 <= i < |t| && t[i].start > |source| && t[i].start > CursorBefore(t, i, cs[0].end) {
        assert cs[i+1].start > CursorBefore(cs, i + 1, cursor);
      }
      if i :| 0 <= i < |cs| && cs[i].start > |source| && cs[i].start > CursorBefore(cs, i, cursor) {
        if i > 0 {
          assert t[i-1].start > CursorBefore(t, i - 1, cs[0].end);
        }
      }
    }
  }

  ghost predicate InBounds(cs: seq<Edit>, n: nat) {
    forall c :: c in cs ==> c.start <= n && c.end <= n
  }

  /** The obvious way: splice the edits in one at a time, last one first, so
      that no offset ever needs adjusting. */
  function SpliceBackwards(source: Bytes, cs: seq<Edit>): (r: Bytes)
    requires InBounds(cs, |source|) && Chained(cs, 0) && Sorted(cs)
    ensures cs == [] ==> r == source
    ensures cs != [] ==> cs[0].start <= |r| && r[..cs[0].start] == source[..cs[0].start]
    decreases |cs|
  {
    if cs == [] then source
    else
      var rest := SpliceBackwards(source, cs[1..]);
      assert |cs| > 1 ==> cs[1..][0] == cs[1] && KeyLeq(cs[0], cs[1]) && cs[0].end <= cs[1].start;
      var r := rest[..cs[0].start] + cs[0].replacement + rest[cs[0].end..];
      assert r[..cs[0].start] == rest[..cs[0].start];
      assert |cs| > 1 ==> rest[..cs[0].start] == rest[..cs[1].start][..cs[0].start];
      r
  }

  /** One step of the scan: what it emits ahead of the scan of the tail. */
  lemma ScanStep(source: Bytes, cs: seq<Edit>, cursor: nat, rest: Bytes) returns (out: Bytes)
    requires cs != [] && cursor <= cs[0].start <= |source|
    requires Scan(source, cs[1..], cs[0].end) == Some(rest)
    ensures out == source[cursor..cs[0].start] + cs[0].replacement + rest
    ensures Scan(source, cs, cursor) == Some(out)
  {
    out := source[cursor..cs[0].start] + cs[0].replacement + rest;
    assert cs[0].start == cursor ==> source[cursor..cs[0].start] == [];
  }

  lemma CutOut(source: Bytes, rest: Bytes, c: Edit, cursor: nat)
    requires cursor <= c.start <= |rest| && c.start <= |source| && c.end <= |rest|
    requires rest[..c.start] == source[..c.start]
    ensures (rest[..c.start] + c.replacement + rest[c.end..])[cursor..]
            == source[cursor..c.start] + c.replacement + rest[c.end..]
  {
    assert rest[..c.start][cursor..] == source[..c.start][cursor..];
    assert rest[cursor..c.start] == source[cursor..c.start];
  }

  lemma SplicePrefix(source: Bytes, cs: seq<Edit>)
    requires InBounds(cs, |source|) && Chained(cs, 0) && Sorted(cs) && cs != []
    ensures Chained(cs[1..], 0) && Sorted(cs[1..])
    ensures var rest := SpliceBackwards(source, cs[1..]);
            && cs[0].start <= |rest| && cs[0].end <= |rest|
            && rest[..cs[0].start] == source[..cs[0].start]
  {
    var rest := SpliceBackwards(source, cs[1..]);
    if |cs| > 1 {
      assert cs[1..][0] == cs[1] && KeyLeq(cs[0], cs[1]) && cs[0].end <= cs[1].start;
      assert rest[..cs[1].start][..cs[0].start] == source[..cs[1].start][..cs[0].start];
      assert rest[..cs[1].start][..cs[0].start] == rest[..cs[0].start];
    }
  }

  /** The one-pass scan is the edit-by-edit splice. */
  lemma {:induction false} ScanIsSplicing(source: Bytes, cs: seq<Edit>, cursor: nat)
    requires InBounds(cs, |source|) && Chained(cs, cursor) && Sorted(cs) && cursor <= |source|
    ensures Scan(source, cs, cursor) == Some(SpliceBackwards(source, cs)[cursor..])
    decreases |cs|
  {
    if cs == [] {
      assert cursor == |source| ==> source[cursor..] == [];
    } else {
      var c, t := cs[0], cs[1..];
      assert |cs| > 1 ==> t[0] == cs[1] && KeyLeq(c, cs[1]) && c.end <= cs[1].start;
      ScanIsSplicing(source, t, c.end);
      var rest := SpliceBackwards(source, t);
      var out := ScanStep(source, cs, cursor, rest[c.end..]);
      SplicePrefix(source, cs);
      CutOut(source, rest, c, cursor);
      assert SpliceBackwards(source, cs) == rest[..c.start] + c.replacement + rest[c.end..];
    }
  }

  ghost predicate WellFormed(cs: seq<Edit>, n: nat) {
    forall c :: c in cs ==> c.start <= c.end <= n
  }

  /** How far the edits before number k have moved what follows them. */
  function Shift(cs: seq<Edit>, k: nat): int
    requires k <= |cs|
  {
    if k == 0 then 0
    else Shift(cs, k - 1) + |cs[k-1].replacement| - (cs[k-1].end - cs[k-1].start)
  }

  lemma {:induction false} ShiftOfTail(cs: seq<Edit>, k: nat)
    requires 1 <= k <= |cs|
    ensures Shift(cs, k) == Shift(cs[1..], k - 1) + |cs[0].replacement| - (cs[0].end - cs[0].start)
  {
    if k > 1 { ShiftOfTail(cs, k - 1); }
  }

  /** Source byte p survives between edits k-1 and k. */
  ghost predicate InGap(source: Bytes, cs: seq<Edit>, cursor: nat, k: nat, p: nat) {
    k <= |cs| && p < |source| && CursorBefore(cs, k, cursor) <= p && (k < |cs| ==> p < cs[k].start)
  }

  /** The bytes `text` stand in `out` at offset `at`. */
  ghost predicate StandsAt(out: Bytes, at: int, text: Bytes) {
    0 <= at && at + |text| <= |out| && forall i :: 0 <= i < |text| ==> out[at + i] == text[i]
  }

  ghost predicate ByteAt(out: Bytes, at: int, b: byte) {
    0 <= at < |out| && out[at] == b
  }

  /** The output is as long as the source with every range exchanged for its
      replacement, and has every surviving byte and every replacement where a
      simultaneous edit would put it. `out` starts at source offset `cursor`. */
  ghost predicate SimultaneousFrom(source: Bytes, cs: seq<Edit>, cursor: nat, out: Bytes) {
    && |out| == |source| - cursor + Shift(cs, |cs|)
    && (forall k: nat, p: nat :: InGap(source, cs, cursor, k, p) ==>
          ByteAt(out, p - cursor + Shift(cs, k), source[p]))
    && (forall k: nat :: k < |cs| ==>
          StandsAt(out, cs[k].start - cursor + Shift(cs, k), cs[k].replacement))
  }

  lemma StandsAfter(lead: Bytes, rest: Bytes, at: int, text: Bytes)
    requires StandsAt(rest, at, text)
    ensures StandsAt(lead + rest, |lead| + at, text)
  {
    forall i | 0 <= i < |text|
      ensures (lead + rest)[|lead| + at + i] == text[i]
    {
      assert (lead + rest)[|lead| + at + i] == rest[at + i];
    }
  }

  /** Edits in bounds, each starting where the previous one ended or later. */
  ghost predicate Fits(n: nat, cs: seq<Edit>, cursor: nat) {
    cs == [] || (cursor <= cs[0].start <= cs[0].end <= n && Fits(n, cs[1..], cs[0].end))
  }

  lemma {:induction false} ChainedFits(n: nat, cs: seq<Edit>, cursor: nat)
    requires WellFormed(cs, n) && Chained(cs, cursor)
    ensures Fits(n, cs, cursor)
  {
    if cs != [] {
      assert |cs| > 1 ==> cs[1..][0] == cs[1] && cs[0].end <= cs[1].start;
      ChainedFits(n, cs[1..], cs[0].end);
    }
  }

  lemma {:induction false} ScanLength(source: Bytes, cs: seq<Edit>, cursor: nat) returns (out: Bytes)
    requires Fits(|source|, cs, cursor) && cursor <= |source|
    ensures Scan(source, cs, cursor) == Some(out)
    ensures |out| == |source| - cursor + Shift(cs, |cs|)
    decreases |cs|
  {
    if cs == [] {
      out := if cursor < |source| then source[cursor..] else [];
    } else {
      var rest := ScanLength(source, cs[1..], cs[0].end);
      out := ScanStep(source, cs, cursor, rest);
      ShiftOfTail(cs, |cs|);
    }
  }

  lemma GapOfTail(source: Bytes, cs: seq<Edit>, cursor: nat, k: nat, p: nat)
    requires cs != [] && k > 0 && InGap(source, cs, cursor, k, p)
    ensures InGap(source, cs[1..], cs[0].end, k - 1, p)
  {
    assert CursorBefore(cs[1..], k - 1, cs[0].end) == CursorBefore(cs, k, cursor);
  }

  /** The first gap is copied to the front; anything in the tail's output is
      moved back by what stands before it. */
  lemma ByteInFront(source: Bytes, cursor: nat, start: nat, text: Bytes, rest: Bytes, p: nat)
    requires cursor <= p < start <= |source|
    ensures ByteAt(source[cursor..start] + text + rest, p - cursor, source[p])
  {
    var gap := source[cursor..start];
    assert gap[p - cursor] == source[p];
    assert (gap + text + rest)[p - cursor] == (gap + text)[p - cursor] == gap[p - cursor];
  }

  lemma ByteInTail(lead: Bytes, rest: Bytes, at: int, b: byte)
    requires ByteAt(rest, at, b)
    ensures ByteAt(lead + rest, |lead| + at, b)
  {
  }

  /** What stands before the tail's output is exactly the difference of the two offsets. */
  lemma OffsetOfTail(source: Bytes, cs: seq<Edit>, cursor: nat, k: nat, x: int) returns (lead: Bytes, at: int)
    requires Fits(|source|, cs, cursor) && cursor <= |source| && 1 <= k <= |cs|
    ensures lead == source[cursor..cs[0].start] + cs[0].replacement
    ensures at == x - cs[0].end + Shift(cs[1..], k - 1)
    ensures |lead| + at == x - cursor + Shift(cs, k)
  {
    lead := source[cursor..cs[0].start] + cs[0].replacement;
    at := x - cs[0].end + Shift(cs[1..], k - 1);
    ShiftOfTail(cs, k);
  }

  lemma KeepsFirstGap(source: Bytes, cs: seq<Edit>, cursor: nat, rest: Bytes, p: nat) returns (out: Bytes)
    requires cs != [] && cursor <= p < cs[0].start <= |source| && Scan(source, cs[1..], cs[0].end) == Some(rest)
    ensures Scan(source, cs, cursor) == Some(out)
    ensures ByteAt(out, p - cursor + Shift(cs, 0), source[p])
  {
    out := ScanStep(source, cs, cursor, rest);
    ByteInFront(source, cursor, cs[0].start, cs[0].replacement, rest, p);
  }

  lemma KeepsLaterGap(source: Bytes, cs: seq<Edit>, cursor: nat, rest: Bytes, k: nat, p: nat) returns (out: Bytes)
    requires Fits(|source|, cs, cursor) && cursor <= |source| && 1 <= k <= |cs| && p < |source|
    requires Scan(source, cs[1..], cs[0].end) == Some(rest)
    requires ByteAt(rest, p - cs[0].end + Shift(cs[1..], k - 1), source[p])
    ensures Scan(source, cs, cursor) == Some(out)
    ensures ByteAt(out, p - cursor + Shift(cs, k), source[p])
  {
    out := ScanStep(source, cs, cursor, rest);
    var lead, at := OffsetOfTail(source, cs, cursor, k, p);
    ByteInTail(lead, rest, at, source[p]);
  }

  lemma {:induction false} ScanKeepsGap(source: Bytes, cs: seq<Edit>, cursor: nat, k: nat, p: nat) returns (out: Bytes)
    requires Fits(|source|, cs, cursor) && cursor <= |source|
    requires InGap(source, cs, cursor, k, p)
    ensures Scan(source, cs, cursor) == Some(out)
    ensures ByteAt(out, p - cursor + Shift(cs, k), source[p])
    decreases |cs|
  {
    if cs == [] {
      out := source[cursor..];
    } else if k == 0 {
      var rest := ScanLength(source, cs[1..], cs[0].end);
      out := KeepsFirstGap(source, cs, cursor, rest, p);
    } else {
      GapOfTail(source, cs, cursor, k, p);
      var rest := ScanKeepsGap(source, cs[1..], cs[0].end, k - 1, p);
      out := KeepsLaterGap(source, cs, cursor, rest, k, p);
    }
  }

  lemma TextInFront(gap: Bytes, text: Bytes, rest: Bytes)
    ensures StandsAt(gap + text + rest, |gap|, text)
  {
    forall i | 0 <= i < |text|
      ensures (gap + text + rest)[|gap| + i] == text[i]
    {
      assert (gap + text + rest)[|gap| + i] == (gap + text)[|gap| + i];
    }
  }

  lemma PlacesFirst(source: Bytes, cs: seq<Edit>, cursor: nat, rest: Bytes) returns (out: Bytes)
    requires cs != [] && cursor <= cs[0].start <= |source| && Scan(source, cs[1..], cs[0].end) == Some(rest)
    ensures Scan(source, cs, cursor) == Some(out)
    ensures StandsAt(out, cs[0].start - cursor + Shift(cs, 0), cs[0].replacement)
  {
    out := ScanStep(source, cs, cursor, rest);
    assert Shift(cs, 0) == 0 && |source[cursor..cs[0].start]| == cs[0].start - cursor;
    TextInFront(source[cursor..cs[0].start], cs[0].replacement, rest);
  }

  lemma PlacesLater(source: Bytes, cs: seq<Edit>, cursor: nat, rest: Bytes, k: nat) returns (out: Bytes)
    requires Fits(|source|, cs, cursor) && cursor <= |source| && 1 <= k < |cs|
    requires Scan(source, cs[1..], cs[0].end) == Some(rest)
    requires StandsAt(rest, cs[k].start - cs[0].end + Shift(cs[1..], k - 1), cs[k].replacement)
    ensures Scan(source, cs, cursor) == Some(out)
    ensures StandsAt(out, cs[k].start - cursor + Shift(cs, k), cs[k].replacement)
  {
    out := ScanStep(source, cs, cursor, rest);
    var lead, at := OffsetOfTail(source, cs, cursor, k, cs[k].start);
    StandsAfter(lead, rest, at, cs[k].replacement);
  }

  lemma {:induction false} ScanPlacesReplacement(source: Bytes, cs: seq<Edit>, cursor: nat, k: nat) returns (out: Bytes)
    requires Fits(|source|, cs, cursor) && cursor <= |source| && k < |cs|
    ensures Scan(source, cs, cursor) == Some(out)
    ensures StandsAt(out, cs[k].start - cursor + Shift(cs, k), cs[k].replacement)
    decreases |cs|
  {
    if k == 0 {
      var rest := ScanLength(source, cs[1..], cs[0].end);
      out := PlacesFirst(source, cs, cursor, rest);
    } else {
      assert cs[1..][k-1] == cs[k];
      var rest := ScanPlacesReplacement(source, cs[1..], cs[0].end, k - 1);
      out := PlacesLater(source, cs, cursor, rest, k);
    }
  }

  lemma ScanIsSimultaneous(source: Bytes, cs: seq<Edit>, cursor: nat) returns (out: Bytes)
    requires WellFormed(cs, |source|) && Chained(cs, cursor) && cursor <= |source|
    ensures Scan(source, cs, cursor) == Some(out)
    ensures SimultaneousFrom(source, cs, cursor, out)
  {
    ChainedFits(|source|, cs, cursor);
    out := ScanLength(source, cs, cursor);
    forall k: nat, p: nat | InGap(source, cs, cursor, k, p)
      ensures ByteAt(out, p - cursor + Shift(cs, k), source[p])
    {
      var same := ScanKeepsGap(source, cs, cursor, k, p);
    }
    forall k: nat | k < |cs|
      ensures StandsAt(out, cs[k].start - cursor + Shift(cs, k), cs[k].replacement)
    {
      var same := ScanPlacesReplacement(source, cs, cursor, k);
    }
  }

  /** Applying the set built from any well-formed edits never fails; it equals
      splicing the accepted edits in one by one, and equals the simultaneous
      edit byte for byte. */
  lemma ApplyIsSimultaneousEdit(raw: seq<Edit>, source: Bytes)
    requires WellFormed(raw, |source|)
    ensures var cs := Accepted(raw);
            && InBounds(cs, |source|) && Chained(cs, 0) && Sorted(cs)
            && Scan(source, cs, 0) == Some(SpliceBackwards(source, cs))
            && SimultaneousFrom(source, cs, 0, SpliceBackwards(source, cs))
  {
    var cs := Accepted(raw);
    StableSortSorts(raw);
    FilterChains(StableSort(raw), 0);
    FilterKeepsSome(StableSort(raw), 0);
    forall c | c in cs
      ensures c.start <= c.end <= |source|
    {
      assert c in multiset(raw);
    }
    ScanIsSplicing(source, cs, 0);
    var out := ScanIsSimultaneous(source, cs, 0);
  }

  // -------------------------------------------------------------- the class

  function Prepend(out: Bytes, rest: Option<Bytes>): Option<Bytes> {
    match rest
    case None => None
    case Some(r) => Some(out + r)
  }

  lemma PrependNothing(rest: Option<Bytes>)
    ensures Prepend([], rest) == rest
  {
    if rest.Some? { assert [] + rest.value == rest.value; }
  }

  lemma PrependStep(out: Bytes, source: Bytes, cs: seq<Edit>, cursor: nat)
    requires cs != [] && !(cs[0].start > cursor && cs[0].start > |source|)
    ensures var gap := if cs[0].start > cursor then source[cursor..cs[0].start] else [];
            Prepend(out, Scan(source, cs, cursor))
            == Prepend(out + gap + cs[0].replacement, Scan(source, cs[1..], cs[0].end))
  {
    var gap := if cs[0].start > cursor then source[cursor..cs[0].start] else [];
    var tail := Scan(source, cs[1..], cs[0].end);
    if tail.Some? {
      assert out + (gap + cs[0].replacement + tail.value) == out + gap + cs[0].replacement + tail.value;
    }
  }

  class CorrectionSet {
    var corrections: seq<Edit>

    /** Build from an unsorted vector. */
    constructor FromVec(raw: seq<Edit>)
      ensures corrections == Accepted(raw)
    {
      var sorted := StableSort(raw);
      var accepted: seq<Edit> := [];
      var i := 0;
      while i < |sorted|
        invariant 0 <= i <= |sorted|
        invariant Filter(sorted, 0) ==
                  accepted + Filter(sorted[i..], if accepted == [] then 0 else accepted[|accepted|-1].end)
      {
        var c := sorted[i];
        assert sorted[i..][1..] == sorted[i+1..];
        if accepted != [] && c.start < accepted[|accepted|-1].end {
          i := i + 1;
          continue;
        }
        accepted := accepted + [c];
        i := i + 1;
      }
      corrections := accepted;
    }

    /** Apply to source bytes; None when a slice index is out of range. */
    method Apply(source: Bytes) returns (result: Option<Bytes>)
      ensures result == Scan(source, corrections, 0)
    {
      var out: Bytes := [];
      var cursor: nat := 0;
      var i := 0;
      assert corrections[0..] == corrections;
      PrependNothing(Scan(source, corrections, 0));
      while i < |corrections|
        invariant 0 <= i <= |corrections|
        invariant Scan(source, corrections, 0) ==
                  Prepend(out, Scan(source, corrections[i..], cursor))
      {
        var c := corrections[i];
        assert corrections[i..][1..] == corrections[i+1..];
        if c.start > cursor {
          if c.start > |source| {
            return None;
          }
          PrependStep(out, source, corrections[i..], cursor);
          out := out + source[cursor..c.start];
        } else {
          PrependStep(out, source, corrections[i..], cursor);
          assert out + [] == out;
        }
        out := out + c.replacement;
        cursor := c.end;
        i := i + 1;
      }
      assert corrections[i..] == [];
      assert out + [] == out;
      if cursor < |source| {
        out := out + source[cursor..];
      }
      result := Some(out);
    }
  }
}
