/** The first phase of the delta reducer (scripts/reduce_mismatch.py): find
    `def` and `do` spans by counting openers and ends, and delete whole spans,
    largest first. */
module StructureReduction {
  import opened Basics
  import opened Subsequence
  import opened Text
  import opened Brackets
  import opened LineReduction

  // --------------------------------------------------------- line by line

  function Stripped(line: string): string {
    LStrip(line)
  }

  predicate StartsWithAny(s: string, prefixes: seq<string>) {
    exists i :: 0 <= i < |prefixes| && StartsWith(s, prefixes[i])
  }

  const OPENERS := ["def ", "class ", "module ", "if ", "unless ", "while ", "until ", "for ", "begin", "case "]

  const NOT_DSL := ["class ", "module ", "if ", "unless ", "while ", "until ", "for ", "begin", "case "]

  predicate Opens(stripped: string) {
    StartsWithAny(stripped, OPENERS) || EndsWith(stripped, " do") || Contains(stripped, " do |")
  }

  predicate Closes(stripped: string) {
    stripped == "end"
  }

  /** What one line adds to the nesting depth. */
  function Delta(line: string): int {
    var s := Stripped(line);
    if s == [] || StartsWith(s, "#") then 0
    else (if Opens(s) then 1 else 0) - (if Closes(s) then 1 else 0)
  }

  function Deltas(lines: Lines): (r: seq<int>)
    ensures |r| == |lines| && forall i :: 0 <= i < |r| ==> r[i] == Delta(lines[i])
  {
    seq(|lines|, i requires 0 <= i < |lines| => Delta(lines[i]))
  }

  /** An `end` line closes exactly one block, and no line closes more. */
  lemma DeltaCloses(line: string)
    ensures Delta(line) == -1 <==> Closes(Stripped(line))
    ensures Delta(line) >= -1
  {
    var s := Stripped(line);
    if Closes(s) {
      EndOpensNothing();
    }
  }

  lemma EndOpensNothing()
    ensures !Opens("end") && !StartsWith("end", "#")
  {
    forall i | 0 <= i < |OPENERS|
      ensures !StartsWith("end", OPENERS[i])
    {
      assert OPENERS[i][0] != 'e';
    }
    var e := "end";
    assert e[|e| - 3..] == e && e[0] == 'e';
    assert " do"[0] == ' ';
  }

  lemma DeltasAreUnit(lines: Lines)
    ensures Unit(Deltas(lines))
  {
    forall i | 0 <= i < |lines|
      ensures Deltas(lines)[i] >= -1
    {
      DeltaCloses(lines[i]);
    }
  }

  /** One of the words that open a block at the start of a line. */
  predicate OpeningWord(s: string) {
    || StartsWith(s, "def ") || StartsWith(s, "class ") || StartsWith(s, "module ")
    || StartsWith(s, "if ") || StartsWith(s, "unless ") || StartsWith(s, "while ") || StartsWith(s, "until ")
    || StartsWith(s, "for ") || StartsWith(s, "begin") || StartsWith(s, "case ")
  }

  lemma OpenersAreWords(s: string)
    ensures StartsWithAny(s, OPENERS) <==> OpeningWord(s)
  {
    assert OPENERS[0] == "def " && OPENERS[1] == "class " && OPENERS[2] == "module " && OPENERS[3] == "if ";
    assert OPENERS[4] == "unless " && OPENERS[5] == "while " && OPENERS[6] == "until " && OPENERS[7] == "for ";
    assert OPENERS[8] == "begin" && OPENERS[9] == "case ";
  }

  lemma NotDslAreWords(s: string)
    ensures StartsWithAny(s, NOT_DSL) || StartsWith(s, "def ") <==> OpeningWord(s)
  {
    assert NOT_DSL[0] == "class " && NOT_DSL[1] == "module " && NOT_DSL[2] == "if ";
    assert NOT_DSL[3] == "unless " && NOT_DSL[4] == "while " && NOT_DSL[5] == "until " && NOT_DSL[6] == "for ";
    assert NOT_DSL[7] == "begin" && NOT_DSL[8] == "case ";
  }

  /** What a line counts for: one up for an opening word, a `do` at its end or a `do`
      with parameters, one down for a bare `end`, nothing for a comment or a blank
      line. */
  lemma DeltaMeans(line: string)
    ensures var s := LStrip(line);
            && (Delta(line) == 1 <==>
                  && s != [] && !StartsWith(s, "#") && s != "end"
                  && (OpeningWord(s) || EndsWith(s, " do") || Contains(s, " do |")))
            && (Delta(line) == -1 <==> s == "end")
            && -1 <= Delta(line) <= 1
  {
    OpenersAreWords(Stripped(line));
    DeltaCloses(line);
    EndOpensNothing();
  }

  /** The match of line `start` is the first line at which the depth comes back
      to zero; it is an `end` line, and there is none exactly when the depth
      never does. */
  lemma MatchIsFirstReturn(lines: Lines, start: nat)
    requires start < |lines|
    ensures forall i: nat :: Match(Deltas(lines), start) == Some(i) <==> ClosesAt(Deltas(lines), start + 1, i)
    ensures var r := Match(Deltas(lines), start);
            r.Some? ==> start < r.value < |lines| && Closes(Stripped(lines[r.value]))
  {
    DeltasAreUnit(lines);
    FirstCloseExactly(Deltas(lines), start + 1);
    var r := Match(Deltas(lines), start);
    if r.Some? {
      DeltaCloses(lines[r.value]);
    }
  }

  method StartsWithOpener(stripped: string) returns (b: bool)
    ensures b <==> StartsWithAny(stripped, OPENERS)
  {
    b := false;
    for k := 0 to |OPENERS|
      invariant !b
      invariant forall j :: 0 <= j < k ==> !StartsWith(stripped, OPENERS[j])
    {
      if StartsWith(stripped, OPENERS[k]) {
        return true;
      }
    }
  }

  /** Reading one line: comments and blank lines count nothing; otherwise first
      openers, then `end`. */
  method ReadLine(line: string, depth: int, ghost delta: int) returns (after: int, closed: bool)
    requires delta == Delta(line)
    ensures after == depth + delta && delta >= -1
    ensures closed <==> delta == -1
  {
    EndOpensNothing();
    DeltaCloses(line);
    var stripped := Stripped(line);
    after, closed := depth, false;
    if stripped == [] || StartsWith(stripped, "#") {
      return;
    }
    var opens := StartsWithOpener(stripped);
    if opens {
      after := after + 1;
    } else if EndsWith(stripped, " do") || Contains(stripped, " do |") {
      after := after + 1;
    }
    if stripped == "end" {
      after, closed := after - 1, true;
    }
  }

  method FindMatchingEnd(lines: Lines, start: nat, ghost ds: seq<int>) returns (r: Option<nat>)
    requires start < |lines| && ds == Deltas(lines)
    ensures r == Match(ds, start)
  {
    var depth := 1;
    var i := start + 1;
    while i < |lines|
      invariant start + 1 <= i <= |lines|
      invariant depth == Depth(ds, start + 1, i) >= 1
      invariant FirstClose(ds, start + 1, i) == FirstClose(ds, start + 1, start + 1)
    {
      var closed;
      depth, closed := ReadLine(lines[i], depth, ds[i]);
      if closed && depth == 0 {
        return Some(i);
      }
      i := i + 1;
    }
    r := None;
  }

  // ---------------------------------------------------------------- spans

  predicate IsDef(stripped: string) {
    StartsWith(stripped, "def ")
  }

  predicate IsBlock(stripped: string) {
    (EndsWith(stripped, " do") || EndsWith(stripped, " do |")) && !StartsWithAny(stripped, NOT_DSL)
  }

  /** Which lines may start a span. */
  function Starts(lines: Lines): (r: seq<bool>)
    ensures |r| == |lines|
  {
    seq(|lines|, i requires 0 <= i < |lines| => IsDef(Stripped(lines[i])) || IsBlock(Stripped(lines[i])))
  }

  function Spans(lines: Lines): seq<Stretch> {
    DeltasAreUnit(lines);
    Stretches(Starts(lines), Deltas(lines))
  }

  /** Spans are in order, pairwise disjoint, inside the file and at least two
      lines long; each runs from a `def` or block line to the first line that
      closes it; and no such line with a matching end is left outside all. */
  lemma SpansAreRight(lines: Lines)
    ensures WellCollected(Starts(lines), Deltas(lines), Spans(lines))
    ensures 2 * |Spans(lines)| <= |lines|
    ensures forall s :: s in Spans(lines) ==> s.start + 2 <= s.end <= |lines|
  {
    DeltasAreUnit(lines);
    StretchesAreRight(Starts(lines), Deltas(lines));
  }

  /** The two matching attempts on one line: `def` first, then a block. */
  method SpanStarting(lines: Lines, i: nat, isDef: bool, isBlock: bool, ghost ds: seq<int>) returns (end: Option<nat>)
    requires i < |lines| && ds == Deltas(lines)
    ensures end == if isDef || isBlock then (match Match(ds, i) case Some(e) => Some(e + 1) case None => None) else None
  {
    if isDef {
      var e := FindMatchingEnd(lines, i, ds);
      if e.Some? {
        return Some(e.value + 1);
      }
    }
    if isBlock {
      var e := FindMatchingEnd(lines, i, ds);
      if e.Some? {
        return Some(e.value + 1);
      }
    }
    end := None;
  }

  method FindRubySpans(lines: Lines) returns (spans: seq<Stretch>)
    ensures spans == Spans(lines)
  {
    DeltasAreUnit(lines);
    ghost var ds, starts := Deltas(lines), Starts(lines);
    StretchesAhead(starts, ds);
    ghost var ends := StretchEnds(starts, ds);
    spans := [];
    var i := 0;
    while i < |lines|
      invariant 0 <= i <= |lines|
      invariant spans + Collect(ends, i) == Collect(ends, 0)
    {
      var stripped := Stripped(lines[i]);
      var isDef, isBlock := IsDef(stripped), IsBlock(stripped);
      assert starts[i] == (isDef || isBlock);
      var end := SpanStarting(lines, i, isDef, isBlock, ds);
      assert ends[i] == end;
      if end.Some? {
        spans := spans + [Stretch(i, end.value)];
        i := end.value;
        continue;
      }
      i := i + 1;
    }
  }

  /** Which lines can start a span: those with a `def`, and those ending in ` do` or
      ` do |` that start with no other opening word. */
  lemma StartsMean(lines: Lines, i: nat)
    requires i < |lines|
    ensures var s := LStrip(lines[i]);
            Starts(lines)[i] <==>
            StartsWith(s, "def ") || ((EndsWith(s, " do") || EndsWith(s, " do |")) && !OpeningWord(s))
  {
    NotDslAreWords(Stripped(lines[i]));
  }

  /** A line that neither starts with `def ` nor ends in ` do` or ` do |` starts no
      span. */
  lemma StartsNoSpan(lines: Lines, i: nat)
    requires i < |lines| && !StartsWith(Stripped(lines[i]), "def ")
    requires !EndsWith(Stripped(lines[i]), " do") && !EndsWith(Stripped(lines[i]), " do |")
    ensures forall s :: s in Spans(lines) ==> s.start != i
  {
    SpansAreRight(lines);
    StartsMean(lines, i);
  }

  const WITH_PARAMETER := "a do |x|"

  /** So a block with a parameter starts none, though it opens a block. */
  lemma BlockParameterExample(lines: Lines, i: nat)
    requires i < |lines| && lines[i] == WITH_PARAMETER
    ensures Delta(lines[i]) == 1
    ensures forall s :: s in Spans(lines) ==> s.start != i
  {
    var l := WITH_PARAMETER;
    assert l[0] == 'a' && |l| == 8 && l[7] == '|' && l[6] == 'x';
    assert Stripped(l) == l;
    assert l[1..6] == " do |";
    assert OccursAt(l, " do |", 1);
    assert Contains(l, " do |");
    assert Opens(l);
    NoBlockEnding(l);
    StartsNoSpan(lines, i);
  }

  lemma NoBlockEnding(l: string)
    requires |l| == 8 && l[7] == '|' && l[6] == 'x' && l[0] == 'a'
    ensures !EndsWith(l, " do") && !EndsWith(l, " do |") && !StartsWith(l, "def ")
  {
    assert l[5..][2] == '|' && " do"[2] == 'o';
    assert l[3..][3] == 'x' && " do |"[3] == ' ';
    assert "def "[0] == 'd';
  }

  // ------------------------------------------------- counting or indentation

  function Indent(line: string): int {
    |line| - |Stripped(line)|
  }

  /** Indentation plays no part: files with the same lines after stripping have the
      same spans. */
  lemma SpansIgnoreIndent(a: Lines, b: Lines)
    requires |a| == |b| && forall i :: 0 <= i < |a| ==> Stripped(a[i]) == Stripped(b[i])
    ensures Spans(a) == Spans(b)
  {
    assert Deltas(a) == Deltas(b);
    assert Starts(a) == Starts(b);
  }

  /** Line i is the first `end` after `start` at the indentation of `start`. */
  ghost predicate IndentEnd(lines: Lines, start: nat, i: nat) {
    && start < i < |lines|
    && Closes(Stripped(lines[i])) && Indent(lines[i]) == Indent(lines[start])
    && forall k :: start < k < i ==> !(Closes(Stripped(lines[k])) && Indent(lines[k]) == Indent(lines[start]))
  }

  ghost predicate NoIndentEnd(lines: Lines, start: nat) {
    forall i :: start < i < |lines| ==> !(Closes(Stripped(lines[i])) && start < |lines| && Indent(lines[i]) == Indent(lines[start]))
  }

  /** Openers minus ends on the lines from `from` up to `stop`. */
  function Net(lines: Lines, from: nat, stop: nat): int
    requires from <= stop <= |lines|
    decreases stop
  {
    if from == stop then 0 else Net(lines, from, stop - 1) + Delta(lines[stop - 1])
  }

  /** No line up to `stop` ends more than was opened from `from` on. */
  ghost predicate NeverShort(lines: Lines, from: nat, stop: nat)
    requires from <= stop <= |lines|
  {
    forall k :: from <= k <= stop ==> Net(lines, from, k) >= 0
  }

  lemma {:induction false} DepthIsNet(lines: Lines, from: nat, stop: nat)
    requires from <= stop <= |lines|
    ensures Depth(Deltas(lines), from, stop) == 1 + Net(lines, from, stop)
  {
    if from < stop { DepthIsNet(lines, from, stop - 1); }
  }

  lemma DepthsAreNets(lines: Lines, from: nat)
    requires from <= |lines|
    ensures forall k :: from <= k <= |lines| ==> Depth(Deltas(lines), from, k) == 1 + Net(lines, from, k)
  {
    forall k | from <= k <= |lines|
      ensures Depth(Deltas(lines), from, k) == 1 + Net(lines, from, k)
    {
      DepthIsNet(lines, from, k);
    }
  }

  /** The counted match is the `end` at the opener's indentation exactly when the
      lines in between open as much as they end, and never fall short. */
  lemma CountFindsIndentEnd(lines: Lines, start: nat, i: nat)
    requires IndentEnd(lines, start, i)
    ensures Match(Deltas(lines), start) == Some(i) <==>
            Net(lines, start + 1, i) == 0 && NeverShort(lines, start + 1, i)
  {
    MatchIsFirstReturn(lines, start);
    DepthsAreNets(lines, start + 1);
    DeltaCloses(lines[i]);
    assert Net(lines, start + 1, i + 1) == Net(lines, start + 1, i) - 1;
  }

  /** And where there is no such `end`, the count finds none either exactly when the
      rest of the file never ends more than it opens. */
  lemma CountFindsNoEnd(lines: Lines, start: nat)
    requires start < |lines| && NoIndentEnd(lines, start)
    ensures Match(Deltas(lines), start) == None <==> NeverShort(lines, start + 1, |lines|)
  {
    MatchIsFirstReturn(lines, start);
    DepthsAreNets(lines, start + 1);
    DeltasAreUnit(lines);
    FirstCloseIsFirst(Deltas(lines), start + 1, start + 1);
    var r := Match(Deltas(lines), start);
    if r.Some? {
      assert Depth(Deltas(lines), start + 1, r.value + 1) == 0;
    }
  }

  const SURPLUS: Lines := ["def a", "if b then c end", "end", "end"]

  lemma NothingToStrip(line: string)
    requires line != [] && !IsPythonSpace(line[0])
    ensures Stripped(line) == line
  {
  }

  lemma EndDelta(line: string)
    requires line == "end"
    ensures Delta(line) == -1 && Stripped(line) == line
  {
    NothingToStrip(line);
    DeltaCloses(line);
  }

  lemma OneLineIfDelta(line: string)
    requires |line| > 3 && line[..3] == OPENERS[3]
    ensures Delta(line) == 1 && Stripped(line) == line
  {
    assert line[0] == OPENERS[3][0] == 'i';
    NothingToStrip(line);
    assert StartsWith(line, OPENERS[3]);
  }

  lemma SurplusDeltas()
    ensures Delta(SURPLUS[1]) == 1 && Delta(SURPLUS[2]) == -1 && Delta(SURPLUS[3]) == -1
    ensures forall i :: 0 <= i < 4 ==> Stripped(SURPLUS[i]) == SURPLUS[i]
    ensures IsDef(SURPLUS[0])
  {
    NothingToStrip(SURPLUS[0]);
    OneLineIfDelta(SURPLUS[1]);
    EndDelta(SURPLUS[2]);
    EndDelta(SURPLUS[3]);
  }

  lemma OneEndFurther(ds: seq<int>)
    requires |ds| == 4 && ds[1] == 1 && ds[2] == -1 && ds[3] == -1 && ds[0] >= -1
    ensures Match(ds, 0) == Some(3)
  {
    assert Depth(ds, 1, 1) == 1 && Depth(ds, 1, 2) == 2 && Depth(ds, 1, 3) == 1 && Depth(ds, 1, 4) == 0;
    assert ClosesAt(ds, 1, 3);
    FirstCloseExactly(ds, 1);
  }

  lemma FirstLineSpan(lines: Lines, e: nat)
    requires lines != [] && IsDef(Stripped(lines[0])) && Match(Deltas(lines), 0) == Some(e)
    ensures Stretch(0, e + 1) in Spans(lines)
  {
    var ends := StretchEnds(Starts(lines), Deltas(lines));
    DeltasAreUnit(lines);
    StretchesAhead(Starts(lines), Deltas(lines));
    assert ends[0] == Some(e + 1);
    assert Collect(ends, 0) == [Stretch(0, e + 1)] + Collect(ends, e + 1);
  }

  /** A one-line `if` opens a block that nothing ends, so the method is matched with
      an `end` one too far down, and a method outside any class gets a span. */
  lemma SurplusExample()
    ensures IndentEnd(SURPLUS, 0, 2) && Match(Deltas(SURPLUS), 0) == Some(3)
    ensures Stretch(0, 4) in Spans(SURPLUS)
  {
    SurplusDeltas();
    DeltasAreUnit(SURPLUS);
    OneEndFurther(Deltas(SURPLUS));
    FirstLineSpan(SURPLUS, 3);
  }

  // -------------------------------------------------------------- deletion

  function Size(s: Stretch): int {
    s.end - s.start
  }

  function InsertBySize(x: Stretch, s: seq<Stretch>): seq<Stretch> {
    if s == [] || Size(x) >= Size(s[0]) then [x] + s else [s[0]] + InsertBySize(x, s[1..])
  }

  /** Stable sort, largest first. */
  function LargestFirst(s: seq<Stretch>): seq<Stretch> {
    if s == [] then [] else InsertBySize(s[0], LargestFirst(s[1..]))
  }

  ghost predicate Descending(s: seq<Stretch>) {
    forall i, j :: 0 <= i < j < |s| ==> Size(s[i]) >= Size(s[j])
  }

  lemma {:induction false} InsertBySizeKeeps(x: Stretch, s: seq<Stretch>)
    requires Descending(s)
    ensures Descending(InsertBySize(x, s)) && |InsertBySize(x, s)| == |s| + 1
    ensures forall y :: y in InsertBySize(x, s) <==> y == x || y in s
  {
    if !(s == [] || Size(x) >= Size(s[0])) {
      InsertBySizeKeeps(x, s[1..]);
      var t := InsertBySize(x, s[1..]);
      forall j | 0 <= j < |t|
        ensures Size(s[0]) >= Size(t[j])
      {
        assert t[j] in t;
      }
    }
  }

  lemma {:induction false} LargestFirstSorts(s: seq<Stretch>)
    ensures Descending(LargestFirst(s)) && |LargestFirst(s)| == |s|
    ensures forall y :: y in LargestFirst(s) <==> y in s
  {
    if s != [] {
      LargestFirstSorts(s[1..]);
      InsertBySizeKeeps(s[0], LargestFirst(s[1..]));
    }
  }

  /** Bigger first; of two of a size, the one further up. */
  ghost predicate Precedes(a: Stretch, b: Stretch) {
    Size(a) > Size(b) || (Size(a) == Size(b) && a.start < b.start)
  }

  ghost predicate InOrder(s: seq<Stretch>) {
    forall i, j :: 0 <= i < j < |s| ==> Precedes(s[i], s[j])
  }

  lemma {:induction false} InsertKeepsOrder(x: Stretch, s: seq<Stretch>)
    requires InOrder(s) && forall y :: y in s ==> x.start < y.start
    ensures InOrder(InsertBySize(x, s))
  {
    if !(s == [] || Size(x) >= Size(s[0])) {
      InsertKeepsOrder(x, s[1..]);
      var t := InsertBySize(x, s[1..]);
      InsertedAre(x, s[1..]);
      forall j | 0 <= j < |t|
        ensures Precedes(s[0], t[j])
      {
        assert t[j] in t;
        if t[j] != x {
          var k :| 0 <= k < |s[1..]| && s[1..][k] == t[j];
          assert t[j] == s[k + 1];
        }
      }
    } else {
      forall j | 0 <= j < |s|
        ensures Precedes(x, s[j])
      {
        assert s[j] in s;
        assert j == 0 || Precedes(s[0], s[j]);
      }
    }
  }

  lemma {:induction false} InsertedAre(x: Stretch, s: seq<Stretch>)
    ensures forall y :: y in InsertBySize(x, s) <==> y == x || y in s
  {
    if !(s == [] || Size(x) >= Size(s[0])) { InsertedAre(x, s[1..]); }
  }

  /** The sort is stable: spans that come from the top down are tried largest first,
      and those of a size from the top down. */
  lemma {:induction false} LargestFirstIsStable(s: seq<Stretch>)
    requires forall i, j :: 0 <= i < j < |s| ==> s[i].start < s[j].start
    ensures InOrder(LargestFirst(s))
  {
    if s != [] {
      LargestFirstIsStable(s[1..]);
      LargestFirstSorts(s[1..]);
      forall y | y in LargestFirst(s[1..])
        ensures s[0].start < y.start
      {
        var k :| 0 <= k < |s[1..]| && s[1..][k] == y;
        assert s[k + 1] == y;
      }
      InsertKeepsOrder(s[0], LargestFirst(s[1..]));
    }
  }

  function Cut(lines: Lines, s: Stretch): Lines {
    if s.start <= s.end <= |lines| then lines[..s.start] + lines[s.end..] else lines
  }

  ghost predicate Removable(p: Lines -> bool, lines: Lines, s: Stretch) {
    Cut(lines, s) != [] && p(Cut(lines, s))
  }

  datatype Attempt = Attempt(accepted: Option<Stretch>, tests: nat)

  /** Try the spans in turn; a span that is the whole file is passed over
      without a test. */
  function FirstRemovable(p: Lines -> bool, lines: Lines, spans: seq<Stretch>): Attempt {
    if spans == [] then Attempt(None, 0)
    else if Cut(lines, spans[0]) == [] then FirstRemovable(p, lines, spans[1..])
    else if p(Cut(lines, spans[0])) then Attempt(Some(spans[0]), 1)
    else
      var r := FirstRemovable(p, lines, spans[1..]);
      Attempt(r.accepted, r.tests + 1)
  }

  lemma {:induction false} FirstRemovableIsLargest(p: Lines -> bool, lines: Lines, spans: seq<Stretch>)
    requires Descending(spans)
    ensures var r := FirstRemovable(p, lines, spans);
            && r.tests <= |spans|
            && (r.accepted.Some? ==>
                  && r.accepted.value in spans && Removable(p, lines, r.accepted.value)
                  && forall s :: s in spans && Removable(p, lines, s) ==> Size(s) <= Size(r.accepted.value))
            && (r.accepted.None? ==> forall s :: s in spans ==> !Removable(p, lines, s))
  {
    if spans != [] {
      FirstRemovableIsLargest(p, lines, spans[1..]);
      assert forall s :: s in spans ==> Size(s) <= Size(spans[0]);
      assert forall s :: s in spans <==> s == spans[0] || s in spans[1..];
    }
  }

  /** Of the removable spans the one tried first is taken. */
  lemma {:induction false} FirstRemovableIsFirst(p: Lines -> bool, lines: Lines, spans: seq<Stretch>, s: Stretch)
    requires InOrder(spans) && s in spans && Removable(p, lines, s)
    ensures var r := FirstRemovable(p, lines, spans).accepted;
            r.Some? && (r.value == s || Precedes(r.value, s))
  {
    assert s == spans[0] || s in spans[1..];
    if FirstRemovable(p, lines, spans).accepted == Some(spans[0]) {
      if s != spans[0] {
        var k :| 0 <= k < |spans[1..]| && spans[1..][k] == s;
        assert spans[k + 1] == s;
      }
    } else {
      FirstRemovableIsFirst(p, lines, spans[1..], s);
    }
  }

  /** So the loop deletes, of the spans it may, the largest, and of those the one
      furthest up. */
  lemma LargestTopmostGoes(p: Lines -> bool, lines: Lines, s: Stretch)
    requires s in Spans(lines) && Removable(p, lines, s)
    ensures var r := FirstRemovable(p, lines, LargestFirst(Spans(lines))).accepted;
            && r.Some? && r.value in Spans(lines) && Removable(p, lines, r.value)
            && (r.value == s || Size(r.value) > Size(s) || (Size(r.value) == Size(s) && r.value.start < s.start))
  {
    SpansAreRight(lines);
    LargestFirstIsStable(Spans(lines));
    LargestFirstSorts(Spans(lines));
    FirstRemovableIsLargest(p, lines, LargestFirst(Spans(lines)));
    FirstRemovableIsFirst(p, lines, LargestFirst(Spans(lines)), s);
  }

  /** What the deletion loop needs of the span finder. */
  ghost predicate GoodFinder(find: Lines -> seq<Stretch>) {
    && (forall l, s :: s in find(l) ==> s.start + 2 <= s.end <= |l|)
    && (forall l :: 2 * |find(l)| <= |l|)
  }

  function Finder(): Lines -> seq<Stretch> {
    l => Spans(l)
  }

  lemma FinderIsGood()
    ensures GoodFinder(Finder())
  {
    forall l, s | s in Finder()(l)
      ensures s.start + 2 <= s.end <= |l|
    {
      SpansAreRight(l);
    }
    forall l
      ensures 2 * |Finder()(l)| <= |l|
    {
      SpansAreRight(l);
    }
  }

  /** One scan: the spans of the file, largest first. */
  function TryAll(find: Lines -> seq<Stretch>, p: Lines -> bool, lines: Lines): Attempt {
    FirstRemovable(p, lines, LargestFirst(find(lines)))
  }

  lemma TryAllIsGood(find: Lines -> seq<Stretch>, p: Lines -> bool, lines: Lines)
    requires GoodFinder(find)
    ensures var r := TryAll(find, p, lines);
            && 2 * r.tests <= |lines|
            && (r.accepted.Some? ==>
                  var c := Cut(lines, r.accepted.value);
                  r.accepted.value in find(lines) && c != [] && p(c) && Sub(c, lines) && |c| + 2 <= |lines|)
            && (r.accepted.None? ==> forall s :: s in find(lines) ==> !Removable(p, lines, s))
  {
    LargestFirstSorts(find(lines));
    FirstRemovableIsLargest(p, lines, LargestFirst(find(lines)));
    var r := TryAll(find, p, lines);
    if r.accepted.Some? {
      var s := r.accepted.value;
      assert s in find(lines);
      CutIsSub(lines, s.start, s.end);
    }
  }

  /** Scan, delete, scan again, until no span can go. */
  function ReduceSpans(find: Lines -> seq<Stretch>, p: Lines -> bool, lines: Lines): Outcome
    requires GoodFinder(find)
    decreases |lines|
  {
    TryAllIsGood(find, p, lines);
    var a := TryAll(find, p, lines);
    match a.accepted
    case None => Outcome(lines, a.tests)
    case Some(s) =>
      var r := ReduceSpans(find, p, Cut(lines, s));
      Outcome(r.lines, a.tests + r.tests)
  }

  /** What is left is an interesting subsequence from which no single span can be
      deleted. */
  lemma {:induction false} ReduceSpansShrinks(find: Lines -> seq<Stretch>, p: Lines -> bool, lines: Lines)
    requires GoodFinder(find)
    ensures var r := ReduceSpans(find, p, lines).lines;
            && Sub(r, lines) && (lines != [] ==> r != []) && (r == lines || p(r))
            && forall s :: s in find(r) ==> !Removable(p, r, s)
    decreases |lines|
  {
    TryAllIsGood(find, p, lines);
    match TryAll(find, p, lines).accepted
    case None => SubRefl(lines);
    case Some(s) =>
      ReduceSpansShrinks(find, p, Cut(lines, s));
      SubTrans(ReduceSpans(find, p, Cut(lines, s)).lines, Cut(lines, s), lines);
  }

  /** k + (k - 1) + ... + 1 for a file of 2k or 2k + 1 lines. */
  function SpanBudget(len: nat): nat {
    if len < 2 then 0 else len / 2 + SpanBudget(len - 2)
  }

  lemma {:induction false} SpanBudgetClosed(len: nat)
    ensures 2 * SpanBudget(len) == (len / 2) * (len / 2 + 1)
  {
    if len >= 2 {
      SpanBudgetClosed(len - 2);
      var k := len / 2;
      assert (len - 2) / 2 == k - 1;
      assert k * (k + 1) == (k - 1) * k + 2 * k;
    }
  }

  lemma {:induction false} SpanBudgetGrows(less: nat, len: nat)
    requires less <= len
    ensures SpanBudget(less) <= SpanBudget(len)
    decreases len
  {
    if less < len && len >= 2 {
      if less >= 2 { SpanBudgetGrows(less - 2, len - 2); }
    }
  }

  lemma ReduceSpansStep(find: Lines -> seq<Stretch>, p: Lines -> bool, lines: Lines) returns (a: Attempt, rest: nat)
    requires GoodFinder(find)
    ensures a.tests <= |lines| / 2
    ensures a.accepted.Some? ==>
              |Cut(lines, a.accepted.value)| + 2 <= |lines|
              && rest == ReduceSpans(find, p, Cut(lines, a.accepted.value)).tests
    ensures a.accepted.None? ==> rest == 0
    ensures ReduceSpans(find, p, lines).tests == a.tests + rest
  {
    TryAllIsGood(find, p, lines);
    a := TryAll(find, p, lines);
    rest := if a.accepted.Some? then ReduceSpans(find, p, Cut(lines, a.accepted.value)).tests else 0;
  }

  lemma BudgetCovers(tests: nat, rest: nat, less: nat, len: nat)
    requires tests <= len / 2
    requires rest == 0 || (less + 2 <= len && rest <= SpanBudget(less))
    ensures tests + rest <= SpanBudget(len)
  {
    if rest > 0 { SpanBudgetGrows(less, len - 2); }
  }

  /** At most k(k + 1)/2 tests for a file of N lines, k = N / 2. */
  lemma {:induction false} ReduceSpansTests(find: Lines -> seq<Stretch>, p: Lines -> bool, lines: Lines)
    requires GoodFinder(find)
    ensures ReduceSpans(find, p, lines).tests <= SpanBudget(|lines|)
    decreases |lines|
  {
    var a, rest := ReduceSpansStep(find, p, lines);
    var c := if a.accepted.Some? then Cut(lines, a.accepted.value) else [];
    if a.accepted.Some? { ReduceSpansTests(find, p, c); }
    BudgetCovers(a.tests, rest, |c|, |lines|);
  }
}
