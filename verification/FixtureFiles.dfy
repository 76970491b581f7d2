/** Whole fixture files: `annotate_source` and `parse_fixture`, and that they
    undo each other. */
module FixtureFiles {
  import opened Basics
  import opened Text
  import opened Fixtures

  // ------------------------------------------------------------- printing

  /** The offenses of one line, in the order they were reported. */
  function OnLine(offenses: seq<Offense>, line: int): seq<Offense> {
    if offenses == [] then []
    else if offenses[0].line == line then [offenses[0]] + OnLine(offenses[1..], line)
    else OnLine(offenses[1..], line)
  }

  function InsertByColumn(o: Offense, s: seq<Offense>): seq<Offense> {
    if s == [] || o.column <= s[0].column then [o] + s else [s[0]] + InsertByColumn(o, s[1..])
  }

  /** Python's `sorted`, which is stable. */
  function SortByColumn(s: seq<Offense>): seq<Offense> {
    if s == [] then [] else InsertByColumn(s[0], SortByColumn(s[1..]))
  }

  /** A line of a fixture: source, an offense's annotation, or an explicit
      expectation. The generator prints the first two. */
  datatype Item = Source(text: string) | Mark(offense: Offense) | Directive(e: Expected)

  function Marks(offenses: seq<Offense>): seq<Item> {
    seq(|offenses|, i requires 0 <= i < |offenses| => Mark(offenses[i]))
  }

  /** Source lines from number i on, each followed by its annotations. */
  function Items(lines: seq<string>, offenses: seq<Offense>, i: nat): seq<Item>
    requires i <= |lines|
    decreases |lines| - i
  {
    if i == |lines| then []
    else [Source(lines[i])] + Marks(SortByColumn(OnLine(offenses, i + 1))) + Items(lines, offenses, i + 1)
  }

  function ItemLine(item: Item): string {
    match item
    case Source(text) => text
    case Mark(o) => AnnotationLine(o)
    case Directive(e) => ExpectLine(e)
  }

  function ItemLines(items: seq<Item>): (r: seq<string>)
    ensures |r| == |items|
  {
    if items == [] then [] else [ItemLine(items[0])] + ItemLines(items[1..])
  }

  lemma {:induction false} ItemLinesConcat(a: seq<Item>, b: seq<Item>)
    ensures ItemLines(a + b) == ItemLines(a) + ItemLines(b)
  {
    if a == [] {
      assert a + b == b;
    } else {
      assert (a + b)[1..] == a[1..] + b;
      ItemLinesConcat(a[1..], b);
    }
  }

  function Annotated(lines: seq<string>, offenses: seq<Offense>): seq<string> {
    ItemLines(Items(lines, offenses, 0))
  }

  /** The text the generator writes. */
  function Output(lines: seq<string>, offenses: seq<Offense>): string {
    Join(Annotated(lines, offenses), '\n') + "\n"
  }

  lemma {:induction false} OnLineSnoc(offenses: seq<Offense>, o: Offense, line: int)
    ensures OnLine(offenses + [o], line) == OnLine(offenses, line) + (if o.line == line then [o] else [])
  {
    if offenses == [] {
      assert offenses + [o] == [o];
    } else {
      assert (offenses + [o])[1..] == offenses[1..] + [o];
      OnLineSnoc(offenses[1..], o, line);
    }
  }

  /** The grouping half of `annotate_source`. */
  method GroupByLine(offenses: seq<Offense>) returns (byLine: map<int, seq<Offense>>)
    ensures forall l :: l in byLine ==> byLine[l] == OnLine(offenses, l)
    ensures forall l :: l !in byLine ==> OnLine(offenses, l) == []
  {
    byLine := map[];
    for k := 0 to |offenses|
      invariant forall l :: l in byLine ==> byLine[l] == OnLine(offenses[..k], l)
      invariant forall l :: l !in byLine ==> OnLine(offenses[..k], l) == []
    {
      var o := offenses[k];
      assert offenses[..k+1] == offenses[..k] + [o];
      forall l
        ensures OnLine(offenses[..k+1], l) == OnLine(offenses[..k], l) + (if o.line == l then [o] else [])
      {
        OnLineSnoc(offenses[..k], o, l);
      }
      byLine := byLine[o.line := (if o.line in byLine then byLine[o.line] else []) + [o]];
    }
    assert offenses[..|offenses|] == offenses;
  }

  function AnnotationLines(offenses: seq<Offense>): seq<string> {
    ItemLines(Marks(offenses))
  }

  /** One source line followed by its annotations. */
  method PrintLine(line: string, here: seq<Offense>, before: seq<string>) returns (output: seq<string>)
    ensures output == before + [line] + AnnotationLines(here)
  {
    output := before + [line];
    for k := 0 to |here|
      invariant output == before + [line] + ItemLines(Marks(here)[..k])
    {
      assert Marks(here)[..k+1] == Marks(here)[..k] + [Mark(here[k])];
      ItemLinesConcat(Marks(here)[..k], [Mark(here[k])]);
      output := output + [AnnotationLine(here[k])];
    }
    assert Marks(here)[..|here|] == Marks(here);
  }

  lemma ItemsStep(lines: seq<string>, offenses: seq<Offense>, i: nat)
    requires i < |lines|
    ensures ItemLines(Items(lines, offenses, i)) ==
            [lines[i]] + AnnotationLines(SortByColumn(OnLine(offenses, i + 1))) + ItemLines(Items(lines, offenses, i + 1))
  {
    var marks := Marks(SortByColumn(OnLine(offenses, i + 1)));
    ItemLinesConcat([Source(lines[i])] + marks, Items(lines, offenses, i + 1));
    ItemLinesConcat([Source(lines[i])], marks);
  }

  /** What the generator writes from line `i` on. */
  function AnnotatedFrom(lines: seq<string>, offenses: seq<Offense>, i: nat): seq<string>
    requires i <= |lines|
  {
    ItemLines(Items(lines, offenses, i))
  }

  lemma Regroup<T>(a: seq<T>, b: seq<T>, c: seq<T>, d: seq<T>)
    ensures a + (b + c + d) == (a + b + c) + d
  {
  }

  lemma PrintedSoFar(lines: seq<string>, offenses: seq<Offense>, i: nat, before: seq<string>)
    requires i < |lines|
    ensures before + AnnotatedFrom(lines, offenses, i) ==
            (before + [lines[i]] + AnnotationLines(SortByColumn(OnLine(offenses, i + 1))))
            + AnnotatedFrom(lines, offenses, i + 1)
  {
    ItemsStep(lines, offenses, i);
    Regroup(before, [lines[i]], AnnotationLines(SortByColumn(OnLine(offenses, i + 1))),
            AnnotatedFrom(lines, offenses, i + 1));
  }

  lemma NothingAfterTheLastLine(lines: seq<string>, offenses: seq<Offense>, output: seq<string>)
    ensures output + AnnotatedFrom(lines, offenses, |lines|) == output
    ensures AnnotatedFrom(lines, offenses, 0) == Annotated(lines, offenses)
  {
  }

  /** `annotate_source`. */
  method AnnotateSource(lines: seq<string>, offenses: seq<Offense>) returns (output: seq<string>)
    ensures output == Annotated(lines, offenses)
  {
    var byLine := GroupByLine(offenses);
    output := [];
    NothingAfterTheLastLine(lines, offenses, output);
    ghost var whole := Annotated(lines, offenses);
    for i := 0 to |lines|
      invariant output + AnnotatedFrom(lines, offenses, i) == whole
    {
      var here := SortByColumn(if i + 1 in byLine then byLine[i + 1] else []);
      PrintedSoFar(lines, offenses, i, output);
      output := PrintLine(lines[i], here, output);
    }
    NothingAfterTheLastLine(lines, offenses, output);
  }

  // -------------------------------------------------------------- parsing

  datatype Parsed = Parsed(source: string, expected: seq<Expected>, filename: Option<string>)

  /** Lines kept and offenses read. */
  datatype Body = Body(sources: seq<string>, expected: seq<Expected>)

  /** What one element of a fixture file is. */
  datatype Reading = Explicit(e: Expected) | Caret(a: Annotation) | Kept(text: string)

  function Read(element: string): Reading {
    match TryParseExpect(element)
    case Some(e) => Explicit(e)
    case None =>
      match TryParseAnnotation(element)
      case Some(a) => Caret(a)
      case None => Kept(element)
  }

  function ReadAll(elements: seq<string>): (r: seq<Reading>)
    ensures |r| == |elements| && forall i :: 0 <= i < |r| ==> r[i] == Read(elements[i])
  {
    if elements == [] then [] else [Read(elements[0])] + ReadAll(elements[1..])
  }

  /** What the loop has collected, put in front of what is still to come. */
  function Onto(sources: seq<string>, expected: seq<Expected>, rest: Option<Body>): Option<Body> {
    match rest
    case None => None
    case Some(b) => Some(Body(sources + b.sources, expected + b.expected))
  }

  /** The outcome for the remaining elements when `n` source lines have been
      seen; None is the panic on an annotation with no line before it. */
  function Assemble(readings: seq<Reading>, n: nat): Option<Body> {
    if readings == [] then Some(Body([], []))
    else
      match readings[0]
      case Explicit(e) => Onto([], [e], Assemble(readings[1..], n))
      case Caret(a) =>
        if n == 0 then None
        else Onto([], [Expected(n, a.column, a.copName, a.message)], Assemble(readings[1..], n))
      case Kept(text) => Onto([text], [], Assemble(readings[1..], n + 1))
  }

  lemma OntoOnto(s: seq<string>, e: seq<Expected>, s': seq<string>, e': seq<Expected>, rest: Option<Body>)
    ensures Onto(s, e, Onto(s', e', rest)) == Onto(s + s', e + e', rest)
    ensures Onto([], [], rest) == rest
  {
    if rest.Some? {
      var b := rest.value;
      assert s + (s' + b.sources) == s + s' + b.sources && e + (e' + b.expected) == e + e' + b.expected;
      assert [] + b.sources == b.sources && [] + b.expected == b.expected;
    }
  }

  function ParseFixtureText(text: string): Option<Parsed> {
    var elements := Split(text, '\n');
    var filename := TryParseFilename(elements[0]);
    var body := if filename.Some? then elements[1..] else elements;
    match Assemble(ReadAll(body), 0)
    case None => None
    case Some(b) => Some(Parsed(Join(b.sources, '\n'), b.expected, filename))
  }

  /** The classification of one element, as the parser does it. */
  method Classify(element: string) returns (r: Reading)
    ensures r == Read(element)
  {
    var explicit := TryParseExpect(element);
    if explicit.Some? {
      return Explicit(explicit.value);
    }
    var annotation := TryParseAnnotation(element);
    if annotation.Some? {
      return Caret(annotation.value);
    }
    r := Kept(element);
  }

  method ParseBody(elements: seq<string>) returns (r: Option<Body>)
    ensures r == Assemble(ReadAll(elements), 0)
  {
    ghost var readings := ReadAll(elements);
    var sources: seq<string> := [];
    var expected: seq<Expected> := [];
    OntoOnto([], [], [], [], Assemble(readings, 0));
    assert readings[0..] == readings;
    for i := 0 to |elements|
      invariant Assemble(readings, 0) == Onto(sources, expected, Assemble(readings[i..], |sources|))
    {
      var reading := Classify(elements[i]);
      assert readings[i..][0] == reading && readings[i..][1..] == readings[i+1..];
      ghost var rest := readings[i+1..];
      match reading
      case Explicit(e) =>
        OntoOnto(sources, expected, [], [e], Assemble(rest, |sources|));
        expected := expected + [e];
        assert sources + [] == sources;
      case Caret(a) =>
        if sources == [] {
          return None;
        }
        var e := Expected(|sources|, a.column, a.copName, a.message);
        OntoOnto(sources, expected, [], [e], Assemble(rest, |sources|));
        expected := expected + [e];
        assert sources + [] == sources;
      case Kept(text) =>
        OntoOnto(sources, expected, [text], [], Assemble(rest, |sources| + 1));
        sources := sources + [elements[i]];
        assert expected + [] == expected;
    }
    assert readings[|elements|..] == [];
    assert sources + [] == sources && expected + [] == expected;
    r := Some(Body(sources, expected));
  }

  /** `parse_fixture`; None stands for its panic. */
  method ParseFixture(text: string) returns (r: Option<Parsed>)
    ensures r == ParseFixtureText(text)
  {
    var elements := Split(text, '\n');
    var filename := TryParseFilename(elements[0]);
    var body := ParseBody(if filename.Some? then elements[1..] else elements);
    if body.None? {
      return None;
    }
    r := Some(Parsed(Join(body.value.sources, '\n'), body.value.expected, filename));
  }

  // ----------------------------------------------------------- round trip

  /** A line the parser keeps as source. */
  predicate Plain(line: string) {
    Read(line) == Kept(line)
  }

  function SourcesOf(items: seq<Item>): seq<string> {
    if items == [] then []
    else if items[0].Source? then [items[0].text] + SourcesOf(items[1..])
    else SourcesOf(items[1..])
  }

  /** The expectation an offense on a line of the file should read back as. */
  function Expect(o: Offense): Expected {
    Expected(Clamp(o.line, 0), Clamp(o.column, 0), o.copName, o.message)
  }

  function ExpectedOf(items: seq<Item>): seq<Expected> {
    if items == [] then []
    else
      match items[0]
      case Source(_) => ExpectedOf(items[1..])
      case Mark(o) => [Expect(o)] + ExpectedOf(items[1..])
      case Directive(e) => [e] + ExpectedOf(items[1..])
  }

  /** Annotations carry the number of source lines seen so far, which is not none;
      explicit expectations stand anywhere. */
  ghost predicate Numbered(items: seq<Item>, n: nat) {
    if items == [] then true
    else
      match items[0]
      case Source(_) => Numbered(items[1..], n + 1)
      case Mark(o) => n > 0 && o.line == n && Numbered(items[1..], n)
      case Directive(_) => Numbered(items[1..], n)
  }

  /** The readings a list of lines yields: source lines are kept; an annotation is
      never read as an explicit one nor the other way round, and either reads back
      exactly if it is `good`. */
  ghost predicate Yields(items: seq<Item>, readings: seq<Reading>, good: seq<bool>) {
    && |readings| == |items| == |good|
    && forall i :: 0 <= i < |items| ==> YieldsOne(items[i], readings[i], good[i])
  }

  ghost predicate YieldsOne(item: Item, reading: Reading, good: bool) {
    match item
    case Source(text) => reading == Kept(text) && good
    case Mark(o) => !reading.Explicit? && (reading == Caret(Readback(o)) <==> good)
    case Directive(e) => !reading.Caret? && (reading == Explicit(e) <==> good)
  }

  ghost predicate All(good: seq<bool>) {
    forall i :: 0 <= i < |good| ==> good[i]
  }

  lemma AllTail(good: seq<bool>)
    requires good != []
    ensures All(good) <==> good[0] && All(good[1..])
  {
    if good[0] && All(good[1..]) {
      forall i | 0 <= i < |good|
        ensures good[i]
      {
        assert i == 0 || good[1..][i-1];
      }
    }
  }

  /** Annotations that do not parse only add source lines. */
  lemma {:induction false} SourcesAtLeast(items: seq<Item>, readings: seq<Reading>, good: seq<bool>, n: nat)
    requires Yields(items, readings, good)
    ensures var r := Assemble(readings, n);
            r.Some? ==> |r.value.sources| >= |SourcesOf(items)|
    decreases |items|
  {
    if items != [] {
      SourcesAtLeast(items[1..], readings[1..], good[1..], n);
      SourcesAtLeast(items[1..], readings[1..], good[1..], n + 1);
    }
  }

  ghost predicate ReadsBack(items: seq<Item>, readings: seq<Reading>, n: nat) {
    Assemble(readings, n) == Some(Body(SourcesOf(items), ExpectedOf(items)))
  }

  lemma OntoSame(s: seq<string>, e: seq<Expected>, s': seq<string>, e': seq<Expected>, rest: Option<Body>, b: Body)
    requires |s| == |s'| && |e| == |e'|
    ensures Onto(s, e, rest) == Some(Body(s' + b.sources, e' + b.expected)) <==> s == s' && e == e' && rest == Some(b)
  {
    if Onto(s, e, rest) == Some(Body(s' + b.sources, e' + b.expected)) {
      var r := rest.value;
      SamePieces(s, r.sources, s', b.sources);
      SamePieces(e, r.expected, e', b.expected);
    }
  }

  lemma SamePieces<T>(a: seq<T>, b: seq<T>, c: seq<T>, d: seq<T>)
    requires |a| == |c| && a + b == c + d
    ensures a == c && b == d
  {
    assert (a + b)[..|a|] == a && (c + d)[..|a|] == c;
    assert (a + b)[|a|..] == b && (c + d)[|a|..] == d;
  }

  /** A numbered list of source lines, annotations and explicit expectations, in any
      mixture, assembles to its source lines alone and its expectations in order,
      the explicit ones as they are: exactly when every one of them is good. */
  lemma {:induction false} ItemsRoundTrip(items: seq<Item>, readings: seq<Reading>, good: seq<bool>, n: nat)
    requires Yields(items, readings, good) && Numbered(items, n)
    ensures ReadsBack(items, readings, n) <==> All(good)
    decreases |items|
  {
    if items != [] {
      var rest, tail := items[1..], readings[1..];
      var b := Body(SourcesOf(rest), ExpectedOf(rest));
      AllTail(good);
      match items[0]
      case Source(text) =>
        ItemsRoundTrip(rest, tail, good[1..], n + 1);
        OntoSame([text], [], [text], [], Assemble(tail, n + 1), b);
        assert [] + b.expected == b.expected;
      case Mark(o) =>
        ItemsRoundTrip(rest, tail, good[1..], n);
        assert [] + b.sources == b.sources;
        match readings[0] {
        case Caret(a) =>
          OntoSame([], [Expected(n, a.column, a.copName, a.message)], [], [Expect(o)], Assemble(tail, n), b);
        case Kept(text) =>
          SourcesAtLeast(rest, tail, good[1..], n + 1);
          assert !good[0];
        }
      case Directive(e) =>
        ItemsRoundTrip(rest, tail, good[1..], n);
        assert [] + b.sources == b.sources;
        match readings[0] {
        case Explicit(f) =>
          OntoSame([], [f], [], [e], Assemble(tail, n), b);
        case Kept(text) =>
          SourcesAtLeast(rest, tail, good[1..], n + 1);
          assert !good[0];
        }
    }
  }
}
