/** The generator and the fixture parser undo each other, and exactly when. */
module FixtureRoundTrip {
  import opened Basics
  import opened Text
  import opened Fixtures
  import opened FixtureFiles

  // ---------------------------------------------------- lines and newlines

  predicate NewlineFree(s: string) {
    '\n' !in s
  }

  ghost predicate AllNewlineFree(lines: seq<string>) {
    forall i :: 0 <= i < |lines| ==> NewlineFree(lines[i])
  }

  predicate InRange(o: Offense, n: nat) {
    1 <= o.line <= n
  }

  /** What is printed of an offense on a line of the file fits on one line. */
  ghost predicate OffensesFitLines(offenses: seq<Offense>, n: nat) {
    forall o :: o in offenses && InRange(o, n) ==> NewlineFree(o.copName) && NewlineFree(o.message)
  }

  ghost predicate OneLineEach(lines: seq<string>, offenses: seq<Offense>) {
    AllNewlineFree(lines) && OffensesFitLines(offenses, |lines|)
  }

  lemma {:induction false} JoinTerminated(parts: seq<string>)
    requires parts != []
    ensures Join(parts + [""], '\n') == Join(parts, '\n') + "\n"
  {
    if |parts| == 1 {
      assert (parts + [""])[1..] == [""];
      assert parts[0] + ['\n'] + "" == parts[0] + "\n";
    } else {
      assert (parts + [""])[1..] == parts[1..] + [""];
      JoinTerminated(parts[1..]);
      assert parts[0] + ['\n'] + (Join(parts[1..], '\n') + "\n") == parts[0] + ['\n'] + Join(parts[1..], '\n') + "\n";
    }
  }

  lemma {:induction false} SplitIsNewlineFree(text: string)
    ensures AllNewlineFree(Split(text, '\n'))
  {
    if text != [] {
      SplitIsNewlineFree(text[1..]);
      var rest := Split(text[1..], '\n');
      assert NewlineFree(rest[0]);
    }
  }

  lemma SplitOfTerminated(parts: seq<string>)
    requires parts != [] && AllNewlineFree(parts)
    ensures Split(Join(parts, '\n') + "\n", '\n') == parts + [""]
  {
    JoinTerminated(parts);
    forall p | p in parts + [""]
      ensures '\n' !in p
    {
      var i :| 0 <= i < |parts + [""]| && (parts + [""])[i] == p;
      assert i < |parts| ==> NewlineFree(parts[i]);
    }
    SplitJoin(parts + [""], '\n');
  }

  // ------------------------------------------------------ the printed items

  lemma {:induction false} OnLineContents(offenses: seq<Offense>, line: int)
    ensures forall o :: o in OnLine(offenses, line) <==> o in offenses && o.line == line
  {
    if offenses != [] { OnLineContents(offenses[1..], line); }
  }

  lemma {:induction false} InsertContents(o: Offense, s: seq<Offense>)
    ensures forall x :: x in InsertByColumn(o, s) <==> x == o || x in s
  {
    if !(s == [] || o.column <= s[0].column) { InsertContents(o, s[1..]); }
  }

  lemma {:induction false} SortContents(s: seq<Offense>)
    ensures forall x :: x in SortByColumn(s) <==> x in s
  {
    if s != [] {
      SortContents(s[1..]);
      InsertContents(s[0], SortByColumn(s[1..]));
    }
  }

  /** The annotations below source line i + 1. */
  function Below(offenses: seq<Offense>, i: nat): seq<Offense> {
    SortByColumn(OnLine(offenses, i + 1))
  }

  lemma BelowContents(offenses: seq<Offense>, i: nat)
    ensures forall o :: o in Below(offenses, i) <==> o in offenses && o.line == i + 1
  {
    OnLineContents(offenses, i + 1);
    SortContents(OnLine(offenses, i + 1));
  }

  /** The offenses in the order they are printed. */
  function Printed(offenses: seq<Offense>, i: nat, n: nat): seq<Offense>
    requires i <= n
    decreases n - i
  {
    if i == n then [] else Below(offenses, i) + Printed(offenses, i + 1, n)
  }

  function Expectations(offenses: seq<Offense>): seq<Expected> {
    if offenses == [] then [] else [Expect(offenses[0])] + Expectations(offenses[1..])
  }

  lemma {:induction false} ExpectationsConcat(a: seq<Offense>, b: seq<Offense>)
    ensures Expectations(a + b) == Expectations(a) + Expectations(b)
  {
    if a == [] {
      assert a + b == b;
    } else {
      assert (a + b)[1..] == a[1..] + b;
      ExpectationsConcat(a[1..], b);
    }
  }

  lemma {:induction false} MarksInFront(offenses: seq<Offense>, rest: seq<Item>, n: nat)
    requires forall o :: o in offenses ==> o.line == n
    ensures SourcesOf(Marks(offenses) + rest) == SourcesOf(rest)
    ensures ExpectedOf(Marks(offenses) + rest) == Expectations(offenses) + ExpectedOf(rest)
    ensures n > 0 ==> (Numbered(Marks(offenses) + rest, n) <==> Numbered(rest, n))
  {
    if offenses == [] {
      assert Marks(offenses) + rest == rest;
    } else {
      var items := Marks(offenses) + rest;
      assert items[0] == Mark(offenses[0]);
      assert items[1..] == Marks(offenses[1..]) + rest;
      MarksInFront(offenses[1..], rest, n);
    }
  }

  lemma Cons<T>(first: T, middle: seq<T>, rest: seq<T>, end: seq<T>)
    ensures var all := [first] + middle + rest + end;
            all[0] == first && all[1..] == middle + (rest + end)
  {
    assert [first] + middle + rest + end == [first] + (middle + (rest + end));
  }

  lemma ItemsUnfold(lines: seq<string>, offenses: seq<Offense>, i: nat, end: seq<Item>)
    requires i < |lines|
    ensures var all := Items(lines, offenses, i) + end;
            && all[0] == Source(lines[i])
            && all[1..] == Marks(Below(offenses, i)) + (Items(lines, offenses, i + 1) + end)
  {
    Cons(Source(lines[i]), Marks(Below(offenses, i)), Items(lines, offenses, i + 1), end);
  }

  /** The printed items, with the empty line the final newline makes. */
  lemma {:induction false} ItemsAreRegular(lines: seq<string>, offenses: seq<Offense>, i: nat)
    requires i <= |lines|
    ensures var all := Items(lines, offenses, i) + [Source("")];
            && Numbered(all, i)
            && SourcesOf(all) == lines[i..] + [""]
            && ExpectedOf(all) == Expectations(Printed(offenses, i, |lines|))
    decreases |lines| - i
  {
    var end := [Source("")];
    if i == |lines| {
      assert Items(lines, offenses, i) + end == end;
      assert end[1..] == [];
      assert lines[i..] + [""] == [""];
    } else {
      ItemsAreRegular(lines, offenses, i + 1);
      ItemsUnfold(lines, offenses, i, end);
      BelowContents(offenses, i);
      MarksInFront(Below(offenses, i), Items(lines, offenses, i + 1) + end, i + 1);
      ExpectationsConcat(Below(offenses, i), Printed(offenses, i + 1, |lines|));
      assert lines[i..] + [""] == [lines[i]] + (lines[i+1..] + [""]);
    }
  }

  /** The marks are the offenses on lines of the file, no others. */
  lemma {:induction false} ItemsContents(lines: seq<string>, offenses: seq<Offense>, i: nat)
    requires i <= |lines|
    ensures forall o :: Mark(o) in Items(lines, offenses, i) <==> o in offenses && i + 1 <= o.line <= |lines|
    ensures forall t :: Source(t) in Items(lines, offenses, i) ==> t in lines[i..]
    ensures forall e :: Directive(e) !in Items(lines, offenses, i)
    decreases |lines| - i
  {
    if i < |lines| {
      ItemsContents(lines, offenses, i + 1);
      BelowContents(offenses, i);
      var marks := Marks(Below(offenses, i));
      assert forall o :: Mark(o) in marks <==> o in Below(offenses, i) by {
        forall o | o in Below(offenses, i)
          ensures Mark(o) in marks
        {
          var k :| 0 <= k < |Below(offenses, i)| && Below(offenses, i)[k] == o;
          assert marks[k] == Mark(o);
        }
      }
      assert lines[i..] == [lines[i]] + lines[i+1..];
    }
  }

  // -------------------------------------------------------- the round trip

  lemma AnnotationIsOneLine(o: Offense)
    requires NewlineFree(o.copName) && NewlineFree(o.message)
    ensures NewlineFree(AnnotationLine(o))
  {
  }

  lemma {:induction false} ItemLinesAt(items: seq<Item>)
    ensures forall i :: 0 <= i < |items| ==> ItemLines(items)[i] == ItemLine(items[i])
  {
    if items != [] { ItemLinesAt(items[1..]); }
  }

  lemma AnnotatedIsNewlineFree(lines: seq<string>, offenses: seq<Offense>)
    requires OneLineEach(lines, offenses)
    ensures AllNewlineFree(Annotated(lines, offenses))
  {
    var items := Items(lines, offenses, 0);
    ItemLinesAt(items);
    ItemsContents(lines, offenses, 0);
    forall i | 0 <= i < |items|
      ensures NewlineFree(ItemLines(items)[i])
    {
      assert items[i] in items;
      match items[i]
      case Source(t) =>
        var k :| 0 <= k < |lines[0..]| && lines[0..][k] == t;
        assert NewlineFree(lines[k]);
      case Mark(o) => AnnotationIsOneLine(o);
      case Directive(e) => assert false;
    }
  }

  /** The elements the parser sees: the printed lines and one empty line. */
  lemma ElementsOfOutput(lines: seq<string>, offenses: seq<Offense>)
    requires OneLineEach(lines, offenses) && lines != []
    ensures var items := Items(lines, offenses, 0) + [Source("")];
            Split(Output(lines, offenses), '\n') == ItemLines(items) && ItemLines(items)[0] == lines[0]
  {
    AnnotatedIsNewlineFree(lines, offenses);
    SplitOfTerminated(Annotated(lines, offenses));
    ItemLinesConcat(Items(lines, offenses, 0), [Source("")]);
    assert ItemLines([Source("")]) == [""];
    ItemsUnfold(lines, offenses, 0, [Source("")]);
  }

  lemma EmptyLineIsPlain()
    ensures Plain("")
  {
    assert EXPECT_PREFIX[0] == '#';
  }

  /** What an explicit expectation needs to read back. */
  predicate Writable(e: Expected) {
    && e.line < 0x1_0000_0000_0000_0000 && e.column < 0x1_0000_0000_0000_0000
    && Printable(Offense(e.line, e.column, 1, e.copName, e.message))
  }

  predicate GoodItem(item: Item) {
    match item
    case Source(_) => true
    case Mark(o) => Printable(o)
    case Directive(e) => Writable(e)
  }

  /** Which annotations read back. */
  function Good(items: seq<Item>): seq<bool> {
    seq(|items|, i requires 0 <= i < |items| => GoodItem(items[i]))
  }

  lemma AnnotationIsNotExpect(o: Offense)
    ensures TryParseExpect(AnnotationLine(o)).None?
  {
    assert AnnotationLine(o)[0] == ' ' || AnnotationLine(o)[0] == '^';
    assert EXPECT_PREFIX[0] == '#';
  }

  lemma ReadingOfMark(o: Offense)
    ensures !Read(AnnotationLine(o)).Explicit?
    ensures Read(AnnotationLine(o)) == Caret(Readback(o)) <==> Printable(o)
  {
    AnnotationIsNotExpect(o);
    AnnotationRoundTrip(o);
  }

  lemma HashIsNoAnnotation(line: string)
    requires line != [] && line[0] == '#'
    ensures TryParseAnnotation(line) == None
  {
    assert TrimStart(line) == line;
  }

  lemma ExpectLineStart(e: Expected)
    ensures ExpectLine(e) != [] && ExpectLine(e)[0] == '#'
  {
    assert EXPECT_PREFIX[0] == '#';
  }

  lemma ReadingOfDirective(e: Expected)
    ensures !Read(ExpectLine(e)).Caret?
    ensures Read(ExpectLine(e)) == Explicit(e) <==> Writable(e)
  {
    ExpectLineStart(e);
    HashIsNoAnnotation(ExpectLine(e));
    ExpectRoundTrip(e);
  }

  lemma ReadingOfItem(item: Item)
    requires item.Source? ==> Plain(item.text)
    ensures YieldsOne(item, Read(ItemLine(item)), GoodItem(item))
  {
    match item
    case Source(_) =>
    case Mark(o) => ReadingOfMark(o);
    case Directive(e) => ReadingOfDirective(e);
  }

  lemma {:induction false} ReadingsOfItems(items: seq<Item>)
    requires forall i :: 0 <= i < |items| && items[i].Source? ==> Plain(items[i].text)
    ensures Yields(items, ReadAll(ItemLines(items)), Good(items))
  {
    ItemLinesAt(items);
    var readings, good := ReadAll(ItemLines(items)), Good(items);
    forall i | 0 <= i < |items|
      ensures YieldsOne(items[i], readings[i], good[i])
    {
      ReadingOfItem(items[i]);
    }
  }

  /** Only lines read as source end up in the source. */
  lemma {:induction false} AssembledAreKept(readings: seq<Reading>, n: nat)
    ensures var r := Assemble(readings, n);
            r.Some? ==> forall t :: t in r.value.sources ==> Kept(t) in readings
  {
    if readings != [] {
      AssembledAreKept(readings[1..], n);
      AssembledAreKept(readings[1..], n + 1);
    }
  }

  lemma KeptIsPlain(elements: seq<string>, t: string)
    requires Kept(t) in ReadAll(elements)
    ensures Plain(t) && t in elements
  {
    var i :| 0 <= i < |elements| && ReadAll(elements)[i] == Kept(t);
    assert Read(elements[i]) == Kept(t);
  }

  /** The cleaned text determines the cleaned lines. */
  lemma CleanTextDetermines(elements: seq<string>, n: nat, lines: seq<string>)
    requires AllNewlineFree(elements) && AllNewlineFree(lines) && lines != []
    requires Assemble(ReadAll(elements), n).Some?
    ensures var b := Assemble(ReadAll(elements), n).value;
            Join(b.sources, '\n') == Join(lines, '\n') + "\n" <==> b.sources == lines + [""]
  {
    var b := Assemble(ReadAll(elements), n).value;
    JoinTerminated(lines);
    if Join(b.sources, '\n') == Join(lines, '\n') + "\n" {
      assert b.sources != [];
      AssembledAreKept(ReadAll(elements), n);
      forall p | p in b.sources
        ensures '\n' !in p
      {
        KeptIsPlain(elements, p);
        var i :| 0 <= i < |elements| && elements[i] == p;
        assert NewlineFree(elements[i]);
      }
      SplitJoin(b.sources, '\n');
      SplitOfTerminated(lines);
    }
  }

  ghost predicate Recovered(lines: seq<string>, offenses: seq<Offense>) {
    ParseFixtureText(Output(lines, offenses)) ==
    Some(Parsed(Join(lines, '\n') + "\n", Expectations(Printed(offenses, 0, |lines|)), None))
  }

  ghost predicate AllPlain(lines: seq<string>) {
    forall i :: 0 <= i < |lines| ==> Plain(lines[i])
  }

  /** What a caller can check beforehand. */
  ghost predicate Annotatable(lines: seq<string>, offenses: seq<Offense>) {
    && AllPlain(lines)
    && (lines != [] ==> TryParseFilename(lines[0]).None?)
    && OffensesFitLines(offenses, |lines|)
    && forall o :: o in offenses && InRange(o, |lines|) ==> Printable(o)
  }

  // ------------------------------------------- annotations with line breaks

  lemma {:induction false} SplitAdds(a: string, b: string)
    ensures |Split(a + "\n" + b, '\n')| == |Split(a, '\n')| + |Split(b, '\n')|
  {
    if a == [] {
      assert a + "\n" + b == ['\n'] + b;
    } else {
      assert (a + "\n" + b)[1..] == a[1..] + "\n" + b;
      SplitAdds(a[1..], b);
    }
  }

  lemma {:induction false} SplitInOne(s: string)
    ensures |Split(s, '\n')| == 1 <==> NewlineFree(s)
  {
    if s != [] {
      SplitInOne(s[1..]);
      assert s == [s[0]] + s[1..];
    }
  }

  /** Joined parts split into at least as many, and into just as many only if none
      of them holds a line break. */
  lemma {:induction false} SplitCounts(parts: seq<string>)
    requires parts != []
    ensures |Split(Join(parts, '\n'), '\n')| >= |parts|
    ensures |Split(Join(parts, '\n'), '\n')| == |parts| ==> AllNewlineFree(parts)
  {
    SplitInOne(parts[0]);
    if |parts| > 1 {
      SplitCounts(parts[1..]);
      SplitAdds(parts[0], Join(parts[1..], '\n'));
      assert parts[0] + "\n" + Join(parts[1..], '\n') == Join(parts, '\n');
      if |Split(Join(parts, '\n'), '\n')| == |parts| {
        forall i | 0 <= i < |parts|
          ensures NewlineFree(parts[i])
        {
          assert i > 0 ==> NewlineFree(parts[1..][i-1]);
        }
      }
    }
  }

  /** Every element read ends up as a source line or as an expectation. */
  lemma {:induction false} AssembledCount(readings: seq<Reading>, n: nat)
    ensures var r := Assemble(readings, n);
            r.Some? ==> |r.value.sources| + |r.value.expected| == |readings|
  {
    if readings != [] {
      AssembledCount(readings[1..], n);
      AssembledCount(readings[1..], n + 1);
    }
  }

  lemma {:induction false} ItemsCount(items: seq<Item>)
    ensures |SourcesOf(items)| + |ExpectedOf(items)| == |items|
  {
    if items != [] { ItemsCount(items[1..]); }
  }

  /** A file that is recovered was printed one line for each item. */
  lemma RecoveredIsOneLineEach(lines: seq<string>, offenses: seq<Offense>)
    requires AllNewlineFree(lines) && lines != [] && Recovered(lines, offenses)
    ensures OneLineEach(lines, offenses)
  {
    var printed := Annotated(lines, offenses);
    var elements := Split(Output(lines, offenses), '\n');
    var items := Items(lines, offenses, 0);
    JoinTerminated(printed);
    SplitCounts(printed + [""]);
    SplitIsNewlineFree(Output(lines, offenses));
    CleanTextDetermines(elements, 0, lines);
    AssembledCount(ReadAll(elements), 0);
    ItemsAreRegular(lines, offenses, 0);
    ItemsCount(items + [Source("")]);
    assert lines[0..] == lines;
    assert |elements| == |printed + [""]|;
    forall o | o in offenses && InRange(o, |lines|)
      ensures NewlineFree(o.copName) && NewlineFree(o.message)
    {
      ItemsContents(lines, offenses, 0);
      var i :| 0 <= i < |items| && items[i] == Mark(o);
      ItemLinesAt(items);
      assert NewlineFree((printed + [""])[i]) && (printed + [""])[i] == AnnotationLine(o);
      BreaksShow(o);
    }
  }

  lemma BreaksShow(o: Offense)
    requires NewlineFree(AnnotationLine(o))
    ensures NewlineFree(o.copName) && NewlineFree(o.message)
  {
    var lead := Repeat(' ', Clamp(o.column, 0)) + Repeat('^', Clamp(o.length, 1)) + " ";
    assert AnnotationLine(o) == lead + o.copName + ": " + o.message;
    assert forall c :: c in o.copName || c in o.message ==> c in lead + o.copName + ": " + o.message;
  }

  lemma EmptyFileIsRecovered(offenses: seq<Offense>)
    ensures Recovered([], offenses)
  {
    assert Annotated([], offenses) == [];
    assert Output([], offenses) == "\n";
    assert Split("\n", '\n') == ["", ""] by {
      SplitAfterLine("", "", '\n');
      assert "" + ['\n'] + "" == "\n";
    }
    EmptyLineIsPlain();
    assert TryParseFilename("").None? by { assert FILENAME_PREFIX[0] == '#'; }
    var readings := ReadAll(["", ""]);
    assert readings[0] == Kept("") && readings[1..][0] == Kept("") && readings[1..][1..] == [];
    assert Assemble(readings[1..][1..], 2) == Some(Body([], []));
    var none: seq<string>, nothing: seq<Expected> := [], [];
    assert [""] + none == [""] && nothing + nothing == nothing;
    assert Assemble(readings[1..], 1) == Onto([""], [], Some(Body([], [])));
    assert Assemble(readings[1..], 1) == Some(Body([""], []));
    assert [""] + [""] == ["", ""];
    assert Assemble(readings, 0) == Onto([""], [], Some(Body([""], [])));
    assert Assemble(readings, 0) == Some(Body(["", ""], []));
    JoinTerminated([""]);
    assert Join(["", ""], '\n') == "" + "\n";
  }

  /** Lines that are all recovered are all plain. */
  lemma RecoveredLinesArePlain(lines: seq<string>, offenses: seq<Offense>)
    requires OneLineEach(lines, offenses) && lines != [] && Recovered(lines, offenses)
    ensures AllPlain(lines) && TryParseFilename(lines[0]).None?
  {
    ElementsOfOutput(lines, offenses);
    var elements := Split(Output(lines, offenses), '\n');
    SplitIsNewlineFree(Output(lines, offenses));
    CleanTextDetermines(elements, 0, lines);
    AssembledAreKept(ReadAll(elements), 0);
    var b := Assemble(ReadAll(elements), 0).value;
    forall i | 0 <= i < |lines|
      ensures Plain(lines[i])
    {
      assert b.sources[i] == lines[i] && lines[i] in b.sources;
      KeptIsPlain(elements, lines[i]);
    }
  }

  lemma PlainLinesRoundTrip(lines: seq<string>, offenses: seq<Offense>)
    requires OneLineEach(lines, offenses) && lines != []
    requires AllPlain(lines) && TryParseFilename(lines[0]).None?
    ensures Recovered(lines, offenses) <==> All(Good(Items(lines, offenses, 0) + [Source("")]))
  {
    var items := Items(lines, offenses, 0) + [Source("")];
    ElementsOfOutput(lines, offenses);
    SplitIsNewlineFree(Output(lines, offenses));
    ItemsAreRegular(lines, offenses, 0);
    ItemsUnfold(lines, offenses, 0, [Source("")]);
    SourcesArePlain(lines, offenses);
    ReadingsOfItems(items);
    var readings := ReadAll(ItemLines(items));
    ItemsRoundTrip(items, readings, Good(items), 0);
    assert lines[0..] == lines;
    if Assemble(readings, 0).Some? {
      CleanTextDetermines(ItemLines(items), 0, lines);
    }
  }

  lemma SourcesArePlain(lines: seq<string>, offenses: seq<Offense>)
    requires AllPlain(lines)
    ensures var items := Items(lines, offenses, 0) + [Source("")];
            forall i :: 0 <= i < |items| && items[i].Source? ==> Plain(items[i].text)
  {
    var items := Items(lines, offenses, 0) + [Source("")];
    ItemsContents(lines, offenses, 0);
    EmptyLineIsPlain();
    forall i | 0 <= i < |items| && items[i].Source?
      ensures Plain(items[i].text)
    {
      if i < |items| - 1 {
        assert Source(items[i].text) in Items(lines, offenses, 0);
        var k :| 0 <= k < |lines[0..]| && lines[0..][k] == items[i].text;
        assert Plain(lines[k]);
      }
    }
  }

  lemma GoodMeansPrintable(lines: seq<string>, offenses: seq<Offense>)
    ensures All(Good(Items(lines, offenses, 0) + [Source("")])) <==>
            forall o :: o in offenses && InRange(o, |lines|) ==> Printable(o)
  {
    var items := Items(lines, offenses, 0) + [Source("")];
    ItemsContents(lines, offenses, 0);
    if All(Good(items)) {
      forall o | o in offenses && InRange(o, |lines|)
        ensures Printable(o)
      {
        assert Mark(o) in Items(lines, offenses, 0);
        var i :| 0 <= i < |Items(lines, offenses, 0)| && Items(lines, offenses, 0)[i] == Mark(o);
        assert items[i] == Mark(o) && Good(items)[i];
      }
    }
    if forall o :: o in offenses && InRange(o, |lines|) ==> Printable(o) {
      forall i | 0 <= i < |items|
        ensures Good(items)[i]
      {
        if items[i].Mark? {
          assert Mark(items[i].offense) in Items(lines, offenses, 0);
        }
      }
    }
  }

  /** Printing and parsing a fixture recovers the source text and, in line and
      column order, every offense on a line of the file, with no filename: exactly
      when no source line reads as an annotation or directive and every such
      offense has a proper cop name and message, neither with a line break. The
      source lines come from splitting a file at its line breaks. */
  lemma RoundTrip(lines: seq<string>, offenses: seq<Offense>)
    requires AllNewlineFree(lines)
    ensures Recovered(lines, offenses) <==> Annotatable(lines, offenses)
  {
    if lines == [] {
      EmptyFileIsRecovered(offenses);
    } else {
      GoodMeansPrintable(lines, offenses);
      if Recovered(lines, offenses) {
        RecoveredIsOneLineEach(lines, offenses);
        RecoveredLinesArePlain(lines, offenses);
      }
      if OneLineEach(lines, offenses) && AllPlain(lines) && TryParseFilename(lines[0]).None? {
        PlainLinesRoundTrip(lines, offenses);
      }
    }
  }

  // ------------------------------------------------------- any fixture file

  /** The items can stand one to a line: what they hold has no line breaks, and what
      is meant as source reads as source. */
  ghost predicate Fits(item: Item) {
    match item
    case Source(text) => NewlineFree(text) && Plain(text)
    case Mark(o) => NewlineFree(o.copName) && NewlineFree(o.message)
    case Directive(e) => NewlineFree(e.copName) && NewlineFree(e.message)
  }

  lemma ItemIsOneLine(item: Item)
    requires Fits(item)
    ensures NewlineFree(ItemLine(item))
  {
    match item
    case Source(_) =>
    case Mark(o) => AnnotationIsOneLine(o);
    case Directive(e) =>
      DecimalReads(e.line);
      DecimalReads(e.column);
      assert NewlineFree(EXPECT_PREFIX);
      assert NewlineFree(Decimal(e.line)) && NewlineFree(Decimal(e.column));
  }

  lemma ItemsAreLines(items: seq<Item>)
    requires forall i :: 0 <= i < |items| ==> Fits(items[i])
    ensures AllNewlineFree(ItemLines(items))
  {
    ItemLinesAt(items);
    forall i | 0 <= i < |items|
      ensures NewlineFree(ItemLines(items)[i])
    {
      ItemIsOneLine(items[i]);
    }
  }

  lemma SplitLines(lines: seq<string>)
    requires lines != [] && AllNewlineFree(lines)
    ensures Split(Join(lines, '\n'), '\n') == lines
  {
    forall p | p in lines
      ensures '\n' !in p
    {
      var i :| 0 <= i < |lines| && lines[i] == p;
      assert NewlineFree(lines[i]);
    }
    SplitJoin(lines, '\n');
  }

  /** Body of a file, from the lines the items make. */
  lemma BodyOfItems(items: seq<Item>)
    requires (forall i :: 0 <= i < |items| ==> Fits(items[i])) && Numbered(items, 0)
    requires forall i :: 0 <= i < |items| ==> GoodItem(items[i])
    ensures Assemble(ReadAll(ItemLines(items)), 0) == Some(Body(SourcesOf(items), ExpectedOf(items)))
  {
    assert forall i :: 0 <= i < |items| && items[i].Source? ==> Fits(items[i]);
    ReadingsOfItems(items);
    ItemsRoundTrip(items, ReadAll(ItemLines(items)), Good(items), 0);
  }

  /** What the parser makes of lines, given what it makes of the body. */
  lemma FileOfLines(lines: seq<string>, name: Option<string>, body: seq<string>, b: Body)
    requires lines != [] && AllNewlineFree(lines) && TryParseFilename(lines[0]) == name
    requires body == (if name.Some? then lines[1..] else lines) && Assemble(ReadAll(body), 0) == Some(b)
    ensures ParseFixtureText(Join(lines, '\n')) == Some(Parsed(Join(b.sources, '\n'), b.expected, name))
  {
    SplitLines(lines);
  }

  lemma NewlineFreeCons(first: string, rest: seq<string>)
    requires NewlineFree(first) && AllNewlineFree(rest)
    ensures AllNewlineFree([first] + rest) && ([first] + rest)[1..] == rest
  {
    var lines := [first] + rest;
    forall i | 0 <= i < |lines|
      ensures NewlineFree(lines[i])
    {
      assert i > 0 ==> lines[i] == rest[i - 1];
    }
  }

  /** Any fixture file: source lines, annotations below them and explicit expectations
      anywhere parse to the source lines alone and the expectations in order, an
      annotation's with the number of the line above it, an explicit one as written. */
  lemma AnyFixtureParses(items: seq<Item>)
    requires items != [] && (forall i :: 0 <= i < |items| ==> Fits(items[i]) && GoodItem(items[i]))
    requires Numbered(items, 0) && TryParseFilename(ItemLine(items[0])).None?
    ensures ParseFixtureText(Join(ItemLines(items), '\n')) ==
            Some(Parsed(Join(SourcesOf(items), '\n'), ExpectedOf(items), None))
  {
    ItemsAreLines(items);
    ItemLinesAt(items);
    BodyOfItems(items);
    FileOfLines(ItemLines(items), None, ItemLines(items), Body(SourcesOf(items), ExpectedOf(items)));
  }

  lemma FilenameLine(first: string, name: string)
    requires first == FILENAME_PREFIX + name
    requires NewlineFree(name) && (name == [] || !IsSpace(name[|name| - 1]))
    ensures NewlineFree(first) && TryParseFilename(first) == Some(name)
  {
    FilenameRoundTrip(name);
    assert NewlineFree(FILENAME_PREFIX);
  }

  /** Behind a filename directive the same file yields the same, and the name: the
      directive is no source line. */
  lemma NamedFixtureParses(first: string, name: string, items: seq<Item>)
    requires first == FILENAME_PREFIX + name && NewlineFree(name) && (name == [] || !IsSpace(name[|name| - 1]))
    requires forall i :: 0 <= i < |items| ==> Fits(items[i]) && GoodItem(items[i])
    requires Numbered(items, 0)
    ensures ParseFixtureText(Join([first] + ItemLines(items), '\n')) ==
            Some(Parsed(Join(SourcesOf(items), '\n'), ExpectedOf(items), Some(name)))
  {
    FilenameLine(first, name);
    ItemsAreLines(items);
    NewlineFreeCons(first, ItemLines(items));
    BodyOfItems(items);
    FileOfLines([first] + ItemLines(items), Some(name), ItemLines(items), Body(SourcesOf(items), ExpectedOf(items)));
  }

  /** Only the first line can name the file: a filename directive further down is a
      source line. */
  lemma LaterFilenameIsSource(name: string)
    ensures Plain(FILENAME_PREFIX + name)
  {
    var line := FILENAME_PREFIX + name;
    assert line[0] == '#';
    HashIsNoAnnotation(line);
    assert line[11] == FILENAME_PREFIX[11] == 'f' && EXPECT_PREFIX[11] == 'e';
    assert TryParseExpect(line).None?;
  }

  // ------------------------------------------------- the recovered order

  ghost predicate Before(a: Offense, b: Offense) {
    a.line < b.line || (a.line == b.line && a.column <= b.column)
  }

  ghost predicate InOrder(s: seq<Offense>) {
    forall j, k :: 0 <= j < k < |s| ==> Before(s[j], s[k])
  }

  /** The offenses at one place, in their order. */
  function At(s: seq<Offense>, line: int, column: int): seq<Offense> {
    if s == [] then []
    else if s[0].line == line && s[0].column == column then [s[0]] + At(s[1..], line, column)
    else At(s[1..], line, column)
  }

  lemma {:induction false} AtConcat(a: seq<Offense>, b: seq<Offense>, line: int, column: int)
    ensures At(a + b, line, column) == At(a, line, column) + At(b, line, column)
  {
    if a == [] {
      assert a + b == b;
    } else {
      assert (a + b)[1..] == a[1..] + b;
      AtConcat(a[1..], b, line, column);
    }
  }

  lemma {:induction false} AtElsewhere(s: seq<Offense>, line: int, column: int)
    requires forall o :: o in s ==> o.line != line
    ensures At(s, line, column) == []
  {
    if s != [] { AtElsewhere(s[1..], line, column); }
  }

  lemma {:induction false} AtOnLine(s: seq<Offense>, line: int, column: int)
    ensures At(OnLine(s, line), line, column) == At(s, line, column)
  {
    if s != [] { AtOnLine(s[1..], line, column); }
  }

  lemma {:induction false} InsertIsStable(o: Offense, s: seq<Offense>, line: int, column: int)
    ensures At(InsertByColumn(o, s), line, column) == At([o] + s, line, column)
  {
    if !(s == [] || o.column <= s[0].column) {
      InsertIsStable(o, s[1..], line, column);
      assert ([o] + s)[1..] == s && ([o] + s[1..])[1..] == s[1..];
    }
  }

  lemma {:induction false} SortIsStable(s: seq<Offense>, line: int, column: int)
    ensures At(SortByColumn(s), line, column) == At(s, line, column)
  {
    if s != [] {
      SortIsStable(s[1..], line, column);
      InsertIsStable(s[0], SortByColumn(s[1..]), line, column);
      assert ([s[0]] + SortByColumn(s[1..]))[1..] == SortByColumn(s[1..]);
    }
  }

  lemma {:induction false} InsertKeepsOrder(o: Offense, s: seq<Offense>)
    requires InOrder(s) && forall x :: x in s ==> x.line == o.line
    ensures InOrder(InsertByColumn(o, s))
  {
    if !(s == [] || o.column <= s[0].column) {
      InsertKeepsOrder(o, s[1..]);
      InsertContents(o, s[1..]);
      var t := InsertByColumn(o, s[1..]);
      forall x | x in t
        ensures Before(s[0], x)
      {
        if x != o {
          var k :| 0 <= k < |s[1..]| && s[1..][k] == x;
          assert s[k + 1] == x;
        }
      }
    }
  }

  lemma {:induction false} SortGivesOrder(s: seq<Offense>, line: int)
    requires forall o :: o in s ==> o.line == line
    ensures InOrder(SortByColumn(s))
  {
    if s != [] {
      SortGivesOrder(s[1..], line);
      SortContents(s[1..]);
      InsertKeepsOrder(s[0], SortByColumn(s[1..]));
    }
  }

  lemma {:induction false} PrintedContents(offenses: seq<Offense>, i: nat, n: nat)
    requires i <= n
    ensures forall o :: o in Printed(offenses, i, n) <==> o in offenses && i + 1 <= o.line <= n
    decreases n - i
  {
    if i < n {
      BelowContents(offenses, i);
      PrintedContents(offenses, i + 1, n);
    }
  }

  lemma {:induction false} PrintedFrom(offenses: seq<Offense>, i: nat, n: nat, line: int, column: int)
    requires i <= n && i + 1 <= line <= n
    ensures At(Printed(offenses, i, n), line, column) == At(offenses, line, column)
    decreases n - i
  {
    var here, rest := Below(offenses, i), Printed(offenses, i + 1, n);
    AtConcat(here, rest, line, column);
    BelowContents(offenses, i);
    if line == i + 1 {
      PrintedContents(offenses, i + 1, n);
      AtElsewhere(rest, line, column);
      SortIsStable(OnLine(offenses, line), line, column);
      AtOnLine(offenses, line, column);
    } else {
      AtElsewhere(here, line, column);
      PrintedFrom(offenses, i + 1, n, line, column);
    }
  }

  lemma {:induction false} PrintedOrder(offenses: seq<Offense>, i: nat, n: nat)
    requires i <= n
    ensures InOrder(Printed(offenses, i, n))
    decreases n - i
  {
    if i < n {
      PrintedOrder(offenses, i + 1, n);
      PrintedContents(offenses, i + 1, n);
      BelowContents(offenses, i);
      OnLineContents(offenses, i + 1);
      SortGivesOrder(OnLine(offenses, i + 1), i + 1);
      var a, b := Below(offenses, i), Printed(offenses, i + 1, n);
      assert forall x, y :: x in a && y in b ==> Before(x, y);
    }
  }

  /** The recovered offenses are those on lines of the file, sorted by line and
      column, with offenses at the same place in the order they were reported. */
  lemma RecoveredOrder(offenses: seq<Offense>, n: nat)
    ensures InOrder(Printed(offenses, 0, n))
    ensures forall o :: o in Printed(offenses, 0, n) <==> o in offenses && InRange(o, n)
    ensures forall line, column :: 1 <= line <= n ==>
                                     At(Printed(offenses, 0, n), line, column) == At(offenses, line, column)
  {
    PrintedOrder(offenses, 0, n);
    PrintedContents(offenses, 0, n);
    forall line, column | 1 <= line <= n
      ensures At(Printed(offenses, 0, n), line, column) == At(offenses, line, column)
    {
      PrintedFrom(offenses, 0, n, line, column);
    }
  }
}
