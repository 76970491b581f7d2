/** Annotated test fixtures: the Python printer that adds `^` lines
    (scripts/generate_fixture.py) and the Rust parser that strips them
    (src/testutil.rs). */
module Fixtures {
  import opened Basics
  import opened Text

  /** An offense as RuboCop reports it, column counted from zero. */
  datatype Offense = Offense(line: int, column: int, length: int, copName: string, message: string)

  datatype Expected = Expected(line: nat, column: nat, copName: string, message: string)

  datatype Annotation = Annotation(column: nat, copName: string, message: string)

  // ------------------------------------------------------------- printing

  function Repeat(c: char, n: nat): string {
    seq(n, _ => c)
  }

  /** `" " * n`: empty for a negative count. */
  function Clamp(n: int, low: nat): nat {
    if n > low then n else low
  }

  function Label(o: Offense): string {
    o.copName + ": " + o.message
  }

  function AnnotationLine(o: Offense): string {
    Repeat(' ', Clamp(o.column, 0)) + (Repeat('^', Clamp(o.length, 1)) + " " + Label(o))
  }

  // -------------------------------------------------------------- parsing

  /** Bytes of a character in UTF-8. */
  function Utf8Length(c: char): nat {
    if c < '\U{0080}' then 1 else if c < '\U{0800}' then 2 else if c < '\U{10000}' then 3 else 4
  }

  function ByteLength(s: string): nat {
    if s == [] then 0 else Utf8Length(s[0]) + ByteLength(s[1..])
  }

  function CaretCount(s: string): nat {
    if s != [] && s[0] == '^' then 1 + CaretCount(s[1..]) else 0
  }

  lemma {:induction false} CaretCountFits(s: string)
    ensures CaretCount(s) <= |s|
  {
    if s != [] && s[0] == '^' { CaretCountFits(s[1..]); }
  }

  /** `Department/Cop: message`, cut at the first ": ". */
  function SplitLabel(tag: string): Option<(string, string)> {
    var k := FindFrom(tag, ": ", 0);
    if k > |tag| then None
    else if '/' !in tag[..k] then None
    else Some((tag[..k], tag[k + 2..]))
  }

  function TryParseAnnotation(line: string): Option<Annotation> {
    var trimmed := TrimStart(line);
    if trimmed == [] || trimmed[0] != '^' then None
    else
      CaretCountFits(trimmed);
      var after := trimmed[CaretCount(trimmed)..];
      if after == [] || after[0] != ' ' then None
      else
        match SplitLabel(TrimEnd(after[1..]))
        case None => None
        case Some((cop, message)) =>
          TrimStartIsSuffix(line);
          Some(Annotation(ByteLength(line[..|line| - |trimmed|]), cop, message))
  }

  lemma {:induction false} TrimStartIsSuffix(s: string)
    ensures |TrimStart(s)| <= |s| && TrimStart(s) == s[|s| - |TrimStart(s)|..]
  {
    if s != [] && IsSpace(s[0]) { TrimStartIsSuffix(s[1..]); }
  }

  const FILENAME_PREFIX := "# nitrocop-filename: "
  const EXPECT_PREFIX := "# nitrocop-expect: "

  function TryParseFilename(line: string): Option<string> {
    if StartsWith(line, FILENAME_PREFIX) then Some(TrimEnd(line[|FILENAME_PREFIX|..])) else None
  }

  function DigitsValue(s: string): Option<nat> {
    if s == [] then Some(0)
    else
      var c := s[|s| - 1];
      if !('0' <= c <= '9') then None
      else
        match DigitsValue(s[..|s| - 1])
        case None => None
        case Some(v) => Some(10 * v + (c as int - '0' as int))
  }

  /** `str::parse::<usize>` on a 64-bit machine. */
  function ParseUsize(s: string): Option<nat> {
    var digits := if s != [] && s[0] == '+' then s[1..] else s;
    if digits == [] then None
    else
      match DigitsValue(digits)
      case None => None
      case Some(v) => if v < 0x1_0000_0000_0000_0000 then Some(v) else None
  }

  function ParseLocation(loc: string): Option<(nat, nat)> {
    var colon := FindFrom(loc, ":", 0);
    if colon > |loc| then None
    else
      match (ParseUsize(loc[..colon]), ParseUsize(loc[colon + 1..]))
      case (Some(l), Some(c)) => Some((l, c))
      case _ => None
  }

  /** `L:C Department/Cop: message`. */
  function ParseLocated(rest: string): Option<Expected> {
    var space := FindFrom(rest, " ", 0);
    if space > |rest| then None
    else
      match (ParseLocation(rest[..space]), SplitLabel(TrimEnd(rest[space + 1..])))
      case (Some((l, c)), Some((cop, message))) => Some(Expected(l, c, cop, message))
      case _ => None
  }

  function TryParseExpect(line: string): Option<Expected> {
    if StartsWith(line, EXPECT_PREFIX) then ParseLocated(line[|EXPECT_PREFIX|..]) else None
  }

  // ------------------------------------------------ one annotation round-trips

  /** What an offense needs so that its annotation reads back. */
  predicate Printable(o: Offense) {
    && '/' in o.copName
    && !Contains(o.copName, ": ")
    && o.message != [] && !IsSpace(o.message[|o.message| - 1])
  }

  function Readback(o: Offense): Annotation {
    Annotation(Clamp(o.column, 0), o.copName, o.message)
  }

  predicate AllSpaces(s: string) {
    forall i :: 0 <= i < |s| ==> IsSpace(s[i])
  }

  lemma {:induction false} TrimLead(lead: string, rest: string)
    requires AllSpaces(lead) && rest != [] && !IsSpace(rest[0])
    ensures TrimStart(lead + rest) == rest
  {
    if lead == [] {
      assert lead + rest == rest;
    } else {
      assert (lead + rest)[1..] == lead[1..] + rest;
      TrimLead(lead[1..], rest);
    }
  }

  lemma {:induction false} PaddingBytes(n: nat)
    ensures ByteLength(Repeat(' ', n)) == n
  {
    if n > 0 {
      assert Repeat(' ', n)[1..] == Repeat(' ', n - 1);
      PaddingBytes(n - 1);
    }
  }

  lemma {:induction false} CountCarets(n: nat, rest: string)
    requires rest == [] || rest[0] != '^'
    ensures CaretCount(Repeat('^', n) + rest) == n
  {
    if n == 0 {
      assert Repeat('^', n) + rest == rest;
    } else {
      assert (Repeat('^', n) + rest)[1..] == Repeat('^', n - 1) + rest;
      CountCarets(n - 1, rest);
    }
  }

  /** Carets behind any white space parse as the tag behind them does, at the column
      the white space takes in bytes. */
  lemma MarkedParses(lead: string, n: nat, o: Offense)
    requires AllSpaces(lead) && n > 0
    ensures TryParseAnnotation(lead + (Repeat('^', n) + " " + Label(o))) ==
            match SplitLabel(TrimEnd(Label(o)))
            case None => None
            case Some((cop, message)) => Some(Annotation(ByteLength(lead), cop, message))
  {
    var marked := Repeat('^', n) + " " + Label(o);
    var line := lead + marked;
    assert marked[0] == '^';
    TrimLead(lead, marked);
    assert marked == Repeat('^', n) + (" " + Label(o));
    CountCarets(n, " " + Label(o));
    assert marked[n..] == " " + Label(o);
    assert marked[n..][1..] == Label(o);
    assert line[..|line| - |marked|] == lead;
  }

  /** The annotation parses as its tag does, at its column. */
  lemma AnnotationParsesAsLabel(o: Offense)
    ensures TryParseAnnotation(AnnotationLine(o)) ==
            match SplitLabel(TrimEnd(Label(o)))
            case None => None
            case Some((cop, message)) => Some(Annotation(Clamp(o.column, 0), cop, message))
  {
    var pad := Repeat(' ', Clamp(o.column, 0));
    PaddingBytes(Clamp(o.column, 0));
    assert AllSpaces(pad);
    MarkedParses(pad, Clamp(o.length, 1), o);
  }

  lemma {:induction false} TrimEndIdle(s: string)
    ensures TrimEnd(s) == s <==> s == [] || !IsSpace(s[|s| - 1])
    ensures |TrimEnd(s)| <= |s|
  {
    if s != [] && IsSpace(s[|s| - 1]) {
      TrimEndIdle(s[..|s| - 1]);
    }
  }

  lemma FindIsFirst(s: string, pat: string, k: nat)
    requires OccursAt(s, pat, k) && forall j :: 0 <= j < k ==> !OccursAt(s, pat, j)
    ensures FindFrom(s, pat, 0) == k
  {
    var f := FindFrom(s, pat, 0);
    assert !(k < f);
  }

  /** An occurrence of ": " that starts inside the cop name lies inside it. */
  lemma OccurrenceInCop(o: Offense, j: nat)
    requires j < |o.copName|
    ensures OccursAt(Label(o), ": ", j) <==> OccursAt(o.copName, ": ", j)
  {
    var l, c := Label(o), o.copName;
    assert l[..|c|] == c && l[|c|] == ':';
    if j + 2 <= |c| {
      assert l[j..j + 2] == c[j..j + 2];
    } else {
      assert l[j + 1] == ':';
      assert ": "[1] == ' ';
      assert l[j..j + 2][1] == l[j + 1];
    }
  }

  lemma LabelParts(o: Offense)
    ensures var t, c := Label(o), o.copName;
            && |t| == |c| + 2 + |o.message| && OccursAt(t, ": ", |c|)
            && t[..|c|] == c && t[|c| + 2..] == o.message
            && t[|t| - 1] == if o.message == [] then ' ' else o.message[|o.message| - 1]
  {
  }

  lemma PrintableLabel(o: Offense)
    requires Printable(o)
    ensures SplitLabel(TrimEnd(Label(o))) == Some((o.copName, o.message))
  {
    LabelParts(o);
    TrimEndIdle(Label(o));
    forall j: nat | j < |o.copName|
      ensures !OccursAt(Label(o), ": ", j)
    {
      OccurrenceInCop(o, j);
    }
    FindIsFirst(Label(o), ": ", |o.copName|);
  }

  lemma ReadLabel(o: Offense)
    requires SplitLabel(TrimEnd(Label(o))) == Some((o.copName, o.message))
    ensures Printable(o)
  {
    var t := TrimEnd(Label(o));
    var k := FindFrom(t, ": ", 0);
    assert t == t[..k] + t[k..k + 2] + t[k + 2..];
    assert t == Label(o);
    LabelParts(o);
    TrimEndIdle(Label(o));
    var f := FindFrom(o.copName, ": ", 0);
    if f <= |o.copName| {
      OccurrenceInCop(o, f);
    }
  }

  /** An offense's annotation reads back as that offense exactly when the cop
      name has a slash and no ": ", and the message is not empty and does not end
      in white space. */
  lemma AnnotationRoundTrip(o: Offense)
    ensures TryParseAnnotation(AnnotationLine(o)) == Some(Readback(o)) <==> Printable(o)
  {
    AnnotationParsesAsLabel(o);
    if Printable(o) {
      PrintableLabel(o);
    } else if SplitLabel(TrimEnd(Label(o))) == Some((o.copName, o.message)) {
      ReadLabel(o);
    }
  }

  /** The picture an annotation draws: blanks up to the column, as many carets as the
      offense is long but at least one, a blank, and the tag. */
  lemma CaretsMark(o: Offense)
    ensures var line, from, count := AnnotationLine(o), if o.column > 0 then o.column else 0, if o.length > 1 then o.length else 1;
            && |line| == from + count + 1 + |o.copName| + 2 + |o.message|
            && (forall i :: 0 <= i < from ==> line[i] == ' ')
            && (forall i :: from <= i < from + count ==> line[i] == '^')
            && line[from + count] == ' '
            && line[from + count + 1..] == o.copName + ": " + o.message
  {
    var from, count := Clamp(o.column, 0), Clamp(o.length, 1);
    var line, tag := AnnotationLine(o), o.copName + ": " + o.message;
    assert line == Repeat(' ', from) + Repeat('^', count) + " " + tag;
    assert line[from + count + 1..] == tag;
  }

  lemma {:induction false} BytesAdd(a: string, c: char)
    ensures ByteLength([c] + a) == ByteLength(a) +
            (if c as int < 0x80 then 1 else if c as int < 0x800 then 2 else if c as int < 0x10000 then 3 else 4)
  {
    assert ([c] + a)[1..] == a;
  }

  /** The column counts bytes: behind a tab it is one more, behind a no-break space
      two, behind an ideographic space three. */
  lemma ColumnCountsBytes(o: Offense, carets: nat)
    requires Printable(o) && carets > 0
    ensures var marked := Repeat('^', carets) + " " + Label(o);
            && TryParseAnnotation("\t" + marked) == Some(Annotation(1, o.copName, o.message))
            && TryParseAnnotation("\U{00A0}" + marked) == Some(Annotation(2, o.copName, o.message))
            && TryParseAnnotation("\U{3000}" + marked) == Some(Annotation(3, o.copName, o.message))
  {
    PrintableLabel(o);
    OneSpaceBefore('\t', o, carets);
    OneSpaceBefore('\U{00A0}', o, carets);
    OneSpaceBefore('\U{3000}', o, carets);
  }

  lemma OneSpaceBefore(c: char, o: Offense, carets: nat)
    requires IsSpace(c) && Printable(o) && carets > 0
    ensures TryParseAnnotation([c] + (Repeat('^', carets) + " " + Label(o))) ==
            Some(Annotation(ByteLength([c]), o.copName, o.message))
    ensures ByteLength([c]) == if c as int < 0x80 then 1 else if c as int < 0x800 then 2 else if c as int < 0x10000 then 3 else 4
  {
    PrintableLabel(o);
    MarkedParses([c], carets, o);
    BytesAdd([], c);
    assert [c] + [] == [c];
  }

  predicate AllDigits(s: string) {
    forall i :: 0 <= i < |s| ==> '0' <= s[i] <= '9'
  }

  lemma {:induction false} DigitsOnly(s: string)
    ensures DigitsValue(s).Some? <==> AllDigits(s)
  {
    if s != [] {
      DigitsOnly(s[..|s| - 1]);
      assert forall i :: 0 <= i < |s| - 1 ==> s[i] == s[..|s| - 1][i];
    }
  }

  /** A number is digits, perhaps behind one plus sign, and no more than 64 bits. */
  lemma NumbersAre(s: string)
    ensures var digits := if s != [] && s[0] == '+' then s[1..] else s;
            && (DigitsValue(digits).Some? <==> AllDigits(digits))
            && (ParseUsize(s).Some? <==>
                  digits != [] && DigitsValue(digits).Some? && DigitsValue(digits).value < 0x1_0000_0000_0000_0000)
            && (ParseUsize(s).Some? ==> ParseUsize(s) == DigitsValue(digits))
  {
    DigitsOnly(if s != [] && s[0] == '+' then s[1..] else s);
  }

  // ------------------------------------------------ directives round-trip

  function Decimal(n: nat): string {
    var digit := ['0' + (n % 10) as char];
    if n < 10 then digit else Decimal(n / 10) + digit
  }

  lemma {:induction false} DecimalReads(n: nat)
    ensures Decimal(n) != [] && DigitsValue(Decimal(n)) == Some(n)
    ensures forall c :: c in Decimal(n) ==> '0' <= c <= '9'
  {
    var digit := '0' + (n % 10) as char;
    if n < 10 {
      assert Decimal(n) == [digit] && Decimal(n)[..0] == [];
    } else {
      DecimalReads(n / 10);
      assert Decimal(n)[..|Decimal(n)| - 1] == Decimal(n / 10);
    }
  }

  lemma ParsesDecimal(n: nat)
    ensures ParseUsize(Decimal(n)) == if n < 0x1_0000_0000_0000_0000 then Some(n) else None
  {
    DecimalReads(n);
    assert Decimal(n)[0] in Decimal(n);
  }

  function LabelOf(e: Expected): string {
    e.copName + ": " + e.message
  }

  /** `L:C Department/Cop: message` behind the directive's prefix. */
  function ExpectLine(e: Expected): string {
    EXPECT_PREFIX + (Decimal(e.line) + ":" + Decimal(e.column) + " " + LabelOf(e))
  }

  lemma CutAtFirst(front: string, c: char, back: string)
    requires c !in front
    ensures FindFrom(front + [c] + back, [c], 0) == |front|
    ensures (front + [c] + back)[..|front|] == front && (front + [c] + back)[|front| + 1..] == back
  {
    var s := front + [c] + back;
    assert s[|front|..|front| + 1] == [c];
    forall j: nat | j < |front|
      ensures !OccursAt(s, [c], j)
    {
      assert s[j..j + 1][0] == front[j];
    }
    FindIsFirst(s, [c], |front|);
  }

  lemma LocationReads(line: nat, column: nat)
    ensures ParseLocation(Decimal(line) + ":" + Decimal(column)) ==
            if line < 0x1_0000_0000_0000_0000 && column < 0x1_0000_0000_0000_0000 then Some((line, column)) else None
  {
    DecimalReads(line);
    CutAtFirst(Decimal(line), ':', Decimal(column));
    ParsesDecimal(line);
    ParsesDecimal(column);
  }

  lemma ExpectCuts(e: Expected)
    ensures var loc := Decimal(e.line) + ":" + Decimal(e.column);
            TryParseExpect(ExpectLine(e)) == ParseLocated(loc + " " + LabelOf(e))
    ensures ' ' !in Decimal(e.line) + ":" + Decimal(e.column)
  {
    var rest := Decimal(e.line) + ":" + Decimal(e.column) + " " + LabelOf(e);
    assert ExpectLine(e)[..|EXPECT_PREFIX|] == EXPECT_PREFIX && ExpectLine(e)[|EXPECT_PREFIX|..] == rest;
    DecimalReads(e.line);
    DecimalReads(e.column);
  }

  /** An explicit expectation reads back as itself exactly when its numbers fit a
      usize and its cop name and message are printable. */
  lemma ExpectRoundTrip(e: Expected)
    ensures TryParseExpect(ExpectLine(e)) == Some(e) <==>
            && e.line < 0x1_0000_0000_0000_0000 && e.column < 0x1_0000_0000_0000_0000
            && Printable(Offense(e.line, e.column, 1, e.copName, e.message))
  {
    var o := Offense(e.line, e.column, 1, e.copName, e.message);
    assert LabelOf(e) == Label(o);
    ExpectCuts(e);
    CutAtFirst(Decimal(e.line) + ":" + Decimal(e.column), ' ', LabelOf(e));
    LocationReads(e.line, e.column);
    if Printable(o) {
      PrintableLabel(o);
    } else if SplitLabel(TrimEnd(Label(o))) == Some((o.copName, o.message)) {
      ReadLabel(o);
    }
  }

  /** A filename directive gives its name back exactly when the name does not end
      in white space. */
  lemma FilenameRoundTrip(name: string)
    ensures TryParseFilename(FILENAME_PREFIX + name) == Some(name) <==>
            name == [] || !IsSpace(name[|name| - 1])
  {
    assert (FILENAME_PREFIX + name)[|FILENAME_PREFIX|..] == name;
    TrimEndIdle(name);
  }
}
