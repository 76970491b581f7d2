/** The encoding magic comment scanner (src/linter.rs): a greedy matcher without
    backtracking, against the regular expression it stands for. */
module Encoding {
  import opened Basics

  const TAB: byte := 9
  const NEWLINE: byte := 10
  const SPACE: byte := 32
  const HASH: byte := 35
  const COLON: byte := 58
  const EQUALS: byte := 61

  const CODING: Bytes := [99, 111, 100, 105, 110, 103]
  const ENCODING: Bytes := [101, 110, 99, 111, 100, 105, 110, 103]

  predicate IsBlank(b: byte) {
    b == SPACE || b == TAB
  }

  /** An ASCII letter or digit, `_` or `-`. */
  predicate IsNameByte(b: byte) {
    48 <= b <= 57 || 65 <= b <= 90 || 97 <= b <= 122 || b == 95 || b == 45
  }

  ghost predicate Blanks(line: Bytes, from: nat, end: nat) {
    from <= end <= |line| && forall k :: from <= k < end ==> IsBlank(line[k])
  }

  /** `[\t #](en)?coding[ \t]*[:=][ \t]*[-_A-Za-z0-9]`, with the blank or `#` at i,
      the keyword ending at e, the separator at c and the value byte at v. */
  ghost predicate Matches(line: Bytes, i: nat, e: nat, c: nat, v: nat) {
    && i < e <= c < v < |line|
    && (IsBlank(line[i]) || line[i] == HASH)
    && (line[i + 1..e] == ENCODING || line[i + 1..e] == CODING)
    && Blanks(line, e, c)
    && (line[c] == COLON || line[c] == EQUALS)
    && Blanks(line, c + 1, v)
    && IsNameByte(line[v])
  }

  ghost predicate MatchesSomewhere(line: Bytes) {
    exists i, e, c, v :: Matches(line, i, e, c, v)
  }

  predicate HasAt(line: Bytes, at: nat, word: Bytes) {
    at + |word| <= |line| && line[at..at + |word|] == word
  }

  lemma KeywordsDiffer(line: Bytes, at: nat)
    ensures !(HasAt(line, at, ENCODING) && HasAt(line, at, CODING))
  {
    assert HasAt(line, at, ENCODING) ==> line[at] == line[at..at + 8][0] == 101;
    assert HasAt(line, at, CODING) ==> line[at] == line[at..at + 6][0] == 99;
  }

  /** The two keywords start with different letters, so where one stands the other
      does not: the end of the keyword is determined. */
  lemma KeywordEnd(line: Bytes, at: nat, e: nat)
    requires at <= e <= |line| && (line[at..e] == ENCODING || line[at..e] == CODING)
    ensures HasAt(line, at, ENCODING) ==> e == at + 8
    ensures !HasAt(line, at, ENCODING) ==> HasAt(line, at, CODING) && e == at + 6
  {
    if line[at..e] == ENCODING {
      assert e == at + 8;
    } else {
      assert e == at + 6;
      KeywordsDiffer(line, at);
    }
  }

  /** Skip blanks greedily. */
  method SkipBlanks(line: Bytes, from: nat) returns (j: nat)
    requires from <= |line|
    ensures Blanks(line, from, j)
    ensures j < |line| ==> !IsBlank(line[j])
  {
    j := from;
    while j < |line| && IsBlank(line[j])
      invariant Blanks(line, from, j)
    {
      j := j + 1;
    }
  }

  /** Whatever follows blanks and is not blank itself is where skipping stops. */
  lemma GreedyIsForced(line: Bytes, from: nat, j: nat, k: nat)
    requires Blanks(line, from, j) && (j < |line| ==> !IsBlank(line[j]))
    requires Blanks(line, from, k) && k < |line| && !IsBlank(line[k])
    ensures j == k
  {
  }

  /** A match starting at i, found without backtracking if there is one. */
  method MatchAt(line: Bytes, i: nat) returns (b: bool)
    requires i < |line|
    ensures b <==> exists e, c, v :: Matches(line, i, e, c, v)
  {
    if !(IsBlank(line[i]) || line[i] == HASH) {
      return false;
    }
    var after := i + 1;
    var e := after;
    if HasAt(line, after, ENCODING) {
      e := after + 8;
    } else if HasAt(line, after, CODING) {
      e := after + 6;
    } else {
      forall f, d, w | Matches(line, i, f, d, w)
        ensures false
      {
        KeywordEnd(line, after, f);
      }
      return false;
    }
    var c := SkipBlanks(line, e);
    forall f, d, w | Matches(line, i, f, d, w)
      ensures f == e && d == c
    {
      KeywordEnd(line, after, f);
      GreedyIsForced(line, e, c, d);
    }
    if c >= |line| || !(line[c] == COLON || line[c] == EQUALS) {
      return false;
    }
    var v := SkipBlanks(line, c + 1);
    forall f, d, w | Matches(line, i, f, d, w)
      ensures w == v
    {
      GreedyIsForced(line, c + 1, v, w);
    }
    b := v < |line| && IsNameByte(line[v]);
    if b {
      assert Matches(line, i, e, c, v);
    }
  }

  /** `matches_parser_encoding_re`: accepts exactly the lines the expression
      matches somewhere. */
  method MatchesParserEncodingRe(line: Bytes) returns (b: bool)
    ensures b <==> MatchesSomewhere(line)
  {
    for i := 0 to |line|
      invariant forall k: nat, e, c, v :: k < i ==> !Matches(line, k, e, c, v)
    {
      var here := MatchAt(line, i);
      if here {
        return true;
      }
    }
    b := false;
  }

  // -------------------------------------------- the expression as documented

  /** `\s` in Ruby: also line feed, vertical tab, form feed and carriage return. */
  predicate IsWideBlank(b: byte) {
    IsBlank(b) || 10 <= b <= 13
  }

  ghost predicate WideBlanks(line: Bytes, from: nat, end: nat) {
    from <= end <= |line| && forall k :: from <= k < end ==> IsWideBlank(line[k])
  }

  /** `[\s#](en)?coding\s*[:=]\s*[-_A-Za-z0-9]`. */
  ghost predicate WideMatches(line: Bytes, i: nat, e: nat, c: nat, v: nat) {
    && i < e <= c < v < |line|
    && (IsWideBlank(line[i]) || line[i] == HASH)
    && (line[i + 1..e] == ENCODING || line[i + 1..e] == CODING)
    && WideBlanks(line, e, c)
    && (line[c] == COLON || line[c] == EQUALS)
    && WideBlanks(line, c + 1, v)
    && IsNameByte(line[v])
  }

  ghost predicate WideMatchesSomewhere(line: Bytes) {
    exists i, e, c, v :: WideMatches(line, i, e, c, v)
  }

  /** One of the four bytes stands where a wide match has a blank. */
  ghost predicate LeansOnWide(line: Bytes, i: nat, e: nat, c: nat, v: nat) {
    exists k :: 0 <= k < |line| && (k == i || e <= k < c || c < k < v) && 10 <= line[k] <= 13
  }

  /** A wide match is one of the scanner's exactly when it leans on none of the four
      bytes. */
  lemma WideMatchNarrows(line: Bytes, i: nat, e: nat, c: nat, v: nat)
    requires WideMatches(line, i, e, c, v)
    ensures Matches(line, i, e, c, v) <==> !LeansOnWide(line, i, e, c, v)
  {
    if !LeansOnWide(line, i, e, c, v) {
      assert IsBlank(line[i]) || line[i] == HASH;
      forall k | e <= k < c || c + 1 <= k < v
        ensures IsBlank(line[k])
      {
      }
    }
  }

  /** The scanner differs from the documented expression exactly on lines where every
      match leans on one of the four bytes, and on none that is free of them. */
  lemma WideDiffers(line: Bytes)
    ensures MatchesSomewhere(line) ==> WideMatchesSomewhere(line)
    ensures MatchesSomewhere(line) <==>
            exists i, e, c, v :: WideMatches(line, i, e, c, v) && !LeansOnWide(line, i, e, c, v)
    ensures (forall b :: b in line ==> !(10 <= b <= 13)) ==>
              (MatchesSomewhere(line) <==> WideMatchesSomewhere(line))
  {
    if i, e, c, v :| Matches(line, i, e, c, v) {
      assert WideMatches(line, i, e, c, v);
      WideMatchNarrows(line, i, e, c, v);
    }
    if i, e, c, v :| WideMatches(line, i, e, c, v) && !LeansOnWide(line, i, e, c, v) {
      WideMatchNarrows(line, i, e, c, v);
    }
    if forall b :: b in line ==> !(10 <= b <= 13) {
      if i, e, c, v :| WideMatches(line, i, e, c, v) {
        assert !LeansOnWide(line, i, e, c, v) by {
          forall k | 0 <= k < |line|
            ensures !(10 <= line[k] <= 13)
          {
            assert line[k] in line;
          }
        }
        WideMatchNarrows(line, i, e, c, v);
      }
    }
  }

  /** "#coding", a form feed, ":x" */
  const FORM_FEED: Bytes := [35] + CODING + [12, 58, 120]

  lemma FormFeedExample()
    ensures WideMatchesSomewhere(FORM_FEED) && !MatchesSomewhere(FORM_FEED)
  {
    var l := FORM_FEED;
    assert l[1..7] == CODING && l[7] == 12 && l[8] == COLON;
    assert WideMatches(l, 0, 7, 8, 9);
    forall i: nat, e: nat, c: nat, v: nat
      ensures !Matches(l, i, e, c, v)
    {
      assert i == 0 || i >= |l| || !(IsBlank(l[i]) || l[i] == HASH);
    }
  }

  // ----------------------------------------------------------- whole files

  /** The file cut at its newlines. */
  function LinesOf(text: Bytes): (r: seq<Bytes>)
    ensures r != []
  {
    if text == [] then [[]]
    else if text[0] == NEWLINE then [[]] + LinesOf(text[1..])
    else
      var rest := LinesOf(text[1..]);
      [[text[0]] + rest[0]] + rest[1..]
  }

  lemma Longer<T>(c: T, head: seq<T>, tail: seq<seq<T>>)
    ensures var all := [head] + tail; [[c] + all[0]] + all[1..] == [[c] + head] + tail
  {
    assert ([head] + tail)[1..] == tail;
  }

  lemma {:induction false} FirstLine(text: Bytes, p: nat)
    requires p <= |text| && forall k :: 0 <= k < p ==> text[k] != NEWLINE
    requires p < |text| ==> text[p] == NEWLINE
    ensures LinesOf(text) == [text[..p]] + (if p < |text| then LinesOf(text[p + 1..]) else [])
  {
    if p == 0 {
      assert text[..0] == [];
    } else {
      var rest := text[1..];
      assert forall k :: 0 <= k < p - 1 ==> rest[k] == text[k + 1];
      FirstLine(rest, p - 1);
      if p < |text| { assert rest[p..] == text[p + 1..]; }
      Longer(text[0], rest[..p - 1], if p < |text| then LinesOf(text[p + 1..]) else []);
      assert text[..p] == [text[0]] + rest[..p - 1];
    }
  }

  predicate IsSkipped(b: byte) {
    IsBlank(b) || b == 0xEF || b == 0xBB || b == 0xBF
  }

  function Trimmed(line: Bytes): Bytes {
    if line != [] && IsSkipped(line[0]) then Trimmed(line[1..]) else line
  }

  function LowerByte(b: byte): byte {
    if 65 <= b <= 90 then b + 32 else b
  }

  function Lower(line: Bytes): Bytes {
    seq(|line|, i requires 0 <= i < |line| => LowerByte(line[i]))
  }

  /** After leading blanks and byte-order-mark bytes the line is a comment that
      matches, in lower case. */
  ghost predicate IsMagic(line: Bytes) {
    var t := Trimmed(line);
    t != [] && t[0] == HASH && MatchesSomewhere(Lower(t))
  }

  ghost predicate HasMagicLine(text: Bytes) {
    exists k :: 0 <= k < 3 && k < |LinesOf(text)| && IsMagic(LinesOf(text)[k])
  }

  method FindNewline(text: Bytes, start: nat) returns (end: nat)
    requires start <= |text|
    ensures start <= end <= |text| && (end < |text| ==> text[end] == NEWLINE)
    ensures forall k :: start <= k < end ==> text[k] != NEWLINE
  {
    end := start;
    while end < |text| && text[end] != NEWLINE
      invariant start <= end <= |text| && forall k :: start <= k < end ==> text[k] != NEWLINE
    {
      end := end + 1;
    }
  }

  method CheckLine(line: Bytes) returns (b: bool)
    ensures b <==> IsMagic(line)
  {
    var trimmed := Trimmed(line);
    if trimmed == [] || trimmed[0] != HASH {
      return false;
    }
    b := MatchesParserEncodingRe(Lower(trimmed));
  }

  /** The line at `start` ends at `end`; behind its newline the other lines go
      on. */
  lemma NextLine(text: Bytes, lines: seq<Bytes>, k: nat, start: nat, end: nat)
    requires k <= |lines| && start <= end <= |text| && lines[k..] == LinesOf(text[start..])
    requires (end < |text| ==> text[end] == NEWLINE) && forall j :: start <= j < end ==> text[j] != NEWLINE
    ensures k < |lines| && lines[k] == text[start..end]
    ensures end < |text| ==> k + 1 < |lines| && lines[k + 1..] == LinesOf(text[end + 1..])
    ensures end == |text| ==> |lines| == k + 1
  {
    var rest := text[start..];
    FirstLine(rest, end - start);
    assert rest[..end - start] == text[start..end];
    assert lines[k] == lines[k..][0];
    assert lines[k + 1..] == lines[k..][1..];
    if end < |text| { assert rest[end - start + 1..] == text[end + 1..]; }
  }

  /** `has_encoding_magic_comment`: true exactly when one of the first three lines
      is a magic comment. */
  method HasEncodingMagicComment(text: Bytes) returns (b: bool)
    ensures b <==> HasMagicLine(text)
  {
    ghost var lines := LinesOf(text);
    var start := 0;
    assert text[0..] == text && lines[0..] == lines;
    for k := 0 to 3
      invariant start <= |text| && k <= |lines| && lines[k..] == LinesOf(text[start..])
      invariant forall j :: 0 <= j < k ==> !IsMagic(lines[j])
    {
      var end := FindNewline(text, start);
      NextLine(text, lines, k, start, end);
      var magic := CheckLine(text[start..end]);
      if magic {
        return true;
      }
      start := end + 1;
      if start >= |text| {
        assert end < |text| ==> text[start..] == [] && lines[k + 1..] == [[]] && lines[k + 1] == lines[k + 1..][0];
        return false;
      }
    }
    b := false;
  }

  // ---------------------------------------------------- in plain characters

  predicate Is(b: byte, c: char) {
    b as int == c as int
  }

  predicate Spells(bytes: Bytes, word: string) {
    |bytes| == |word| && forall i :: 0 <= i < |bytes| ==> Is(bytes[i], word[i])
  }

  /** The characters the scanner looks for. */
  lemma InCharacters(b: byte)
    ensures Spells(ENCODING, "encoding") && Spells(CODING, "coding")
    ensures Is(HASH, '#') && Is(COLON, ':') && Is(EQUALS, '=') && Is(NEWLINE, '\n')
    ensures IsBlank(b) <==> Is(b, ' ') || Is(b, '\t')
    ensures IsNameByte(b) <==>
            || Is(b, '_') || Is(b, '-')
            || exists c: char :: Is(b, c) && ('a' <= c <= 'z' || 'A' <= c <= 'Z' || '0' <= c <= '9')
  {
    assert "encoding"[0] == 'e' && "encoding"[1] == 'n' && "encoding"[2] == 'c' && "encoding"[3] == 'o';
    assert "coding"[0] == 'c' && "coding"[1] == 'o' && "coding"[2] == 'd' && "coding"[3] == 'i';
    assert Is(b, b as int as char);
  }

  /** Lower case moves the capital letters onto the small ones and nothing else. */
  lemma LowerIs(line: Bytes)
    ensures |Lower(line)| == |line|
    ensures forall i :: 0 <= i < |line| ==>
                          Lower(line)[i] as int ==
                          if 'A' as int <= line[i] as int <= 'Z' as int
                          then line[i] as int - 'A' as int + 'a' as int else line[i] as int
  {
  }

  predicate IsLead(b: byte) {
    b as int in {0x20, 0x09, 0xEF, 0xBB, 0xBF}
  }

  lemma {:induction false} TrimmedIs(line: Bytes) returns (k: nat)
    ensures k <= |line| && Trimmed(line) == line[k..]
    ensures (forall i :: 0 <= i < k ==> IsLead(line[i])) && (k < |line| ==> !IsLead(line[k]))
  {
    k := 0;
    if line != [] && IsSkipped(line[0]) {
      k := TrimmedIs(line[1..]);
      k := k + 1;
      assert line[1..][k - 1..] == line[k..];
      assert forall i :: 0 < i < k ==> line[i] == line[1..][i - 1];
    }
  }

  /** A magic line in so many words: blanks, tabs and byte-order-mark bytes, then a
      `#`, and from there on a match in lower case. */
  lemma MagicMeans(line: Bytes)
    ensures IsMagic(line) <==>
            exists k: nat :: k < |line| && (forall i :: 0 <= i < k ==> IsLead(line[i]))
                             && Is(line[k], '#') && MatchesSomewhere(Lower(line[k..]))
  {
    var j := TrimmedIs(line);
    assert j < |line| ==> Trimmed(line)[0] == line[j];
    if k: nat :| k < |line| && (forall i :: 0 <= i < k ==> IsLead(line[i]))
                 && Is(line[k], '#') && MatchesSomewhere(Lower(line[k..])) {
      assert !IsLead(line[k]);
      assert j == k;
    }
    if IsMagic(line) {
      assert Is(line[j], '#');
    }
  }

  /** A byte-order mark, a blank, a tab, then "#CODING:X" */
  const SHOUTED: Bytes := [0xEF, 0xBB, 0xBF, 32, 9, 35, 67, 79, 68, 73, 78, 71, 58, 88]

  lemma ShoutedLowers()
    ensures Lower(SHOUTED[5..]) == MAGIC
  {
    var t := SHOUTED[5..];
    assert t == [35, 67, 79, 68, 73, 78, 71, 58, 88];
    assert MAGIC == [35, 99, 111, 100, 105, 110, 103, 58, 120];
  }

  lemma MagicFrom(line: Bytes, k: nat)
    requires k < |line| && (forall i :: 0 <= i < k ==> IsLead(line[i])) && Is(line[k], '#')
    requires MatchesSomewhere(Lower(line[k..]))
    ensures IsMagic(line)
  {
    MagicMeans(line);
  }

  lemma ShoutedIsMagic()
    ensures IsMagic(SHOUTED)
  {
    ShoutedLowers();
    MagicMatches();
    MagicFrom(SHOUTED, 5);
  }

  // ------------------------------------------------- the documented rule

  predicate IsShebang(line: Bytes) {
    |line| >= 2 && line[0] == HASH && line[1] == 33
  }

  /** As documented: one of the first two lines, or the third if the first is a
      shebang. */
  ghost predicate DocumentedMagic(text: Bytes) {
    exists k :: 0 <= k < 3 && k < |LinesOf(text)| && IsMagic(LinesOf(text)[k])
                && (k == 2 ==> IsShebang(LinesOf(text)[0]))
  }

  lemma FirstTwoCount(text: Bytes)
    requires |LinesOf(text)| >= 3 && IsMagic(LinesOf(text)[2])
    ensures HasMagicLine(text)
    ensures DocumentedMagic(text) <==>
            IsShebang(LinesOf(text)[0]) || IsMagic(LinesOf(text)[0]) || IsMagic(LinesOf(text)[1])
  {
  }

  lemma NoThirdCounts(text: Bytes)
    requires |LinesOf(text)| < 3 || !IsMagic(LinesOf(text)[2])
    ensures HasMagicLine(text) == DocumentedMagic(text)
  {
  }

  /** The code follows the documented rule exactly unless the third line is a magic
      comment, the first is no shebang, and neither of the first two is magic. */
  lemma DocumentedUnlessThird(text: Bytes)
    ensures HasMagicLine(text) == DocumentedMagic(text) <==>
            var lines := LinesOf(text);
            || |lines| < 3 || !IsMagic(lines[2])
            || IsShebang(lines[0]) || IsMagic(lines[0]) || IsMagic(lines[1])
  {
    if |LinesOf(text)| < 3 || !IsMagic(LinesOf(text)[2]) {
      NoThirdCounts(text);
    } else {
      FirstTwoCount(text);
    }
  }

  /** "#coding:x" */
  const MAGIC: Bytes := [35] + CODING + [58, 120]

  lemma MagicMatches()
    ensures MatchesSomewhere(MAGIC)
  {
    assert MAGIC[1..7] == CODING;
    assert Matches(MAGIC, 0, 7, 7, 8);
  }

  lemma MagicLowers()
    ensures Lower(MAGIC[0..]) == MAGIC && NEWLINE !in MAGIC && Is(MAGIC[0], '#')
  {
    assert MAGIC == [35, 99, 111, 100, 105, 110, 103, 58, 120];
  }

  lemma MagicIsMagic()
    ensures IsMagic(MAGIC) && NEWLINE !in MAGIC
  {
    MagicMatches();
    MagicLowers();
    MagicFrom(MAGIC, 0);
  }

  lemma PlainIsNotMagic(line: Bytes)
    requires line == [97]
    ensures !IsMagic(line) && !IsShebang(line) && NEWLINE !in line
  {
    assert Trimmed(line) == line;
  }

  lemma ThreeLines(first: Bytes, second: Bytes, third: Bytes)
    requires NEWLINE !in first && NEWLINE !in second && NEWLINE !in third
    ensures LinesOf(first + [NEWLINE] + (second + [NEWLINE] + third)) == [first, second, third]
  {
    var tail := second + [NEWLINE] + third;
    var text := first + [NEWLINE] + tail;
    FirstLine(third, |third|);
    assert third[..|third|] == third;
    FirstLine(tail, |second|);
    assert tail[..|second|] == second && tail[|second| + 1..] == third;
    FirstLine(text, |first|);
    assert text[..|first|] == first && text[|first| + 1..] == tail;
  }

  /** A magic comment on the third line, under two lines that are neither shebang
      nor magic: the code finds it, the documented rule does not. */
  lemma ThirdLineExample() returns (text: Bytes)
    ensures LinesOf(text) == [[97], [97], MAGIC]
    ensures HasMagicLine(text) && !DocumentedMagic(text)
  {
    MagicIsMagic();
    PlainIsNotMagic([97]);
    ThreeLines([97], [97], MAGIC);
    text := [97] + [NEWLINE] + ([97] + [NEWLINE] + MAGIC);
    var lines := LinesOf(text);
    assert lines[2] == MAGIC;
    DocumentedUnlessThird(text);
  }
}
