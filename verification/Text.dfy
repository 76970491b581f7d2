/** The string operations the Python and Rust sources lean on. */
module Text {
  /** `char::is_whitespace` in Rust: the Unicode White_Space property. */
  predicate IsSpace(c: char) {
    || '\U{0009}' <= c <= '\U{000D}' || c == ' ' || c == '\U{0085}' || c == '\U{00A0}'
    || c == '\U{1680}' || '\U{2000}' <= c <= '\U{200A}' || c == '\U{2028}' || c == '\U{2029}'
    || c == '\U{202F}' || c == '\U{205F}' || c == '\U{3000}'
  }

  /** `str.isspace` in Python also counts the four information separators. */
  predicate IsPythonSpace(c: char) {
    IsSpace(c) || '\U{001C}' <= c <= '\U{001F}'
  }

  predicate StartsWith(s: string, prefix: string) {
    prefix <= s
  }

  predicate EndsWith(s: string, suffix: string) {
    |suffix| <= |s| && s[|s| - |suffix|..] == suffix
  }

  predicate OccursAt(s: string, pat: string, k: nat) {
    k + |pat| <= |s| && s[k..k + |pat|] == pat
  }

  /** Position of the first occurrence at or after `from`, or |s| + 1. */
  function FindFrom(s: string, pat: string, from: nat): (k: nat)
    ensures k <= |s| ==> from <= k && OccursAt(s, pat, k)
    ensures forall j :: from <= j < k ==> !OccursAt(s, pat, j)
    decreases |s| + 1 - from
  {
    if from + |pat| > |s| then |s| + 1
    else if OccursAt(s, pat, from) then from
    else FindFrom(s, pat, from + 1)
  }

  predicate Contains(s: string, pat: string) {
    FindFrom(s, pat, 0) <= |s|
  }

  /** `str.lstrip` in Python. */
  function LStrip(s: string): string {
    if s != [] && IsPythonSpace(s[0]) then LStrip(s[1..]) else s
  }

  /** `str::trim_start` in Rust. */
  function TrimStart(s: string): string {
    if s != [] && IsSpace(s[0]) then TrimStart(s[1..]) else s
  }

  /** `str::trim_end` in Rust. */
  function TrimEnd(s: string): string {
    if s != [] && IsSpace(s[|s| - 1]) then TrimEnd(s[..|s| - 1]) else s
  }

  /** Trimming takes off white space and nothing else, and leaves none at the end it
      works on. */
  lemma {:induction false} TrimsStart(s: string) returns (k: nat)
    ensures k <= |s| && TrimStart(s) == s[k..]
    ensures (forall i :: 0 <= i < k ==> IsSpace(s[i])) && (k < |s| ==> !IsSpace(s[k]))
  {
    k := 0;
    if s != [] && IsSpace(s[0]) {
      k := TrimsStart(s[1..]);
      k := k + 1;
      assert s[1..][k - 1..] == s[k..];
      assert forall i :: 0 < i < k ==> s[i] == s[1..][i - 1];
    }
  }

  lemma {:induction false} TrimsEnd(s: string) returns (k: nat)
    ensures k <= |s| && TrimEnd(s) == s[..k]
    ensures (forall i :: k <= i < |s| ==> IsSpace(s[i])) && (k > 0 ==> !IsSpace(s[k - 1]))
  {
    k := |s|;
    if s != [] && IsSpace(s[|s| - 1]) {
      k := TrimsEnd(s[..|s| - 1]);
      assert s[..|s| - 1][..k] == s[..k];
      assert forall i :: k <= i < |s| - 1 ==> s[i] == s[..|s| - 1][i];
    }
  }

  lemma {:induction false} StripsStart(s: string) returns (k: nat)
    ensures k <= |s| && LStrip(s) == s[k..]
    ensures (forall i :: 0 <= i < k ==> IsPythonSpace(s[i])) && (k < |s| ==> !IsPythonSpace(s[k]))
  {
    k := 0;
    if s != [] && IsPythonSpace(s[0]) {
      k := StripsStart(s[1..]);
      k := k + 1;
      assert s[1..][k - 1..] == s[k..];
      assert forall i :: 0 < i < k ==> s[i] == s[1..][i - 1];
    }
  }

  /** Among the ASCII characters white space is the blank and what lies from the tab
      to the carriage return; Python adds the four separators. */
  lemma AsciiSpaces(c: char)
    requires c < '\U{0080}'
    ensures IsSpace(c) <==> c == ' ' || 9 <= c as int <= 13
    ensures IsPythonSpace(c) <==> c == ' ' || 9 <= c as int <= 13 || 28 <= c as int <= 31
  {
  }

  /** `sep.join(parts)` for a one-character separator. */
  function Join(parts: seq<string>, sep: char): string {
    if parts == [] then []
    else if |parts| == 1 then parts[0]
    else parts[0] + [sep] + Join(parts[1..], sep)
  }

  /** `text.split(sep)`. */
  function Split(text: string, sep: char): (parts: seq<string>)
    ensures parts != []
  {
    if text == [] then [[]]
    else if text[0] == sep then [[]] + Split(text[1..], sep)
    else
      var rest := Split(text[1..], sep);
      [[text[0]] + rest[0]] + rest[1..]
  }

  lemma {:induction false} SplitOfLine(line: string, sep: char)
    requires sep !in line
    ensures Split(line, sep) == [line]
  {
    if line != [] {
      SplitOfLine(line[1..], sep);
      assert [line[0]] + line[1..] == line;
    }
  }

  lemma {:induction false} SplitAfterLine(line: string, rest: string, sep: char)
    requires sep !in line
    ensures Split(line + [sep] + rest, sep) == [line] + Split(rest, sep)
  {
    var text := line + [sep] + rest;
    if line == [] {
      assert text[1..] == rest;
    } else {
      SplitAfterLine(line[1..], rest, sep);
      assert text[1..] == line[1..] + [sep] + rest;
      assert [line[0]] + line[1..] == line;
    }
  }

  /** Splitting undoes joining, for parts free of the separator. */
  lemma {:induction false} SplitJoin(parts: seq<string>, sep: char)
    requires parts != [] && forall p :: p in parts ==> sep !in p
    ensures Split(Join(parts, sep), sep) == parts
  {
    if |parts| == 1 {
      SplitOfLine(parts[0], sep);
    } else {
      SplitJoin(parts[1..], sep);
      SplitAfterLine(parts[0], Join(parts[1..], sep), sep);
    }
  }
}
