/** Positional subsequences: what is left of a file after deleting lines. */
module Subsequence {
  ghost predicate Sub<T>(a: seq<T>, b: seq<T>)
    decreases |b|
  {
    if a == [] then true
    else if b == [] then false
    else (a[0] == b[0] && Sub(a[1..], b[1..])) || Sub(a, b[1..])
  }

  lemma {:induction false} SubLength<T>(a: seq<T>, b: seq<T>)
    requires Sub(a, b)
    ensures |a| <= |b| && (|a| == |b| ==> a == b)
    decreases |b|
  {
    if a != [] {
      if a[0] == b[0] && Sub(a[1..], b[1..]) {
        SubLength(a[1..], b[1..]);
        assert a == [a[0]] + a[1..] && b == [b[0]] + b[1..];
      } else {
        SubLength(a, b[1..]);
      }
    }
  }

  lemma {:induction false} SubRefl<T>(a: seq<T>)
    ensures Sub(a, a)
  {
    if a != [] { SubRefl(a[1..]); }
  }

  lemma {:induction false} SubTrans<T>(a: seq<T>, b: seq<T>, c: seq<T>)
    requires Sub(a, b) && Sub(b, c)
    ensures Sub(a, c)
    decreases |b| + |c|
  {
    if a != [] {
      if b[0] == c[0] && Sub(b[1..], c[1..]) {
        if a[0] == b[0] && Sub(a[1..], b[1..]) {
          SubTrans(a[1..], b[1..], c[1..]);
        } else {
          SubTrans(a, b[1..], c[1..]);
        }
      } else {
        SubTrans(a, b, c[1..]);
      }
    }
  }

  lemma {:induction false} SubPrepend<T>(x: seq<T>, a: seq<T>, b: seq<T>)
    requires Sub(a, b)
    ensures Sub(a, x + b)
  {
    if x == [] {
      assert x + b == b;
    } else {
      SubPrepend(x[1..], a, b);
      assert (x + b)[1..] == x[1..] + b;
    }
  }

  lemma {:induction false} SubConcat<T>(a: seq<T>, b: seq<T>, c: seq<T>, d: seq<T>)
    requires Sub(a, b) && Sub(c, d)
    ensures Sub(a + c, b + d)
    decreases |b|
  {
    if a == [] {
      assert a + c == c;
      SubPrepend(b, c, d);
    } else {
      assert (a + c)[1..] == a[1..] + c;
      assert (b + d)[1..] == b[1..] + d;
      if a[0] == b[0] && Sub(a[1..], b[1..]) {
        SubConcat(a[1..], b[1..], c, d);
      } else {
        SubConcat(a, b[1..], c, d);
      }
    }
  }

  lemma MiddleGone<T>(front: seq<T>, middle: seq<T>, back: seq<T>)
    ensures Sub(front + back, front + (middle + back))
  {
    SubRefl(front);
    SubRefl(back);
    SubPrepend(middle, back, back);
    SubConcat(front, front, back, middle + back);
  }

  /** Deleting a stretch leaves a subsequence. */
  lemma CutIsSub<T>(s: seq<T>, i: nat, j: nat)
    requires i <= j <= |s|
    ensures Sub(s[..i] + s[j..], s)
  {
    MiddleGone(s[..i], s[i..j], s[j..]);
    assert s[..i] + (s[i..j] + s[j..]) == s;
  }

  /** A shorter subsequence already fits once some single element is gone. */
  lemma {:induction false} SubAvoidsOne<T>(a: seq<T>, b: seq<T>) returns (i: nat)
    requires Sub(a, b) && |a| < |b|
    ensures i < |b| && Sub(a, b[..i] + b[i+1..])
    decreases |b|
  {
    if a == [] {
      i := 0;
    } else if a[0] == b[0] && Sub(a[1..], b[1..]) {
      var k := SubAvoidsOne(a[1..], b[1..]);
      i := k + 1;
      var rest := b[..i] + b[i+1..];
      assert rest[0] == b[0];
      assert rest[1..] == b[1..][..k] + b[1..][k+1..];
    } else {
      i := 0;
      assert b[..0] + b[1..] == b[1..];
    }
  }
}
