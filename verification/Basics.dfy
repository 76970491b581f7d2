/** Raw bytes and the two small wrappers shared by every model. */
module Basics {
  newtype byte = n: int | 0 <= n < 256

  type Bytes = seq<byte>

  datatype Option<+T> = None | Some(value: T)

  /** The sequence with element k taken out. */
  function Without<T>(s: seq<T>, k: nat): (r: seq<T>)
    requires k < |s|
    ensures |r| == |s| - 1
    ensures forall i :: 0 <= i < |r| ==> r[i] == s[if i < k then i else i + 1]
  {
    s[..k] + s[k+1..]
  }

  lemma WithoutMultiset<T>(s: seq<T>, k: nat)
    requires k < |s|
    ensures multiset(s) == multiset(Without(s, k)) + multiset{s[k]}
  {
    assert s == s[..k] + ([s[k]] + s[k+1..]);
  }

  /** Taking one equal element out of each keeps two lists permutations. */
  lemma WithoutSame<T>(s: seq<T>, t: seq<T>, i: nat, k: nat)
    requires multiset(s) == multiset(t) && i < |s| && k < |t| && s[i] == t[k]
    ensures multiset(Without(s, i)) == multiset(Without(t, k))
  {
    WithoutMultiset(s, i);
    WithoutMultiset(t, k);
    var m, n := multiset(Without(s, i)), multiset(Without(t, k));
    assert m == multiset(s) - multiset{s[i]};
    assert n == multiset(t) - multiset{t[k]};
  }

  lemma Scale(a: nat, b: nat, c: nat)
    requires a <= b
    ensures a * c <= b * c && c * a <= c * b
  {
  }
}
