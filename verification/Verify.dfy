/** Comparing offenses with RuboCop as multisets (src/verify.rs): counters built
    in hash maps, compared key by key in no particular order. */
module Verify {
  import opened Diagnostics
  import opened Text

  datatype Key = Key(path: string, line: nat, cop: string)

  type Counter = map<Key, nat>

  datatype CopStats = CopStats(matches: nat, fp: nat, fn: nat)

  function Add(a: CopStats, b: CopStats): CopStats {
    CopStats(a.matches + b.matches, a.fp + b.fp, a.fn + b.fn)
  }

  lemma AddSwap(a: CopStats, b: CopStats, c: CopStats)
    ensures Add(a, Add(b, c)) == Add(b, Add(a, c))
    ensures Add(a, Add(b, c)) == Add(Add(a, b), c)
  {
  }

  const ZERO := CopStats(0, 0, 0)

  lemma AddZero(a: CopStats)
    ensures Add(ZERO, a) == a && Add(a, ZERO) == a
  {
  }

  function NormalizePath(path: string): string {
    if StartsWith(path, "./") then path[2..] else path
  }

  function KeyOf(d: Diagnostic): Key {
    Key(NormalizePath(d.path), d.line, d.copName)
  }

  /** An offense is told apart by its file, line and cop alone, and the file by its
      path with one leading "./" taken off. */
  lemma KeysTellApart(d: Diagnostic, e: Diagnostic)
    ensures KeyOf(d) == KeyOf(e) <==>
            && d.line == e.line && d.copName == e.copName
            && (|| d.path == e.path
                || (d.path == "./" + e.path && !StartsWith(e.path, "./"))
                || (e.path == "./" + d.path && !StartsWith(d.path, "./")))
    ensures KeyOf(d).line == d.line && KeyOf(d).cop == d.copName
    ensures !StartsWith(d.path, "./") ==> KeyOf(d).path == d.path
  {
    assert StartsWith(d.path, "./") ==> d.path == "./" + d.path[2..];
    assert StartsWith(e.path, "./") ==> e.path == "./" + e.path[2..];
    assert ("./" + d.path)[2..] == d.path && ("./" + e.path)[2..] == e.path;
  }

  function KeysOf(ds: seq<Diagnostic>): seq<Key> {
    seq(|ds|, i requires 0 <= i < |ds| => KeyOf(ds[i]))
  }

  function Count(c: Counter, k: Key): nat {
    if k in c then c[k] else 0
  }

  // ---------------------------------------------------- counters as multisets

  /** The counter holds just what is in the multiset. */
  ghost predicate Represents(c: Counter, m: multiset<Key>) {
    forall k :: Count(c, k) == m[k]
  }

  function Min(x: nat, y: nat): nat {
    if x < y then x else y
  }

  function Minus(x: nat, y: nat): nat {
    if x < y then 0 else x - y
  }

  /** Smaller count, and what each side has over (saturating subtraction). */
  function ShareOf(x: nat, y: nat): CopStats {
    CopStats(Min(x, y), Minus(x, y), Minus(y, x))
  }

  /** One key's share in the comparison. */
  function Share(a: Counter, b: Counter): Key -> CopStats {
    k => ShareOf(Count(a, k), Count(b, k))
  }

  // ------------------------------------------------------ sums over key sets

  ghost function Total(f: Key -> CopStats, keys: set<Key>): CopStats {
    if keys == {} then ZERO
    else
      var k :| k in keys;
      Add(f(k), Total(f, keys - {k}))
  }

  /** The sum does not depend on the order in which keys are taken. */
  lemma {:induction false} TotalWithout(f: Key -> CopStats, keys: set<Key>, k: Key)
    requires k in keys
    ensures Total(f, keys) == Add(f(k), Total(f, keys - {k}))
    decreases keys
  {
    var d :| d in keys && Total(f, keys) == Add(f(d), Total(f, keys - {d}));
    if d == k {
      assert Total(f, keys) == Add(f(k), Total(f, keys - {k}));
    } else {
      TotalWithout(f, keys - {d}, k);
      TotalWithout(f, keys - {k}, d);
      var rest := keys - {d} - {k};
      assert keys - {k} - {d} == rest;
      assert Total(f, keys - {d}) == Add(f(k), Total(f, rest));
      assert Total(f, keys - {k}) == Add(f(d), Total(f, rest));
      AddSwap(f(d), f(k), Total(f, rest));
      assert Total(f, keys) == Add(f(d), Add(f(k), Total(f, rest)));
    }
  }

  lemma SmallerUnion(a: set<Key>, b: set<Key>, u: set<Key>, k: Key)
    requires a !! b && u == a + b && k in a
    ensures a - {k} !! b && u - {k} == a - {k} + b && k in u
  {
  }

  lemma {:induction false} TotalUnion(f: Key -> CopStats, a: set<Key>, b: set<Key>, u: set<Key>)
    requires a !! b && u == a + b
    ensures Total(f, u) == Add(Total(f, a), Total(f, b))
    decreases a
  {
    if a == {} {
      assert u == b;
      AddZero(Total(f, b));
      assert Total(f, a) == ZERO;
    } else {
      var k :| k in a;
      SmallerUnion(a, b, u, k);
      TotalUnion(f, a - {k}, b, u - {k});
      TotalWithout(f, a, k);
      TotalWithout(f, u, k);
      AddSwap(f(k), Total(f, a - {k}), Total(f, b));
    }
  }

  function OfCop(keys: set<Key>, cop: string): set<Key> {
    set k | k in keys && k.cop == cop
  }

  lemma TotalWith(f: Key -> CopStats, done: set<Key>, k: Key)
    requires k !in done
    ensures Total(f, done + {k}) == Add(Total(f, done), f(k))
  {
    TotalWithout(f, done + {k}, k);
    assert done + {k} - {k} == done;
  }

  /** The rows are right for the keys done. */
  ghost predicate RowsOk(f: Key -> CopStats, done: set<Key>, rows: map<string, CopStats>) {
    && (forall cop :: RowOf(rows, cop) == Total(f, OfCop(done, cop)))
    && rows.Keys == set k | k in done :: k.cop
  }

  /** Adding one key adds its share to its own cop's row and to no other. */
  lemma RowsWith(f: Key -> CopStats, done: set<Key>, k: Key, rows: map<string, CopStats>)
    requires RowsOk(f, done, rows) && k !in done
    ensures RowsOk(f, done + {k}, rows[k.cop := Add(RowOf(rows, k.cop), f(k))])
  {
    var after := rows[k.cop := Add(RowOf(rows, k.cop), f(k))];
    forall cop
      ensures RowOf(after, cop) == Total(f, OfCop(done + {k}, cop))
    {
      if cop == k.cop {
        TotalWith(f, OfCop(done, cop), k);
        assert OfCop(done + {k}, cop) == OfCop(done, cop) + {k};
      } else {
        assert OfCop(done + {k}, cop) == OfCop(done, cop);
      }
    }
  }

  /** Totals and rows are right for the keys done. */
  ghost predicate TallyOk(f: Key -> CopStats, done: set<Key>, matches: nat, fp: nat, fn: nat, rows: map<string, CopStats>) {
    && Total(f, done).matches == matches && Total(f, done).fp == fp && Total(f, done).fn == fn
    && RowsOk(f, done, rows)
  }

  lemma TallyStep(f: Key -> CopStats, done: set<Key>, k: Key, matches: nat, fp: nat, fn: nat, rows: map<string, CopStats>)
    requires TallyOk(f, done, matches, fp, fn, rows) && k !in done
    ensures TallyOk(f, done + {k}, matches + f(k).matches, fp + f(k).fp, fn + f(k).fn,
                    rows[k.cop := Add(RowOf(rows, k.cop), f(k))])
  {
    TotalWith(f, done, k);
    RowsWith(f, done, k, rows);
  }

  lemma TallyStart(f: Key -> CopStats)
    ensures TallyOk(f, {}, 0, 0, 0, map[])
  {
    forall cop: string
      ensures Total(f, OfCop({}, cop)) == ZERO
    {
      assert OfCop({}, cop) == {};
    }
  }

  // ------------------------------------------------------------ the methods

  function Bump(counter: Counter, key: Key): Counter {
    counter[key := (if key in counter then counter[key] else 0) + 1]
  }

  lemma BumpAdds(counter: Counter, m: multiset<Key>, key: Key)
    requires Represents(counter, m)
    ensures Represents(Bump(counter, key), m + multiset{key})
  {
    assert Count(counter, key) == m[key];
    forall k
      ensures Count(Bump(counter, key), k) == (m + multiset{key})[k]
    {
      assert Count(counter, k) == m[k];
    }
  }

  method DiagnosticsToCounter(ds: seq<Diagnostic>) returns (counter: Counter)
    ensures Represents(counter, multiset(KeysOf(ds)))
    ensures forall k :: k in counter ==> counter[k] > 0
  {
    counter := map[];
    assert KeysOf(ds)[..0] == [];
    for i := 0 to |ds|
      invariant Represents(counter, multiset(KeysOf(ds)[..i]))
      invariant forall k :: k in counter ==> counter[k] > 0
    {
      var key := KeyOf(ds[i]);
      assert KeysOf(ds)[..i+1] == KeysOf(ds)[..i] + [key];
      BumpAdds(counter, multiset(KeysOf(ds)[..i]), key);
      counter := Bump(counter, key);
    }
    assert KeysOf(ds)[..|ds|] == KeysOf(ds);
  }

  function RowOf(rows: map<string, CopStats>, cop: string): CopStats {
    if cop in rows then rows[cop] else ZERO
  }

  /** The loop of `counter_diff`, over the keys in any order. */
  method Tally(f: Key -> CopStats, all: set<Key>)
    returns (matches: nat, fp: nat, fn: nat, perCop: map<string, CopStats>)
    ensures TallyOk(f, all, matches, fp, fn, perCop)
  {
    var keys := all;
    matches, fp, fn := 0, 0, 0;
    perCop := map[];
    TallyStart(f);
    assert all - keys == {};
    while keys != {}
      invariant keys <= all
      invariant TallyOk(f, all - keys, matches, fp, fn, perCop)
      decreases |keys|
    {
      var key :| key in keys;
      var stats := f(key);
      TallyStep(f, all - keys, key, matches, fp, fn, perCop);
      assert all - (keys - {key}) == all - keys + {key};
      matches, fp, fn := matches + stats.matches, fp + stats.fp, fn + stats.fn;
      perCop := perCop[key.cop := Add(RowOf(perCop, key.cop), stats)];
      keys := keys - {key};
    }
    assert all - keys == all;
  }

  /** `counter_diff`: whatever order the keys come in, the totals are the sums of
      the keys' shares, each cop's row is that sum over its own keys, and there is
      a row for just the cops that occur. */
  method CounterDiff(a: Counter, b: Counter)
    returns (matches: nat, fp: nat, fn: nat, perCop: map<string, CopStats>)
    ensures TallyOk(Share(a, b), a.Keys + b.Keys, matches, fp, fn, perCop)
  {
    matches, fp, fn, perCop := Tally(Share(a, b), a.Keys + b.Keys);
  }

  // ----------------------------------------------------------- what it means

  ghost function Sizes(x: multiset<Key>, y: multiset<Key>): CopStats {
    CopStats(|x * y|, |x - y|, |y - x|)
  }

  lemma SizesWithout(x: multiset<Key>, y: multiset<Key>, k: Key)
    ensures Sizes(x, y) == Add(ShareOf(x[k], y[k]), Sizes(x[k := 0], y[k := 0]))
  {
    assert x[k := 0] * y[k := 0] == (x * y)[k := 0];
    assert x[k := 0] - y[k := 0] == (x - y)[k := 0];
    assert y[k := 0] - x[k := 0] == (y - x)[k := 0];
  }

  lemma {:induction false} SharesCount(x: multiset<Key>, y: multiset<Key>, f: Key -> CopStats, keys: set<Key>)
    requires forall k :: k in x || k in y ==> k in keys
    requires forall k :: k in keys ==> f(k) == ShareOf(x[k], y[k])
    ensures Total(f, keys) == Sizes(x, y)
    decreases keys
  {
    if keys == {} {
      assert x == multiset{} && y == multiset{};
    } else {
      var k :| k in keys;
      TotalWithout(f, keys, k);
      SharesCount(x[k := 0], y[k := 0], f, keys - {k});
      SizesWithout(x, y, k);
    }
  }

  /** The totals are multiset arithmetic: matches are the intersection, false
      positives and negatives the two differences. */
  lemma TotalsAreMultisetSizes(a: Counter, b: Counter, x: multiset<Key>, y: multiset<Key>)
    requires Represents(a, x) && Represents(b, y)
    ensures Total(Share(a, b), a.Keys + b.Keys) == CopStats(|x * y|, |x - y|, |y - x|)
  {
    forall k | k in x || k in y
      ensures k in a.Keys + b.Keys
    {
      assert Count(a, k) == x[k] && Count(b, k) == y[k];
    }
    SharesCount(x, y, Share(a, b), a.Keys + b.Keys);
  }

  /** Nothing is lost or counted twice: matches and false positives make up the
      first total, matches and false negatives the second; swapping the inputs
      swaps the errors; and there are none exactly when the multisets are equal. */
  lemma ComparisonConserves(a: Counter, b: Counter, x: multiset<Key>, y: multiset<Key>)
    requires Represents(a, x) && Represents(b, y)
    ensures var t := Total(Share(a, b), a.Keys + b.Keys);
            && t.matches + t.fp == |x| && t.matches + t.fn == |y|
            && Total(Share(b, a), b.Keys + a.Keys) == CopStats(t.matches, t.fn, t.fp)
            && (t.fp + t.fn == 0 <==> x == y)
  {
    TotalsAreMultisetSizes(a, b, x, y);
    TotalsAreMultisetSizes(b, a, y, x);
    assert x * y == y * x;
    if |x - y| == 0 && |y - x| == 0 {
      forall k
        ensures x[k] == y[k]
      {
        assert (x - y)[k] == 0 && (y - x)[k] == 0;
      }
    }
  }

  ghost function Sum(rows: map<string, CopStats>, cops: set<string>): CopStats
    requires cops <= rows.Keys
  {
    if cops == {} then ZERO
    else
      var c :| c in cops;
      Add(rows[c], Sum(rows, cops - {c}))
  }

  /** The rows add up to the totals. */
  lemma {:induction false} RowsSumToTotal(f: Key -> CopStats, keys: set<Key>, rows: map<string, CopStats>, cops: set<string>)
    requires cops <= rows.Keys
    requires forall c :: c in cops ==> rows[c] == Total(f, OfCop(keys, c))
    requires forall k :: k in keys ==> k.cop in cops
    ensures Sum(rows, cops) == Total(f, keys)
    decreases cops
  {
    if cops == {} {
      assert keys == {};
    } else {
      var c :| c in cops && Sum(rows, cops) == Add(rows[c], Sum(rows, cops - {c}));
      var mine := OfCop(keys, c);
      TotalUnion(f, mine, keys - mine, keys);
      forall d | d in cops - {c}
        ensures rows[d] == Total(f, OfCop(keys - mine, d))
      {
        assert OfCop(keys - mine, d) == OfCop(keys, d);
      }
      RowsSumToTotal(f, keys - mine, rows, cops - {c});
    }
  }

  /** What the comparison returns: the totals conserve both multisets, and the rows
      of the returned map add up to them. */
  lemma ReportConserves(a: Counter, b: Counter, x: multiset<Key>, y: multiset<Key>,
                        matches: nat, fp: nat, fn: nat, perCop: map<string, CopStats>)
    requires Represents(a, x) && Represents(b, y)
    requires TallyOk(Share(a, b), a.Keys + b.Keys, matches, fp, fn, perCop)
    ensures matches + fp == |x| && matches + fn == |y|
    ensures fp + fn == 0 <==> x == y
    ensures Sum(perCop, perCop.Keys) == CopStats(matches, fp, fn)
  {
    var f, keys := Share(a, b), a.Keys + b.Keys;
    ComparisonConserves(a, b, x, y);
    forall c | c in perCop.Keys
      ensures perCop[c] == Total(f, OfCop(keys, c))
    {
      assert RowOf(perCop, c) == Total(f, OfCop(keys, c));
    }
    RowsSumToTotal(f, keys, perCop, perCop.Keys);
  }
}
