/** Diagnostics as the linter reports them (src/diagnostic.rs). */
module Diagnostics {
  datatype Severity = Convention | Warning | Error | Fatal

  datatype Diagnostic = Diagnostic(
    path: string,
    line: nat,
    column: nat,
    severity: Severity,
    copName: string,
    message: string,
    corrected: bool
  )

  /** The diagnostics marked as corrected, in order. */
  function Corrected(ds: seq<Diagnostic>): seq<Diagnostic> {
    if ds == [] then []
    else if ds[0].corrected then [ds[0]] + Corrected(ds[1..])
    else Corrected(ds[1..])
  }

  lemma {:induction false} CorrectedSplits(a: seq<Diagnostic>, b: seq<Diagnostic>)
    ensures Corrected(a + b) == Corrected(a) + Corrected(b)
  {
    if a == [] {
      assert a + b == b;
    } else {
      assert (a + b)[1..] == a[1..] + b;
      CorrectedSplits(a[1..], b);
    }
  }
}
