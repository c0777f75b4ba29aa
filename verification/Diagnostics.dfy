/** The diagnostic engine: an append-only list with a capped error counter, on which the termination of
    the parser rests. */
module Diagnostics {
  import opened Tokens

  datatype Level = ErrorLevel | Warning

  datatype Diagnostic = Diagnostic(level: Level, loc: Location, message: string)

  const MAX_ERRORS := 100

  /** Error counters saturate at the cap. */
  function Capped(n: nat): nat { if n < MAX_ERRORS then n else MAX_ERRORS }

  lemma CappedAdds(a: nat, b: nat)
    ensures Capped(Capped(a) + b) == Capped(a + b)
  {
  }

  class DiagnosticEngine {
    var diagnostics: seq<Diagnostic>
    var errorCount: nat

    ghost predicate Valid()
      reads this
    {
      && errorCount <= MAX_ERRORS
      && CountErrors(diagnostics) == errorCount + if errorCount == MAX_ERRORS then 1 else 0
    }

    constructor ()
      ensures Valid() && errorCount == 0 && diagnostics == []
    {
      diagnostics, errorCount := [], 0;
    }

    predicate ReachedLimit()
      reads this
    {
      errorCount >= MAX_ERRORS
    }

    method Report(level: Level, loc: Location, message: string)
      requires Valid()
      modifies this
      ensures Valid()
      ensures errorCount == Capped(old(errorCount) + if level == ErrorLevel then 1 else 0)
      ensures old(diagnostics) <= diagnostics
      ensures level == ErrorLevel && old(errorCount) == MAX_ERRORS ==> diagnostics == old(diagnostics)
    {
      if level == ErrorLevel && errorCount >= MAX_ERRORS {
        return;
      }
      CountErrorsSplits(diagnostics, [Diagnostic(level, loc, message)]);
      diagnostics := diagnostics + [Diagnostic(level, loc, message)];
      if level == ErrorLevel {
        errorCount := errorCount + 1;
        if errorCount == MAX_ERRORS {
          CountErrorsSplits(diagnostics, [Diagnostic(ErrorLevel, loc, "error limit reached")]);
          diagnostics := diagnostics + [Diagnostic(ErrorLevel, loc, "error limit reached")];
        }
      }
    }
  }

  function CountErrors(ds: seq<Diagnostic>): nat {
    if ds == [] then 0 else (if ds[0].level == ErrorLevel then 1 else 0) + CountErrors(ds[1..])
  }

  lemma {:induction false} CountErrorsSplits(a: seq<Diagnostic>, b: seq<Diagnostic>)
    ensures CountErrors(a + b) == CountErrors(a) + CountErrors(b)
    decreases |a|
  {
    if a == [] {
      assert a + b == b;
    } else {
      assert (a + b)[1..] == a[1..] + b;
      CountErrorsSplits(a[1..], b);
    }
  }
}
