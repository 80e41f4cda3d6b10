/** Per-script execution results and their aggregation over a batch. */
module Results {
  import opened Wrappers
  import opened Text

  datatype ExecutionResult = ExecutionResult(
    scriptName: string,
    success: bool,
    exitCode: int,
    errorMessage: Option<string>)

  /** The successful results, in order. */
  function Successes(rs: seq<ExecutionResult>): (s: seq<ExecutionResult>)
    ensures |s| <= |rs|
  {
    if rs == [] then []
    else Successes(rs[..|rs| - 1]) + (if rs[|rs| - 1].success then [rs[|rs| - 1]] else [])
  }

  /** The failed results, in order. */
  function Failures(rs: seq<ExecutionResult>): (f: seq<ExecutionResult>)
    ensures |f| <= |rs|
  {
    if rs == [] then []
    else Failures(rs[..|rs| - 1]) + (if rs[|rs| - 1].success then [] else [rs[|rs| - 1]])
  }

  /** The line a failed result contributes to the summary; an absent
      message is written as Python writes None. */
  function FailureLine(r: ExecutionResult): string {
    "    - " + r.scriptName + ": " + (if r.errorMessage.Some? then r.errorMessage.value else "None")
  }

  function HeaderLine(total: nat): (line: string)
    ensures '\n' !in line
  {
    "Executed " + NatToString(total) + " script(s):"
  }

  function SuccessLine(success: nat): string {
    "  \U{2713} Success: " + NatToString(success)
  }

  function FailedLine(failed: nat): string {
    "  \U{2717} Failed: " + NatToString(failed)
  }

  function FailureLines(failures: seq<ExecutionResult>): (lines: seq<string>)
    ensures |lines| == |failures|
    ensures forall k :: 0 <= k < |failures| ==> lines[k] == FailureLine(failures[k])
  {
    seq(|failures|, k requires 0 <= k < |failures| => FailureLine(failures[k]))
  }

  datatype BatchResults = BatchResults(results: seq<ExecutionResult>) {
    predicate AllSuccess() {
      forall i :: 0 <= i < |results| ==> results[i].success
    }

    function FailedCount(): nat {
      |Failures(results)|
    }

    function SuccessCount(): nat {
      |Successes(results)|
    }

    /** The summary, line by line. */
    function SummaryLines(): seq<string> {
      [HeaderLine(|results|), SuccessLine(SuccessCount())]
      + if FailedCount() > 0 then [FailedLine(FailedCount())] + FailureLines(Failures(results))
        else []
    }

    /** The summary text: the summary lines joined by newlines. */
    method Summary() returns (text: string)
      ensures text == Join(SummaryLines(), '\n')
    {
      var total := |results|;
      var success := SuccessCount();
      var failed := FailedCount();
      var lines := [HeaderLine(total)];
      lines := lines + [SuccessLine(success)];
      if failed > 0 {
        lines := lines + [FailedLine(failed)];
        var failureLines: seq<string> := [];
        for i := 0 to |results|
          invariant failureLines == FailureLines(Failures(results[..i]))
        {
          FailuresOfPrefix(results, i);
          FailureLinesSnoc(Failures(results[..i]), results[i]);
          if !results[i].success {
            failureLines := failureLines + [FailureLine(results[i])];
          }
        }
        assert results[..|results|] == results;
        lines := lines + failureLines;
      }
      assert lines == SummaryLines();
      text := Join(lines, '\n');
    }
  }

  lemma FailuresOfPrefix(rs: seq<ExecutionResult>, i: nat)
    requires i < |rs|
    ensures Failures(rs[..i + 1]) == Failures(rs[..i]) + (if rs[i].success then [] else [rs[i]])
  {
    assert rs[..i + 1][..i] == rs[..i];
  }

  lemma FailureLinesSnoc(failures: seq<ExecutionResult>, r: ExecutionResult)
    ensures FailureLines(failures + [r]) == FailureLines(failures) + [FailureLine(r)]
  {
  }

  /** The summary has a header with the total, the success count, and,
      when something failed, the failed count followed by one line per
      failure in batch order. */
  lemma SummaryLinesShape(b: BatchResults)
    ensures |b.SummaryLines()| == if b.FailedCount() > 0 then 3 + b.FailedCount() else 2
    ensures b.SummaryLines()[0] == HeaderLine(|b.results|)
    ensures b.SummaryLines()[1] == SuccessLine(b.SuccessCount())
    ensures b.FailedCount() > 0 ==> b.SummaryLines()[2] == FailedLine(b.FailedCount())
    ensures forall k :: 0 <= k < b.FailedCount() ==> b.SummaryLines()[3 + k] == FailureLine(Failures(b.results)[k])
  {
  }

  /** Every result is counted exactly once. */
  lemma {:induction false} CountsPartition(rs: seq<ExecutionResult>)
    ensures |Successes(rs)| + |Failures(rs)| == |rs|
  {
    if rs != [] {
      CountsPartition(rs[..|rs| - 1]);
    }
  }

  /** The failures are exactly the failed results, in batch order. */
  lemma {:induction false} FailuresAreFailedResults(rs: seq<ExecutionResult>)
    ensures IsSubsequence(Failures(rs), rs)
    ensures forall r :: r in Failures(rs) <==> r in rs && !r.success
  {
    if rs != [] {
      var init := rs[..|rs| - 1];
      var last := rs[|rs| - 1];
      FailuresAreFailedResults(init);
      assert rs == init + [last];
      if last.success {
        assert Failures(rs) == Failures(init);
        SubsequenceAppend(Failures(init), init, last);
      } else {
        assert Failures(rs) == Failures(init) + [last];
        SubsequenceAppendBoth(Failures(init), init, last);
      }
    }
  }

  /** Nothing failed exactly when every result is a success. */
  lemma {:induction false} NoFailuresIffAllSucceeded(rs: seq<ExecutionResult>)
    ensures Failures(rs) == [] <==> forall i :: 0 <= i < |rs| ==> rs[i].success
  {
    if rs != [] {
      var init := rs[..|rs| - 1];
      NoFailuresIffAllSucceeded(init);
      assert forall i :: 0 <= i < |init| ==> init[i] == rs[i];
    }
  }

  /** The batch succeeded exactly when nothing failed, that is when every
      result is a success. */
  lemma AllSuccessIff(rs: seq<ExecutionResult>)
    ensures BatchResults(rs).AllSuccess() <==> BatchResults(rs).FailedCount() == 0
    ensures BatchResults(rs).AllSuccess() <==> BatchResults(rs).SuccessCount() == |rs|
  {
    CountsPartition(rs);
    NoFailuresIffAllSucceeded(rs);
  }

  /** The summary's first line is the header, whatever the script names and
      messages contain. */
  lemma SummaryFirstLine(b: BatchResults)
    ensures BeforeFirst(Join(b.SummaryLines(), '\n'), '\n') == HeaderLine(|b.results|)
  {
    SummaryLinesShape(b);
    FirstLineOfJoin(b.SummaryLines());
  }
}
