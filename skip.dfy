/**
  The `skip` and `skipUnless` decorators, as transformers of what a test method
  does, and what `run_class` then does with the method.
 */
module Skip {
  import opened Exceptions
  import opened Engine

  /** The exception `raise SkipTest(msg)` raises. */
  function SkipWith(msg: string): Exc {
    Exc(SkipTest, [msg])
  }

  /** `@skip(msg)`: the method is replaced by one that raises SkipTest(msg) without running the original. */
  function Skip(msg: string, body: Outcome): (r: Outcome)
    ensures r.Raised? && r.exc.kind == SkipTest && r.exc.args == [msg]
  {
    Raised(SkipWith(msg))
  }

  /** `@skipUnless(cond, msg)`: the identity decorator when `cond` holds, `@skip(msg)` otherwise. */
  function SkipUnless(cond: bool, msg: string, body: Outcome): (r: Outcome)
    ensures cond ==> r == body
    ensures !cond ==> r.Raised? && r.exc.kind == SkipTest && r.exc.args == [msg]
  {
    if cond then body else Skip(msg, body)
  }

  /**
    A skipped method, after a setUp that returns: the method is counted, the skip is
    reported with its reason, tearDown is not called, " ok" is not printed, and
    nothing escapes; none of it depends on what the original method or tearDown do.
   */
  lemma SkippedTest(name: string, msg: string, body: Outcome, tearDown: Outcome)
    ensures RunTest(name, Returned, Skip(msg, body), tearDown) ==
      Step([SetUpCalled, Counted, MethodCalled(name), ReportedSkip(msg)], true, true, None)
  {
  }

  /** `skipUnless(False, msg)` takes the same path as `skip(msg)`; `skipUnless(True, msg)` leaves the test as it was. */
  lemma SkipUnlessRuns(name: string, cond: bool, msg: string, setUp: Outcome, body: Outcome, tearDown: Outcome)
    ensures cond ==> RunTest(name, setUp, SkipUnless(cond, msg, body), tearDown) == RunTest(name, setUp, body, tearDown)
    ensures !cond ==> RunTest(name, setUp, SkipUnless(cond, msg, body), tearDown) == RunTest(name, setUp, Skip(msg, body), tearDown)
  {
  }

  /**
    A SkipTest from the method itself: testsRun and skippedNum each go up by one,
    tearDown is not called, " ok" is not printed, and the reason is reported last.
   */
  lemma SkipFromMethod(name: string, reason: string, more: seq<string>, tearDown: Outcome, k: Counters)
    ensures var s := RunTest(name, Returned, Raised(Exc(SkipTest, [reason] + more)), tearDown);
      && Tally(k, s) == k.(testsRun := k.testsRun + 1, skippedNum := k.skippedNum + 1)
      && TearDownCalled !in s.events && ReportedOk !in s.events
      && s.events[|s.events| - 1] == ReportedSkip(reason) && s.raised.None?
  {
  }

  /** A SkipTest from setUp: skippedNum goes up by one, testsRun does not, and the method is not called. */
  lemma SkipFromSetUp(name: string, reason: string, more: seq<string>, body: Outcome, tearDown: Outcome, k: Counters)
    ensures var s := RunTest(name, Raised(Exc(SkipTest, [reason] + more)), body, tearDown);
      && Tally(k, s) == k.(skippedNum := k.skippedNum + 1)
      && s.events == [SetUpCalled, ReportedSkip(reason)] && s.raised.None?
  {
  }

  /** A SkipTest that carries no argument: reading `e.args[0]` raises IndexError, which escapes. */
  lemma SkipWithoutReason(name: string, body: Outcome, tearDown: Outcome)
    ensures RunTest(name, Raised(Exc(SkipTest, [])), body, tearDown).raised == Some(ArgsIndexError)
  {
  }
}
