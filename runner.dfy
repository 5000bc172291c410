/**
  The objects of the execution engine: TestResult, TestSuite, TestRunner, the
  console the engine prints to, and `run_class`.
 */
module Runner {
  import opened Exceptions
  import opened Text
  import opened Order
  import opened Engine
  import opened RunProperties

  /** The console, as the sequence of events printed or performed so far. */
  class Console {
    var trace: seq<Event>

    constructor ()
      ensures trace == []
    {
      trace := [];
    }

    method Emit(e: Event)
      modifies this
      ensures trace == old(trace) + [e]
    {
      trace := trace + [e];
    }
  }

  /** The shared, mutable record of a run. */
  class TestResult {
    var errorsNum: nat
    var failuresNum: nat
    var skippedNum: nat
    var testsRun: nat

    constructor ()
      ensures Snapshot() == Zero
    {
      errorsNum, failuresNum, skippedNum, testsRun := 0, 0, 0, 0;
    }

    function Snapshot(): Counters
      reads this
    {
      Counters(testsRun, skippedNum, errorsNum, failuresNum)
    }

    predicate WasSuccessful()
      reads this
    {
      errorsNum == 0 && failuresNum == 0
    }
  }

  /** The ordered list of test classes to run. */
  class TestSuite {
    var tests: seq<TestClass>

    constructor ()
      ensures tests == []
    {
      tests := [];
    }

    /** Appends `cls`, with no check and no deduplication. */
    method AddTest(cls: TestClass)
      modifies this
      ensures tests == old(tests) + [cls]
    {
      tests := tests + [cls];
    }
  }

  /**
    The `except SkipTest as e` clause for an exception `e` that left the try block:
    a SkipTest is reported and counted, anything else is handed back (`raised`).
   */
  method Except(e: Exc, ghost counted: bool, result: TestResult, console: Console) returns (raised: Option<Exc>)
    modifies result, console
    ensures var h := Handle(old(console.trace), counted, e);
      result.Snapshot() == old(result.Snapshot()).(skippedNum := old(result.skippedNum) + (if h.skipped then 1 else 0))
      && console.trace == h.events && raised == h.raised
  {
    if e.kind != SkipTest {
      raised := Some(e);
    } else if |e.args| == 0 {
      raised := Some(ArgsIndexError);
    } else {
      console.Emit(ReportedSkip(e.args[0]));
      result.skippedNum := result.skippedNum + 1;
      raised := None;
    }
  }

  /**
    The try statement of `run_class` for one test method: setUp, testsRun += 1, the
    method, tearDown and " ok", with the except clause for whatever leaves them.
   */
  method RunOneTest(name: string, setUp: Outcome, test: Outcome, tearDown: Outcome,
                    result: TestResult, console: Console) returns (raised: Option<Exc>)
    modifies result, console
    ensures var s := RunTest(name, setUp, test, tearDown);
      result.Snapshot() == Tally(old(result.Snapshot()), s)
      && console.trace == old(console.trace) + s.events && raised == s.raised
  {
    console.Emit(SetUpCalled);
    if setUp.Raised? {
      raised := Except(setUp.exc, false, result, console);
      return;
    }
    result.testsRun := result.testsRun + 1;
    console.Emit(Counted);
    console.Emit(MethodCalled(name));
    if test.Raised? {
      raised := Except(test.exc, true, result, console);
      return;
    }
    console.Emit(TearDownCalled);
    if tearDown.Raised? {
      raised := Except(tearDown.exc, true, result, console);
      return;
    }
    console.Emit(ReportedOk);
    raised := None;
  }

  /** One pass of the loop of `run_class`, for the attribute name `name`. */
  method RunName(c: TestClass, name: string, setUp: Fixture, tearDown: Fixture,
                 result: TestResult, console: Console) returns (raised: Option<Exc>)
    requires setUp == SetUpOf(c) && tearDown == TearDownOf(c)
    modifies result, console
    ensures var p := Pass(c, name);
      result.Snapshot() == Tally(old(result.Snapshot()), p) && console.trace == old(console.trace) + p.events
      && raised == p.raised
  {
    raised := None;
    if StartsWith(name, "test") {
      console.Emit(Started(name));
      var found := Find(c.attrs, name);
      if found.None? {
        return Some(MissingAttribute(name));
      }
      raised := RunOneTest(name, CallIn(setUp, name), found.value, CallIn(tearDown, name), result, console);
      assert console.trace == old(console.trace)
        + ([Started(name)] + RunTest(name, SetUp(c, name), found.value, TearDown(c, name)).events);
    }
  }

  /**
    Pass `i` of the loop of `run_class` over `names`, in a run begun with counters `k0`
    and console trace `t0` that has not raised yet.
   */
  method RunNameAt(c: TestClass, names: seq<string>, i: nat, setUp: Fixture, tearDown: Fixture,
                   result: TestResult, console: Console, ghost k0: Counters, ghost t0: seq<Event>)
    returns (raised: Option<Exc>)
    requires i < |names| && setUp == SetUpOf(c) && tearDown == TearDownOf(c)
    requires var before := RunNames(c, names[..i], k0);
      before.raised.None? && result.Snapshot() == before.counts && console.trace == t0 + before.events
    modifies result, console
    ensures var after := RunNames(c, names[..i + 1], k0);
      result.Snapshot() == after.counts && console.trace == t0 + after.events && raised == after.raised
  {
    ghost var before := RunNames(c, names[..i], k0);
    raised := RunName(c, names[i], setUp, tearDown, result, console);
    ghost var p := Pass(c, names[i]);
    assert console.trace == t0 + (before.events + p.events);
    RunNamesNext(c, names, i, k0);
  }

  /**
    `run_class(c, result)`: runs every attribute whose name starts with "test", in sorted
    order, between setUp and tearDown; a SkipTest is reported and counted, any other
    exception leaves `run_class` at once (`raised`).
   */
  method RunClass(c: TestClass, result: TestResult, console: Console) returns (raised: Option<Exc>)
    modifies result, console
    ensures var r := ClassRun(c, old(result.Snapshot()));
      result.Snapshot() == r.counts && console.trace == old(console.trace) + r.events && raised == r.raised
  {
    if c.init.Raised? {
      return Some(c.init.exc);
    }
    var setUp := SetUpOf(c);
    var tearDown := TearDownOf(c);
    var names := Sort(Names(c.attrs));
    ghost var t0 := console.trace;
    ghost var k0 := result.Snapshot();
    raised := None;
    var i := 0;
    assert names[..i] == [];
    while i < |names| && raised.None?
      invariant 0 <= i <= |names|
      invariant var r := RunNames(c, names[..i], k0);
        result.Snapshot() == r.counts && console.trace == t0 + r.events && raised == r.raised
    {
      raised := RunNameAt(c, names, i, setUp, tearDown, result, console, k0, t0);
      i := i + 1;
    }
    if raised.Some? {
      RunNamesAborted(c, names, i, k0);
    } else {
      assert names[..i] == names;
    }
  }

  /** The engine of `unittest.main`; it holds no state. */
  class TestRunner {
    constructor () {
    }

    /** Pass `i` of the loop of `TestRunner.run` over `tests`, in a run that has not raised yet. */
    static method RunClassAt(tests: seq<TestClass>, i: nat, res: TestResult, console: Console,
                             ghost t0: seq<Event>) returns (raised: Option<Exc>)
      requires i < |tests|
      requires var before := SuiteRun(tests[..i], Zero);
        before.raised.None? && res.Snapshot() == before.counts && console.trace == t0 + before.events
      modifies res, console
      ensures var after := SuiteRun(tests[..i + 1], Zero);
        res.Snapshot() == after.counts && console.trace == t0 + after.events && raised == after.raised
    {
      ghost var before := SuiteRun(tests[..i], Zero);
      raised := RunClass(tests[i], res, console);
      ghost var r := ClassRun(tests[i], before.counts);
      assert console.trace == t0 + (before.events + r.events);
      SuiteRunNext(tests, i, Zero);
    }

    /**
      `TestRunner.run(suite)`: runs the classes of the suite in order into one fresh
      TestResult; an exception that escapes a class escapes the run (`raised`).
     */
    method Run(suite: TestSuite, console: Console) returns (res: TestResult, raised: Option<Exc>)
      modifies console
      ensures fresh(res)
      ensures var r := SuiteRun(suite.tests, Zero);
        res.Snapshot() == r.counts && console.trace == old(console.trace) + r.events && raised == r.raised
      ensures res.WasSuccessful()
    {
      res := new TestResult();
      var tests := suite.tests;
      ghost var t0 := console.trace;
      raised := None;
      var i := 0;
      assert tests[..i] == [];
      while i < |tests| && raised.None?
        invariant 0 <= i <= |tests|
        invariant var r := SuiteRun(tests[..i], Zero);
          res.Snapshot() == r.counts && console.trace == t0 + r.events && raised == r.raised
      {
        raised := RunClassAt(tests, i, res, console, t0);
        i := i + 1;
      }
      if raised.Some? {
        SuiteRunAborted(tests, i, Zero);
      } else {
        assert tests[..i] == tests;
      }
      SuiteKeepsErrors(tests, Zero);
    }
  }
}
