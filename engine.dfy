/**
  What `run_class` and `TestRunner.run` do, as functions of the test classes:
  the events of a run, the counters it leaves in the shared TestResult and the
  exception, if any, that escapes it.
 */
module Engine {
  import opened Exceptions
  import opened Text
  import opened Order

  /** A name bound to a value, as `dir()` lists and `getattr()` resolves an attribute. */
  datatype Named<T> = Named(name: string, value: T)

  /** `dir(x)`: the attribute names, in the order the interpreter lists them. */
  function Names<T>(xs: seq<Named<T>>): seq<string> {
    seq(|xs|, i requires 0 <= i < |xs| => xs[i].name)
  }

  /** No name is listed twice, which `dir()` guarantees. */
  predicate DistinctNames<T>(xs: seq<Named<T>>) {
    forall i, j :: 0 <= i < j < |xs| ==> xs[i].name != xs[j].name
  }

  /** `getattr(x, name)`: the value bound to `name`, or None when there is no such attribute. */
  function Find<T>(xs: seq<Named<T>>, name: string): Option<T>
    decreases |xs|
  {
    if xs == [] then None
    else if xs[0].name == name then Some(xs[0].value)
    else Find(xs[1..], name)
  }

  /** `getattr` finds exactly the listed names, and what it finds is bound to the name. */
  lemma {:induction false} FindListed<T>(xs: seq<Named<T>>, name: string)
    ensures Find(xs, name).Some? <==> name in Names(xs)
    ensures Find(xs, name).Some? ==> Named(name, Find(xs, name).value) in xs
    decreases |xs|
  {
    if xs != [] {
      FindListed(xs[1..], name);
      assert Names(xs) == [xs[0].name] + Names(xs[1..]);
    }
  }

  /**
    A TestCase subclass: what `c()` does, and every attribute of an instance
    (test methods, setUp, tearDown, inherited helpers) with what calling it does.
    `run_class` makes one instance and calls everything on it, so setUp and
    tearDown may find state that earlier calls left there: `setUpIn[t]` and
    `tearDownIn[t]` say what they do in the pass of test `t` when that is not what
    their attribute says. Each test method is called at most once, so its own
    outcome needs no such map.
   */
  datatype TestClass = TestClass(init: Outcome, attrs: seq<Named<Outcome>>,
                                 setUpIn: map<string, Outcome>, tearDownIn: map<string, Outcome>)

  /**
    A fixture as `getattr(o, name, lambda: None)` binds it, once per class: the
    attribute found, if any, and what it does in the passes where the instance's
    state makes it behave otherwise.
   */
  datatype Fixture = Fixture(found: Option<Outcome>, inPass: map<string, Outcome>)

  /** What calling the fixture does in the pass of test `name`; the default `lambda: None` returns. */
  function CallIn(f: Fixture, name: string): Outcome {
    match f.found
    case None => Returned
    case Some(b) => if name in f.inPass then f.inPass[name] else b
  }

  /** `getattr(o, "setUp", lambda: None)`. */
  function SetUpOf(c: TestClass): Fixture {
    Fixture(Find(c.attrs, "setUp"), c.setUpIn)
  }

  /** `getattr(o, "tearDown", lambda: None)`. */
  function TearDownOf(c: TestClass): Fixture {
    Fixture(Find(c.attrs, "tearDown"), c.tearDownIn)
  }

  /** What `set_up()` does in the pass of test `name`. */
  function SetUp(c: TestClass, name: string): Outcome {
    CallIn(SetUpOf(c), name)
  }

  /** What `tear_down()` does in the pass of test `name`. */
  function TearDown(c: TestClass, name: string): Outcome {
    CallIn(TearDownOf(c), name)
  }

  /** `name.startswith("test")`. */
  predicate IsTestName(name: string) {
    StartsWith(name, "test")
  }

  /** The names `run_class` keeps, in the order it meets them. */
  function TestsIn(names: seq<string>): (r: seq<string>)
    ensures forall n :: n in r ==> n in names && IsTestName(n)
    decreases |names|
  {
    if names == [] then []
    else if IsTestName(names[0]) then [names[0]] + TestsIn(names[1..])
    else TestsIn(names[1..])
  }

  /** The test methods of a class, in the order `run_class` runs them. */
  function TestNames(c: TestClass): seq<string> {
    TestsIn(Sort(Names(c.attrs)))
  }

  /** What happens during a run, in order: the printed text and the calls into test code. */
  datatype Event =
    | Started(name: string)          // print(name, end=' ...')
    | SetUpCalled
    | Counted                        // test_result.testsRun += 1
    | MethodCalled(name: string)
    | TearDownCalled
    | ReportedOk                     // print(" ok")
    | ReportedSkip(reason: string)   // print(" skipped:", e.args[0])
    | PrintedLine(text: string)      // the summary line of main

  /** The console text an event prints. */
  function Printed(e: Event): string {
    match e
    case Started(name) => name + " ..."
    case ReportedOk => " ok\n"
    case ReportedSkip(reason) => " skipped: " + reason + "\n"
    case PrintedLine(text) => text + "\n"
    case _ => ""
  }

  function Output(events: seq<Event>): string
    decreases |events|
  {
    if events == [] then "" else Printed(events[0]) + Output(events[1..])
  }

  /** The four counters of a TestResult. */
  datatype Counters = Counters(testsRun: nat, skippedNum: nat, errorsNum: nat, failuresNum: nat)

  /** A fresh TestResult. */
  const Zero := Counters(0, 0, 0, 0)

  /**
    One pass of the loop body of `run_class` for a test name: its events, whether it
    incremented testsRun and skippedNum, and the exception that leaves `run_class`, if any.
   */
  datatype Step = Step(events: seq<Event>, counted: bool, skipped: bool, raised: Option<Exc>)

  /** What `e.args[0]` raises on a SkipTest that carries no argument. */
  const ArgsIndexError := Exc(IndexError, ["tuple index out of range"])

  /**
    The `except SkipTest as e` clause, for an exception `e` that left the try block after
    `events`. SkipTest has no subclass (Exceptions.SkipTestIsLeaf), so the clause catches
    exactly the exceptions of class SkipTest.
   */
  function Handle(events: seq<Event>, counted: bool, e: Exc): Step {
    if e.kind != SkipTest then Step(events, counted, false, Some(e))
    else if |e.args| == 0 then Step(events, counted, false, Some(ArgsIndexError))
    else Step(events + [ReportedSkip(e.args[0])], counted, true, None)
  }

  /**
    The try statement of `run_class` for the test method `name`, given what setUp,
    the method and tearDown do.
   */
  function RunTest(name: string, setUp: Outcome, test: Outcome, tearDown: Outcome): Step {
    if setUp.Raised? then Handle([SetUpCalled], false, setUp.exc)
    else if test.Raised? then Handle([SetUpCalled, Counted, MethodCalled(name)], true, test.exc)
    else if tearDown.Raised? then Handle([SetUpCalled, Counted, MethodCalled(name), TearDownCalled], true, tearDown.exc)
    else Step([SetUpCalled, Counted, MethodCalled(name), TearDownCalled, ReportedOk], true, false, None)
  }

  /**
    The order of one test's calls: setUp first; testsRun is counted after setUp
    returned and before the method is called; tearDown runs only after setUp and the
    method returned. The name is printed by the loop, never by the try statement.
   */
  lemma RunTestOrder(name: string, setUp: Outcome, test: Outcome, tearDown: Outcome)
    ensures var s := RunTest(name, setUp, test, tearDown);
      && |s.events| >= 1 && s.events[0] == SetUpCalled
      && (forall i :: 0 <= i < |s.events| ==> !s.events[i].Started?)
      && (s.counted <==> setUp.Returned?)
      && (s.counted ==> |s.events| >= 3 && s.events[1] == Counted && s.events[2] == MethodCalled(name))
      && (TearDownCalled in s.events <==> setUp.Returned? && test.Returned?)
  {
  }

  /**
    The verdict of one test: " ok" exactly when setUp, the method and tearDown all
    returned; a SkipTest is reported last and never escapes; anything else escapes.
   */
  lemma RunTestVerdict(name: string, setUp: Outcome, test: Outcome, tearDown: Outcome)
    ensures var s := RunTest(name, setUp, test, tearDown);
      && (ReportedOk in s.events <==> setUp.Returned? && test.Returned? && tearDown.Returned?)
      && (s.raised.None? && !s.skipped <==> setUp.Returned? && test.Returned? && tearDown.Returned?)
      && (s.skipped ==> s.raised.None? && s.events[|s.events| - 1].ReportedSkip?)
      && (s.raised.Some? ==> !IsInstance(s.raised.value, SkipTest))
  {
  }

  /** The counters after a step. */
  function Tally(k: Counters, s: Step): Counters {
    k.(testsRun := k.testsRun + (if s.counted then 1 else 0),
       skippedNum := k.skippedNum + (if s.skipped then 1 else 0))
  }

  /** The result of running something: the counters it leaves, its events and the exception that escapes. */
  datatype Run = Run(counts: Counters, events: seq<Event>, raised: Option<Exc>)

  /** What `getattr(o, name)` raises when `o` has no attribute `name` (the message is reduced to the name). */
  function MissingAttribute(name: string): Exc {
    Exc(AttributeError, [name])
  }

  /**
    One pass of the loop of `run_class` over the name `name`: a name that does not
    start with "test" is passed over; otherwise the name is printed, `getattr` fetches
    the method and the try statement runs it. What the pass does does not depend on
    the counters; `Tally` applies it to them.
   */
  function Pass(c: TestClass, name: string): Step {
    if !IsTestName(name) then Step([], false, false, None)
    else
      match Find(c.attrs, name)
      case None => Step([Started(name)], false, false, Some(MissingAttribute(name)))
      case Some(test) =>
        var s := RunTest(name, SetUp(c, name), test, TearDown(c, name));
        Step([Started(name)] + s.events, s.counted, s.skipped, s.raised)
  }

  /**
    The loop of `run_class` over the sorted names `names`, starting from counters `k`:
    the passes over all but the last name, then, unless one of them raised, the last.
   */
  function RunNames(c: TestClass, names: seq<string>, k: Counters): Run
    decreases |names|
  {
    if names == [] then Run(k, [], None)
    else
      var before := RunNames(c, names[..|names| - 1], k);
      if before.raised.Some? then before
      else
        var p := Pass(c, names[|names| - 1]);
        Run(Tally(before.counts, p), before.events + p.events, p.raised)
  }

  /** The loop of `run_class` after one more pass, the pass over `names[i]`. */
  lemma RunNamesNext(c: TestClass, names: seq<string>, i: nat, k: Counters)
    requires i < |names| && RunNames(c, names[..i], k).raised.None?
    ensures var before := RunNames(c, names[..i], k);
      var p := Pass(c, names[i]);
      RunNames(c, names[..i + 1], k) == Run(Tally(before.counts, p), before.events + p.events, p.raised)
  {
    assert names[..i + 1][..i] == names[..i];
  }

  /** Once a pass has raised, the later names change nothing: the exception leaves `run_class`. */
  lemma {:induction false} RunNamesAborted(c: TestClass, names: seq<string>, i: nat, k: Counters)
    requires i <= |names| && RunNames(c, names[..i], k).raised.Some?
    ensures RunNames(c, names, k) == RunNames(c, names[..i], k)
    decreases |names|
  {
    if i < |names| {
      assert names[..|names| - 1][..i] == names[..i];
      RunNamesAborted(c, names[..|names| - 1], i, k);
    } else {
      assert names[..i] == names;
    }
  }

  /** `run_class(c, test_result)` with the counters of `test_result` at `k`. */
  function ClassRun(c: TestClass, k: Counters): Run {
    if c.init.Raised? then Run(k, [], Some(c.init.exc))
    else RunNames(c, Sort(Names(c.attrs)), k)
  }

  /** The loop of `TestRunner.run` over `suite.tests`, threading one TestResult. */
  function SuiteRun(cs: seq<TestClass>, k: Counters): Run
    decreases |cs|
  {
    if cs == [] then Run(k, [], None)
    else
      var before := SuiteRun(cs[..|cs| - 1], k);
      if before.raised.Some? then before
      else
        var r := ClassRun(cs[|cs| - 1], before.counts);
        Run(r.counts, before.events + r.events, r.raised)
  }

  /** The loop of `TestRunner.run` after one more class, `cs[i]`. */
  lemma SuiteRunNext(cs: seq<TestClass>, i: nat, k: Counters)
    requires i < |cs| && SuiteRun(cs[..i], k).raised.None?
    ensures var before := SuiteRun(cs[..i], k);
      var r := ClassRun(cs[i], before.counts);
      SuiteRun(cs[..i + 1], k) == Run(r.counts, before.events + r.events, r.raised)
  {
    assert cs[..i + 1][..i] == cs[..i];
  }

  /** Once a class has raised, the later classes are not run: the exception leaves `TestRunner.run`. */
  lemma {:induction false} SuiteRunAborted(cs: seq<TestClass>, i: nat, k: Counters)
    requires i <= |cs| && SuiteRun(cs[..i], k).raised.Some?
    ensures SuiteRun(cs, k) == SuiteRun(cs[..i], k)
    decreases |cs|
  {
    if i < |cs| {
      assert cs[..|cs| - 1][..i] == cs[..i];
      SuiteRunAborted(cs[..|cs| - 1], i, k);
    } else {
      assert cs[..i] == cs;
    }
  }
}
