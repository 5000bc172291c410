/**
  What a run does, stated over its events and counters: which tests run and in
  what order, how the counters move, what stops a run, and that a class runs the
  same whatever order `dir()` lists its attributes in.
 */
module RunProperties {
  import opened Exceptions
  import opened Text
  import opened Order
  import opened Engine

  // ---------------------------------------------------------------------------
  // Views of the event trace
  // ---------------------------------------------------------------------------

  /** The test names printed, in order. */
  function StartedNames(events: seq<Event>): seq<string>
    decreases |events|
  {
    if events == [] then []
    else (if events[0].Started? then [events[0].name] else []) + StartedNames(events[1..])
  }

  /** The test methods called, in order. */
  function CalledNames(events: seq<Event>): seq<string>
    decreases |events|
  {
    if events == [] then []
    else (if events[0].MethodCalled? then [events[0].name] else []) + CalledNames(events[1..])
  }

  /** The number of " skipped:" reports. */
  function Skips(events: seq<Event>): nat
    decreases |events|
  {
    if events == [] then 0 else (if events[0].ReportedSkip? then 1 else 0) + Skips(events[1..])
  }

  /** The number of " ok" reports. */
  function Oks(events: seq<Event>): nat
    decreases |events|
  {
    if events == [] then 0 else (if events[0] == ReportedOk then 1 else 0) + Oks(events[1..])
  }

  /** Each view of a trace made of two parts is made of the views of the parts. */
  lemma ViewsAppend(a: seq<Event>, b: seq<Event>)
    ensures StartedNames(a + b) == StartedNames(a) + StartedNames(b)
    ensures CalledNames(a + b) == CalledNames(a) + CalledNames(b)
    ensures Skips(a + b) == Skips(a) + Skips(b)
    ensures Oks(a + b) == Oks(a) + Oks(b)
  {
    StartedAppend(a, b);
    CalledAppend(a, b);
    SkipsAppend(a, b);
    OksAppend(a, b);
  }

  lemma {:induction false} StartedAppend(a: seq<Event>, b: seq<Event>)
    ensures StartedNames(a + b) == StartedNames(a) + StartedNames(b)
    decreases |a|
  {
    if a == [] {
      assert a + b == b;
    } else {
      assert (a + b)[1..] == a[1..] + b;
      StartedAppend(a[1..], b);
    }
  }

  lemma {:induction false} CalledAppend(a: seq<Event>, b: seq<Event>)
    ensures CalledNames(a + b) == CalledNames(a) + CalledNames(b)
    decreases |a|
  {
    if a == [] {
      assert a + b == b;
    } else {
      assert (a + b)[1..] == a[1..] + b;
      CalledAppend(a[1..], b);
    }
  }

  lemma {:induction false} SkipsAppend(a: seq<Event>, b: seq<Event>)
    ensures Skips(a + b) == Skips(a) + Skips(b)
    decreases |a|
  {
    if a == [] {
      assert a + b == b;
    } else {
      assert (a + b)[1..] == a[1..] + b;
      SkipsAppend(a[1..], b);
    }
  }

  lemma {:induction false} OksAppend(a: seq<Event>, b: seq<Event>)
    ensures Oks(a + b) == Oks(a) + Oks(b)
    decreases |a|
  {
    if a == [] {
      assert a + b == b;
    } else {
      assert (a + b)[1..] == a[1..] + b;
      OksAppend(a[1..], b);
    }
  }

  // ---------------------------------------------------------------------------
  // One test, one name
  // ---------------------------------------------------------------------------

  /** The views of a trace of one event. */
  lemma ViewsOfOne(e: Event)
    ensures StartedNames([e]) == (if e.Started? then [e.name] else [])
    ensures CalledNames([e]) == (if e.MethodCalled? then [e.name] else [])
    ensures Skips([e]) == (if e.ReportedSkip? then 1 else 0)
    ensures Oks([e]) == (if e == ReportedOk then 1 else 0)
  {
    assert [e][1..] == [];
  }

  /** The views after one more event. */
  lemma ViewsSnoc(a: seq<Event>, e: Event)
    ensures StartedNames(a + [e]) == StartedNames(a) + (if e.Started? then [e.name] else [])
    ensures CalledNames(a + [e]) == CalledNames(a) + (if e.MethodCalled? then [e.name] else [])
    ensures Skips(a + [e]) == Skips(a) + (if e.ReportedSkip? then 1 else 0)
    ensures Oks(a + [e]) == Oks(a) + (if e == ReportedOk then 1 else 0)
  {
    ViewsAppend(a, [e]);
    ViewsOfOne(e);
  }

  /** The except clause adds a skip report, and nothing else, exactly when it skips. */
  lemma HandleViews(events: seq<Event>, counted: bool, e: Exc)
    ensures var h := Handle(events, counted, e);
      && StartedNames(h.events) == StartedNames(events)
      && CalledNames(h.events) == CalledNames(events)
      && Skips(h.events) == Skips(events) + (if h.skipped then 1 else 0)
      && Oks(h.events) == Oks(events)
      && (h.raised.None? <==> h.skipped)
  {
    if e.kind == SkipTest && |e.args| > 0 {
      ViewsSnoc(events, ReportedSkip(e.args[0]));
    }
  }

  /**
    The views of one test's events: no name is printed; the method is called exactly
    when setUp returned; one skip is reported exactly when the step is skipped; and a
    test that lets nothing escape reports exactly one of " ok" and " skipped:".
   */
  lemma RunTestViews(name: string, setUp: Outcome, test: Outcome, tearDown: Outcome)
    ensures var s := RunTest(name, setUp, test, tearDown);
      && StartedNames(s.events) == []
      && CalledNames(s.events) == (if setUp.Returned? then [name] else [])
      && Skips(s.events) == (if s.skipped then 1 else 0)
      && (s.raised.None? ==> Oks(s.events) + Skips(s.events) == 1)
  {
    var called := [SetUpCalled, Counted, MethodCalled(name)];
    var tornDown := [SetUpCalled, Counted, MethodCalled(name), TearDownCalled];
    ViewsOfOne(SetUpCalled);
    if setUp.Raised? {
      HandleViews([SetUpCalled], false, setUp.exc);
    } else {
      CalledViews(name);
      if test.Raised? {
        HandleViews(called, true, test.exc);
      } else {
        ViewsSnoc(called, TearDownCalled);
        assert called + [TearDownCalled] == tornDown;
        if tearDown.Raised? {
          HandleViews(tornDown, true, tearDown.exc);
        } else {
          ViewsSnoc(tornDown, ReportedOk);
          assert tornDown + [ReportedOk] == RunTest(name, setUp, test, tearDown).events;
        }
      }
    }
  }

  /** The views of the events up to the call of the method. */
  lemma CalledViews(name: string)
    ensures var called := [SetUpCalled, Counted, MethodCalled(name)];
      StartedNames(called) == [] && CalledNames(called) == [name] && Skips(called) == 0 && Oks(called) == 0
  {
    ViewsOfOne(SetUpCalled);
    ViewsSnoc([SetUpCalled], Counted);
    assert [SetUpCalled] + [Counted] == [SetUpCalled, Counted];
    ViewsSnoc([SetUpCalled, Counted], MethodCalled(name));
    assert [SetUpCalled, Counted] + [MethodCalled(name)] == [SetUpCalled, Counted, MethodCalled(name)];
  }

  /** The names a pass over one listed name prints and calls: a test name is printed, and its method is called when setUp returns. */
  lemma PassNames(c: TestClass, name: string)
    requires name in Names(c.attrs)
    ensures var p := Pass(c, name);
      && StartedNames(p.events) == (if IsTestName(name) then [name] else [])
      && CalledNames(p.events) == (if IsTestName(name) && SetUp(c, name).Returned? then [name] else [])
  {
    FindListed(c.attrs, name);
    if IsTestName(name) {
      var s := RunTest(name, SetUp(c, name), Find(c.attrs, name).value, TearDown(c, name));
      RunTestViews(name, SetUp(c, name), Find(c.attrs, name).value, TearDown(c, name));
      ViewsAppend([Started(name)], s.events);
      ViewsOfOne(Started(name));
    }
  }

  /** A pass counts a test exactly when it calls a method, and a skip exactly when it reports one. */
  lemma PassCounts(c: TestClass, name: string)
    ensures var p := Pass(c, name);
      && |CalledNames(p.events)| == (if p.counted then 1 else 0)
      && Skips(p.events) == (if p.skipped then 1 else 0)
  {
    if IsTestName(name) {
      ViewsOfOne(Started(name));
      match Find(c.attrs, name)
      case None =>
      case Some(test) =>
        var s := RunTest(name, SetUp(c, name), test, TearDown(c, name));
        RunTestViews(name, SetUp(c, name), test, TearDown(c, name));
        RunTestOrder(name, SetUp(c, name), test, TearDown(c, name));
        ViewsAppend([Started(name)], s.events);
    }
  }

  /** A pass over a test name that lets nothing escape reports one verdict; a SkipTest never escapes a pass. */
  lemma PassVerdict(c: TestClass, name: string)
    ensures var p := Pass(c, name);
      && (p.raised.None? ==> Oks(p.events) + Skips(p.events) == (if IsTestName(name) then 1 else 0))
      && (p.raised.Some? ==> p.raised.value.kind != SkipTest)
  {
    if IsTestName(name) {
      ViewsOfOne(Started(name));
      match Find(c.attrs, name)
      case None =>
      case Some(test) =>
        var s := RunTest(name, SetUp(c, name), test, TearDown(c, name));
        RunTestViews(name, SetUp(c, name), test, TearDown(c, name));
        RunTestVerdict(name, SetUp(c, name), test, TearDown(c, name));
        ViewsAppend([Started(name)], s.events);
    }
  }

  /** The console text of events one after the other is their texts one after the other. */
  lemma {:induction false} OutputAppend(a: seq<Event>, b: seq<Event>)
    ensures Output(a + b) == Output(a) + Output(b)
    decreases |a|
  {
    if a == [] {
      assert a + b == b;
    } else {
      assert (a + b)[0] == a[0] && (a + b)[1..] == a[1..] + b;
      OutputAppend(a[1..], b);
    }
  }

  /** The calls and the count of a test print nothing; only the name and the verdict are printed. */
  lemma SilentCalls(name: string)
    ensures Output([SetUpCalled, Counted, MethodCalled(name)]) == ""
    ensures Output([SetUpCalled, Counted, MethodCalled(name), TearDownCalled]) == ""
  {
    assert Output([MethodCalled(name)]) == "";
    assert Output([Counted, MethodCalled(name)]) == "";
    assert Output([TearDownCalled]) == "";
    OutputAppend([SetUpCalled, Counted, MethodCalled(name)], [TearDownCalled]);
    assert [SetUpCalled, Counted, MethodCalled(name)] + [TearDownCalled]
      == [SetUpCalled, Counted, MethodCalled(name), TearDownCalled];
  }

  /** The text a passing test prints: the name, then `ok`. */
  lemma OkOutput(name: string)
    ensures Output([Started(name)] + [SetUpCalled, Counted, MethodCalled(name), TearDownCalled] + [ReportedOk])
      == name + " ... ok\n"
  {
    var calls := [SetUpCalled, Counted, MethodCalled(name), TearDownCalled];
    SilentCalls(name);
    OutputAppend([Started(name)], calls);
    OutputAppend([Started(name)] + calls, [ReportedOk]);
    assert Output([Started(name)]) == name + " ...";
    assert Output([ReportedOk]) == " ok\n";
    OkText(name);
  }

  lemma OkText(name: string)
    ensures (name + " ...") + " ok\n" == name + " ... ok\n"
  {
    var dots, ok := " ...", " ok\n";
    assert dots + ok == " ... ok\n";
  }

  /** A test whose setUp, method and tearDown all return prints `name ... ok`. */
  lemma PassPrintsOk(c: TestClass, name: string)
    requires IsTestName(name) && Find(c.attrs, name) == Some(Returned)
    requires SetUp(c, name).Returned? && TearDown(c, name).Returned?
    ensures Output(Pass(c, name).events) == name + " ... ok\n"
  {
    assert Pass(c, name).events
      == [Started(name)] + [SetUpCalled, Counted, MethodCalled(name), TearDownCalled] + [ReportedOk];
    OkOutput(name);
  }

  /** The events of a test whose method raises `SkipTest(reason, ...)` after setUp returns. */
  lemma PassSkipEvents(c: TestClass, name: string, reason: string, rest: seq<string>)
    requires IsTestName(name) && Find(c.attrs, name) == Some(Raised(Exc(SkipTest, [reason] + rest)))
    requires SetUp(c, name).Returned?
    ensures Pass(c, name).events == [Started(name)] + [SetUpCalled, Counted, MethodCalled(name)] + [ReportedSkip(reason)]
  {
    var calls := [SetUpCalled, Counted, MethodCalled(name)];
    var e := Exc(SkipTest, [reason] + rest);
    assert e.args[0] == reason;
    assert RunTest(name, SetUp(c, name), Raised(e), TearDown(c, name)).events == calls + [ReportedSkip(reason)];
  }

  /** The text a skipped test prints: the name, then the reason. */
  lemma SkipOutput(name: string, reason: string)
    ensures Output([Started(name)] + [SetUpCalled, Counted, MethodCalled(name)] + [ReportedSkip(reason)])
      == name + " ... skipped: " + reason + "\n"
  {
    var calls := [SetUpCalled, Counted, MethodCalled(name)];
    SilentCalls(name);
    OutputAppend([Started(name)], calls);
    OutputAppend([Started(name)] + calls, [ReportedSkip(reason)]);
    assert Output([Started(name)]) == name + " ...";
    assert Output([ReportedSkip(reason)]) == " skipped: " + reason + "\n";
    SkipText(name, reason);
  }

  lemma SkipText(name: string, reason: string)
    ensures (name + " ...") + (" skipped: " + reason + "\n") == name + " ... skipped: " + reason + "\n"
  {
    var dots, skipped := " ...", " skipped: ";
    assert dots + skipped == " ... skipped: ";
    calc {
      (name + dots) + (skipped + reason + "\n");
      name + (dots + skipped) + reason + "\n";
    }
  }

  /** A test method that raises `SkipTest(reason, ...)` after setUp returns prints `name ... skipped: reason`. */
  lemma PassPrintsSkip(c: TestClass, name: string, reason: string, rest: seq<string>)
    requires IsTestName(name) && Find(c.attrs, name) == Some(Raised(Exc(SkipTest, [reason] + rest)))
    requires SetUp(c, name).Returned?
    ensures Output(Pass(c, name).events) == name + " ... skipped: " + reason + "\n"
  {
    PassSkipEvents(c, name, reason, rest);
    SkipOutput(name, reason);
  }

  /** `run_class`'s filter over a list with one more name. */
  lemma {:induction false} TestsInSnoc(names: seq<string>, x: string)
    ensures TestsIn(names + [x]) == TestsIn(names) + (if IsTestName(x) then [x] else [])
    decreases |names|
  {
    if names == [] {
      assert names + [x] == [x];
      assert [x][1..] == [];
    } else {
      assert (names + [x])[1..] == names[1..] + [x];
      TestsInSnoc(names[1..], x);
    }
  }

  /**
    Which tests the loop of `run_class` runs, and in what order: the printed names are
    the test names of `names` in their order, all of them unless something escaped
    (then a prefix).
   */
  lemma {:induction false} RunNamesTests(c: TestClass, names: seq<string>, k: Counters)
    requires forall n :: n in names ==> n in Names(c.attrs)
    ensures var r := RunNames(c, names, k);
      && StartedNames(r.events) <= TestsIn(names)
      && (r.raised.None? ==> StartedNames(r.events) == TestsIn(names))
    decreases |names|
  {
    if names != [] {
      var init, last := names[..|names| - 1], names[|names| - 1];
      assert names == init + [last];
      RunNamesTests(c, init, k);
      TestsInSnoc(init, last);
      var before := RunNames(c, init, k);
      if before.raised.None? {
        PassNames(c, last);
        StartedAppend(before.events, Pass(c, last).events);
      }
    }
  }

  /** The tests among `tests`, in order, whose own pass finds setUp returning. */
  function SetUpReturns(c: TestClass, tests: seq<string>): (r: seq<string>)
    ensures forall t :: t in r <==> t in tests && SetUp(c, t).Returned?
    decreases |tests|
  {
    if tests == [] then []
    else
      var last := tests[|tests| - 1];
      SetUpReturns(c, tests[..|tests| - 1]) + (if SetUp(c, last).Returned? then [last] else [])
  }

  /**
    The methods the loop of `run_class` calls are the tests it prints whose own setUp
    returned, in the order printed.
   */
  lemma {:induction false} RunNamesCalls(c: TestClass, names: seq<string>, k: Counters)
    requires forall n :: n in names ==> n in Names(c.attrs)
    ensures var r := RunNames(c, names, k);
      CalledNames(r.events) == SetUpReturns(c, StartedNames(r.events))
    decreases |names|
  {
    if names != [] {
      var init, last := names[..|names| - 1], names[|names| - 1];
      assert last in names;
      RunNamesCalls(c, init, k);
      var before := RunNames(c, init, k);
      if before.raised.None? {
        PassNames(c, last);
        ViewsAppend(before.events, Pass(c, last).events);
        var started := StartedNames(before.events);
        if IsTestName(last) {
          assert (started + [last])[..|started|] == started;
        } else {
          assert started + [] == started;
        }
      }
    }
  }

  /**
    How the loop of `run_class` moves the counters: testsRun by the methods called,
    skippedNum by the skips reported, errorsNum and failuresNum not at all.
   */
  lemma {:induction false} RunNamesCounts(c: TestClass, names: seq<string>, k: Counters)
    ensures var r := RunNames(c, names, k);
      r.counts == k.(testsRun := k.testsRun + |CalledNames(r.events)|,
                     skippedNum := k.skippedNum + Skips(r.events))
    decreases |names|
  {
    if names != [] {
      var init, last := names[..|names| - 1], names[|names| - 1];
      RunNamesCounts(c, init, k);
      var before := RunNames(c, init, k);
      if before.raised.None? {
        PassCounts(c, last);
        ViewsAppend(before.events, Pass(c, last).events);
      }
    }
  }

  /** When nothing escapes the loop of `run_class`, every test name gets exactly one verdict, " ok" or " skipped:". */
  lemma {:induction false} RunNamesVerdicts(c: TestClass, names: seq<string>, k: Counters)
    ensures var r := RunNames(c, names, k);
      r.raised.None? ==> Oks(r.events) + Skips(r.events) == |TestsIn(names)|
    decreases |names|
  {
    if names != [] {
      var init, last := names[..|names| - 1], names[|names| - 1];
      assert names == init + [last];
      RunNamesVerdicts(c, init, k);
      TestsInSnoc(init, last);
      var before := RunNames(c, init, k);
      if before.raised.None? {
        PassVerdict(c, last);
        ViewsAppend(before.events, Pass(c, last).events);
      }
    }
  }

  /** A SkipTest never escapes the loop of `run_class`. */
  lemma {:induction false} RunNamesNoSkipEscapes(c: TestClass, names: seq<string>, k: Counters)
    ensures var r := RunNames(c, names, k);
      r.raised.Some? ==> r.raised.value.kind != SkipTest
    decreases |names|
  {
    if names != [] {
      RunNamesNoSkipEscapes(c, names[..|names| - 1], k);
      PassVerdict(c, names[|names| - 1]);
    }
  }

  // ---------------------------------------------------------------------------
  // One class
  // ---------------------------------------------------------------------------

  /** Filtering a sorted list keeps it sorted. */
  lemma {:induction false} TestsInSorted(names: seq<string>)
    requires Sorted(names)
    ensures Sorted(TestsIn(names))
    decreases |names|
  {
    if names != [] {
      TestsInSorted(names[1..]);
      if IsTestName(names[0]) {
        SortedTailBound(names);
        ConsSorted(names[0], TestsIn(names[1..]));
      }
    }
  }

  /** The filter keeps every test name as often as it occurs, and nothing else. */
  lemma {:induction false} TestsInCount(names: seq<string>, n: string)
    ensures multiset(TestsIn(names))[n] == if IsTestName(n) then multiset(names)[n] else 0
    decreases |names|
  {
    if names != [] {
      TestsInCount(names[1..], n);
      assert names == [names[0]] + names[1..];
    }
  }

  /** `dir()` lists each name once. */
  lemma {:induction false} DistinctNamesOnce<T>(xs: seq<Named<T>>, n: string)
    requires DistinctNames(xs)
    ensures multiset(Names(xs))[n] <= 1
    decreases |xs|
  {
    if xs != [] {
      assert Names(xs) == [xs[0].name] + Names(xs[1..]);
      DistinctNamesOnce(xs[1..], n);
      if xs[0].name == n {
        forall i | 0 <= i < |xs[1..]| ensures Names(xs[1..])[i] != n {
          assert xs[1..][i] == xs[i + 1];
        }
        assert n !in Names(xs[1..]);
      }
    }
  }

  /** A list in which no element occurs twice has no repeated position. */
  lemma NoRepeats(s: seq<string>)
    requires forall n :: multiset(s)[n] <= 1
    ensures forall i, j :: 0 <= i < j < |s| ==> s[i] != s[j]
  {
    forall i, j | 0 <= i < j < |s| ensures s[i] != s[j] {
      assert s == s[..j] + s[j..];
      assert s[i] in s[..j] && s[j] in s[j..];
      assert multiset(s)[s[j]] == multiset(s[..j])[s[j]] + multiset(s[j..])[s[j]];
    }
  }

  /**
    The tests of a class are its attributes whose names start with "test", sorted,
    each as often as `dir()` lists it, so each once.
   */
  lemma TestNamesAreTheTests(c: TestClass)
    ensures Sorted(TestNames(c))
    ensures forall n :: multiset(TestNames(c))[n] == if IsTestName(n) then multiset(Names(c.attrs))[n] else 0
    ensures DistinctNames(c.attrs) ==> forall i, j :: 0 <= i < j < |TestNames(c)| ==> TestNames(c)[i] != TestNames(c)[j]
  {
    var sorted := Sort(Names(c.attrs));
    SortSorted(Names(c.attrs));
    TestsInSorted(sorted);
    forall n ensures multiset(TestNames(c))[n] == if IsTestName(n) then multiset(Names(c.attrs))[n] else 0 {
      TestsInCount(sorted, n);
    }
    if DistinctNames(c.attrs) {
      forall n ensures multiset(TestNames(c))[n] <= 1 {
        DistinctNamesOnce(c.attrs, n);
      }
      NoRepeats(TestNames(c));
    }
  }

  /** The sorted names `run_class` walks are all attributes of the instance. */
  lemma SortedNamesListed(c: TestClass)
    ensures forall n :: n in Sort(Names(c.attrs)) ==> n in Names(c.attrs)
  {
    SortSorted(Names(c.attrs));
    forall n | n in Sort(Names(c.attrs)) ensures n in Names(c.attrs) {
      assert n in multiset(Sort(Names(c.attrs)));
    }
  }

  /**
    `run_class`: it prints the tests' names in sorted order, all of them unless an
    exception escapes, and it calls the methods of those whose setUp returned. A class whose instantiation raises prints nothing, and the
    exception escapes.
   */
  lemma ClassRunTests(c: TestClass, k: Counters)
    ensures var r := ClassRun(c, k);
      && StartedNames(r.events) <= TestNames(c)
      && (r.raised.None? ==> StartedNames(r.events) == TestNames(c))
      && CalledNames(r.events) == SetUpReturns(c, StartedNames(r.events))
      && (c.init.Raised? ==> r.events == [] && r.raised == Some(c.init.exc))
  {
    SortedNamesListed(c);
    RunNamesTests(c, Sort(Names(c.attrs)), k);
    RunNamesCalls(c, Sort(Names(c.attrs)), k);
  }

  /**
    `run_class` on a class whose instance is created: testsRun grows by the methods
    called, skippedNum by the skips reported, errorsNum and failuresNum stay; with
    nothing escaping, each test gets one verdict; a SkipTest never escapes.
   */
  lemma ClassRunCounters(c: TestClass, k: Counters)
    requires c.init.Returned?
    ensures var r := ClassRun(c, k);
      && r.counts == k.(testsRun := k.testsRun + |CalledNames(r.events)|,
                        skippedNum := k.skippedNum + Skips(r.events))
      && (r.raised.None? ==> Oks(r.events) + Skips(r.events) == |TestNames(c)|)
      && (r.raised.Some? ==> r.raised.value.kind != SkipTest)
  {
    RunNamesCounts(c, Sort(Names(c.attrs)), k);
    RunNamesVerdicts(c, Sort(Names(c.attrs)), k);
    RunNamesNoSkipEscapes(c, Sort(Names(c.attrs)), k);
  }

  // ---------------------------------------------------------------------------
  // The suite
  // ---------------------------------------------------------------------------

  /** Counters added field by field. */
  function Plus(a: Counters, b: Counters): Counters {
    Counters(a.testsRun + b.testsRun, a.skippedNum + b.skippedNum,
             a.errorsNum + b.errorsNum, a.failuresNum + b.failuresNum)
  }

  /** The events and the exception of the loop of `run_class` do not depend on the counters it starts from. */
  lemma {:induction false} RunNamesShift(c: TestClass, names: seq<string>, k: Counters)
    ensures var r := RunNames(c, names, Zero);
      RunNames(c, names, k) == Run(Plus(k, r.counts), r.events, r.raised)
    decreases |names|
  {
    if names != [] {
      RunNamesShift(c, names[..|names| - 1], k);
    }
  }

  /** What the classes of a suite add to the counters when each runs on a fresh TestResult, summed. */
  function ClassTotals(cs: seq<TestClass>): Counters
    decreases |cs|
  {
    if cs == [] then Zero else Plus(ClassTotals(cs[..|cs| - 1]), ClassRun(cs[|cs| - 1], Zero).counts)
  }

  /** The events of the classes of a suite, one class after the other. */
  function ClassEvents(cs: seq<TestClass>): seq<Event>
    decreases |cs|
  {
    if cs == [] then [] else ClassEvents(cs[..|cs| - 1]) + ClassRun(cs[|cs| - 1], Zero).events
  }

  /**
    `TestRunner.run` threads one TestResult through the classes in order: when nothing
    escapes, its counters are the sums of what each class adds and its events are the
    classes' events one after the other.
   */
  lemma {:induction false} SuiteRunSums(cs: seq<TestClass>, k: Counters)
    ensures var r := SuiteRun(cs, k);
      r.raised.None? ==> r.counts == Plus(k, ClassTotals(cs)) && r.events == ClassEvents(cs)
    decreases |cs|
  {
    if cs != [] {
      var init, last := cs[..|cs| - 1], cs[|cs| - 1];
      SuiteRunSums(init, k);
      var before := SuiteRun(init, k);
      if before.raised.None? && !last.init.Raised? {
        RunNamesShift(last, Sort(Names(last.attrs)), before.counts);
      }
    }
  }

  /** No class ever touches errorsNum or failuresNum. */
  lemma {:induction false} RunNamesKeepsErrors(c: TestClass, names: seq<string>, k: Counters)
    ensures RunNames(c, names, k).counts.errorsNum == k.errorsNum
    ensures RunNames(c, names, k).counts.failuresNum == k.failuresNum
    decreases |names|
  {
    if names != [] {
      RunNamesKeepsErrors(c, names[..|names| - 1], k);
    }
  }

  /** Nor does the suite; so the counters of every run report success. */
  lemma {:induction false} SuiteKeepsErrors(cs: seq<TestClass>, k: Counters)
    ensures SuiteRun(cs, k).counts.errorsNum == k.errorsNum
    ensures SuiteRun(cs, k).counts.failuresNum == k.failuresNum
    decreases |cs|
  {
    if cs != [] {
      var init, last := cs[..|cs| - 1], cs[|cs| - 1];
      SuiteKeepsErrors(init, k);
      RunNamesKeepsErrors(last, Sort(Names(last.attrs)), SuiteRun(init, k).counts);
    }
  }

  // ---------------------------------------------------------------------------
  // The order of dir()
  // ---------------------------------------------------------------------------

  lemma {:induction false} NamesAppend<T>(a: seq<Named<T>>, b: seq<Named<T>>)
    ensures Names(a + b) == Names(a) + Names(b)
  {
  }

  /** Taking out the element at `j` takes one copy of it out of the multiset. */
  lemma MultisetRemoveAt<T>(ys: seq<T>, j: nat)
    requires j < |ys|
    ensures multiset(ys) == multiset(ys[..j] + ys[j + 1..]) + multiset{ys[j]}
  {
    assert ys == ys[..j] + [ys[j]] + ys[j + 1..];
  }

  lemma MultisetCancel<T>(a: multiset<T>, b: multiset<T>, x: T)
    requires a + multiset{x} == b + multiset{x}
    ensures a == b
  {
    forall e ensures a[e] == b[e] {
      assert (a + multiset{x})[e] == (b + multiset{x})[e];
    }
  }

  /** The names of a list with one element taken out. */
  lemma NamesRemoveAt<T>(ys: seq<Named<T>>, j: nat)
    requires j < |ys|
    ensures Names(ys[..j] + ys[j + 1..]) == Names(ys)[..j] + Names(ys)[j + 1..]
  {
    NamesAppend(ys[..j], ys[j + 1..]);
  }

  /** Listing the same attributes in another order lists the same names in another order. */
  lemma {:induction false} NamesPermutation<T>(xs: seq<Named<T>>, ys: seq<Named<T>>)
    requires multiset(xs) == multiset(ys)
    ensures multiset(Names(xs)) == multiset(Names(ys))
    decreases |xs|
  {
    if xs == [] {
      assert |ys| == |multiset(ys)| == 0;
    } else {
      var x := xs[0];
      assert x in multiset(ys);
      var j :| 0 <= j < |ys| && ys[j] == x;
      var rest := ys[..j] + ys[j + 1..];
      RestPermutation(xs, ys, j);
      NamesPermutation(xs[1..], rest);
      NamesOfRest(ys, j);
      assert Names(xs) == [x.name] + Names(xs[1..]);
    }
  }

  /** Taking the first element out of one list and a copy of it out of the other keeps them permutations. */
  lemma RestPermutation<T>(xs: seq<Named<T>>, ys: seq<Named<T>>, j: nat)
    requires multiset(xs) == multiset(ys) && xs != [] && j < |ys| && ys[j] == xs[0]
    ensures multiset(xs[1..]) == multiset(ys[..j] + ys[j + 1..])
  {
    MultisetRemoveAt(ys, j);
    assert xs == [xs[0]] + xs[1..];
    MultisetCancel(multiset(xs[1..]), multiset(ys[..j] + ys[j + 1..]), xs[0]);
  }

  /** The names of a list are those of the list without its element at `j`, and that element's name. */
  lemma NamesOfRest<T>(ys: seq<Named<T>>, j: nat)
    requires j < |ys|
    ensures multiset(Names(ys)) == multiset(Names(ys[..j] + ys[j + 1..])) + multiset{ys[j].name}
  {
    NamesRemoveAt(ys, j);
    MultisetRemoveAt(Names(ys), j);
  }

  /** With each name listed once, a name is bound to one value. */
  lemma OneBinding<T>(xs: seq<Named<T>>, n: string, v: T, w: T)
    requires DistinctNames(xs) && Named(n, v) in xs && Named(n, w) in xs
    ensures v == w
  {
  }

  /** `getattr` answers the same whatever order `dir()` lists the attributes in. */
  lemma FindPermutation<T>(xs: seq<Named<T>>, ys: seq<Named<T>>, n: string)
    requires DistinctNames(xs) && multiset(xs) == multiset(ys)
    ensures Find(xs, n) == Find(ys, n)
  {
    FindListed(xs, n);
    FindListed(ys, n);
    NamesPermutation(xs, ys);
    assert n in Names(xs) <==> n in multiset(Names(xs));
    assert n in Names(ys) <==> n in multiset(Names(ys));
    if Find(xs, n).Some? {
      var v, w := Find(xs, n).value, Find(ys, n).value;
      assert Named(n, w) in multiset(ys);
      OneBinding(xs, n, v, w);
    }
  }

  /** A pass depends on the instance only through what `getattr` finds for the name, setUp and tearDown. */
  lemma PassSameLookup(c: TestClass, d: TestClass, name: string)
    requires Find(c.attrs, name) == Find(d.attrs, name)
    requires SetUpOf(c) == SetUpOf(d) && TearDownOf(c) == TearDownOf(d)
    ensures Pass(c, name) == Pass(d, name)
  {
  }

  /** The loop of `run_class` depends on the instance only through `getattr`. */
  lemma {:induction false} RunNamesSameLookup(c: TestClass, d: TestClass, names: seq<string>, k: Counters)
    requires forall n :: Find(c.attrs, n) == Find(d.attrs, n)
    requires c.setUpIn == d.setUpIn && c.tearDownIn == d.tearDownIn
    ensures RunNames(c, names, k) == RunNames(d, names, k)
    decreases |names|
  {
    if names != [] {
      RunNamesSameLookup(c, d, names[..|names| - 1], k);
      var last := names[|names| - 1];
      assert Find(c.attrs, last) == Find(d.attrs, last);
      assert Find(c.attrs, "setUp") == Find(d.attrs, "setUp");
      assert Find(c.attrs, "tearDown") == Find(d.attrs, "tearDown");
      PassSameLookup(c, d, last);
    }
  }

  /**
    `run_class` runs a class the same way whatever order `dir()` lists its attributes
    in: the `sorted()` around `dir()` makes the run depend on the attributes alone.
   */
  lemma ClassRunIgnoresDirOrder(c: TestClass, d: TestClass, k: Counters)
    requires d == c.(attrs := d.attrs) && DistinctNames(c.attrs) && multiset(c.attrs) == multiset(d.attrs)
    ensures ClassRun(c, k) == ClassRun(d, k)
  {
    forall n ensures Find(c.attrs, n) == Find(d.attrs, n) {
      FindPermutation(c.attrs, d.attrs, n);
    }
    NamesPermutation(c.attrs, d.attrs);
    SortIgnoresOrder(Names(c.attrs), Names(d.attrs));
    RunNamesSameLookup(c, d, Sort(Names(c.attrs)), k);
  }
}
