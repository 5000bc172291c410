/**
  `unittest.main`: finding the TestCase classes of a module, building the suite,
  running it and printing the summary line.
 */
module Discovery {
  import opened Exceptions
  import opened Text
  import opened Order
  import opened Engine
  import opened Runner
  import opened RunProperties

  /**
    A member of the test module: a class that derives from TestCase (TestCase itself
    included, as `issubclass` counts it), or anything else (functions, other classes,
    imported modules, constants).
   */
  datatype ModuleValue = TestCaseClass(cls: TestClass) | OtherValue

  /** The member bound to `name` is a TestCase class. */
  predicate IsCaseName(m: seq<Named<ModuleValue>>, name: string) {
    Find(m, name).Some? && Find(m, name).value.TestCaseClass?
  }

  /** The names, among `names`, of TestCase classes, in order. */
  function CaseNamesIn(m: seq<Named<ModuleValue>>, names: seq<string>): (r: seq<string>)
    ensures forall n :: n in r <==> n in names && IsCaseName(m, n)
    decreases |names|
  {
    if names == [] then []
    else (if IsCaseName(m, names[0]) then [names[0]] else []) + CaseNamesIn(m, names[1..])
  }

  /** The generator `test_cases(m)` over the names `names`: the TestCase classes bound to them, in order. */
  function CasesIn(m: seq<Named<ModuleValue>>, names: seq<string>): seq<TestClass>
    decreases |names|
  {
    if names == [] then []
    else
      var found := Find(m, names[0]);
      if found.Some? && found.value.TestCaseClass? then [found.value.cls] + CasesIn(m, names[1..])
      else CasesIn(m, names[1..])
  }

  /** `test_cases(m)`: walks `sorted(dir(m))`. */
  function TestCases(m: seq<Named<ModuleValue>>): seq<TestClass> {
    CasesIn(m, Sort(Names(m)))
  }

  /** The names of the classes `test_cases(m)` yields. */
  function CaseNames(m: seq<Named<ModuleValue>>): seq<string> {
    CaseNamesIn(m, Sort(Names(m)))
  }

  /** Each class the generator yields is the class bound to the matching name. */
  lemma {:induction false} CasesInAreBound(m: seq<Named<ModuleValue>>, names: seq<string>)
    ensures |CasesIn(m, names)| == |CaseNamesIn(m, names)|
    ensures forall i :: 0 <= i < |CasesIn(m, names)| ==>
      Find(m, CaseNamesIn(m, names)[i]) == Some(TestCaseClass(CasesIn(m, names)[i]))
    decreases |names|
  {
    if names != [] {
      CasesInAreBound(m, names[1..]);
    }
  }

  /**
    Discovery yields exactly the TestCase classes of the module, in the sorted order of
    their names, each class from the member bound to its name.
   */
  lemma DiscoveredCases(m: seq<Named<ModuleValue>>)
    ensures Sorted(CaseNames(m))
    ensures forall n :: n in CaseNames(m) <==> n in Names(m) && IsCaseName(m, n)
    ensures |TestCases(m)| == |CaseNames(m)|
    ensures forall i :: 0 <= i < |TestCases(m)| ==> Find(m, CaseNames(m)[i]) == Some(TestCaseClass(TestCases(m)[i]))
  {
    var sorted := Sort(Names(m));
    SortSorted(Names(m));
    CaseNamesSorted(m, sorted);
    forall n ensures n in sorted <==> n in Names(m) {
      assert n in sorted <==> n in multiset(sorted);
    }
    CasesInAreBound(m, sorted);
  }

  lemma {:induction false} CaseNamesSorted(m: seq<Named<ModuleValue>>, names: seq<string>)
    requires Sorted(names)
    ensures Sorted(CaseNamesIn(m, names))
    decreases |names|
  {
    if names != [] {
      CaseNamesSorted(m, names[1..]);
      if IsCaseName(m, names[0]) {
        SortedTailBound(names);
        ConsSorted(names[0], CaseNamesIn(m, names[1..]));
      }
    }
  }

  /** Discovery does not depend on the order `dir()` lists the module's members in. */
  lemma TestCasesIgnoreDirOrder(m: seq<Named<ModuleValue>>, m2: seq<Named<ModuleValue>>)
    requires DistinctNames(m) && multiset(m) == multiset(m2)
    ensures TestCases(m) == TestCases(m2)
  {
    forall n ensures Find(m, n) == Find(m2, n) {
      FindPermutation(m, m2, n);
    }
    NamesPermutation(m, m2);
    SortIgnoresOrder(Names(m), Names(m2));
    CasesInSameLookup(m, m2, Sort(Names(m)));
  }

  lemma {:induction false} CasesInSameLookup(m: seq<Named<ModuleValue>>, m2: seq<Named<ModuleValue>>, names: seq<string>)
    requires forall n :: Find(m, n) == Find(m2, n)
    ensures CasesIn(m, names) == CasesIn(m2, names)
    decreases |names|
  {
    if names != [] {
      CasesInSameLookup(m, m2, names[1..]);
    }
  }

  // ---------------------------------------------------------------------------
  // The summary line
  // ---------------------------------------------------------------------------

  /** `"Ran %d tests"`, followed by `" (%d skipped)"` when anything was skipped. */
  function Summary(testsRun: nat, skippedNum: nat): string {
    "Ran " + NatToString(testsRun) + " tests" +
    (if skippedNum > 0 then " (" + NatToString(skippedNum) + " skipped)" else "")
  }

  /** The part of the summary after the count of tests. */
  function SummaryTail(skippedNum: nat): string {
    " tests" + (if skippedNum > 0 then " (" + NatToString(skippedNum) + " skipped)" else "")
  }

  lemma SummarySplits(testsRun: nat, skippedNum: nat)
    ensures Summary(testsRun, skippedNum) == "Ran " + (NatToString(testsRun) + SummaryTail(skippedNum))
  {
  }

  /** The skipped part is there exactly when something was skipped. */
  lemma SummaryMentionsSkips(testsRun: nat, skippedNum: nat)
    ensures skippedNum == 0 <==> Summary(testsRun, skippedNum) == "Ran " + NatToString(testsRun) + " tests"
  {
    if skippedNum > 0 {
      assert |Summary(testsRun, skippedNum)| > |"Ran " + NatToString(testsRun) + " tests"|;
    }
  }

  /** The part after the count of tests gives back the count of skips. */
  lemma SummaryTailInjective(k1: nat, k2: nat)
    requires SummaryTail(k1) == SummaryTail(k2)
    ensures k1 == k2
  {
    var t1, t2 := SummaryTail(k1)[6..], SummaryTail(k2)[6..];
    if k1 > 0 && k2 > 0 {
      var s := " skipped)";
      assert t1 == " (" + (NatToString(k1) + s);
      assert t2 == " (" + (NatToString(k2) + s);
      assert NatToString(k1) + s == t1[2..] == t2[2..] == NatToString(k2) + s;
      DigitsThenText(k1, s, k2, s);
    } else {
      assert |t1| == 0 <==> k1 == 0;
      assert |t2| == 0 <==> k2 == 0;
    }
  }

  /** The summary line gives back both counters: different counts print different lines. */
  lemma SummaryInjective(n1: nat, k1: nat, n2: nat, k2: nat)
    requires Summary(n1, k1) == Summary(n2, k2)
    ensures n1 == n2 && k1 == k2
  {
    SummarySplits(n1, k1);
    SummarySplits(n2, k2);
    assert NatToString(n1) + SummaryTail(k1) == Summary(n1, k1)[4..] == Summary(n2, k2)[4..] == NatToString(n2) + SummaryTail(k2);
    DigitsThenText(n1, SummaryTail(k1), n2, SummaryTail(k2));
    SummaryTailInjective(k1, k2);
  }

  // ---------------------------------------------------------------------------
  // main
  // ---------------------------------------------------------------------------

  /**
    `main(module)` for a module whose members are `m`: adds the discovered classes to
    a suite in order, runs it, and prints the summary. An exception that escapes the
    run escapes `main` before the summary (`raised`).
   */
  method UnittestMain(m: seq<Named<ModuleValue>>, console: Console) returns (raised: Option<Exc>)
    modifies console
    ensures var r := SuiteRun(TestCases(m), Zero);
      raised == r.raised &&
      console.trace == old(console.trace) + r.events +
        (if r.raised.None? then [PrintedLine(Summary(r.counts.testsRun, r.counts.skippedNum))] else [])
  {
    var suite := new TestSuite();
    var cases := TestCases(m);
    var i := 0;
    while i < |cases|
      invariant 0 <= i <= |cases|
      invariant suite.tests == cases[..i]
      invariant console.trace == old(console.trace)
    {
      suite.AddTest(cases[i]);
      i := i + 1;
    }
    assert suite.tests == cases;
    var runner := new TestRunner();
    var result;
    result, raised := runner.Run(suite, console);
    if raised.None? {
      var msg := "Ran " + NatToString(result.testsRun) + " tests";
      if result.skippedNum > 0 {
        msg := msg + " (" + NatToString(result.skippedNum) + " skipped)";
      }
      assert msg == Summary(result.testsRun, result.skippedNum);
      console.Emit(PrintedLine(msg));
    }
  }
}
