# A model of the pyxi unittest framework

This project models `python/pyxi/tests/unittest.py`, the MicroPython unittest module as
adapted for pyxi testing, and proves properties of the model in Dafny.

The module's execution engine has these parts:
- `main` finds the TestCase classes of a module in the sorted order of their names.
- `TestSuite` holds those classes. `TestRunner.run` runs them one after the other into one `TestResult`.
- `run_class` runs every attribute whose name starts with `"test"`, in sorted order, between `setUp` and `tearDown`.
- A `SkipTest` carrying a reason and raised by a test's `setUp`, method or `tearDown` is reported and counted.
- Any other exception leaves the run at once. So does a `SkipTest` raised while instantiating the class (line 198, outside the `try`), and a `SkipTest` without arguments, which turns into an IndexError when its reason is read.
- At the end, `main` prints `Ran N tests`, followed by ` (K skipped)` when something was skipped.

Around the engine sit some helpers:
- the `skip` and `skipUnless` decorators;
- `assertRaises`, in its context-manager form and its function form;
- the `delta` branch and the argument checks of `assertAlmostEqual` and `assertNotAlmostEqual`;
- the yes/no checks of `assertUserAnswersYes`, `assertUserAnswersNo` and `request_user_confirmation`.

## How it is modelled

- **Exceptions** (`exceptions.dfy`): the exception classes the framework touches, as a closed hierarchy under BaseException. `issubclass` and `isinstance` are defined on it. Calling a piece of test code is an `Outcome`: it returns, or it raises an exception.
- **A test class** (`engine.dfy`): what instantiating it does (`init`), and its attributes as `dir()` lists them, each with what calling it does.
  - setUp and tearDown are fetched once per class (`SetUpOf`, `TearDownOf`). What a call does can differ from one test's pass to the next, because every call shares the one instance. The class says where it differs (`setUpIn`, `tearDownIn`).
  - `getattr` is a lookup in that list (`Find`).
  - `sorted()` is an insertion sort under Python's string order (`order.dfy`).
- **A run**:
  - What a run does is a function of the classes: its event trace, the counters it leaves in the TestResult, and the exception that escapes, if any (`RunTest`, `Pass`, `RunNames`, `ClassRun`, `SuiteRun`).
  - The event trace records the printed text and the calls into test code, in order.
  - The loops are specified back to front, prefix by prefix, as the loops walk them.
- **The objects the source updates in place** are classes (`runner.dfy`): `TestResult`, `TestSuite`, `TestRunner` and the console.
  - `run_class`, `TestRunner.run` and `main` are methods with `while` loops.
  - Each method is proved equal to the functions above.
- **Properties of runs** are lemmas over those functions (`run_properties.dfy`):
  - which tests are printed and called, and in what order;
  - how each counter moves;
  - that every test gets one verdict;
  - that errorsNum and failuresNum never move, so `wasSuccessful()` holds after every run;
  - that a run does not depend on the order `dir()` lists attributes in.
- **The assertions** (`assertions.dfy`):
  - Almost-equal is modelled on integers. The places branch's rounding is a parameter.
  - The user's typed reply is a parameter.
- **Skip decorators** (`skip.dfy`) are transformers of what a test method does.
- **`main`** (`discovery.dfy`): discovery, the summary line, and `main` itself.

Two points of the code shape what the model proves:
- `testsRun` is incremented after `setUp` returns (lines 206-207). A SkipTest raised by `setUp` therefore counts as skipped but not as run (`Skip.SkipFromSetUp`).
- The function form of `assertRaises` passes a call that raises nothing when `exc` is Exception, AssertionError or BaseException. See Findings.

## Model

| member | source | states |
|---|---|---|
| Exceptions.SkipTestIsLeaf | python/pyxi/tests/unittest.py:24-25 | SkipTest has no subclass, so `except SkipTest` catches exactly the exceptions of class SkipTest |
| Exceptions.NotAnException | python/pyxi/tests/unittest.py:144 | the classes `except Exception` lets through are exactly BaseException, KeyboardInterrupt and SystemExit |
| Exceptions.AssertionFailure | python/pyxi/tests/unittest.py:78 | the exception `assert False, msg` raises is an Exception and never a SkipTest |
| Exceptions.SubclassTransitive | python/pyxi/tests/unittest.py:39 | `issubclass` is transitive over the hierarchy |
| Text.ParseNatToString | python/pyxi/tests/unittest.py:234 | the digits `%d` writes for a count read back as that count |
| Order.SortSorted | python/pyxi/tests/unittest.py:201 | `sorted()` returns the names in Python string order, as a permutation of its input |
| Order.SortIgnoresOrder | python/pyxi/tests/unittest.py:201 | `sorted()` of two lists holding the same names is the same list |
| Engine.FindListed | python/pyxi/tests/unittest.py:199-204 | `getattr` finds a value exactly for the names `dir()` lists, and what it finds is bound to that name |
| Engine.TestsIn | python/pyxi/tests/unittest.py:201-202 | the names the loop keeps are listed names that start with "test" |
| Engine.RunTestOrder | python/pyxi/tests/unittest.py:205-210 | setUp is called first; testsRun is counted only after setUp returned and before the method is called; tearDown is called exactly when setUp and the method returned |
| Engine.RunTestVerdict | python/pyxi/tests/unittest.py:205-213 | " ok" is printed exactly when setUp, the method and tearDown all returned; a skip is reported last and lets nothing escape; what escapes is never a SkipTest |
| Engine.RunNamesAborted | python/pyxi/tests/unittest.py:201-213 | once a pass lets an exception escape, the later names add nothing: the exception leaves `run_class` |
| Engine.SuiteRunAborted | python/pyxi/tests/unittest.py:182-183 | once a class lets an exception escape, the later classes of the suite are not run |
| Runner.TestResult.constructor | python/pyxi/tests/unittest.py:187-191 | a new TestResult has all four counters at zero |
| Runner.TestResult.WasSuccessful | python/pyxi/tests/unittest.py:193-194 | a result is successful when errorsNum and failuresNum are zero; `RunProperties.SuiteKeepsErrors` and `Runner.TestRunner.Run` prove it holds after every run |
| Runner.TestSuite.constructor | python/pyxi/tests/unittest.py:174-175 | a new suite is empty |
| Runner.TestSuite.AddTest | python/pyxi/tests/unittest.py:176-177 | the class is appended at the end, with no check and no deduplication |
| Runner.Except | python/pyxi/tests/unittest.py:211-213 | a SkipTest prints " skipped:" with its first argument and adds one to skippedNum; one without arguments raises IndexError; anything else escapes unchanged, with no counter moved |
| Runner.RunOneTest | python/pyxi/tests/unittest.py:205-213 | the try statement leaves the counters, the console and the escaping exception exactly as `RunTest` says |
| Runner.RunName | python/pyxi/tests/unittest.py:202-213 | one pass of the loop prints a test name, fetches the method (AttributeError when it is not there) and runs it, as `Pass` says |
| Runner.RunClass | python/pyxi/tests/unittest.py:197-213 | `run_class` leaves the counters, the console and the escaping exception exactly as `ClassRun` says |
| Runner.TestRunner.Run | python/pyxi/tests/unittest.py:180-184 | `run` threads one fresh TestResult through the classes in order, as `SuiteRun` says, and the result it returns always reports `wasSuccessful()` |
| RunProperties.RunTestViews | python/pyxi/tests/unittest.py:205-213 | one test prints no name, calls its method exactly when setUp returned, reports at most one skip, and reports exactly one verdict when nothing escapes |
| RunProperties.PassNames | python/pyxi/tests/unittest.py:201-208 | a pass over a listed name prints it exactly when it is a test name, and calls it exactly when, in addition, setUp returns in that pass |
| RunProperties.PassCounts | python/pyxi/tests/unittest.py:207-213 | a pass adds one to testsRun exactly when it calls a method, and one to skippedNum exactly when it reports a skip |
| RunProperties.PassVerdict | python/pyxi/tests/unittest.py:210-213 | a pass over a test name that lets nothing escape reports one verdict; a SkipTest never escapes a pass |
| RunProperties.PassPrintsOk | python/pyxi/tests/unittest.py:203-210 | a test whose setUp, method and tearDown return prints the line `name ... ok` |
| RunProperties.PassPrintsSkip | python/pyxi/tests/unittest.py:203-212 | a test method raising `SkipTest(reason, ...)` after setUp returns prints the line `name ... skipped: reason` |
| RunProperties.RunNamesTests | python/pyxi/tests/unittest.py:201-203 | the printed names are the test names in the loop's order: all of them when nothing escapes, otherwise a prefix |
| RunProperties.RunNamesCalls | python/pyxi/tests/unittest.py:198-208 | the methods called are exactly the printed tests whose own setUp call returned, in the order printed; setUp, bound once on the one shared instance, may return for one test and raise for another |
| RunProperties.RunNamesCounts | python/pyxi/tests/unittest.py:201-213 | testsRun grows by the methods called, skippedNum by the skips reported, and errorsNum and failuresNum stay |
| RunProperties.RunNamesVerdicts | python/pyxi/tests/unittest.py:201-213 | when nothing escapes the loop, the " ok" and " skipped:" reports number the test names |
| RunProperties.RunNamesNoSkipEscapes | python/pyxi/tests/unittest.py:211-213 | no SkipTest ever escapes the loop of `run_class` |
| RunProperties.TestNamesAreTheTests | python/pyxi/tests/unittest.py:201-202 | the tests of a class are its attributes whose names start with "test", in sorted order, each once |
| RunProperties.ClassRunTests | python/pyxi/tests/unittest.py:197-208 | `run_class` prints the test names in sorted order (all, unless something escapes) and calls the methods of exactly those whose own setUp call returned; a class whose instantiation raises prints and calls nothing, and that exception escapes |
| RunProperties.ClassRunCounters | python/pyxi/tests/unittest.py:197-213 | for a class whose instantiation returns, `run_class` moves testsRun by the calls and skippedNum by the skips, gives each test one verdict when nothing escapes, and lets no SkipTest escape (one without arguments leaves as an IndexError) |
| RunProperties.RunNamesShift | python/pyxi/tests/unittest.py:201-213 | the events and the escaping exception of `run_class` do not depend on the counters it starts from, which it only adds to |
| RunProperties.SuiteRunSums | python/pyxi/tests/unittest.py:180-184 | when nothing escapes, the counters of a run are the sums of what each class adds and the events are the classes' events in order |
| RunProperties.SuiteKeepsErrors | python/pyxi/tests/unittest.py:180-194 | no run moves errorsNum or failuresNum, so `wasSuccessful()` holds after every run |
| RunProperties.FindPermutation | python/pyxi/tests/unittest.py:199-204 | when `dir()` lists each name once, `getattr` answers the same whatever order the attributes come in |
| RunProperties.ClassRunIgnoresDirOrder | python/pyxi/tests/unittest.py:201 | `run_class` runs a class the same way whatever order `dir()` lists its attributes in |
| Assertions.Exit | python/pyxi/tests/unittest.py:36-41 | `__exit__` fails with "<class '...'> not raised" exactly when nothing was raised, suppresses exactly the subclasses of the expected class, and lets every other exception go on |
| Assertions.WithBlockWidens | python/pyxi/tests/unittest.py:36-41 | a `with` block that passes under `assertRaises` of a class also passes under `assertRaises` of any base class of it |
| Assertions.AssertRaises | python/pyxi/tests/unittest.py:137-147 | without a function it returns the context manager for `exc`; with one it calls it as written: a call that returns passes exactly when AssertionError is a subclass of `exc` and otherwise fails with "not raised"; an exception outside Exception always escapes unchanged; a raised Exception passes exactly when it is an instance of `exc`, and whatever is not passed escapes unchanged |
| Assertions.AssertRaisesCall | python/pyxi/tests/unittest.py:141-147 | the function form as written: a call that returns passes exactly when AssertionError is a subclass of `exc` and otherwise fails with "not raised"; a raised Exception passes exactly when it is an instance of `exc`; any other raised exception, and a raised Exception that does not pass, escapes unchanged |
| Assertions.AssertRaisesIntended | python/pyxi/tests/unittest.py:137-147 | corrected function form: a call that returns fails with "not raised"; a raised instance of `exc` passes; any other exception escapes unchanged |
| Assertions.IntendedIsWithBlock | python/pyxi/tests/unittest.py:137-147 | the corrected function form behaves as a `with self.assertRaises(exc):` block around the call |
| Assertions.AssertRaisesCallDeparts | python/pyxi/tests/unittest.py:141-147 | the written function form differs from the intended one exactly when nothing is raised and AssertionError is a subclass of `exc`, or when a KeyboardInterrupt or SystemExit that is an instance of `exc` is raised |
| Assertions.AssertRaisesSwallowsItsOwnFailure | python/pyxi/tests/unittest.py:141-146 | `assertRaises(Exception, f)` with an `f` that returns passes in the written code |
| Assertions.AssertRaisesMissesBaseExceptions | python/pyxi/tests/unittest.py:144-147 | `assertRaises(KeyboardInterrupt, f)` with an `f` that raises KeyboardInterrupt lets it escape in the written code |
| Assertions.AssertRaisesCallOnExceptions | python/pyxi/tests/unittest.py:141-147 | on every call that raises an Exception, the written function form does what was intended |
| Assertions.AssertAlmostEqual | python/pyxi/tests/unittest.py:59-78 | without `delta`, unequal values pass exactly when they round to equal; what it raises is the both-given TypeError or one AssertionError carrying `msg` when `msg` is given |
| Assertions.AssertNotAlmostEqual | python/pyxi/tests/unittest.py:80-97 | without `delta`, it passes exactly when the values differ and do not round to equal; what it raises is the both-given TypeError or one AssertionError carrying `msg` when `msg` is given |
| Assertions.AlmostEqualValidationOrder | python/pyxi/tests/unittest.py:59-82 | assertAlmostEqual passes equal values before it checks its arguments, so it rejects `places` with `delta` only for unequal values; assertNotAlmostEqual rejects them whatever the values |
| Assertions.AlmostEqualDelta | python/pyxi/tests/unittest.py:59-78 | with `delta` alone, assertAlmostEqual passes iff the values are equal or `abs(x - y) <= delta`, and otherwise raises an AssertionError carrying `msg` when one is given |
| Assertions.NotAlmostEqualDelta | python/pyxi/tests/unittest.py:80-97 | with `delta` alone, assertNotAlmostEqual passes iff `x != y` and `abs(x - y) > delta`, and otherwise raises an AssertionError carrying `msg` when one is given |
| Assertions.AlmostEqualComplementary | python/pyxi/tests/unittest.py:59-97 | unless both `places` and `delta` are given, exactly one of the two checks passes on any pair of values |
| Assertions.AlmostEqualDefaultMessage | python/pyxi/tests/unittest.py:68-69 | the default failure message of the delta branch is "x != y within d delta" |
| Assertions.AssertTrue | python/pyxi/tests/unittest.py:119-122 | passes exactly on True; otherwise fails with `msg`, or with "Expected False to be True" when `msg` is empty |
| Assertions.IsYes | python/pyxi/tests/unittest.py:149-151 | the lower-cased reply is "y", "yes" or empty; `Assertions.YesReplies` proves which typed replies these are |
| Assertions.IsNo | python/pyxi/tests/unittest.py:153-155 | the lower-cased reply is "n", "no" or empty; `Assertions.NoReplies` proves which typed replies these are |
| Assertions.AssertUserAnswersYes | python/pyxi/tests/unittest.py:149-151 | prompts with " ([yes]/no)>>> " after the text and passes exactly on a yes reply |
| Assertions.AssertUserAnswersNo | python/pyxi/tests/unittest.py:153-155 | prompts with " (yes/[no])>>> " after the text and passes exactly on a no reply |
| Assertions.RequestUserConfirmation | python/pyxi/tests/unittest.py:239-241 | prompts with " ([yes]/no)>>> " after the text and answers whether the reply is a yes |
| Assertions.YesReplies | python/pyxi/tests/unittest.py:150-151 | the yes replies are exactly "", "y" and "yes", each letter in either case |
| Assertions.NoReplies | python/pyxi/tests/unittest.py:154-155 | the no replies are exactly "", "n" and "no", each letter in either case |
| Assertions.EmptyReplyIsBoth | python/pyxi/tests/unittest.py:149-155 | the empty reply is the only one that is both a yes and a no |
| Assertions.ConfirmationIsYesCheck | python/pyxi/tests/unittest.py:239-241 | `request_user_confirmation` shows the same prompt and accepts exactly the replies `assertUserAnswersYes` accepts |
| Skip.Skip | python/pyxi/tests/unittest.py:158-164 | a `@skip(msg)` method raises SkipTest(msg), whatever the original method does |
| Skip.SkipUnless | python/pyxi/tests/unittest.py:167-170 | `skipUnless(cond, msg)` returns the method unchanged when `cond` holds, and otherwise one that raises SkipTest(msg) |
| Skip.SkippedTest | python/pyxi/tests/unittest.py:158-164 | a `@skip(msg)` method, after a setUp that returns, is counted and reported skipped with `msg`; tearDown is not called and nothing escapes, whatever the original method did |
| Skip.SkipUnlessRuns | python/pyxi/tests/unittest.py:167-170 | `skipUnless(True, msg)` leaves the test as it was; `skipUnless(False, msg)` runs it as `skip(msg)` |
| Skip.SkipFromMethod | python/pyxi/tests/unittest.py:205-213 | a SkipTest from the method adds one to testsRun and one to skippedNum, skips tearDown and " ok", and reports the reason last |
| Skip.SkipFromSetUp | python/pyxi/tests/unittest.py:205-213 | a SkipTest from setUp adds one to skippedNum but not to testsRun, and the method is not called |
| Skip.SkipWithoutReason | python/pyxi/tests/unittest.py:212 | a SkipTest without arguments makes the handler raise IndexError, which escapes |
| Discovery.CaseNamesIn | python/pyxi/tests/unittest.py:216-221 | the discovered names are exactly the listed names bound to TestCase classes |
| Discovery.DiscoveredCases | python/pyxi/tests/unittest.py:216-221 | discovery yields the module's TestCase classes, in sorted order of their names, each the class bound to its name |
| Discovery.TestCases | python/pyxi/tests/unittest.py:216-221 | the classes `test_cases` yields; `Discovery.DiscoveredCases` proves they are the module's TestCase classes in sorted order of their names |
| Discovery.TestCasesIgnoreDirOrder | python/pyxi/tests/unittest.py:216-221 | discovery does not depend on the order `dir()` lists the module's members in |
| Discovery.Summary | python/pyxi/tests/unittest.py:234-236 | the summary line `Ran N tests`, then ` (K skipped)`; `Discovery.SummaryMentionsSkips` and `Discovery.SummaryInjective` prove what it shows |
| Discovery.SummaryMentionsSkips | python/pyxi/tests/unittest.py:234-236 | the summary has the " (K skipped)" part exactly when something was skipped |
| Discovery.SummaryInjective | python/pyxi/tests/unittest.py:234-237 | different counters print different summary lines |
| Discovery.UnittestMain | python/pyxi/tests/unittest.py:215-237 | `main` adds the discovered classes to a suite in order, runs it as `SuiteRun` says and, unless an exception escapes, prints the summary line last |

## Left out

- Loading the module with `__import__` (line 228) and the reflection of `dir()` and `getattr()` are not modelled. A module and a class instance are given as the list of their members, in the order `dir()` would list them.
- The `isinstance(c, object) and isinstance(c, type) and issubclass(c, TestCase)` test of discovery becomes a tag on each module member: a TestCase class or anything else.
- Console output is not modelled as I/O. The model records an event trace, and `Output` gives the printed text. An exception raised by `print` itself is not modelled.
- `input()` is not modelled. The user's reply is a parameter.
- Floating point is not modelled. The almost-equal checks are modelled on integers. `round(abs(y - x), places) == 0` is the parameter `placesClose`, because rounding floats is not modelled.
- `%r` formatting covers only integers and exception classes. Messages that format other values are not modelled.
- Exception classes are a fixed set of built-in classes plus SkipTest. User-defined exception classes are not modelled.
- Exceptions carry only string arguments.
- The message of the AttributeError raised for a missing attribute is reduced to the attribute's name.
- Test code is deterministic. State is captured only as far as `run_class` can observe it: a class gives what setUp and tearDown do in each test's pass, because they are bound once on the one instance (lines 198-200) and may see what earlier calls left on it. Each test method is called once, so one outcome per method suffices. What test code does to anything outside the instance is not modelled. Calling an attribute that is not callable is whatever `Outcome` the attribute is given, such as a TypeError.
- `str.lower()` maps only the ASCII letters.
- What the interpreter prints when an exception escapes `main` is not modelled. The exception is returned as `raised`.
- The other TestCase assertions are not part of this model: `fail`, `assertEqual`, `assertNotEqual`, `assertIs`, `assertIsNot`, `assertIsNone`, `assertIsNotNone`, `assertFalse`, `assertIn`, `assertIsInstance`.

## Findings

| source | as written | input that shows it | evidently intended | confidence | as-written member | corrected member |
|---|---|---|---|---|---|---|
| python/pyxi/tests/unittest.py:141-146 | the `assert False, "%r not raised"` sits inside the `try` whose `except Exception` clause then catches it; when `exc` is Exception, AssertionError or BaseException, `isinstance` holds and the call returns | `self.assertRaises(Exception, lambda: None)` passes | a call that raises nothing fails with "not raised", as in the `with` form (lines 36-38) | not executed | Assertions.AssertRaisesSwallowsItsOwnFailure | Assertions.AssertRaisesIntended |
| python/pyxi/tests/unittest.py:144-147 | only `except Exception` is tried, so an exception outside Exception escapes even when it is an instance of `exc` | `self.assertRaises(KeyboardInterrupt, f)` where `f` raises KeyboardInterrupt lets it escape | an instance of `exc` passes whatever its class, as in the `with` form (line 39) | not executed | Assertions.AssertRaisesMissesBaseExceptions | Assertions.AssertRaisesIntended |

`Assertions.AssertRaisesCall` models the function form as written. `Assertions.AssertRaisesCallDeparts` proves the two discrepancies above are the only ones. `Assertions.AssertRaises` keeps the function form as written. `Assertions.IntendedIsWithBlock` proves that the corrected form is the `with` form.
