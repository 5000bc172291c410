/**
  The exception classes the framework raises, catches or compares against,
  and what calling a piece of test code does (it returns or it raises).
 */
module Exceptions {

  datatype Option<+T> = None | Some(value: T)

  /** The built-in exception classes of the model, plus the framework's own SkipTest. */
  datatype ExcKind =
    | BaseException
    | Exception
    | KeyboardInterrupt
    | SystemExit
    | AssertionError
    | TypeError
    | AttributeError
    | ValueError
    | LookupError
    | IndexError
    | SkipTest

  /** Distance from BaseException in the class hierarchy. */
  function Depth(k: ExcKind): nat {
    match k
    case BaseException => 0
    case Exception | KeyboardInterrupt | SystemExit => 1
    case AssertionError | TypeError | AttributeError | ValueError | LookupError | SkipTest => 2
    case IndexError => 3
  }

  /** The direct base class: `class SkipTest(Exception)`, IndexError derives from LookupError, and so on. */
  function Parent(k: ExcKind): (p: Option<ExcKind>)
    ensures p.None? <==> k == BaseException
    ensures p.Some? ==> Depth(p.value) + 1 == Depth(k)
  {
    match k
    case BaseException => None
    case Exception | KeyboardInterrupt | SystemExit => Some(BaseException)
    case AssertionError | TypeError | AttributeError | ValueError | LookupError | SkipTest => Some(Exception)
    case IndexError => Some(LookupError)
  }

  /** Python's `issubclass(a, b)` on the classes of the model. */
  predicate IsSubclass(a: ExcKind, b: ExcKind)
    decreases Depth(a)
  {
    a == b || (Parent(a).Some? && IsSubclass(Parent(a).value, b))
  }

  /** The class name, as `repr` shows it. */
  function Name(k: ExcKind): string {
    match k
    case BaseException => "BaseException"
    case Exception => "Exception"
    case KeyboardInterrupt => "KeyboardInterrupt"
    case SystemExit => "SystemExit"
    case AssertionError => "AssertionError"
    case TypeError => "TypeError"
    case AttributeError => "AttributeError"
    case ValueError => "ValueError"
    case LookupError => "LookupError"
    case IndexError => "IndexError"
    case SkipTest => "SkipTest"
  }

  /** `%r` of an exception class, in MicroPython's `<class 'Name'>` form. */
  function ClassRepr(k: ExcKind): string {
    "<class '" + Name(k) + "'>"
  }

  /** An exception instance: its class and its `args` tuple (only string arguments are modelled). */
  datatype Exc = Exc(kind: ExcKind, args: seq<string>)

  /** What calling a piece of code does: it returns normally or an exception leaves it. */
  datatype Outcome = Returned | Raised(exc: Exc)

  /** `isinstance(e, k)`. */
  predicate IsInstance(e: Exc, k: ExcKind) {
    IsSubclass(e.kind, k)
  }

  /** The exception `assert False, msg` raises. */
  function AssertionFailure(msg: string): (e: Exc)
    ensures IsInstance(e, Exception) && !IsInstance(e, SkipTest)
  {
    Exc(AssertionError, [msg])
  }

  /** `issubclass` is transitive. */
  lemma {:induction false} SubclassTransitive(a: ExcKind, b: ExcKind, c: ExcKind)
    requires IsSubclass(a, b) && IsSubclass(b, c)
    ensures IsSubclass(a, c)
    decreases Depth(a)
  {
    if a != b {
      SubclassTransitive(Parent(a).value, b, c);
    }
  }

  /** The only class below SkipTest is SkipTest itself; `except SkipTest` catches exactly it. */
  lemma SkipTestIsLeaf(k: ExcKind)
    ensures IsSubclass(k, SkipTest) <==> k == SkipTest
  {
  }

  /** KeyboardInterrupt and SystemExit are the classes that `except Exception` does not catch. */
  lemma NotAnException(k: ExcKind)
    ensures !IsSubclass(k, Exception) <==> k in {BaseException, KeyboardInterrupt, SystemExit}
  {
  }
}
