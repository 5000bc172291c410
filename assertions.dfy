/**
  The decision logic of the TestCase assertions: `assertRaises` in both of its
  forms, the almost-equal checks on integers, `assertTrue`, and the yes/no
  replies asked of the person running the tests.
 */
module Assertions {
  import opened Exceptions
  import opened Text

  // ---------------------------------------------------------------------------
  // assertRaises
  // ---------------------------------------------------------------------------

  /** `AssertRaisesContext(exc)`: the object a `with self.assertRaises(exc):` block uses. */
  datatype AssertRaisesContext = AssertRaisesContext(expected: ExcKind)

  /** What `__exit__` does: returns True (suppress), returns False (let it go on), or raises. */
  datatype ExitResult = Suppress | Continue | ExitRaised(exc: Exc)

  /** The "%r not raised" failure for the expected class. */
  function NotRaised(expected: ExcKind): Exc {
    AssertionFailure(ClassRepr(expected) + " not raised")
  }

  /**
    `__exit__(exc_type, ...)`: with no exception it fails with "%r not raised";
    an exception of the expected class or a subclass is suppressed; any other goes on.
   */
  function Exit(ctx: AssertRaisesContext, excType: Option<ExcKind>): (r: ExitResult)
    ensures excType.None? <==> r == ExitRaised(NotRaised(ctx.expected))
    ensures r == Suppress <==> excType.Some? && IsSubclass(excType.value, ctx.expected)
    ensures r == Continue <==> excType.Some? && !IsSubclass(excType.value, ctx.expected)
  {
    if excType.None? then ExitRaised(NotRaised(ctx.expected))
    else if IsSubclass(excType.value, ctx.expected) then Suppress
    else Continue
  }

  /** The effect of a `with` block, whose body does `body`, under the context manager. */
  function WithBlock(ctx: AssertRaisesContext, body: Outcome): Outcome {
    var exit := Exit(ctx, if body.Returned? then None else Some(body.exc.kind));
    if exit.ExitRaised? then Raised(exit.exc)
    else if exit == Suppress then Returned
    else Raised(body.exc)
  }

  /**
    A context manager for a base class passes every `with` block that one for its
    subclass passes: `issubclass` at line 39 is transitive.
   */
  lemma WithBlockWidens(narrow: ExcKind, wide: ExcKind, body: Outcome)
    requires IsSubclass(narrow, wide)
    ensures WithBlock(AssertRaisesContext(narrow), body).Returned? ==> WithBlock(AssertRaisesContext(wide), body).Returned?
  {
    if body.Raised? && IsSubclass(body.exc.kind, narrow) {
      SubclassTransitive(body.exc.kind, narrow, wide);
    }
  }

  /**
    `assertRaises(exc, func)` as written: calls `func`, and `assert False` when it
    returns, all inside `try: ... except Exception as e:`, which re-raises any
    caught exception that is not an instance of `exc`. The AssertionError of the
    `assert False` is caught by that same clause.
   */
  function AssertRaisesCall(expected: ExcKind, func: Outcome): (r: Outcome)
    ensures func.Returned? ==> (r.Returned? <==> IsSubclass(AssertionError, expected))
    ensures func.Returned? && r.Raised? ==> r.exc == NotRaised(expected)
    ensures func.Raised? && !IsInstance(func.exc, Exception) ==> r == func
    ensures func.Raised? && IsInstance(func.exc, Exception) ==> (r.Returned? <==> IsInstance(func.exc, expected))
    ensures func.Raised? && r.Raised? ==> r == func
  {
    var leaving := if func.Returned? then NotRaised(expected) else func.exc;
    if !IsInstance(leaving, Exception) then Raised(leaving)
    else if IsInstance(leaving, expected) then Returned
    else Raised(leaving)
  }

  /**
    The function form as the context-manager form behaves: an exception of the
    expected class passes, any other escapes, and a call that raises nothing fails.
   */
  function AssertRaisesIntended(expected: ExcKind, func: Outcome): (r: Outcome)
    ensures func.Returned? ==> r == Raised(NotRaised(expected))
    ensures func.Raised? ==> (r.Returned? <==> IsInstance(func.exc, expected))
    ensures func.Raised? && r.Raised? ==> r.exc == func.exc
  {
    match func
    case Returned => Raised(NotRaised(expected))
    case Raised(e) => if IsInstance(e, expected) then Returned else Raised(e)
  }

  /** The corrected function form is the `with` form applied to the call. */
  lemma IntendedIsWithBlock(expected: ExcKind, func: Outcome)
    ensures AssertRaisesIntended(expected, func) == WithBlock(AssertRaisesContext(expected), func)
  {
  }

  /**
    Where the written function form departs from the intended one: it passes when
    nothing is raised and AssertionError is a subclass of `exc` (its own failure is
    caught), and it lets a KeyboardInterrupt or SystemExit escape even when `exc`
    names it or BaseException.
   */
  lemma {:induction false} AssertRaisesCallDeparts(expected: ExcKind, func: Outcome)
    ensures AssertRaisesCall(expected, func) != AssertRaisesIntended(expected, func) <==>
      (func.Returned? && IsSubclass(AssertionError, expected)) ||
      (func.Raised? && !IsInstance(func.exc, Exception) && IsInstance(func.exc, expected))
  {
    if func.Returned? {
      assert IsInstance(NotRaised(expected), Exception);
    }
  }

  /** `self.assertRaises(Exception, f)` with an `f` that returns: the written code passes. */
  lemma AssertRaisesSwallowsItsOwnFailure()
    ensures AssertRaisesCall(Exception, Returned) == Returned
    ensures AssertRaisesIntended(Exception, Returned) == Raised(NotRaised(Exception))
  {
    assert IsSubclass(AssertionError, Exception);
  }

  /** `self.assertRaises(KeyboardInterrupt, f)` with an `f` that raises KeyboardInterrupt: the written code lets it escape. */
  lemma AssertRaisesMissesBaseExceptions()
    ensures AssertRaisesCall(KeyboardInterrupt, Raised(Exc(KeyboardInterrupt, []))) == Raised(Exc(KeyboardInterrupt, []))
    ensures AssertRaisesIntended(KeyboardInterrupt, Raised(Exc(KeyboardInterrupt, []))) == Returned
  {
  }

  /** The written code agrees with the intended one on every call that raises an Exception. */
  lemma AssertRaisesCallOnExceptions(expected: ExcKind, e: Exc)
    requires IsInstance(e, Exception)
    ensures AssertRaisesCall(expected, Raised(e)) == AssertRaisesIntended(expected, Raised(e))
  {
  }

  /** What `assertRaises(exc, func=None, ...)` gives back: a context manager, or the call's effect. */
  datatype RaisesForm = ContextManager(ctx: AssertRaisesContext) | Called(outcome: Outcome)

  /**
    `assertRaises(exc)` without a function returns the context manager; with one it
    calls it, with the effect the code as written has.
   */
  function AssertRaises(expected: ExcKind, func: Option<Outcome>): (r: RaisesForm)
    ensures func.None? <==> r == ContextManager(AssertRaisesContext(expected))
    ensures func.Some? ==> r.Called?
    ensures func.Some? && func.value.Returned? ==> (r.outcome.Returned? <==> IsSubclass(AssertionError, expected))
    ensures func.Some? && func.value.Returned? && r.outcome.Raised? ==> r.outcome.exc == NotRaised(expected)
    ensures func.Some? && func.value.Raised? && !IsInstance(func.value.exc, Exception) ==> r.outcome == func.value
    ensures func.Some? && func.value.Raised? && IsInstance(func.value.exc, Exception) ==>
      (r.outcome.Returned? <==> IsInstance(func.value.exc, expected))
    ensures func.Some? && func.value.Raised? && r.outcome.Raised? ==> r.outcome == func.value
  {
    match func
    case None => ContextManager(AssertRaisesContext(expected))
    case Some(f) => Called(AssertRaisesCall(expected, f))
  }

  // ---------------------------------------------------------------------------
  // assertAlmostEqual / assertNotAlmostEqual on integers
  // ---------------------------------------------------------------------------

  /** `abs(x - y)`. */
  function Distance(x: int, y: int): nat {
    if x >= y then x - y else y - x
  }

  /** The TypeError both checks raise when given `places` and `delta` together. */
  const BothGiven := Exc(TypeError, ["specify delta or places not both"])

  /** `msg` when it is not empty, else the default message. */
  function MessageOr(msg: string, default: string): string {
    if msg == "" then default else msg
  }

  /** The number of places used when `places` is None. */
  const DefaultPlaces := 7

  function PlacesUsed(places: Option<int>): int {
    if places.Some? then places.value else DefaultPlaces
  }

  /**
    `assertAlmostEqual(x, y, places, msg, delta)` on integers. `placesClose` stands for
    `round(abs(y-x), places) == 0` as the interpreter computes it; it is read only in
    the places branch.
   */
  function AssertAlmostEqual(x: int, y: int, places: Option<int>, msg: string, delta: Option<int>,
                             placesClose: bool): (r: Outcome)
    ensures x != y && delta.None? ==> (r.Returned? <==> placesClose)
    ensures r.Raised? ==> r.exc == BothGiven || (r.exc.kind == AssertionError && |r.exc.args| == 1)
    ensures r.Raised? && r.exc != BothGiven && msg != "" ==> r.exc.args == [msg]
  {
    if x == y then Returned
    else if delta.Some? && places.Some? then Raised(BothGiven)
    else if delta.Some? then
      if Distance(x, y) <= delta.value then Returned
      else Raised(AssertionFailure(MessageOr(msg,
        IntRepr(x) + " != " + IntRepr(y) + " within " + IntRepr(delta.value) + " delta")))
    else
      if placesClose then Returned
      else Raised(AssertionFailure(MessageOr(msg,
        IntRepr(x) + " != " + IntRepr(y) + " within " + IntRepr(PlacesUsed(places)) + " places")))
  }

  /** `assertNotAlmostEqual(x, y, places, msg, delta)` on integers; `placesClose` as above. */
  function AssertNotAlmostEqual(x: int, y: int, places: Option<int>, msg: string, delta: Option<int>,
                                placesClose: bool): (r: Outcome)
    ensures delta.None? ==> (r.Returned? <==> x != y && !placesClose)
    ensures r.Raised? ==> r.exc == BothGiven || (r.exc.kind == AssertionError && |r.exc.args| == 1)
    ensures r.Raised? && r.exc != BothGiven && msg != "" ==> r.exc.args == [msg]
  {
    if delta.Some? && places.Some? then Raised(BothGiven)
    else if delta.Some? then
      if x != y && Distance(x, y) > delta.value then Returned
      else Raised(AssertionFailure(MessageOr(msg,
        IntRepr(x) + " == " + IntRepr(y) + " within " + IntRepr(delta.value) + " delta")))
    else
      if x != y && !placesClose then Returned
      else Raised(AssertionFailure(MessageOr(msg,
        IntRepr(x) + " == " + IntRepr(y) + " within " + IntRepr(PlacesUsed(places)) + " places")))
  }

  /**
    The order of the argument check: assertAlmostEqual passes equal values before it
    looks at its arguments, so it rejects `places` with `delta` only for unequal
    values; assertNotAlmostEqual rejects them whatever the values.
   */
  lemma AlmostEqualValidationOrder(x: int, y: int, places: Option<int>, msg: string, delta: Option<int>,
                                   placesClose: bool)
    ensures x == y ==> AssertAlmostEqual(x, y, places, msg, delta, placesClose) == Returned
    ensures AssertAlmostEqual(x, y, places, msg, delta, placesClose) == Raised(BothGiven) <==>
      x != y && places.Some? && delta.Some?
    ensures AssertNotAlmostEqual(x, y, places, msg, delta, placesClose) == Raised(BothGiven) <==>
      places.Some? && delta.Some?
  {
  }

  /** With `delta` alone: almost equal passes iff `|x-y| <= delta`, otherwise an AssertionError. */
  lemma AlmostEqualDelta(x: int, y: int, msg: string, d: int, placesClose: bool)
    ensures var r := AssertAlmostEqual(x, y, None, msg, Some(d), placesClose);
      (r.Returned? <==> x == y || Distance(x, y) <= d)
      && (r.Raised? ==> r.exc.kind == AssertionError && |r.exc.args| == 1)
      && (r.Raised? && msg != "" ==> r.exc.args == [msg])
  {
  }

  /** With `delta` alone: not almost equal passes iff `x != y` and `|x-y| > delta`. */
  lemma NotAlmostEqualDelta(x: int, y: int, msg: string, d: int, placesClose: bool)
    ensures var r := AssertNotAlmostEqual(x, y, None, msg, Some(d), placesClose);
      (r.Returned? <==> x != y && Distance(x, y) > d)
      && (r.Raised? ==> r.exc.kind == AssertionError && |r.exc.args| == 1)
      && (r.Raised? && msg != "" ==> r.exc.args == [msg])
  {
  }

  /**
    Unless both `places` and `delta` are given, exactly one of the two checks passes
    on any pair of values (for the places branch, given the same rounding).
   */
  lemma AlmostEqualComplementary(x: int, y: int, places: Option<int>, msg: string, delta: Option<int>,
                                 placesClose: bool)
    requires !(places.Some? && delta.Some?)
    ensures AssertAlmostEqual(x, y, places, msg, delta, placesClose).Returned? !=
            AssertNotAlmostEqual(x, y, places, msg, delta, placesClose).Returned?
  {
  }

  /** The default failure message names both values and the tolerance, `x != y` first. */
  lemma AlmostEqualDefaultMessage(x: int, y: int, d: int)
    requires x != y && Distance(x, y) > d
    ensures AssertAlmostEqual(x, y, None, "", Some(d), false) ==
      Raised(AssertionFailure(IntRepr(x) + " != " + IntRepr(y) + " within " + IntRepr(d) + " delta"))
  {
  }

  // ---------------------------------------------------------------------------
  // assertTrue and the yes/no replies
  // ---------------------------------------------------------------------------

  /** `assertTrue(x, msg)` for a boolean `x`. */
  function AssertTrue(x: bool, msg: string): (r: Outcome)
    ensures r.Returned? <==> x
    ensures r.Raised? ==> r.exc == AssertionFailure(MessageOr(msg, "Expected False to be True"))
  {
    if x then Returned else Raised(AssertionFailure(MessageOr(msg, "Expected False to be True")))
  }

  /** The replies accepted as yes, once lower-cased. */
  predicate IsYes(reply: string) {
    Lower(reply) in {"y", "yes", ""}
  }

  /** The replies accepted as no, once lower-cased. */
  predicate IsNo(reply: string) {
    Lower(reply) in {"n", "no", ""}
  }

  const YesPrompt := " ([yes]/no)>>> "
  const NoPrompt := " (yes/[no])>>> "

  /** What asking the user produces: the prompt shown and the outcome of the check. */
  datatype Asked<T> = Asked(prompt: string, result: T)

  /** `assertUserAnswersYes(text, msg)`, with `reply` the line the user typed. */
  function AssertUserAnswersYes(text: string, reply: string, msg: string): (r: Asked<Outcome>)
    ensures r.prompt == text + YesPrompt
    ensures r.result.Returned? <==> IsYes(reply)
  {
    Asked(text + YesPrompt, AssertTrue(IsYes(reply), msg))
  }

  /** `assertUserAnswersNo(text, msg)`, with `reply` the line the user typed. */
  function AssertUserAnswersNo(text: string, reply: string, msg: string): (r: Asked<Outcome>)
    ensures r.prompt == text + NoPrompt
    ensures r.result.Returned? <==> IsNo(reply)
  {
    Asked(text + NoPrompt, AssertTrue(IsNo(reply), msg))
  }

  /** `request_user_confirmation(text)`, with `reply` the line the user typed. */
  function RequestUserConfirmation(text: string, reply: string): (r: Asked<bool>)
    ensures r.prompt == text + YesPrompt
    ensures r.result == IsYes(reply)
  {
    Asked(text + YesPrompt, IsYes(reply))
  }

  /** Lower-casing keeps the length and maps each character. */
  lemma LowerAt(s: string, i: int)
    requires 0 <= i < |s|
    ensures |Lower(s)| == |s| && Lower(s)[i] == LowerChar(s[i])
  {
  }

  /** A lower-cased letter is 'y' exactly when the typed letter is 'y' or 'Y', and so on. */
  lemma LowerCharIs(c: char, l: char)
    requires 'a' <= l <= 'z'
    ensures LowerChar(c) == l <==> c == l || c == (l as int - 32) as char
  {
  }

  /** The yes replies, character by character: "", "y" and "yes" in any mix of cases. */
  lemma {:induction false} YesReplies(reply: string)
    ensures IsYes(reply) <==>
      reply == [] ||
      (|reply| == 1 && reply[0] in "yY") ||
      (|reply| == 3 && reply[0] in "yY" && reply[1] in "eE" && reply[2] in "sS")
  {
    var l := Lower(reply);
    assert |l| == |reply|;
    if |reply| == 1 {
      LowerCharIs(reply[0], 'y');
      assert l == [LowerChar(reply[0])];
    } else if |reply| == 3 {
      LowerCharIs(reply[0], 'y');
      LowerCharIs(reply[1], 'e');
      LowerCharIs(reply[2], 's');
      assert l == [LowerChar(reply[0]), LowerChar(reply[1]), LowerChar(reply[2])];
    }
  }

  /** The no replies, character by character: "", "n" and "no" in any mix of cases. */
  lemma {:induction false} NoReplies(reply: string)
    ensures IsNo(reply) <==>
      reply == [] ||
      (|reply| == 1 && reply[0] in "nN") ||
      (|reply| == 2 && reply[0] in "nN" && reply[1] in "oO")
  {
    var l := Lower(reply);
    assert |l| == |reply|;
    if |reply| == 1 {
      LowerCharIs(reply[0], 'n');
      assert l == [LowerChar(reply[0])];
    } else if |reply| == 2 {
      LowerCharIs(reply[0], 'n');
      LowerCharIs(reply[1], 'o');
      assert l == [LowerChar(reply[0]), LowerChar(reply[1])];
    }
  }

  /** An empty reply is both a yes and a no, and it is the only reply that is both. */
  lemma EmptyReplyIsBoth(reply: string)
    ensures IsYes(reply) && IsNo(reply) <==> reply == []
  {
    YesReplies(reply);
    NoReplies(reply);
  }

  /** `request_user_confirmation` accepts exactly the replies `assertUserAnswersYes` accepts. */
  lemma ConfirmationIsYesCheck(text: string, reply: string, msg: string)
    ensures RequestUserConfirmation(text, reply).result <==>
            AssertUserAnswersYes(text, reply, msg).result.Returned?
    ensures RequestUserConfirmation(text, reply).prompt == AssertUserAnswersYes(text, reply, msg).prompt
  {
  }
}
