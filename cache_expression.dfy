/**
 * cacheExpression: an expression that remembers the first non-null value its wrapped
 * expression produced, in one mutable slot, and serves that value from then on.
 * A null slot means "unset", so a null result is never remembered.
 */
module CacheExpression {
  import opened Wrappers
  import opened Exchanges
  import opened ExpressionBuilder

  /** The outcome of one evaluation of the cached expression: its result and the slot afterwards. */
  datatype Step = Step(result: Result<Value, Error>, slot: Value)

  /** One evaluation of the cached expression, starting from the slot `slot`. */
  function CacheStep(slot: Value, e: Expr, ex: Exchange, ctx: Context): (s: Step)
    // a set slot is served without evaluating, and stays as it is
    ensures slot != Null ==> s == Step(Ok(slot), slot)
    // an unset slot evaluates the wrapped expression and returns what it returns
    ensures slot == Null ==> s.result == Eval(e, ex, ctx)
    // ... and remembers a value, which may be null again
    ensures slot == Null && s.result.Ok? ==> s.slot == s.result.value
    // an exception escapes and leaves the slot unset
    ensures s.result.Err? ==> s.slot == slot
  {
    if slot != Null then Step(Ok(slot), slot)
    else
      match Eval(e, ex, ctx)
      case Ok(v) => Step(Ok(v), v)
      case Err(err) => Step(Err(err), slot)
  }

  /** Successive evaluations on a sequence of exchanges: the results, the final slot, and how often the wrapped expression ran. */
  datatype Run = Run(results: seq<Result<Value, Error>>, slot: Value, evaluations: nat)

  function CacheRun(slot: Value, e: Expr, exs: seq<Exchange>, ctx: Context): (run: Run)
    ensures |run.results| == |exs|
    ensures run.evaluations <= |exs|
    decreases |exs|
  {
    if |exs| == 0 then Run([], slot, 0)
    else
      var step := CacheStep(slot, e, exs[0], ctx);
      var rest := CacheRun(step.slot, e, exs[1..], ctx);
      Run([step.result] + rest.results, rest.slot, rest.evaluations + (if slot == Null then 1 else 0))
  }

  /** Once the slot holds a value, every evaluation returns it and the wrapped expression never runs again. */
  lemma {:induction false} SetSlotIsServed(slot: Value, e: Expr, exs: seq<Exchange>, ctx: Context)
    requires slot != Null
    ensures var run := CacheRun(slot, e, exs, ctx);
            run.slot == slot && run.evaluations == 0 &&
            forall i :: 0 <= i < |exs| ==> run.results[i] == Ok(slot)
    decreases |exs|
  {
    if |exs| > 0 {
      SetSlotIsServed(slot, e, exs[1..], ctx);
    }
  }

  /**
   * From an unset slot, a first evaluation that yields a non-null value fixes the result
   * of every later evaluation, and the wrapped expression runs exactly once.
   */
  lemma {:induction false} FirstValueWins(e: Expr, exs: seq<Exchange>, ctx: Context, v: Value)
    requires |exs| > 0 && v != Null && Eval(e, exs[0], ctx) == Ok(v)
    ensures var run := CacheRun(Null, e, exs, ctx);
            run.slot == v && run.evaluations == 1 &&
            forall i :: 0 <= i < |exs| ==> run.results[i] == Ok(v)
  {
    SetSlotIsServed(v, e, exs[1..], ctx);
  }

  /** An expression whose value is null is evaluated anew on every call: null is never remembered. */
  lemma {:induction false} NullIsNeverRemembered(e: Expr, exs: seq<Exchange>, ctx: Context)
    requires forall i :: 0 <= i < |exs| ==> Eval(e, exs[i], ctx) == Ok(Null)
    ensures var run := CacheRun(Null, e, exs, ctx);
            run.slot == Null && run.evaluations == |exs| &&
            forall i :: 0 <= i < |exs| ==> run.results[i] == Ok(Null)
    decreases |exs|
  {
    if |exs| > 0 {
      assert forall i :: 0 <= i < |exs| - 1 ==> exs[1..][i] == exs[i + 1];
      NullIsNeverRemembered(e, exs[1..], ctx);
    }
  }

  /** cache(constant(V)) with V not null returns V on every call and evaluates the constant once. */
  lemma CachedConstant(v: Value, exs: seq<Exchange>, ctx: Context)
    requires v != Null && |exs| > 0
    ensures var run := CacheRun(Null, Constant(v), exs, ctx);
            run.evaluations == 1 && forall i :: 0 <= i < |exs| ==> run.results[i] == Ok(v)
  {
    FirstValueWins(Constant(v), exs, ctx, v);
  }

  /** cache(constant(null)) evaluates the constant on every call. */
  lemma CachedNullConstant(exs: seq<Exchange>, ctx: Context)
    ensures CacheRun(Null, Constant(Null), exs, ctx).evaluations == |exs|
  {
    NullIsNeverRemembered(Constant(Null), exs, ctx);
  }

  /** The expression returned by cacheExpression, with its slot. */
  class CachedExpression {
    const expression: Expr
    var cache: Value
    /** How often the wrapped expression has been evaluated: the side effects it could have had. */
    ghost var evaluations: nat

    constructor(expression: Expr)
      ensures this.expression == expression && cache == Null && evaluations == 0
    {
      this.expression := expression;
      cache := Null;
      evaluations := 0;
    }

    /** evaluate(exchange): read the slot, and on an unset slot evaluate the wrapped expression and store its value. */
    method Evaluate(ex: Exchange, ctx: Context) returns (r: Result<Value, Error>)
      modifies this
      ensures Step(r, cache) == CacheStep(old(cache), expression, ex, ctx)
      ensures evaluations == old(evaluations) + (if old(cache) == Null then 1 else 0)
    {
      var answer := cache;
      if answer == Null {
        evaluations := evaluations + 1;
        var result := Eval(expression, ex, ctx);
        if result.Err? {
          return result;
        }
        answer := result.value;
        cache := answer;
      }
      return Ok(answer);
    }

    /** toString(): the text of the wrapped expression. */
    function ToString(): (r: string)
      ensures r == Describe(expression)
    {
      Describe(expression)
    }
  }
}
