/**
 * The processor that sets an exchange property to the value of an expression, and the
 * completion callback it signals.
 */
module SetPropertyProcessors {
  import opened Wrappers
  import opened Exchanges
  import opened ExpressionBuilder

  /** What evaluating an expression did: its value or the exception it threw, and the exchange afterwards. */
  datatype Evaluated = Evaluated(outcome: Result<Value, Error>, after: Exchange)

  /**
   * An expression as the processor sees it: its toString text and its evaluation, which
   * may itself change the exchange (an expression may record an exception on it instead
   * of throwing).
   */
  datatype Evaluator = Evaluator(text: string, evaluate: Exchange -> Evaluated)

  /** A modelled expression as the processor sees it: evaluation leaves the exchange as it was. */
  function EvaluatorOf(e: Expr, ctx: Context): (r: Evaluator)
    ensures r.text == Describe(e)
    ensures forall ex :: r.evaluate(ex) == Evaluated(Eval(e, ex, ctx), ex)
  {
    Evaluator(Describe(e), ex => Evaluated(Eval(e, ex, ctx), ex))
  }

  /** The exchange after process(), given what the evaluation did. */
  function Processed(name: string, ev: Evaluated): (r: Exchange)
    // the messages are as the evaluation left them
    ensures r.inbound == ev.after.inbound && r.outbound == ev.after.outbound
    // no property other than `name` changes
    ensures forall k :: k != name ==> Get(r.properties, k) == Get(ev.after.properties, k)
    ensures r.properties.Keys <= ev.after.properties.Keys + {name}
    // `name` is set exactly when the evaluation returned and left no exception
    ensures ev.outcome.Ok? && ev.after.exception.None? ==> name in r.properties && r.properties[name] == ev.outcome.value
    ensures !(ev.outcome.Ok? && ev.after.exception.None?) ==> r.properties == ev.after.properties
    // a thrown exception is recorded; otherwise the exception is the one the evaluation left
    ensures ev.outcome.Err? ==> r.exception == Some(ev.outcome.error)
    ensures ev.outcome.Ok? ==> r.exception == ev.after.exception
  {
    match ev.outcome
    case Err(e) => ev.after.(exception := Some(e))
    case Ok(v) =>
      if ev.after.exception.Some? then ev.after
      else ev.after.(properties := ev.after.properties[name := v])
  }

  /** With a modelled expression, an exchange that already carries an exception is left exactly as it was. */
  lemma ExistingExceptionBailsOut(name: string, e: Expr, ex: Exchange, ctx: Context)
    requires ex.exception.Some?
    ensures var ev := EvaluatorOf(e, ctx).evaluate(ex);
            Processed(name, ev) == ex || (Eval(e, ex, ctx).Err? && Processed(name, ev) == ex.(exception := Some(Eval(e, ex, ctx).error)))
  {
  }

  /** With a modelled expression on an exchange without exception, the property receives the value. */
  lemma ValueIsStored(name: string, e: Expr, ex: Exchange, ctx: Context, v: Value)
    requires ex.exception.None? && Eval(e, ex, ctx) == Ok(v)
    ensures Processed(name, EvaluatorOf(e, ctx).evaluate(ex)) == ex.(properties := ex.properties[name := v])
  {
  }

  /** AsyncCallback: records every done(doneSync) signal it receives. */
  class AsyncCallback {
    var doneCalls: seq<bool>

    constructor()
      ensures doneCalls == []
    {
      doneCalls := [];
    }

    method Done(doneSync: bool)
      modifies this
      ensures doneCalls == old(doneCalls) + [doneSync]
    {
      doneCalls := doneCalls + [doneSync];
    }
  }

  class SetPropertyProcessor {
    const propertyName: string
    const expression: Evaluator

    constructor(propertyName: string, expression: Evaluator)
      ensures this.propertyName == propertyName && this.expression == expression
    {
      this.propertyName := propertyName;
      this.expression := expression;
    }

    /**
     * process(exchange, callback): evaluate; bail out if the exchange then carries an
     * exception; otherwise set the property, or record what the evaluation threw.
     * Every path signals done(true) once and completes synchronously.
     */
    method Process(exchange: MutableExchange, callback: AsyncCallback) returns (r: bool)
      modifies exchange, callback
      ensures r
      ensures callback.doneCalls == old(callback.doneCalls) + [true]
      ensures exchange.state == Processed(propertyName, expression.evaluate(old(exchange.state)))
    {
      var evaluated := expression.evaluate(exchange.state);
      // whatever the evaluation itself did to the exchange
      exchange.state := evaluated.after;
      match evaluated.outcome {
        case Err(e) =>
          exchange.SetException(e);
        case Ok(newProperty) =>
          if exchange.GetException().Some? {
            callback.Done(true);
            return true;
          }
          exchange.SetProperty(propertyName, newProperty);
      }
      callback.Done(true);
      return true;
    }

    /** toString(): "SetProperty(" name ", " expression ")". */
    function ToString(): (r: string)
      ensures "SetProperty(" <= r && r[|r| - 1] == ')'
      ensures r[12..|r| - 1] == propertyName + ", " + expression.text
    {
      "SetProperty(" + propertyName + ", " + expression.text + ")"
    }

    /** getTraceLabel(): "setProperty[" name ", " expression "]", the same inner text as toString. */
    function TraceLabel(): (r: string)
      ensures "setProperty[" <= r && r[|r| - 1] == ']'
      ensures r[12..|r| - 1] == ToString()[12..|ToString()| - 1]
    {
      "setProperty[" + propertyName + ", " + expression.text + "]"
    }
  }
}
