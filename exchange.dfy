/**
 * The message exchange that expressions are evaluated over, the values it carries,
 * and the collaborators of the runtime (type converter, class resolver, OGNL helpers,
 * method-call navigator, regular expressions, date formatting, clock, system
 * environment) that the expressions call but that are not modelled here.
 */
module Exchanges {
  import opened Wrappers

  // Names of the well-known headers and properties the expressions read.
  const EXCEPTION_CAUGHT := "CamelExceptionCaught"
  const FILE_NAME := "CamelFileName"
  const FILE_NAME_ONLY := "CamelFileNameOnly"
  const FILE_LAST_MODIFIED := "CamelFileLastModified"
  const FILE_LENGTH := "CamelFileLength"
  const FILE_PARENT := "CamelFileParent"
  const FILE_PATH := "CamelFilePath"
  const FILE_ABSOLUTE_PATH := "CamelFileAbsolutePath"
  const FILE_ABSOLUTE := "CamelFileAbsolute"

  /** A Java class, identified by its fully qualified name. */
  type TypeName = string

  const OBJECT_TYPE: TypeName := "java.lang.Object"
  const STRING_TYPE: TypeName := "java.lang.String"
  const LONG_TYPE: TypeName := "java.lang.Long"
  const BOOLEAN_TYPE: TypeName := "java.lang.Boolean"
  const DATE_TYPE: TypeName := "java.util.Date"
  const EXCEPTION_TYPE: TypeName := "java.lang.Exception"

  /** The exceptions an evaluation can raise. */
  datatype Error =
    | ClassNotFound(message: string)      // java.lang.ClassNotFoundException
    | InvalidPayload(typeName: TypeName)  // the body cannot be converted to the mandatory type
    | IllegalArgument(message: string)    // java.lang.IllegalArgumentException
    | IndexOutOfBounds(index: int)        // a list was asked for an element it does not have
    | NullPointer                         // a method was called on null
    | Foreign(detail: string)             // raised inside a collaborator (navigation, conversion, ...)
    | Execution(cause: Error)             // CamelExecutionException wrapping its cause

  /** A Java object as seen by an expression; `Null` is the null reference. */
  datatype Value =
    | Null
    | Str(s: string)
    | Long(n: int)
    | Bool(b: bool)
    | Date(millis: int)
    | ClassRef(name: TypeName)
    | Thrown(error: Error)
    | BeanInvocation(args: Option<seq<Value>>)   // a method invocation whose argument array may be null
    | Obj(className: TypeName, text: string)     // any other object, with its toString text

  /** A message: its headers (a missing header reads as null), its body and its fault flag. */
  datatype Message = Message(headers: map<string, Value>, body: Value, fault: bool)

  /** An exchange: the inbound message, the outbound message if one was created, the properties and the exception. */
  datatype Exchange = Exchange(
    inbound: Message,
    outbound: Option<Message>,
    properties: map<string, Value>,
    exception: Option<Error>)
  {
    /** Exchange.hasOut() */
    predicate HasOut() {
      outbound.Some?
    }
  }

  /** What FileUtil is asked to do with a file name. */
  datatype FileOp = StripPath | StripExt(single: bool) | OnlyExt(single: bool)

  /**
   * The runtime collaborators. Each field stands for code outside this model and is
   * left uninterpreted: the expressions only route values to and from them.
   */
  datatype Context = Context(
    classes: map<TypeName, map<string, Value>>,             // resolvable classes with their constant fields
    convert: (Value, TypeName) -> Value,                     // the type converter on a non-null value; Null if not convertible
    classOf: Value -> TypeName,                              // Object.getClass() on a non-null value
    splitOgnl: string -> seq<string>,                        // OgnlHelper.splitOgnl
    removeOperators: string -> string,                       // OgnlHelper.removeOperators
    after: (string, string) -> Option<string>,               // ObjectHelper.after(text, key)
    navigate: (Value, Option<string>) -> Result<Value, Error>, // new MethodCallExpression(value, ognl).evaluate(exchange)
    replaceAll: (string, string, string) -> string,          // Pattern.compile(regex).matcher(text).replaceAll(replacement)
    formatDate: (string, int) -> string,                     // new SimpleDateFormat(pattern).format(date)
    now: int,                                                // the clock, read by new Date()
    systemProperties: map<string, string>,                   // System.getProperty
    environment: map<string, string>,                        // System.getenv
    fileUtil: (FileOp, Option<string>) -> Option<string>,    // FileUtil.stripPath / stripExt / onlyExt
    exceptionMessage: Error -> Option<string>,               // Throwable.getMessage()
    findException: (TypeName, Value) -> Value                // ObjectHelper.getException(type, exception)
  )

  /** Map lookup where a missing key reads as null, as Message.getHeader and Exchange.getProperty do. */
  function Get(m: map<string, Value>, key: string): Value {
    if key in m then m[key] else Null
  }

  /** Conversion of a value to a type: null stays null, anything else goes to the type converter. */
  function Convert(v: Value, t: TypeName, ctx: Context): (r: Value)
    ensures v == Null ==> r == Null
  {
    if v == Null then Null else ctx.convert(v, t)
  }

  /** A typed lookup, getHeader(name, type) or getProperty(name, type). */
  function TypedGet(m: map<string, Value>, key: string, t: TypeName, ctx: Context): (r: Value)
    ensures Get(m, key) == Null ==> r == Null
  {
    Convert(Get(m, key), t, ctx)
  }

  /** The result of a conversion to String, as a Java String reference. */
  function AsText(v: Value): Option<string> {
    if v.Str? then Some(v.s) else None
  }

  /** The result of a conversion to Long, as a Java Long reference. */
  function AsLong(v: Value): Option<int> {
    if v.Long? then Some(v.n) else None
  }

  /** The result of a conversion to Date, as a Java Date reference. */
  function AsDate(v: Value): Option<int> {
    if v.Date? then Some(v.millis) else None
  }

  /** The result of a conversion to Exception, as a Java Exception reference. */
  function AsException(v: Value): (r: Value)
    ensures r == Null || r.Thrown?
  {
    if v.Thrown? then v else Null
  }

  /** A Java String reference that may be null, as a value. */
  function TextValue(t: Option<string>): Value {
    if t.Some? then Str(t.value) else Null
  }

  /** Java's String.valueOf on a String reference: null becomes the text "null". */
  function JavaText(t: Option<string>): string {
    if t.Some? then t.value else "null"
  }

  /** The decimal digits of a natural number. */
  function Digits(n: nat): (r: string)
    ensures |r| >= 1
    decreases n
  {
    var d := "0123456789"[n % 10];
    if n < 10 then [d] else Digits(n / 10) + [d]
  }

  /** Long.toString */
  function IntText(n: int): string {
    if n < 0 then "-" + Digits(-n) else Digits(n)
  }

  /**
   * The toString text of a value, as `"" + value` produces it. Dates, exceptions and
   * bean invocations have library- and locale-dependent texts; they get a fixed tag.
   */
  function Show(v: Value): string {
    match v
    case Null => "null"
    case Str(s) => s
    case Long(n) => IntText(n)
    case Bool(b) => if b then "true" else "false"
    case ClassRef(name) => "class " + name
    case Obj(_, text) => text
    case Date(_) => "<date>"
    case Thrown(_) => "<exception>"
    case BeanInvocation(_) => "<bean invocation>"
  }

  /**
   * The exchange object that processors update in place. `state` is its whole
   * observable content.
   */
  class MutableExchange {
    var state: Exchange

    constructor(initial: Exchange)
      ensures state == initial
    {
      state := initial;
    }

    /** Exchange.getException() */
    function GetException(): Option<Error>
      reads this
    {
      state.exception
    }

    /** Exchange.setProperty(name, value): only that property changes. */
    method SetProperty(name: string, value: Value)
      modifies this
      ensures state == old(state).(properties := old(state).properties[name := value])
    {
      state := state.(properties := state.properties[name := value]);
    }

    /** Exchange.setException(e) */
    method SetException(e: Error)
      modifies this
      ensures state == old(state).(exception := Some(e))
    {
      state := state.(exception := Some(e));
    }
  }
}
