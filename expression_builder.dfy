/**
 * The expression factory: one constructor of `Expr` per factory method, `Eval` for what
 * the built expression returns when evaluated on an exchange, and `Describe` for its
 * toString text. The lookup expressions share `Fallback` (first non-null of two values);
 * a family of helpers below carries the contracts of the individual lookups.
 */
module ExpressionBuilder {
  import opened Wrappers
  import opened Exchanges

  /** The file-name expressions, which read the file headers set by the file consumer. */
  datatype FileKind =
    | FileName | FileOnlyName | FileNameNoExt | FileNameNoExtSingle
    | FileOnlyNameNoExt | FileOnlyNameNoExtSingle | FileExt | FileExtSingle
    | FileParent | FilePath | FileAbsolutePath | FileAbsolute | FileSize | FileLastModified

  datatype Expr =
    | Header(name: string)                                   // headerExpression(name)
    | HeaderAs(name: string, typeName: TypeName)             // headerExpression(name, Class type)
    | HeaderAsClassName(name: string, className: string)     // headerExpression(name, String className)
    | HeadersOgnl(ognl: string)                              // headersOgnlExpression
    | OutHeader(name: string)                                // outHeaderExpression
    | ExchangeException                                      // exchangeExceptionExpression()
    | ExchangeExceptionOf(typeName: TypeName)                // exchangeExceptionExpression(type)
    | ExchangeExceptionOgnl(ognl: string)                    // exchangeExceptionOgnlExpression
    | ExchangeExceptionMessage                               // exchangeExceptionMessageExpression
    | ExchangeProperty(name: string)                         // propertyExpression, exchangePropertyExpression
    | PropertyOgnl(ognl: string)                             // propertyOgnlExpression
    | SystemProperty(name: string, defaultValue: Option<string>)    // systemPropertyExpression
    | SystemEnvironment(name: string, defaultValue: Option<string>) // systemEnvironmentExpression
    | Constant(value: Value)                                 // constantExpression
    | Type(name: string)                                     // typeExpression
    | Body                                                   // bodyExpression()
    | BodyOgnl(ognl: string)                                 // bodyOgnlExpression
    | Ognl(target: Expr, ognl: string)                       // ognlExpression
    | BodyAs(typeName: TypeName)                             // bodyExpression(Class type)
    | BodyAsClassName(className: string)                     // bodyExpression(String name)
    | MandatoryBodyAsClassName(className: string)            // mandatoryBodyExpression(String name)
    | MandatoryBodyAs(typeName: TypeName, nullBodyAllowed: bool) // mandatoryBodyExpression(type[, nullBodyAllowed])
    | NullValue                                              // nullExpression
    | BodyType                                               // bodyTypeExpression
    | OutBody                                                // outBodyExpression()
    | OutBodyAs(typeName: TypeName)                          // outBodyExpression(type)
    | FaultBody                                              // faultBodyExpression()
    | FaultBodyAs(typeName: TypeName)                        // faultBodyExpression(type)
    | ConvertTo(target: Expr, typeName: TypeName)            // convertToExpression(expression, type), type non-null
    | RegexReplaceAll(target: Expr, regex: string, replacement: string)
    | RegexReplaceAllBy(target: Expr, regex: string, replacementExpr: Expr)
    | Append(left: Expr, right: Expr)
    | Prepend(left: Expr, right: Expr)
    | Concat(expressions: seq<Expr>, description: Option<string>)
    | DateOf(command: string, pattern: string)               // dateExpression
    | File(kind: FileKind)

  // ---------------------------------------------------------------------------
  // Lookups with fallback

  /** The first of two candidates that is not null: the pattern of every header/property fallback. */
  function Fallback(primary: Value, secondary: Value): (r: Value)
    ensures primary != Null ==> r == primary
    ensures r != primary ==> r == secondary
    ensures r == Null <==> primary == Null && secondary == Null
  {
    if primary != Null then primary else secondary
  }

  /** What headerExpression(name) returns: the inbound header, else the exchange property. */
  function HeaderOrProperty(ex: Exchange, name: string): (r: Value)
    ensures Get(ex.inbound.headers, name) != Null ==> r == Get(ex.inbound.headers, name)
    ensures Get(ex.inbound.headers, name) == Null ==> r == Get(ex.properties, name)
    ensures r == Null <==> Get(ex.inbound.headers, name) == Null && Get(ex.properties, name) == Null
  {
    Fallback(Get(ex.inbound.headers, name), Get(ex.properties, name))
  }

  /**
   * What headerExpression(name, type) returns: both lookups convert to the type, so a
   * header that does not convert falls through to the property as if it were missing.
   */
  function TypedHeaderOrProperty(ex: Exchange, name: string, t: TypeName, ctx: Context): (r: Value)
    ensures TypedGet(ex.inbound.headers, name, t, ctx) != Null ==> r == TypedGet(ex.inbound.headers, name, t, ctx)
    ensures TypedGet(ex.inbound.headers, name, t, ctx) == Null ==> r == TypedGet(ex.properties, name, t, ctx)
    ensures Get(ex.inbound.headers, name) == Null && Get(ex.properties, name) == Null ==> r == Null
  {
    Fallback(TypedGet(ex.inbound.headers, name, t, ctx), TypedGet(ex.properties, name, t, ctx))
  }

  /**
   * What outHeaderExpression(name) returns: null when there is no out message, whatever
   * the properties hold; otherwise the out header, else the exchange property.
   */
  function OutHeaderOrProperty(ex: Exchange, name: string): (r: Value)
    ensures !ex.HasOut() ==> r == Null
    ensures ex.HasOut() && Get(ex.outbound.value.headers, name) != Null ==> r == Get(ex.outbound.value.headers, name)
    ensures ex.HasOut() && Get(ex.outbound.value.headers, name) == Null ==> r == Get(ex.properties, name)
  {
    if !ex.HasOut() then Null else Fallback(Get(ex.outbound.value.headers, name), Get(ex.properties, name))
  }

  /** The exception set on the exchange, as a value. */
  function ExceptionValue(ex: Exchange): (r: Value)
    ensures r == Null <==> ex.exception.None?
    ensures ex.exception.Some? ==> r == Thrown(ex.exception.value)
  {
    if ex.exception.Some? then Thrown(ex.exception.value) else Null
  }

  /** The EXCEPTION_CAUGHT property read as an Exception. */
  function CaughtProperty(ex: Exchange, ctx: Context): Value {
    AsException(TypedGet(ex.properties, EXCEPTION_CAUGHT, EXCEPTION_TYPE, ctx))
  }

  /**
   * The exception seen by the exception expressions: the exchange's own exception,
   * else the exception recorded in the EXCEPTION_CAUGHT property.
   */
  function CurrentException(ex: Exchange, ctx: Context): (r: Value)
    ensures r == Null || r.Thrown?
    ensures ex.exception.Some? ==> r == Thrown(ex.exception.value)
    ensures ex.exception.None? ==> r == CaughtProperty(ex, ctx)
  {
    Fallback(ExceptionValue(ex), CaughtProperty(ex, ctx))
  }

  /** exchangeExceptionExpression(type): the cause of that type, searched on the exchange's exception first. */
  function CurrentExceptionOf(ex: Exchange, t: TypeName, ctx: Context): (r: Value)
    ensures ctx.findException(t, ExceptionValue(ex)) != Null ==> r == ctx.findException(t, ExceptionValue(ex))
    ensures ctx.findException(t, ExceptionValue(ex)) == Null ==> r == ctx.findException(t, CaughtProperty(ex, ctx))
  {
    Fallback(ctx.findException(t, ExceptionValue(ex)), ctx.findException(t, CaughtProperty(ex, ctx)))
  }

  /** System.getProperty(name, default) and the getenv-with-default rule: the default only when absent. */
  function LookupOr(m: map<string, string>, key: string, defaultValue: Option<string>): (r: Option<string>)
    ensures key in m ==> r == Some(m[key])
    ensures key !in m ==> r == defaultValue
  {
    if key in m then Some(m[key]) else defaultValue
  }

  /** Navigation on a value that may be null: null short-circuits, anything else goes to the navigator. */
  function NavigateNonNull(v: Value, ognl: string, ctx: Context): (r: Result<Value, Error>)
    ensures v == Null ==> r == Ok(Null)
    ensures v != Null ==> r == ctx.navigate(v, Some(ognl))
  {
    if v == Null then Ok(Null) else ctx.navigate(v, Some(ognl))
  }

  // ---------------------------------------------------------------------------
  // Keyed OGNL: full key first, then split

  /** The key derived from an OGNL path when the whole path is not itself a key: the first segment without operators. */
  function RootKey(ognl: string, ctx: Context): Option<string> {
    var methods := ctx.splitOgnl(ognl);
    if |methods| == 0 then None else Some(ctx.removeOperators(methods[0]))
  }

  /**
   * KeyedOgnlExpressionAdapter.evaluate over the keyed entities `source` (the inbound
   * headers or the exchange properties).
   */
  function KeyedOgnl(ognl: string, source: map<string, Value>, ctx: Context): (r: Result<Value, Error>)
    // a non-null entry under the whole path wins outright
    ensures Get(source, ognl) != Null ==> r == Ok(Get(source, ognl))
    // splitting into no segment at all fails, as methods.get(0) does
    ensures Get(source, ognl) == Null && RootKey(ognl, ctx).None? ==> r == Err(IndexOutOfBounds(0))
    // a missing root entry is a null result, not an error
    ensures Get(source, ognl) == Null && RootKey(ognl, ctx).Some? && Get(source, RootKey(ognl, ctx).value) == Null
            ==> r == Ok(Null)
    // otherwise the root entry is navigated with exactly the text after the root key
    ensures Get(source, ognl) == Null && RootKey(ognl, ctx).Some? && Get(source, RootKey(ognl, ctx).value) != Null
            ==> r == ctx.navigate(Get(source, RootKey(ognl, ctx).value), ctx.after(ognl, RootKey(ognl, ctx).value))
  {
    var whole := Get(source, ognl);
    if whole != Null then Ok(whole)
    else
      var methods := ctx.splitOgnl(ognl);
      if |methods| == 0 then Err(IndexOutOfBounds(0))
      else
        var key := ctx.removeOperators(methods[0]);
        var property := Get(source, key);
        if property == Null then Ok(Null)
        else ctx.navigate(property, ctx.after(ognl, key))
  }

  // ---------------------------------------------------------------------------
  // typeExpression

  /** String.lastIndexOf(c): the position of the last occurrence, or -1. */
  function LastIndexOf(s: string, c: char): (r: int)
    ensures -1 <= r < |s|
    ensures r >= 0 ==> s[r] == c
    ensures forall j :: r < j < |s| ==> s[j] != c
    ensures r == -1 <==> c !in s
    decreases |s|
  {
    if |s| == 0 then -1
    else if s[|s| - 1] == c then |s| - 1
    else LastIndexOf(s[..|s| - 1], c)
  }

  /** Whether typeExpression may read `name` as `<class>.<constant field>`: the last dot is past position 0 and the class before it resolves. */
  predicate NamesConstantField(name: string, ctx: Context) {
    var pos := LastIndexOf(name, '.');
    pos > 0 && name[..pos] in ctx.classes
  }

  /** What typeExpression(name) evaluates to. */
  function TypeValue(name: string, ctx: Context): (r: Result<Value, Error>)
    ensures name in ctx.classes ==> r == Ok(ClassRef(name))
    ensures name !in ctx.classes && NamesConstantField(name, ctx) ==>
              var pos := LastIndexOf(name, '.');
              r == Ok(Get(ctx.classes[name[..pos]], name[pos + 1..]))
    ensures r.Err? <==> name !in ctx.classes && !NamesConstantField(name, ctx)
    ensures r.Err? ==> r.error == Execution(ClassNotFound("Cannot find type " + name))
  {
    if name in ctx.classes then Ok(ClassRef(name))
    else
      var pos := LastIndexOf(name, '.');
      if pos > 0 && name[..pos] in ctx.classes then
        Ok(Get(ctx.classes[name[..pos]], name[pos + 1..]))
      else
        Err(Execution(ClassNotFound("Cannot find type " + name)))
  }

  /** resolveMandatoryClass(name): a class name that does not resolve raises a wrapped ClassNotFoundException. */
  function ResolveMandatoryClass(name: string, ctx: Context): (r: Result<TypeName, Error>)
    ensures r.Ok? <==> name in ctx.classes
    ensures r.Ok? ==> r.value == name
    ensures r.Err? ==> r.error == Execution(ClassNotFound(name))
  {
    if name in ctx.classes then Ok(name) else Err(Execution(ClassNotFound(name)))
  }

  // ---------------------------------------------------------------------------
  // Bodies

  /** Message.getMandatoryBody(type): the converted body, or a wrapped InvalidPayloadException when it is null. */
  function MandatoryBody(body: Value, t: TypeName, ctx: Context): (r: Result<Value, Error>)
    ensures r.Ok? <==> Convert(body, t, ctx) != Null
    ensures r.Ok? ==> r.value == Convert(body, t, ctx)
    ensures r.Err? ==> r.error == Execution(InvalidPayload(t))
  {
    var converted := Convert(body, t, ctx);
    if converted == Null then Err(Execution(InvalidPayload(t))) else Ok(converted)
  }

  /** A body that counts as absent when null bodies are allowed: null, or a bean invocation without a first argument. */
  predicate AbsentBody(body: Value) {
    body == Null ||
    (body.BeanInvocation? && (body.args.None? || |body.args.value| == 0 || body.args.value[0] == Null))
  }

  /** The message a fault is looked for in: the out message if there is one, else the in message. */
  function FaultMessage(ex: Exchange): Message {
    if ex.HasOut() then ex.outbound.value else ex.inbound
  }

  // ---------------------------------------------------------------------------
  // dateExpression

  /** The date held by a header named by the text after the last dot of the command. */
  function HeaderDate(headers: map<string, Value>, command: string, ctx: Context): (r: Result<int, Error>)
    ensures var key := command[LastIndexOf(command, '.') + 1..];
            (r.Ok? <==> AsDate(TypedGet(headers, key, DATE_TYPE, ctx)).Some?) &&
            (r.Ok? ==> Some(r.value) == AsDate(TypedGet(headers, key, DATE_TYPE, ctx)))
    ensures r.Err? ==> r.error == IllegalArgument("Cannot find java.util.Date object at command: " + command)
  {
    var key := command[LastIndexOf(command, '.') + 1..];
    var date := AsDate(TypedGet(headers, key, DATE_TYPE, ctx));
    if date.Some? then Ok(date.value)
    else Err(IllegalArgument("Cannot find java.util.Date object at command: " + command))
  }

  /** The headers of the out message; exchange.getOut() creates an empty one when there is none. */
  function OutHeaders(ex: Exchange): map<string, Value> {
    if ex.HasOut() then ex.outbound.value.headers else map[]
  }

  /** The commands dateExpression accepts. */
  predicate IsDateCommand(command: string) {
    command == "now" || "header." <= command || "in.header." <= command || "out.header." <= command || command == "file"
  }

  /** The timestamp (milliseconds) dateExpression selects for a command, before formatting. */
  function DateSource(command: string, ex: Exchange, ctx: Context): (r: Result<int, Error>)
    ensures command == "now" ==> r == Ok(ctx.now)
    ensures ("header." <= command || "in.header." <= command) ==> r == HeaderDate(ex.inbound.headers, command, ctx)
    ensures !("header." <= command || "in.header." <= command) && "out.header." <= command ==>
              r == HeaderDate(OutHeaders(ex), command, ctx)
    ensures command == "file" ==> r == FileDate(ex, ctx)
    ensures !IsDateCommand(command) ==> r == Err(IllegalArgument("Command not supported for dateExpression: " + command))
  {
    if command == "now" then Ok(ctx.now)
    else if "header." <= command || "in.header." <= command then HeaderDate(ex.inbound.headers, command, ctx)
    else if "out.header." <= command then HeaderDate(OutHeaders(ex), command, ctx)
    else if command == "file" then FileDate(ex, ctx)
    else Err(IllegalArgument("Command not supported for dateExpression: " + command))
  }

  /** The `file` command: a positive Long last-modified header wins over a Date one. */
  function FileDate(ex: Exchange, ctx: Context): (r: Result<int, Error>)
    ensures var num := AsLong(TypedGet(ex.inbound.headers, FILE_LAST_MODIFIED, LONG_TYPE, ctx));
            num.Some? && num.value > 0 ==> r == Ok(num.value)
    ensures var num := AsLong(TypedGet(ex.inbound.headers, FILE_LAST_MODIFIED, LONG_TYPE, ctx));
            var date := AsDate(TypedGet(ex.inbound.headers, FILE_LAST_MODIFIED, DATE_TYPE, ctx));
            !(num.Some? && num.value > 0) ==>
              (date.Some? ==> r == Ok(date.value)) &&
              (date.None? ==> r == Err(IllegalArgument("Cannot find " + FILE_LAST_MODIFIED + " header at command: file")))
  {
    var num := AsLong(TypedGet(ex.inbound.headers, FILE_LAST_MODIFIED, LONG_TYPE, ctx));
    if num.Some? && num.value > 0 then Ok(num.value)
    else
      var date := AsDate(TypedGet(ex.inbound.headers, FILE_LAST_MODIFIED, DATE_TYPE, ctx));
      if date.Some? then Ok(date.value)
      else Err(IllegalArgument("Cannot find " + FILE_LAST_MODIFIED + " header at command: file"))
  }

  // ---------------------------------------------------------------------------
  // File names

  /** A header read as a String. */
  function TextHeader(ex: Exchange, name: string, ctx: Context): Option<string> {
    AsText(TypedGet(ex.inbound.headers, name, STRING_TYPE, ctx))
  }

  /** fileOnlyNameExpression: the only-name header, else the file name header stripped of its path. */
  function OnlyName(ex: Exchange, ctx: Context): (r: Option<string>)
    ensures TextHeader(ex, FILE_NAME_ONLY, ctx).Some? ==> r == TextHeader(ex, FILE_NAME_ONLY, ctx)
    ensures TextHeader(ex, FILE_NAME_ONLY, ctx).None? ==> r == ctx.fileUtil(StripPath, TextHeader(ex, FILE_NAME, ctx))
  {
    var answer := TextHeader(ex, FILE_NAME_ONLY, ctx);
    if answer.Some? then answer else ctx.fileUtil(StripPath, TextHeader(ex, FILE_NAME, ctx))
  }

  /** A value narrowed to the Java type the typed getter declares. */
  function LongOrNull(v: Value): Value {
    if v.Long? then v else Null
  }

  function BoolOrNull(v: Value): Value {
    if v.Bool? then v else Null
  }

  /** The header a file expression returns as it is, for the kinds that do no name manipulation. */
  function BackingHeader(kind: FileKind): Option<string> {
    match kind
    case FileName => Some(FILE_NAME)
    case FileParent => Some(FILE_PARENT)
    case FilePath => Some(FILE_PATH)
    case FileAbsolutePath => Some(FILE_ABSOLUTE_PATH)
    case FileAbsolute => Some(FILE_ABSOLUTE)
    case FileSize => Some(FILE_LENGTH)
    case FileLastModified => Some(FILE_LAST_MODIFIED)
    case _ => None
  }

  /** The file-name expressions. */
  function FileValue(kind: FileKind, ex: Exchange, ctx: Context): (r: Value)
    // a kind that reads one header is null when that header is absent: never an error
    ensures BackingHeader(kind).Some? && BackingHeader(kind).value !in ex.inbound.headers ==> r == Null
    // each result has the Java type its getter declares
    ensures kind == FileAbsolute ==> r == Null || r.Bool?
    ensures kind == FileSize || kind == FileLastModified ==> r == Null || r.Long?
    ensures kind != FileAbsolute && kind != FileSize && kind != FileLastModified ==> r == Null || r.Str?
    // the only-name variants prefer the only-name header
    ensures kind == FileOnlyName ==> r == TextValue(OnlyName(ex, ctx))
  {
    var name := TextHeader(ex, FILE_NAME, ctx);
    // fileOnlyNameExpression().evaluate(exchange, String.class)
    var onlyName := AsText(Convert(TextValue(OnlyName(ex, ctx)), STRING_TYPE, ctx));
    match kind
    case FileName => TextValue(name)
    case FileOnlyName => TextValue(OnlyName(ex, ctx))
    case FileNameNoExt => TextValue(ctx.fileUtil(StripExt(false), name))
    case FileNameNoExtSingle => TextValue(ctx.fileUtil(StripExt(true), name))
    case FileOnlyNameNoExt => TextValue(ctx.fileUtil(StripExt(false), onlyName))
    case FileOnlyNameNoExtSingle => TextValue(ctx.fileUtil(StripExt(true), onlyName))
    case FileExt => TextValue(ctx.fileUtil(OnlyExt(false), name))
    case FileExtSingle => TextValue(ctx.fileUtil(OnlyExt(true), name))
    case FileParent => TextValue(TextHeader(ex, FILE_PARENT, ctx))
    case FilePath => TextValue(TextHeader(ex, FILE_PATH, ctx))
    case FileAbsolutePath => TextValue(TextHeader(ex, FILE_ABSOLUTE_PATH, ctx))
    case FileAbsolute => BoolOrNull(TypedGet(ex.inbound.headers, FILE_ABSOLUTE, BOOLEAN_TYPE, ctx))
    case FileSize => LongOrNull(TypedGet(ex.inbound.headers, FILE_LENGTH, LONG_TYPE, ctx))
    case FileLastModified => LongOrNull(TypedGet(ex.inbound.headers, FILE_LAST_MODIFIED, LONG_TYPE, ctx))
  }

  // ---------------------------------------------------------------------------
  // Text results and concatenation

  /**
   * All values of a sequence of results, or the first error in sequence order: what a
   * loop that evaluates each element in turn and lets an exception escape produces.
   */
  function Collect<T>(rs: seq<Result<T, Error>>): (r: Result<seq<T>, Error>)
    ensures r.Ok? <==> forall i :: 0 <= i < |rs| ==> rs[i].Ok?
    ensures r.Ok? ==> |r.value| == |rs| && forall i :: 0 <= i < |rs| ==> rs[i] == Ok(r.value[i])
    decreases |rs|
  {
    if |rs| == 0 then Ok([])
    else
      var init := Collect(rs[..|rs| - 1]);
      var last := rs[|rs| - 1];
      if init.Err? then Err(init.error)
      else if last.Err? then Err(last.error)
      else Ok(init.value + [last.value])
  }

  /** The error Collect reports is that of the first failing result. */
  lemma {:induction false} CollectFailsAtFirstError<T>(rs: seq<Result<T, Error>>, i: int)
    requires 0 <= i < |rs| && rs[i].Err?
    requires forall j :: 0 <= j < i ==> rs[j].Ok?
    ensures Collect(rs) == Err(rs[i].error)
    decreases |rs|
  {
    var init := rs[..|rs| - 1];
    if i == |rs| - 1 {
      assert forall j :: 0 <= j < |init| ==> init[j].Ok?;
    } else {
      CollectFailsAtFirstError(init, i);
    }
  }

  /** The present texts of a sequence of String references, appended in order; null ones add nothing. */
  function JoinPresent(texts: seq<Option<string>>): string {
    if |texts| == 0 then ""
    else
      var last := texts[|texts| - 1];
      JoinPresent(texts[..|texts| - 1]) + (if last.Some? then last.value else "")
  }

  /** Java's list toString: the items between brackets, separated by ", ". */
  function ListText(items: seq<string>): string {
    "[" + Separated(items) + "]"
  }

  function Separated(items: seq<string>): string {
    if |items| == 0 then ""
    else if |items| == 1 then items[0]
    else items[0] + ", " + Separated(items[1..])
  }

  /** An item added at the end of a non-empty list is written after ", "; the texts of the items keep their order. */
  lemma {:induction false} SeparatedAppend(items: seq<string>, x: string)
    requires |items| > 0
    ensures Separated(items + [x]) == Separated(items) + ", " + x
    decreases |items|
  {
    if |items| > 1 {
      assert (items + [x])[1..] == items[1..] + [x];
      SeparatedAppend(items[1..], x);
    } else {
      assert items + [x] == [items[0], x];
      assert [items[0], x][1..] == [x];
    }
  }

  /** Java's list text: "[]" for no items, "[x]" for one, and ", " between items in order. */
  /** The text of an empty list is "[]". */
  lemma ListTextEmpty()
    ensures ListText([]) == "[]"
  {
    assert Separated([]) == "";
  }

  /** The text of a one-item list is the item in brackets. */
  lemma ListTextSingle(x: string)
    ensures ListText([x]) == "[" + x + "]"
  {
    assert Separated([x]) == x;
  }

  /** The text of a longer list is the text of all but the last item, then ", " and the last item. */
  lemma ListTextAppend(items: seq<string>, x: string)
    requires |items| > 0
    ensures ListText(items + [x]) == "[" + Separated(items) + ", " + x + "]"
  {
    SeparatedAppend(items, x);
  }

  // ---------------------------------------------------------------------------
  // Evaluation

  /**
   * The expressions that only read the exchange or the runtime, without class resolution,
   * conversion to a mandatory type, navigation or sub-expressions.
   */
  predicate IsLookup(e: Expr) {
    e.Header? || e.HeaderAs? || e.OutHeader? || e.ExchangeException? || e.ExchangeExceptionOf? ||
    e.ExchangeExceptionMessage? || e.ExchangeProperty? || e.SystemProperty? || e.SystemEnvironment? ||
    e.Constant? || e.Body? || e.BodyAs? || e.NullValue? || e.OutBody? || e.OutBodyAs? ||
    e.FaultBody? || e.FaultBodyAs? || e.File?
  }

  /** What a lookup expression returns: a value, possibly null, and never an exception. */
  function LookupValue(e: Expr, ex: Exchange, ctx: Context): Value
    requires IsLookup(e)
  {
    match e
    case Header(name) => HeaderOrProperty(ex, name)
    case HeaderAs(name, t) => TypedHeaderOrProperty(ex, name, t, ctx)
    case OutHeader(name) => OutHeaderOrProperty(ex, name)
    case ExchangeException => CurrentException(ex, ctx)
    case ExchangeExceptionOf(t) => CurrentExceptionOf(ex, t, ctx)
    case ExchangeExceptionMessage =>
      var exception := CurrentException(ex, ctx);
      if exception.Thrown? then TextValue(ctx.exceptionMessage(exception.error)) else Null
    case ExchangeProperty(name) => Get(ex.properties, name)
    case SystemProperty(name, d) => TextValue(LookupOr(ctx.systemProperties, name, d))
    case SystemEnvironment(name, d) => TextValue(LookupOr(ctx.environment, name, d))
    case Constant(v) => v
    case Body => ex.inbound.body
    case BodyAs(t) => Convert(ex.inbound.body, t, ctx)
    case NullValue => Null
    case OutBody => if ex.HasOut() then ex.outbound.value.body else Null
    case OutBodyAs(t) => if ex.HasOut() then Convert(ex.outbound.value.body, t, ctx) else Null
    case FaultBody =>
      var msg := FaultMessage(ex);
      if msg.fault then msg.body else Null
    case FaultBodyAs(t) =>
      var msg := FaultMessage(ex);
      if msg.fault then Convert(msg.body, t, ctx) else Null
    case File(kind) => FileValue(kind, ex, ctx)
  }

  /** expression.evaluate(exchange, String.class): the value converted to String, as a String reference. */
  function TextResult(e: Expr, ex: Exchange, ctx: Context): (r: Result<Option<string>, Error>)
    // an exception of the evaluation escapes unchanged
    ensures Eval(e, ex, ctx).Err? <==> r.Err?
    ensures r.Err? ==> r.error == Eval(e, ex, ctx).error
    // a null value is a null text
    ensures Eval(e, ex, ctx) == Ok(Null) ==> r == Ok(None)
    decreases e, 1
  {
    match Eval(e, ex, ctx)
    case Ok(v) => Ok(AsText(Convert(v, STRING_TYPE, ctx)))
    case Err(err) => Err(err)
  }

  /** expression.evaluate(exchange): the value an expression yields, or the exception it raises. */
  function Eval(e: Expr, ex: Exchange, ctx: Context): (r: Result<Value, Error>)
    // a missing value is a null result, never an error, for every plain lookup
    ensures IsLookup(e) ==> r.Ok?
    // the text expressions produce a string whenever they succeed
    ensures (e.Append? || e.Prepend? || e.Concat? || e.DateOf?) && r.Ok? ==> r.value.Str?
    decreases e, 0
  {
    if IsLookup(e) then Ok(LookupValue(e, ex, ctx))
    else
      match e
      case HeaderAsClassName(name, className) =>
        var t :- ResolveMandatoryClass(className, ctx);
        Ok(TypedHeaderOrProperty(ex, name, t, ctx))
      case HeadersOgnl(ognl) => KeyedOgnl(ognl, ex.inbound.headers, ctx)
      case ExchangeExceptionOgnl(ognl) => NavigateNonNull(CurrentException(ex, ctx), ognl, ctx)
      case PropertyOgnl(ognl) => KeyedOgnl(ognl, ex.properties, ctx)
      case Type(name) => TypeValue(name, ctx)
      case BodyOgnl(ognl) => NavigateNonNull(ex.inbound.body, ognl, ctx)
      case Ognl(target, ognl) =>
        var v :- Eval(target, ex, ctx);
        NavigateNonNull(v, ognl, ctx)
      case BodyAsClassName(className) =>
        var t :- ResolveMandatoryClass(className, ctx);
        Ok(Convert(ex.inbound.body, t, ctx))
      case MandatoryBodyAsClassName(className) =>
        var t :- ResolveMandatoryClass(className, ctx);
        MandatoryBody(ex.inbound.body, t, ctx)
      case MandatoryBodyAs(t, nullBodyAllowed) =>
        if nullBodyAllowed && AbsentBody(ex.inbound.body) then Ok(Null)
        else MandatoryBody(ex.inbound.body, t, ctx)
      case BodyType =>
        if ex.inbound.body == Null then Err(NullPointer) else Ok(ClassRef(ctx.classOf(ex.inbound.body)))
      case ConvertTo(target, t) =>
        var v :- Eval(target, ex, ctx);
        Ok(Convert(v, t, ctx))
      case RegexReplaceAll(target, regex, replacement) =>
        var text :- TextResult(target, ex, ctx);
        Ok(if text.None? then Null else Str(ctx.replaceAll(regex, text.value, replacement)))
      case RegexReplaceAllBy(target, regex, replacementExpr) =>
        var text :- TextResult(target, ex, ctx);
        var replacement :- TextResult(replacementExpr, ex, ctx);
        Ok(if text.None? || replacement.None? then Null else Str(ctx.replaceAll(regex, text.value, replacement.value)))
      case Append(left, right) =>
        var l :- TextResult(left, ex, ctx);
        var r :- TextResult(right, ex, ctx);
        Ok(Str(JavaText(l) + JavaText(r)))
      case Prepend(left, right) =>
        var r :- TextResult(right, ex, ctx);
        var l :- TextResult(left, ex, ctx);
        Ok(Str(JavaText(r) + JavaText(l)))
      case Concat(es, _) =>
        var texts :- Collect(seq(|es|, i requires 0 <= i < |es| => TextResult(es[i], ex, ctx)));
        Ok(Str(JoinPresent(texts)))
      case DateOf(command, pattern) =>
        var millis :- DateSource(command, ex, ctx);
        Ok(Str(ctx.formatDate(pattern, millis)))
  }

  /** The toString text of an expression; it depends on the construction parameters only. */
  function Describe(e: Expr): (r: string)
    ensures e.Concat? && e.description.Some? ==> r == e.description.value
    ensures e.Concat? && e.description.None? ==> "concat[" <= r && r[|r| - 1] == ']'
    decreases e
  {
    match e
    case Header(name) => "header(" + name + ")"
    case HeaderAs(name, t) => "headerAs(" + name + ", class " + t + ")"
    case HeaderAsClassName(name, className) => "headerAs(" + name + ", " + className + ")"
    case HeadersOgnl(ognl) => "headerOgnl(" + ognl + ")"
    case OutHeader(name) => "outHeader(" + name + ")"
    case ExchangeException => "exchangeException"
    case ExchangeExceptionOf(t) => "exchangeException[class " + t + "]"
    case ExchangeExceptionOgnl(ognl) => "exchangeExceptionOgnl(" + ognl + ")"
    case ExchangeExceptionMessage => "exchangeExceptionMessage"
    case ExchangeProperty(name) => "exchangeProperty(" + name + ")"
    case PropertyOgnl(ognl) => "propertyOgnl(" + ognl + ")"
    case SystemProperty(name, _) => "systemProperty(" + name + ")"
    case SystemEnvironment(name, _) => "systemEnvironment(" + name + ")"
    case Constant(v) => Show(v)
    case Type(name) => "type:" + name
    case Body => "body"
    case BodyOgnl(ognl) => "bodyOgnl(" + ognl + ")"
    case Ognl(target, ognl) => "ognl(" + Describe(target) + ", " + ognl + ")"
    case BodyAs(t) => "bodyAs[" + t + "]"
    case BodyAsClassName(className) => "bodyAs[" + className + "]"
    case MandatoryBodyAsClassName(className) => "mandatoryBodyAs[" + className + "]"
    case MandatoryBodyAs(t, _) => "mandatoryBodyAs[" + t + "]"
    case NullValue => "null"
    case BodyType => "bodyType"
    case OutBody => "outBody"
    case OutBodyAs(t) => "outBodyAs[" + t + "]"
    case FaultBody => "faultBody"
    case FaultBodyAs(t) => "faultBodyAs[" + t + "]"
    case ConvertTo(target, _) => Describe(target)
    case RegexReplaceAll(target, regex, _) => "regexReplaceAll(" + Describe(target) + ", " + regex + ")"
    case RegexReplaceAllBy(target, regex, _) => "regexReplaceAll(" + Describe(target) + ", " + regex + ")"
    case Append(left, right) => "append(" + Describe(left) + ", " + Describe(right) + ")"
    case Prepend(left, right) => "prepend(" + Describe(left) + ", " + Describe(right) + ")"
    case Concat(es, description) =>
      if description.Some? then description.value
      else "concat" + ListText(seq(|es|, i requires 0 <= i < |es| => Describe(es[i])))
    case DateOf(command, pattern) => "date(" + command + ":" + pattern + ")"
    case File(kind) => FileDescription(kind)
  }

  function FileDescription(kind: FileKind): string {
    match kind
    case FileName => "file:name"
    case FileOnlyName => "file:onlyname"
    case FileNameNoExt => "file:name.noext"
    case FileNameNoExtSingle => "file:name.noext.single"
    case FileOnlyNameNoExt => "file:onlyname.noext"
    case FileOnlyNameNoExtSingle => "file:onlyname.noext.single"
    case FileExt => "file:ext"
    case FileExtSingle => "file:ext.single"
    case FileParent => "file:parent"
    case FilePath => "file:path"
    case FileAbsolutePath => "file:absolute.path"
    case FileAbsolute => "file:absolute"
    case FileSize => "file:length"
    case FileLastModified => "file:modified"
  }

  // ---------------------------------------------------------------------------
  // concatExpression

  /** The reference reading of concatenation: the texts that are present, in order. */
  function PresentTexts(texts: seq<Option<string>>): seq<string> {
    if |texts| == 0 then []
    else (if texts[0].Some? then [texts[0].value] else []) + PresentTexts(texts[1..])
  }

  /** The parts written one after the other. */
  function Flatten(parts: seq<string>): string {
    if |parts| == 0 then "" else parts[0] + Flatten(parts[1..])
  }

  lemma {:induction false} JoinPresentAppend(a: seq<Option<string>>, b: seq<Option<string>>)
    ensures JoinPresent(a + b) == JoinPresent(a) + JoinPresent(b)
    decreases |b|
  {
    if |b| == 0 {
      assert a + b == a;
    } else {
      var c := a + b;
      assert c[..|c| - 1] == a + b[..|b| - 1];
      JoinPresentAppend(a, b[..|b| - 1]);
    }
  }

  /** The text one String reference contributes: its text, or nothing when it is null. */
  function TextOrNothing(t: Option<string>): string {
    if t.Some? then t.value else ""
  }

  lemma JoinPresentSingle(t: Option<string>)
    ensures JoinPresent([t]) == TextOrNothing(t)
  {
    assert [t][..0] == [];
  }

  /** JoinPresent, built back to front as the loop runs, agrees with the reference reading. */
  lemma {:induction false} JoinPresentIsPresentTexts(texts: seq<Option<string>>)
    ensures JoinPresent(texts) == Flatten(PresentTexts(texts))
    decreases |texts|
  {
    if |texts| > 0 {
      var rest := texts[1..];
      assert texts == [texts[0]] + rest;
      JoinPresentAppend([texts[0]], rest);
      JoinPresentSingle(texts[0]);
      JoinPresentIsPresentTexts(rest);
      assert PresentTexts(texts) == (if texts[0].Some? then [texts[0].value] else []) + PresentTexts(rest);
      if texts[0].Some? {
        assert Flatten(PresentTexts(texts)) == texts[0].value + Flatten(PresentTexts(rest));
      } else {
        assert PresentTexts(texts) == PresentTexts(rest);
      }
    }
  }

  /** A null text anywhere in the list adds nothing and does not disturb the order of the others. */
  lemma {:induction false} NullTextIsSkipped(a: seq<Option<string>>, b: seq<Option<string>>)
    ensures JoinPresent(a + [None] + b) == JoinPresent(a) + JoinPresent(b)
  {
    var none: seq<Option<string>> := [None];
    JoinPresentAppend(a + none, b);
    JoinPresentAppend(a, none);
    JoinPresentSingle(None);
  }

  /** concat evaluates to the joined texts of its expressions, or to the error Collect reports. */
  lemma ConcatCollectsTexts(es: seq<Expr>, d: Option<string>, ex: Exchange, ctx: Context)
    ensures var texts := Collect(seq(|es|, i requires 0 <= i < |es| => TextResult(es[i], ex, ctx)));
            Eval(Concat(es, d), ex, ctx) == (if texts.Ok? then Ok(Str(JoinPresent(texts.value))) else Err(texts.error))
  {
  }

  /**
   * The loop of concatExpression: each expression is evaluated as a String in list order
   * and its text appended to a buffer unless it is null; an exception from any of them
   * escapes at once.
   */
  method EvaluateConcat(expressions: seq<Expr>, description: Option<string>, ex: Exchange, ctx: Context)
    returns (r: Result<Value, Error>)
    ensures r == Eval(Concat(expressions, description), ex, ctx)
  {
    ghost var results := seq(|expressions|, i requires 0 <= i < |expressions| => TextResult(expressions[i], ex, ctx));
    ghost var texts: seq<Option<string>> := [];
    var buffer := "";
    var i := 0;
    while i < |expressions|
      invariant 0 <= i <= |expressions|
      invariant |texts| == i
      invariant forall j :: 0 <= j < i ==> results[j] == Ok(texts[j])
      invariant buffer == JoinPresent(texts)
    {
      var text := TextResult(expressions[i], ex, ctx);
      if text.Err? {
        CollectFailsAtFirstError(results, i);
        return Err(text.error);
      }
      if text.value.Some? {
        buffer := buffer + text.value.value;
      }
      assert (texts + [text.value])[..|texts|] == texts;
      texts := texts + [text.value];
      i := i + 1;
    }
    assert Collect(results).Ok?;
    assert Collect(results).value == texts;
    return Ok(Str(buffer));
  }
}
