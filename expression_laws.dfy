/**
 * Laws of the built expressions, stated on `Eval`: the fallback and priority rules of
 * the lookups, operand order, null propagation, the class-then-constant split of the
 * type expression, the command dispatch of the date expression, and value-level results
 * of concatenation.
 */
module ExpressionLaws {
  import opened Wrappers
  import opened Exchanges
  import opened ExpressionBuilder

  // ---------------------------------------------------------------------------
  // Headers, properties and exceptions

  /** A header that is present wins over a like-named property. */
  lemma HeaderBeforeProperty(name: string, ex: Exchange, ctx: Context)
    requires name in ex.inbound.headers && ex.inbound.headers[name] != Null
    ensures Eval(Header(name), ex, ctx) == Ok(ex.inbound.headers[name])
  {
  }

  /** A missing header falls back to the exchange property of that name, and to null when that is missing too. */
  lemma HeaderFallsBackToProperty(name: string, ex: Exchange, ctx: Context)
    requires name !in ex.inbound.headers
    ensures Eval(Header(name), ex, ctx) == Ok(Get(ex.properties, name))
    ensures name !in ex.properties ==> Eval(Header(name), ex, ctx) == Ok(Null)
  {
  }

  /** Without an out message the out-header expression is null, whatever the properties hold. */
  lemma OutHeaderNeedsOutMessage(name: string, ex: Exchange, ctx: Context)
    requires !ex.HasOut()
    ensures Eval(OutHeader(name), ex, ctx) == Ok(Null)
  {
  }

  /** With an out message that lacks the header, the out-header expression reads the property. */
  lemma OutHeaderFallsBackToProperty(name: string, ex: Exchange, ctx: Context)
    requires ex.HasOut() && name !in ex.outbound.value.headers
    ensures Eval(OutHeader(name), ex, ctx) == Ok(Get(ex.properties, name))
  {
  }

  /** The exchange's own exception is reported first; the caught-exception property only when there is none. */
  lemma ExceptionFallsBackToCaught(ex: Exchange, ctx: Context)
    ensures ex.exception.Some? ==> Eval(ExchangeException, ex, ctx) == Ok(Thrown(ex.exception.value))
    ensures ex.exception.None? ==>
              Eval(ExchangeException, ex, ctx) == Ok(AsException(TypedGet(ex.properties, EXCEPTION_CAUGHT, EXCEPTION_TYPE, ctx)))
  {
  }

  /** The exception message is null when there is no exception at all. */
  lemma NoExceptionNoMessage(ex: Exchange, ctx: Context)
    requires ex.exception.None? && EXCEPTION_CAUGHT !in ex.properties
    ensures Eval(ExchangeExceptionMessage, ex, ctx) == Ok(Null)
  {
  }

  /** A key with literal dots that is present in the headers is returned as is, without navigation. */
  lemma WholeKeyFirst(ognl: string, ex: Exchange, ctx: Context)
    requires ognl in ex.inbound.headers && ex.inbound.headers[ognl] != Null
    ensures Eval(HeadersOgnl(ognl), ex, ctx) == Ok(ex.inbound.headers[ognl])
  {
  }

  /** The environment default applies only when the variable is not set. */
  lemma EnvironmentDefault(name: string, d: string, ex: Exchange, ctx: Context)
    ensures name in ctx.environment ==> Eval(SystemEnvironment(name, Some(d)), ex, ctx) == Ok(Str(ctx.environment[name]))
    ensures name !in ctx.environment ==> Eval(SystemEnvironment(name, Some(d)), ex, ctx) == Ok(Str(d))
  {
  }

  // ---------------------------------------------------------------------------
  // Operand order and null propagation

  /** prepend(l, r) is append(r, l): the same operands, evaluated and joined in the same order. */
  lemma PrependIsSwappedAppend(left: Expr, right: Expr, ex: Exchange, ctx: Context)
    ensures Eval(Prepend(left, right), ex, ctx) == Eval(Append(right, left), ex, ctx)
  {
  }

  /** append joins the left text before the right one; a null text is written as "null". */
  lemma AppendJoinsInOrder(left: Expr, right: Expr, ex: Exchange, ctx: Context, a: Option<string>, b: Option<string>)
    requires TextResult(left, ex, ctx) == Ok(a) && TextResult(right, ex, ctx) == Ok(b)
    ensures Eval(Append(left, right), ex, ctx) == Ok(Str(JavaText(a) + JavaText(b)))
    ensures Eval(Prepend(left, right), ex, ctx) == Ok(Str(JavaText(b) + JavaText(a)))
  {
  }

  /** A null text is replaced by null, not by a replacement of the empty string. */
  lemma RegexKeepsNull(target: Expr, regex: string, replacement: string, ex: Exchange, ctx: Context)
    requires TextResult(target, ex, ctx) == Ok(None)
    ensures Eval(RegexReplaceAll(target, regex, replacement), ex, ctx) == Ok(Null)
  {
  }

  /** With a computed replacement, a null text or a null replacement gives null; both are evaluated first. */
  lemma RegexByKeepsNull(target: Expr, regex: string, replacementExpr: Expr, ex: Exchange, ctx: Context)
    requires TextResult(target, ex, ctx).Ok? && TextResult(replacementExpr, ex, ctx).Ok?
    requires TextResult(target, ex, ctx).value.None? || TextResult(replacementExpr, ex, ctx).value.None?
    ensures Eval(RegexReplaceAllBy(target, regex, replacementExpr), ex, ctx) == Ok(Null)
  {
  }

  /** An error computing the replacement escapes even when the text is null. */
  lemma RegexByReplacementErrorEscapes(target: Expr, regex: string, replacementExpr: Expr, ex: Exchange, ctx: Context)
    requires TextResult(target, ex, ctx) == Ok(None) && TextResult(replacementExpr, ex, ctx).Err?
    ensures Eval(RegexReplaceAllBy(target, regex, replacementExpr), ex, ctx) == Err(TextResult(replacementExpr, ex, ctx).error)
  {
  }

  // ---------------------------------------------------------------------------
  // Concatenation

  /** concat is the in-order concatenation of the texts that are not null. */
  lemma {:induction false} ConcatJoinsPresentTexts(
    es: seq<Expr>, d: Option<string>, ex: Exchange, ctx: Context, texts: seq<Option<string>>)
    requires |texts| == |es|
    requires forall i :: 0 <= i < |es| ==> TextResult(es[i], ex, ctx) == Ok(texts[i])
    ensures Eval(Concat(es, d), ex, ctx) == Ok(Str(Flatten(PresentTexts(texts))))
  {
    var results := seq(|es|, i requires 0 <= i < |es| => TextResult(es[i], ex, ctx));
    ConcatCollectsTexts(es, d, ex, ctx);
    assert forall i :: 0 <= i < |es| ==> results[i] == Ok(texts[i]);
    assert Collect(results).value == texts;
    JoinPresentIsPresentTexts(texts);
  }

  /** The first expression that fails decides the error of concat; later ones do not matter. */
  lemma {:induction false} ConcatFailsAtFirstError(es: seq<Expr>, d: Option<string>, ex: Exchange, ctx: Context, i: int)
    requires 0 <= i < |es| && TextResult(es[i], ex, ctx).Err?
    requires forall j :: 0 <= j < i ==> TextResult(es[j], ex, ctx).Ok?
    ensures Eval(Concat(es, d), ex, ctx) == Err(TextResult(es[i], ex, ctx).error)
  {
    var results := seq(|es|, k requires 0 <= k < |es| => TextResult(es[k], ex, ctx));
    ConcatCollectsTexts(es, d, ex, ctx);
    CollectFailsAtFirstError(results, i);
  }

  /** A type converter that leaves strings as they are. */
  ghost predicate KeepsStrings(ctx: Context) {
    forall s: string :: ctx.convert(Str(s), STRING_TYPE) == Str(s)
  }

  /** concat of the constants "a", "b", null and "c" is "abc". */
  lemma ConcatSkipsNullConstant(d: Option<string>, ex: Exchange, ctx: Context)
    requires KeepsStrings(ctx)
    ensures Eval(Concat([Constant(Str("a")), Constant(Str("b")), Constant(Null), Constant(Str("c"))], d), ex, ctx)
            == Ok(Str("abc"))
  {
    var es := [Constant(Str("a")), Constant(Str("b")), Constant(Null), Constant(Str("c"))];
    var texts := [Some("a"), Some("b"), None, Some("c")];
    assert ctx.convert(Str("a"), STRING_TYPE) == Str("a");
    assert ctx.convert(Str("b"), STRING_TYPE) == Str("b");
    assert ctx.convert(Str("c"), STRING_TYPE) == Str("c");
    assert TextResult(es[0], ex, ctx) == Ok(Some("a"));
    assert TextResult(es[1], ex, ctx) == Ok(Some("b"));
    assert TextResult(es[2], ex, ctx) == Ok(None);
    assert TextResult(es[3], ex, ctx) == Ok(Some("c"));
    assert forall i :: 0 <= i < |es| ==> TextResult(es[i], ex, ctx) == Ok(texts[i]);
    ConcatJoinsPresentTexts(es, d, ex, ctx, texts);
    assert PresentTexts(texts) == ["a", "b", "c"];
    assert Flatten(["a", "b", "c"]) == "abc";
  }

  // ---------------------------------------------------------------------------
  // typeExpression

  /** The last dot of `prefix + "." + suffix` is the one after the prefix when the suffix has no dot. */
  lemma {:induction false} LastDotAfterPrefix(prefix: string, suffix: string)
    requires '.' !in suffix
    ensures LastIndexOf(prefix + "." + suffix, '.') == |prefix|
    ensures var s := prefix + "." + suffix; s[..|prefix|] == prefix && s[|prefix| + 1..] == suffix
  {
    var s := prefix + "." + suffix;
    assert s[|prefix|] == '.';
    assert forall j :: |prefix| < j < |s| ==> s[j] == suffix[j - |prefix| - 1];
    assert s[..|prefix|] == prefix;
    assert s[|prefix| + 1..] == suffix;
  }

  /** `java.lang.Integer.MAX_VALUE`-style names read the constant field of the class before the last dot. */
  lemma TypeReadsConstantField(cls: string, field: string, ex: Exchange, ctx: Context)
    requires |cls| > 0 && cls in ctx.classes && '.' !in field
    requires cls + "." + field !in ctx.classes
    ensures Eval(Type(cls + "." + field), ex, ctx) == Ok(Get(ctx.classes[cls], field))
  {
    LastDotAfterPrefix(cls, field);
  }

  /** A name that resolves as a class is that class, even when it also reads as `<class>.<field>`. */
  lemma TypeClassFirst(name: string, ex: Exchange, ctx: Context)
    requires name in ctx.classes
    ensures Eval(Type(name), ex, ctx) == Ok(ClassRef(name))
  {
  }

  /** A name without a dot that is no class fails with a class-resolution error. */
  lemma TypeWithoutDotFails(name: string, ex: Exchange, ctx: Context)
    requires '.' !in name && name !in ctx.classes
    ensures Eval(Type(name), ex, ctx) == Err(Execution(ClassNotFound("Cannot find type " + name)))
  {
  }

  /** A dot at position 0 is never read as a class-field split, even when the empty prefix were a class. */
  lemma TypeLeadingDotFails(field: string, ex: Exchange, ctx: Context)
    requires '.' !in field && "." + field !in ctx.classes
    ensures Eval(Type("." + field), ex, ctx).Err?
  {
    LastDotAfterPrefix("", field);
    assert "" + "." + field == "." + field;
  }

  /** A prefix `<class>.` whose class does not resolve fails, even though the name has a dot. */
  lemma TypeUnknownClassFails(cls: string, field: string, ex: Exchange, ctx: Context)
    requires '.' !in field && cls !in ctx.classes && cls + "." + field !in ctx.classes
    ensures Eval(Type(cls + "." + field), ex, ctx) == Err(Execution(ClassNotFound("Cannot find type " + (cls + "." + field))))
  {
    LastDotAfterPrefix(cls, field);
  }

  // ---------------------------------------------------------------------------
  // dateExpression

  /** now formats the clock's time with the pattern. */
  lemma DateNow(pattern: string, ex: Exchange, ctx: Context)
    ensures Eval(DateOf("now", pattern), ex, ctx) == Ok(Str(ctx.formatDate(pattern, ctx.now)))
  {
  }

  /** A command outside now, header., in.header., out.header. and file fails, whatever the pattern. */
  lemma DateUnsupportedCommand(command: string, pattern: string, ex: Exchange, ctx: Context)
    requires !IsDateCommand(command)
    ensures Eval(DateOf(command, pattern), ex, ctx) == Err(IllegalArgument("Command not supported for dateExpression: " + command))
  {
  }

  /** The date a header holds, as the date expression reads it. */
  function HeaderDateOf(headers: map<string, Value>, key: string, ctx: Context): Option<int> {
    AsDate(TypedGet(headers, key, DATE_TYPE, ctx))
  }

  /** The header a `<prefix>.<key>` command reads is named by the text after the last dot. */
  lemma {:induction false} HeaderDateReadsKey(headers: map<string, Value>, prefix: string, key: string, ctx: Context)
    requires '.' !in key
    ensures var command := prefix + "." + key;
            var date := HeaderDateOf(headers, key, ctx);
            (date.Some? ==> HeaderDate(headers, command, ctx) == Ok(date.value)) &&
            (date.None? ==> HeaderDate(headers, command, ctx).Err?)
  {
    LastDotAfterPrefix(prefix, key);
  }

  /** header.<key> and in.header.<key> select the inbound header <key>. */
  lemma {:induction false} DateFromInHeader(prefix: string, key: string, ex: Exchange, ctx: Context)
    requires prefix == "header" || prefix == "in.header"
    requires '.' !in key
    ensures var date := HeaderDateOf(ex.inbound.headers, key, ctx);
            (date.Some? ==> DateSource(prefix + "." + key, ex, ctx) == Ok(date.value)) &&
            (date.None? ==> DateSource(prefix + "." + key, ex, ctx).Err?)
  {
    var command := prefix + "." + key;
    HeaderDateReadsKey(ex.inbound.headers, prefix, key, ctx);
    assert command[..|prefix| + 1] == prefix + ".";
    assert "header." <= command || "in.header." <= command;
  }

  /** out.header.<key> selects the out header <key>; with no out message every such command fails. */
  lemma {:induction false} DateFromOutHeader(key: string, ex: Exchange, ctx: Context)
    requires '.' !in key
    ensures var date := HeaderDateOf(OutHeaders(ex), key, ctx);
            (date.Some? ==> DateSource("out.header." + key, ex, ctx) == Ok(date.value)) &&
            (date.None? ==> DateSource("out.header." + key, ex, ctx).Err?)
    ensures !ex.HasOut() ==> DateSource("out.header." + key, ex, ctx).Err?
  {
    var command := "out.header." + key;
    HeaderDateReadsKey(OutHeaders(ex), "out.header", key, ctx);
    assert "out.header" + "." + key == command;
    assert command[0] == 'o';
    assert command[..11] == "out.header.";
  }

  /** `file` reads the last-modified header; without it the command fails. */
  lemma DateFromFile(ex: Exchange, ctx: Context)
    ensures var num := AsLong(TypedGet(ex.inbound.headers, FILE_LAST_MODIFIED, LONG_TYPE, ctx));
            num.Some? && num.value > 0 ==> DateSource("file", ex, ctx) == Ok(num.value)
    ensures FILE_LAST_MODIFIED !in ex.inbound.headers ==>
              DateSource("file", ex, ctx) == Err(IllegalArgument("Cannot find " + FILE_LAST_MODIFIED + " header at command: file"))
  {
  }

  /** header.<key> formats the date held by inbound header <key>, and fails when it holds none. */
  lemma {:induction false} DateOfInHeader(key: string, pattern: string, ex: Exchange, ctx: Context)
    requires '.' !in key
    ensures var date := HeaderDateOf(ex.inbound.headers, key, ctx);
            date.Some? ==> Eval(DateOf("header." + key, pattern), ex, ctx) == Ok(Str(ctx.formatDate(pattern, date.value)))
    ensures var date := HeaderDateOf(ex.inbound.headers, key, ctx);
            date.None? ==> Eval(DateOf("header." + key, pattern), ex, ctx)
                           == Err(IllegalArgument("Cannot find java.util.Date object at command: header." + key))
  {
    var command := "header." + key;
    assert "header" + "." + key == command;
    DateFromInHeader("header", key, ex, ctx);
    assert "header." <= command;
    assert DateSource(command, ex, ctx) == HeaderDate(ex.inbound.headers, command, ctx);
    assert "Cannot find java.util.Date object at command: " + command
        == "Cannot find java.util.Date object at command: header." + key;
  }

  /** file without a last-modified header fails before any formatting. */
  lemma DateOfFileWithoutHeader(pattern: string, ex: Exchange, ctx: Context)
    requires FILE_LAST_MODIFIED !in ex.inbound.headers
    ensures Eval(DateOf("file", pattern), ex, ctx) == Err(IllegalArgument("Cannot find " + FILE_LAST_MODIFIED + " header at command: file"))
  {
    DateFromFile(ex, ctx);
  }

  // ---------------------------------------------------------------------------
  // Mandatory bodies

  /** A null body is an InvalidPayload error unless null bodies are allowed. */
  lemma MandatoryBodyOnNull(t: TypeName, ex: Exchange, ctx: Context)
    requires ex.inbound.body == Null
    ensures Eval(MandatoryBodyAs(t, true), ex, ctx) == Ok(Null)
    ensures Eval(MandatoryBodyAs(t, false), ex, ctx) == Err(Execution(InvalidPayload(t)))
  {
  }

  /** A bean invocation whose first argument is null counts as no body when null bodies are allowed. */
  lemma MandatoryBodyOnEmptyInvocation(t: TypeName, rest: seq<Value>, ex: Exchange, ctx: Context)
    requires ex.inbound.body == BeanInvocation(Some([Null] + rest))
    ensures Eval(MandatoryBodyAs(t, true), ex, ctx) == Ok(Null)
  {
  }

  /** The class-name form fails first on an unknown class, before looking at the body. */
  lemma MandatoryBodyUnknownClass(className: string, ex: Exchange, ctx: Context)
    requires className !in ctx.classes
    ensures Eval(MandatoryBodyAsClassName(className), ex, ctx) == Err(Execution(ClassNotFound(className)))
    ensures Eval(BodyAsClassName(className), ex, ctx) == Err(Execution(ClassNotFound(className)))
  {
  }

  // ---------------------------------------------------------------------------
  // Navigation, conversion, body type, out and fault bodies

  /** exchangeExceptionOgnl navigates the exchange's exception, else the caught one, and is null without either. */
  lemma ExceptionOgnlNavigatesException(ognl: string, ex: Exchange, ctx: Context)
    ensures ex.exception.Some? ==>
              Eval(ExchangeExceptionOgnl(ognl), ex, ctx) == ctx.navigate(Thrown(ex.exception.value), Some(ognl))
    ensures ex.exception.None? && EXCEPTION_CAUGHT !in ex.properties ==>
              Eval(ExchangeExceptionOgnl(ognl), ex, ctx) == Ok(Null)
  {
  }

  /** ognl(exp, path): an error of exp escapes, a null value stays null, anything else is navigated. */
  lemma OgnlOnTarget(target: Expr, ognl: string, ex: Exchange, ctx: Context)
    ensures Eval(target, ex, ctx).Err? ==> Eval(Ognl(target, ognl), ex, ctx) == Eval(target, ex, ctx)
    ensures Eval(target, ex, ctx) == Ok(Null) ==> Eval(Ognl(target, ognl), ex, ctx) == Ok(Null)
    ensures Eval(target, ex, ctx).Ok? && Eval(target, ex, ctx).value != Null ==>
              Eval(Ognl(target, ognl), ex, ctx) == ctx.navigate(Eval(target, ex, ctx).value, Some(ognl))
  {
    var v := Eval(target, ex, ctx);
    assert !IsLookup(Ognl(target, ognl));
    if v.Ok? {
      assert Eval(Ognl(target, ognl), ex, ctx) == NavigateNonNull(v.value, ognl, ctx);
    }
  }

  /** bodyType is the class of the inbound body, and fails on a null body. */
  lemma BodyTypeNeedsBody(ex: Exchange, ctx: Context)
    ensures Eval(BodyType, ex, ctx).Err? <==> ex.inbound.body == Null
    ensures ex.inbound.body == Null ==> Eval(BodyType, ex, ctx) == Err(NullPointer)
    ensures ex.inbound.body != Null ==> Eval(BodyType, ex, ctx) == Ok(ClassRef(ctx.classOf(ex.inbound.body)))
  {
  }

  /** The out body is null without an out message, even when the inbound body is set. */
  lemma OutBodyNeedsOutMessage(t: TypeName, ex: Exchange, ctx: Context)
    ensures !ex.HasOut() ==> Eval(OutBody, ex, ctx) == Ok(Null) && Eval(OutBodyAs(t), ex, ctx) == Ok(Null)
    ensures ex.HasOut() ==> Eval(OutBody, ex, ctx) == Ok(ex.outbound.value.body)
    ensures ex.HasOut() ==> Eval(OutBodyAs(t), ex, ctx) == Ok(Convert(ex.outbound.value.body, t, ctx))
  {
  }

  /**
   * The fault body is read from the out message when there is one, else from the inbound
   * message, and only when that message is marked as a fault: an out message that is no
   * fault hides a faulty inbound message.
   */
  lemma FaultBodyOfFaultMessage(t: TypeName, ex: Exchange, ctx: Context)
    ensures ex.HasOut() && ex.outbound.value.fault ==>
              Eval(FaultBody, ex, ctx) == Ok(ex.outbound.value.body) &&
              Eval(FaultBodyAs(t), ex, ctx) == Ok(Convert(ex.outbound.value.body, t, ctx))
    ensures ex.HasOut() && !ex.outbound.value.fault ==>
              Eval(FaultBody, ex, ctx) == Ok(Null) && Eval(FaultBodyAs(t), ex, ctx) == Ok(Null)
    ensures !ex.HasOut() && ex.inbound.fault ==>
              Eval(FaultBody, ex, ctx) == Ok(ex.inbound.body) &&
              Eval(FaultBodyAs(t), ex, ctx) == Ok(Convert(ex.inbound.body, t, ctx))
    ensures !ex.HasOut() && !ex.inbound.fault ==>
              Eval(FaultBody, ex, ctx) == Ok(Null) && Eval(FaultBodyAs(t), ex, ctx) == Ok(Null)
  {
  }

  /** convertTo succeeds exactly when its operand does; null stays null and an error escapes unchanged. */
  lemma ConvertToKeepsNullAndErrors(target: Expr, t: TypeName, ex: Exchange, ctx: Context)
    ensures Eval(ConvertTo(target, t), ex, ctx).Ok? <==> Eval(target, ex, ctx).Ok?
    ensures Eval(target, ex, ctx).Err? ==> Eval(ConvertTo(target, t), ex, ctx) == Eval(target, ex, ctx)
    ensures Eval(target, ex, ctx) == Ok(Null) ==> Eval(ConvertTo(target, t), ex, ctx) == Ok(Null)
  {
  }

  // ---------------------------------------------------------------------------
  // toString of concat

  /** The descriptions of the concatenated expressions, in order. */
  function Descriptions(es: seq<Expr>): seq<string> {
    seq(|es|, i requires 0 <= i < |es| => Describe(es[i]))
  }

  /**
   * Without a supplied description, concat is written as "concat" and the list of its
   * expressions' texts: "[]" when empty, one text in brackets, and each further
   * expression's text after ", " before the closing bracket.
   */
  lemma DescribeConcatList(es: seq<Expr>, x: Expr)
    ensures Describe(Concat([], None)) == "concat[]"
    ensures Describe(Concat([x], None)) == "concat[" + Describe(x) + "]"
    ensures |es| > 0 ==>
              var d := Describe(Concat(es, None));
              |d| > 0 && Describe(Concat(es + [x], None)) == d[..|d| - 1] + ", " + Describe(x) + "]"
  {
    DescribeConcatEmpty();
    DescribeConcatSingle(x);
    if |es| > 0 {
      DescribeConcatAppend(es, x);
    }
  }

  /** Without a supplied description, concat is written as "concat" and the list text of the descriptions. */
  lemma DescribeConcatText(es: seq<Expr>)
    ensures Describe(Concat(es, None)) == "concat" + ListText(Descriptions(es))
  {
  }

  lemma DescribeConcatEmpty()
    ensures Describe(Concat([], None)) == "concat[]"
  {
    DescribeConcatText([]);
    ListTextEmpty();
    assert Descriptions([]) == [];
  }

  lemma DescribeConcatSingle(x: Expr)
    ensures Describe(Concat([x], None)) == "concat[" + Describe(x) + "]"
  {
    DescribeConcatText([x]);
    ListTextSingle(Describe(x));
    assert Descriptions([x]) == [Describe(x)];
  }

  lemma DescribeConcatAppend(es: seq<Expr>, x: Expr)
    requires |es| > 0
    ensures var d := Describe(Concat(es, None));
            |d| > 0 && Describe(Concat(es + [x], None)) == d[..|d| - 1] + ", " + Describe(x) + "]"
  {
    DescribeConcatText(es);
    DescribeConcatText(es + [x]);
    DescriptionsAppend(es, x);
    ConcatListAppend(Descriptions(es), Describe(x));
  }

  lemma DescriptionsAppend(es: seq<Expr>, x: Expr)
    ensures Descriptions(es + [x]) == Descriptions(es) + [Describe(x)]
  {
  }

  lemma ConcatListAppend(ds: seq<string>, y: string)
    requires |ds| > 0
    ensures var t := "concat" + ListText(ds);
            |t| > 0 && "concat" + ListText(ds + [y]) == t[..|t| - 1] + ", " + y + "]"
  {
    ListTextAppend(ds, y);
    var t := "concat" + ListText(ds);
    assert t == "concat[" + Separated(ds) + "]";
    assert t[..|t| - 1] == "concat[" + Separated(ds);
  }

  // ---------------------------------------------------------------------------
  // Files

  /** The only-name header wins; without it the file name is stripped of its path. */
  lemma OnlyNamePrefersHeader(ex: Exchange, ctx: Context)
    ensures TextHeader(ex, FILE_NAME_ONLY, ctx).Some? ==>
              Eval(File(FileOnlyName), ex, ctx) == Ok(Str(TextHeader(ex, FILE_NAME_ONLY, ctx).value))
    ensures TextHeader(ex, FILE_NAME_ONLY, ctx).None? ==>
              Eval(File(FileOnlyName), ex, ctx) == Ok(TextValue(ctx.fileUtil(StripPath, TextHeader(ex, FILE_NAME, ctx))))
  {
  }
}
