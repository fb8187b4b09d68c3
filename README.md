# Expression evaluation core of a message-routing engine

This project models, in Dafny, four pieces of an integration framework's routing
engine:

- **The expression factory** (`ExpressionBuilder`). Each factory method builds an
  expression that reads a value out of a message exchange. It can read inbound and
  outbound headers with a fallback to exchange properties, the exchange's exception
  with a fallback to the caught-exception property, bodies, system properties and
  environment variables, constants, types and constant fields, dates, and file-name
  headers. Some expressions transform others: append, prepend, concat, regex
  replacement, conversion and OGNL navigation. The "full key first, then split"
  keyed OGNL adapter also lives here. Expressions are an `Expr` datatype with one
  constructor per factory method. `Eval` says what a built expression returns or
  raises on an exchange. `Describe` is its `toString` text.
- **The cached expression** (`cacheExpression`). It is a class with one mutable slot
  that remembers the first non-null value and serves it from then on.
- **The property-setting processor** (`SetPropertyProcessor`). Its `process` step
  evaluates an expression and then sets one exchange property, records the
  exception, or bails out. On every path it signals `done(true)`.
- **The REST verb definition** (`VerbDefinition`). It is a class whose setters write
  the dedicated `to`/`route` field together with the shared `toOrRoute` field. Its
  getters prefer the dedicated field.

Files:

- `wrappers.dfy`: `Option` (a Java `null` where a value may be missing) and `Result`
  (a value or a raised exception).
- `exchange.dfy`: values, errors, messages and the exchange. It also holds the
  `Context` of runtime collaborators, which are left uninterpreted: the type
  converter, class resolution and constant fields, `OgnlHelper.splitOgnl` and
  `removeOperators`, `ObjectHelper.after`, the method-call navigator, regex
  replacement, date formatting, the clock, system properties and environment, and
  `FileUtil`. It ends with the mutable exchange the processor updates.
- `expression_builder.dfy`: `Expr`, `Eval`, `Describe`, the lookup helpers with
  their contracts, and the concat loop as a method proved against `Eval`.
- `expression_laws.dfy`: the fallback, ordering, null-propagation, type-split and
  date-dispatch laws, stated on `Eval`.
- `cache_expression.dfy`: the cached expression, and lemmas over runs of
  successive evaluations.
- `set_property_processor.dfy`: the processor and the completion callback.
- `verb_definition.dfy`: the verb definition.

Behaviour worth knowing, as the code has it:

- The keyed OGNL adapter consults one keyed source: the inbound headers for
  `headersOgnlExpression`, the exchange properties for `propertyOgnlExpression`. It
  is not a chain of sources.
- The cached expression never remembers a null result. A null slot means "unset",
  so an expression that yields null is evaluated again on every call.
- `regexReplaceAll` with a replacement expression evaluates both operands before it
  tests either for null. An exception from the replacement therefore escapes even
  when the text is null.
- `append`/`prepend` use Java string concatenation, so a null operand contributes
  the text `"null"`. Only `concat` skips nulls.
- `dateExpression` with an `out.header.` command on an exchange without an out
  message reads from a freshly created, empty out message. It therefore fails with
  the missing-header error.

## Model

| member | source | states |
|---|---|---|
| ExpressionBuilder.Fallback | main/java/org/apache/camel/builder/ExpressionBuilder.java:120-125 | The primary value wins when non-null, else the secondary; the result is null exactly when both are null |
| ExpressionBuilder.HeaderOrProperty | main/java/org/apache/camel/builder/ExpressionBuilder.java:117-126 | A non-null inbound header wins; otherwise the exchange property of that name; null exactly when both are absent |
| ExpressionBuilder.TypedHeaderOrProperty | main/java/org/apache/camel/builder/ExpressionBuilder.java:144-153 | Same fallback on typed lookups: a header that does not convert falls through to the converted property; null when both are absent |
| ExpressionBuilder.OutHeaderOrProperty | main/java/org/apache/camel/builder/ExpressionBuilder.java:237-250 | Without an out message the result is null whatever the properties hold; otherwise the out header, falling back to the exchange property |
| ExpressionBuilder.ExceptionValue | main/java/org/apache/camel/builder/ExpressionBuilder.java:312 | The exchange's exception as a value: null exactly when the exchange has none, and that very exception when it has one |
| ExpressionBuilder.CurrentException | main/java/org/apache/camel/builder/ExpressionBuilder.java:309-317 | The exchange's own exception when set; otherwise the EXCEPTION_CAUGHT property read as an exception; always null or an exception |
| ExpressionBuilder.CurrentExceptionOf | main/java/org/apache/camel/builder/ExpressionBuilder.java:335-344 | The cause of the requested type found in the exchange's exception wins; otherwise the one found in the caught-exception property |
| ExpressionBuilder.LookupOr | main/java/org/apache/camel/builder/ExpressionBuilder.java:681-690 | The variable's value when it is set; the default exactly when it is not |
| ExpressionBuilder.NavigateNonNull | main/java/org/apache/camel/builder/ExpressionBuilder.java:836-844 | A null target gives null without navigating; a non-null one is handed to the navigator with the OGNL text |
| ExpressionBuilder.KeyedOgnl | main/java/org/apache/camel/builder/ExpressionBuilder.java:1911-1931 | A non-null entry under the whole path wins outright; otherwise the root key is removeOperators of the first split segment (no segment: index error); a null root entry gives null; otherwise the root entry is navigated with exactly the text after the key |
| ExpressionBuilder.LastIndexOf | main/java/org/apache/camel/builder/ExpressionBuilder.java:767 | The position of the last occurrence of the character, with no occurrence after it, or -1 exactly when the character is absent |
| ExpressionBuilder.TypeValue | main/java/org/apache/camel/builder/ExpressionBuilder.java:758-778 | A resolvable name is that class; otherwise, when the last dot is past position 0 and the prefix resolves, the constant field named by the suffix; it fails with "Cannot find type" exactly in every other case |
| ExpressionBuilder.ResolveMandatoryClass | main/java/org/apache/camel/builder/ExpressionBuilder.java:174-179 | A resolvable class name succeeds; any other fails with a wrapped class-not-found error |
| ExpressionBuilder.MandatoryBody | main/java/org/apache/camel/builder/ExpressionBuilder.java:952-956 | The converted body when it is non-null; a wrapped invalid-payload error exactly when the conversion yields null |
| ExpressionBuilder.HeaderDate | main/java/org/apache/camel/builder/ExpressionBuilder.java:1544-1554 | The header named by the text after the command's last dot gives the date when it holds one; it fails with "Cannot find java.util.Date object" exactly when it does not |
| ExpressionBuilder.DateSource | main/java/org/apache/camel/builder/ExpressionBuilder.java:1540-1567 | Command dispatch: now reads the clock; header./in.header. read inbound headers; out.header. reads out headers; file reads the last-modified header; any other command fails with "Command not supported" |
| ExpressionBuilder.FileDate | main/java/org/apache/camel/builder/ExpressionBuilder.java:1555-1564 | A positive Long last-modified header wins; otherwise a Date last-modified header; otherwise an illegal-argument error |
| ExpressionBuilder.OnlyName | main/java/org/apache/camel/builder/ExpressionBuilder.java:1679-1688 | The only-name header when present; otherwise the file-name header stripped of its path |
| ExpressionBuilder.Collect | main/java/org/apache/camel/builder/ExpressionBuilder.java:1459-1464 | Evaluating each element in order succeeds exactly when every element does, and then yields every element's value in order |
| ExpressionBuilder.CollectFailsAtFirstError | main/java/org/apache/camel/builder/ExpressionBuilder.java:1459-1460 | When elements fail, the error reported is the first failing one's |
| ExpressionBuilder.JoinPresentAppend | main/java/org/apache/camel/builder/ExpressionBuilder.java:1458-1465 | Joining the present texts distributes over concatenation of the lists |
| ExpressionBuilder.JoinPresentSingle | main/java/org/apache/camel/builder/ExpressionBuilder.java:1461-1463 | One text contributes itself, or nothing when it is null |
| ExpressionBuilder.JoinPresentIsPresentTexts | main/java/org/apache/camel/builder/ExpressionBuilder.java:1457-1466 | The buffer the loop builds equals the in-order concatenation of the non-null texts (the reference reading) |
| ExpressionBuilder.NullTextIsSkipped | main/java/org/apache/camel/builder/ExpressionBuilder.java:1461-1463 | A null text anywhere adds nothing and keeps the texts around it in order |
| ExpressionBuilder.EvaluateConcat | main/java/org/apache/camel/builder/ExpressionBuilder.java:1457-1466 | The StringBuilder loop returns exactly what the concat expression evaluates to, including the first escaping error |
| ExpressionBuilder.Describe | main/java/org/apache/camel/builder/ExpressionBuilder.java:1468-1474 | concat's text is the supplied description when there is one; otherwise it starts with "concat[" and ends with "]" (the full list text is DescribeConcatList) |
| ExpressionBuilder.Eval | main/java/org/apache/camel/builder/ExpressionBuilder.java:117-1857 | Every plain lookup (headers, properties, exceptions, system properties, environment, constants, bodies, out and fault bodies, file headers) returns a value and never raises; append, prepend, concat and date yield a string whenever they succeed. Per-constructor behaviour is in the ExpressionLaws rows |
| ExpressionBuilder.TextResult | main/java/org/apache/camel/builder/ExpressionBuilder.java:1364-1368 | Evaluating as a String fails exactly when the evaluation fails, with the same error, and a null value is a null text |
| ExpressionBuilder.FileValue | main/java/org/apache/camel/builder/ExpressionBuilder.java:1666-1857 | A file expression backed by a missing header is null; file:absolute is a Boolean, file:length and file:modified are Longs, the others are Strings (or null); file:onlyname is the only-name text |
| ExpressionBuilder.SeparatedAppend | main/java/org/apache/camel/builder/ExpressionBuilder.java:1473 | An item added to a non-empty list is written after the earlier items and ", " |
| ExpressionBuilder.ListTextEmpty | main/java/org/apache/camel/builder/ExpressionBuilder.java:1473 | An empty list is written "[]" |
| ExpressionBuilder.ListTextSingle | main/java/org/apache/camel/builder/ExpressionBuilder.java:1473 | A one-item list is written as the item in brackets |
| ExpressionBuilder.ListTextAppend | main/java/org/apache/camel/builder/ExpressionBuilder.java:1473 | A longer list is written as its earlier items, ", ", and the last item, in brackets |
| ExpressionLaws.HeaderBeforeProperty | main/java/org/apache/camel/builder/ExpressionBuilder.java:119-125 | A present header is returned even when a like-named property exists |
| ExpressionLaws.HeaderFallsBackToProperty | main/java/org/apache/camel/builder/ExpressionBuilder.java:120-125 | A missing header yields the property, and null when the property is missing too |
| ExpressionLaws.OutHeaderNeedsOutMessage | main/java/org/apache/camel/builder/ExpressionBuilder.java:240-242 | Without an out message the out-header expression is null |
| ExpressionLaws.OutHeaderFallsBackToProperty | main/java/org/apache/camel/builder/ExpressionBuilder.java:244-250 | With an out message lacking the header, the exchange property is returned |
| ExpressionLaws.ExceptionFallsBackToCaught | main/java/org/apache/camel/builder/ExpressionBuilder.java:311-316 | The exchange's exception first; the EXCEPTION_CAUGHT property only when there is none |
| ExpressionLaws.NoExceptionNoMessage | main/java/org/apache/camel/builder/ExpressionBuilder.java:478-484 | With no exception anywhere the exception message is null |
| ExpressionLaws.WholeKeyFirst | main/java/org/apache/camel/builder/ExpressionBuilder.java:1912-1916 | A dotted key present as a header is returned directly, without splitting or navigation |
| ExpressionLaws.EnvironmentDefault | main/java/org/apache/camel/builder/ExpressionBuilder.java:684-689 | The environment value when set; the default only when unset |
| ExpressionLaws.PrependIsSwappedAppend | main/java/org/apache/camel/builder/ExpressionBuilder.java:1407-1434 | prepend(l, r) evaluates like append(r, l) |
| ExpressionLaws.AppendJoinsInOrder | main/java/org/apache/camel/builder/ExpressionBuilder.java:1407-1434 | append yields text(l) then text(r); prepend yields text(r) then text(l); a null side is written "null" |
| ExpressionLaws.RegexKeepsNull | main/java/org/apache/camel/builder/ExpressionBuilder.java:1364-1369 | A null text gives null instead of a replacement |
| ExpressionLaws.RegexByKeepsNull | main/java/org/apache/camel/builder/ExpressionBuilder.java:1388-1394 | With a computed replacement, a null text or a null replacement gives null |
| ExpressionLaws.RegexByReplacementErrorEscapes | main/java/org/apache/camel/builder/ExpressionBuilder.java:1389-1390 | The replacement is evaluated before the null test, so its error escapes even when the text is null |
| ExpressionLaws.ConcatJoinsPresentTexts | main/java/org/apache/camel/builder/ExpressionBuilder.java:1457-1466 | concat is the in-order concatenation of the non-null texts |
| ExpressionLaws.ConcatFailsAtFirstError | main/java/org/apache/camel/builder/ExpressionBuilder.java:1459-1460 | The first failing sub-expression decides concat's error |
| ExpressionLaws.ConcatSkipsNullConstant | main/java/org/apache/camel/builder/ExpressionBuilder.java:1457-1466 | concat of "a", "b", null, "c" is "abc" |
| ExpressionLaws.LastDotAfterPrefix | main/java/org/apache/camel/builder/ExpressionBuilder.java:767-770 | For prefix.suffix with a dot-free suffix, the last dot splits the name back into prefix and suffix |
| ExpressionLaws.TypeReadsConstantField | main/java/org/apache/camel/builder/ExpressionBuilder.java:767-774 | class.FIELD, when it is no class itself, reads the constant field of the class |
| ExpressionLaws.TypeClassFirst | main/java/org/apache/camel/builder/ExpressionBuilder.java:762-765 | A resolvable name is the class, even when it also reads as class.field |
| ExpressionLaws.TypeWithoutDotFails | main/java/org/apache/camel/builder/ExpressionBuilder.java:767-777 | A dot-free name that is no class fails with a class-not-found error |
| ExpressionLaws.TypeLeadingDotFails | main/java/org/apache/camel/builder/ExpressionBuilder.java:767-777 | A last dot at position 0 is never split, so the name fails |
| ExpressionLaws.TypeUnknownClassFails | main/java/org/apache/camel/builder/ExpressionBuilder.java:771-777 | A class.field whose class does not resolve fails with a class-not-found error |
| ExpressionLaws.DateNow | main/java/org/apache/camel/builder/ExpressionBuilder.java:1541-1570 | now formats the clock's current time with the pattern |
| ExpressionLaws.DateUnsupportedCommand | main/java/org/apache/camel/builder/ExpressionBuilder.java:1565-1566 | Any command other than now, header., in.header., out.header. and file fails with "Command not supported for dateExpression: " and the command |
| ExpressionLaws.HeaderDateReadsKey | main/java/org/apache/camel/builder/ExpressionBuilder.java:1544-1548 | prefix.key reads header key; a missing date fails |
| ExpressionLaws.DateFromInHeader | main/java/org/apache/camel/builder/ExpressionBuilder.java:1543-1548 | header.key and in.header.key read inbound header key, failing when it holds no date |
| ExpressionLaws.DateFromOutHeader | main/java/org/apache/camel/builder/ExpressionBuilder.java:1549-1554 | out.header.key reads out header key; with no out message every such command fails |
| ExpressionLaws.DateFromFile | main/java/org/apache/camel/builder/ExpressionBuilder.java:1555-1564 | file takes a positive Long last-modified header; a missing header fails |
| ExpressionLaws.DateOfInHeader | main/java/org/apache/camel/builder/ExpressionBuilder.java:1543-1570 | header.key formats the date held by inbound header key; when it holds none the expression fails with "Cannot find java.util.Date object at command: header.key" |
| ExpressionLaws.DateOfFileWithoutHeader | main/java/org/apache/camel/builder/ExpressionBuilder.java:1555-1563 | file on an exchange without a last-modified header fails with the missing-header message |
| ExpressionLaws.MandatoryBodyOnNull | main/java/org/apache/camel/builder/ExpressionBuilder.java:1019-1040 | A null body gives null when null bodies are allowed and an invalid-payload error otherwise |
| ExpressionLaws.MandatoryBodyOnEmptyInvocation | main/java/org/apache/camel/builder/ExpressionBuilder.java:1025-1032 | A bean invocation whose first argument is null counts as no body |
| ExpressionLaws.MandatoryBodyUnknownClass | main/java/org/apache/camel/builder/ExpressionBuilder.java:920-951 | An unknown class name fails before the body is read |
| ExpressionLaws.ExceptionOgnlNavigatesException | main/java/org/apache/camel/builder/ExpressionBuilder.java:359-371 | The exchange's own exception is navigated with the OGNL path; with no exception and no caught-exception property the result is null |
| ExpressionLaws.OgnlOnTarget | main/java/org/apache/camel/builder/ExpressionBuilder.java:859-867 | An error of the target escapes unchanged; a null target value gives null without navigating; any other value is navigated with the path |
| ExpressionLaws.BodyTypeNeedsBody | main/java/org/apache/camel/builder/ExpressionBuilder.java:1053-1057 | The class of the inbound body; it fails exactly when the body is null |
| ExpressionLaws.OutBodyNeedsOutMessage | main/java/org/apache/camel/builder/ExpressionBuilder.java:1069-1101 | Without an out message the out body, typed or not, is null; with one it is the out body, converted for the typed form |
| ExpressionLaws.FaultBodyOfFaultMessage | main/java/org/apache/camel/builder/ExpressionBuilder.java:1110-1135 | The out message when present, else the inbound one, gives its body only when it is marked as a fault; an out message that is no fault gives null even when the inbound one is |
| ExpressionLaws.ConvertToKeepsNullAndErrors | main/java/org/apache/camel/builder/ExpressionBuilder.java:1193-1199 | Conversion succeeds exactly when its operand does; an error escapes unchanged and null stays null |
| ExpressionLaws.DescribeConcatList | main/java/org/apache/camel/builder/ExpressionBuilder.java:1468-1474 | Without a supplied description concat is written "concat[]" when empty, "concat[" + text + "]" for one expression, and each added expression's text goes after ", " before the closing bracket |
| ExpressionLaws.OnlyNamePrefersHeader | main/java/org/apache/camel/builder/ExpressionBuilder.java:1682-1686 | The only-name header wins; otherwise the path-stripped file name |
| CacheExpression.CacheStep | main/java/org/apache/camel/builder/ExpressionBuilder.java:798-805 | A set slot is served without evaluating; an unset one evaluates, returns the result and stores it; an exception leaves the slot as it was |
| CacheExpression.CacheRun | main/java/org/apache/camel/builder/ExpressionBuilder.java:798-805 | Successive evaluations give one result per call, and the wrapped expression runs at most once per call |
| CacheExpression.SetSlotIsServed | main/java/org/apache/camel/builder/ExpressionBuilder.java:799-804 | Once the slot holds a value, every later call returns it and the wrapped expression never runs |
| CacheExpression.FirstValueWins | main/java/org/apache/camel/builder/ExpressionBuilder.java:799-804 | A first non-null value fixes every later result; the wrapped expression runs exactly once |
| CacheExpression.NullIsNeverRemembered | main/java/org/apache/camel/builder/ExpressionBuilder.java:800-802 | A null-valued expression is evaluated anew on every call and the slot stays unset |
| CacheExpression.CachedConstant | main/java/org/apache/camel/builder/ExpressionBuilder.java:794-805 | cache(constant(V)) with V non-null returns V every time and evaluates once |
| CacheExpression.CachedNullConstant | main/java/org/apache/camel/builder/ExpressionBuilder.java:794-805 | cache(constant(null)) evaluates on every call |
| CacheExpression.CachedExpression.constructor | main/java/org/apache/camel/builder/ExpressionBuilder.java:796 | The slot starts unset |
| CacheExpression.CachedExpression.Evaluate | main/java/org/apache/camel/builder/ExpressionBuilder.java:798-805 | One call is one CacheStep on the slot; the wrapped expression runs exactly when the slot was unset |
| CacheExpression.CachedExpression.ToString | main/java/org/apache/camel/builder/ExpressionBuilder.java:808-810 | The cached expression is written exactly as the wrapped expression |
| Exchanges.MutableExchange.SetProperty | main/java/org/apache/camel/processor/SetPropertyProcessor.java:54 | Only the named property changes |
| Exchanges.MutableExchange.SetException | main/java/org/apache/camel/processor/SetPropertyProcessor.java:56 | Only the exception changes |
| SetPropertyProcessors.Processed | main/java/org/apache/camel/processor/SetPropertyProcessor.java:45-57 | The property is set to the value exactly when evaluation returned and left no exception; a thrown error is recorded; no other property changes |
| SetPropertyProcessors.ExistingExceptionBailsOut | main/java/org/apache/camel/processor/SetPropertyProcessor.java:48-52 | An exchange that already carries an exception keeps its properties |
| SetPropertyProcessors.ValueIsStored | main/java/org/apache/camel/processor/SetPropertyProcessor.java:46-54 | On a clean exchange the property receives the evaluated value and nothing else changes |
| SetPropertyProcessors.AsyncCallback.Done | main/java/org/apache/camel/processor/SetPropertyProcessor.java:59 | Each done signal is recorded with its flag |
| SetPropertyProcessors.SetPropertyProcessor.constructor | main/java/org/apache/camel/processor/SetPropertyProcessor.java:34-37 | The processor holds the property name and the expression |
| SetPropertyProcessors.SetPropertyProcessor.Process | main/java/org/apache/camel/processor/SetPropertyProcessor.java:44-61 | Returns true, signals done(true) exactly once, and leaves the exchange as Processed describes |
| SetPropertyProcessors.SetPropertyProcessor.ToString | main/java/org/apache/camel/processor/SetPropertyProcessor.java:64-66 | "SetProperty(" + name + ", " + expression + ")" |
| SetPropertyProcessors.SetPropertyProcessor.TraceLabel | main/java/org/apache/camel/processor/SetPropertyProcessor.java:68-70 | "setProperty[" + name + ", " + expression + "]", with the same inner text as toString |
| VerbDefinitions.ToAsTarget | main/java/org/apache/camel/model/rest/VerbDefinition.java:236-239 | A to definition is stored in the shared field as a to target; null stays null |
| VerbDefinitions.RouteAsTarget | main/java/org/apache/camel/model/rest/VerbDefinition.java:221-224 | A route definition is stored in the shared field as a route target; null stays null |
| VerbDefinitions.VerbDefinition.constructor | main/java/org/apache/camel/model/rest/VerbDefinition.java:38-81 | A new definition has every field null |
| VerbDefinitions.VerbDefinition.Label | main/java/org/apache/camel/model/rest/VerbDefinition.java:84-90 | The method when set, else "verb" |
| VerbDefinitions.VerbDefinition.GetRoute | main/java/org/apache/camel/model/rest/VerbDefinition.java:211-219 | A set route field wins; a returned route comes from the route field or the shared field; null exactly when neither holds a route |
| VerbDefinitions.VerbDefinition.GetTo | main/java/org/apache/camel/model/rest/VerbDefinition.java:226-234 | Symmetric to GetRoute for to definitions |
| VerbDefinitions.VerbDefinition.AsVerb | main/java/org/apache/camel/model/rest/VerbDefinition.java:303-321 | get, post, put, delete, head or options for the fixed-verb subclasses; the method for a plain verb |
| VerbDefinitions.VerbDefinition.SetRoute | main/java/org/apache/camel/model/rest/VerbDefinition.java:221-224 | Writes route and toOrRoute and nothing else; GetRoute then answers it; a set to field still answers GetTo |
| VerbDefinitions.VerbDefinition.SetTo | main/java/org/apache/camel/model/rest/VerbDefinition.java:236-239 | Writes to and toOrRoute and nothing else; GetTo then answers it; a set route field still answers GetRoute |
| VerbDefinitions.VerbDefinition.SetToOrRoute | main/java/org/apache/camel/model/rest/VerbDefinition.java:248-250 | Writes only toOrRoute; previously set to/route fields keep precedence in the getters |
| VerbDefinitions.VerbDefinition.SetMethod | main/java/org/apache/camel/model/rest/VerbDefinition.java:99-101 | The getter returns the stored value; no other field changes |
| VerbDefinitions.VerbDefinition.SetUri | main/java/org/apache/camel/model/rest/VerbDefinition.java:110-112 | The getter returns the stored value; no other field changes |
| VerbDefinitions.VerbDefinition.SetConsumes | main/java/org/apache/camel/model/rest/VerbDefinition.java:122-124 | The getter returns the stored value; no other field changes |
| VerbDefinitions.VerbDefinition.SetProduces | main/java/org/apache/camel/model/rest/VerbDefinition.java:134-136 | The getter returns the stored value; no other field changes |
| VerbDefinitions.VerbDefinition.SetBindingMode | main/java/org/apache/camel/model/rest/VerbDefinition.java:148-150 | The getter returns the stored value; no other field changes |
| VerbDefinitions.VerbDefinition.SetSkipBindingOnErrorCode | main/java/org/apache/camel/model/rest/VerbDefinition.java:161-163 | The getter returns the stored value; no other field changes |
| VerbDefinitions.VerbDefinition.SetEnableCORS | main/java/org/apache/camel/model/rest/VerbDefinition.java:175-177 | The getter returns the stored value; no other field changes |
| VerbDefinitions.VerbDefinition.SetType | main/java/org/apache/camel/model/rest/VerbDefinition.java:187-189 | The getter returns the stored value; no other field changes |
| VerbDefinitions.VerbDefinition.SetOutType | main/java/org/apache/camel/model/rest/VerbDefinition.java:199-201 | The getter returns the stored value; no other field changes |
| VerbDefinitions.VerbDefinition.SetRest | main/java/org/apache/camel/model/rest/VerbDefinition.java:207-209 | The getter returns the stored value; no other field changes |
| VerbDefinitions.ToThenRoute | main/java/org/apache/camel/model/rest/VerbDefinition.java:211-239 | After setTo(t) then setRoute(r), getTo is t and getRoute is r while the shared field holds r |
| VerbDefinitions.SharedOnly | main/java/org/apache/camel/model/rest/VerbDefinition.java:211-250 | A target given only through setToOrRoute answers the getter of its own kind, and null from the other |

## Left out

- `toExpression`: it creates a producer and sends the exchange synchronously, which is endpoint I/O.
- `languageExpression`, `simpleExpression`, `beanExpression` and `propertiesComponentExpression`: they resolve languages, beans and property placeholders through the runtime.
- `tokenizeExpression`, `regexTokenizeExpression`, the pair, XML and XML-aware tokenizers and `groupIteratorExpression`: they return library iterators (Scanner-based).
- `sortExpression`: it sorts a list in place with an external comparator.
- The registry, type-converter and CamelContext expressions (`registryExpression`, `refExpression`, `typeConverterExpression`, `camelContextExpression`, `camelContextNameExpression`, `camelContextOgnlExpression`, `camelContextPropertiesExpression`, `camelContextPropertyExpression`): they are runtime lookups.
- `threadNameExpression`, `messageIdExpression`, `exchangeIdExpression`, `routeIdExpression`, `exchangePatternExpression`, the attachment expressions, and the expressions returning whole header, property, message or exchange objects: they return runtime objects with no routing logic.
- `exchangeExceptionStackTraceExpression`: it prints stack traces.
- `convertToExpression(expression, Expression type)`: it evaluates the type expression and, when the value is non-null, converts to that value's runtime class; only when the value is null does it return the expression object itself. `convertToExpression(expression, Class type)` with a null type also returns the expression object. Neither form is modelled; the model covers a non-null class type only.
- The regex substitution, date formatting (`SimpleDateFormat`), the method-call (OGNL) navigator, `OgnlHelper`, `ObjectHelper.after`, `ObjectHelper.lookupConstantFieldValue`, `ObjectHelper.getException`, class resolution, the type converter and `FileUtil`: they are uninterpreted parameters in `Exchanges.Context`. The model verifies how values are routed to and from them, not what they compute.
- Failures inside the collaborators: `Context.replaceAll`, `Context.formatDate` and `Context.convert` are total functions, so an illegal group reference in a regex replacement, an invalid `SimpleDateFormat` pattern and a failing type conversion cannot be represented. Each of those would raise from `regexReplaceAll`, `dateExpression` or a typed read.
- `System.getProperty`, `System.getenv` and the clock: they are the maps and the number `now` in `Exchanges.Context`.
- Compiling an invalid regex pattern, which fails when `regexReplaceAll` is built and not when it is evaluated.
- `ExpressionBuilder.DateSource`: calling `exchange.getOut()` for an `out.header.` command creates an empty out message on the exchange. Evaluation in the model is pure, so it does not record that side effect.
- The exception raised by `bodyTypeExpression` on a null body: it is modelled as a null-pointer error.
- The `AtomicReference` of the cached expression and the concurrent first-evaluation race: the model is single-threaded.
- `SetPropertyProcessor.process(Exchange)` through `AsyncProcessorHelper`, `doStart` and `doStop`: they are framework plumbing with no logic here.
- `VerbDefinition`'s fluent methods `get`, `post`, `put`, `delete`, `head` and `verb`: they only delegate to the owning `RestDefinition`. The JAXB annotations are left out too.
- `VerbDefinition` getters of plain attributes: they are plain field reads, modelled as functions without a contract of their own. The setters state what the getters return.
- `RuntimeEndpointRegistry`: it is an interface without an implementation, so its admission and eviction policy is not part of this model.
