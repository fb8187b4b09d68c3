/**
 * The REST verb definition: a holder of the verb's attributes and of what the verb routes
 * to. The XML form keeps the target in the shared field `toOrRoute`; the Java form also
 * keeps it in the dedicated field `to` or `route`, and the getters prefer the dedicated one.
 */
module VerbDefinitions {
  import opened Wrappers

  /** The subclass an instance belongs to: a plain verb, or one of the fixed-verb subclasses. */
  datatype VerbKind = PlainVerb | GetVerb | PostVerb | PutVerb | DeleteVerb | HeadVerb | OptionsVerb

  /** RestBindingMode */
  datatype BindingMode = Auto | Off | Json | Xml | JsonXml

  /** A ToDefinition, identified by the endpoint it sends to. */
  datatype ToDef = ToDef(uri: string)

  /** A RouteDefinition, identified by its route id. */
  datatype RouteDef = RouteDef(id: string)

  /** The RestDefinition a verb belongs to, identified by its path. */
  datatype RestDef = RestDef(path: string)

  /** What the shared `toOrRoute` field may hold: a to, a route, or some other identified definition. */
  datatype Target = ToTarget(to: ToDef) | RouteTarget(route: RouteDef) | OtherTarget(id: string)

  /** All fields of a verb definition at one moment, to say what a setter changes and what it keeps. */
  datatype Snapshot = Snapshot(
    httpMethod: Option<string>,
    uri: Option<string>,
    consumes: Option<string>,
    produces: Option<string>,
    bindingMode: Option<BindingMode>,
    skipBindingOnErrorCode: Option<bool>,
    enableCORS: Option<bool>,
    typeName: Option<string>,
    outType: Option<string>,
    toOrRoute: Option<Target>,
    to: Option<ToDef>,
    route: Option<RouteDef>,
    rest: Option<RestDef>)

  /** The shared-field value a to definition is stored as (null stays null). */
  function ToAsTarget(t: Option<ToDef>): (r: Option<Target>)
    ensures r.None? <==> t.None?
    ensures r.Some? ==> r.value.ToTarget? && r.value.to == t.value
  {
    if t.Some? then Some(ToTarget(t.value)) else None
  }

  /** The shared-field value a route definition is stored as (null stays null). */
  function RouteAsTarget(rd: Option<RouteDef>): (r: Option<Target>)
    ensures r.None? <==> rd.None?
    ensures r.Some? ==> r.value.RouteTarget? && r.value.route == rd.value
  {
    if rd.Some? then Some(RouteTarget(rd.value)) else None
  }

  class VerbDefinition {
    /** The runtime class of the instance, fixed at construction. */
    const kind: VerbKind

    var httpMethod: Option<string>
    var uri: Option<string>
    var consumes: Option<string>
    var produces: Option<string>
    var bindingMode: Option<BindingMode>
    var skipBindingOnErrorCode: Option<bool>
    var enableCORS: Option<bool>
    var typeName: Option<string>
    var outType: Option<string>
    /** The target as the XML DSL sets it: a to or a route. */
    var toOrRoute: Option<Target>
    /** The targets as the Java DSL sets them. */
    var to: Option<ToDef>
    var route: Option<RouteDef>
    var rest: Option<RestDef>

    /** A new definition of the given subclass with every field null. */
    constructor(kind: VerbKind)
      ensures this.kind == kind
      ensures State() == Snapshot(None, None, None, None, None, None, None, None, None, None, None, None, None)
    {
      this.kind := kind;
      httpMethod, uri, consumes, produces := None, None, None, None;
      bindingMode, skipBindingOnErrorCode, enableCORS := None, None, None;
      typeName, outType := None, None;
      toOrRoute, to, route, rest := None, None, None, None;
    }

    ghost function State(): Snapshot
      reads this
    {
      Snapshot(httpMethod, uri, consumes, produces, bindingMode, skipBindingOnErrorCode, enableCORS,
               typeName, outType, toOrRoute, to, route, rest)
    }

    // -------------------------------------------------------------------------
    // Derived values

    /** getLabel(): the HTTP method when one is set, else "verb". */
    function Label(): (r: string)
      reads this
      ensures httpMethod.Some? ==> r == httpMethod.value
      ensures httpMethod.None? ==> r == "verb"
    {
      if httpMethod.Some? then httpMethod.value else "verb"
    }

    /**
     * getRoute(): the route the verb goes to. The dedicated field wins; the shared field
     * is consulted only when it is unset, and counts only when it holds a route.
     */
    function GetRoute(): (r: Option<RouteDef>)
      reads this
      ensures route.Some? ==> r == route
      ensures r.Some? ==> r == route || toOrRoute == Some(RouteTarget(r.value))
      ensures r.None? <==> route.None? && !(toOrRoute.Some? && toOrRoute.value.RouteTarget?)
    {
      if route.Some? then route
      else if toOrRoute.Some? && toOrRoute.value.RouteTarget? then Some(toOrRoute.value.route)
      else None
    }

    /** getTo(): the to definition the verb goes to, with the same preference as GetRoute. */
    function GetTo(): (r: Option<ToDef>)
      reads this
      ensures to.Some? ==> r == to
      ensures r.Some? ==> r == to || toOrRoute == Some(ToTarget(r.value))
      ensures r.None? <==> to.None? && !(toOrRoute.Some? && toOrRoute.value.ToTarget?)
    {
      if to.Some? then to
      else if toOrRoute.Some? && toOrRoute.value.ToTarget? then Some(toOrRoute.value.to)
      else None
    }

    /**
     * asVerb(): the verb a fixed-verb subclass stands for, so that the XML form need not
     * repeat it; a plain verb answers its method.
     */
    function AsVerb(): (r: Option<string>)
      reads this
      ensures kind == GetVerb ==> r == Some("get")
      ensures kind == PostVerb ==> r == Some("post")
      ensures kind == PutVerb ==> r == Some("put")
      ensures kind == DeleteVerb ==> r == Some("delete")
      ensures kind == HeadVerb ==> r == Some("head")
      ensures kind == OptionsVerb ==> r == Some("options")
      ensures kind == PlainVerb ==> r == httpMethod
    {
      match kind
      case GetVerb => Some("get")
      case PostVerb => Some("post")
      case PutVerb => Some("put")
      case DeleteVerb => Some("delete")
      case HeadVerb => Some("head")
      case OptionsVerb => Some("options")
      case PlainVerb => httpMethod
    }

    // -------------------------------------------------------------------------
    // Targets

    /** setRoute(route): both the dedicated and the shared field; `to` is kept. */
    method SetRoute(r: Option<RouteDef>)
      modifies this
      ensures State() == old(State()).(route := r, toOrRoute := RouteAsTarget(r))
      ensures GetRoute() == r
      ensures to == old(to) && (old(to).Some? ==> GetTo() == old(to))
      ensures old(to).None? ==> GetTo().None?
    {
      route := r;
      toOrRoute := RouteAsTarget(r);
    }

    /** setTo(to): both the dedicated and the shared field; `route` is kept. */
    method SetTo(t: Option<ToDef>)
      modifies this
      ensures State() == old(State()).(to := t, toOrRoute := ToAsTarget(t))
      ensures GetTo() == t
      ensures route == old(route) && (old(route).Some? ==> GetRoute() == old(route))
      ensures old(route).None? ==> GetRoute().None?
    {
      to := t;
      toOrRoute := ToAsTarget(t);
    }

    /** getToOrRoute() */
    function GetToOrRoute(): Option<Target>
      reads this
    {
      toOrRoute
    }

    /**
     * setToOrRoute(target): only the shared field, so a `to` or `route` set before still
     * decides what GetTo and GetRoute answer.
     */
    method SetToOrRoute(target: Option<Target>)
      modifies this
      ensures State() == old(State()).(toOrRoute := target)
      ensures GetToOrRoute() == target
      ensures old(route).Some? ==> GetRoute() == old(route)
      ensures old(to).Some? ==> GetTo() == old(to)
      ensures old(route).None? ==> GetRoute() == (if target.Some? && target.value.RouteTarget? then Some(target.value.route) else None)
      ensures old(to).None? ==> GetTo() == (if target.Some? && target.value.ToTarget? then Some(target.value.to) else None)
    {
      toOrRoute := target;
    }

    // -------------------------------------------------------------------------
    // Plain attributes: each setter stores its value and touches no other field

    function GetMethod(): Option<string> reads this { httpMethod }
    function GetUri(): Option<string> reads this { uri }
    function GetConsumes(): Option<string> reads this { consumes }
    function GetProduces(): Option<string> reads this { produces }
    function GetBindingMode(): Option<BindingMode> reads this { bindingMode }
    function GetSkipBindingOnErrorCode(): Option<bool> reads this { skipBindingOnErrorCode }
    function GetEnableCORS(): Option<bool> reads this { enableCORS }
    function GetType(): Option<string> reads this { typeName }
    function GetOutType(): Option<string> reads this { outType }
    function GetRest(): Option<RestDef> reads this { rest }

    method SetMethod(m: Option<string>)
      modifies this
      ensures GetMethod() == m
      ensures State() == old(State()).(httpMethod := m)
    {
      httpMethod := m;
    }

    method SetUri(u: Option<string>)
      modifies this
      ensures GetUri() == u
      ensures State() == old(State()).(uri := u)
    {
      uri := u;
    }

    method SetConsumes(c: Option<string>)
      modifies this
      ensures GetConsumes() == c
      ensures State() == old(State()).(consumes := c)
    {
      consumes := c;
    }

    method SetProduces(p: Option<string>)
      modifies this
      ensures GetProduces() == p
      ensures State() == old(State()).(produces := p)
    {
      produces := p;
    }

    method SetBindingMode(mode: Option<BindingMode>)
      modifies this
      ensures GetBindingMode() == mode
      ensures State() == old(State()).(bindingMode := mode)
    {
      bindingMode := mode;
    }

    method SetSkipBindingOnErrorCode(skip: Option<bool>)
      modifies this
      ensures GetSkipBindingOnErrorCode() == skip
      ensures State() == old(State()).(skipBindingOnErrorCode := skip)
    {
      skipBindingOnErrorCode := skip;
    }

    method SetEnableCORS(enable: Option<bool>)
      modifies this
      ensures GetEnableCORS() == enable
      ensures State() == old(State()).(enableCORS := enable)
    {
      enableCORS := enable;
    }

    method SetType(t: Option<string>)
      modifies this
      ensures GetType() == t
      ensures State() == old(State()).(typeName := t)
    {
      typeName := t;
    }

    method SetOutType(t: Option<string>)
      modifies this
      ensures GetOutType() == t
      ensures State() == old(State()).(outType := t)
    {
      outType := t;
    }

    method SetRest(r: Option<RestDef>)
      modifies this
      ensures GetRest() == r
      ensures State() == old(State()).(rest := r)
    {
      rest := r;
    }
  }

  /**
   * A verb built with the Java DSL's setTo and then given a route keeps both: each getter
   * answers from its dedicated field, while the shared field holds the route.
   */
  method ToThenRoute(t: ToDef, r: RouteDef) returns (to: Option<ToDef>, route: Option<RouteDef>, shared: Option<Target>)
    ensures to == Some(t) && route == Some(r) && shared == Some(RouteTarget(r))
  {
    var v := new VerbDefinition(PlainVerb);
    v.SetTo(Some(t));
    v.SetRoute(Some(r));
    to, route, shared := v.GetTo(), v.GetRoute(), v.GetToOrRoute();
  }

  /**
   * A verb whose target is given through the shared field only (the XML DSL) answers the
   * getter of that target's kind and null from the other.
   */
  method SharedOnly(target: Target) returns (to: Option<ToDef>, route: Option<RouteDef>)
    ensures target.ToTarget? ==> to == Some(target.to) && route.None?
    ensures target.RouteTarget? ==> route == Some(target.route) && to.None?
    ensures target.OtherTarget? ==> to.None? && route.None?
  {
    var v := new VerbDefinition(PlainVerb);
    v.SetToOrRoute(Some(target));
    to, route := v.GetTo(), v.GetRoute();
  }
}
