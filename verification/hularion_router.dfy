/** `HularionRouter`: the route registry, registration, lookup and dispatch.

    The router's four dictionaries are plain maps; a registration returns the
    new router. Dispatch reads the registry and runs a route's erased handler
    from the heap. JSON parsing and printing belong to an external library and
    appear only through the `Codec` the dispatch functions take. */
module Routing {
  import opened Wrappers
  import opened Text
  import opened Runtime
  import opened Messages
  import opened Responses
  import opened Requests
  import opened Routes

  /** The registry. `routes` and `anonymousRoutes` are keyed by route string,
      `routeProviders` by lower-cased provider key, `routeToProvider` by route
      object. */
  datatype Router = Router(
    routes: map<string, RouteId>,
    anonymousRoutes: map<string, RouteId>,
    routeProviders: map<string, ProviderId>,
    routeToProvider: map<RouteId, ProviderId>,
    baseRoutePath: string,
    systemRouteProvider: string)

  /** The constructor: an empty registry. */
  function NewRouter(baseRoutePath: string, systemRouteProviderName: string): (r: Router)
    ensures r.routes == map[] && r.anonymousRoutes == map[]
    ensures r.routeProviders == map[] && r.routeToProvider == map[]
    ensures r.baseRoutePath == baseRoutePath
  {
    Router(map[], map[], map[], map[], baseRoutePath, systemRouteProviderName)
  }

  /** Every route and provider the registry refers to exists in the heap. */
  ghost predicate ValidIn(r: Router, h: Heap) {
    && Valid(h)
    && (forall k :: k in r.routes ==> r.routes[k] < |h.routes|)
    && (forall k :: k in r.anonymousRoutes ==> r.anonymousRoutes[k] < |h.routes|)
    && (forall k :: k in r.routeProviders ==> r.routeProviders[k] < |h.providers|)
    && (forall id :: id in r.routeToProvider ==> id < |h.routes| && r.routeToProvider[id] < |h.providers|)
  }

  /** An override only ever shadows a route that is registered. */
  predicate OverridesShadow(r: Router) {
    r.anonymousRoutes.Keys <= r.routes.Keys
  }

  function PathOf(h: Heap, id: RouteId): string
    requires id < |h.routes|
  {
    h.routes[id].path
  }

  /** `RegisterRoute`: stores the route under its raw `Route` string, replacing
      any route already there; no other key and no other map changes. */
  function RegisterRoute(r: Router, h: Heap, id: RouteId): (r': Router)
    requires id < |h.routes|
    ensures PathOf(h, id) in r'.routes && r'.routes[PathOf(h, id)] == id
    ensures r'.routes.Keys == r.routes.Keys + {PathOf(h, id)}
    ensures forall k :: k in r.routes && k != PathOf(h, id) ==> r'.routes[k] == r.routes[k]
    ensures r'.anonymousRoutes == r.anonymousRoutes && r'.routeProviders == r.routeProviders
    ensures r'.routeToProvider == r.routeToProvider && r'.baseRoutePath == r.baseRoutePath
    ensures ValidIn(r, h) ==> ValidIn(r', h)
    ensures OverridesShadow(r) ==> OverridesShadow(r')
  {
    r.(routes := r.routes[PathOf(h, id) := id])
  }

  predicate AllRoutes(h: Heap, ids: seq<RouteId>) {
    forall i :: 0 <= i < |ids| ==> ids[i] < |h.routes|
  }

  /** The `routes` map after registering `ids` in order into `m`. */
  function RegisterAll(m: map<string, RouteId>, h: Heap, ids: seq<RouteId>): (m': map<string, RouteId>)
    requires AllRoutes(h, ids)
    ensures m.Keys <= m'.Keys
    ensures (forall k :: k in m ==> m[k] < |h.routes|) ==> (forall k :: k in m' ==> m'[k] < |h.routes|)
    decreases |ids|
  {
    if |ids| == 0 then m
    else RegisterAll(m, h, ids[..|ids| - 1])[PathOf(h, ids[|ids| - 1]) := ids[|ids| - 1]]
  }

  /** `RegisterRoutes`: `RegisterRoute` for each route in argument order. */
  function RegisterRoutes(r: Router, h: Heap, ids: seq<RouteId>): (r': Router)
    requires AllRoutes(h, ids)
    ensures r'.routes == RegisterAll(r.routes, h, ids)
    ensures r'.anonymousRoutes == r.anonymousRoutes && r'.routeProviders == r.routeProviders
    ensures r'.routeToProvider == r.routeToProvider && r'.baseRoutePath == r.baseRoutePath
    ensures ValidIn(r, h) ==> ValidIn(r', h)
    ensures OverridesShadow(r) ==> OverridesShadow(r')
  {
    r.(routes := RegisterAll(r.routes, h, ids))
  }

  /** No later route in `ids` has the same raw path as route `i`. */
  predicate LastWithPath(h: Heap, ids: seq<RouteId>, i: int)
    requires AllRoutes(h, ids) && 0 <= i < |ids|
  {
    forall j :: i < j < |ids| ==> PathOf(h, ids[j]) != PathOf(h, ids[i])
  }

  /** Some route in `ids` has raw path `k`. */
  predicate HasPath(h: Heap, ids: seq<RouteId>, k: string)
    requires AllRoutes(h, ids)
  {
    exists i :: 0 <= i < |ids| && PathOf(h, ids[i]) == k
  }

  /** Registering `ids` adds exactly their raw paths to the keys. */
  lemma {:induction false} RegisterAllKeys(m: map<string, RouteId>, h: Heap, ids: seq<RouteId>, k: string)
    requires AllRoutes(h, ids)
    ensures k in RegisterAll(m, h, ids) <==> k in m || HasPath(h, ids, k)
    decreases |ids|
  {
    if |ids| > 0 {
      var n := |ids| - 1;
      var init := ids[..n];
      RegisterAllKeys(m, h, init, k);
      if HasPath(h, init, k) {
        var i :| 0 <= i < |init| && PathOf(h, init[i]) == k;
        assert PathOf(h, ids[i]) == k;
      }
      if HasPath(h, ids, k) && PathOf(h, ids[n]) != k {
        var i :| 0 <= i < |ids| && PathOf(h, ids[i]) == k;
        assert PathOf(h, init[i]) == k;
      }
    }
  }

  /** A raw path given more than once holds the last route with it. */
  lemma {:induction false} RegisterAllLastWins(m: map<string, RouteId>, h: Heap, ids: seq<RouteId>, i: nat)
    requires AllRoutes(h, ids) && i < |ids| && LastWithPath(h, ids, i)
    ensures PathOf(h, ids[i]) in RegisterAll(m, h, ids)
    ensures RegisterAll(m, h, ids)[PathOf(h, ids[i])] == ids[i]
    decreases |ids|
  {
    var n := |ids| - 1;
    if i < n {
      var init := ids[..n];
      assert LastWithPath(h, init, i) by {
        forall j | i < j < |init| ensures PathOf(h, init[j]) != PathOf(h, init[i]) {
          assert init[j] == ids[j];
        }
      }
      RegisterAllLastWins(m, h, init, i);
      assert init[i] == ids[i];
    }
  }

  /** A key that no given route has keeps its old route. */
  lemma {:induction false} RegisterAllKeepsOthers(m: map<string, RouteId>, h: Heap, ids: seq<RouteId>, k: string)
    requires AllRoutes(h, ids) && k in m && !HasPath(h, ids, k)
    ensures k in RegisterAll(m, h, ids) && RegisterAll(m, h, ids)[k] == m[k]
    decreases |ids|
  {
    if |ids| > 0 {
      var n := |ids| - 1;
      var init := ids[..n];
      assert !HasPath(h, init, k) by {
        forall i | 0 <= i < |init| ensures PathOf(h, init[i]) != k {
          assert init[i] == ids[i];
        }
      }
      RegisterAllKeepsOthers(m, h, init, k);
      assert PathOf(h, ids[n]) != k;
    }
  }

  /** `RegisterRouteProvider`: records the provider under its lower-cased key,
      registers its routes in order, and maps each of them to the provider. A
      null key throws before anything changes. */
  function RegisterRouteProvider(r: Router, h: Heap, pid: ProviderId): (res: Result<Router, Fault>)
    requires Valid(h) && pid < |h.providers|
    ensures h.providers[pid].key.None? <==> res == Err(NullReference)
    ensures res.Ok? ==>
              var p := h.providers[pid];
              var r' := res.value;
              && r'.routeProviders == r.routeProviders[ToLower(p.key.value) := pid]
              && r'.routes == RegisterAll(r.routes, h, p.routes)
              && r'.anonymousRoutes == r.anonymousRoutes
              && (forall id :: id in p.routes ==> id in r'.routeToProvider && r'.routeToProvider[id] == pid)
              && (forall id :: id !in p.routes ==> (id in r'.routeToProvider <==> id in r.routeToProvider))
              && (forall id :: id in r.routeToProvider && id !in p.routes ==> r'.routeToProvider[id] == r.routeToProvider[id])
              && (ValidIn(r, h) ==> ValidIn(r', h))
              && (OverridesShadow(r) ==> OverridesShadow(r'))
  {
    var p := h.providers[pid];
    if p.key.None? then Err(NullReference)
    else
      var r1 := r.(routeProviders := r.routeProviders[ToLower(p.key.value) := pid]);
      var r2 := RegisterRoutes(r1, h, p.routes);
      var owners := Owning(r2.routeToProvider, p.routes, pid);
      assert forall id :: id in p.routes ==> id < |h.routes| by {
        forall id | id in p.routes ensures id < |h.routes| {
          var j :| 0 <= j < |p.routes| && p.routes[j] == id;
        }
      }
      Ok(r2.(routeToProvider := owners))
  }

  /** `routeToProvider[route] = provider` for each of `ids`. */
  function Owning(owners: map<RouteId, ProviderId>, ids: seq<RouteId>, pid: ProviderId): (res: map<RouteId, ProviderId>)
    ensures forall id :: id in ids ==> id in res && res[id] == pid
    ensures forall id :: id !in ids ==> (id in res <==> id in owners)
    ensures forall id :: id in owners && id !in ids ==> res[id] == owners[id]
  {
    owners + map id | id in ids :: pid
  }

  /** `GetRoute`: the route registered under the normalised route string, or
      null; it never throws. */
  function GetRoute(r: Router, route: string): (res: Option<RouteId>)
    ensures res.Some? <==> GetBaseRoute(route) in r.routes
    ensures res.Some? ==> res.value == r.routes[GetBaseRoute(route)]
  {
    var key := GetBaseRoute(route);
    if key in r.routes then Some(r.routes[key]) else None
  }

  /** `HasProvider`: whether a provider is registered under exactly this key
      (no lower-casing happens here). */
  function HasProvider(r: Router, providerKey: string): (b: bool)
    ensures b <==> providerKey in r.routeProviders
  {
    providerKey in r.routeProviders
  }

  /** `ProviderProvider`: the provider registered under exactly this key, or null. */
  function ProviderProvider(r: Router, providerKey: string): (res: Option<ProviderId>)
    ensures res.Some? <==> HasProvider(r, providerKey)
    ensures res.Some? ==> res.value == r.routeProviders[providerKey]
  {
    if providerKey in r.routeProviders then Some(r.routeProviders[providerKey]) else None
  }

  /** A registered provider is found under its lower-cased key, and under its
      key as written only when that is already lower case or was registered
      before. */
  lemma RegisteredProviderIsFound(r: Router, h: Heap, pid: ProviderId)
    requires Valid(h) && pid < |h.providers| && h.providers[pid].key.Some?
    ensures var key := h.providers[pid].key.value;
            var r' := RegisterRouteProvider(r, h, pid).value;
            && ProviderProvider(r', ToLower(key)) == Some(pid)
            && (HasProvider(r', key) <==> key == ToLower(key) || key in r.routeProviders)
  {
  }

  /** `RegisterRoute` of a route whose path is a base route makes it the
      result of `GetRoute` on that path; a route whose path contains '?' or an
      upper-case letter is invisible to every lookup. */
  lemma RegisteredRouteLookup(r: Router, h: Heap, id: RouteId, query: string)
    requires id < |h.routes|
    ensures GetBaseRoute(PathOf(h, id)) == PathOf(h, id) ==>
              GetRoute(RegisterRoute(r, h, id), PathOf(h, id)) == Some(id)
    ensures (QuestionMark in PathOf(h, id) || !IsLower(PathOf(h, id))) ==>
              GetRoute(RegisterRoute(r, h, id), query) == GetRoute(r.(routes := r.routes - {PathOf(h, id)}), query)
  {
    BaseRouteImage(PathOf(h, id));
    var q := GetBaseRoute(query);
    assert q == "" || (IsLower(q) && QuestionMark !in q) by {
      BaseRouteImage(q);
    }
  }

  /** `RegisterAnonymousRoute`: under the normalised route string, a
      registered closed route refuses the override (nothing changes), a
      registered open route gets the override in `anonymousRoutes`, and a
      string with no route registers the route itself as primary. */
  function RegisterAnonymousRoute(r: Router, h: Heap, id: RouteId): (res: Result<Router, Fault>)
    requires ValidIn(r, h) && id < |h.routes|
    ensures var key := GetBaseRoute(PathOf(h, id));
            && (res.Err? <==> key in r.routes && !h.routes[r.routes[key]].isOpen)
            && (res.Err? ==> res.error == RouteNotOpen(key))
            && (res.Ok? && key in r.routes ==>
                  && res.value.anonymousRoutes == r.anonymousRoutes[key := id]
                  && res.value.routes == r.routes)
            && (key !in r.routes ==>
                  && res.Ok?
                  && res.value.routes == r.routes[key := id]
                  && res.value.anonymousRoutes == r.anonymousRoutes)
            && (res.Ok? ==>
                  && res.value.routeProviders == r.routeProviders
                  && res.value.routeToProvider == r.routeToProvider
                  && ValidIn(res.value, h)
                  && (OverridesShadow(r) ==> OverridesShadow(res.value)))
  {
    var key := GetBaseRoute(PathOf(h, id));
    if key in r.routes then
      if !h.routes[r.routes[key]].isOpen then Err(RouteNotOpen(key))
      else Ok(r.(anonymousRoutes := r.anonymousRoutes[key := id]))
    else Ok(r.(routes := r.routes[key := id]))
  }

  /** The external JSON library as the router uses it; each part may throw.
      `serializerRoute` and `deserializerRoute` read the `Route` member of a
      request text through the document parser of the router's `Serializer`
      and of its `Deserializer`. The constructor may give the two different
      case modifiers, so they can read the same text differently. `read`
      reads a whole request as a given runtime type with the `Deserializer`,
      and `write` prints a response with the `Serializer`. */
  datatype Codec = Codec(
    serializerRoute: string -> Result<Option<string>, Fault>,
    deserializerRoute: string -> Result<Option<string>, Fault>,
    read: (string, Option<TypeTag>) -> Result<Request, Fault>,
    write: Response -> Result<string, Fault>)

  /** `Deserialize(type, json)`: the library's request, of exactly the
      requested runtime type (`None` is the non-generic `RoutedRequest`); a
      failure of the library propagates. */
  function Deserialize(codec: Codec, json: string, t: Option<TypeTag>): (res: Result<Request, Fault>)
    ensures res.Err? <==> codec.read(json, t).Err?
    ensures res.Err? ==> res.error == codec.read(json, t).error
    ensures res.Ok? ==> res.value.typeArg == t && res.value == codec.read(json, t).value.(typeArg := t)
  {
    match codec.read(json, t)
    case Ok(request) => Ok(request.(typeArg := t))
    case Err(e) => Err(e)
  }

  /** The registry key of a `Route` member as read; a missing member counts as empty. */
  function RouteKey(field: Option<string>): string {
    GetBaseRoute(field.GetOr(""))
  }

  const JsonRouteCode := "xLUyKbpqcUSzeotmQvAkxA"
  const JsonResultRouteCode := "rFV2tlrdVkGn7yLhrMuuHw"
  const TypedRouteCode := "s6fEn0zj2EWIqTgo5IOqrQ"
  const NoContentText := "The request had no content (G3gdnJ2WaU6xdEFBinvJaA)."

  function UnknownRouteText(key: string, code: string): string {
    "The provided route, '" + key + "', is unknown (" + code + ")."
  }

  /** The unknown-route treatment shared by the three entry points: `State`
      set to `Failure` directly (so `IsFailure` keeps its value) and one
      message holding only the text. */
  function MarkUnknown(response: Response, key: string, code: string): (r: Response)
    ensures r.state == Failure && r.isFailure == response.isFailure
    ensures AppendsOnly(response, r, [MessageWith(None, None, None, None, Some(UnknownRouteText(key, code)))])
  {
    response.(state := Failure, messages := response.messages + [MessageWith(None, None, None, None, Some(UnknownRouteText(key, code)))])
  }

  /** What an unknown-route response looks like: the given key, state
      `Failure` but `IsFailure` false, and exactly one message that names the
      route and is not flagged as an error. */
  predicate IsUnknownRouteResponse(r: Response, requestKey: Option<string>, key: string, code: string) {
    && r.requestKey == requestKey
    && r.state == Failure && !r.isFailure
    && |r.messages| == 1
    && r.messages[0].text == Some(UnknownRouteText(key, code))
    && !r.messages[0].isError && r.messages[0].kind == DefaultKind
    && r.messages[0].requestKey.None? && r.messages[0].header.None?
  }

  /** The answer of a JSON entry point, given the `Route` member as its
      document parser read it: a parser failure propagates; an unknown key
      answers with the unknown-route response keyed by the untyped request's
      `Key`; a known key runs the primary route's erased handler on the
      request read as that route's payload type. A failure to read the
      request propagates in both cases. Overrides are not consulted. */
  ghost predicate AnswersJson(r: Router, h: Heap, codec: Codec, field: Result<Option<string>, Fault>, json: string,
                              code: string, res: Result<Response, Fault>)
    requires ValidIn(r, h)
  {
    && (field.Err? ==> res == Err(field.error))
    && (field.Ok? && RouteKey(field.value) !in r.routes ==>
          var request := Deserialize(codec, json, None);
          && (request.Err? ==> res == Err(request.error))
          && (request.Ok? ==> res.Ok? && IsUnknownRouteResponse(res.value, request.value.key, RouteKey(field.value), code)))
    && (field.Ok? && RouteKey(field.value) in r.routes ==>
          var processor := r.routes[RouteKey(field.value)];
          var request := Deserialize(codec, json, Some(h.routes[processor].messageType));
          && (request.Err? ==> res == Err(request.error))
          && (request.Ok? ==> res == Invoke(h, processor, request.value)))
  }

  /** The JSON dispatch both JSON entry points share, from the `Route` member
      as read. */
  function DispatchJson(r: Router, h: Heap, codec: Codec, field: Result<Option<string>, Fault>, json: string, code: string)
    : (res: Result<Response, Fault>)
    requires ValidIn(r, h)
    ensures AnswersJson(r, h, codec, field, json, code, res)
  {
    match field
    case Err(e) => Err(e)
    case Ok(route) =>
      var key := RouteKey(route);
      if key !in r.routes then
        match Deserialize(codec, json, None)
        case Err(e) => Err(e)
        case Ok(request) => Ok(MarkUnknown(CreateResponse(request), key, code))
      else
        var processor := r.routes[key];
        match Deserialize(codec, json, Some(h.routes[processor].messageType))
        case Err(e) => Err(e)
        case Ok(request) => Invoke(h, processor, request)
  }

  /** `ProcessJsonRequest`: the JSON dispatch with the route read by the
      `Serializer`'s document parser. */
  function ProcessJsonRequest(r: Router, h: Heap, codec: Codec, json: string): (res: Result<Response, Fault>)
    requires ValidIn(r, h)
    ensures AnswersJson(r, h, codec, codec.serializerRoute(json), json, JsonRouteCode, res)
  {
    DispatchJson(r, h, codec, codec.serializerRoute(json), json, JsonRouteCode)
  }

  /** The response for an empty or whitespace request text. */
  function NoContentResponse(): (r: Response)
    ensures r.state == Failure && !r.isFailure
    ensures r.requestKey.None? && r.detail.None? && r.typeArg.None?
    ensures r.messages == [MessageWith(None, None, None, None, Some(NoContentText))]
  {
    NewResponse(None).(state := Failure, messages := [MessageWith(None, None, None, None, Some(NoContentText))])
  }

  /** The response `ProcessJsonRequestToJsonResult` serialises: for an empty or
      whitespace text, the no-content response, built without parsing the
      text; otherwise the JSON dispatch with the route read by the
      `Deserializer`'s document parser. */
  function JsonResultResponse(r: Router, h: Heap, codec: Codec, json: string): (res: Result<Response, Fault>)
    requires ValidIn(r, h)
    ensures IsBlank(json) ==> res == Ok(NoContentResponse())
    ensures !IsBlank(json) ==> AnswersJson(r, h, codec, codec.deserializerRoute(json), json, JsonResultRouteCode, res)
  {
    if IsBlank(json) then Ok(NoContentResponse())
    else DispatchJson(r, h, codec, codec.deserializerRoute(json), json, JsonResultRouteCode)
  }

  /** `ProcessJsonRequestToJsonResult`: that response printed by the
      `Serializer`; a failure before printing propagates. */
  function ProcessJsonRequestToJsonResult(r: Router, h: Heap, codec: Codec, json: string): (res: Result<string, Fault>)
    requires ValidIn(r, h)
    ensures IsBlank(json) ==> res == codec.write(NoContentResponse())
    ensures JsonResultResponse(r, h, codec, json).Ok? ==> res == codec.write(JsonResultResponse(r, h, codec, json).value)
    ensures JsonResultResponse(r, h, codec, json).Err? ==> res == Err(JsonResultResponse(r, h, codec, json).error)
  {
    match JsonResultResponse(r, h, codec, json)
    case Ok(response) => codec.write(response)
    case Err(e) => Err(e)
  }

  /** `ProcessRequest<Req, Resp>`: an unknown route answers with a typed
      unknown-route response; an overridden route runs the override on the
      anonymous copy of the request and converts its answer back; otherwise
      the primary route's erased handler runs. A handler answer of the wrong
      runtime type is an invalid cast. */
  function ProcessRequest(r: Router, h: Heap, request: Request, responseType: TypeTag): (res: Result<Response, Fault>)
    requires ValidIn(r, h)
    ensures var key := GetBaseRoute(request.route);
            && (key !in r.routes ==>
                  && res.Ok?
                  && IsUnknownRouteResponse(res.value, request.key, key, TypedRouteCode)
                  && res.value.typeArg == Some(responseType)
                  && res.value.detail == Some(Fresh(responseType)))
            && (key in r.routes && key in r.anonymousRoutes ==>
                  var answer := Invoke(h, r.anonymousRoutes[key], MakeAnonymous(request));
                  && (answer.Err? ==> res == answer.PropagateFailure())
                  && (answer.Ok? && answer.value.typeArg != Some(ObjectType) ==> res == Err(InvalidCast))
                  && (answer.Ok? && answer.value.typeArg == Some(ObjectType) ==> res == Ok(FromAnonymous(answer.value, responseType))))
            && (key in r.routes && key !in r.anonymousRoutes ==>
                  var answer := Invoke(h, r.routes[key], request);
                  && (answer.Err? ==> res == answer.PropagateFailure())
                  && (answer.Ok? && answer.value.typeArg != Some(responseType) ==> res == Err(InvalidCast))
                  && (answer.Ok? && answer.value.typeArg == Some(responseType) ==> res == answer))
  {
    var key := GetBaseRoute(request.route);
    if key !in r.routes then
      Ok(MarkUnknown(CreateTypedResponse(request, responseType), key, TypedRouteCode))
    else if key in r.anonymousRoutes then
      match Invoke(h, r.anonymousRoutes[key], MakeAnonymous(request))
      case Err(e) => Err(e)
      case Ok(answer) =>
        if answer.typeArg != Some(ObjectType) then Err(InvalidCast) else Ok(FromAnonymous(answer, responseType))
    else
      match Invoke(h, r.routes[key], request)
      case Err(e) => Err(e)
      case Ok(answer) =>
        if answer.typeArg != Some(responseType) then Err(InvalidCast) else Ok(answer)
  }

  /** The JSON entry points never look at `anonymousRoutes`: replacing the
      overrides changes neither result. */
  lemma JsonIgnoresOverrides(r: Router, h: Heap, codec: Codec, json: string, overrides: map<string, RouteId>)
    requires ValidIn(r, h)
    requires forall k :: k in overrides ==> overrides[k] < |h.routes|
    ensures ValidIn(r.(anonymousRoutes := overrides), h)
    ensures ProcessJsonRequest(r.(anonymousRoutes := overrides), h, codec, json) == ProcessJsonRequest(r, h, codec, json)
    ensures ProcessJsonRequestToJsonResult(r.(anonymousRoutes := overrides), h, codec, json)
            == ProcessJsonRequestToJsonResult(r, h, codec, json)
  {
  }

  /** A route whose erased handler forwards to a route of the same payload type
      with handler `f`: JSON dispatch to it answers with `f` applied to the
      request read as that payload type. */
  lemma JsonDispatchRunsPrimary(r: Router, h: Heap, codec: Codec, json: string)
    requires ValidIn(r, h)
    requires codec.serializerRoute(json).Ok? && RouteKey(codec.serializerRoute(json).value) in r.routes
    requires var p := r.routes[RouteKey(codec.serializerRoute(json).value)];
             var target := h.routes[h.routes[p].erased];
             && target.messageType == h.routes[p].messageType && target.handler.Some?
             && codec.read(json, Some(h.routes[p].messageType)).Ok?
    ensures var p := r.routes[RouteKey(codec.serializerRoute(json).value)];
            var f := h.routes[h.routes[p].erased].handler.value;
            var request := Deserialize(codec, json, Some(h.routes[p].messageType));
            request.Ok? && ProcessJsonRequest(r, h, codec, json) == f(request.value)
  {
  }

  /** When both document parsers read the same `Route` member from a
      non-blank text and it names a registered route, the two JSON entry
      points dispatch identically; an unknown key gives each its own
      unknown-route response, differing only in the code. */
  lemma JsonEntryPointsAgree(r: Router, h: Heap, codec: Codec, json: string)
    requires ValidIn(r, h) && !IsBlank(json)
    requires codec.serializerRoute(json) == codec.deserializerRoute(json)
    ensures var field := codec.serializerRoute(json);
            field.Ok? && RouteKey(field.value) in r.routes ==>
              JsonResultResponse(r, h, codec, json) == ProcessJsonRequest(r, h, codec, json)
    ensures var field := codec.serializerRoute(json);
            field.Ok? && RouteKey(field.value) !in r.routes && codec.read(json, None).Ok? ==>
              var request := Deserialize(codec, json, None).value;
              && ProcessJsonRequest(r, h, codec, json) == Ok(MarkUnknown(CreateResponse(request), RouteKey(field.value), JsonRouteCode))
              && JsonResultResponse(r, h, codec, json) == Ok(MarkUnknown(CreateResponse(request), RouteKey(field.value), JsonResultRouteCode))
  {
  }

  /** Once an override is accepted for an open route, the route's primary entry
      is left as it was, and `ProcessRequest` on any route string with that key
      runs the override (on the anonymous copy of the request) instead of the
      primary handler. */
  lemma OverrideTakesEffect(r: Router, h: Heap, id: RouteId, request: Request, responseType: TypeTag, answer: Response)
    requires ValidIn(r, h) && id < |h.routes|
    requires GetBaseRoute(PathOf(h, id)) in r.routes
    requires RegisterAnonymousRoute(r, h, id).Ok?
    requires GetBaseRoute(request.route) == GetBaseRoute(PathOf(h, id))
    requires var target := h.routes[h.routes[id].erased];
             target.messageType == ObjectType && target.handler.Some?
             && target.handler.value(MakeAnonymous(request)) == Ok(answer)
    requires answer.typeArg == Some(ObjectType)
    ensures var r' := RegisterAnonymousRoute(r, h, id).value;
            && r'.routes == r.routes
            && ProcessRequest(r', h, request, responseType) == Ok(FromAnonymous(answer, responseType))
  {
  }

  /** Without an override, `ProcessRequest` answers with the primary handler's
      response when its runtime type is the expected one. */
  lemma PrimaryRunsWithoutOverride(r: Router, h: Heap, request: Request, responseType: TypeTag, answer: Response)
    requires ValidIn(r, h)
    requires GetBaseRoute(request.route) in r.routes && GetBaseRoute(request.route) !in r.anonymousRoutes
    requires var target := h.routes[h.routes[r.routes[GetBaseRoute(request.route)]].erased];
             request.typeArg == Some(target.messageType) && target.handler.Some?
             && target.handler.value(request) == Ok(answer)
    requires answer.typeArg == Some(responseType)
    ensures ProcessRequest(r, h, request, responseType) == Ok(answer)
  {
  }
}
