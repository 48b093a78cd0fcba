/** `MetaRouter`: the provider with one route that lists the router's routes,
    all of them or those of one provider.

    The source's handler reads the registry through four provider delegates
    when it is called. The model's handler answers from a `MetaView`, the
    registry as those delegates see it; `ViewOf` builds it from a router and
    heap, and the lemmas below describe the listing in terms of them. */
module Meta {
  import opened Wrappers
  import opened Text
  import opened Runtime
  import opened Messages
  import opened Responses
  import opened Requests
  import opened Routes
  import opened Routing

  const MetaProviderName := "Meta Route Provider"
  const MetaProviderKey := "HularionRoute.Meta"
  const MetaProviderPurpose := "Provides meta data about routes."
  const MetaRouteName := "Meta Route"
  const MetaRouteUsage := "Provides information about available routes."

  /** The route variable that selects a provider. */
  const ProviderQuery := "provider"

  /** The registry as the handler reads it: every registered route with its
      owner's key, in the dictionary's enumeration order, and for each
      registered provider key its routes labelled with that key. */
  datatype MetaView = MetaView(all: seq<RouteInfo>, byProvider: map<string, seq<RouteInfo>>)

  /** One row of the listing for a route. */
  function InfoOf(route: RouteRecord, provider: Option<string>): (info: RouteInfo)
    ensures info.name == route.name && info.route == route.path && info.usage == route.usage
    ensures info.provider == provider
  {
    RouteInfo(route.name, route.path, route.usage, provider)
  }

  /** `routeFromProvider.Provide(route)?.Key`: the owner's key, or null for a
      route with no owner on record. */
  function OwnerKey(r: Router, h: Heap, id: RouteId): (key: Option<string>)
    requires ValidIn(r, h)
    ensures id !in r.routeToProvider ==> key.None?
    ensures id in r.routeToProvider ==> key == h.providers[r.routeToProvider[id]].key
  {
    if id in r.routeToProvider then h.providers[r.routeToProvider[id]].key else None
  }

  /** `keys` is an enumeration of the registry: every key once. */
  predicate Enumerates(keys: seq<string>, routes: map<string, RouteId>) {
    && (forall i, j :: 0 <= i < j < |keys| ==> keys[i] != keys[j])
    && (forall i :: 0 <= i < |keys| ==> keys[i] in routes)
    && (forall k :: k in routes ==> k in keys)
  }

  /** The rows of provider `pid`'s current routes, in order, labelled `key`. */
  function ProviderListing(h: Heap, pid: ProviderId, key: string): (rows: seq<RouteInfo>)
    requires Valid(h) && pid < |h.providers|
    ensures |rows| == |h.providers[pid].routes|
    ensures forall i :: 0 <= i < |rows| ==> rows[i] == InfoOf(h.routes[h.providers[pid].routes[i]], Some(key))
  {
    var ids := h.providers[pid].routes;
    seq(|ids|, i requires 0 <= i < |ids| => InfoOf(h.routes[ids[i]], Some(key)))
  }

  /** The registry as the handler sees it, with `keys` the order in which the
      route dictionary enumerates its keys. */
  function ViewOf(r: Router, h: Heap, keys: seq<string>): (view: MetaView)
    requires ValidIn(r, h) && Enumerates(keys, r.routes)
    ensures |view.all| == |keys|
    ensures forall i :: 0 <= i < |keys| ==>
              view.all[i] == InfoOf(h.routes[r.routes[keys[i]]], OwnerKey(r, h, r.routes[keys[i]]))
    ensures view.byProvider.Keys == r.routeProviders.Keys
    ensures forall k :: k in r.routeProviders ==> view.byProvider[k] == ProviderListing(h, r.routeProviders[k], k)
  {
    var all := seq(|keys|, i requires 0 <= i < |keys| => InfoOf(h.routes[r.routes[keys[i]]], OwnerKey(r, h, r.routes[keys[i]])));
    MetaView(all, map k | k in r.routeProviders :: ProviderListing(h, r.routeProviders[k], k))
  }

  function NotFoundText(provider: string): string {
    "The indicated provider, '" + provider + "', was not found."
  }

  /** The meta route's handler. The response echoes the request key, carries a
      listing, and stays a success. Without a `provider` variable it lists
      every route; with one, whose value is lower-cased, it lists that
      provider's routes, or nothing plus one warning when no provider has
      that key. */
  function Handle(view: MetaView, request: Request): (response: Response)
    ensures response.requestKey == request.key && response.typeArg == Some(MetaRouteResponseType)
    ensures response.state == Success && !response.isFailure
    ensures response.detail.Some? && response.detail.value.MetaListing?
    ensures var vars := Variables(request.route);
            && (ProviderQuery !in vars ==>
                  response.detail.value.routes == view.all && response.messages == [])
            && (ProviderQuery in vars && ToLower(vars[ProviderQuery]) in view.byProvider ==>
                  response.detail.value.routes == view.byProvider[ToLower(vars[ProviderQuery])] && response.messages == [])
            && (ProviderQuery in vars && ToLower(vars[ProviderQuery]) !in view.byProvider ==>
                  && response.detail.value.routes == []
                  && |response.messages| == 1
                  && response.messages[0].kind == Warn && !response.messages[0].isError
                  && response.messages[0].text == Some(NotFoundText(ToLower(vars[ProviderQuery]))))
  {
    var response := CreateTypedResponse(request, MetaRouteResponseType).(detail := Some(MetaListing([])));
    var vars := Variables(request.route);
    if ProviderQuery in vars then
      var provider := ToLower(vars[ProviderQuery]);
      if provider in view.byProvider then response.(detail := Some(MetaListing(view.byProvider[provider])))
      else response.(messages := response.messages + [MessageWith(None, None, Some(Warn), None, Some(NotFoundText(provider)))])
    else response.(detail := Some(MetaListing(view.all)))
  }

  /** The typed handler installed on the meta route. */
  function MetaHandler(view: MetaView): TypedHandler {
    request => Ok(Handle(view, request))
  }

  /** `new MetaRouter(...)`: one route of payload type `MetaRouteRequest`,
      named "Meta Route", at `baseRoutePath/meta/routes`, closed, answering
      with the meta handler; and the provider exposing exactly that route. */
  function CreateMetaRouter(h: Heap, baseRoutePath: string, view: MetaView): (res: (Heap, ProviderId))
    requires Valid(h)
    ensures Valid(res.0) && Extends(h, res.0.(providers := h.providers))
    ensures res.1 == |h.providers| && |res.0.providers| == |h.providers| + 1
    ensures res.0.providers[..|h.providers|] == h.providers
    ensures var p := res.0.providers[res.1];
            && p.name == Some(MetaProviderName) && p.key == Some(MetaProviderKey)
            && p.purpose == Some(MetaProviderPurpose)
            && |p.routes| == 1 && p.routes[0] < |res.0.routes|
            && var route := res.0.routes[p.routes[0]];
               && route.name == Some(MetaRouteName) && route.usage == Some(MetaRouteUsage)
               && route.path == baseRoutePath + "/meta/routes"
               && route.messageType == MetaRouteRequestType && !route.isOpen
               && (forall request: Request :: request.typeArg == Some(MetaRouteRequestType) ==>
                     Invoke(res.0, p.routes[0], request) == Ok(Handle(view, request)))
  {
    var init := Init(Some(MetaRouteName), None, Some(MetaRouteUsage), None, Some(MetaHandler(view)));
    var (h1, rid) := Declare(h, MetaRouteRequestType, baseRoutePath + "/meta/routes", init);
    var provider := Provider(Some(MetaProviderName), Some(MetaProviderKey), Some(MetaProviderPurpose), [rid]);
    (h1.(providers := h1.providers + [provider]), |h1.providers|)
  }

  /** Without a filter the listing holds every registered route exactly once:
      one row per registry key, in enumeration order, with the route's name,
      path and usage and its owner's key (null without an owner). */
  lemma UnfilteredListsEveryRoute(r: Router, h: Heap, keys: seq<string>, request: Request)
    requires ValidIn(r, h) && Enumerates(keys, r.routes)
    requires ProviderQuery !in Variables(request.route)
    ensures var rows := Handle(ViewOf(r, h, keys), request).detail.value.routes;
            && |rows| == |r.routes|
            && (forall i :: 0 <= i < |rows| ==>
                  var id := r.routes[keys[i]];
                  && rows[i].name == h.routes[id].name && rows[i].route == h.routes[id].path
                  && rows[i].usage == h.routes[id].usage
                  && rows[i].provider == (if id in r.routeToProvider then h.providers[r.routeToProvider[id]].key else None))
            && (forall k :: k in r.routes ==> exists i :: 0 <= i < |rows| && keys[i] == k)
  {
    EnumerationSize(keys, r.routes);
  }

  /** An enumeration has one entry per key. */
  lemma {:induction false} EnumerationSize(keys: seq<string>, routes: map<string, RouteId>)
    requires Enumerates(keys, routes)
    ensures |keys| == |routes|
  {
    var s := set i | 0 <= i < |keys| :: keys[i];
    assert s == routes.Keys;
    DistinctSize(keys);
  }

  /** With a filter naming a registered provider (after lower-casing), the
      listing is exactly that provider's routes in order, each labelled with
      the lower-cased key, and there are no messages. */
  lemma FilteredListsProviderRoutes(r: Router, h: Heap, keys: seq<string>, request: Request)
    requires ValidIn(r, h) && Enumerates(keys, r.routes)
    requires ProviderQuery in Variables(request.route)
    requires HasProvider(r, ToLower(Variables(request.route)[ProviderQuery]))
    ensures var key := ToLower(Variables(request.route)[ProviderQuery]);
            var p := h.providers[ProviderProvider(r, key).value];
            var response := Handle(ViewOf(r, h, keys), request);
            var rows := response.detail.value.routes;
            && response.messages == []
            && |rows| == |p.routes|
            && (forall i :: 0 <= i < |rows| ==>
                  && rows[i].name == h.routes[p.routes[i]].name && rows[i].route == h.routes[p.routes[i]].path
                  && rows[i].usage == h.routes[p.routes[i]].usage && rows[i].provider == Some(key))
  {
  }

  /** A filter naming no registered provider lists nothing and adds one
      warning that names the lower-cased key. */
  lemma UnknownProviderWarns(r: Router, h: Heap, keys: seq<string>, request: Request)
    requires ValidIn(r, h) && Enumerates(keys, r.routes)
    requires ProviderQuery in Variables(request.route)
    requires !HasProvider(r, ToLower(Variables(request.route)[ProviderQuery]))
    ensures var key := ToLower(Variables(request.route)[ProviderQuery]);
            var response := Handle(ViewOf(r, h, keys), request);
            && response.state == Success && !response.isFailure
            && response.detail.value.routes == []
            && response.messages == [MessageWith(None, None, Some(Warn), None, Some(NotFoundText(key)))]
  {
  }
}
