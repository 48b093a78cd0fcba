/** `HularionRoute` and `HularionRoute<Req, Resp>`, together with the object
    store the rest of the model refers into.

    Routes and providers are objects with identity in the source (the router
    keys a dictionary by route object, and a cloned route shares another
    route's handler object). The model keeps them in a `Heap` of records and
    refers to them by index. A route's type-erased `Handler` is the wrapper its
    constructor built: it forwards to the typed `Handler` of the route that
    built it, read at call time. `erased` names that route. */
module Routes {
  import opened Wrappers
  import opened Runtime
  import opened Responses
  import opened Requests

  type RouteId = nat
  type ProviderId = nat

  /** A handler; an exception it throws is an `Err`. */
  type TypedHandler = Request -> Result<Response, Fault>

  /** The properties of a route. `messageType` is `MessageType` (the request
      payload type `Req`), `handler` the typed `Handler` (null until set), and
      `erased` the route whose erased-handler wrapper this route's base
      `Handler` holds. */
  datatype RouteRecord = RouteRecord(
    name: Option<string>,
    path: string,
    callName: Option<string>,
    usage: Option<string>,
    isOpen: bool,
    messageType: TypeTag,
    handler: Option<TypedHandler>,
    erased: RouteId)

  /** An `IRouteProvider` as the router sees it: three descriptive strings and
      the routes it currently exposes, in order. */
  datatype Provider = Provider(
    name: Option<string>,
    key: Option<string>,
    purpose: Option<string>,
    routes: seq<RouteId>)

  /** All route and provider objects. */
  datatype Heap = Heap(routes: seq<RouteRecord>, providers: seq<Provider>)

  /** Every reference stored in the heap points at an existing object. */
  ghost predicate Valid(h: Heap) {
    && (forall i :: 0 <= i < |h.routes| ==> h.routes[i].erased < |h.routes|)
    && (forall p, j :: 0 <= p < |h.providers| && 0 <= j < |h.providers[p].routes| ==>
          h.providers[p].routes[j] < |h.routes|)
  }

  /** `h'` only adds objects to `h`. */
  ghost predicate Extends(h: Heap, h': Heap) {
    && |h.routes| <= |h'.routes|
    && (forall i :: 0 <= i < |h.routes| ==> h'.routes[i] == h.routes[i])
    && h'.providers == h.providers
  }

  /** The members an object initializer assigns after the constructor ran;
      `None` leaves a member at its default. */
  datatype Init = Init(
    name: Option<string>,
    callName: Option<string>,
    usage: Option<string>,
    isOpen: Option<bool>,
    handler: Option<TypedHandler>)

  /** `new HularionRoute<Req, Resp> { Route = path, ... }`: the constructor
      records `Req` as `MessageType` and installs an erased handler that
      forwards to the new route's own typed handler; `IsOpen` is false unless
      the initializer sets it. */
  function Declare(h: Heap, messageType: TypeTag, path: string, init: Init): (res: (Heap, RouteId))
    ensures res.1 == |h.routes| && |res.0.routes| == |h.routes| + 1
    ensures Extends(h, res.0)
    ensures Valid(h) ==> Valid(res.0)
    ensures var r := res.0.routes[res.1];
            && r.messageType == messageType && r.path == path && r.erased == res.1
            && r.name == init.name && r.callName == init.callName && r.usage == init.usage
            && r.isOpen == (init.isOpen == Some(true))
            && r.handler == init.handler
  {
    var id := |h.routes|;
    var record := RouteRecord(init.name, path, init.callName, init.usage, init.isOpen.GetOr(false), messageType, init.handler, id);
    (h.(routes := h.routes + [record]), id)
  }

  /** The typed handler stored on `id`; the record is otherwise unchanged. */
  function WithHandler(h: Heap, id: RouteId, handler: TypedHandler): (h': Heap)
    requires id < |h.routes|
    ensures |h'.routes| == |h.routes| && h'.providers == h.providers
    ensures forall j :: 0 <= j < |h.routes| && j != id ==> h'.routes[j] == h.routes[j]
    ensures h'.routes[id] == h.routes[id].(handler := Some(handler))
  {
    h.(routes := h.routes[id := h.routes[id].(handler := Some(handler))])
  }

  /** `SetHandler(f)`: the typed handler becomes a facade over `f`, so it
      answers every request as `f` does; nothing else changes. */
  function SetHandler(h: Heap, id: RouteId, f: Request -> Result<Response, Fault>): (h': Heap)
    requires id < |h.routes|
    ensures |h'.routes| == |h.routes| && h'.providers == h.providers
    ensures forall j :: 0 <= j < |h.routes| && j != id ==> h'.routes[j] == h.routes[j]
    ensures var r := h'.routes[id];
            && r.handler.Some?
            && (forall request :: r.handler.value(request) == f(request))
            && r.name == h.routes[id].name && r.path == h.routes[id].path
            && r.callName == h.routes[id].callName && r.usage == h.routes[id].usage
            && r.isOpen == h.routes[id].isOpen && r.messageType == h.routes[id].messageType
            && r.erased == h.routes[id].erased
  {
    WithHandler(h, id, request => f(request))
  }

  /** `SetHandlerFacade(handler)`: stores the given handler object itself. */
  function SetHandlerFacade(h: Heap, id: RouteId, handler: TypedHandler): (h': Heap)
    requires id < |h.routes|
    ensures |h'.routes| == |h.routes| && h'.providers == h.providers
    ensures forall j :: 0 <= j < |h.routes| && j != id ==> h'.routes[j] == h.routes[j]
    ensures h'.routes[id].handler == Some(handler)
    ensures h'.routes[id] == h.routes[id].(handler := Some(handler))
  {
    WithHandler(h, id, handler)
  }

  /** Calling the erased `Handler` of route `id`: the wrapper casts the request
      to `RoutedRequest<Req>` of the route that built it (an invalid cast when
      the request's runtime type differs) and then calls that route's typed
      handler as it is now (a null reference when none is set). */
  function Invoke(h: Heap, id: RouteId, request: Request): (r: Result<Response, Fault>)
    requires Valid(h) && id < |h.routes|
    ensures var target := h.routes[h.routes[id].erased];
            && (request.typeArg != Some(target.messageType) ==> r == Err(InvalidCast))
            && (request.typeArg == Some(target.messageType) && target.handler.None? ==> r == Err(NullReference))
            && (request.typeArg == Some(target.messageType) && target.handler.Some? ==> r == target.handler.value(request))
  {
    var target := h.routes[h.routes[id].erased];
    if request.typeArg != Some(target.messageType) then Err(InvalidCast)
    else if target.handler.None? then Err(NullReference)
    else target.handler.value(request)
  }

  /** The erased handler looks the typed handler up when it is called: after
      `SetHandler(f)` on the route that built it, every route holding that
      wrapper answers a correctly typed request with `f`. */
  lemma InvokeSeesLaterHandler(h: Heap, owner: RouteId, f: Request -> Result<Response, Fault>, id: RouteId, request: Request)
    requires Valid(h) && owner < |h.routes| && id < |h.routes|
    requires h.routes[id].erased == owner
    requires request.typeArg == Some(h.routes[owner].messageType)
    ensures Valid(SetHandler(h, owner, f))
    ensures Invoke(SetHandler(h, owner, f), id, request) == f(request)
  {
  }

  /** A request of the wrong runtime type is rejected before any handler runs,
      whatever handler is installed. */
  lemma InvokeRejectsWrongType(h: Heap, owner: RouteId, f: Request -> Result<Response, Fault>, id: RouteId, request: Request)
    requires Valid(h) && owner < |h.routes| && id < |h.routes|
    requires h.routes[id].erased == owner
    requires request.typeArg != Some(h.routes[owner].messageType)
    ensures Valid(SetHandler(h, owner, f))
    ensures Invoke(SetHandler(h, owner, f), id, request) == Err(InvalidCast)
  {
  }

  /** A freshly declared route runs its own typed handler on requests of its
      payload type. */
  lemma DeclaredRouteRunsItsHandler(h: Heap, messageType: TypeTag, path: string, init: Init, request: Request)
    requires Valid(h)
    requires init.handler.Some?
    requires request.typeArg == Some(messageType)
    ensures var (h', id) := Declare(h, messageType, path, init);
            Valid(h') && Invoke(h', id, request) == init.handler.value(request)
  {
  }
}
