/** `RouterProvider`: a provider that re-exposes another provider's routes,
    either as they are or as clones under a prefix. Its `Routes` is its own
    route list, so the model stores that list as the provider's `routes`. */
module RouterProviders {
  import opened Wrappers
  import opened Runtime
  import opened Requests
  import opened Routes

  /** `new RouterProvider()`: no name, key or purpose, and no routes. */
  function NewRouterProvider(h: Heap): (res: (Heap, ProviderId))
    ensures res.1 == |h.providers| && |res.0.providers| == |h.providers| + 1
    ensures res.0.routes == h.routes && res.0.providers[..|h.providers|] == h.providers
    ensures res.0.providers[res.1] == Provider(None, None, None, [])
    ensures Valid(h) ==> Valid(res.0)
  {
    (h.(providers := h.providers + [Provider(None, None, None, [])]), |h.providers|)
  }

  /** The clone of `original` made under `prefix`: a new route of the same
      runtime type (so the same payload type) carrying the original's name,
      usage, openness and erased handler, at `prefix/route`. `Method` and the
      clone's own typed handler stay unset. */
  function CloneRoute(original: RouteRecord, prefix: string): (c: RouteRecord)
    ensures c.path == prefix + "/" + original.path
    ensures c.name == original.name && c.usage == original.usage && c.isOpen == original.isOpen
    ensures c.messageType == original.messageType && c.erased == original.erased
    ensures c.callName.None? && c.handler.None?
  {
    RouteRecord(original.name, prefix + "/" + original.path, None, original.usage, original.isOpen,
                original.messageType, None, original.erased)
  }

  /** `AssignSource(source, prefix)` on provider `target`: copy `Name`, `Key`
      and `Purpose` from the source, with a non-null prefix replacing the key.
      A null prefix gives the target its own copy of the source's list, holding
      the same routes in the same order; a prefix appends one clone per source
      route, in order, after the routes already there. A provider that appends to the list it is enumerating (itself,
      with a prefix and at least one route) throws. */
  function AssignSource(h: Heap, target: ProviderId, source: ProviderId, prefix: Option<string>): (res: Result<Heap, Fault>)
    requires Valid(h) && target < |h.providers| && source < |h.providers|
    ensures var s := h.providers[source];
            res.Err? <==> prefix.Some? && target == source && |s.routes| > 0
    ensures res.Err? ==> res.error == CollectionModified
    ensures res.Ok? ==> |res.value.providers| == |h.providers|
    ensures res.Ok? ==>
              var s := h.providers[source];
              var h' := res.value;
              var t' := h'.providers[target];
              && Valid(h')
              && Extends(h, h'.(providers := h.providers))
              && (forall p :: 0 <= p < |h.providers| && p != target ==> h'.providers[p] == h.providers[p])
              && t'.name == s.name && t'.purpose == s.purpose
              && t'.key == (if prefix.Some? then prefix else s.key)
              && (prefix.None? ==> h'.routes == h.routes && t'.routes == s.routes)
              && (prefix.Some? ==>
                    && |h'.routes| == |h.routes| + |s.routes|
                    && |t'.routes| == |h.providers[target].routes| + |s.routes|
                    && t'.routes[..|h.providers[target].routes|] == h.providers[target].routes
                    && (forall j :: 0 <= j < |s.routes| ==>
                          && t'.routes[|h.providers[target].routes| + j] == |h.routes| + j
                          && h'.routes[|h.routes| + j] == CloneRoute(h.routes[s.routes[j]], prefix.value)))
  {
    var s := h.providers[source];
    var key := if prefix.Some? then prefix else s.key;
    if prefix.None? then
      Ok(h.(providers := h.providers[target := Provider(s.name, key, s.purpose, s.routes)]))
    else if target == source && |s.routes| > 0 then
      Err(CollectionModified)
    else
      Ok(AppendClones(h, target, source, prefix.value))
  }

  /** The prefixed branch of `AssignSource`: one clone per source route
      appended to the heap, and their ids appended to the target's list. */
  function AppendClones(h: Heap, target: ProviderId, source: ProviderId, prefix: string): (h': Heap)
    requires Valid(h) && target < |h.providers| && source < |h.providers|
    ensures |h'.providers| == |h.providers| && Valid(h')
    ensures Extends(h, h'.(providers := h.providers))
    ensures forall p :: 0 <= p < |h.providers| && p != target ==> h'.providers[p] == h.providers[p]
    ensures var s := h.providers[source];
            var t := h.providers[target];
            var t' := h'.providers[target];
            && t' == Provider(s.name, Some(prefix), s.purpose, t'.routes)
            && |h'.routes| == |h.routes| + |s.routes|
            && |t'.routes| == |t.routes| + |s.routes|
            && t'.routes[..|t.routes|] == t.routes
            && (forall j :: 0 <= j < |s.routes| ==>
                  && t'.routes[|t.routes| + j] == |h.routes| + j
                  && h'.routes[|h.routes| + j] == CloneRoute(h.routes[s.routes[j]], prefix))
  {
    var s := h.providers[source];
    var t := h.providers[target];
    var clones := Clones(h, s.routes, prefix);
    var added := Span(|h.routes|, |s.routes|);
    var routes := h.routes + clones;
    var t' := Provider(s.name, Some(prefix), s.purpose, t.routes + added);
    var h' := Heap(routes, h.providers[target := t']);
    forall i | 0 <= i < |routes| ensures routes[i].erased < |routes| {
      if i >= |h.routes| {
        assert routes[i] == clones[i - |h.routes|];
      }
    }
    forall j | 0 <= j < |t'.routes| ensures t'.routes[j] < |routes| {
      if j >= |t.routes| {
        assert t'.routes[j] == added[j - |t.routes|];
      } else {
        assert t'.routes[j] == t.routes[j];
      }
    }
    assert Valid(h');
    assert t'.routes[..|t.routes|] == t.routes;
    forall j | 0 <= j < |s.routes|
      ensures t'.routes[|t.routes| + j] == |h.routes| + j
      ensures routes[|h.routes| + j] == CloneRoute(h.routes[s.routes[j]], prefix)
    {
      assert routes[|h.routes| + j] == clones[j];
    }
    h'
  }

  /** The clones of the routes `ids`, in order. */
  function Clones(h: Heap, ids: seq<RouteId>, prefix: string): (c: seq<RouteRecord>)
    requires Valid(h) && forall j :: 0 <= j < |ids| ==> ids[j] < |h.routes|
    ensures |c| == |ids|
    ensures forall j :: 0 <= j < |ids| ==> c[j] == CloneRoute(h.routes[ids[j]], prefix)
    ensures forall j :: 0 <= j < |ids| ==> c[j].erased < |h.routes|
  {
    seq(|ids|, j requires 0 <= j < |ids| => CloneRoute(h.routes[ids[j]], prefix))
  }

  /** The ids `base`, `base + 1`, ..., of `n` routes appended to a heap. */
  function Span(base: nat, n: nat): (ids: seq<RouteId>)
    ensures |ids| == n && forall j :: 0 <= j < n ==> ids[j] == base + j
  {
    seq(n, j => base + j)
  }

  /** `AddRouteProvider(source, prefix)`: `AssignSource` on an existing
      provider, with all of its outcomes. */
  function AddRouteProvider(h: Heap, target: ProviderId, source: ProviderId, prefix: Option<string>): (res: Result<Heap, Fault>)
    requires Valid(h) && target < |h.providers| && source < |h.providers|
    ensures res.Err? <==> prefix.Some? && target == source && |h.providers[source].routes| > 0
    ensures res.Err? ==> res.error == CollectionModified
    ensures res.Ok? ==> |res.value.providers| == |h.providers|
    ensures res.Ok? ==>
              var s := h.providers[source];
              var t := h.providers[target];
              var h' := res.value;
              var t' := h'.providers[target];
              && Valid(h')
              && Extends(h, h'.(providers := h.providers))
              && (forall p :: 0 <= p < |h.providers| && p != target ==> h'.providers[p] == h.providers[p])
              && t'.name == s.name && t'.purpose == s.purpose
              && t'.key == (if prefix.Some? then prefix else s.key)
              && (prefix.None? ==> h'.routes == h.routes && t'.routes == s.routes)
              && (prefix.Some? ==>
                    && |h'.routes| == |h.routes| + |s.routes|
                    && |t'.routes| == |t.routes| + |s.routes|
                    && t'.routes[..|t.routes|] == t.routes
                    && (forall j :: 0 <= j < |s.routes| ==>
                          && t'.routes[|t.routes| + j] == |h.routes| + j
                          && h'.routes[|h.routes| + j] == CloneRoute(h.routes[s.routes[j]], prefix.value)))
  {
    AssignSource(h, target, source, prefix)
  }

  /** `new RouterProvider(source)` and `new RouterProvider(source, prefix)`:
      `AssignSource` on a new provider, which cannot be the source and so
      never throws. */
  function FromSource(h: Heap, source: ProviderId, prefix: Option<string>): (res: (Heap, ProviderId))
    requires Valid(h) && source < |h.providers|
    ensures res.1 == |h.providers| && |res.0.providers| == |h.providers| + 1
    ensures Valid(res.0)
    ensures var s := h.providers[source];
            var p := res.0.providers[res.1];
            && p.name == s.name && p.purpose == s.purpose
            && p.key == (if prefix.Some? then prefix else s.key)
            && |p.routes| == |s.routes|
            && (prefix.None? ==> p.routes == s.routes)
    ensures res.0.providers[..|h.providers|] == h.providers
    ensures prefix.None? ==> res.0.routes == h.routes
    ensures prefix.Some? ==>
              var s := h.providers[source];
              var p := res.0.providers[res.1];
              && |res.0.routes| == |h.routes| + |s.routes|
              && res.0.routes[..|h.routes|] == h.routes
              && (forall j :: 0 <= j < |s.routes| ==>
                    && p.routes[j] == |h.routes| + j
                    && res.0.routes[|h.routes| + j] == CloneRoute(h.routes[s.routes[j]], prefix.value))
  {
    var (h1, id) := NewRouterProvider(h);
    var res := AssignSource(h1, id, source, prefix);
    (res.value, id)
  }

  /** A clone answers every request exactly as its original does, now and
      after any later `SetHandler` on the route whose wrapper they share. */
  lemma CloneAnswersLikeOriginal(h: Heap, target: ProviderId, source: ProviderId, prefix: string, j: nat,
                                 f: TypedHandler, request: Request)
    requires Valid(h) && target < |h.providers| && source < |h.providers|
    requires AssignSource(h, target, source, Some(prefix)).Ok?
    requires j < |h.providers[source].routes|
    ensures var h' := AssignSource(h, target, source, Some(prefix)).value;
            var original := h.providers[source].routes[j];
            var clone := |h.routes| + j;
            var owner := h'.routes[clone].erased;
            && Invoke(h', clone, request) == Invoke(h', original, request)
            && Invoke(SetHandler(h', owner, f), clone, request) == Invoke(SetHandler(h', owner, f), original, request)
  {
  }
}
