/** `RoutedRequest` and `RoutedRequest<T>`: the request envelope, the
    normalisation of its route string into the registry key, the parsing of
    the query-style variables, and the helpers that start a response or a
    message for the request. */
module Requests {
  import opened Wrappers
  import opened Text
  import opened Runtime
  import opened Messages
  import opened Responses

  /** A request. `typeArg` is the generic argument of the runtime type
      (`None` for the non-generic `RoutedRequest`); `detail` is `Detail`.
      The route string is taken to be non-null. */
  datatype Request = Request(
    key: Option<string>,
    userKey: Option<string>,
    route: string,
    encoding: Option<string>,
    typeArg: Option<TypeTag>,
    detail: Option<Payload>)

  const QuestionMark := '?'
  const Ampersand := '&'
  const EqualsSign := '='

  /** The registry key of a route string: empty for an empty or whitespace
      route, otherwise the lower-cased text before the first '?' (all of it
      when there is none). */
  function GetBaseRoute(route: string): (r: string)
    ensures IsBlank(route) ==> r == ""
    ensures !IsBlank(route) ==> IsQueryFreePrefix(ToLower(route), r)
  {
    if IsBlank(route) then ""
    else if IndexOf(route, QuestionMark) > -1 then
      var i := IndexOf(route, QuestionMark);
      ToLowerPrefix(route, i);
      LowerKeepsNonLetter(route[..i], QuestionMark);
      ToLower(route[..i])
    else
      LowerKeepsNonLetter(route, QuestionMark);
      ToLower(route)
  }

  /** `r` is the longest prefix of `s` without a '?', and contains no upper-case letter. */
  predicate IsQueryFreePrefix(s: string, r: string) {
    && r <= s
    && QuestionMark !in r
    && IsLower(r)
    && (|r| < |s| ==> s[|r|] == QuestionMark)
  }

  /** Normalising twice gives the same key as normalising once, except when
      the first key is a non-empty whitespace string (`" ?a"` gives `" "`, and
      `" "` gives `""`). */
  lemma BaseRouteIdempotent(p: string)
    ensures var b := GetBaseRoute(p);
            GetBaseRoute(b) == b <==> !(b != "" && IsBlank(b))
  {
    var b := GetBaseRoute(p);
    if b != "" && !IsBlank(b) {
      LowerIsFixedPoint(b);
    }
  }

  /** A non-blank, lower-case route string without '?' is its own registry key. */
  lemma BaseRouteFixesKey(k: string)
    requires !IsBlank(k) && IsLower(k) && QuestionMark !in k
    ensures GetBaseRoute(k) == k
  {
    LowerIsFixedPoint(k);
  }

  /** The witness that idempotence needs its side condition. */
  lemma BaseRouteNotIdempotentOnBlank()
    ensures GetBaseRoute(" ?a") == " "
    ensures GetBaseRoute(GetBaseRoute(" ?a")) == ""
  {
    assert IndexOf(" ?a", QuestionMark) == 1 by {
      IndexOfUnique(" ?a", QuestionMark, 1);
    }
  }

  /** The keys a lookup can ever produce: the empty string, and every string
      with neither '?' nor an upper-case letter. A registry entry under any
      other key is unreachable through `GetBaseRoute`. */
  lemma BaseRouteImage(k: string)
    ensures (exists q :: GetBaseRoute(q) == k) <==> (k == "" || (IsLower(k) && QuestionMark !in k))
  {
    if k != "" && IsLower(k) && QuestionMark !in k {
      var q := k + [QuestionMark];
      assert !IsBlank(q) by {
        assert q[|k|] == QuestionMark;
      }
      IndexOfUnique(q, QuestionMark, |k|);
      assert q[..|k|] == k;
      LowerIsFixedPoint(k);
      assert GetBaseRoute(q) == k;
    }
    if k == "" {
      assert GetBaseRoute("") == k;
    }
  }

  /** The query segments of a route that contains '?': the text after the first
      '?', split on '&'. */
  function Segments(route: string): seq<string>
    requires QuestionMark in route
  {
    Split(route[IndexOf(route, QuestionMark) + 1..], Ampersand)
  }

  /** The name/value pair one query segment contributes. */
  datatype Binding = Binding(name: string, value: string)

  /** The pair a segment binds: with an '=', the text before the first '=' and
      the text between the first and second '='; without one, the segment itself
      as both name and value. */
  function Parse(segment: string): Binding {
    if EqualsSign in segment then
      var parts := Split(segment, EqualsSign);
      Binding(parts[0], parts[1])
    else Binding(segment, segment)
  }

  function ParseAll(segments: seq<string>): (bs: seq<Binding>)
    ensures |bs| == |segments|
    ensures forall i :: 0 <= i < |segments| ==> bs[i] == Parse(segments[i])
  {
    seq(|segments|, i requires 0 <= i < |segments| => Parse(segments[i]))
  }

  /** One loop step: a name already bound keeps its first value. */
  function Bind(vars: map<string, string>, b: Binding): map<string, string> {
    if b.name in vars then vars else vars[b.name := b.value]
  }

  /** The dictionary after the loop has consumed `bindings`. */
  function Collect(bindings: seq<Binding>): map<string, string>
    decreases |bindings|
  {
    if |bindings| == 0 then map[]
    else Bind(Collect(bindings[..|bindings| - 1]), bindings[|bindings| - 1])
  }

  /** `RoutedRequest.Variables` (`GetBaseVariables`), parsed from the route as
      given, case preserved. */
  function Variables(route: string): (vars: map<string, string>)
    ensures QuestionMark !in route ==> vars == map[]
    ensures QuestionMark in route ==>
              var bs := ParseAll(Segments(route));
              forall k :: k in vars <==> exists i :: 0 <= i < |bs| && bs[i].name == k
  {
    if QuestionMark in route then
      CollectNames(ParseAll(Segments(route)));
      Collect(ParseAll(Segments(route)))
    else map[]
  }

  /** No binding with the same name comes before binding `i`. */
  predicate FirstWithName(bindings: seq<Binding>, i: int)
    requires 0 <= i < |bindings|
  {
    forall j :: 0 <= j < i ==> bindings[j].name != bindings[i].name
  }

  /** The dictionary binds exactly the names some binding carries. */
  lemma {:induction false} CollectNames(bindings: seq<Binding>)
    ensures forall k :: k in Collect(bindings) <==> exists i :: 0 <= i < |bindings| && bindings[i].name == k
    decreases |bindings|
  {
    if |bindings| > 0 {
      var n := |bindings| - 1;
      var init := bindings[..n];
      CollectNames(init);
      forall k
        ensures k in Collect(bindings) <==> exists i :: 0 <= i < |bindings| && bindings[i].name == k
      {
        if k in Collect(init) {
          var i :| 0 <= i < |init| && init[i].name == k;
          assert bindings[i].name == k;
        }
        if exists i :: 0 <= i < |bindings| && bindings[i].name == k {
          var i :| 0 <= i < |bindings| && bindings[i].name == k;
          if i < n {
            assert init[i].name == k;
          }
        }
      }
    }
  }

  /** A name no binding carries is not in the dictionary. */
  lemma {:induction false} CollectUnbound(bindings: seq<Binding>, k: string)
    requires forall j :: 0 <= j < |bindings| ==> bindings[j].name != k
    ensures k !in Collect(bindings)
    decreases |bindings|
  {
    if |bindings| > 0 {
      CollectUnbound(bindings[..|bindings| - 1], k);
    }
  }

  /** Each name is bound to the value of the first binding that carries it. */
  lemma {:induction false} CollectFirstWins(bindings: seq<Binding>, i: nat)
    requires i < |bindings| && FirstWithName(bindings, i)
    ensures bindings[i].name in Collect(bindings) && Collect(bindings)[bindings[i].name] == bindings[i].value
    decreases |bindings|
  {
    var n := |bindings| - 1;
    var init := bindings[..n];
    if i < n {
      assert FirstWithName(init, i) by {
        forall j | 0 <= j < i ensures init[j].name != init[i].name {
          assert init[j] == bindings[j];
        }
      }
      CollectFirstWins(init, i);
    } else {
      forall j | 0 <= j < |init| ensures init[j].name != bindings[n].name {
        assert init[j] == bindings[j];
      }
      CollectUnbound(init, bindings[n].name);
    }
  }

  /** With no '?' there are no variables; otherwise the variables are exactly
      the names the query segments bind, the first occurrence of a name winning. */
  lemma VariablesFirstWins(route: string)
    ensures QuestionMark !in route ==> Variables(route) == map[]
    ensures QuestionMark in route ==>
              var bs := ParseAll(Segments(route));
              && (forall k :: k in Variables(route) <==> exists i :: 0 <= i < |bs| && bs[i].name == k)
              && (forall i :: 0 <= i < |bs| && FirstWithName(bs, i) ==> Variables(route)[bs[i].name] == bs[i].value)
  {
    if QuestionMark in route {
      var bs := ParseAll(Segments(route));
      CollectNames(bs);
      forall i | 0 <= i < |bs| && FirstWithName(bs, i)
        ensures Variables(route)[bs[i].name] == bs[i].value
      {
        CollectFirstWins(bs, i);
      }
    }
  }

  /** A segment containing '=' binds the text before its first '=' to the
      longest '='-free text that follows it (the text up to the second '=', if
      any). */
  lemma SegmentParts(segment: string)
    requires EqualsSign in segment
    ensures var i := IndexOf(segment, EqualsSign);
            var rest := segment[i + 1..];
            var b := Parse(segment);
            && b.name == segment[..i]
            && b.value <= rest
            && EqualsSign !in b.value
            && (|b.value| < |rest| ==> rest[|b.value|] == EqualsSign)
  {
    var i := IndexOf(segment, EqualsSign);
    var rest := segment[i + 1..];
    var parts := Split(segment, EqualsSign);
    assert parts == [segment[..i]] + Split(rest, EqualsSign);
    var v := Split(rest, EqualsSign)[0];
    assert Parse(segment) == Binding(segment[..i], v);
    var j := IndexOf(rest, EqualsSign);
    if j < 0 {
      assert v == rest;
    } else {
      assert v == rest[..j];
    }
  }

  /** A segment without '=' binds itself to itself. */
  lemma SegmentWithoutEquals(segment: string)
    requires EqualsSign !in segment
    ensures Parse(segment) == Binding(segment, segment)
  {
  }

  /** A route whose only '?' is its last character has the single variable
      `"" -> ""`: the empty segment binds itself. */
  lemma TrailingQuestionMark(route: string)
    requires |route| > 0 && IndexOf(route, QuestionMark) == |route| - 1
    ensures Variables(route) == map["" := ""]
  {
    var i := IndexOf(route, QuestionMark);
    assert route[i + 1..] == "";
    EmptySegments();
    var segments := Segments(route);
    assert segments == [""];
    var bindings := ParseAll(segments);
    assert Parse("") == Binding("", "");
    assert bindings == [Binding("", "")];
    assert bindings[..0] == [];
    assert Collect(bindings) == Bind(map[], Binding("", ""));
  }

  lemma EmptySegments()
    ensures Split("", Ampersand) == [""]
  {
    assert IndexOf("", Ampersand) == -1;
  }

  /** `RoutedRequest.CreateResponse()`: a default response carrying the request key. */
  function CreateResponse(request: Request): (r: Response)
    ensures r.requestKey == request.key && r.typeArg.None? && r.detail.None?
    ensures r.state == Success && !r.isFailure && r.messages == []
  {
    NewResponse(None).(requestKey := request.key)
  }

  /** `RoutedRequest<M>.CreateResponse<T>()`: a typed response carrying the
      request key and a freshly constructed `T` as its detail. */
  function CreateTypedResponse(request: Request, t: TypeTag): (r: Response)
    ensures r.requestKey == request.key && r.typeArg == Some(t)
    ensures r.detail == Some(Fresh(t))
    ensures r.state == Success && !r.isFailure && r.messages == []
  {
    NewResponse(Some(t)).(requestKey := request.key, detail := Some(Fresh(t)))
  }

  /** `CreateMessage`: the convenience constructor with the request key. */
  function CreateMessage(request: Request, isError: Option<bool>, kind: Option<MessageKind>,
                         header: Option<string>, text: Option<string>): (m: Message)
    ensures m.requestKey == request.key && m.other.None?
    ensures m.isError == (isError.Some? && isError.value)
    ensures m.kind == (if kind.Some? then kind.value else DefaultKind)
    ensures m.header == header && m.text == text
  {
    MessageWith(request.key, isError, kind, header, text)
  }

  /** `CreateErrorMessage`: an error message carrying the request key. */
  function CreateErrorMessage(request: Request, header: Option<string>, text: Option<string>): (m: Message)
    ensures m.isError && m.kind == Error && m.requestKey == request.key
    ensures m.header == header && m.text == text && m.other.None?
  {
    MessageWith(request.key, Some(true), Some(Error), header, text)
  }

  /** `MakeAnonymous`: the same envelope members, re-typed as `RoutedRequest<object>`. */
  function MakeAnonymous(request: Request): (r: Request)
    ensures r.typeArg == Some(ObjectType)
    ensures r.key == request.key && r.userKey == request.userKey && r.route == request.route
    ensures r.encoding == request.encoding && r.detail == request.detail
  {
    request.(typeArg := Some(ObjectType))
  }
}
