/** `RoutedResponse` and `RoutedResponse<T>`: the response envelope, its
    three status setters, and the conversion back from an anonymous response. */
module Responses {
  import opened Wrappers
  import opened Runtime
  import opened Messages

  /** `RoutedResponseState`. */
  datatype ResponseState = Success | Failure | EncodingNotSupported

  /** A response. `typeArg` is the generic argument of the runtime type
      (`None` for the non-generic `RoutedResponse`); `detail` is `Detail`. */
  datatype Response = Response(
    requestKey: Option<string>,
    messages: seq<Message>,
    state: ResponseState,
    isFailure: bool,
    typeArg: Option<TypeTag>,
    detail: Option<Payload>)

  /** `new RoutedResponse()` (typeArg `None`) or `new RoutedResponse<T>()`
      (typeArg `Some(T)`): success, not failed, no messages, no key, no detail. */
  function NewResponse(typeArg: Option<TypeTag>): (r: Response)
    ensures r.state == Success && !r.isFailure
    ensures r.messages == [] && r.requestKey.None? && r.detail.None?
    ensures r.typeArg == typeArg
  {
    Response(None, [], Success, false, typeArg, None)
  }

  /** The two status fields agree: `IsFailure` holds exactly when `State` is `Failure`. */
  predicate Consistent(r: Response) {
    r.isFailure <==> r.state == Failure
  }

  /** Everything but the status fields and the message list is the same, and
      the old messages are followed by `added`. */
  predicate AppendsOnly(r: Response, r': Response, added: seq<Message>) {
    && r'.messages == r.messages + added
    && r'.requestKey == r.requestKey
    && r'.typeArg == r.typeArg
    && r'.detail == r.detail
  }

  function SetAsFailure(r: Response, ms: seq<Message>): (r': Response)
    ensures r'.state == Failure && r'.isFailure
    ensures AppendsOnly(r, r', ms)
  {
    r.(state := Failure, isFailure := true, messages := r.messages + ms)
  }

  function SetAsSuccess(r: Response, ms: seq<Message>): (r': Response)
    ensures r'.state == Success && !r'.isFailure
    ensures AppendsOnly(r, r', ms)
  {
    r.(state := Success, isFailure := false, messages := r.messages + ms)
  }

  /** Unlike the other two setters this one leaves `IsFailure` alone. */
  function SetAsEncodingNotSupported(r: Response, ms: seq<Message>): (r': Response)
    ensures r'.state == EncodingNotSupported && r'.isFailure == r.isFailure
    ensures AppendsOnly(r, r', ms)
  {
    r.(state := EncodingNotSupported, messages := r.messages + ms)
  }

  /** A fresh response is consistent; `SetAsFailure` and `SetAsSuccess` make any
      response consistent; `SetAsEncodingNotSupported` keeps it consistent
      exactly when the response was not marked failed. */
  lemma SettersAndConsistency(r: Response, ms: seq<Message>, t: Option<TypeTag>)
    ensures Consistent(NewResponse(t))
    ensures Consistent(SetAsFailure(r, ms)) && Consistent(SetAsSuccess(r, ms))
    ensures Consistent(SetAsEncodingNotSupported(r, ms)) <==> !r.isFailure
  {
  }

  /** One call of a status setter with its message arguments. */
  datatype Setter = ToFailure(ms: seq<Message>) | ToSuccess(ms: seq<Message>) | ToEncodingNotSupported(ms: seq<Message>)

  function Apply(r: Response, s: Setter): Response {
    match s
    case ToFailure(ms) => SetAsFailure(r, ms)
    case ToSuccess(ms) => SetAsSuccess(r, ms)
    case ToEncodingNotSupported(ms) => SetAsEncodingNotSupported(r, ms)
  }

  /** The setters called in order. */
  function ApplyAll(r: Response, ss: seq<Setter>): Response
    decreases |ss|
  {
    if |ss| == 0 then r else ApplyAll(Apply(r, ss[0]), ss[1..])
  }

  /** All messages the setters are given, in call order. */
  function AllMessages(ss: seq<Setter>): seq<Message>
    decreases |ss|
  {
    if |ss| == 0 then [] else ss[0].ms + AllMessages(ss[1..])
  }

  /** Whatever setters run, the message list is append-only: the original
      messages stay first and in order, followed by every message passed, in
      call order; the key, type and detail never change; and the final state is
      the last setter's. */
  lemma {:induction false} SettersAppendOnly(r: Response, ss: seq<Setter>)
    ensures AppendsOnly(r, ApplyAll(r, ss), AllMessages(ss))
    ensures |ss| > 0 ==> ApplyAll(r, ss).state == Apply(r, ss[|ss| - 1]).state
    decreases |ss|
  {
    if |ss| > 0 {
      var r1 := Apply(r, ss[0]);
      SettersAppendOnly(r1, ss[1..]);
      assert r1.messages + AllMessages(ss[1..]) == r.messages + (ss[0].ms + AllMessages(ss[1..]));
    }
  }

  /** `RoutedResponse<T>.FromAnonymous`: a new typed response whose `Detail` is
      the anonymous response's detail when that is a non-null object of runtime
      type `T`, and otherwise stays null. State, messages and key are dropped. */
  function FromAnonymous(anonymous: Response, t: TypeTag): (r: Response)
    ensures r.typeArg == Some(t)
    ensures r.state == Success && !r.isFailure && r.messages == [] && r.requestKey.None?
    ensures r.detail.Some? <==> anonymous.detail.Some? && anonymous.detail.value.Tag() == t
    ensures r.detail.Some? ==> r.detail == anonymous.detail
  {
    var result := NewResponse(Some(t));
    if anonymous.detail.Some? && anonymous.detail.value.Tag() == t then result.(detail := anonymous.detail)
    else result
  }

  /** The conversion depends on the anonymous response's detail alone. */
  lemma FromAnonymousReadsOnlyDetail(a1: Response, a2: Response, t: TypeTag)
    requires a1.detail == a2.detail
    ensures FromAnonymous(a1, t) == FromAnonymous(a2, t)
  {
  }
}
