/**
 * Calls to the IEconService Web API: how a call is sent (GET with the
 * parameters in the query, or POST with them in the form), how its reply
 * is read, and the steamid_other field getOffers and getOffer add to each
 * offer they return.
 */
module WebApi {
  import opened Wrappers
  import opened Decimal
  import opened JsValues
  import opened Http
  import opened Identity

  const ServiceBase := "https://api.steampowered.com/IEconService/"

  /**
   * querystring.stringify's view of an argument: the own enumerable
   * properties of an object (or an array), and nothing for anything else.
   */
  function ObjectParams(params: Value): (p: Params)
    ensures |p| == (if params.Obj? || params.Arr? then |OwnEnumerable(params)| else 0)
    ensures forall i :: 0 <= i < |p| ==> p[i] == (OwnEnumerable(params)[i].0, Plain(OwnEnumerable(params)[i].1))
  {
    if params.Obj? || params.Arr? then
      var props := OwnEnumerable(params);
      seq(|props|, i requires 0 <= i < |props| => (props[i].0, Plain(props[i].1)))
    else []
  }

  /** The parameters of an object are sent under its own keys, in its order. */
  lemma ObjectParamNames(props: Props)
    ensures ParamNames(ObjectParams(Obj(props))) == Keys(props)
  {
  }

  /** Each key of an object is sent with the object's value for it, and no other key is sent. */
  lemma {:induction false} ObjectParamsOfObject(props: Props, k: string)
    ensures Param(ObjectParams(Obj(props)), k) == if k in Keys(props) then Some(Plain(Lookup(props, k))) else None
    decreases |props|
  {
    if props != [] {
      var p := ObjectParams(Obj(props));
      ObjectParamsOfObject(props[1..], k);
      assert ObjectParams(Obj(props[1..])) == p[1..];
      assert Keys(props) == [props[0].0] + Keys(props[1..]);
    }
  }

  /**
   * The request doAPICall sends: the key always in the query; the
   * parameters in the query as well for a GET, in the form for a POST.
   */
  function ApiRequest(session: Session, name: string, params: Value, post: bool): (req: Request)
    ensures req.verb == (if post then Post else Get)
    ensures req.uri.path == ServiceBase + name + "/"
    ensures req.referer == None
    ensures |req.uri.queries| >= 1 && req.uri.queries[0] == [("key", Plain(session.apiKey))]
    ensures post ==> req.uri.queries == [[("key", Plain(session.apiKey))]] && req.form == Some(ObjectParams(params))
    ensures !post ==> req.uri.queries == [[("key", Plain(session.apiKey))], ObjectParams(params)] && req.form == None
  {
    var key := [("key", Plain(session.apiKey))];
    if post then Request(Post, Uri(ServiceBase + name + "/", [key]), None, Some(ObjectParams(params)))
    else Request(Get, Uri(ServiceBase + name + "/", [key, ObjectParams(params)]), None, None)
  }

  /**
   * doAPICall's callback: a transport error or a status other than 200
   * first, then a body that is falsy or not an object; otherwise the body.
   */
  function ClassifyApiResponse(resp: Response): (r: Result<Value>)
    ensures TransportFailure(resp).Some? ==> r == Err(TransportFailure(resp).value)
    ensures TransportFailure(resp).None? && !(resp.body.Obj? || resp.body.Arr?) ==> r == Err(InvalidResponse)
    ensures r.Ok? <==> resp.error.None? && resp.status == 200 && (resp.body.Obj? || resp.body.Arr?)
    ensures r.Ok? ==> r.value == resp.body
  {
    if TransportFailure(resp).Some? then Err(TransportFailure(resp).value)
    else if !Truthy(resp.body) || !(resp.body.Obj? || resp.body.Arr?) then Err(InvalidResponse)
    else Ok(resp.body)
  }

  /** A whole doAPICall: what it sends and what it reports. */
  function DoApiCall(session: Session, name: string, params: Value, post: bool, resp: Response): (call: Call<Value>)
    ensures call.sent == Some(ApiRequest(session, name, params, post))
    ensures call.outcome == ClassifyApiResponse(resp)
    ensures call.sent.value.uri.path == ServiceBase + name + "/"
    ensures call.outcome.Ok? <==> resp.error.None? && resp.status == 200 && (resp.body.Obj? || resp.body.Arr?)
    ensures call.outcome.Ok? ==> call.outcome.value == resp.body
  {
    Call(Some(ApiRequest(session, name, params, post)), ClassifyApiResponse(resp))
  }

  // ---------------------------------------------------------------------
  // steamid_other
  // ---------------------------------------------------------------------

  /**
   * `offer.steamid_other = toSteamId(offer.accountid_other)` on one offer:
   * reading off null or undefined throws; an object gains (or has
   * replaced) the property; on any other value the assignment has no
   * effect.
   */
  function WithSteamIdOther(offer: Value): (r: Result<Value>)
    ensures IsNullish(offer) <==> r.Err?
    ensures r.Err? ==> r.error == TypeErrorThrown
    ensures r.Ok? && !offer.Obj? ==> r.value == offer
    ensures r.Ok? && offer.Obj? ==>
      && r.value.Obj?
      && Property(r.value, "steamid_other") == Str(ToSteamId(Property(offer, "accountid_other")))
      && (forall k :: k != "steamid_other" ==> Property(r.value, k) == Property(offer, k))
      && Keys(r.value.props) == if "steamid_other" in Keys(offer.props) then Keys(offer.props)
                                else Keys(offer.props) + ["steamid_other"]
  {
    if IsNullish(offer) then Err(TypeErrorThrown)
    else if offer.Obj? then
      Ok(Obj(Put(offer.props, "steamid_other", Str(ToSteamId(Lookup(offer.props, "accountid_other"))))))
    else Ok(offer)
  }

  /** `offers.map(...)` with that callback: the first offer that throws stops the map. */
  function AnnotatedOffers(offers: seq<Value>): Result<seq<Value>> {
    if offers == [] then Ok([])
    else match WithSteamIdOther(offers[0])
      case Err(e) => Err(e)
      case Ok(o) => Prepend([o], AnnotatedOffers(offers[1..]))
  }

  lemma AnnotatedOffersStep(offers: seq<Value>, i: nat)
    requires i < |offers|
    ensures AnnotatedOffers(offers[i..]) ==
      match WithSteamIdOther(offers[i])
      case Err(e) => Err(e)
      case Ok(o) => Prepend([o], AnnotatedOffers(offers[i + 1..]))
  {
    assert offers[i..][0] == offers[i];
    assert offers[i..][1..] == offers[i + 1..];
  }

  /** Array.prototype.map over the offers, one offer per turn. */
  method AnnotateOffers(offers: seq<Value>) returns (r: Result<seq<Value>>)
    ensures r == AnnotatedOffers(offers)
  {
    var annotated: seq<Value> := [];
    var i := 0;
    assert offers[0..] == offers;
    PrependNothing(AnnotatedOffers(offers));
    while i < |offers|
      invariant 0 <= i <= |offers|
      invariant AnnotatedOffers(offers) == Prepend(annotated, AnnotatedOffers(offers[i..]))
    {
      var offer := WithSteamIdOther(offers[i]);
      AnnotatedOffersStep(offers, i);
      if offer.Err? {
        return Err(offer.error);
      }
      PrependTwice(annotated, [offer.value], AnnotatedOffers(offers[i + 1..]));
      annotated := annotated + [offer.value];
      i := i + 1;
    }
    r := Ok(annotated);
    assert annotated + [] == annotated;
  }

  /**
   * The map throws exactly when some offer is null or undefined; otherwise
   * it keeps the number and the order of the offers, each offer annotated
   * in its place.
   */
  lemma {:induction false} AnnotatedOffersShape(offers: seq<Value>)
    ensures AnnotatedOffers(offers).Err? <==> exists i :: 0 <= i < |offers| && IsNullish(offers[i])
    ensures AnnotatedOffers(offers).Err? ==> AnnotatedOffers(offers).error == TypeErrorThrown
    ensures AnnotatedOffers(offers).Ok? ==>
      && |AnnotatedOffers(offers).value| == |offers|
      && forall i :: 0 <= i < |offers| ==> Ok(AnnotatedOffers(offers).value[i]) == WithSteamIdOther(offers[i])
  {
    if offers != [] {
      AnnotatedOffersShape(offers[1..]);
      if !IsNullish(offers[0]) && AnnotatedOffers(offers[1..]).Ok? {
        var rest := AnnotatedOffers(offers[1..]).value;
        var all := AnnotatedOffers(offers).value;
        forall i | 0 <= i < |offers|
          ensures Ok(all[i]) == WithSteamIdOther(offers[i])
        {
          if i > 0 {
            assert all[i] == rest[i - 1];
            assert offers[1..][i - 1] == offers[i];
          }
        }
      }
      if exists i :: 0 <= i < |offers| && IsNullish(offers[i]) {
        var i :| 0 <= i < |offers| && IsNullish(offers[i]);
        if i > 0 {
          assert offers[1..][i - 1] == offers[i];
        }
      }
    }
  }

  // ---------------------------------------------------------------------
  // getOffers and getOffer
  // ---------------------------------------------------------------------

  /**
   * One `if (list !== undefined) response.list = list.map(...)` of
   * getOffers: an absent list is left alone; a list that is not an array
   * has no map and throws.
   */
  function AnnotatedList(response: Value, key: string): (r: Result<Value>)
    ensures Property(response, key) == Undefined ==> r == Ok(response)
    ensures Property(response, key) != Undefined && !Property(response, key).Arr? ==> r == Err(TypeErrorThrown)
  {
    var list := Property(response, key);
    if list == Undefined then Ok(response)
    else if !list.Arr? then Err(TypeErrorThrown)
    else match AnnotatedOffers(list.elems)
      case Err(e) => Err(e)
      case Ok(l) => Ok(Obj(Put(response.props, key, Arr(l))))
  }

  /**
   * getOffers' callback on a body the call accepted: with no `response`
   * in it reading the lists throws; otherwise the received offers, then
   * the sent offers, are annotated, and the body is passed on with them.
   */
  function GetOffersBody(res: Value): Result<Value> {
    var response := Property(res, "response");
    if IsNullish(response) then Err(TypeErrorThrown)
    else match AnnotatedList(response, "trade_offers_received")
      case Err(e) => Err(e)
      case Ok(r1) =>
        match AnnotatedList(r1, "trade_offers_sent")
        case Err(e) => Err(e)
        case Ok(r2) => Ok(Obj(Put(res.props, "response", r2)))
  }

  /**
   * getOffers: a GetTradeOffers/v1 GET with the caller's options; on
   * success each list present in the response is mapped and written back
   * into it, the received offers first.
   */
  method GetOffers(session: Session, options: Value, resp: Response) returns (call: Call<Value>)
    ensures call.sent == Some(ApiRequest(session, "GetTradeOffers/v1", options, false))
    ensures ClassifyApiResponse(resp).Err? ==> call.outcome == ClassifyApiResponse(resp)
    ensures ClassifyApiResponse(resp).Ok? ==> call.outcome == GetOffersBody(resp.body)
  {
    call := DoApiCall(session, "GetTradeOffers/v1", options, false, resp);
    if call.outcome.Err? {
      return;
    }
    var res := call.outcome.value;
    var response := Property(res, "response");
    if IsNullish(response) {
      return Call(call.sent, Err(TypeErrorThrown));
    }
    var received := AnnotateList(response, "trade_offers_received");
    if received.Err? {
      return Call(call.sent, Err(received.error));
    }
    var sent := AnnotateList(received.value, "trade_offers_sent");
    if sent.Err? {
      return Call(call.sent, Err(sent.error));
    }
    call := Call(call.sent, Ok(Obj(Put(res.props, "response", sent.value))));
  }

  /** One `if (list !== undefined) response.list = list.map(...)`, with the map run as a loop. */
  method AnnotateList(response: Value, key: string) returns (r: Result<Value>)
    ensures r == AnnotatedList(response, key)
  {
    var list := Property(response, key);
    if list == Undefined {
      return Ok(response);
    }
    if !list.Arr? {
      return Err(TypeErrorThrown);
    }
    var mapped := AnnotateOffers(list.elems);
    if mapped.Err? {
      return Err(mapped.error);
    }
    r := Ok(Obj(Put(response.props, key, Arr(mapped.value))));
  }

  /**
   * getOffer's callback: `res.response.offer`, when present, gains
   * steamid_other; reading it off a missing response, or reading
   * accountid_other off a null offer, throws.
   */
  function GetOfferBody(res: Value): Result<Value> {
    var response := Property(res, "response");
    if IsNullish(response) then Err(TypeErrorThrown)
    else
      var offer := Property(response, "offer");
      if offer == Undefined then Ok(res)
      else match WithSteamIdOther(offer)
        case Err(e) => Err(e)
        case Ok(o) => Ok(Obj(Put(res.props, "response", Obj(Put(response.props, "offer", o)))))
  }

  /** getOffer: a GetTradeOffer/v1 GET with the caller's options, then the annotation. */
  function GetOffer(session: Session, options: Value, resp: Response): (call: Call<Value>)
    ensures call.sent == Some(ApiRequest(session, "GetTradeOffer/v1", options, false))
    ensures ClassifyApiResponse(resp).Err? ==> call.outcome == ClassifyApiResponse(resp)
    ensures ClassifyApiResponse(resp).Ok? ==> call.outcome == GetOfferBody(resp.body)
    ensures call.outcome.Ok? <==>
      && ClassifyApiResponse(resp).Ok?
      && !IsNullish(Property(resp.body, "response"))
      && Property(Property(resp.body, "response"), "offer") != Null
    ensures call.outcome.Err? && ClassifyApiResponse(resp).Ok? ==> call.outcome.error == TypeErrorThrown
  {
    var call := DoApiCall(session, "GetTradeOffer/v1", options, false, resp);
    match call.outcome
    case Err(e) => call
    case Ok(res) => Call(call.sent, GetOfferBody(res))
  }

  // ---------------------------------------------------------------------
  // getSummary, declineOffer, cancelOffer
  // ---------------------------------------------------------------------

  /** getSummary: a GetTradeOffersSummary/v1 GET whose reply is passed on as it is. */
  function GetSummary(session: Session, options: Value, resp: Response): (call: Call<Value>)
    ensures call.sent == Some(ApiRequest(session, "GetTradeOffersSummary/v1", options, false))
    ensures call.outcome == ClassifyApiResponse(resp)
    ensures call.sent.value.verb == Get && call.sent.value.form == None
    ensures call.outcome.Ok? <==> resp.error.None? && resp.status == 200 && (resp.body.Obj? || resp.body.Arr?)
    ensures call.outcome.Ok? ==> call.outcome.value == resp.body
  {
    DoApiCall(session, "GetTradeOffersSummary/v1", options, false, resp)
  }

  /**
   * declineOffer and cancelOffer: a POST whose only parameter is the
   * offer id; reading tradeOfferId off null or undefined throws before
   * anything is sent.
   */
  function OfferIdCall(session: Session, name: string, options: Value, resp: Response): (call: Call<Value>)
    ensures IsNullish(options) ==> call == Call(None, Err(TypeErrorThrown))
    ensures !IsNullish(options) ==>
      && call.sent == Some(ApiRequest(session, name, Obj([("tradeofferid", Property(options, "tradeOfferId"))]), true))
      && call.outcome == ClassifyApiResponse(resp)
    ensures !IsNullish(options) ==>
      && call.sent.value.verb == Post
      && call.sent.value.uri.path == ServiceBase + name + "/"
      && call.sent.value.uri.queries == [[("key", Plain(session.apiKey))]]
      && ParamNames(call.sent.value.form.value) == ["tradeofferid"]
      && Param(call.sent.value.form.value, "tradeofferid") == Some(Plain(Property(options, "tradeOfferId")))
  {
    if IsNullish(options) then Call(None, Err(TypeErrorThrown))
    else
      var form := [("tradeofferid", Property(options, "tradeOfferId"))];
      ObjectParamNames(form);
      ObjectParamsOfObject(form, "tradeofferid");
      DoApiCall(session, name, Obj(form), true, resp)
  }

  /** declineOffer: DeclineTradeOffer/v1 with the offer id. */
  function DeclineOffer(session: Session, options: Value, resp: Response): (call: Call<Value>)
    ensures call == OfferIdCall(session, "DeclineTradeOffer/v1", options, resp)
    ensures IsNullish(options) <==> call.sent.None?
    ensures !IsNullish(options) ==>
      && call.sent.value.verb == Post
      && call.sent.value.uri.path == ServiceBase + "DeclineTradeOffer/v1/"
      && ParamNames(call.sent.value.form.value) == ["tradeofferid"]
  {
    OfferIdCall(session, "DeclineTradeOffer/v1", options, resp)
  }

  /** cancelOffer: CancelTradeOffer/v1 with the offer id. */
  function CancelOffer(session: Session, options: Value, resp: Response): (call: Call<Value>)
    ensures call == OfferIdCall(session, "CancelTradeOffer/v1", options, resp)
    ensures IsNullish(options) <==> call.sent.None?
    ensures !IsNullish(options) ==>
      && call.sent.value.verb == Post
      && call.sent.value.uri.path == ServiceBase + "CancelTradeOffer/v1/"
      && ParamNames(call.sent.value.form.value) == ["tradeofferid"]
  {
    OfferIdCall(session, "CancelTradeOffer/v1", options, resp)
  }

  // ---------------------------------------------------------------------
  // Properties
  // ---------------------------------------------------------------------

  /**
   * The community id getOffers and getOffer add names the same account as
   * accountid_other: toAccountId of it gives the account id back.
   */
  lemma SteamIdOtherNamesAccount(offer: Value, a: int)
    requires offer.Obj? && Property(offer, "accountid_other") == Num(a) && 0 <= a < TwoTo31
    ensures WithSteamIdOther(offer).Ok?
    ensures ToAccountId(Property(WithSteamIdOther(offer).value, "steamid_other")) == Ok(IntToString(a))
  {
    var annotated := WithSteamIdOther(offer).value;
    assert Property(annotated, "steamid_other") == Str(ToSteamId(Num(a)));
    AccountIdRoundTrip(a);
  }

  /** A list that is present keeps its length and its order, each offer annotated in place. */
  lemma AnnotatedListKeepsOffers(response: Value, key: string)
    requires AnnotatedList(response, key).Ok? && Property(response, key) != Undefined
    ensures var list := Property(response, key).elems;
      var r := AnnotatedList(response, key).value;
      && Property(r, key).Arr?
      && |Property(r, key).elems| == |list|
      && forall i :: 0 <= i < |list| ==> Ok(Property(r, key).elems[i]) == WithSteamIdOther(list[i])
  {
    AnnotatedOffersShape(Property(response, key).elems);
  }

  /** Annotating one list leaves every other property of the response alone. */
  lemma AnnotatedListLeavesOthers(response: Value, key: string, other: string)
    requires AnnotatedList(response, key).Ok? && other != key
    ensures Property(AnnotatedList(response, key).value, other) == Property(response, other)
  {
  }

  /**
   * getOffers reports an error exactly when the body has no response, or
   * a present list is not an array, or holds a null or undefined offer.
   */
  lemma {:induction false} GetOffersBodyFails(res: Value)
    ensures GetOffersBody(res).Err? ==> GetOffersBody(res).error == TypeErrorThrown
    ensures IsNullish(Property(res, "response")) ==> GetOffersBody(res).Err?
    ensures !IsNullish(Property(res, "response")) ==>
      (GetOffersBody(res).Err? <==>
        ListFails(Property(Property(res, "response"), "trade_offers_received")) ||
        ListFails(Property(Property(res, "response"), "trade_offers_sent")))
  {
    var response := Property(res, "response");
    if !IsNullish(response) {
      ListFailsExactly(response, "trade_offers_received");
      var r1 := AnnotatedList(response, "trade_offers_received");
      if r1.Ok? {
        AnnotatedListLeavesOthers(response, "trade_offers_received", "trade_offers_sent");
        ListFailsExactly(r1.value, "trade_offers_sent");
      }
    }
  }

  /** A present list makes getOffers throw when it is not an array or holds a null or undefined offer. */
  predicate ListFails(list: Value) {
    list != Undefined && (!list.Arr? || exists i :: 0 <= i < |list.elems| && IsNullish(list.elems[i]))
  }

  lemma ListFailsExactly(response: Value, key: string)
    ensures AnnotatedList(response, key).Err? <==> ListFails(Property(response, key))
    ensures AnnotatedList(response, key).Err? ==> AnnotatedList(response, key).error == TypeErrorThrown
  {
    var list := Property(response, key);
    if list.Arr? {
      AnnotatedOffersShape(list.elems);
    }
  }

  /** With neither list in the response, getOffers passes the body on unchanged. */
  lemma GetOffersWithoutLists(res: Value)
    requires !IsNullish(Property(res, "response"))
    requires Property(Property(res, "response"), "trade_offers_received") == Undefined
    requires Property(Property(res, "response"), "trade_offers_sent") == Undefined
    ensures GetOffersBody(res) == Ok(res)
  {
    PutOfLookup(res.props, "response");
  }

  /** Writing back the value a property already has changes nothing. */
  lemma {:induction false} PutOfLookup(p: Props, k: string)
    requires k in Keys(p)
    ensures Put(p, k, Lookup(p, k)) == p
  {
    if p[0].0 != k {
      assert Keys(p) == [p[0].0] + Keys(p[1..]);
      PutOfLookup(p[1..], k);
    }
  }

  /**
   * getOffer on a present object offer: the offer gains steamid_other
   * and keeps everything else; the rest of the response is unchanged.
   */
  lemma GetOfferAnnotatesOffer(res: Value)
    requires !IsNullish(Property(res, "response")) && Property(Property(res, "response"), "offer").Obj?
    ensures GetOfferBody(res).Ok?
    ensures var response := Property(GetOfferBody(res).value, "response");
      var before := Property(Property(res, "response"), "offer");
      && WithSteamIdOther(before).Ok?
      && Property(response, "offer") == WithSteamIdOther(before).value
      && forall k :: k != "offer" ==> Property(response, k) == Property(Property(res, "response"), k)
  {
  }
}
