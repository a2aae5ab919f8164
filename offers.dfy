/**
 * Making and accepting trade offers on the community site: the offer
 * payload, the form, the referer, and how the site's reply is read.
 */
module Offers {
  import opened Wrappers
  import opened Decimal
  import opened JsValues
  import opened Http
  import opened Identity

  /** The options makeOffer reads; Undefined stands for an option left out. */
  datatype OfferOptions = OfferOptions(
    itemsFromMe: Value, itemsFromThem: Value,
    partnerAccountId: Value, partnerSteamId: Value,
    message: Value, accessToken: Value, counteredTradeOffer: Value)

  const SendUri := Uri("https://steamcommunity.com/tradeoffer/new/send", [])

  /** The page of one offer: `https://steamcommunity.com/tradeoffer/<id>/`. */
  function OfferPageUri(tradeOfferId: Value): (u: Uri)
    ensures u.queries == []
  {
    Uri("https://steamcommunity.com/tradeoffer/" + ToJsString(tradeOfferId) + "/", [])
  }

  // ---------------------------------------------------------------------
  // The offer payload (json_tradeoffer)
  // ---------------------------------------------------------------------

  /** One side of an offer: the given assets, no currency, not ready. */
  function OfferSide(assets: Value): (side: Value)
    ensures side.Obj? && Keys(side.props) == ["assets", "currency", "ready"]
    ensures Property(side, "assets") == assets
    ensures Property(side, "currency") == Arr([])
    ensures Property(side, "ready") == Bool(false)
  {
    var props := [("assets", assets), ("currency", Arr([])), ("ready", Bool(false))];
    LookupAt(props, 1);
    LookupAt(props, 2);
    Obj(props)
  }

  /** The trade offer structure around its two sides: version 2 of the format. */
  function TradeOffer(me: Value, them: Value): (t: Value)
    ensures t.Obj? && Keys(t.props) == ["newversion", "version", "me", "them"]
    ensures Property(t, "newversion") == Bool(true)
    ensures Property(t, "version") == Num(2)
    ensures Property(t, "me") == me
    ensures Property(t, "them") == them
  {
    var props := [("newversion", Bool(true)), ("version", Num(2)), ("me", me), ("them", them)];
    LookupAt(props, 1);
    LookupAt(props, 2);
    LookupAt(props, 3);
    Obj(props)
  }

  /** The structure makeOffer serializes into json_tradeoffer. */
  function TradeOfferPayload(options: OfferOptions): (t: Value)
    ensures t.Obj? && Keys(t.props) == ["newversion", "version", "me", "them"]
    ensures Property(t, "me") == OfferSide(options.itemsFromMe)
    ensures Property(t, "them") == OfferSide(options.itemsFromThem)
  {
    TradeOffer(OfferSide(options.itemsFromMe), OfferSide(options.itemsFromThem))
  }

  // ---------------------------------------------------------------------
  // The form
  // ---------------------------------------------------------------------

  /** The fields every offer form starts with, over the values makeOffer computes for them. */
  function BaseOfferForm(sessionId: Value, partner: Value, message: Value, tradeOffer: Value): Params {
    [("serverid", Plain(Num(1))),
     ("sessionid", Plain(sessionId)),
     ("partner", Plain(partner)),
     ("tradeoffermessage", Plain(message)),
     ("json_tradeoffer", JsonText(tradeOffer))]
  }

  function TokenParams(token: Value): Value {
    Obj([("trade_offer_access_token", token)])
  }

  function TokenField(token: Value): (string, Arg) {
    ("trade_offer_create_params", JsonText(TokenParams(token)))
  }

  function CounterField(countered: Value): (string, Arg) {
    ("tradeofferid_countered", Plain(countered))
  }

  /**
   * The form makeOffer posts: the five base fields, then the access-token
   * parameters when a token is given, then the countered offer when there
   * is one, in that order.
   */
  function OfferForm(sessionId: Value, partner: Value, message: Value, tradeOffer: Value,
                     token: Value, countered: Value): (form: Params)
    ensures ParamNames(form) ==
      ["serverid", "sessionid", "partner", "tradeoffermessage", "json_tradeoffer"]
      + (if token != Undefined then ["trade_offer_create_params"] else [])
      + (if countered != Undefined then ["tradeofferid_countered"] else [])
  {
    var base := BaseOfferForm(sessionId, partner, message, tradeOffer);
    var withToken := if token != Undefined then base + [TokenField(token)] else base;
    if countered != Undefined then withToken + [CounterField(countered)] else withToken
  }

  /** The first three base fields hold what they are given. */
  lemma BaseOfferFormHead(sessionId: Value, partner: Value, message: Value, tradeOffer: Value)
    ensures var base := BaseOfferForm(sessionId, partner, message, tradeOffer);
      && Param(base, "serverid") == Some(Plain(Num(1)))
      && Param(base, "sessionid") == Some(Plain(sessionId))
      && Param(base, "partner") == Some(Plain(partner))
  {
    var base := BaseOfferForm(sessionId, partner, message, tradeOffer);
    ParamAt(base, 1);
    ParamAt(base, 2);
  }

  /** The message and the payload fields hold what they are given. */
  lemma BaseOfferFormTail(sessionId: Value, partner: Value, message: Value, tradeOffer: Value)
    ensures var base := BaseOfferForm(sessionId, partner, message, tradeOffer);
      && Param(base, "tradeoffermessage") == Some(Plain(message))
      && Param(base, "json_tradeoffer") == Some(JsonText(tradeOffer))
  {
    var base := BaseOfferForm(sessionId, partner, message, tradeOffer);
    ParamAt(base, 3);
    ParamAt(base, 4);
  }

  /** Neither optional field is among the base fields. */
  lemma BaseOfferFormLacksOptional(sessionId: Value, partner: Value, message: Value, tradeOffer: Value)
    ensures var base := BaseOfferForm(sessionId, partner, message, tradeOffer);
      && Param(base, "trade_offer_create_params") == None
      && Param(base, "tradeofferid_countered") == None
  {
  }

  /** The access-token parameters are in the form exactly when a token is given. */
  lemma OfferFormTokenField(sessionId: Value, partner: Value, message: Value, tradeOffer: Value,
                            token: Value, countered: Value)
    ensures Param(OfferForm(sessionId, partner, message, tradeOffer, token, countered), "trade_offer_create_params") ==
      if token != Undefined then Some(JsonText(TokenParams(token))) else None
  {
    var base := BaseOfferForm(sessionId, partner, message, tradeOffer);
    var withToken := if token != Undefined then base + [TokenField(token)] else base;
    BaseOfferFormLacksOptional(sessionId, partner, message, tradeOffer);
    if token != Undefined {
      ParamOfAppend(base, [TokenField(token)]);
    }
    if countered != Undefined {
      ParamOfAppend(withToken, [CounterField(countered)]);
    }
  }

  /** The countered offer is in the form exactly when there is one. */
  lemma OfferFormCounterField(sessionId: Value, partner: Value, message: Value, tradeOffer: Value,
                              token: Value, countered: Value)
    ensures Param(OfferForm(sessionId, partner, message, tradeOffer, token, countered), "tradeofferid_countered") ==
      if countered != Undefined then Some(Plain(countered)) else None
  {
    var base := BaseOfferForm(sessionId, partner, message, tradeOffer);
    var withToken := if token != Undefined then base + [TokenField(token)] else base;
    BaseOfferFormLacksOptional(sessionId, partner, message, tradeOffer);
    if token != Undefined {
      ParamOfAppend(base, [TokenField(token)]);
    }
    assert Param(withToken, "tradeofferid_countered") == None;
    if countered != Undefined {
      ParamOfAppend(withToken, [CounterField(countered)]);
    }
  }

  /** Adding the optional fields leaves the base fields as they were. */
  lemma OfferFormBaseFields(sessionId: Value, partner: Value, message: Value, tradeOffer: Value,
                            token: Value, countered: Value)
    ensures var form := OfferForm(sessionId, partner, message, tradeOffer, token, countered);
      && Param(form, "serverid") == Some(Plain(Num(1)))
      && Param(form, "sessionid") == Some(Plain(sessionId))
      && Param(form, "partner") == Some(Plain(partner))
      && Param(form, "tradeoffermessage") == Some(Plain(message))
      && Param(form, "json_tradeoffer") == Some(JsonText(tradeOffer))
  {
    BaseOfferFormHead(sessionId, partner, message, tradeOffer);
    BaseOfferFormTail(sessionId, partner, message, tradeOffer);
    OptionalFieldsKeep(sessionId, partner, message, tradeOffer, token, countered, "serverid");
    OptionalFieldsKeep(sessionId, partner, message, tradeOffer, token, countered, "sessionid");
    OptionalFieldsKeep(sessionId, partner, message, tradeOffer, token, countered, "partner");
    OptionalFieldsKeep(sessionId, partner, message, tradeOffer, token, countered, "tradeoffermessage");
    OptionalFieldsKeep(sessionId, partner, message, tradeOffer, token, countered, "json_tradeoffer");
  }

  /** A field of the base form is unchanged in the whole form. */
  lemma OptionalFieldsKeep(sessionId: Value, partner: Value, message: Value, tradeOffer: Value,
                           token: Value, countered: Value, name: string)
    requires Param(BaseOfferForm(sessionId, partner, message, tradeOffer), name).Some?
    ensures Param(OfferForm(sessionId, partner, message, tradeOffer, token, countered), name) ==
            Param(BaseOfferForm(sessionId, partner, message, tradeOffer), name)
  {
    var base := BaseOfferForm(sessionId, partner, message, tradeOffer);
    var withToken := if token != Undefined then base + [TokenField(token)] else base;
    if token != Undefined {
      ParamOfAppend(base, [TokenField(token)]);
    }
    if countered != Undefined {
      ParamOfAppend(withToken, [CounterField(countered)]);
    }
  }

  /** makeOffer's formFields for a session and options. */
  function FormFor(session: Session, options: OfferOptions): Params {
    OfferForm(session.sessionId,
              PartnerSteamId(options.partnerSteamId, options.partnerAccountId),
              if Truthy(options.message) then options.message else Str(""),
              TradeOfferPayload(options), options.accessToken, options.counteredTradeOffer)
  }

  // ---------------------------------------------------------------------
  // The referer
  // ---------------------------------------------------------------------

  /**
   * The account id the referer's query names: partnerAccountId, or else
   * toAccountId(partnerSteamId), which throws on an id it cannot read.
   */
  function PartnerAccount(options: OfferOptions): (r: Result<Value>)
    ensures Truthy(options.partnerAccountId) ==> r == Ok(options.partnerAccountId)
    ensures !Truthy(options.partnerAccountId) ==>
      r == match ToAccountId(options.partnerSteamId)
           case Ok(a) => Ok(Str(a))
           case Err(e) => Err(e)
    ensures r.Err? <==>
      && !Truthy(options.partnerAccountId)
      && (!options.partnerSteamId.Str? || OnlyHyphens(options.partnerSteamId.s) || LaterHyphen(options.partnerSteamId.s))
  {
    if Truthy(options.partnerAccountId) then Ok(options.partnerAccountId)
    else match ToAccountId(options.partnerSteamId)
      case Ok(a) => Ok(Str(a))
      case Err(e) => Err(e)
  }

  /** The query of the new-offer referer: the partner, then the token when one is given. */
  function OfferQuery(partner: Value, token: Value): (q: Params)
    ensures ParamNames(q) == ["partner"] + (if token != Undefined then ["token"] else [])
    ensures Param(q, "partner") == Some(Plain(partner))
    ensures Param(q, "token") == if token != Undefined then Some(Plain(token)) else None
  {
    var q := if token != Undefined then [("partner", Plain(partner))] + [("token", Plain(token))]
             else [("partner", Plain(partner))];
    if token != Undefined then ParamAt(q, 1); q else q
  }

  /**
   * The referer makeOffer sends: the countered offer's page when countering,
   * otherwise the new-offer page with the partner query.
   */
  function OfferReferer(options: OfferOptions, partner: Value): (u: Uri)
    ensures options.counteredTradeOffer != Undefined ==> u == OfferPageUri(options.counteredTradeOffer)
    ensures options.counteredTradeOffer == Undefined ==>
      u == Uri("https://steamcommunity.com/tradeoffer/new/", [OfferQuery(partner, options.accessToken)])
    ensures (u.queries == []) <==> options.counteredTradeOffer != Undefined
    ensures options.counteredTradeOffer == Undefined ==>
      |u.queries| == 1 && Param(u.queries[0], "partner") == Some(Plain(partner)) &&
      (Param(u.queries[0], "token").Some? <==> options.accessToken != Undefined)
  {
    if options.counteredTradeOffer != Undefined then OfferPageUri(options.counteredTradeOffer)
    else Uri("https://steamcommunity.com/tradeoffer/new/", [OfferQuery(partner, options.accessToken)])
  }

  // ---------------------------------------------------------------------
  // Reading the site's reply
  // ---------------------------------------------------------------------

  /**
   * The callback of acceptOffer and makeOffer: a transport error first,
   * then a body carrying strError (which wins over the status), then a
   * status other than 200; otherwise the body, unchanged.
   */
  function ClassifyWebResponse(resp: Response): (r: Result<Value>)
    ensures resp.error.Some? ==> r == Err(Transport(resp.error.value))
    ensures resp.error.None? && Truthy(resp.body) && Truthy(Property(resp.body, "strError")) ==>
      r == Err(Application(ToJsString(Property(resp.body, "strError"))))
    ensures resp.error.None? && !Truthy(Property(resp.body, "strError")) && resp.status != 200 ==>
      r == Err(HttpStatus(resp.status))
    ensures r.Ok? <==> resp.error.None? && !Truthy(Property(resp.body, "strError")) && resp.status == 200
    ensures r.Ok? ==> r.value == resp.body
  {
    if resp.error.Some? then Err(Transport(resp.error.value))
    else if Truthy(resp.body) && Truthy(Property(resp.body, "strError")) then
      Err(Application(ToJsString(Property(resp.body, "strError"))))
    else if resp.status != 200 then Err(HttpStatus(resp.status))
    else Ok(resp.body)
  }

  // ---------------------------------------------------------------------
  // The two operations
  // ---------------------------------------------------------------------

  /**
   * makeOffer: the base form, then the referer's partner (toAccountId may
   * throw here, and then nothing is sent), then the token and the
   * countered offer added to form and referer alike; the form is POSTed to
   * the send URI and the reply read.
   */
  method MakeOffer(session: Session, options: OfferOptions, resp: Response) returns (call: Call<Value>)
    ensures PartnerAccount(options).Err? ==> call == Call(None, Err(PartnerAccount(options).error))
    ensures PartnerAccount(options).Ok? ==>
      && call.sent == Some(Request(Post, SendUri,
                                   Some(OfferReferer(options, PartnerAccount(options).value)),
                                   Some(FormFor(session, options))))
      && call.outcome == ClassifyWebResponse(resp)
  {
    var form := BaseOfferForm(session.sessionId,
                              PartnerSteamId(options.partnerSteamId, options.partnerAccountId),
                              if Truthy(options.message) then options.message else Str(""),
                              TradeOfferPayload(options));
    var partner := PartnerAccount(options);
    if partner.Err? {
      return Call(None, Err(partner.error));
    }
    var query := [("partner", Plain(partner.value))];
    if options.accessToken != Undefined {
      form := form + [TokenField(options.accessToken)];
      query := query + [("token", Plain(options.accessToken))];
    }
    var referer;
    if options.counteredTradeOffer != Undefined {
      form := form + [CounterField(options.counteredTradeOffer)];
      referer := OfferPageUri(options.counteredTradeOffer);
    } else {
      referer := Uri("https://steamcommunity.com/tradeoffer/new/", [query]);
    }
    call := Call(Some(Request(Post, SendUri, Some(referer), Some(form))), ClassifyWebResponse(resp));
  }

  /** acceptOffer's form: the session id, serverid 1 and the offer id, in that order. */
  function AcceptForm(session: Session, tradeOfferId: Value): (form: Params)
    ensures ParamNames(form) == ["sessionid", "serverid", "tradeofferid"]
    ensures Param(form, "sessionid") == Some(Plain(session.sessionId))
    ensures Param(form, "serverid") == Some(Plain(Num(1)))
    ensures Param(form, "tradeofferid") == Some(Plain(tradeOfferId))
  {
    var form := [("sessionid", Plain(session.sessionId)), ("serverid", Plain(Num(1))),
                 ("tradeofferid", Plain(tradeOfferId))];
    ParamAt(form, 1);
    ParamAt(form, 2);
    form
  }

  /**
   * acceptOffer: reading tradeOfferId off null or undefined throws; without
   * an offer id it reports "No options"; in neither case is anything sent.
   * Otherwise it POSTs to the offer's accept URI with the offer's page as
   * referer and reads the reply.
   */
  function AcceptOffer(session: Session, options: Value, resp: Response): (call: Call<Value>)
    ensures IsNullish(options) ==> call == Call(None, Err(TypeErrorThrown))
    ensures !IsNullish(options) && Property(options, "tradeOfferId") == Undefined ==>
      call == Call(None, Err(NoOptions))
    ensures call.sent.Some? <==> !IsNullish(options) && Property(options, "tradeOfferId") != Undefined
    ensures call.sent.Some? ==>
      var id := Property(options, "tradeOfferId");
      && call.sent.value.verb == Post
      && call.sent.value.uri == Uri("https://steamcommunity.com/tradeoffer/" + ToJsString(id) + "/accept", [])
      && call.sent.value.referer == Some(OfferPageUri(id))
      && call.sent.value.form == Some(AcceptForm(session, id))
      && call.outcome == ClassifyWebResponse(resp)
  {
    if IsNullish(options) then Call(None, Err(TypeErrorThrown))
    else
      var id := Property(options, "tradeOfferId");
      if id == Undefined then Call(None, Err(NoOptions))
      else
        Call(Some(Request(Post, Uri("https://steamcommunity.com/tradeoffer/" + ToJsString(id) + "/accept", []),
                          Some(OfferPageUri(id)), Some(AcceptForm(session, id)))),
             ClassifyWebResponse(resp))
  }

  // ---------------------------------------------------------------------
  // Properties
  // ---------------------------------------------------------------------

  /**
   * When only a community id s of an individual account is given, the
   * form's partner and the referer's partner name the same account:
   * toSteamId of the referer's account id gives s back.
   */
  lemma PartnerFieldsAgree(options: OfferOptions, n: nat)
    requires CommunityIdBase <= n < CommunityIdBase + TwoTo32
    requires options.partnerSteamId == Str(NatToString(n)) && !Truthy(options.partnerAccountId)
    ensures PartnerSteamId(options.partnerSteamId, options.partnerAccountId) == options.partnerSteamId
    ensures PartnerAccount(options).Ok?
    ensures Str(ToSteamId(PartnerAccount(options).value)) == options.partnerSteamId
  {
    CommunityIdRoundTrip(n);
  }

  /**
   * When only an account id a below 2^31 is given, the form names its
   * community id and the referer names a itself; its account id read back
   * from that community id is a again.
   */
  lemma PartnerFromAccountId(options: OfferOptions, a: int)
    requires 0 < a < TwoTo31
    requires options.partnerAccountId == Num(a) && !Truthy(options.partnerSteamId)
    ensures PartnerSteamId(options.partnerSteamId, options.partnerAccountId) == Str(ToSteamId(Num(a)))
    ensures PartnerAccount(options) == Ok(Num(a))
    ensures ToAccountId(Str(ToSteamId(Num(a)))) == Ok(IntToString(a))
  {
    AccountIdRoundTrip(a);
  }

  /**
   * makeOffer stops before sending exactly when it has no account id and
   * the community id it was given cannot be read.
   */
  lemma MakeOfferThrowsOnlyOnUnreadableId(options: OfferOptions)
    ensures PartnerAccount(options).Err? <==>
      !Truthy(options.partnerAccountId) && ToAccountId(options.partnerSteamId).Err?
  {
  }

  /**
   * The referer and the form tell the same story: the form names a
   * countered offer exactly when the referer is that offer's page, and
   * otherwise the referer's query carries the token exactly when the form
   * carries the access-token parameters.
   */
  lemma RefererMatchesForm(session: Session, options: OfferOptions, partner: Value)
    ensures var form := FormFor(session, options);
      var referer := OfferReferer(options, partner);
      && (Param(form, "tradeofferid_countered").Some? <==> referer.queries == [])
      && (referer.queries != [] ==>
            (Param(referer.queries[0], "token").Some? <==> Param(form, "trade_offer_create_params").Some?))
  {
    var sessionId := session.sessionId;
    var partnerId := PartnerSteamId(options.partnerSteamId, options.partnerAccountId);
    var message := if Truthy(options.message) then options.message else Str("");
    var payload := TradeOfferPayload(options);
    OfferFormTokenField(sessionId, partnerId, message, payload, options.accessToken, options.counteredTradeOffer);
    OfferFormCounterField(sessionId, partnerId, message, payload, options.accessToken, options.counteredTradeOffer);
  }
}
