# steam-tradeoffers core, modelled in Dafny

This project models the request-building and response-handling core of
`index.js`, a Node.js client for Steam trade offers. A caller uses it to
load an inventory (their own or a trade partner's), compose and send a
trade offer, accept, decline or cancel an offer, query offers through the
IEconService Web API, and read a trade receipt. The HTTP transport is not
part of the model. Each operation takes the transport's reply as an input
value. It returns the request it would have sent, as a structured
`Request`, together with the result it would report to its callback.

Modules, one per concern:

- `Wrappers`: `Option`.
- `Decimal`: decimal numerals, `parseInt`, and the ToInt32/ToUint32 conversions.
- `JsValues`: the JSON-shaped values the source works on. An object keeps its properties in enumeration order; `o[k] = v` replaces in place or appends. Also truthiness and string conversion.
- `Http`: the session, requests, responses, form and query parameters, and the error kinds.
- `Identity`: `toSteamId` and `toAccountId`. An account id is the low word of a 64-bit community id with the fixed high word `0x1100001`.
- `Inventory`: these are imperative in the source and are methods with loop invariants here.
  - `mergeWithDescriptions`: the loop over the item map and the `for...in` copy of each description.
  - `_loadInventory`: its recursion over pages, written as a loop over the responses of successive page requests.
  - `loadMyInventory` and `loadPartnerInventory`.
- `Offers`:
  - `makeOffer`, a method that builds the form and the referer query step by step as the source does;
  - `acceptOffer`;
  - the shared reading of a steamcommunity.com reply.
- `WebApi`:
  - `doAPICall`;
  - `getOffers`, where the offers' `map` is a loop, and `getOffer`;
  - `getSummary`, `declineOffer` and `cancelOffer`.
- `Receipt`: `getItems` up to the script it runs. That is the regular expression `(var oItem;[\s\S]*)<\/script>`, proved to be the leftmost, greedy match, plus the sandbox prelude.

Points where `index.js` behaves otherwise than a reader might expect, and
the model does as the code does:

- `_loadInventory` recurses while `body.more` is truthy, even when `more_start` stays the same. A server that keeps repeating such a page keeps the loader asking for ever (`Inventory.RepeatedPageNeverEnds`). The loop is therefore specified only for response sequences in which some page ends the chain (`EndsChain`).
- An item whose description is missing is merged without error. It gains `contextid` and nothing else (`Inventory.MissingDescription`).
- `toAccountId` returns the *signed* low word (`Long.toInt`). An account id of 2^31 or more comes back negative (`Identity.AccountIdRoundTrip`).
- With neither partner id given, `toSteamId(undefined)` yields the community id of account 0. `toAccountId(undefined)` then throws a TypeError, not a dedicated identity error.
- A page with `success` false reports `'Error: ' + JSON.stringify(body.error)` (`ServiceFailure`), not the server's message as it is.
- `Long.fromString` rejects few strings. It throws on a string that is empty once its leading hyphens are removed, and on a hyphen that follows another character (`Identity.LongFromStringThrows`). Every other string is read in chunks of eight characters through `parseInt`, and a chunk `parseInt` cannot read counts as 0. So `toAccountId("abc")` is `"0"`, and `makeOffer` and `loadPartnerInventory` still send their request for such an id.
- Several failures are thrown rather than passed to the callback. The model reports each as `Uncaught`, with nothing sent when the throw comes before the request. They are:
  - reading `tradeOfferId` or `tradeId` off null or undefined options (index.js:238, 249, 384);
  - a community id that `Long.fromString` rejects, or that is not a string, in `toAccountId` (index.js:308);
  - a null or undefined item, or null or undefined descriptions with an item present, in `mergeWithDescriptions` (index.js:134-135);
  - a missing `response` in the body `getOffers` and `getOffer` receive (index.js:188, 216);
  - an offer list that is present but not an array (index.js:189);
  - a null or undefined offer in a list (index.js:190), or a null offer in `getOffer` (index.js:217);
  - a receipt body that is not a string (index.js:391).

## Model

| member | source | states |
|---|---|---|
| Decimal.NatToString | index.js:304 | a numeral is non-empty, all digits, and starts with '0' only for zero |
| Decimal.DigitsValueOfNatToString | index.js:304 | printing a natural number and reading its digits back gives the number |
| Decimal.NatToStringInjective | index.js:304 | different numbers print differently |
| Decimal.ParseInt | index.js:304 | parseInt gives NaN exactly when no digit follows the leading space and sign |
| Decimal.ParseIntOfIntString | index.js:304 | parseInt reads back every integer JavaScript prints |
| Decimal.ToInt32 | index.js:308 | Long.toInt lies in [-2^31, 2^31), agrees with its argument modulo 2^32, and leaves values below 2^31 alone |
| Decimal.ToInt32OfUpperHalf | index.js:308 | a low word of 2^31 or more reads as that value minus 2^32 |
| Decimal.ToInt32OfLowWord | index.js:308 | toInt only looks at the low 32 bits |
| Decimal.ToUint32OfToInt32 | index.js:308 | the signed and unsigned readings of a word agree modulo 2^32 |
| JsValues.LookupAt | index.js:134-138 | a property no earlier one shadows is the one `o[k]` reads |
| JsValues.Put | index.js:138-142 | after `o[k] = v`, `o[k]` is v, every other property reads as before, and a new key goes last |
| JsValues.PutKeepsDistinct | index.js:138-142 | assignment never makes an object hold a key twice |
| JsValues.OwnEnumerableDistinct | index.js:133 | the keys Object.keys visits are distinct |
| Http.ParamAt | index.js:100 | a query parameter that no earlier one shadows is the one found under its name |
| Http.ParamOfAppend | index.js:331-338 | adding parameters after others leaves the earlier ones as they were |
| Http.TransportFailure | index.js:65-69 | a transport error is passed on; without one, a status other than 200 becomes `new Error(statusCode)` |
| Identity.CommunityId | index.js:303-305 | the 64-bit id carries the high word 0x1100001 and the account id modulo 2^32 as its low word |
| Identity.ToSteamId | index.js:303-305 | toSteamId prints, without a leading zero, 76561197960265728 plus the account id's low word |
| Identity.LongFromString | index.js:308 | Long.fromString, chunk by chunk, reads a plain decimal numeral as its value |
| Identity.ReadChunksOfDigits | index.js:308 | reading the numeral in chunks of eight digits gives the value of all its digits |
| Identity.LongFromStringThrows | index.js:308 | Long.fromString throws exactly on a string that is only hyphens or has a hyphen after another character |
| Identity.ToAccountId | index.js:307-309 | toAccountId throws on a non-string and exactly on the strings Long.fromString rejects; a numeral gives the signed low word of its value; every result is a 32-bit integer that parseInt reads back |
| Identity.PartnerSteamId | index.js:108 | the partner is partnerSteamId if truthy, else toSteamId(partnerAccountId), which toAccountId reads back as the signed low word of that account id |
| Identity.SteamIdOfNumber | index.js:303-305 | the community id of account a is 0x1100001 * 2^32 + a mod 2^32 |
| Identity.AccountIdRoundTrip | index.js:303-309 | toAccountId(toSteamId(a)) is the signed low word of a: a itself below 2^31, a - 2^32 from 2^31 to 2^32 |
| Identity.SteamIdReadsBack | index.js:303-308 | Long.fromString reads a printed community id back as the id |
| Identity.AccountIdReadsBack | index.js:303-309 | toAccountId of a printed community id is the signed low word of that id |
| Identity.CommunityIdRoundTrip | index.js:303-309 | toSteamId(toAccountId(s)) == s for the decimal community id of every individual account |
| Inventory.CopyOver | index.js:136-140 | the copy loop computes CopyProps: each description field assigned onto the item in order |
| Inventory.MergeWithDescriptions | index.js:132-145 | the loop over Object.keys(items) computes Merge, the whole map of items merged one by one |
| Inventory.MergeOne | index.js:134-143 | one item: look up its description, copy its fields over, stamp contextid |
| Inventory.CopyPropsValues | index.js:136-140 | after the copy a description field reads as the description's value, any other as the item's |
| Inventory.CopyPropsKeys | index.js:136-140 | the copy keeps the item's keys in order, adds exactly the description's, and repeats none |
| Inventory.MergedItemValues | index.js:134-143 | in a merged item contextid is the argument, a description field reads as the description's value, and any other field as the item's |
| Inventory.MergedItemKeys | index.js:134-143 | a merged item keeps the item's keys in their places, and holds exactly the item's keys, the description's and contextid |
| Inventory.MergedItemDistinct | index.js:134-143 | merging never duplicates a field |
| Inventory.MissingDescription | index.js:135-142 | an item without a description gains contextid and nothing else |
| Inventory.MergeEntriesShape | index.js:133-144 | the merge throws exactly when some item is null or undefined, or there is an item and the descriptions are null or undefined; otherwise it keeps the length and merges each item at its position |
| Inventory.MergeShape | index.js:133-144 | the same for a whole item map, its entries taken in enumeration order |
| Inventory.LoadOnePage | index.js:66-80 | one page's checks and merges compute LoadPage |
| Inventory.PageRequests | index.js:59-63 | request k goes to the base URI, with `&start=` the previous page's more_start only when that is truthy |
| Inventory.LoadInventory | index.js:58-87 | one request per page up to the one that ends the chain; the last page's error, or all pages' items concatenated in fetch order |
| Inventory.RepeatedPageNeverEnds | index.js:81-82 | a page that asks for more and is served again and again never ends the chain |
| Inventory.NeverStops | index.js:81-85 | when every page asks for more, the loader never calls back |
| Inventory.PageErrorPrecedence | index.js:66-77 | transport error, then status, then `success`, then missing inventory fields, in that order of precedence |
| Inventory.PageLoadedExactly | index.js:66-80 | a page is good exactly when every check passes and neither merge throws |
| Inventory.PageItems | index.js:79-82 | a good page yields its items then its currency, merged, and the body's more and more_start |
| Inventory.MyInventoryUri | index.js:90-100 | the inventory path, with `l` when a language is given and `trading=1` unless tradableOnly is false |
| Inventory.LoadMyInventory | index.js:89-103 | builds that query step by step and loads the pages from that URI |
| Inventory.PartnerInventoryQuery | index.js:106-115 | sessionid, partner, appid, contextid, then `l` when a language is given |
| Inventory.PartnerInventoryRequest | index.js:117-128 | a GET of the partner inventory of the offer (or `new`) with a referer naming the partner's account id; an error exactly when toAccountId throws |
| Inventory.LoadPartnerInventory | index.js:105-130 | nothing is requested when the partner id is unreadable; otherwise the pages of the partner's inventory, all with that referer |
| Offers.OfferSide | index.js:315-316 | one side of an offer: the given assets, no currency, not ready |
| Offers.TradeOffer | index.js:312-317 | newversion true, version 2, then the two sides, in that order |
| Offers.TradeOfferPayload | index.js:312-317 | the payload carries itemsFromMe on the `me` side and itemsFromThem on the `them` side |
| Offers.OfferForm | index.js:319-338 | the five base fields, then the token parameters when a token is given, then the countered offer when there is one |
| Offers.BaseOfferFormHead | index.js:320-322 | serverid is 1; sessionid and partner hold what they are given |
| Offers.BaseOfferFormTail | index.js:323-324 | the message and JSON.stringify of the trade offer |
| Offers.OfferFormTokenField | index.js:331-332 | trade_offer_create_params is in the form exactly when a token is given, as `{trade_offer_access_token: token}` in JSON |
| Offers.OfferFormCounterField | index.js:337-338 | tradeofferid_countered is in the form exactly when a countered offer is given |
| Offers.OfferFormBaseFields | index.js:319-338 | the optional fields leave the five base fields as they were |
| Offers.PartnerAccount | index.js:327-329 | the referer names partnerAccountId if truthy, else toAccountId(partnerSteamId); it throws exactly when there is no account id and the community id is not a string or is one Long.fromString rejects |
| Offers.OfferQuery | index.js:327-334 | the referer query holds the partner, then the token when one is given |
| Offers.OfferReferer | index.js:336-342 | the countered offer's page, or the new-offer page with that query; the referer has a query exactly when no offer is countered, and then it names the partner, and the token exactly when one is given |
| Offers.ClassifyWebResponse | index.js:351-376 | transport error first, then a truthy strError, then a status other than 200; otherwise the body |
| Offers.MakeOffer | index.js:311-378 | nothing is sent when toAccountId throws; otherwise a POST of formFields to the send URI with that referer, the reply read as above |
| Offers.AcceptForm | index.js:269-273 | sessionid, serverid 1 and tradeofferid, in that order |
| Offers.AcceptOffer | index.js:255-301 | a throw on null options, `No options` without an id, and otherwise a POST to the offer's accept URI with its page as referer |
| Offers.PartnerFieldsAgree | index.js:322-328 | given only a community id, the form's partner and the referer's account id name the same account |
| Offers.PartnerFromAccountId | index.js:322-328 | given only an account id below 2^31, the community id sent reads back as that account id |
| Offers.MakeOfferThrowsOnlyOnUnreadableId | index.js:328 | makeOffer throws exactly when there is no account id and the community id cannot be read |
| Offers.RefererMatchesForm | index.js:331-342 | the form names a countered offer exactly when the referer is that offer's page; otherwise the token is in the referer exactly when it is in the form |
| WebApi.ObjectParamNames | index.js:149-155 | an object's parameters go out under its own keys, in its order |
| WebApi.ObjectParamsOfObject | index.js:149-155 | each key is sent with the object's value for it, and no other key is sent |
| WebApi.ApiRequest | index.js:147-156 | the key first in the query; a GET adds the params to the query; a POST sends them as the form |
| WebApi.ClassifyApiResponse | index.js:158-176 | transport error or status first, then `Invalid Response` unless the body is an object; otherwise the body |
| WebApi.DoApiCall | index.js:147-177 | a call sends that request to IEconService/<name>/ and succeeds exactly when there is no transport error, the status is 200 and the body is an object, passing the body on |
| WebApi.WithSteamIdOther | index.js:189-191 | an offer throws exactly when null or undefined; an object gains steamid_other = toSteamId(accountid_other) and keeps everything else |
| WebApi.AnnotateOffers | index.js:189-192 | the map loop computes AnnotatedOffers |
| WebApi.AnnotatedOffersShape | index.js:189-199 | the map throws exactly when some offer is null or undefined; otherwise it keeps the length and annotates each offer where it stands |
| WebApi.GetOffers | index.js:179-205 | a GetTradeOffers/v1 GET with the caller's options; an error passed on, or both lists annotated |
| WebApi.AnnotateList | index.js:188-199 | one list's update computes AnnotatedList |
| WebApi.GetOffer | index.js:207-223 | a GetTradeOffer/v1 GET with the caller's options; an error passed on, or the offer annotated; it succeeds exactly when the call does, the body has a response and its offer is not null, and fails after a good reply only with a TypeError |
| WebApi.GetSummary | index.js:225-231 | a GetTradeOffersSummary/v1 GET with no form; it succeeds exactly when there is no transport error, the status is 200 and the body is an object, and then passes the body on |
| WebApi.OfferIdCall | index.js:233-253 | a throw on null options; otherwise a POST to IEconService/<name>/ with only the key in its query and exactly tradeofferid, holding options.tradeOfferId, in its form |
| WebApi.DeclineOffer | index.js:233-242 | nothing is sent exactly on null options; otherwise a POST to IEconService/DeclineTradeOffer/v1/ whose form names only tradeofferid |
| WebApi.CancelOffer | index.js:244-253 | nothing is sent exactly on null options; otherwise a POST to IEconService/CancelTradeOffer/v1/ whose form names only tradeofferid |
| WebApi.SteamIdOtherNamesAccount | index.js:190 | the steamid_other added to an offer reads back, through toAccountId, as its accountid_other |
| WebApi.AnnotatedListKeepsOffers | index.js:189-199 | a present list keeps its length and order, each offer annotated where it stands |
| WebApi.AnnotatedListLeavesOthers | index.js:188-199 | annotating one list leaves every other property of the response alone |
| WebApi.GetOffersBodyFails | index.js:188-200 | getOffers throws only with a TypeError: on a missing `response`, or when a present list fails |
| WebApi.ListFailsExactly | index.js:188-199 | a list update throws exactly when the list is present and not an array, or holds a null or undefined offer |
| WebApi.GetOffersWithoutLists | index.js:188-202 | with neither list present, the body is passed on unchanged |
| WebApi.GetOfferAnnotatesOffer | index.js:216-218 | an object offer gains steamid_other; the rest of the response is unchanged |
| Receipt.FirstFrom | index.js:391 | the first occurrence of a word at or after a position |
| Receipt.LastBefore | index.js:391 | the last occurrence of a word before a position |
| Receipt.MatchSpanIsLeftmostGreedy | index.js:391 | there is a match exactly when a marker has a boundary after it; the one found is leftmost, then longest |
| Receipt.Fragment | index.js:391-392 | script[1] is the matched span and starts with `var oItem;` |
| Receipt.GetItems | index.js:380-411 | a throw on null options; a GET of the receipt page; the transport and status errors; `No session` without a match; otherwise the stubs followed by script[1]. It succeeds exactly when the options are present, the page loaded, and some marker has a boundary after it, and then the program starts with the stubs and `var oItem;` |
| Receipt.NoMarkerNoSession | index.js:391-395 | a page without the marker reports `No session` |
| Receipt.FragmentOfPage | index.js:391 | text before the first marker and after the last boundary does not change the fragment |

## Left out

- The HTTP transport, the cookie jar and `setup` (index.js:1-56) are not modelled. A response is an input, and the session's API key and session id are a `Session` value.
- `getOfferToken` is not part of this model.
- `vm.runInNewContext` (index.js:397-415) is not modelled. `Receipt.GetItems` ends with the program text handed to the sandbox, not with the items the script collects.
- The `debug` events emitted through EventEmitter are left out. They have no effect on results.
- `querystring.stringify`, JSON.stringify and percent-encoding are not modelled. Queries and forms are kept as ordered name/value lists, and `JsonText(v)` stands for JSON.stringify of v. The API key is spliced into the Web API URI without encoding, and the model does not capture the difference that makes.
- Numbers are integers: floating point and numbers beyond 2^53 are not modelled.
- Object.keys's ordering of integer-like keys before other keys is not modelled. An object's properties are visited in the order they are stored.
- The source updates items and offers in place and returns the same objects. The model computes new values, so aliasing between the input and the output is not captured.
- Inherited properties are left out. Reading a property (`Property`) reads own properties of objects only, so strings and arrays have no named properties.
- Writing a named property onto an array is left out too. In the source an array item gains the description's fields and contextid (index.js:138, 142), and an array offer gains steamid_other (index.js:190, 217). In the model `Put` applies to objects only (`Inventory.MergeEntry`, `WebApi.WithSteamIdOther`), and an array is passed on unchanged.
- A callback that is not a function (checked at index.js:161-174, 257-299 and 354-376) is left out. Every operation reports its outcome.
- The options of makeOffer, loadMyInventory and loadPartnerInventory are records of the fields the source reads, not arbitrary objects. A null options object, which throws in the source, is therefore not represented for them.
- Inventory.LoadInventory, Inventory.LoadMyInventory, Inventory.LoadPartnerInventory: specified only for responses in which some page ends the chain (`EndsChain`), because otherwise the source never calls back (`Inventory.RepeatedPageNeverEnds`).
- Identity.LongFromString: the `long` package is not part of this model; the function follows that package's documented `fromString`. Its 64-bit wrap-around is not modelled, because toAccountId keeps only the low word, which the wrap-around does not change.
- Identity.ToAccountId: every value that is not a string is a TypeError. For some arrays `Long.fromString` throws its 'empty string' or 'interior hyphen' error instead; only the error's message differs.
- Identity.AccountIdBits: parseInt of a non-numeric value is taken as 0 (NaN stored as a Long).
