/**
 * Inventory loading: merging each page's items with their descriptions,
 * and walking the pages the service hands out one after another.
 */
module Inventory {
  import opened Wrappers
  import opened Decimal
  import opened JsValues
  import opened Http
  import opened Identity

  // ---------------------------------------------------------------------
  // Merging items with descriptions (mergeWithDescriptions)
  // ---------------------------------------------------------------------

  /** The key an item's description is filed under: `classid + '_' + (instanceid || '0')`. */
  function DescriptionKey(item: Value): string {
    var instance := Property(item, "instanceid");
    ToJsString(Property(item, "classid")) + "_" + (if Truthy(instance) then ToJsString(instance) else "0")
  }

  /** `for (key in source) target[key] = source[key]`, one property after another. */
  function CopyProps(target: Props, source: Props): Props
    decreases |source|
  {
    if source == [] then target else CopyProps(Put(target, source[0].0, source[0].1), source[1..])
  }

  lemma CopyPropsStep(target: Props, source: Props, j: nat)
    requires j < |source|
    ensures CopyProps(target, source[j..]) == CopyProps(Put(target, source[j].0, source[j].1), source[j + 1..])
  {
    assert source[j..][0] == source[j];
    assert source[j..][1..] == source[j + 1..];
  }

  /** The `for...in` loop that copies a description's fields onto an item. */
  method CopyOver(target: Props, source: Props) returns (props: Props)
    ensures props == CopyProps(target, source)
  {
    props := target;
    var j := 0;
    assert source[j..] == source;
    while j < |source|
      invariant 0 <= j <= |source|
      invariant CopyProps(props, source[j..]) == CopyProps(target, source)
    {
      CopyPropsStep(props, source, j);
      props := Put(props, source[j].0, source[j].1);
      j := j + 1;
    }
  }

  /** An item object after the merge: its description's fields copied over it, then contextid stamped. */
  function MergedItem(item: Props, description: Value, contextid: Value): Props {
    Put(CopyProps(item, OwnEnumerable(description)), "contextid", contextid)
  }

  /**
   * What the merge does to one entry of the item map. Reading `classid`
   * off a null entry, or indexing null descriptions, throws; a primitive
   * entry ignores the assignments and comes back as it was.
   */
  function MergeEntry(entry: Value, descriptions: Value, contextid: Value): Result<Value> {
    if IsNullish(entry) || IsNullish(descriptions) then Err(TypeErrorThrown)
    else if entry.Obj? then
      Ok(Obj(MergedItem(entry.props, Property(descriptions, DescriptionKey(entry)), contextid)))
    else Ok(entry)
  }

  /**
   * mergeWithDescriptions(items, descriptions, contextid): one merged
   * entry per key of items, in key order; an exception if any entry throws.
   */
  function Merge(items: Value, descriptions: Value, contextid: Value): Result<seq<Value>> {
    MergeEntries(OwnEnumerable(items), descriptions, contextid)
  }

  function MergeEntries(entries: Props, descriptions: Value, contextid: Value): Result<seq<Value>>
    decreases |entries|
  {
    if entries == [] then Ok([])
    else match MergeEntry(entries[0].1, descriptions, contextid)
      case Err(e) => Err(e)
      case Ok(v) => Prepend([v], MergeEntries(entries[1..], descriptions, contextid))
  }

  lemma MergeEntriesStep(entries: Props, i: nat, descriptions: Value, contextid: Value)
    requires i < |entries|
    ensures MergeEntries(entries[i..], descriptions, contextid) ==
      match MergeEntry(entries[i].1, descriptions, contextid)
      case Err(e) => Err(e)
      case Ok(v) => Prepend([v], MergeEntries(entries[i + 1..], descriptions, contextid))
  {
    assert entries[i..][0] == entries[i];
    assert entries[i..][1..] == entries[i + 1..];
  }

  /** mergeWithDescriptions' loop over the keys of items. */
  method MergeWithDescriptions(items: Value, descriptions: Value, contextid: Value)
    returns (r: Result<seq<Value>>)
    ensures r == Merge(items, descriptions, contextid)
  {
    var entries := OwnEnumerable(items);
    var merged: seq<Value> := [];
    var i := 0;
    assert entries[0..] == entries;
    PrependNothing(MergeEntries(entries, descriptions, contextid));
    while i < |entries|
      invariant 0 <= i <= |entries|
      invariant MergeEntries(entries, descriptions, contextid)
                == Prepend(merged, MergeEntries(entries[i..], descriptions, contextid))
    {
      var entry := MergeOne(entries[i].1, descriptions, contextid);
      MergeLoopStep(entries, i, merged, descriptions, contextid);
      if entry.Err? {
        return Err(entry.error);
      }
      merged := merged + [entry.value];
      i := i + 1;
    }
    r := Ok(merged);
    assert merged + [] == merged;
  }

  /** One turn of that loop: a failing entry fails the merge, a good one extends the prefix. */
  lemma MergeLoopStep(entries: Props, i: nat, merged: seq<Value>, descriptions: Value, contextid: Value)
    requires i < |entries|
    requires MergeEntries(entries, descriptions, contextid)
             == Prepend(merged, MergeEntries(entries[i..], descriptions, contextid))
    ensures match MergeEntry(entries[i].1, descriptions, contextid)
      case Err(e) => MergeEntries(entries, descriptions, contextid) == Err(e)
      case Ok(v) => MergeEntries(entries, descriptions, contextid)
                    == Prepend(merged + [v], MergeEntries(entries[i + 1..], descriptions, contextid))
  {
    MergeEntriesStep(entries, i, descriptions, contextid);
    match MergeEntry(entries[i].1, descriptions, contextid)
    case Err(e) =>
    case Ok(v) =>
      PrependTwice(merged, [v], MergeEntries(entries[i + 1..], descriptions, contextid));
  }

  /** The body of that loop for one entry, with its `for...in` copy of the description. */
  method MergeOne(item: Value, descriptions: Value, contextid: Value) returns (r: Result<Value>)
    ensures r == MergeEntry(item, descriptions, contextid)
  {
    if IsNullish(item) || IsNullish(descriptions) {
      return Err(TypeErrorThrown);
    }
    if !item.Obj? {
      return Ok(item);
    }
    var description := Property(descriptions, DescriptionKey(item));
    var props := CopyOver(item.props, OwnEnumerable(description));
    props := Put(props, "contextid", contextid);
    r := Ok(Obj(props));
  }

  /**
   * Copying source over target: every source field wins and every other
   * field of target stays.
   */
  lemma {:induction false} CopyPropsValues(target: Props, source: Props)
    requires DistinctKeys(source)
    ensures forall k :: Lookup(CopyProps(target, source), k) ==
                        if k in Keys(source) then Lookup(source, k) else Lookup(target, k)
    decreases |source|
  {
    if source != [] {
      var (k0, v0) := source[0];
      var rest := source[1..];
      assert DistinctKeys(rest);
      CopyPropsValues(Put(target, k0, v0), rest);
      assert Keys(source) == [k0] + Keys(rest);
      SourceHeadNotInRest(source);
    }
  }

  /**
   * Copying keeps target's fields in their places, adds source's new ones
   * after them, and adds no repeated field.
   */
  lemma {:induction false} CopyPropsKeys(target: Props, source: Props)
    requires DistinctKeys(source)
    ensures Keys(target) <= Keys(CopyProps(target, source))
    ensures forall k :: k in Keys(CopyProps(target, source)) <==> k in Keys(target) || k in Keys(source)
    ensures DistinctKeys(target) ==> DistinctKeys(CopyProps(target, source))
    decreases |source|
  {
    if source != [] {
      var (k0, v0) := source[0];
      var next := Put(target, k0, v0);
      var rest := source[1..];
      assert DistinctKeys(rest);
      CopyPropsKeys(next, rest);
      assert Keys(source) == [k0] + Keys(rest);
      if DistinctKeys(target) {
        PutKeepsDistinct(target, k0, v0);
      }
    }
  }

  lemma SourceHeadNotInRest(source: Props)
    requires source != [] && DistinctKeys(source)
    ensures source[0].0 !in Keys(source[1..])
  {
    var rest := source[1..];
    forall i | 0 <= i < |rest| ensures rest[i].0 != source[0].0 {
      assert rest[i] == source[i + 1];
    }
  }

  /**
   * The merged item carries every own field of its description, overriding
   * the item's; contextid is always the argument, even when the
   * description has one; every other field of the item is unchanged.
   */
  lemma MergedItemValues(item: Props, description: Value, contextid: Value)
    requires description.Obj? ==> DistinctKeys(description.props)
    ensures var merged := MergedItem(item, description, contextid);
      && Lookup(merged, "contextid") == contextid
      && (forall k :: k != "contextid" && k in Keys(OwnEnumerable(description)) ==>
            Lookup(merged, k) == Lookup(OwnEnumerable(description), k))
      && (forall k :: k != "contextid" && k !in Keys(OwnEnumerable(description)) ==>
            Lookup(merged, k) == Lookup(item, k))
  {
    OwnEnumerableDistinct(description);
    CopyPropsValues(item, OwnEnumerable(description));
  }

  /**
   * The merged item keeps the item's fields in their old places, then the
   * description's new ones, then contextid if neither had it.
   */
  lemma MergedItemKeys(item: Props, description: Value, contextid: Value)
    requires description.Obj? ==> DistinctKeys(description.props)
    ensures var merged := MergedItem(item, description, contextid);
      && Keys(item) <= Keys(merged)
      && (forall k :: k in Keys(merged) <==> k in Keys(item) || k in Keys(OwnEnumerable(description)) || k == "contextid")
  {
    var source := OwnEnumerable(description);
    OwnEnumerableDistinct(description);
    CopyPropsKeys(item, source);
    var copied := CopyProps(item, source);
    var merged := Put(copied, "contextid", contextid);
    PrefixOfPrefix(Keys(item), Keys(copied), Keys(merged));
  }

  lemma PrefixOfPrefix(a: seq<string>, b: seq<string>, c: seq<string>)
    requires a <= b && b <= c
    ensures a <= c
  {
    assert a == b[..|a|] && b == c[..|b|];
    assert c[..|b|][..|a|] == c[..|a|];
  }

  /** An item without repeated fields keeps none after the merge. */
  lemma MergedItemDistinct(item: Props, description: Value, contextid: Value)
    requires description.Obj? ==> DistinctKeys(description.props)
    requires DistinctKeys(item)
    ensures DistinctKeys(MergedItem(item, description, contextid))
  {
    OwnEnumerableDistinct(description);
    var copied := CopyProps(item, OwnEnumerable(description));
    CopyPropsKeys(item, OwnEnumerable(description));
    PutKeepsDistinct(copied, "contextid", contextid);
  }

  /** An item whose description is missing gains contextid and nothing else. */
  lemma MissingDescription(item: Props, descriptions: Value, contextid: Value)
    requires !IsNullish(descriptions)
    requires Property(descriptions, DescriptionKey(Obj(item))) == Undefined
    ensures MergeEntry(Obj(item), descriptions, contextid) == Ok(Obj(Put(item, "contextid", contextid)))
    ensures forall k :: k != "contextid" ==> Lookup(Put(item, "contextid", contextid), k) == Lookup(item, k)
  {
  }

  /**
   * The merge fails exactly when an entry is null or undefined, or when
   * there is an entry and the descriptions are; otherwise it returns one
   * record per entry, in key order.
   */
  lemma {:induction false} MergeEntriesShape(entries: Props, descriptions: Value, contextid: Value)
    ensures MergeEntries(entries, descriptions, contextid).Err? <==>
      (|entries| > 0 && IsNullish(descriptions)) || exists i :: 0 <= i < |entries| && IsNullish(entries[i].1)
    ensures MergeEntries(entries, descriptions, contextid).Err? ==>
      MergeEntries(entries, descriptions, contextid).error == TypeErrorThrown
    ensures MergeEntries(entries, descriptions, contextid).Ok? ==>
      var merged := MergeEntries(entries, descriptions, contextid).value;
      && |merged| == |entries|
      && forall i :: 0 <= i < |entries| ==>
           merged[i] == if entries[i].1.Obj?
             then Obj(MergedItem(entries[i].1.props, Property(descriptions, DescriptionKey(entries[i].1)), contextid))
             else entries[i].1
    decreases |entries|
  {
    if entries != [] {
      var rest := entries[1..];
      MergeEntriesShape(rest, descriptions, contextid);
      assert forall i :: 0 <= i < |rest| ==> rest[i] == entries[i + 1];
      if IsNullish(entries[0].1) {
        assert exists i :: 0 <= i < |entries| && IsNullish(entries[i].1);
      }
      if exists i :: 0 <= i < |rest| && IsNullish(rest[i].1) {
        var i :| 0 <= i < |rest| && IsNullish(rest[i].1);
        assert IsNullish(entries[i + 1].1);
      }
      if exists i :: 0 <= i < |entries| && IsNullish(entries[i].1) {
        var i :| 0 <= i < |entries| && IsNullish(entries[i].1);
        if i > 0 {
          assert IsNullish(rest[i - 1].1);
        }
      }
    }
  }

  /** The same, for the merge of a whole item map. */
  lemma MergeShape(items: Value, descriptions: Value, contextid: Value)
    ensures var entries := OwnEnumerable(items);
      Merge(items, descriptions, contextid).Err? <==>
        (|entries| > 0 && IsNullish(descriptions)) || exists i :: 0 <= i < |entries| && IsNullish(entries[i].1)
    ensures var entries := OwnEnumerable(items);
      Merge(items, descriptions, contextid).Ok? ==>
        var merged := Merge(items, descriptions, contextid).value;
        && |merged| == |entries|
        && forall i :: 0 <= i < |entries| ==>
             merged[i] == if entries[i].1.Obj?
               then Obj(MergedItem(entries[i].1.props, Property(descriptions, DescriptionKey(entries[i].1)), contextid))
               else entries[i].1
  {
    MergeEntriesShape(OwnEnumerable(items), descriptions, contextid);
  }

  // ---------------------------------------------------------------------
  // Pagination (_loadInventory)
  // ---------------------------------------------------------------------

  /** What one inventory page yields: an error, or its merged items and where to go next. */
  datatype PageOutcome =
    | PageFailed(error: Error)
    | PageLoaded(items: seq<Value>, more: bool, moreStart: Value)

  /**
   * One page's response, checked in the source's order: transport error
   * or status, then a body whose `success` is false, then a missing
   * rgInventory, rgDescriptions or rgCurrency; a good page contributes
   * merge(rgInventory) followed by merge(rgCurrency).
   */
  function LoadPage(resp: Response, contextid: Value): PageOutcome {
    var body := resp.body;
    var inventory := Property(body, "rgInventory");
    var descriptions := Property(body, "rgDescriptions");
    var currency := Property(body, "rgCurrency");
    if TransportFailure(resp).Some? then PageFailed(TransportFailure(resp).value)
    else if Truthy(body) && !Truthy(Property(body, "success")) then
      PageFailed(ServiceFailure(Property(body, "error")))
    else if !Truthy(body) || !Truthy(inventory) || !Truthy(descriptions) || !Truthy(currency) then
      PageFailed(InvalidResponse)
    else
      match Merge(inventory, descriptions, contextid)
      case Err(e) => PageFailed(e)
      case Ok(items) =>
        match Merge(currency, descriptions, contextid)
        case Err(e) => PageFailed(e)
        case Ok(currencies) =>
          PageLoaded(items + currencies, Truthy(Property(body, "more")), Property(body, "more_start"))
  }

  /** The checks of one page and the merges of its items. */
  method LoadOnePage(resp: Response, contextid: Value) returns (outcome: PageOutcome)
    ensures outcome == LoadPage(resp, contextid)
  {
    var failure := TransportFailure(resp);
    if failure.Some? {
      return PageFailed(failure.value);
    }
    var body := resp.body;
    if Truthy(body) && !Truthy(Property(body, "success")) {
      return PageFailed(ServiceFailure(Property(body, "error")));
    }
    var inventory := Property(body, "rgInventory");
    var descriptions := Property(body, "rgDescriptions");
    var currency := Property(body, "rgCurrency");
    if !Truthy(body) || !Truthy(inventory) || !Truthy(descriptions) || !Truthy(currency) {
      return PageFailed(InvalidResponse);
    }
    var items := MergeWithDescriptions(inventory, descriptions, contextid);
    if items.Err? {
      return PageFailed(items.error);
    }
    var currencies := MergeWithDescriptions(currency, descriptions, contextid);
    if currencies.Err? {
      return PageFailed(currencies.error);
    }
    outcome := PageLoaded(items.value + currencies.value, Truthy(Property(body, "more")), Property(body, "more_start"));
  }

  /** The outcome of every response, in order. */
  function PageOutcomes(responses: seq<Response>, contextid: Value): (pages: seq<PageOutcome>)
    ensures |pages| == |responses|
    decreases |responses|
  {
    if responses == [] then [] else [LoadPage(responses[0], contextid)] + PageOutcomes(responses[1..], contextid)
  }

  lemma {:induction false} PageOutcomeAt(responses: seq<Response>, contextid: Value, k: nat)
    requires k < |responses|
    ensures PageOutcomes(responses, contextid)[k] == LoadPage(responses[k], contextid)
    decreases k
  {
    if k > 0 {
      PageOutcomeAt(responses[1..], contextid, k - 1);
    }
  }

  /** A page after which the source asks for another. */
  predicate Continues(page: PageOutcome) {
    page.PageLoaded? && page.more
  }

  /** The index of the first page that ends the chain, or the number of pages when none does. */
  function FirstStop(pages: seq<PageOutcome>): (n: nat)
    ensures n <= |pages|
    ensures n < |pages| ==> !Continues(pages[n])
    ensures forall k :: 0 <= k < n ==> Continues(pages[k])
    decreases |pages|
  {
    if pages == [] || !Continues(pages[0]) then 0
    else
      var rest := FirstStop(pages[1..]);
      assert forall k :: 0 < k <= rest ==> pages[k] == pages[1..][k - 1];
      1 + rest
  }

  /** Some page in the sequence ends the chain of requests. */
  predicate EndsChain(pages: seq<PageOutcome>) {
    FirstStop(pages) < |pages|
  }

  /** The index of the page that ends the chain: pages 0 to n are requested. */
  function ChainLength(pages: seq<PageOutcome>): (n: nat)
    requires EndsChain(pages)
    ensures n < |pages| && !Continues(pages[n])
    ensures forall k :: 0 <= k < n ==> Continues(pages[k])
  {
    FirstStop(pages)
  }

  /** The items of the first k pages, in fetch order. */
  function Fetched(pages: seq<PageOutcome>, k: nat): seq<Value>
    requires k <= |pages|
  {
    if k == 0 then []
    else
      Fetched(pages, k - 1)
      + match pages[k - 1]
        case PageLoaded(items, _, _) => items
        case PageFailed(_) => []
  }

  /** The cursor request k carries: none for the first, then the previous page's more_start. */
  function Cursor(pages: seq<PageOutcome>, k: nat): Value
    requires k <= |pages|
  {
    if k == 0 then Null
    else match pages[k - 1]
      case PageLoaded(_, _, next) => next
      case PageFailed(_) => Null
  }

  /** The URI of a page request: the base URI, with `&start=` appended only when the cursor is truthy. */
  function PageUri(uri: Uri, start: Value): (u: Uri)
    ensures u.path == uri.path
    ensures !Truthy(start) ==> u == uri
    ensures Truthy(start) ==> u.queries == uri.queries + [[("start", Plain(start))]]
  {
    if Truthy(start) then Uri(uri.path, uri.queries + [[("start", Plain(start))]]) else uri
  }

  /** The URIs of the first k page requests. */
  function PageRequests(uri: Uri, pages: seq<PageOutcome>, k: nat): (uris: seq<Uri>)
    requires k <= |pages|
    ensures |uris| == k
    ensures forall j :: 0 <= j < k ==> uris[j] == PageUri(uri, Cursor(pages, j))
  {
    if k == 0 then [] else PageRequests(uri, pages, k - 1) + [PageUri(uri, Cursor(pages, k - 1))]
  }

  /**
   * What loading an inventory from `uri` produces when its pages turn out
   * as `pages`: one request per page up to the one that ends the chain,
   * each on the original base URI with the previous page's cursor; the
   * concatenated items of all those pages if the last is good; its error,
   * and nothing of the earlier pages, if it is not.
   */
  predicate PaginationResult(uri: Uri, pages: seq<PageOutcome>, r: Result<seq<Value>>, requests: seq<Uri>)
    requires EndsChain(pages)
  {
    var n := ChainLength(pages);
    && |requests| == n + 1
    && (forall k :: 0 <= k <= n ==> requests[k] == PageUri(uri, Cursor(pages, k)))
    && match pages[n]
       case PageFailed(e) => r == Err(e)
       case PageLoaded(items, _, _) => r == Ok(Fetched(pages, n) + items)
  }

  /**
   * _loadInventory as a loop: request k receives responses[k]; the
   * accumulator grows by each good page's items; the loop goes on with
   * more_start while `more` is set.
   */
  method LoadInventory(uri: Uri, contextid: Value, responses: seq<Response>)
    returns (r: Result<seq<Value>>, requests: seq<Uri>)
    requires EndsChain(PageOutcomes(responses, contextid))
    ensures PaginationResult(uri, PageOutcomes(responses, contextid), r, requests)
  {
    ghost var pages := PageOutcomes(responses, contextid);
    var inventory: seq<Value> := [];
    var start: Value := Null;
    var k := 0;
    requests := [];
    while true
      invariant Progress(uri, pages, k, requests, start, inventory)
      decreases ChainLength(pages) - k
    {
      NextRequest(uri, pages, k, requests, start, inventory);
      requests := requests + [PageUri(uri, start)];
      var outcome := LoadPageAt(responses, contextid, k);
      if !Continues(outcome) {
        r := if outcome.PageFailed? then Err(outcome.error) else Ok(inventory + outcome.items);
        ChainEndsAt(uri, pages, k, r, requests);
        return;
      }
      NextPage(uri, pages, k, requests, inventory);
      inventory := inventory + outcome.items;
      start := outcome.moreStart;
      k := k + 1;
    }
  }

  /**
   * Where the loop stands before request k: the requests so far, the
   * cursor for the next one and the items gathered.
   */
  predicate Progress(uri: Uri, pages: seq<PageOutcome>, k: nat, requests: seq<Uri>, start: Value, inventory: seq<Value>)
  {
    && EndsChain(pages) && k <= ChainLength(pages)
    && requests == PageRequests(uri, pages, k)
    && start == Cursor(pages, k)
    && inventory == Fetched(pages, k)
  }

  /** Request k goes to the base URI with the current cursor. */
  lemma NextRequest(uri: Uri, pages: seq<PageOutcome>, k: nat, requests: seq<Uri>, start: Value, inventory: seq<Value>)
    requires Progress(uri, pages, k, requests, start, inventory)
    ensures k < |pages| && requests + [PageUri(uri, start)] == PageRequests(uri, pages, k + 1)
  {
  }

  /** A page that asks for more moves the loop on by one request. */
  lemma NextPage(uri: Uri, pages: seq<PageOutcome>, k: nat, requests: seq<Uri>, inventory: seq<Value>)
    requires EndsChain(pages) && k <= ChainLength(pages)
    requires requests == PageRequests(uri, pages, k + 1)
    requires inventory == Fetched(pages, k)
    requires Continues(pages[k])
    ensures Progress(uri, pages, k + 1, requests, pages[k].moreStart, inventory + pages[k].items)
    ensures ChainLength(pages) - (k + 1) < ChainLength(pages) - k
  {
    assert k != ChainLength(pages);
  }

  /** The page that ends the chain decides the result. */
  lemma ChainEndsAt(uri: Uri, pages: seq<PageOutcome>, k: nat, r: Result<seq<Value>>, requests: seq<Uri>)
    requires EndsChain(pages)
    requires k <= ChainLength(pages) && !Continues(pages[k])
    requires requests == PageRequests(uri, pages, k + 1)
    requires r == match pages[k]
                  case PageFailed(e) => Err(e)
                  case PageLoaded(items, _, _) => Ok(Fetched(pages, k) + items)
    ensures PaginationResult(uri, pages, r, requests)
  {
    assert k == ChainLength(pages);
  }

  /** Request k's page: the same checks and merges on responses[k]. */
  method LoadPageAt(responses: seq<Response>, contextid: Value, k: nat) returns (outcome: PageOutcome)
    requires k < |responses|
    ensures outcome == PageOutcomes(responses, contextid)[k]
  {
    outcome := LoadOnePage(responses[k], contextid);
    PageOutcomeAt(responses, contextid, k);
  }

  /**
   * A server that answers every request with the same page asking for
   * more (an unchanged cursor) never ends the chain: the source keeps
   * requesting it.
   */
  lemma RepeatedPageNeverEnds(page: Response, contextid: Value, n: nat)
    requires Continues(LoadPage(page, contextid))
    ensures !EndsChain(PageOutcomes(seq(n, _ => page), contextid))
  {
    var responses := seq(n, _ => page);
    var pages := PageOutcomes(responses, contextid);
    forall k | 0 <= k < n ensures Continues(pages[k]) {
      PageOutcomeAt(responses, contextid, k);
    }
    NeverStops(pages);
  }

  /** When every page asks for more, no page ends the chain. */
  lemma {:induction false} NeverStops(pages: seq<PageOutcome>)
    requires forall k :: 0 <= k < |pages| ==> Continues(pages[k])
    ensures !EndsChain(pages)
    decreases |pages|
  {
    if pages != [] {
      assert forall k :: 0 <= k < |pages| - 1 ==> pages[1..][k] == pages[k + 1];
      NeverStops(pages[1..]);
    }
  }

  /**
   * Error precedence on a page: a transport error first, then the status,
   * then `success`, then the three required fields.
   */
  lemma PageErrorPrecedence(resp: Response, contextid: Value)
    ensures resp.error.Some? ==> LoadPage(resp, contextid) == PageFailed(Transport(resp.error.value))
    ensures resp.error.None? && resp.status != 200 ==>
      LoadPage(resp, contextid) == PageFailed(HttpStatus(resp.status))
    ensures resp.error.None? && resp.status == 200 && Truthy(resp.body) && !Truthy(Property(resp.body, "success")) ==>
      LoadPage(resp, contextid) == PageFailed(ServiceFailure(Property(resp.body, "error")))
    ensures (&& resp.error.None? && resp.status == 200 && Truthy(Property(resp.body, "success"))
             && !(Truthy(Property(resp.body, "rgInventory")) && Truthy(Property(resp.body, "rgDescriptions"))
                  && Truthy(Property(resp.body, "rgCurrency"))))
            ==> LoadPage(resp, contextid) == PageFailed(InvalidResponse)
    ensures !Truthy(resp.body) && resp.error.None? && resp.status == 200 ==>
      LoadPage(resp, contextid) == PageFailed(InvalidResponse)
  {
  }

  /** A page is good exactly when all the checks pass and neither merge throws. */
  lemma PageLoadedExactly(resp: Response, contextid: Value)
    ensures LoadPage(resp, contextid).PageLoaded? <==>
      && resp.error.None? && resp.status == 200
      && Truthy(Property(resp.body, "success"))
      && Truthy(Property(resp.body, "rgInventory")) && Truthy(Property(resp.body, "rgDescriptions"))
      && Truthy(Property(resp.body, "rgCurrency"))
      && Merge(Property(resp.body, "rgInventory"), Property(resp.body, "rgDescriptions"), contextid).Ok?
      && Merge(Property(resp.body, "rgCurrency"), Property(resp.body, "rgDescriptions"), contextid).Ok?
  {
    var body := resp.body;
    var inventory := Property(body, "rgInventory");
    var descriptions := Property(body, "rgDescriptions");
    var currency := Property(body, "rgCurrency");
    if resp.error.None? && resp.status == 200 && Truthy(Property(body, "success")) {
      assert body.Obj?;
      assert Truthy(body);
      if Truthy(inventory) && Truthy(descriptions) && Truthy(currency) {
        assert LoadPage(resp, contextid) ==
          match Merge(inventory, descriptions, contextid)
          case Err(e) => PageFailed(e)
          case Ok(items) =>
            match Merge(currency, descriptions, contextid)
            case Err(e) => PageFailed(e)
            case Ok(currencies) => PageLoaded(items + currencies, Truthy(Property(body, "more")), Property(body, "more_start"));
      }
    }
  }

  /** A good page yields the merged items followed by the merged currency, and the body's cursor. */
  lemma PageItems(resp: Response, contextid: Value)
    requires LoadPage(resp, contextid).PageLoaded?
    ensures LoadPage(resp, contextid).items ==
      Merge(Property(resp.body, "rgInventory"), Property(resp.body, "rgDescriptions"), contextid).value
      + Merge(Property(resp.body, "rgCurrency"), Property(resp.body, "rgDescriptions"), contextid).value
    ensures LoadPage(resp, contextid).more == Truthy(Property(resp.body, "more"))
    ensures LoadPage(resp, contextid).moreStart == Property(resp.body, "more_start")
  {
  }

  // ---------------------------------------------------------------------
  // The two inventory operations
  // ---------------------------------------------------------------------

  datatype MyInventoryOptions = MyInventoryOptions(appId: Value, contextId: Value, language: Value, tradableOnly: Value)

  datatype PartnerInventoryOptions = PartnerInventoryOptions(
    partnerSteamId: Value, partnerAccountId: Value, appId: Value, contextId: Value,
    language: Value, tradeOfferId: Value)

  /**
   * loadMyInventory's URI: the app and context in the path, then `l` when
   * a language is given and `trading=1` unless tradableOnly is false.
   */
  function MyInventoryUri(options: MyInventoryOptions): (u: Uri)
    ensures u.path == "https://steamcommunity.com/my/inventory/json/" + ToJsString(options.appId)
                      + "/" + ToJsString(options.contextId) + "/"
    ensures |u.queries| == 1
    ensures ParamNames(u.queries[0]) ==
      (if Truthy(options.language) then ["l"] else []) + (if options.tradableOnly != Bool(false) then ["trading"] else [])
    ensures Param(u.queries[0], "l") == if Truthy(options.language) then Some(Plain(options.language)) else None
    ensures Param(u.queries[0], "trading") == if options.tradableOnly != Bool(false) then Some(Plain(Num(1))) else None
  {
    var withLanguage: Params := if Truthy(options.language) then [("l", Plain(options.language))] else [];
    var query := if options.tradableOnly != Bool(false) then withLanguage + [("trading", Plain(Num(1)))] else withLanguage;
    Uri("https://steamcommunity.com/my/inventory/json/" + ToJsString(options.appId)
        + "/" + ToJsString(options.contextId) + "/", [query])
  }

  /** loadMyInventory: the pages of the caller's own inventory, from its URI. */
  method LoadMyInventory(options: MyInventoryOptions, responses: seq<Response>)
    returns (r: Result<seq<Value>>, requests: seq<Uri>)
    requires EndsChain(PageOutcomes(responses, options.contextId))
    ensures PaginationResult(MyInventoryUri(options), PageOutcomes(responses, options.contextId), r, requests)
  {
    var query: Params := [];
    if Truthy(options.language) {
      query := [("l", Plain(options.language))];
    }
    if options.tradableOnly != Bool(false) {
      query := query + [("trading", Plain(Num(1)))];
    }
    var uri := Uri("https://steamcommunity.com/my/inventory/json/" + ToJsString(options.appId)
                   + "/" + ToJsString(options.contextId) + "/", [query]);
    r, requests := LoadInventory(uri, options.contextId, responses);
  }

  /** The page name both URIs of loadPartnerInventory share: the offer id, or `new`. */
  function OfferPage(tradeOfferId: Value): string {
    if Truthy(tradeOfferId) then ToJsString(tradeOfferId) else "new"
  }

  /**
   * loadPartnerInventory's form, sent as the query: the session id, the
   * partner's community id, the app, the context and the language when
   * one is given, in that order.
   */
  function PartnerInventoryQuery(session: Session, options: PartnerInventoryOptions, partner: Value): (q: Params)
    ensures ParamNames(q) == ["sessionid", "partner", "appid", "contextid"] + (if Truthy(options.language) then ["l"] else [])
    ensures Param(q, "sessionid") == Some(Plain(session.sessionId))
    ensures Param(q, "partner") == Some(Plain(partner))
    ensures Param(q, "appid") == Some(Plain(options.appId))
    ensures Param(q, "contextid") == Some(Plain(options.contextId))
    ensures Param(q, "l") == if Truthy(options.language) then Some(Plain(options.language)) else None
  {
    var q := [("sessionid", Plain(session.sessionId)), ("partner", Plain(partner)),
              ("appid", Plain(options.appId)), ("contextid", Plain(options.contextId))]
             + (if Truthy(options.language) then [("l", Plain(options.language))] else []);
    ParamAt(q, 1);
    ParamAt(q, 2);
    ParamAt(q, 3);
    if Truthy(options.language) then ParamAt(q, 4); q else q
  }

  /**
   * loadPartnerInventory's request: a GET of the partner inventory page
   * with that query, and a referer naming the partner's account id;
   * toAccountId throws on a partner id it cannot read, before anything is
   * sent.
   */
  function PartnerInventoryRequest(session: Session, options: PartnerInventoryOptions): (r: Result<Request>)
    ensures var partner := PartnerSteamId(options.partnerSteamId, options.partnerAccountId);
      && (r.Err? <==> ToAccountId(partner).Err?)
      && (r.Err? ==> r.error == ToAccountId(partner).error)
    ensures r.Ok? ==> var partner := PartnerSteamId(options.partnerSteamId, options.partnerAccountId);
      && r.value.verb == Get && r.value.form == None
      && r.value.uri == Uri("https://steamcommunity.com/tradeoffer/" + OfferPage(options.tradeOfferId) + "/partnerinventory/",
                            [PartnerInventoryQuery(session, options, partner)])
      && r.value.referer == Some(Uri("https://steamcommunity.com/tradeoffer/" + OfferPage(options.tradeOfferId) + "/",
                                     [[("partner", Plain(Str(ToAccountId(partner).value)))]]))
  {
    var partner := PartnerSteamId(options.partnerSteamId, options.partnerAccountId);
    var offer := OfferPage(options.tradeOfferId);
    match ToAccountId(partner)
    case Err(e) => Err(e)
    case Ok(accountId) =>
      Ok(Request(Get, Uri("https://steamcommunity.com/tradeoffer/" + offer + "/partnerinventory/",
                          [PartnerInventoryQuery(session, options, partner)]),
                 Some(Uri("https://steamcommunity.com/tradeoffer/" + offer + "/", [[("partner", Plain(Str(accountId)))]])),
                 None))
  }

  /**
   * loadPartnerInventory: the pages of the partner's inventory, all sent
   * with the same referer; nothing is requested when the partner id cannot
   * be read.
   */
  method LoadPartnerInventory(session: Session, options: PartnerInventoryOptions, responses: seq<Response>)
    returns (r: Result<seq<Value>>, requests: seq<Uri>, referer: Option<Uri>)
    requires EndsChain(PageOutcomes(responses, options.contextId))
    ensures match PartnerInventoryRequest(session, options)
      case Err(e) => r == Err(e) && requests == [] && referer == None
      case Ok(req) => referer == req.referer && PaginationResult(req.uri, PageOutcomes(responses, options.contextId), r, requests)
  {
    var req := PartnerInventoryRequest(session, options);
    if req.Err? {
      return Err(req.error), [], None;
    }
    r, requests := LoadInventory(req.value.uri, options.contextId, responses);
    referer := req.value.referer;
  }
}
