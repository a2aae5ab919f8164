/**
 * getItems: fetching a trade receipt page and locating the script
 * fragment that registers its items. Running that fragment is outside
 * the model; the outcome here is the program getItems hands to the
 * sandbox.
 */
module Receipt {
  import opened Wrappers
  import opened JsValues
  import opened Http

  /** Where the fragment starts. */
  const Marker := "var oItem;"

  /** The script boundary it must end at. */
  const Close := "</script>"

  /** The stubs getItems puts before the fragment: UserYou, BuildHover collecting items, and $. */
  const SandboxPrelude :=
    "var UserYou;function BuildHover(str, item) {items.push(item);}function $() {return {show: function() {}};}"

  predicate OccursAt(s: string, w: string, i: int) {
    0 <= i && i + |w| <= |s| && s[i..i + |w|] == w
  }

  /**
   * `(var oItem;[\s\S]*)<\/script>` matches with the capture body[i..j]:
   * the marker at i and the boundary at j, no earlier than the marker's end.
   */
  predicate MatchesAt(body: string, i: int, j: int) {
    OccursAt(body, Marker, i) && i + |Marker| <= j && OccursAt(body, Close, j)
  }

  /** The first place at or after `from` where w occurs. */
  function FirstFrom(s: string, w: string, from: nat): (r: Option<nat>)
    ensures r.Some? ==> from <= r.value && OccursAt(s, w, r.value)
    ensures forall k :: from <= k && (r.None? || k < r.value) ==> !OccursAt(s, w, k)
    decreases |s| - from
  {
    if from + |w| > |s| then None
    else if s[from..from + |w|] == w then Some(from)
    else FirstFrom(s, w, from + 1)
  }

  /** The last place before `upto` where w occurs. */
  function LastBefore(s: string, w: string, upto: nat): (r: Option<nat>)
    ensures r.Some? ==> r.value < upto && OccursAt(s, w, r.value)
    ensures forall k :: k < upto && (r.None? || r.value < k) ==> !OccursAt(s, w, k)
  {
    if upto == 0 then None
    else if OccursAt(s, w, upto - 1) then Some(upto - 1)
    else LastBefore(s, w, upto - 1)
  }

  /**
   * The regular expression's match: the first marker, and the last
   * boundary when it lies after that marker's end.
   */
  function MatchSpan(body: string): Option<(nat, nat)> {
    match FirstFrom(body, Marker, 0)
    case None => None
    case Some(i) =>
      match LastBefore(body, Close, |body| + 1)
      case None => None
      case Some(j) => if i + |Marker| <= j then Some((i, j)) else None
  }

  /**
   * MatchSpan is the regular expression's leftmost, greedy match: there is
   * one exactly when some marker has a boundary after it, and the one
   * found starts at the leftmost such marker and ends at the rightmost
   * boundary that start allows.
   */
  lemma MatchSpanIsLeftmostGreedy(body: string)
    ensures MatchSpan(body).None? <==> forall i, j :: !MatchesAt(body, i, j)
    ensures MatchSpan(body).Some? ==>
      var (i, j) := MatchSpan(body).value;
      && MatchesAt(body, i, j)
      && forall i', j' :: MatchesAt(body, i', j') ==> i < i' || (i == i' && j' <= j)
  {
    var first := FirstFrom(body, Marker, 0);
    var last := LastBefore(body, Close, |body| + 1);
    forall i, j | MatchesAt(body, i, j)
      ensures first.Some? && last.Some? && first.value <= i && j <= last.value
    {
      assert OccursAt(body, Close, j) && j < |body| + 1;
    }
    if first.Some? && last.Some? && first.value + |Marker| <= last.value {
      assert MatchSpan(body) == Some((first.value, last.value));
      assert MatchesAt(body, first.value, last.value);
    } else {
      assert MatchSpan(body).None?;
    }
  }

  /** The captured fragment, script[1], or None when the page has no match. */
  function Fragment(body: string): (r: Option<string>)
    ensures r.None? <==> MatchSpan(body).None?
    ensures r.Some? ==> r.value == body[MatchSpan(body).value.0..MatchSpan(body).value.1]
    ensures r.Some? ==> |Marker| <= |r.value| && r.value[..|Marker|] == Marker
  {
    match MatchSpan(body)
    case None => None
    case Some((i, j)) =>
      assert body[i..j][..|Marker|] == body[i..i + |Marker|];
      Some(body[i..j])
  }

  /** The receipt page of a trade. */
  function ReceiptUri(tradeId: Value): Uri {
    Uri("https://steamcommunity.com/trade/" + ToJsString(tradeId) + "/receipt/", [])
  }

  /**
   * getItems: reading tradeId off null or undefined throws before the GET;
   * otherwise a transport error or a status other than 200 is passed on, a
   * body without the match reports "No session", and a body with it yields
   * the program run in the sandbox: the stubs followed by the fragment.
   */
  function GetItems(options: Value, resp: Response): (call: Call<string>)
    ensures IsNullish(options) ==> call == Call(None, Err(TypeErrorThrown))
    ensures !IsNullish(options) ==>
      call.sent == Some(Request(Get, ReceiptUri(Property(options, "tradeId")), None, None))
    ensures !IsNullish(options) && TransportFailure(resp).Some? ==> call.outcome == Err(TransportFailure(resp).value)
    ensures !IsNullish(options) && TransportFailure(resp).None? && !resp.body.Str? ==>
      call.outcome == Err(TypeErrorThrown)
    ensures !IsNullish(options) && TransportFailure(resp).None? && resp.body.Str? ==>
      call.outcome == match Fragment(resp.body.s)
                      case None => Err(NoSession)
                      case Some(f) => Ok(SandboxPrelude + f)
    ensures call.outcome.Ok? <==>
      && !IsNullish(options) && TransportFailure(resp).None? && resp.body.Str?
      && exists i, j :: MatchesAt(resp.body.s, i, j)
    ensures call.outcome.Ok? ==>
      var program := call.outcome.value;
      |SandboxPrelude + Marker| <= |program| && program[..|SandboxPrelude + Marker|] == SandboxPrelude + Marker
  {
    if IsNullish(options) then Call(None, Err(TypeErrorThrown))
    else
      var sent := Some(Request(Get, ReceiptUri(Property(options, "tradeId")), None, None));
      if TransportFailure(resp).Some? then Call(sent, Err(TransportFailure(resp).value))
      else if !resp.body.Str? then Call(sent, Err(TypeErrorThrown))
      else
        MatchSpanIsLeftmostGreedy(resp.body.s);
        match Fragment(resp.body.s)
        case None => Call(sent, Err(NoSession))
        case Some(f) =>
          assert (SandboxPrelude + f)[..|SandboxPrelude + Marker|] == SandboxPrelude + f[..|Marker|];
          Call(sent, Ok(SandboxPrelude + f))
  }

  /** A page without the marker reports "No session". */
  lemma NoMarkerNoSession(options: Value, resp: Response)
    requires !IsNullish(options) && TransportFailure(resp).None? && resp.body.Str?
    requires forall i :: !OccursAt(resp.body.s, Marker, i)
    ensures GetItems(options, resp).outcome == Err(NoSession)
  {
    MatchSpanIsLeftmostGreedy(resp.body.s);
  }

  /**
   * Text around the match does not change where it is found: a page made
   * of a prefix without the marker, the marker, a middle and a boundary,
   * with no boundary after it, yields exactly the marker and the middle.
   */
  lemma FragmentOfPage(prefix: string, middle: string, suffix: string)
    requires forall i :: !OccursAt(prefix + Marker, Marker, i) || i == |prefix|
    requires forall j :: !OccursAt(Close + suffix, Close, j) || j == 0
    ensures Fragment(prefix + Marker + middle + Close + suffix) == Some(Marker + middle)
  {
    var body := prefix + Marker + middle + Close + suffix;
    PageMatchSpan(prefix, middle, suffix);
    assert body[|prefix|..|prefix| + |Marker| + |middle|] == Marker + middle;
  }

  /** On such a page the match runs from the end of the prefix to the start of the last boundary. */
  lemma PageMatchSpan(prefix: string, middle: string, suffix: string)
    requires forall i :: !OccursAt(prefix + Marker, Marker, i) || i == |prefix|
    requires forall j :: !OccursAt(Close + suffix, Close, j) || j == 0
    ensures MatchSpan(prefix + Marker + middle + Close + suffix) == Some((|prefix|, |prefix| + |Marker| + |middle|))
  {
    PageMatchStart(prefix, middle, suffix);
    PageMatchEnd(prefix, middle, suffix);
  }

  /** No marker inside the prefix: the match starts where the prefix ends. */
  lemma PageMatchStart(prefix: string, middle: string, suffix: string)
    requires forall i :: !OccursAt(prefix + Marker, Marker, i) || i == |prefix|
    ensures MatchSpan(prefix + Marker + middle + Close + suffix).Some?
    ensures MatchSpan(prefix + Marker + middle + Close + suffix).value.0 == |prefix|
  {
    var head := prefix + Marker;
    var body := prefix + Marker + middle + Close + suffix;
    PageMatchesAt(prefix, middle, suffix);
    MatchSpanIsLeftmostGreedy(body);
    var i0 := MatchSpan(body).value.0;
    if i0 < |prefix| {
      assert body == head + (middle + Close + suffix);
      OccursInPrefix(head, middle + Close + suffix, Marker, i0);
    }
  }

  /** No boundary inside the suffix: the match ends at the boundary after the middle. */
  lemma PageMatchEnd(prefix: string, middle: string, suffix: string)
    requires forall j :: !OccursAt(Close + suffix, Close, j) || j == 0
    ensures MatchSpan(prefix + Marker + middle + Close + suffix).Some?
    ensures MatchSpan(prefix + Marker + middle + Close + suffix).value.1 == |prefix| + |Marker| + |middle|
  {
    var tail := Close + suffix;
    var body := prefix + Marker + middle + Close + suffix;
    PageMatchesAt(prefix, middle, suffix);
    MatchSpanIsLeftmostGreedy(body);
    var j0 := MatchSpan(body).value.1;
    if j0 > |prefix| + |Marker| + |middle| {
      assert body == (prefix + Marker + middle) + tail;
      OccursInSuffix(prefix + Marker + middle, tail, Close, j0);
    }
  }

  /** The marker after the prefix and the boundary after the middle form a match. */
  lemma PageMatchesAt(prefix: string, middle: string, suffix: string)
    ensures MatchesAt(prefix + Marker + middle + Close + suffix, |prefix|, |prefix| + |Marker| + |middle|)
  {
    var head := prefix + Marker;
    var tail := Close + suffix;
    var body := prefix + Marker + middle + Close + suffix;
    assert body == head + (middle + tail);
    assert body == (head + middle) + tail;
    assert head[|prefix|..|prefix| + |Marker|] == Marker;
    OccursInPrefix(head, middle + tail, Marker, |prefix|);
    OccursInSuffix(head + middle, tail, Close, |head| + |middle|);
  }

  /** An occurrence that ends within a is an occurrence in a, and the converse. */
  lemma OccursInPrefix(a: string, b: string, w: string, k: int)
    requires 0 <= k && k + |w| <= |a|
    ensures OccursAt(a + b, w, k) <==> OccursAt(a, w, k)
  {
    assert (a + b)[k..k + |w|] == a[k..k + |w|];
  }

  /** An occurrence that starts within b is an occurrence in b, and the converse. */
  lemma OccursInSuffix(a: string, b: string, w: string, k: int)
    requires |a| <= k
    ensures OccursAt(a + b, w, k) <==> OccursAt(b, w, k - |a|)
  {
    if k + |w| <= |a| + |b| {
      assert (a + b)[k..k + |w|] == b[k - |a|..k - |a| + |w|];
    }
  }
}
