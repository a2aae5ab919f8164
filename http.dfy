/**
 * Requests and responses as this core sees them. The transport itself is
 * outside the model: a response is an input value, and a request is the
 * structured description of what would be sent.
 */
module Http {
  import opened Wrappers
  import opened JsValues

  /**
   * How the core fails. Each constructor stands for the Error object the
   * source passes to its callback, except Uncaught, which stands for an
   * exception the source does not catch (reading a property of null,
   * long.js rejecting a string).
   */
  datatype Error =
    | Transport(cause: string)      // the transport's own error, passed on unchanged
    | HttpStatus(code: int)         // new Error(statusCode)
    | Application(message: string)  // new Error(body.strError)
    | ServiceFailure(detail: Value) // new Error('Error: ' + JSON.stringify(body.error))
    | InvalidResponse               // new Error('Invalid Response')
    | NoOptions                     // new Error('No options')
    | NoSession                     // new Error('No session')
    | Uncaught(reason: string)

  const TypeErrorThrown := Uncaught("TypeError")

  datatype Result<T> = Ok(value: T) | Err(error: Error)

  /** A form or query value: the value itself, or JSON.stringify of it. */
  datatype Arg = Plain(v: Value) | JsonText(json: Value)

  /** The argument of one querystring.stringify call, or a form body, in key order. */
  type Params = seq<(string, Arg)>

  /**
   * A URI: a path followed, when `queries` is not empty, by "?" and the
   * querystring.stringify of each element joined with "&". The exact
   * percent-encoding is the serializer's and is not modelled.
   */
  datatype Uri = Uri(path: string, queries: seq<Params>)

  /** The session state `setup` stores: the Web API key and the session id cookie's value. */
  datatype Session = Session(apiKey: Value, sessionId: Value)

  datatype Verb = Get | Post

  datatype Request = Request(verb: Verb, uri: Uri, referer: Option<Uri>, form: Option<Params>)

  /** What the transport hands to a request callback: (error, response, body). */
  datatype Response = Response(error: Option<string>, status: int, body: Value)

  /** A whole operation: the request it sent, if any, and what it reported. */
  datatype Call<T> = Call(sent: Option<Request>, outcome: Result<T>)

  /** The value of the first parameter of p called `name`, if there is one. */
  function Param(p: Params, name: string): (r: Option<Arg>)
    ensures r.Some? <==> exists i :: 0 <= i < |p| && p[i].0 == name
  {
    if p == [] then None else if p[0].0 == name then Some(p[0].1) else Param(p[1..], name)
  }

  /** A parameter that no earlier one shadows is the one Param finds. */
  lemma {:induction false} ParamAt(p: Params, i: nat)
    requires i < |p|
    requires forall j :: 0 <= j < i ==> p[j].0 != p[i].0
    ensures Param(p, p[i].0) == Some(p[i].1)
    decreases i
  {
    if i > 0 {
      assert forall j :: 0 <= j < i - 1 ==> p[1..][j] == p[j + 1];
      ParamAt(p[1..], i - 1);
    }
  }

  /** In p + q a name p has is found in p; any other name is found in q. */
  lemma {:induction false} ParamOfAppend(p: Params, q: Params)
    ensures forall name :: Param(p + q, name) == if Param(p, name).Some? then Param(p, name) else Param(q, name)
  {
    if p == [] {
      assert p + q == q;
    } else {
      assert (p + q)[0] == p[0];
      assert (p + q)[1..] == p[1..] + q;
      ParamOfAppend(p[1..], q);
    }
  }

  /** The names of the parameters, in order. */
  function ParamNames(p: Params): (names: seq<string>)
    ensures |names| == |p|
  {
    seq(|p|, i requires 0 <= i < |p| => p[i].0)
  }

  /** Puts front before a successful result; passes an error on. */
  function Prepend(front: seq<Value>, r: Result<seq<Value>>): Result<seq<Value>> {
    match r
    case Err(e) => Err(e)
    case Ok(rest) => Ok(front + rest)
  }

  lemma PrependNothing(r: Result<seq<Value>>)
    ensures Prepend([], r) == r
  {
    if r.Ok? {
      assert [] + r.value == r.value;
    }
  }

  lemma PrependTwice(a: seq<Value>, b: seq<Value>, r: Result<seq<Value>>)
    ensures Prepend(a, Prepend(b, r)) == Prepend(a + b, r)
  {
    if r.Ok? {
      assert a + (b + r.value) == (a + b) + r.value;
    }
  }

  /**
   * The first check every request callback makes: a transport error, and
   * then a status other than 200.
   */
  function TransportFailure(resp: Response): (r: Option<Error>)
    ensures resp.error.Some? ==> r == Some(Transport(resp.error.value))
    ensures resp.error.None? ==> (r.None? <==> resp.status == 200)
    ensures resp.error.None? && resp.status != 200 ==> r == Some(HttpStatus(resp.status))
  {
    if resp.error.Some? then Some(Transport(resp.error.value))
    else if resp.status != 200 then Some(HttpStatus(resp.status))
    else None
  }
}
