/**
 * How both data sections turn the outcome of a `fetch` POST into the value
 * they store: a 200 response gives its parsed JSON body, any other status
 * gives `{status, statusText}`, and a rejected request (or a body that does
 * not parse) gives nothing to store.
 */
module Http {
  import opened Js
  import opened Wrappers

  /** A response: its status, status text and what `res.json()` yields
      (`None` when parsing the body rejects). */
  datatype Response = Response(status: int, statusText: string, json: Option<Value>)

  datatype Outcome = Rejected | Resolved(response: Response)

  /** `{status: res.status, statusText: res.statusText}` */
  function StatusPayload(status: int, statusText: string): (v: Value)
    ensures Truthy(v)
    ensures Get(v, "status") == Num(status) && Get(v, "statusText") == Str(statusText)
  {
    var fields := [("status", Num(status)), ("statusText", Str(statusText))];
    assert fields[0].0 != "statusText" by { assert |fields[0].0| != |"statusText"|; }
    assert Lookup(fields, "statusText") == Lookup(fields[1..], "statusText");
    Obj(fields)
  }

  /** The value handed to the success callback, or `None` when the error
      callback runs instead. */
  function Settle(o: Outcome): (result: Option<Value>)
    ensures o.Rejected? ==> result.None?
    ensures o.Resolved? && o.response.status == 200 ==> result == o.response.json
    ensures o.Resolved? && o.response.status != 200 ==>
      && result.Some? && Truthy(result.value)
      && Get(result.value, "status") == Num(o.response.status)
      && Get(result.value, "statusText") == Str(o.response.statusText)
  {
    match o
    case Rejected => None
    case Resolved(r) =>
      if r.status == 200 then r.json else Some(StatusPayload(r.status, r.statusText))
  }

  /** A request body with the single entry `name: v`. */
  function SingleEntryBody(name: string, v: Value): (body: Value)
    ensures Get(body, name) == v
    ensures body.Obj? && |Entries(body)| == 1
  {
    Obj([(name, v)])
  }
}
