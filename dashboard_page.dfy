/**
 * The dashboard page: its welcome message, and the effect that loads the
 * enrolled-member data once a subject is known.
 */
module DashboardPage {
  import opened Js
  import opened Wrappers
  import Http
  import AccessTokenDisplay

  const NoUser := "No user found"

  /** The banner text: it depends on whether a raw token is stored, not on `auth`. */
  function WelcomeMessage(raw: Value, sub: Value, tid: Value): (m: string)
    ensures Truthy(raw) ==> m == "Welcome, user \"" + ToText(sub) + "\" from tenant \"" + ToText(tid) + "\"!"
    ensures m == NoUser <==> !Truthy(raw)
  {
    if Truthy(raw) then
      var m := "Welcome, user \"" + ToText(sub) + "\" from tenant \"" + ToText(tid) + "\"!";
      assert m[0] != NoUser[0];
      m
    else NoUser
  }

  /** `sub` and `tid` of the decoded claims. */
  function Subject(auth: Value, decoded: Value): (sub: Value)
    ensures !Truthy(auth) || !Truthy(decoded) ==> sub == Undefined
    ensures Truthy(auth) && Truthy(decoded) ==> sub == Get(decoded, "sub")
  {
    Get(AccessTokenDisplay.Claims(auth, decoded), "sub")
  }

  function Tenant(auth: Value, decoded: Value): (tid: Value)
    ensures !Truthy(auth) || !Truthy(decoded) ==> tid == Undefined
    ensures Truthy(auth) && Truthy(decoded) ==> tid == Get(decoded, "tid")
  {
    Get(AccessTokenDisplay.Claims(auth, decoded), "tid")
  }

  /** With a stored token but falsy `auth` the claims are empty, so the banner
      greets an undefined user. */
  lemma WelcomeWithoutAuth(raw: Value, auth: Value, decoded: Value)
    requires Truthy(raw) && !Truthy(auth)
    ensures WelcomeMessage(raw, Subject(auth, decoded), Tenant(auth, decoded))
         == "Welcome, user \"undefined\" from tenant \"undefined\"!"
  {
  }

  // ---------------------------------------------------------------------------
  // The fetch-on-load effect

  /** `enrolledMemberApiData` and `apiCallInProgress`. */
  datatype Loader = Loader(data: Value, inProgress: bool)

  const InitialLoader := Loader(Null, false)

  /** The effect's guard: it only fires while the stored data is one of the
      falsy values, so any stored object (an error payload included) blocks it. */
  predicate CanStart(s: Loader, sub: Value)
    ensures CanStart(s, sub) ==>
      s.data in {Undefined, Null, Bool(false), Num(0), Str("")} && !s.inProgress
    ensures s.data.Obj? || s.data.Arr? || !Truthy(sub) ==> !CanStart(s, sub)
  {
    !Truthy(s.data) && !s.inProgress && Truthy(sub)
  }

  /** `{planSponsorNumber: sub}` */
  function EnrollmentRequest(sub: Value): (body: Value)
    ensures Get(body, "planSponsorNumber") == sub && |Entries(body)| == 1
  {
    Http.SingleEntryBody("planSponsorNumber", sub)
  }

  /** The effect run with the current `sub`: start a request when the guard holds. */
  function Begin(s: Loader, sub: Value): (t: Loader)
    ensures CanStart(s, sub) ==> t == s.(inProgress := true)
    ensures !CanStart(s, sub) ==> t == s
  {
    if CanStart(s, sub) then s.(inProgress := true) else s
  }

  /** The request settles: store what it yields, and in every case clear the
      in-progress flag. */
  function Finish(s: Loader, o: Http.Outcome): (t: Loader)
    ensures !t.inProgress
    ensures Http.Settle(o).Some? ==> t.data == Http.Settle(o).value
    ensures Http.Settle(o).None? ==> t.data == s.data
  {
    match Http.Settle(o)
    case Some(result) => Loader(result, false)
    case None => s.(inProgress := false)
  }

  /** What can happen to the page: a render runs the effect with the current
      `sub`, or the pending request settles. */
  datatype Event = Rendered(sub: Value) | Settled(outcome: Http.Outcome)

  /** Only a request that was started can settle. */
  function Apply(s: Loader, e: Event): Loader
  {
    match e
    case Rendered(sub) => Begin(s, sub)
    case Settled(o) => if s.inProgress then Finish(s, o) else s
  }

  function Run(s: Loader, events: seq<Event>): Loader
    decreases |events|
  {
    if events == [] then s else Run(Apply(s, events[0]), events[1..])
  }

  /** While a request is in flight no second one starts. */
  lemma NoSecondRequestInFlight(s: Loader, sub: Value)
    requires CanStart(s, sub)
    ensures Begin(s, sub).inProgress
    ensures forall sub' :: !CanStart(Begin(s, sub), sub')
  {
  }

  /** Once a truthy payload is stored (an error-status payload included), no
      further request starts. A rejection, or a falsy JSON body, leaves the
      data falsy, so the guard can fire again for a truthy `sub`. */
  lemma SettledThenGuard(s: Loader, o: Http.Outcome, sub: Value)
    requires !Truthy(s.data)
    ensures Http.Settle(o).Some? && Truthy(Http.Settle(o).value) ==> !CanStart(Finish(s, o), sub)
    ensures o.Resolved? && o.response.status != 200 ==> !CanStart(Finish(s, o), sub)
    ensures !Truthy(Finish(s, o).data) ==> (CanStart(Finish(s, o), sub) <==> Truthy(sub))
  {
  }

  /** Reachable states never hold truthy data while a request is in flight. */
  ghost predicate Consistent(s: Loader)
  {
    Truthy(s.data) ==> !s.inProgress
  }

  /** Every event keeps the loader consistent. */
  lemma {:induction false} RunConsistent(s: Loader, events: seq<Event>)
    requires Consistent(s)
    ensures Consistent(Run(s, events))
    decreases |events|
  {
    if events != [] {
      RunConsistent(Apply(s, events[0]), events[1..]);
    }
  }

  /** Once truthy data is stored nothing changes it and no request starts,
      whatever renders and settlements follow. */
  lemma {:induction false} DataIsFinal(s: Loader, events: seq<Event>)
    requires Truthy(s.data) && Consistent(s)
    ensures Run(s, events) == s
    decreases |events|
  {
    if events != [] {
      assert Apply(s, events[0]) == s;
      DataIsFinal(s, events[1..]);
    }
  }

  /** The page's loader state, updated in place. */
  class EnrolledMemberLoader {
    var data: Value
    var inProgress: bool

    function State(): Loader
      reads this
    {
      Loader(data, inProgress)
    }

    /** `useState(null)` and `useState(false)` */
    constructor ()
      ensures State() == InitialLoader
    {
      data := Null;
      inProgress := false;
    }

    /** The effect body: when the guard holds, mark the call in progress and
        return the request body to post. */
    method Start(sub: Value) returns (request: Option<Value>)
      modifies this
      ensures request.Some? <==> CanStart(old(State()), sub)
      ensures request.Some? ==> request.value == EnrollmentRequest(sub)
      ensures State() == Begin(old(State()), sub)
    {
      if CanStart(State(), sub) {
        inProgress := true;
        request := Some(EnrollmentRequest(sub));
      } else {
        request := None;
      }
    }

    /** The success callback. */
    method OnResult(result: Value)
      modifies this
      ensures data == result && !inProgress
    {
      data := result;
      inProgress := false;
    }

    /** The error callback. */
    method OnError()
      modifies this
      ensures data == old(data) && !inProgress
    {
      inProgress := false;
    }

    /** The request settles with `outcome`. */
    method OnOutcome(outcome: Http.Outcome)
      modifies this
      ensures State() == Finish(old(State()), outcome)
    {
      match Http.Settle(outcome) {
        case Some(result) => OnResult(result);
        case None => OnError();
      }
    }
  }
}
