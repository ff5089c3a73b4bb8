/**
 * The plan-info section: the plan id derived from the enrolment data, the
 * button or result it shows, and the click handler's request and update.
 */
module PlanInfoSection {
  import opened Js
  import opened Wrappers
  import Http

  const FetchEnrollmentFirst := "Fetch Enrollment first"
  const AuthenticateToFetch := "Authenticate to Fetch Plan"

  /** `(enrolledMemberApiData || {}).planName || ''` */
  function PlanId(enrolled: Value): (id: Value)
    ensures Truthy(enrolled) && Truthy(Get(enrolled, "planName")) ==> id == Get(enrolled, "planName")
    ensures !(Truthy(enrolled) && Truthy(Get(enrolled, "planName"))) ==> id == Str("")
    ensures Truthy(id) || id == Str("")
  {
    Or(Get(Or(enrolled, Obj([])), "planName"), Str(""))
  }

  /** The plan info table, the enabled fetch button labelled with the id, or a disabled button. */
  datatype View = PlanInfo(data: Value) | FetchButton(planId: Value) | DisabledButton(caption: string)

  function Render(auth: Value, planId: Value, apiData: Value): (v: View)
    ensures v == PlanInfo(apiData) <==> Truthy(apiData)
    ensures v.FetchButton? <==> !Truthy(apiData) && Truthy(auth) && HasPositiveLength(planId)
    ensures v.FetchButton? ==> v.planId == planId
    ensures v == DisabledButton(FetchEnrollmentFirst) <==> !Truthy(apiData) && Truthy(auth) && !HasPositiveLength(planId)
    ensures v == DisabledButton(AuthenticateToFetch) <==> !Truthy(apiData) && !Truthy(auth)
  {
    if !Truthy(apiData) then
      if Truthy(auth) then
        if HasPositiveLength(planId) then FetchButton(planId) else DisabledButton(FetchEnrollmentFirst)
      else DisabledButton(AuthenticateToFetch)
    else PlanInfo(apiData)
  }

  /** `{planId: planId}` */
  function PlanRequest(planId: Value): (body: Value)
    ensures Get(body, "planId") == planId && |Entries(body)| == 1
  {
    Http.SingleEntryBody("planId", planId)
  }

  /** The enabled button needs truthy `auth`, no plan info yet, and enrolment
      data carrying a truthy `planName`. */
  lemma EnabledButtonNeedsPlanName(auth: Value, enrolled: Value, apiData: Value)
    requires Render(auth, PlanId(enrolled), apiData).FetchButton?
    ensures Truthy(auth) && !Truthy(apiData)
    ensures Truthy(enrolled) && Truthy(Get(enrolled, "planName"))
  {
  }

  /** The component's `apiData` state. */
  class Section {
    var apiData: Value

    /** `useState(null)` */
    constructor ()
      ensures apiData == Null
    {
      apiData := Null;
    }

    /** `buttonOnClick`: post `{planId}` and store what the response yields;
        a rejection leaves `apiData` as it was. */
    method ButtonOnClick(enrolled: Value, outcome: Http.Outcome) returns (request: Value)
      modifies this
      ensures request == PlanRequest(PlanId(enrolled))
      ensures Http.Settle(outcome).Some? ==> apiData == Http.Settle(outcome).value
      ensures Http.Settle(outcome).None? ==> apiData == old(apiData)
    {
      request := PlanRequest(PlanId(enrolled));
      match Http.Settle(outcome) {
        case Some(result) => apiData := result;
        case None =>
      }
    }
  }
}
