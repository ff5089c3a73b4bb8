/** The enrolled-member section: a three-way render decision on the loaded data and `auth`. */
module EnrolledMemberSection {
  import opened Js

  /** The placeholder texts, or the info table with its two cells. */
  datatype View = Fetching | AuthenticatePrompt | MemberInfo(planSponsorNumber: Value, planName: Value)

  function Render(auth: Value, data: Value): (v: View)
    ensures v.MemberInfo? <==> Truthy(data)
    ensures v.MemberInfo? ==> v.planSponsorNumber == Get(data, "PlanSponsorNumber") && v.planName == Get(data, "planName")
    ensures v == Fetching <==> !Truthy(data) && Truthy(auth)
    ensures v == AuthenticatePrompt <==> !Truthy(data) && !Truthy(auth)
  {
    if !Truthy(data) then
      if Truthy(auth) then Fetching else AuthenticatePrompt
    else MemberInfo(Get(data, "PlanSponsorNumber"), Get(data, "planName"))
  }

  /** Once data is present the view does not depend on `auth`. */
  lemma InfoIgnoresAuth(auth1: Value, auth2: Value, data: Value)
    requires Truthy(data)
    ensures Render(auth1, data) == Render(auth2, data)
  {
  }
}
