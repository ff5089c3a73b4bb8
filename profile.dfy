/** The profile page of the plain OIDC sample: a render decision on the tri-state `auth`. */
module Profile {
  import opened Js
  import Auth

  const HomePath := "/"

  /** The children the page renders: the loading text, a navigation, a bare
      text node, or the protected profile content with a logout button whose
      action is `onLogout`. */
  datatype Part<A> = Loading | NavigateTo(path: string) | Text(text: string) | Content(onLogout: A)

  /** `auth === null`, `auth === false` and `auth &&` each add their child.
      A falsy `auth` makes `auth && ...` evaluate to `auth` itself, which
      React renders as text when it is a number or a string. */
  function Render<A(==)>(auth: Value, handleLogout: A): (parts: seq<Part<A>>)
    ensures parts == [Loading] <==> auth == Null
    ensures parts == [NavigateTo(HomePath)] <==> auth == Bool(false)
    ensures parts == [Content(handleLogout)] <==> Truthy(auth)
    ensures parts == [Text("0")] <==> auth == Num(0)
    ensures parts == [Text("")] <==> auth == Str("")
    ensures parts == [] <==> auth == Undefined
    ensures (exists i :: 0 <= i < |parts| && parts[i].Content?) ==> Truthy(auth)
    ensures forall i :: 0 <= i < |parts| && parts[i].Content? ==> parts[i].onLogout == handleLogout
  {
    var parts :=
      (if auth == Null then [Loading] else [])
      + (if auth == Bool(false) then [NavigateTo(HomePath)] else [])
      + (if Truthy(auth) then [Content(handleLogout)] else if auth.Num? || auth.Str? then [Text(ToText(auth))] else []);
    assert auth != Null ==> parts == [] || !parts[0].Loading?;
    parts
  }

  /** For each of the hook's three values exactly one child is rendered, and
      the protected content appears only once authenticated. */
  lemma ExactlyOneForFlag<A>(f: Auth.Flag, handleLogout: A)
    ensures |Render(Auth.FlagValue(f), handleLogout)| == 1
    ensures Render(Auth.FlagValue(f), handleLogout)[0].Content? <==> f == Auth.Authenticated
    ensures Render(Auth.FlagValue(f), handleLogout)[0].Loading? <==> f == Auth.Unknown
  {
  }
}
