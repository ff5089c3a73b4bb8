/** The login page of the plain OIDC sample: a render decision on the tri-state `auth`. */
module Login {
  import opened Js
  import Auth

  const ProfilePath := "/profile"

  /** The children the page renders: the loading text, the welcome text with
      a login button whose action is `onLogin`, a navigation, or a bare text node. */
  datatype Part<A> = Loading | Welcome(onLogin: A) | NavigateTo(path: string) | Text(text: string)

  /** `auth === null`, `auth === false` and `auth &&` each add their child.
      A falsy `auth` makes `auth && ...` evaluate to `auth` itself, which
      React renders as text when it is a number or a string. */
  function Render<A(==)>(auth: Value, handleLogin: A): (parts: seq<Part<A>>)
    ensures parts == [Loading] <==> auth == Null
    ensures parts == [Welcome(handleLogin)] <==> auth == Bool(false)
    ensures parts == [NavigateTo(ProfilePath)] <==> Truthy(auth)
    ensures parts == [Text("0")] <==> auth == Num(0)
    ensures parts == [Text("")] <==> auth == Str("")
    ensures parts == [] <==> auth == Undefined
    ensures forall i :: 0 <= i < |parts| && parts[i].Welcome? ==> parts[i].onLogin == handleLogin
  {
    var parts :=
      (if auth == Null then [Loading] else [])
      + (if auth == Bool(false) then [Welcome(handleLogin)] else [])
      + (if Truthy(auth) then [NavigateTo(ProfilePath)] else if auth.Num? || auth.Str? then [Text(ToText(auth))] else []);
    assert auth != Null ==> parts == [] || !parts[0].Loading?;
    parts
  }

  /** For each of the hook's three values exactly one child is rendered, and
      only the unknown state shows the loading text. */
  lemma ExactlyOneForFlag<A>(f: Auth.Flag, handleLogin: A)
    ensures |Render(Auth.FlagValue(f), handleLogin)| == 1
    ensures Render(Auth.FlagValue(f), handleLogin)[0].Loading? <==> f == Auth.Unknown
    ensures Render(Auth.FlagValue(f), handleLogin)[0].NavigateTo? <==> f == Auth.Authenticated
  {
  }
}
