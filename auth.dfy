/**
 * The authorization-result resolver of `useAuth`: what happens to the
 * tri-state `authenticated` flag, the browser's local storage, the page URL
 * and the notification queue when the identity SDK's `getAuth()` resolves or
 * rejects. Each resolution is one atomic step.
 */
module Auth {
  import opened Wrappers
  import Strings
  import Js

  /** `authConfig.accessTokenName` and `authConfig.idTokenName`. */
  const AccessTokenName := "ins_demo_access_token"
  const IdTokenName := "ins_demo_id_token"
  /** Scopes starting with this text are dataset grants. */
  const DatasetPrefix := "dataset"
  const ErrorText := "The authorization server returned an error"

  /** The `authenticated` state: `null`, `false` or `true`. */
  datatype Flag = Unknown | Unauthenticated | Authenticated

  /** What `getAuth()` resolves with: the granted scope and the access token,
      each possibly absent. */
  datatype AuthResponse = AuthResponse(scope: Option<string>, accessToken: Option<string>)

  /** A snackbar notification: its message and its variant. */
  datatype Notice = Notice(message: string, variant: string)

  /** One resolution of `getAuth()`: resolved (with a response or with
      nothing to persist), or rejected. */
  datatype Outcome = Resolved(response: Option<AuthResponse>) | Rejected

  /** The whole state the resolver touches. */
  datatype Session = Session(flag: Flag, storage: map<string, string>, href: string, notices: seq<Notice>)

  const ErrorNotice := Notice(ErrorText, "error")

  /** The flag as the JavaScript value the hook returns. */
  function FlagValue(f: Flag): (v: Js.Value)
    ensures v.Null? <==> f == Unknown
    ensures Js.Truthy(v) <==> f == Authenticated
    ensures v.Bool? && !v.b <==> f == Unauthenticated
  {
    match f
    case Unknown => Js.Null
    case Unauthenticated => Js.Bool(false)
    case Authenticated => Js.Bool(true)
  }

  /** `localStorage.getItem(name)`: the stored text, or null. */
  function GetItem(storage: map<string, string>, name: string): (v: Js.Value)
    ensures name in storage ==> v == Js.Str(storage[name])
    ensures name !in storage ==> v == Js.Null
  {
    if name in storage then Js.Str(storage[name]) else Js.Null
  }

  /** The guard `res.scope && res.scope.split(' ').length === 1 && res.scope.startsWith('dataset')`. */
  predicate IsDatasetGrant(scope: Option<string>)
    ensures IsDatasetGrant(scope) <==>
      scope.Some? && ' ' !in scope.value && Strings.StartsWith(scope.value, DatasetPrefix)
  {
    if scope.Some? then
      Strings.SplitSingleIffAbsent(scope.value, ' ');
      && scope.value != ""
      && |Strings.Split(scope.value, " ")| == 1
      && Strings.StartsWith(scope.value, DatasetPrefix)
    else false
  }

  /** The storage key the access token is written under. */
  function StorageKey(scope: Option<string>): (key: string)
    ensures (scope.Some? && ' ' !in scope.value && Strings.StartsWith(scope.value, DatasetPrefix))
            ==> key == AccessTokenName + "_" + scope.value
    ensures !(scope.Some? && ' ' !in scope.value && Strings.StartsWith(scope.value, DatasetPrefix))
            ==> key == AccessTokenName
  {
    if IsDatasetGrant(scope) then AccessTokenName + "_" + scope.value else AccessTokenName
  }

  /** `localStorage.setItem` stores the text of its value: an absent token
      becomes the text "undefined". */
  function StoredValue(token: Option<string>): (text: string)
    ensures token.Some? ==> text == token.value
    ensures token.None? ==> text == "undefined"
  {
    if token.Some? then token.value else "undefined"
  }

  /** `removeQueryString`: drop everything from the first `?` on. */
  function RemoveQueryString(href: string): (r: string)
    ensures '?' in href <==> r != href
    ensures '?' !in r
    ensures r <= href
    ensures '?' in href ==> href[|r|] == '?'
  {
    Strings.SplitCutsIffContains(href, "?");
    Strings.ContainsCharIffIn(href, '?');
    if |Strings.Split(href, "?")| > 1 then Strings.TakeUntil(href, '?') else href
  }

  /** `href.split('?error').length > 1` */
  predicate HasErrorParam(href: string)
    ensures HasErrorParam(href) <==> Strings.Contains(href, "?error")
  {
    Strings.SplitCutsIffContains(href, "?error");
    |Strings.Split(href, "?error")| > 1
  }

  /** The `.then` handler. */
  function AfterSuccess(s: Session, response: Option<AuthResponse>): (t: Session)
    ensures t.flag == Authenticated
    ensures t.notices == s.notices
    ensures response.None? ==> t.storage == s.storage && t.href == s.href
    ensures response.Some? ==> t.href == RemoveQueryString(s.href)
    ensures response.Some? ==>
      t.storage == s.storage[StorageKey(response.value.scope) := StoredValue(response.value.accessToken)]
  {
    match response
    case None => s.(flag := Authenticated)
    case Some(res) =>
      s.(flag := Authenticated,
         storage := s.storage[StorageKey(res.scope) := StoredValue(res.accessToken)],
         href := RemoveQueryString(s.href))
  }

  /** The `.catch` handler. With `?error` in the URL the URL is kept and one
      error notification is emitted when, and only when, the flag was already
      false; without it nothing is emitted and the query string is stripped.
      The notification guard reads the flag as it was
      before this step. */
  function AfterFailure(s: Session): (t: Session)
    ensures t.flag == Unauthenticated
    ensures t.storage == s.storage
    ensures Strings.Contains(s.href, "?error") ==> t.href == s.href
    ensures Strings.Contains(s.href, "?error") && s.flag == Unauthenticated ==> t.notices == s.notices + [ErrorNotice]
    ensures !Strings.Contains(s.href, "?error") || s.flag != Unauthenticated ==> t.notices == s.notices
    ensures !Strings.Contains(s.href, "?error") ==> t.href == RemoveQueryString(s.href)
  {
    if HasErrorParam(s.href) then
      s.(flag := Unauthenticated,
         notices := if s.flag == Unauthenticated then s.notices + [ErrorNotice] else s.notices)
    else
      s.(flag := Unauthenticated, href := RemoveQueryString(s.href))
  }

  function Step(s: Session, o: Outcome): Session
  {
    match o
    case Resolved(response) => AfterSuccess(s, response)
    case Rejected => AfterFailure(s)
  }

  /** The session after a sequence of resolutions, in order. */
  function Run(s: Session, outcomes: seq<Outcome>): Session
    decreases |outcomes|
  {
    if outcomes == [] then s else Run(Step(s, outcomes[0]), outcomes[1..])
  }

  // ---------------------------------------------------------------------------
  // Storage key choice

  /** A single dataset scope is stored under the scope-qualified name. */
  lemma SingleDatasetScopeKey()
    ensures StorageKey(Some("dataset-42")) == "ins_demo_access_token_dataset-42"
  {
    var scope := "dataset-42";
    assert scope[..7] == DatasetPrefix;
    assert ' ' !in scope by {
      assert forall i :: 0 <= i < |scope| ==> scope[i] != ' ';
    }
    assert AccessTokenName + "_" + scope == "ins_demo_access_token_dataset-42";
  }

  /** Two space-delimited scopes go under the bare name, even when one is a dataset scope. */
  lemma MultiScopeKey()
    ensures StorageKey(Some("profile dataset-42")) == AccessTokenName
  {
    assert "profile dataset-42"[7] == ' ';
  }

  /** The key is the default name exactly when the grant is not a single dataset scope,
      and it is never the ID-token name. */
  lemma KeyIsDefaultOrScoped(scope: Option<string>)
    ensures StorageKey(scope) == AccessTokenName <==> !IsDatasetGrant(scope)
    ensures StorageKey(scope) != IdTokenName
  {
    assert AccessTokenName[9] != IdTokenName[9];
    if IsDatasetGrant(scope) {
      assert |StorageKey(scope)| > |AccessTokenName|;
    }
  }

  // ---------------------------------------------------------------------------
  // URL scrubbing

  /** Stripping the query string twice is the same as once. */
  lemma RemoveQueryStringIdempotent(href: string)
    ensures RemoveQueryString(RemoveQueryString(href)) == RemoveQueryString(href)
  {
  }

  /** The URL is cut exactly at its first `?`. */
  lemma RemoveQueryStringAt(href: string, i: nat)
    requires i < |href| && href[i] == '?' && '?' !in href[..i]
    ensures RemoveQueryString(href) == href[..i]
  {
  }

  lemma ScrubExample()
    ensures RemoveQueryString("https://app/dashboard?code=abc&state=xyz") == "https://app/dashboard"
  {
    var href := "https://app/dashboard?code=abc&state=xyz";
    assert href[..21] == "https://app/dashboard";
    assert forall j :: 0 <= j < 21 ==> href[..21][j] != '?';
    RemoveQueryStringAt(href, 21);
  }

  /** The query string is gone from the visible URL after a successful resolution. */
  lemma SuccessScrubExample(s: Session, res: AuthResponse)
    requires s.href == "https://app/dashboard?code=abc&state=xyz"
    ensures AfterSuccess(s, Some(res)).href == "https://app/dashboard"
  {
    ScrubExample();
  }

  // ---------------------------------------------------------------------------
  // Success and failure steps

  /** A success with a response writes exactly one key, never the ID-token key,
      and leaves every other key as it was. */
  lemma SuccessWritesOneKey(s: Session, res: AuthResponse)
    ensures var t := AfterSuccess(s, Some(res));
      && t.storage.Keys == s.storage.Keys + {StorageKey(res.scope)}
      && t.storage[StorageKey(res.scope)] == StoredValue(res.accessToken)
      && (forall k :: k in s.storage && k != StorageKey(res.scope) ==> t.storage[k] == s.storage[k])
      && (IdTokenName in t.storage <==> IdTokenName in s.storage)
      && (IdTokenName in s.storage ==> t.storage[IdTokenName] == s.storage[IdTokenName])
  {
    KeyIsDefaultOrScoped(res.scope);
  }

  /** Repeating the same successful resolution changes nothing more. */
  lemma SuccessIdempotent(s: Session, response: Option<AuthResponse>)
    ensures AfterSuccess(AfterSuccess(s, response), response) == AfterSuccess(s, response)
  {
    RemoveQueryStringIdempotent(s.href);
  }

  // ---------------------------------------------------------------------------
  // Sequences of resolutions

  /** Once any resolution has completed the flag is never null again, and it
      reflects the most recent outcome. */
  lemma {:induction false} ResolvedNeverUnknown(s: Session, outcomes: seq<Outcome>)
    requires outcomes != []
    ensures Run(s, outcomes).flag != Unknown
    ensures outcomes[|outcomes| - 1].Rejected? <==> Run(s, outcomes).flag == Unauthenticated
    decreases |outcomes|
  {
    if |outcomes| > 1 {
      ResolvedNeverUnknown(Step(s, outcomes[0]), outcomes[1..]);
      assert outcomes[1..][|outcomes| - 2] == outcomes[|outcomes| - 1];
    }
  }

  /** No sequence of resolutions writes or removes the ID-token key. */
  lemma {:induction false} IdTokenUntouched(s: Session, outcomes: seq<Outcome>)
    ensures IdTokenName in Run(s, outcomes).storage <==> IdTokenName in s.storage
    ensures IdTokenName in s.storage ==> Run(s, outcomes).storage[IdTokenName] == s.storage[IdTokenName]
    decreases |outcomes|
  {
    if outcomes != [] {
      var o := outcomes[0];
      if o.Resolved? && o.response.Some? {
        SuccessWritesOneKey(s, o.response.value);
      }
      IdTokenUntouched(Step(s, o), outcomes[1..]);
    }
  }

  function Failures(n: nat): (r: seq<Outcome>)
    ensures |r| == n && forall i :: 0 <= i < n ==> r[i] == Rejected
  {
    seq(n, i => Rejected)
  }

  /** `n` failures in a row on a URL carrying `?error`, starting from a
      resolved-false flag, emit `n` notifications. */
  lemma {:induction false} FailuresAfterFalse(s: Session, n: nat)
    requires Strings.Contains(s.href, "?error") && s.flag == Unauthenticated
    ensures Run(s, Failures(n)).notices == s.notices + seq(n, i => ErrorNotice)
    decreases n
  {
    if n > 0 {
      assert Failures(n)[1..] == Failures(n - 1);
      FailuresAfterFalse(AfterFailure(s), n - 1);
      assert s.notices + [ErrorNotice] + seq(n - 1, i => ErrorNotice) == s.notices + seq(n, i => ErrorNotice);
    } else {
      assert Failures(0) == [];
    }
  }

  /** From the initial null flag the first failure is silent: `n >= 1` failures
      on a URL carrying `?error` emit `n - 1` notifications, so two in a row
      emit exactly one. */
  lemma RepeatedFailureNotices(s: Session, n: nat)
    requires Strings.Contains(s.href, "?error") && s.flag == Unknown && n >= 1
    ensures Run(s, Failures(n)).notices == s.notices + seq(n - 1, i => ErrorNotice)
    ensures n == 2 ==> |Run(s, Failures(n)).notices| == |s.notices| + 1
  {
    assert Failures(n)[1..] == Failures(n - 1);
    FailuresAfterFalse(AfterFailure(s), n - 1);
  }

  // ---------------------------------------------------------------------------
  // The hook's state, updated in place

  /** The state behind one `useAuth` hook: the `authenticated` flag, local
      storage, `window.location.href` and the snackbar queue. */
  class AuthResolver {
    var flag: Flag
    var storage: map<string, string>
    var href: string
    var notices: seq<Notice>

    function State(): Session
      reads this
    {
      Session(flag, storage, href, notices)
    }

    /** `useState(null)`, on a page with the given storage and URL. */
    constructor (storage: map<string, string>, href: string)
      ensures State() == Session(Unknown, storage, href, [])
    {
      this.flag := Unknown;
      this.storage := storage;
      this.href := href;
      this.notices := [];
    }

    /** `removeQueryString`: `history.replaceState` with the URL cut at its first `?`. */
    method RemoveQuery()
      modifies this`href
      ensures href == RemoveQueryString(old(href))
    {
      if |Strings.Split(href, "?")| > 1 {
        href := Strings.TakeUntil(href, '?');
      }
    }

    /** `getAuth()` resolved with `response`. */
    method OnSuccess(response: Option<AuthResponse>)
      modifies this
      ensures State() == AfterSuccess(old(State()), response)
    {
      if response.Some? {
        var res := response.value;
        storage := storage[StorageKey(res.scope) := StoredValue(res.accessToken)];
        RemoveQuery();
      }
      flag := Authenticated;
    }

    /** `getAuth()` rejected. */
    method OnFailure()
      modifies this
      ensures State() == AfterFailure(old(State()))
    {
      var wasFalse := flag == Unauthenticated;
      flag := Unauthenticated;
      if HasErrorParam(href) {
        if wasFalse {
          notices := notices + [ErrorNotice];
        }
      } else {
        RemoveQuery();
      }
    }
  }
}
