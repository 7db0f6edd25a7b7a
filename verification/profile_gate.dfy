/** The server middleware that keeps users with an incomplete profile away
    from the API: which requests it looks at, how it finds the caller's token,
    when a profile counts as complete, and when it answers 403.

    Token verification and the user lookup are parameters: `decode` gives the
    `user_id` claim of a token that verifies (`None` when verification
    throws), and `users` gives the user row for an id, if there is one. */
module ProfileGate {
  import opened Common
  import opened Text

  /** The columns of the user row the completeness test reads. */
  datatype UserRow = UserRow(name: JsValue, contactNumber: JsValue, orgId: JsValue)

  datatype Decision = PassThrough | ProfileIncomplete

  function DecisionMessage(d: Decision): string
  {
    match d
    case PassThrough => ""
    case ProfileIncomplete => "Please complete your profile to access the application."
  }

  /** The endpoints that stay open to users whatever their profile. */
  const AllowlistPaths: set<string> := {
    "/api/auth/google-signin", "/api/auth/signin", "/api/auth/signup", "/api/auth/profile",
    "/api/auth/profile-update", "/api/auth/reset-password", "/api/auth/update-password",
    "/api/verifyenv", "/api/contact"}

  /** The open path prefixes: there are none. */
  const AllowlistPrefixes: seq<string> := []

  /** `prefixes.some(p => path.startsWith(p))`. */
  predicate AnyPrefix(path: string, prefixes: seq<string>)
  {
    prefixes != [] && (StartsWith(path, prefixes[0]) || AnyPrefix(path, prefixes[1..]))
  }

  /** With no prefixes listed, no path is let through by prefix. */
  lemma NoPrefixExempts(path: string)
    ensures !AnyPrefix(path, AllowlistPrefixes)
  {
  }

  predicate Exempt(path: string)
  {
    path in AllowlistPaths || AnyPrefix(path, AllowlistPrefixes)
  }

  /** The text up to the first space, or the whole text when it has none. */
  function UntilSpace(s: string): (r: string)
    ensures |r| <= |s| && r == s[..|r|]
    ensures forall i :: 0 <= i < |r| ==> r[i] != ' '
    ensures |r| < |s| ==> s[|r|] == ' '
  {
    if s == [] || s[0] == ' ' then [] else [s[0]] + UntilSpace(s[1..])
  }

  const Bearer := "Bearer "

  /** `getToken`: with an `Authorization` header that starts with `Bearer `,
      the second space-separated field of the header (possibly empty);
      otherwise the `auth-token` cookie when it is a non-empty string, and
      nothing else. */
  function GetToken(header: Option<string>, cookie: Option<string>): (r: Option<string>)
    ensures header.Some? && StartsWith(header.value, Bearer) ==>
      r == Some(UntilSpace(header.value[|Bearer|..]))
    ensures !(header.Some? && StartsWith(header.value, Bearer)) ==>
      (r.Some? <==> Present(cookie)) && (r.Some? ==> r == cookie)
  {
    if Present(header) && StartsWith(header.value, Bearer) then
      Some(UntilSpace(header.value[|Bearer|..]))
    else if Present(cookie) then cookie
    else None
  }

  /** The field ends at the first space. */
  lemma {:induction false} UntilSpaceStops(token: string, rest: string)
    requires forall i :: 0 <= i < |token| ==> token[i] != ' '
    requires rest == [] || rest[0] == ' '
    ensures UntilSpace(token + rest) == token
  {
    if token != [] {
      assert (token + rest)[1..] == token[1..] + rest;
      UntilSpaceStops(token[1..], rest);
    }
  }

  /** `Bearer <token>` yields the token, and a second space ends it. */
  lemma BearerToken(token: string, rest: string, cookie: Option<string>)
    requires forall i :: 0 <= i < |token| ==> token[i] != ' '
    ensures GetToken(Some(Bearer + token), cookie) == Some(token)
    ensures GetToken(Some(Bearer + token + " " + rest), cookie) == Some(token)
  {
    var h1 := Bearer + token;
    assert h1[..|Bearer|] == Bearer && h1[|Bearer|..] == token + [];
    UntilSpaceStops(token, []);
    var h2 := Bearer + token + " " + rest;
    assert h2[..|Bearer|] == Bearer && h2[|Bearer|..] == token + (" " + rest);
    UntilSpaceStops(token, " " + rest);
  }

  /** `isProfileComplete`: no row means incomplete; otherwise the name, the
      contact number and the organisation must all be truthy. */
  predicate IsProfileComplete(row: Option<UserRow>)
  {
    row.Some? && Truthy(row.value.name) && Truthy(row.value.contactNumber) && Truthy(row.value.orgId)
  }

  /** `event.path || event.node.req.url || ''`. */
  function RequestPath(eventPath: Option<string>, url: Option<string>): string
  {
    if Present(eventPath) then eventPath.value else OrElse(url, "")
  }

  /** The middleware. Every early return passes the request on; only an
      authenticated request for a guarded API path whose user's profile is
      incomplete is answered with 403. */
  function Gate(eventPath: Option<string>, url: Option<string>, header: Option<string>, cookie: Option<string>,
                decode: string -> Option<JsValue>, users: JsValue -> Option<UserRow>): (d: Decision)
    ensures !StartsWith(RequestPath(eventPath, url), "/api") ==> d == PassThrough
    ensures RequestPath(eventPath, url) in AllowlistPaths ==> d == PassThrough
    ensures d == ProfileIncomplete <==>
      && StartsWith(RequestPath(eventPath, url), "/api") && !Exempt(RequestPath(eventPath, url))
      && GetToken(header, cookie).Some? && GetToken(header, cookie).value != ""
      && decode(GetToken(header, cookie).value).Some?
      && Truthy(decode(GetToken(header, cookie).value).value)
      && !IsProfileComplete(users(decode(GetToken(header, cookie).value).value))
  {
    var path := RequestPath(eventPath, url);
    if !StartsWith(path, "/api") then PassThrough
    else if Exempt(path) then PassThrough
    else
      var token := GetToken(header, cookie);
      if token.None? || token.value == "" then PassThrough
      else
        var claim := decode(token.value);
        if claim.None? || !Truthy(claim.value) then PassThrough
        else if !IsProfileComplete(users(claim.value)) then ProfileIncomplete
        else PassThrough
  }

  /** Without a usable token the middleware never blocks: no header and no
      cookie, a token that fails verification, or a token without a user id. */
  lemma UnauthenticatedPasses(eventPath: Option<string>, url: Option<string>, header: Option<string>, cookie: Option<string>,
                              decode: string -> Option<JsValue>, users: JsValue -> Option<UserRow>)
    requires || (header.None? && cookie.None?)
             || (GetToken(header, cookie).Some? && decode(GetToken(header, cookie).value).None?)
             || (GetToken(header, cookie).Some? && decode(GetToken(header, cookie).value) == Some(JsNull))
    ensures Gate(eventPath, url, header, cookie, decode, users) == PassThrough
  {
  }

  /** A bare `Bearer ` header yields an empty token, so the request passes even
      when a cookie holds a valid token. */
  lemma EmptyBearerIgnoresCookie(eventPath: Option<string>, url: Option<string>, cookie: Option<string>,
                                 decode: string -> Option<JsValue>, users: JsValue -> Option<UserRow>)
    ensures GetToken(Some(Bearer), cookie) == Some("")
    ensures Gate(eventPath, url, Some(Bearer), cookie, decode, users) == PassThrough
  {
    assert Bearer[|Bearer|..] == "";
  }
}
