/** The `authenticateToken` middleware (backend/server.js). */
module Auth {
  import opened Common
  import opened Text

  /** The claims a login token carries: the user's id and username. */
  datatype Claims = Claims(id: int, username: string)

  datatype AuthResult = Authenticated(claims: Claims) | Denied(error: string)

  const NoTokenError := "Access denied. No token provided."
  const InvalidTokenError := "Invalid token."
  const BearerPrefix := "Bearer "

  /** What reaches `jwt.verify`: the header with its first "Bearer " removed, wherever it stands. */
  function TokenOf(header: string): string {
    ReplaceFirst(header, BearerPrefix)
  }

  /**
   * The middleware's decision. `verify` stands for `jwt.verify` with the process secret:
   * it yields the decoded claims, or nothing where the library throws.
   */
  function Authenticate(header: Option<string>, verify: string -> Option<Claims>): (a: AuthResult)
    ensures a.Authenticated? <==> Truthy(header) && verify(TokenOf(header.value)).Some?
    ensures a.Authenticated? ==> Some(a.claims) == verify(TokenOf(header.value))
    ensures a.Denied? ==> (a.error == NoTokenError <==> !Truthy(header))
    ensures a.Denied? ==> a.error == NoTokenError || a.error == InvalidTokenError
  {
    if !Truthy(header) then Denied(NoTokenError)
    else
      match verify(TokenOf(header.value))
      case Some(c) => Authenticated(c)
      case None => Denied(InvalidTokenError)
  }

  /** A header of the form "Bearer t" is judged by the token t alone. */
  lemma BearerHeader(t: string, verify: string -> Option<Claims>)
    ensures Authenticate(Some(BearerPrefix + t), verify) ==
      if verify(t).Some? then Authenticated(verify(t).value) else Denied(InvalidTokenError)
  {
    ReplaceFirstPrefix(BearerPrefix, t);
  }

  /** A bare token without any "Bearer " is passed to the verifier as it is. */
  lemma BareToken(t: string, verify: string -> Option<Claims>)
    requires t != "" && !Contains(t, BearerPrefix)
    ensures Authenticate(Some(t), verify) ==
      if verify(t).Some? then Authenticated(verify(t).value) else Denied(InvalidTokenError)
  {
    ReplaceFirstAbsent(t, BearerPrefix);
  }

  /** The removal is not anchored at the start: "xBearer y" reaches the verifier as "xy". */
  lemma BearerRemovedInside()
    ensures TokenOf("xBearer y") == "xy"
  {
    var s := "xBearer y";
    assert OccursAt(s, BearerPrefix, 1);
    assert s[0..|BearerPrefix|][0] != BearerPrefix[0];
    ReplaceFirstAt(s, BearerPrefix, 1);
  }
}
