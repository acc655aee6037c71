/** API-key authentication (`ApiKeyAuthenticationHandler`): the X-API-KEY header, whose name is compared ignoring case, is
    looked up, its first value is checked against the configured keys, and the key
    decides the role claims of the ticket. A .NET null string is `None` here. */
module ApiKeyAuth {
  import opened Common
  import opened Text
  import opened Claims

  const SchemeName := "ApiKey"
  const HeaderName := "X-API-KEY"
  const MissingHeader := "Missing X-API-KEY header"
  const InvalidHeader := "Invalid X-API-KEY header value"

  /** The `Roles` constants. */
  const AdminRole := "Admin-User"
  const ReadRole := "Read-User"
  const UnAuthenticateRole := "UnAuthenticate"

  /** `ApiKeyAuthenticationOptions`: both keys may be left unset. */
  datatype KeyOptions = KeyOptions(apiKeyAdmin: Option<string>, apiKeyRead: Option<string>)

  /** The authenticated identity: a principal of one `ClaimsIdentity` whose authentication
      type is the scheme, inside a ticket issued for the scheme. */
  datatype Ticket = Ticket(scheme: string, authenticationType: string, claims: seq<Claim>)

  /** `AuthenticateResult`: a ticket, or a failure with its message. */
  datatype AuthResult = Success(ticket: Ticket) | Rejected(message: string)

  /** `GetTicketFromClaims`. */
  function TicketOf(claims: seq<Claim>): (t: Ticket)
    ensures t.scheme == SchemeName && t.authenticationType == SchemeName && t.claims == claims
  {
    Ticket(SchemeName, SchemeName, claims)
  }

  const AdminClaims := [Claim(RoleClaimType, AdminRole), Claim(RoleClaimType, ReadRole)]
  const ReadClaims := [Claim(RoleClaimType, ReadRole)]
  const UnAuthenticateClaims := [Claim(RoleClaimType, UnAuthenticateRole)]

  /** `StringValues.FirstOrDefault()`: the first header value, or null when there is none. */
  function FirstOrDefault(values: seq<Option<string>>): (key: Option<string>)
    ensures values == [] ==> key == None
    ensures values != [] ==> key == values[0]
  {
    if values == [] then None else values[0]
  }

  /** The request's header dictionary, which compares names ignoring case: every entry
      is stored under its name in lower case, so names that differ only in case share
      one entry. */
  type HeaderMap = map<string, seq<Option<string>>>

  /** `Request.Headers[name] = values`. */
  function SetHeader(headers: HeaderMap, name: string, values: seq<Option<string>>): HeaderMap {
    headers[ToLower(name) := values]
  }

  /** The entry stored under `key`, a name in lower case. */
  function EntryAt(headers: HeaderMap, key: string): Option<seq<Option<string>>> {
    if key in headers then Some(headers[key]) else None
  }

  /** `Request.Headers.TryGetValue(name, out values)`. */
  function TryGetHeader(headers: HeaderMap, name: string): Option<seq<Option<string>>> {
    EntryAt(headers, ToLower(name))
  }

  /** The key under which the X-API-KEY header is stored. */
  const HeaderKey := "x-api-key"

  /** Looking up X-API-KEY finds the entry stored under its lower-case key. */
  lemma HeaderKeyOfName(headers: HeaderMap)
    ensures ToLower(HeaderName) == HeaderKey
    ensures TryGetHeader(headers, HeaderName) == EntryAt(headers, HeaderKey)
  {
  }

  /** Header names are compared ignoring case: a header set under one spelling is found
      under every spelling of its name, and two spellings find the same entry. */
  lemma HeaderLookupIgnoresCase(headers: HeaderMap, a: string, b: string, values: seq<Option<string>>)
    requires EqualsIgnoreCase(a, b)
    ensures TryGetHeader(headers, a) == TryGetHeader(headers, b)
    ensures TryGetHeader(SetHeader(headers, a, values), b) == Some(values)
  {
    EqualsIgnoreCaseLowers(a, b);
  }

  /** The allowed keys: the two configured keys when both are set, and otherwise a fresh
      `string[2]`, whose two entries are null. */
  function AllowedKeys(o: KeyOptions): seq<Option<string>> {
    if o.apiKeyAdmin.Some? && o.apiKeyRead.Some? then [o.apiKeyAdmin, o.apiKeyRead] else [None, None]
  }

  /** `HandleAuthenticateAsync` as written. The request's headers map a name to its
      values; a header missing from the map was not sent. */
  function AuthenticateAsWritten(o: KeyOptions, headers: HeaderMap): AuthResult {
    var found := EntryAt(headers, HeaderKey);
    if found.None? then Rejected(MissingHeader)
    else
      var key := FirstOrDefault(found.value);
      if key !in AllowedKeys(o) then Rejected(InvalidHeader)
      else if key == o.apiKeyAdmin then Success(TicketOf(AdminClaims))
      else if key == o.apiKeyRead then Success(TicketOf(ReadClaims))
      else Success(TicketOf(UnAuthenticateClaims))
  }

  /** With both keys configured the decision is: no header fails as missing; the admin key
      gets the Admin and Read roles, checked first so it wins when the keys are equal; the
      read key gets the Read role alone; every other first value, null included, fails as
      invalid. */
  lemma AsWrittenConfigured(o: KeyOptions, headers: HeaderMap)
    requires o.apiKeyAdmin.Some? && o.apiKeyRead.Some?
    ensures var r := AuthenticateAsWritten(o, headers);
      && (EntryAt(headers, HeaderKey).None? <==> r == Rejected(MissingHeader))
      && (EntryAt(headers, HeaderKey).Some? ==>
            var key := FirstOrDefault(EntryAt(headers, HeaderKey).value);
            && (key == o.apiKeyAdmin <==> r == Success(TicketOf(AdminClaims)))
            && (key == o.apiKeyRead && key != o.apiKeyAdmin <==> r == Success(TicketOf(ReadClaims)))
            && (key != o.apiKeyAdmin && key != o.apiKeyRead <==> r == Rejected(InvalidHeader)))
  {
    assert AdminClaims != ReadClaims;
  }

  /** The UnAuthenticate branch is dead: every key that passes the allowed-key check is
      the admin key or the read key, so a ticket always carries the Admin and Read roles
      or the Read role alone. */
  lemma NoUnAuthenticateTicket(o: KeyOptions, headers: HeaderMap)
    ensures var r := AuthenticateAsWritten(o, headers);
      r.Success? ==> r.ticket == TicketOf(AdminClaims) || r.ticket == TicketOf(ReadClaims)
  {
  }

  /** Without a complete configuration the only accepted key is null: a request whose
      X-API-KEY header carries no value at all is authenticated, as administrator when no
      admin key is configured and as reader otherwise, while every real key fails. */
  lemma AsWrittenAdmitsNullKey(o: KeyOptions, headers: HeaderMap)
    requires o.apiKeyAdmin.None? || o.apiKeyRead.None?
    requires EntryAt(headers, HeaderKey).Some?
    ensures var r := AuthenticateAsWritten(o, headers);
      var key := FirstOrDefault(EntryAt(headers, HeaderKey).value);
      && (key == None ==> r == Success(TicketOf(if o.apiKeyAdmin.None? then AdminClaims else ReadClaims)))
      && (key.Some? ==> r == Rejected(InvalidHeader))
  {
  }

  /** A concrete request showing it: no key configured, a header with no values. */
  lemma NullKeyExample()
    ensures AuthenticateAsWritten(KeyOptions(None, None), SetHeader(map[], HeaderName, [])).Success?
    ensures AuthenticateAsWritten(KeyOptions(None, None), SetHeader(map[], HeaderName, [])).ticket.claims == AdminClaims
  {
    HeaderKeyOfName(map[]);
  }

  /** A header sent in lower case, as HTTP/2 clients send every name, is the X-API-KEY
      header: with both keys configured, the admin key under "x-api-key" gets the admin
      ticket. */
  lemma LowerCaseHeaderAccepted(o: KeyOptions)
    requires o.apiKeyAdmin.Some? && o.apiKeyRead.Some?
    ensures AuthenticateAsWritten(o, SetHeader(map[], "x-api-key", [o.apiKeyAdmin])) == Success(TicketOf(AdminClaims))
  {
    assert ToLower("x-api-key") == HeaderKey;
  }

  /** The decision is the same whichever spelling of X-API-KEY the client sent. */
  lemma AnySpellingAuthenticates(o: KeyOptions, headers: HeaderMap, name: string, values: seq<Option<string>>)
    requires EqualsIgnoreCase(name, HeaderName)
    ensures AuthenticateAsWritten(o, SetHeader(headers, name, values)) == AuthenticateAsWritten(o, SetHeader(headers, HeaderName, values))
  {
    EqualsIgnoreCaseLowers(name, HeaderName);
    HeaderKeyOfName(headers);
  }

  /** The decision as evidently intended: a missing header fails as before, and a request
      is authenticated only by a key that equals one of two configured keys; an incomplete
      configuration admits nobody. */
  function Authenticate(o: KeyOptions, headers: HeaderMap): (r: AuthResult)
    ensures r.Success? ==>
      && o.apiKeyAdmin.Some? && o.apiKeyRead.Some? && EntryAt(headers, HeaderKey).Some?
      && FirstOrDefault(EntryAt(headers, HeaderKey).value) in {o.apiKeyAdmin, o.apiKeyRead}
  {
    var found := EntryAt(headers, HeaderKey);
    if found.None? then Rejected(MissingHeader)
    else
      var key := FirstOrDefault(found.value);
      if o.apiKeyAdmin.None? || o.apiKeyRead.None? || key !in AllowedKeys(o) then Rejected(InvalidHeader)
      else if key == o.apiKeyAdmin then Success(TicketOf(AdminClaims))
      else Success(TicketOf(ReadClaims))
  }

  /** The correction changes only the incompletely configured case: with both keys set it
      decides every request as the code does. */
  lemma AuthenticateAgrees(o: KeyOptions, headers: HeaderMap)
    ensures o.apiKeyAdmin.Some? && o.apiKeyRead.Some? ==> Authenticate(o, headers) == AuthenticateAsWritten(o, headers)
    ensures !(o.apiKeyAdmin.Some? && o.apiKeyRead.Some?) ==> Authenticate(o, headers).Rejected?
  {
  }

  /** The admin ticket holds, through `HasClaim`, both the Admin and the Read role. */
  lemma AdminTicketRoles()
    ensures HasClaim(AdminClaims, RoleClaimType, AdminRole) && HasClaim(AdminClaims, RoleClaimType, ReadRole)
  {
    HasClaimOf(AdminClaims, AdminClaims[0]);
    HasClaimOf(AdminClaims, AdminClaims[1]);
  }

  /** The read ticket holds the Read role and not the Admin role. */
  lemma ReadTicketRoles()
    ensures HasClaim(ReadClaims, RoleClaimType, ReadRole) && !HasClaim(ReadClaims, RoleClaimType, AdminRole)
  {
    HasClaimOf(ReadClaims, ReadClaims[0]);
    assert ReadClaims[0].value[0] != AdminRole[0];
    LacksValue(ReadClaims, RoleClaimType, AdminRole);
  }
}
