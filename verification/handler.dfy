/**
 * The tempauth-compatible endpoint: `V1Auth.handle` as one sequential
 * pipeline of normaliser, tenant resolver, authentication, token creation
 * and catalog scan.
 */
module Handler {
  import opened Wrappers
  import opened PyStr
  import opened Settings
  import opened KeystoneApi
  import opened Normalizer
  import opened TenantResolver
  import opened Issuer

  /** The response, reduced to what distinguishes the outcomes. */
  datatype Response =
    | Ok(token: string, storageUrl: string)  // 2xx with the token and storage URL headers
    | Unauthorized                           // HTTPUnauthorized
    | BadRequest                             // HTTPBadRequest
    | Fault                                  // an exception escapes the handler

  /** What one request does: its response, the token record it stores (if any) and its backend calls. */
  datatype Outcome = Outcome(response: Response, stored: Option<TokenRecord>, calls: seq<Call>)

  /** Lines 146-180: authenticate, store the token, fetch the catalog and scan it. */
  function Issue(conf: Options, w: World, userId: string, tenantId: Option<string>, password: string,
                 tokenId: string): Outcome
  {
    var calls := [Authenticate(userId, tenantId)];
    match w.authenticate(userId, tenantId, password)
    case AssertionFailed => Outcome(Unauthorized, None, calls)
    case Authenticated(user, tenant, metadata) =>
      var record := TokenRecord(tokenId, user, tenant, metadata);
      var calls := calls + [CreateToken(tokenId)];
      match tenant
      case None => Outcome(Fault, Some(record), calls)
      case Some(tenantRef) =>
        var calls := calls + [GetCatalog(user.id, tenantRef.id)];
        match StorageUrl(w.catalog(user.id, tenantRef.id, metadata), conf.serviceType, conf.urlType)
        case Found(url) => Outcome(Ok(tokenId, url), Some(record), calls)
        case _ => Outcome(Fault, Some(record), calls)
  }

  /**
   * Lines 111-180: everything after the request has been normalised, as a
   * function of the normaliser's verdict.
   */
  function Process(conf: Options, w: World, normalized: Normalized, tokenId: string): Outcome
  {
    match normalized
    case RejectBadRequest => Outcome(BadRequest, None, [])
    case RejectUnauthorized => Outcome(Unauthorized, None, [])
    case Accepted(hint, username, password) =>
      var calls := [GetUserByName(username)];
      match UserByName(w, username)
      case None => Outcome(Unauthorized, None, calls)
      case Some(user) =>
        var calls := calls + ResolveTrace(w, user.id, hint, conf.swiftRole);
        match Resolve(w, user.id, hint, conf.swiftRole)
        case Ambiguous => Outcome(Unauthorized, None, calls)
        case Chosen(tenantId) =>
          var issued := Issue(conf, w, user.id, tenantId, password, tokenId);
          Outcome(issued.response, issued.stored, calls + issued.calls)
  }

  /** The whole handler as a function of its inputs: the specification `V1Auth.Handle` is proved against. */
  function HandleSpec(conf: Options, w: World, path: string, headers: map<string, string>, tokenId: string): Outcome
  {
    Process(conf, w, Normalize(path, headers), tokenId)
  }

  /** The WSGI application: its configuration and its three Keystone backends. */
  class V1Auth {
    const conf: Options
    const backend: World
    const tokenApi: TokenStore

    constructor (conf: Options, backend: World, tokenApi: TokenStore)
      ensures this.conf == conf && this.backend == backend && this.tokenApi == tokenApi
    {
      this.conf := conf;
      this.backend := backend;
      this.tokenApi := tokenApi;
    }

    /**
     * `V1Auth.handle`: answer one request, storing at most one token.
     * `tokenId` stands for the fresh `uuid.uuid4().hex`.
     */
    method Handle(path: string, headers: map<string, string>, tokenId: string) returns (r: Response, calls: seq<Call>)
      requires tokenId !in tokenApi.tokens
      modifies tokenApi
      ensures var o := HandleSpec(conf, backend, path, headers, tokenId);
        r == o.response && calls == o.calls &&
        tokenApi.tokens == if o.stored.Some? then old(tokenApi.tokens)[tokenId := o.stored.value] else old(tokenApi.tokens)
      ensures |tokenApi.tokens| == |old(tokenApi.tokens)| + if HandleSpec(conf, backend, path, headers, tokenId).stored.Some? then 1 else 0
      ensures old(tokenApi.Valid()) ==> tokenApi.Valid()
    {
      var normalized := Normalize(path, headers);
      r, calls := Proceed(normalized, tokenId);
    }

    /** Lines 108-180 of `handle`, from the normaliser's verdict on. */
    method Proceed(normalized: Normalized, tokenId: string) returns (r: Response, calls: seq<Call>)
      requires tokenId !in tokenApi.tokens
      modifies tokenApi
      ensures var o := Process(conf, backend, normalized, tokenId);
        r == o.response && calls == o.calls &&
        tokenApi.tokens == if o.stored.Some? then old(tokenApi.tokens)[tokenId := o.stored.value] else old(tokenApi.tokens)
      ensures |tokenApi.tokens| == |old(tokenApi.tokens)| + if Process(conf, backend, normalized, tokenId).stored.Some? then 1 else 0
      ensures old(tokenApi.Valid()) ==> tokenApi.Valid()
    {
      calls := [];
      if normalized.RejectBadRequest? {
        return BadRequest, calls;
      }
      if normalized.RejectUnauthorized? {
        return Unauthorized, calls;
      }
      var username, password := normalized.username, normalized.password;
      calls := calls + [GetUserByName(username)];
      var userRef := UserByName(backend, username);
      if userRef.None? {
        return Unauthorized, calls;
      }
      var userId := userRef.value.id;
      var resolution, resolverCalls := ResolveTenant(backend, userId, normalized.tenantHint, conf.swiftRole);
      calls := calls + resolverCalls;
      if resolution.Ambiguous? {
        return Unauthorized, calls;
      }
      var issued, issueCalls := IssueToken(userId, resolution.tenantId, password, tokenId);
      r, calls := issued, calls + issueCalls;
    }

    /** Lines 146-180 of `handle`: authenticate, store the token, scan the catalog. */
    method IssueToken(userId: string, tenantId: Option<string>, password: string, tokenId: string)
      returns (r: Response, calls: seq<Call>)
      requires tokenId !in tokenApi.tokens
      modifies tokenApi
      ensures var o := Issue(conf, backend, userId, tenantId, password, tokenId);
        r == o.response && calls == o.calls &&
        tokenApi.tokens == if o.stored.Some? then old(tokenApi.tokens)[tokenId := o.stored.value] else old(tokenApi.tokens)
      ensures |tokenApi.tokens| == |old(tokenApi.tokens)| +
        if Issue(conf, backend, userId, tenantId, password, tokenId).stored.Some? then 1 else 0
      ensures old(tokenApi.Valid()) ==> tokenApi.Valid()
    {
      calls := [Authenticate(userId, tenantId)];
      var auth := backend.authenticate(userId, tenantId, password);
      if auth.AssertionFailed? {
        return Unauthorized, calls;
      }
      calls := calls + [CreateToken(tokenId)];
      tokenApi.CreateToken(tokenId, TokenRecord(tokenId, auth.user, auth.tenant, auth.metadata));
      if auth.tenant.None? {
        return Fault, calls;
      }
      var tenantRef := auth.tenant.value;
      calls := calls + [GetCatalog(auth.user.id, tenantRef.id)];
      var catalog := backend.catalog(auth.user.id, tenantRef.id, auth.metadata);
      var lookup := FindStorageUrl(catalog, conf.serviceType, conf.urlType);
      if !lookup.Found? {
        return Fault, calls;
      }
      return Ok(tokenId, lookup.url), calls;
    }
  }

  /**
   * Malformed requests and requests without usable credentials are refused
   * before any backend call and store nothing; which of the two refusals
   * depends on the path alone.
   */
  lemma RejectedBeforeBackend(conf: Options, w: World, path: string, headers: map<string, string>, tokenId: string)
    requires !Normalize(path, headers).Accepted?
    ensures var o := HandleSpec(conf, w, path, headers, tokenId);
      o.calls == [] && o.stored == None &&
      (o.response == BadRequest <==> !IsV1Path(Rest(path)) && !IsAuthPath(Rest(path))) &&
      (o.response == BadRequest || o.response == Unauthorized)
  {
    BadRequestExactly(path, headers);
  }

  /** A name that resolves to no user is refused after that one lookup. */
  lemma UnknownUserRefused(conf: Options, w: World, hint: Option<string>, username: string, password: string, tokenId: string)
    requires username !in w.usersByName
    ensures Process(conf, w, Accepted(hint, username, password), tokenId) ==
      Outcome(Unauthorized, None, [GetUserByName(username)])
  {
  }

  /**
   * A truthy tenant hint (from the path or the username) is authenticated
   * against as is: no tenant listing and no role query is made.
   */
  lemma HintSkipsResolution(conf: Options, w: World, hint: Option<string>, username: string, password: string, tokenId: string)
    requires Truthy(hint)
    ensures var o := Process(conf, w, Accepted(hint, username, password), tokenId);
      forall c | c in o.calls ::
        !c.GetTenantsForUser? && !c.GetRolesForUserAndTenant? && (c.Authenticate? ==> c.tenantHint == hint)
  {
  }

  /** Role queries are all the resolver's scan ever calls. */
  lemma {:induction false} RoleQueriesOnly(userId: string, tenants: seq<string>)
    ensures forall c | c in RoleQueries(userId, tenants) :: c.GetRolesForUserAndTenant? && c.userId == userId
  {
    if |tenants| > 0 {
      RoleQueriesOnly(userId, tenants[..|tenants| - 1]);
    }
  }

  /** The resolver only lists tenants and queries roles. */
  lemma ResolverCallsOnly(w: World, userId: string, hint: Option<string>, role: string)
    ensures forall c | c in ResolveTrace(w, userId, hint, role) ::
      c == GetTenantsForUser(userId) || (c.GetRolesForUserAndTenant? && c.userId == userId)
  {
    var tenants := TenantsOf(w, userId);
    RoleQueriesOnly(userId, tenants[..Consulted(w, userId, role, tenants)]);
  }

  /** Refusals never leave a token behind: every refusal happens before the token is created. */
  lemma RefusalsStoreNothing(conf: Options, w: World, normalized: Normalized, tokenId: string)
    ensures var o := Process(conf, w, normalized, tokenId);
      (o.response == Unauthorized || o.response == BadRequest) ==>
        o.stored == None && CreateToken(tokenId) !in o.calls
  {
    if normalized.Accepted? && normalized.username in w.usersByName {
      ResolverCallsOnly(w, w.usersByName[normalized.username].id, normalized.tenantHint, conf.swiftRole);
    }
  }

  /**
   * A token is stored exactly when the password check passes for the
   * resolved tenant; the record is stored under the new id and holds the
   * user, tenant and metadata `authenticate` returned, after the
   * `authenticate` and `create_token` calls.
   */
  lemma StoredExactlyOnAuthentication(conf: Options, w: World, hint: Option<string>, username: string, password: string, tokenId: string)
    ensures var o := Process(conf, w, Accepted(hint, username, password), tokenId);
      o.stored.Some? <==>
        username in w.usersByName &&
        Resolve(w, w.usersByName[username].id, hint, conf.swiftRole).Chosen? &&
        w.authenticate(w.usersByName[username].id,
                       Resolve(w, w.usersByName[username].id, hint, conf.swiftRole).tenantId,
                       password).Authenticated?
    ensures var o := Process(conf, w, Accepted(hint, username, password), tokenId);
      o.stored.Some? ==>
        var userId := w.usersByName[username].id;
        var tenantId := Resolve(w, userId, hint, conf.swiftRole).tenantId;
        o.stored.value.id == tokenId &&
        w.authenticate(userId, tenantId, password) ==
          Authenticated(o.stored.value.user, o.stored.value.tenant, o.stored.value.metadata) &&
        Authenticate(userId, tenantId) in o.calls && CreateToken(tokenId) in o.calls
  {
  }

  /**
   * A success carries the id of the token it stored; that token has a
   * tenant, the catalog was fetched last and for exactly its user and
   * tenant, and the storage URL is the one the first region offering the
   * service gives.
   */
  lemma SuccessIsConsistent(conf: Options, w: World, normalized: Normalized, tokenId: string)
    requires Process(conf, w, normalized, tokenId).response.Ok?
    ensures var o := Process(conf, w, normalized, tokenId);
      o.response.token == tokenId && o.stored.Some? && o.stored.value.id == tokenId &&
      o.stored.value.tenant.Some? &&
      var record := o.stored.value;
      |o.calls| >= 1 && o.calls[|o.calls| - 1] == GetCatalog(record.user.id, record.tenant.value.id) &&
      StorageUrl(w.catalog(record.user.id, record.tenant.value.id, record.metadata), conf.serviceType, conf.urlType)
        == Found(o.response.storageUrl) &&
      ResponseHeaders(o.response.token, o.response.storageUrl)["x-auth-token"] == Text(record.id)
  {
  }

  /** A catalog in which no region offers the service is a server fault after the token was stored, not a refusal. */
  lemma MissingServiceIsFault(conf: Options, w: World, normalized: Normalized, tokenId: string)
    requires var o := Process(conf, w, normalized, tokenId);
      o.stored.Some? && o.stored.value.tenant.Some? &&
      var record := o.stored.value;
      forall region | region in w.catalog(record.user.id, record.tenant.value.id, record.metadata) ::
        conf.serviceType !in region.services
    ensures Process(conf, w, normalized, tokenId).response == Fault
  {
    var record := Process(conf, w, normalized, tokenId).stored.value;
    var catalog := w.catalog(record.user.id, record.tenant.value.id, record.metadata);
    forall j | 0 <= j < |catalog| ensures conf.serviceType !in catalog[j].services {
      assert catalog[j] in catalog;
    }
  }

  /** `/auth` with `X-Auth-User: acme:bob`: the tenant is taken from the username and never listed. */
  lemma EmbeddedTenantIsUsedDirectly(conf: Options, w: World, tokenId: string)
    ensures var headers := map["x-auth-user" := "acme:bob", "x-auth-key" := "secret"];
      var o := HandleSpec(conf, w, "/auth", headers, tokenId);
      Normalize("/auth", headers) == Accepted(Some("acme"), "bob", "secret") &&
      forall c | c in o.calls :: !c.GetTenantsForUser? && (c.Authenticate? ==> c.tenantHint == Some("acme"))
  {
    var headers := map["x-auth-user" := "acme:bob", "x-auth-key" := "secret"];
    assert Rest("/auth") == "auth";
    assert "acme:bob" == "acme" + ":" + "bob";
    AuthAccepts("/auth", headers, Some("acme"), "bob");
    HintSkipsResolution(conf, w, Some("acme"), "bob", "secret", tokenId);
  }

  /** `/auth` with `X-Auth-User: :bob`: the empty embedded tenant counts as absent, so the tenants are listed. */
  lemma EmptyEmbeddedTenantIsResolved(conf: Options, w: World, tokenId: string)
    requires "bob" in w.usersByName
    ensures var headers := map["x-auth-user" := ":bob", "x-auth-key" := "secret"];
      var o := HandleSpec(conf, w, "/auth", headers, tokenId);
      Normalize("/auth", headers) == Accepted(Some(""), "bob", "secret") &&
      GetTenantsForUser(w.usersByName["bob"].id) in o.calls
  {
    var headers := map["x-auth-user" := ":bob", "x-auth-key" := "secret"];
    assert Rest("/auth") == "auth";
    assert ":bob" == "" + ":" + "bob";
    AuthAccepts("/auth", headers, Some(""), "bob");
    var userId := w.usersByName["bob"].id;
    assert ResolveTrace(w, userId, Some(""), conf.swiftRole)[0] == GetTenantsForUser(userId);
    assert Process(conf, w, Accepted(Some(""), "bob", "secret"), tokenId).calls[1] == GetTenantsForUser(userId);
  }
}
