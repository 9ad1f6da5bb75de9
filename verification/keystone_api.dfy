/**
 * The Keystone collaborators the handler talks to. The identity and catalog
 * backends are read-only from the handler's point of view and are modelled
 * as one immutable value (`World`); the token backend is the one thing the
 * handler changes and is modelled as an object holding a map.
 */
module KeystoneApi {
  import opened Wrappers

  /** A user record; the handler only reads its `id`. */
  datatype UserRef = UserRef(id: string, name: string)

  /** A tenant (project) record; the handler only reads its `id`. */
  datatype TenantRef = TenantRef(id: string, name: string)

  /** Opaque metadata returned by `authenticate` and passed on unchanged. */
  type Metadata = map<string, string>

  /**
   * The result of the identity backend's `authenticate`. The backend signals
   * a wrong password or a tenant the user is not in by raising
   * `AssertionError`; with no tenant it returns `None` as the tenant record.
   */
  datatype AuthOutcome =
    | Authenticated(user: UserRef, tenant: Option<TenantRef>, metadata: Metadata)
    | AssertionFailed

  /** One region of a service catalog: service type to URL type to URL. */
  datatype Region = Region(name: string, services: map<string, map<string, string>>)

  /** A service catalog, its regions in iteration order. */
  type Catalog = seq<Region>

  /** What the identity and catalog backends answer, for every possible question. */
  datatype World = World(
    usersByName: map<string, UserRef>,
    tenantsOfUser: map<string, seq<string>>,
    rolesOf: map<(string, string), set<string>>,
    authenticate: (string, Option<string>, string) -> AuthOutcome,
    catalog: (string, string, Metadata) -> Catalog)

  /** `identity_api.get_user_by_name`: the user with that name, if any. */
  function UserByName(w: World, name: string): (u: Option<UserRef>)
    ensures u.Some? <==> name in w.usersByName
  {
    if name in w.usersByName then Some(w.usersByName[name]) else None
  }

  /** `identity_api.get_tenants_for_user`: the user's tenant ids in order (none for an unknown id). */
  function TenantsOf(w: World, userId: string): seq<string>
  {
    if userId in w.tenantsOfUser then w.tenantsOfUser[userId] else []
  }

  /** `identity_api.get_roles_for_user_and_tenant`: the role names granted (none if no grant). */
  function RolesOf(w: World, userId: string, tenantId: string): set<string>
  {
    if (userId, tenantId) in w.rolesOf then w.rolesOf[(userId, tenantId)] else {}
  }

  /** A call into a Keystone backend, as the handler issues it. */
  datatype Call =
    | GetUserByName(name: string)
    | GetTenantsForUser(userId: string)
    | GetRolesForUserAndTenant(userId: string, tenantId: string)
    | Authenticate(userId: string, tenantHint: Option<string>)
    | CreateToken(tokenId: string)
    | GetCatalog(userId: string, tenantId: string)

  /** The record `create_token` is given: `dict(id=..., user=..., tenant=..., metadata=...)`. */
  datatype TokenRecord = TokenRecord(id: string, user: UserRef, tenant: Option<TenantRef>, metadata: Metadata)

  /** The token backend: token id to stored record. */
  class TokenStore {
    var tokens: map<string, TokenRecord>

    /** Every record is stored under its own id. */
    ghost predicate Valid()
      reads this
    {
      forall id | id in tokens :: tokens[id].id == id
    }

    constructor ()
      ensures tokens == map[] && Valid()
    {
      tokens := map[];
    }

    /** `token_api.create_token(token_id, data)`: store `data` under `tokenId`. */
    method CreateToken(tokenId: string, data: TokenRecord)
      modifies this
      ensures tokens == old(tokens)[tokenId := data]
      ensures old(Valid()) && data.id == tokenId ==> Valid()
      ensures tokenId !in old(tokens) ==> |tokens| == |old(tokens)| + 1
    {
      tokens := tokens[tokenId := data];
    }
  }
}
