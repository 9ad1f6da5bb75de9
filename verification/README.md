# keystone-v1auth, modelled in Dafny

`keystone_v1auth` is a Swift "v1 / tempauth" compatibility endpoint on top of
Keystone. Old Swift clients send `GET /v1/<tenant>/auth`, `GET /auth` or
`GET /v1.0`, with the credentials in the `X-Auth-User` / `X-Storage-User` and
`X-Auth-Key` / `X-Storage-Pass` headers. `V1Auth.handle` does four things in order:

1. It turns the request into a (tenant hint, username, password) triple.
2. It resolves the tenant from the user's tenant list and role grants when no usable hint was given.
3. It authenticates, then stores a new token.
4. It answers with the token and the storage URL of the first catalog region that offers the object store.

The model follows that pipeline module by module:

| module | file | what it holds |
|---|---|---|
| `Wrappers` | wrappers.dfy | `Option` |
| `PyStr` | pystr.dfy | Python's `str.split(sep, maxsplit)`, with its characterisation and inverse `Join`; truthiness of an optional string; `a or b` |
| `Settings` | settings.dfy | `app_factory`'s configuration merge, and the three options the handler reads |
| `KeystoneApi` | keystone_api.dfy | the backends |
| `Normalizer` | normalizer.dfy | path shapes, header fallback chains and the `act:usr` split, as pure functions |
| `TenantResolver` | tenant_resolver.dfy | the tenant-selection heuristic: a specification function plus the loop, as a method proved against it |
| `Issuer` | issuer.dfy | the catalog scan, as a method proved against a function, and the response headers |
| `Handler` | handler.dfy | the `V1Auth` class, whose `Handle` method is proved against the function `HandleSpec`, plus end-to-end lemmas |

`KeystoneApi` models the backends in two parts:

- The identity and catalog backends are read-only from the handler's side. They are one immutable `World` value: users by name, tenant lists, role grants, an `authenticate` function and a catalog function.
- The token backend is the one thing the handler changes. It is a `TokenStore` object holding a map.

Every backend call the handler makes is recorded, in order, as a `Call` trace. This makes statements like "no backend call is made" and "no role query is made" checkable.

Outcomes are `Ok(token, storageUrl)`, `Unauthorized`, `BadRequest` and `Fault`. `Fault` stands for an exception escaping the handler. It happens in three cases:

- `authenticate` returns no tenant, so `tenant_ref['id']` fails.
- No region offers the service, so `storage_url` is unbound.
- The first region offering the service lacks the URL type (`KeyError`).

In the first case the token has already been stored. In the other two, the token has been stored and the catalog has been fetched.

The built-in defaults are those of `keystone_v1auth/core.py:183-187`: `url_type = "publicURL"`, `service_type = "object-store"` and `swift_role = "swiftoperator"`.

The role scan tests `if tenant_id:` (`keystone_v1auth/core.py:137`), so an earlier role holder whose id is the empty string does not count as chosen. With such ids the outcome depends on the order of the tenant list: `["", "a"]`, both holding the role, selects `"a"`, while `["a", ""]` is refused. This is why `TenantResolver.ResolveByRoleCount` and `TenantResolver.SelectionIgnoresOrder` require non-empty tenant ids; `TenantResolver.EmptyIdOrderMatters` states the two cases.

Two more places where the model departs from the code:

- `V1Auth.__init__` drops its `conf` argument (`keystone_v1auth/core.py:33-38`), yet `handle` reads `self.conf` (lines 136, 166-167). As written, every request that reaches those lines would fail with `AttributeError`. The model's constructor keeps `conf`, which is evidently what was meant.
- Line 144 calls `LOG.notice`. The standard `logging.Logger` has no such method, so as written the line would raise whenever the resolver reaches it. The model treats the line as logging only, with no effect.

## Model

| member | source | states |
|---|---|---|
| `PyStr.IndexOf` | keystone_v1auth/core.py:84 | the result is the position of the first occurrence of the character: it is there, and not before |
| `PyStr.Split` | keystone_v1auth/core.py:71 | `str.split` returns between 1 and `maxsplit + 1` pieces, and at least two when a cut is allowed and the separator occurs |
| `PyStr.SplitCharacterised` | keystone_v1auth/core.py:71 | `Split` is exactly the split described by `IsSplitOf`: at most `maxsplit + 1` pieces that join back to the string, no separator in any piece but the last, and none in the last unless every cut was used (both directions) |
| `PyStr.SplitIsSplitOf` | keystone_v1auth/core.py:71 | the computed split meets the `IsSplitOf` description |
| `PyStr.SplitOfUnique` | keystone_v1auth/core.py:71 | at most one sequence of pieces meets the `IsSplitOf` description for a given string |
| `PyStr.JoinSplit` | keystone_v1auth/core.py:71 | round trip: joining the pieces of a split gives the string back |
| `PyStr.SplitOnceOf` | keystone_v1auth/core.py:84 | round trip the other way: `(a + ":" + b).split(":", 1) == [a, b]` when `a` has no colon, so a username keeps any further colons |
| `PyStr.SplitHead` | keystone_v1auth/core.py:71-73 | the first piece is a given separator-free word exactly when the string is that word or starts with it and a separator |
| `PyStr.Truthy` | keystone_v1auth/core.py:83-137 | defines Python truthiness of an optional string, used by every test of `username`, `password` and `tenant_id` (lines 83, 103, 111, 123, 137): true exactly for a present, non-empty string, so `None` and `""` are both falsy |
| `PyStr.Or` | keystone_v1auth/core.py:80-81 | Python `a or b`: truthy exactly when either operand is, and `a` itself when `a` is truthy |
| `Settings.Defaults` | keystone_v1auth/core.py:183-187 | the built-in configuration has exactly the keys `url_type`, `service_type` and `swift_role` |
| `Settings.AppFactory` | keystone_v1auth/core.py:182-192 | the merged configuration has the keys of the defaults, the global and the local configuration, and each value is the local one if given, else the global one, else the default |
| `Settings.FactorySettings` | keystone_v1auth/core.py:182-192 | the three options the handler reads (`self.conf['swift_role']` at line 136, `url_type` and `service_type` at lines 166-167) are always defined, and each is the local value if given, else the global one, else the default "publicURL" / "object-store" / "swiftoperator" |
| `KeystoneApi.UserByName` | keystone_v1auth/core.py:115-118 | a user is found exactly when the name is known |
| `KeystoneApi.TenantsOf` | keystone_v1auth/core.py:124 | defines `get_tenants_for_user`: the user's tenant ids in the backend's order; an id with no entry has no tenants (empty list) |
| `KeystoneApi.RolesOf` | keystone_v1auth/core.py:133-135 | defines `get_roles_for_user_and_tenant`: the role names granted to the user on the tenant; no grant means no roles (empty set) |
| `KeystoneApi.TokenStore.constructor` | keystone_v1auth/core.py:36 | a new token store is empty and well formed |
| `KeystoneApi.TokenStore.CreateToken` | keystone_v1auth/core.py:155-158 | storing a record adds or replaces exactly that one entry, leaving every other entry as it was; the store grows by one for a fresh id; a well-formed store (every record under its own id) stays well formed when the record's own id is the key it is stored under, as the handler's `dict(id=token_id, ...)` is |
| `Normalizer.ShapeOfV1` | keystone_v1auth/core.py:71-78 | the v1 shape applies exactly to paths `/v1/<tenant>/auth` with a slash-free tenant, and its hint is that tenant |
| `Normalizer.ShapeOfAuth` | keystone_v1auth/core.py:71-91 | the auth shape applies exactly to paths that are not v1 paths and whose first segment is `auth` or `v1.0` |
| `Normalizer.BadRequestExactly` | keystone_v1auth/core.py:71-109 | a request is malformed exactly when its path has neither shape, whatever its headers |
| `Normalizer.ShapeOf` | keystone_v1auth/core.py:71-109 | defines the path test: `path[1:].split('/', 2)`; three segments `v1`, t, `auth` give the v1 shape with hint t; else a first segment `auth` or `v1.0` gives the auth shape; anything else is malformed |
| `Normalizer.Rest` | keystone_v1auth/core.py:71 | defines `req.path[1:]`: the path without its first character, and `""` for the empty path |
| `Normalizer.ExtraSegmentIsBadRequest` | keystone_v1auth/core.py:71-73 | `/v1/a/b/auth` is malformed, because its third segment is `b/auth` |
| `Normalizer.FirstTruthyPrecedence` | keystone_v1auth/core.py:80-107 | in a header fallback chain, the earliest header that is present and non-empty wins; present but empty headers fall through |
| `Normalizer.FirstTruthyNone` | keystone_v1auth/core.py:80-107 | a fallback chain yields a usable value exactly when one of its headers is present and non-empty |
| `Normalizer.FirstTruthy` | keystone_v1auth/core.py:80-107 | defines a header fallback chain `get(n0) or get(n1) or ...`: the first present, non-empty header's value, or else the last header's value (absent or empty) |
| `Normalizer.Get` | keystone_v1auth/core.py:80-107 | defines `req.headers.get(name)`: the header's value when present (possibly empty), `None` when absent |
| `Normalizer.UserHeaders` | keystone_v1auth/core.py:80-100 | the username chain tries both `x-storage-user` and `x-auth-user`, and puts `x-storage-user` first exactly in the v1 shape |
| `Normalizer.PasswordHeaders` | keystone_v1auth/core.py:88-107 | the password chain tries both `x-storage-pass` and `x-auth-key`, and puts `x-storage-pass` first exactly in the v1 shape |
| `Normalizer.Credentials` | keystone_v1auth/core.py:111-113 | the triple is accepted exactly when username and password are both truthy; otherwise the result is Unauthorized |
| `Normalizer.Normalize` | keystone_v1auth/core.py:71-113 | an accepted request always carries a non-empty username and password |
| `Normalizer.V1TenantMismatch` | keystone_v1auth/core.py:83-86 | in the v1 shape, a username whose tenant (up to the first colon) differs from the path's tenant is Unauthorized, never BadRequest |
| `Normalizer.V1Accepted` | keystone_v1auth/core.py:73-113 | an accepted v1 request has the path's tenant as hint and the preferred password; its username is the preferred username header, colon-free, or that header minus the path tenant and colon |
| `Normalizer.V1Accepts` | keystone_v1auth/core.py:73-113 | round trip: v1 headers built from a username, bare or prefixed with the path's tenant, normalise back to that username, the tenant and the password |
| `Normalizer.AuthAccepted` | keystone_v1auth/core.py:91-113 | an `/auth` or `/v1.0` request is never BadRequest; when accepted it has the preferred password, and either no hint and a colon-free username or the username header split at its first colon into hint and username; it is refused only for a missing credential or an empty name after the colon |
| `Normalizer.AuthAccepts` | keystone_v1auth/core.py:91-113 | round trip: auth headers built from an optional tenant and a username normalise back to both |
| `Normalizer.MissingCredentials` | keystone_v1auth/core.py:111-113 | a recognised request without a usable username or password is Unauthorized |
| `TenantResolver.Matches` | keystone_v1auth/core.py:132-136 | the tenants holding the role are no more than the tenants |
| `TenantResolver.MatchesSound` | keystone_v1auth/core.py:132-136 | every match is one of the user's tenants and holds the role |
| `TenantResolver.MatchesFilter` | keystone_v1auth/core.py:132-136 | the matches are a filter: each tenant id keeps its multiplicity if it holds the role and vanishes otherwise |
| `TenantResolver.MatchesReordered` | keystone_v1auth/core.py:132-136 | reordering the tenant list only reorders the matches |
| `TenantResolver.RoleQueries` | keystone_v1auth/core.py:132-135 | one role query per tenant |
| `TenantResolver.Consulted` | keystone_v1auth/core.py:132-140 | the scan consults at most all of the tenants |
| `TenantResolver.ConsultedAtClash` | keystone_v1auth/core.py:136-140 | the scan queries roles up to and including the first tenant that causes a clash, and stops there |
| `TenantResolver.ConsultedAll` | keystone_v1auth/core.py:132-142 | without a clash every tenant's roles are queried |
| `TenantResolver.ClashStep` | keystone_v1auth/core.py:136-142 | one more role holder causes a refusal exactly when `tenant_id` is already truthy, that is, when the previous holder has a non-empty id |
| `TenantResolver.ScanStep` | keystone_v1auth/core.py:132-142 | one loop iteration adds one role query; a role holder refuses exactly when `tenant_id` was truthy and otherwise becomes `tenant_id`; a non-holder changes nothing |
| `TenantResolver.ScanClash` | keystone_v1auth/core.py:137-140 | a clash at tenant `i` refuses the whole selection after exactly `i + 1` role queries |
| `TenantResolver.ScanDone` | keystone_v1auth/core.py:132-142 | a scan without a clash chooses the last role holder, or keeps the falsy hint, after querying every tenant |
| `TenantResolver.ResolveTenant` | keystone_v1auth/core.py:123-142 | the resolver loop returns the resolution `Resolve` specifies and makes exactly the backend calls `ResolveTrace` lists |
| `TenantResolver.ScanForRole` | keystone_v1auth/core.py:132-142 | the role scan returns `SelectTenant`'s verdict after querying exactly the consulted prefix of the tenant list |
| `TenantResolver.SelectTenant` | keystone_v1auth/core.py:127-142 | defines the selection without a usable hint: a lone tenant is taken as is; otherwise the role holders in list order, refused once a holder follows a non-empty holder, else the last holder or the falsy hint |
| `TenantResolver.Resolve` | keystone_v1auth/core.py:123-142 | defines the resolver: a truthy hint is used as is, otherwise `SelectTenant` over the user's tenant list |
| `TenantResolver.ResolveTrace` | keystone_v1auth/core.py:123-142 | defines the resolver's backend calls: none for a truthy hint; else the tenant listing, followed (for other than one tenant) by one role query per tenant up to the first clash |
| `TenantResolver.HintUsedAsIs` | keystone_v1auth/core.py:123 | a truthy hint is chosen as is, with no backend call |
| `TenantResolver.SingleTenantChosen` | keystone_v1auth/core.py:124-128 | with no usable hint, a user with exactly one tenant gets it after one tenant listing and no role query |
| `TenantResolver.ResolveByRoleCount` | keystone_v1auth/core.py:129-142 | with non-empty tenant ids and several (or no) tenants: no role holder keeps the hint (None or ""), one holder is chosen, two or more are refused |
| `TenantResolver.SelectionIgnoresOrder` | keystone_v1auth/core.py:129-142 | with non-empty tenant ids, the selection does not depend on the order of the tenant list |
| `TenantResolver.EmptyIdOrderMatters` | keystone_v1auth/core.py:132-142 | with the empty id among the role holders the order decides: `["", "a"]` selects `"a"`, `["a", ""]` is refused, since `if tenant_id:` treats `""` as unset |
| `Issuer.FirstRegionOffering` | keystone_v1auth/core.py:168-171 | the region found offers the service and no earlier region does; if none is found, no region offers it |
| `Issuer.StorageUrl` | keystone_v1auth/core.py:166-171 | defines the catalog lookup: the configured URL type of the first region offering the service; NoRegion when none does (`storage_url` unbound), NoUrlType when that region lacks the URL type (KeyError) |
| `Issuer.FindStorageUrl` | keystone_v1auth/core.py:166-171 | the catalog scan loop yields the URL of the configured type from the first region offering the service, NoRegion when none does, and NoUrlType when that region lacks the URL type |
| `Issuer.LaterRegionsIgnored` | keystone_v1auth/core.py:168-171 | regions after the first one offering the service do not affect the result |
| `Issuer.ResponseHeadersAsWritten` | keystone_v1auth/core.py:174-180 | the success headers as written: three headers, the storage URL under `x-storage-url` |
| `Issuer.AsWrittenHeadersLoseToken` | keystone_v1auth/core.py:177-178 | as written, neither token header carries the new token id, whatever it is |
| `Issuer.ResponseHeaders` | keystone_v1auth/core.py:174-180 | the intended success headers: both token headers carry the new token id, and `x-storage-url` carries the storage URL |
| `Handler.V1Auth.constructor` | keystone_v1auth/core.py:33-38 | the handler keeps its configuration and its backends |
| `Handler.HandleSpec` | keystone_v1auth/core.py:46-180 | defines the whole handler: `Process` applied to the normaliser's verdict |
| `Handler.Process` | keystone_v1auth/core.py:108-180 | defines everything after normalisation: refusals with no call; user lookup (unknown user refused); tenant resolution (ambiguity refused); then `Issue`, with the calls concatenated in order |
| `Handler.Issue` | keystone_v1auth/core.py:146-180 | defines authentication and issue: AssertionError refused with nothing stored; else the record under the new id, then Fault if there is no tenant, else the catalog fetch for the user's and tenant's ids and `StorageUrl`, Fault unless found |
| `Handler.V1Auth.Handle` | keystone_v1auth/core.py:46-180 | the handler's response and backend calls are those of `HandleSpec`; the token store gains exactly the stored record under the fresh id, or is unchanged; it stays well formed |
| `Handler.V1Auth.Proceed` | keystone_v1auth/core.py:108-180 | from the normaliser's verdict on, the response, calls and new token store are those `Process` specifies |
| `Handler.V1Auth.IssueToken` | keystone_v1auth/core.py:146-180 | authentication, token creation and the catalog scan give the response, calls and token store that `Issue` specifies; the store grows by one exactly when a record is stored |
| `Handler.RejectedBeforeBackend` | keystone_v1auth/core.py:71-113 | a rejected request makes no backend call and stores nothing; it is BadRequest exactly when the path has neither shape, and Unauthorized otherwise |
| `Handler.UnknownUserRefused` | keystone_v1auth/core.py:115-118 | a name that resolves to no user is Unauthorized after that one lookup, with nothing stored |
| `Handler.HintSkipsResolution` | keystone_v1auth/core.py:123-149 | with a truthy hint, no tenant listing or role query is made, and `authenticate` receives the hint |
| `Handler.RoleQueriesOnly` | keystone_v1auth/core.py:132-135 | the role scan only queries roles, for the one user |
| `Handler.ResolverCallsOnly` | keystone_v1auth/core.py:123-142 | the resolver only lists the user's tenants and queries roles |
| `Handler.RefusalsStoreNothing` | keystone_v1auth/core.py:83-151 | every Unauthorized or BadRequest outcome stores no token and never calls `create_token` |
| `Handler.StoredExactlyOnAuthentication` | keystone_v1auth/core.py:147-158 | a token is stored exactly when the user exists, the tenant is resolved and `authenticate` succeeds for it; the record is stored under the new id and holds the user, tenant and metadata `authenticate` returned |
| `Handler.SuccessIsConsistent` | keystone_v1auth/core.py:153-180 | a success returns the stored token's id; the token has a tenant; the catalog was fetched last, for that token's user and tenant; the URL is the one the catalog scan specifies; the intended headers carry the token |
| `Handler.MissingServiceIsFault` | keystone_v1auth/core.py:166-171 | a catalog where no region offers the service is a Fault, after the token was stored, and not a refusal |
| `Handler.EmbeddedTenantIsUsedDirectly` | keystone_v1auth/core.py:99-123 | `/auth` with `X-Auth-User: acme:bob` authenticates `bob` against `acme`, without listing tenants |
| `Handler.EmptyEmbeddedTenantIsResolved` | keystone_v1auth/core.py:99-124 | `/auth` with `X-Auth-User: :bob` has an empty hint, which is falsy, so the user's tenants are listed |

## Left out

- WSGI and webob plumbing (`__call__`, `Request`, `Response`, `HTTPUnauthorized`, `HTTPBadRequest`, `keystone_v1auth/core.py:40-44`). It is reduced to the `Response` datatype. Status codes and bodies are not modelled.
- The Keystone `identity`, `catalog` and `token` managers (`keystone_v1auth/core.py:34-36`) are foreign code. They are the `World` value and the `TokenStore` object. An `authenticate` failure other than `AssertionError`, and any failure of `create_token`, are not modelled.
- `uuid.uuid4().hex` (`keystone_v1auth/core.py:154`): the token id is a parameter, and `Handle` requires it to be absent from the store.
- Logging (`keystone_v1auth/core.py:144`) has no effect in the model, although `LOG.notice` does not exist on a standard `logging.Logger`.
- Header names are looked up as lower-case map keys. webob's case-insensitive header matching is not modelled.
- Catalog regions are a sequence in their iteration order. Python 2 dict order (`iteritems`) is whatever that sequence says.
- Handler.V1Auth.constructor: it stores `conf`, whereas the code's `__init__` drops it (see above). The model therefore does not capture the `AttributeError` that the code as written would raise on `self.conf`.
- The response headers: `Handle` returns `Ok(token, storageUrl)`. Which header map the code as written would produce is covered separately by `Issuer.ResponseHeadersAsWritten`.
- setup.py is packaging metadata and is not part of this model.

## Findings

| source | as written | input that shows it | evidently intended | confidence | as-written member | corrected member |
|---|---|---|---|---|---|---|
| keystone_v1auth/core.py:177-178 | `'x-auth-token': token, 'x-storage-token': token`: `token` is the imported `keystone.token` module | any successful request, e.g. `/auth` with valid `X-Auth-User`/`X-Auth-Key` for a user with one tenant and an object-store endpoint | both headers carry `token_id`, the id just stored (as the docstring at lines 62-64 says) | high (by reading; not executed) | `Issuer.AsWrittenHeadersLoseToken` | `Issuer.ResponseHeaders` |
