/**
 * The tenant resolver: turns the optional tenant hint into the tenant id
 * handed to `authenticate`, consulting the user's tenant list and role
 * grants when no usable hint was given.
 */
module TenantResolver {
  import opened Wrappers
  import opened PyStr
  import opened KeystoneApi

  /** The resolver's verdict: the (possibly absent) tenant to authenticate against, or a refusal to guess. */
  datatype Resolution = Chosen(tenantId: Option<string>) | Ambiguous

  /** Does the user hold `role` on `tenantId`? */
  predicate HoldsRole(w: World, userId: string, role: string, tenantId: string)
  {
    role in RolesOf(w, userId, tenantId)
  }

  /** The tenants of `tenants`, in order, on which the user holds `role`. */
  function Matches(w: World, userId: string, role: string, tenants: seq<string>): (m: seq<string>)
    ensures |m| <= |tenants|
  {
    if |tenants| == 0 then []
    else
      var last := tenants[|tenants| - 1];
      Matches(w, userId, role, tenants[..|tenants| - 1]) + (if HoldsRole(w, userId, role, last) then [last] else [])
  }

  /**
   * A second role-holding tenant is found while `tenant_id` is already set
   * (truthy): some match before the last has a non-empty id.
   */
  predicate Clashes(m: seq<string>)
  {
    exists i | 0 <= i < |m| - 1 :: m[i] != ""
  }

  /** The last match, or the (falsy) hint when there is none. */
  function LastOr(hint: Option<string>, m: seq<string>): Option<string>
  {
    if |m| == 0 then hint else Some(m[|m| - 1])
  }

  /** Selection among the user's tenants once no usable hint is present. */
  function SelectTenant(w: World, userId: string, role: string, hint: Option<string>, tenants: seq<string>): Resolution
  {
    if |tenants| == 1 then Chosen(Some(tenants[0]))
    else
      var m := Matches(w, userId, role, tenants);
      if Clashes(m) then Ambiguous else Chosen(LastOr(hint, m))
  }

  /** The whole resolver: a truthy hint is used as is; otherwise the tenant list decides. */
  function Resolve(w: World, userId: string, hint: Option<string>, role: string): Resolution
  {
    if Truthy(hint) then Chosen(hint) else SelectTenant(w, userId, role, hint, TenantsOf(w, userId))
  }

  /** One role query per tenant, in order. */
  function RoleQueries(userId: string, tenants: seq<string>): (calls: seq<Call>)
    ensures |calls| == |tenants|
  {
    if |tenants| == 0 then []
    else RoleQueries(userId, tenants[..|tenants| - 1]) + [GetRolesForUserAndTenant(userId, tenants[|tenants| - 1])]
  }

  /** How many tenants have their roles fetched: all of them, or up to the one that clashes. */
  function Consulted(w: World, userId: string, role: string, tenants: seq<string>): (k: nat)
    ensures k <= |tenants|
  {
    if |tenants| == 0 then 0
    else if Clashes(Matches(w, userId, role, tenants[..|tenants| - 1])) then
      Consulted(w, userId, role, tenants[..|tenants| - 1])
    else |tenants|
  }

  /** The backend calls the resolver makes. */
  function ResolveTrace(w: World, userId: string, hint: Option<string>, role: string): seq<Call>
  {
    if Truthy(hint) then []
    else
      var tenants := TenantsOf(w, userId);
      if |tenants| == 1 then [GetTenantsForUser(userId)]
      else [GetTenantsForUser(userId)] + RoleQueries(userId, tenants[..Consulted(w, userId, role, tenants)])
  }

  /** Matching a longer prefix only adds matches at the end. */
  lemma {:induction false} MatchesPrefix(w: World, userId: string, role: string, tenants: seq<string>, j: nat)
    requires j <= |tenants|
    ensures var mj := Matches(w, userId, role, tenants[..j]);
      var m := Matches(w, userId, role, tenants);
      |mj| <= |m| && m[..|mj|] == mj
    decreases |tenants| - j
  {
    if j < |tenants| {
      var shorter := tenants[..|tenants| - 1];
      assert shorter[..j] == tenants[..j];
      MatchesPrefix(w, userId, role, shorter, j);
      var m := Matches(w, userId, role, tenants);
      var ms := Matches(w, userId, role, shorter);
      assert m[..|ms|] == ms;
    } else {
      assert tenants[..j] == tenants;
    }
  }

  /** A clash among the first `j` tenants is a clash among all of them. */
  lemma ClashesGrow(w: World, userId: string, role: string, tenants: seq<string>, j: nat)
    requires j <= |tenants| && Clashes(Matches(w, userId, role, tenants[..j]))
    ensures Clashes(Matches(w, userId, role, tenants))
  {
    MatchesPrefix(w, userId, role, tenants, j);
    var mj := Matches(w, userId, role, tenants[..j]);
    var m := Matches(w, userId, role, tenants);
    var i :| 0 <= i < |mj| - 1 && mj[i] != "";
    assert m[i] == mj[i];
  }

  /** Adding one match creates a clash exactly when the previous last match has a non-empty id. */
  lemma ClashStep(m: seq<string>, t: string)
    requires !Clashes(m)
    ensures Clashes(m + [t]) <==> |m| > 0 && m[|m| - 1] != ""
  {
    if Clashes(m + [t]) {
      var i :| 0 <= i < |m| && (m + [t])[i] != "";
      assert m[i] != "";
    }
    if |m| > 0 && m[|m| - 1] != "" {
      assert (m + [t])[|m| - 1] != "";
    }
  }

  /** The roles are fetched up to and including the first tenant that causes a clash. */
  lemma {:induction false} ConsultedAtClash(w: World, userId: string, role: string, tenants: seq<string>, k: nat)
    requires 0 < k <= |tenants|
    requires Clashes(Matches(w, userId, role, tenants[..k]))
    requires !Clashes(Matches(w, userId, role, tenants[..k - 1]))
    ensures Consulted(w, userId, role, tenants) == k
    decreases |tenants|
  {
    var shorter := tenants[..|tenants| - 1];
    if k == |tenants| {
      assert tenants[..k - 1] == shorter;
    } else {
      assert shorter[..k] == tenants[..k] && shorter[..k - 1] == tenants[..k - 1];
      ClashesGrow(w, userId, role, shorter, k);
      ConsultedAtClash(w, userId, role, shorter, k);
    }
  }

  /** Without a clash every tenant's roles are fetched. */
  lemma ConsultedAll(w: World, userId: string, role: string, tenants: seq<string>)
    requires !Clashes(Matches(w, userId, role, tenants))
    ensures Consulted(w, userId, role, tenants) == |tenants|
  {
    if |tenants| > 0 && Clashes(Matches(w, userId, role, tenants[..|tenants| - 1])) {
      ClashesGrow(w, userId, role, tenants, |tenants| - 1);
    }
  }

  /** One iteration of the role scan, in terms of the prefixes before and after it. */
  lemma ScanStep(w: World, userId: string, role: string, hint: Option<string>, tenants: seq<string>, i: nat)
    requires i < |tenants| && !Truthy(hint)
    requires !Clashes(Matches(w, userId, role, tenants[..i]))
    ensures RoleQueries(userId, tenants[..i + 1]) ==
      RoleQueries(userId, tenants[..i]) + [GetRolesForUserAndTenant(userId, tenants[i])]
    ensures var before := Matches(w, userId, role, tenants[..i]);
      var after := Matches(w, userId, role, tenants[..i + 1]);
      if HoldsRole(w, userId, role, tenants[i]) then
        (Clashes(after) <==> Truthy(LastOr(hint, before))) && LastOr(hint, after) == Some(tenants[i])
      else
        after == before
  {
    assert tenants[..i + 1][..i] == tenants[..i];
    var before := Matches(w, userId, role, tenants[..i]);
    if HoldsRole(w, userId, role, tenants[i]) {
      ClashStep(before, tenants[i]);
    }
  }

  /** The scan stops at a clash: the whole selection is refused after exactly that many role queries. */
  lemma ScanClash(w: World, userId: string, role: string, hint: Option<string>, tenants: seq<string>, i: nat)
    requires i < |tenants| && |tenants| != 1
    requires !Clashes(Matches(w, userId, role, tenants[..i]))
    requires Clashes(Matches(w, userId, role, tenants[..i + 1]))
    ensures SelectTenant(w, userId, role, hint, tenants) == Ambiguous
    ensures Consulted(w, userId, role, tenants) == i + 1
  {
    ClashesGrow(w, userId, role, tenants, i + 1);
    ConsultedAtClash(w, userId, role, tenants, i + 1);
  }

  /** The scan runs to the end without a clash: the last holder (or the hint) is chosen after querying every tenant. */
  lemma ScanDone(w: World, userId: string, role: string, hint: Option<string>, tenants: seq<string>)
    requires |tenants| != 1
    requires !Clashes(Matches(w, userId, role, tenants[..|tenants|]))
    ensures SelectTenant(w, userId, role, hint, tenants) ==
      Chosen(LastOr(hint, Matches(w, userId, role, tenants[..|tenants|])))
    ensures Consulted(w, userId, role, tenants) == |tenants|
  {
    assert tenants[..|tenants|] == tenants;
    ConsultedAll(w, userId, role, tenants);
  }

  /**
   * Lines 123-142 of the handler: use a truthy hint; otherwise list the
   * tenants and take the only one, or scan them for the role.
   */
  method ResolveTenant(w: World, userId: string, hint: Option<string>, role: string)
    returns (r: Resolution, calls: seq<Call>)
    ensures r == Resolve(w, userId, hint, role)
    ensures calls == ResolveTrace(w, userId, hint, role)
  {
    if Truthy(hint) {
      return Chosen(hint), [];
    }
    var userTenants := TenantsOf(w, userId);
    if |userTenants| == 1 {
      return Chosen(Some(userTenants[0])), [GetTenantsForUser(userId)];
    }
    var roleCalls;
    r, roleCalls := ScanForRole(w, userId, role, hint, userTenants);
    calls := [GetTenantsForUser(userId)] + roleCalls;
  }

  /**
   * Lines 132-142 of the handler: query each tenant's roles in order; the
   * first holder of the role sets `tenant_id`, and a further holder found
   * while `tenant_id` is truthy ends the scan with a refusal.
   */
  method ScanForRole(w: World, userId: string, role: string, hint: Option<string>, tenants: seq<string>)
    returns (r: Resolution, calls: seq<Call>)
    requires !Truthy(hint) && |tenants| != 1
    ensures r == SelectTenant(w, userId, role, hint, tenants)
    ensures calls == RoleQueries(userId, tenants[..Consulted(w, userId, role, tenants)])
  {
    calls := [];
    var tenantId := hint;
    for i := 0 to |tenants|
      invariant calls == RoleQueries(userId, tenants[..i])
      invariant !Clashes(Matches(w, userId, role, tenants[..i]))
      invariant tenantId == LastOr(hint, Matches(w, userId, role, tenants[..i]))
    {
      var userTenantId := tenants[i];
      var roles := RolesOf(w, userId, userTenantId);
      calls := calls + [GetRolesForUserAndTenant(userId, userTenantId)];
      ScanStep(w, userId, role, hint, tenants, i);
      if role in roles {
        if Truthy(tenantId) {
          ScanClash(w, userId, role, hint, tenants, i);
          return Ambiguous, calls;
        }
        tenantId := Some(userTenantId);
      }
    }
    ScanDone(w, userId, role, hint, tenants);
    return Chosen(tenantId), calls;
  }

  /** A truthy hint is used as is, with no tenant listing and no role query. */
  lemma HintUsedAsIs(w: World, userId: string, hint: Option<string>, role: string)
    requires Truthy(hint)
    ensures Resolve(w, userId, hint, role) == Chosen(hint)
    ensures ResolveTrace(w, userId, hint, role) == []
  {
  }

  /** A user with exactly one tenant gets that tenant, after a tenant listing and no role query. */
  lemma SingleTenantChosen(w: World, userId: string, hint: Option<string>, role: string)
    requires !Truthy(hint) && |TenantsOf(w, userId)| == 1
    ensures Resolve(w, userId, hint, role) == Chosen(Some(TenantsOf(w, userId)[0]))
    ensures ResolveTrace(w, userId, hint, role) == [GetTenantsForUser(userId)]
  {
  }

  /** `Matches` is a filter: each tenant id keeps its multiplicity if it holds the role and disappears otherwise. */
  lemma {:induction false} MatchesFilter(w: World, userId: string, role: string, tenants: seq<string>, x: string)
    ensures multiset(Matches(w, userId, role, tenants))[x] ==
      if HoldsRole(w, userId, role, x) then multiset(tenants)[x] else 0
  {
    if |tenants| > 0 {
      var shorter := tenants[..|tenants| - 1];
      var last := tenants[|tenants| - 1];
      assert tenants == shorter + [last];
      MatchesFilter(w, userId, role, shorter, x);
    }
  }

  /** Every match is one of the tenants and carries the role. */
  lemma {:induction false} MatchesSound(w: World, userId: string, role: string, tenants: seq<string>)
    ensures forall t | t in Matches(w, userId, role, tenants) :: t in tenants && HoldsRole(w, userId, role, t)
  {
    if |tenants| > 0 {
      MatchesSound(w, userId, role, tenants[..|tenants| - 1]);
    }
  }

  /** Reordering the tenants reorders the matches. */
  lemma MatchesReordered(w: World, userId: string, role: string, tenants: seq<string>, reordered: seq<string>)
    requires multiset(reordered) == multiset(tenants)
    ensures multiset(Matches(w, userId, role, tenants)) == multiset(Matches(w, userId, role, reordered))
  {
    var m1 := Matches(w, userId, role, tenants);
    var m2 := Matches(w, userId, role, reordered);
    forall x ensures multiset(m1)[x] == multiset(m2)[x] {
      MatchesFilter(w, userId, role, tenants, x);
      MatchesFilter(w, userId, role, reordered, x);
    }
  }

  /**
   * With real (non-empty) tenant ids and no usable hint, several tenants are
   * decided by how many of them carry the role: none leaves the hint, one is
   * chosen, two or more are refused.
   */
  lemma ResolveByRoleCount(w: World, userId: string, role: string, hint: Option<string>, tenants: seq<string>)
    requires |tenants| != 1 && forall t | t in tenants :: t != ""
    ensures var m := Matches(w, userId, role, tenants);
      SelectTenant(w, userId, role, hint, tenants) ==
        if |m| == 0 then Chosen(hint) else if |m| == 1 then Chosen(Some(m[0])) else Ambiguous
  {
    var m := Matches(w, userId, role, tenants);
    MatchesSound(w, userId, role, tenants);
    if |m| >= 2 {
      assert m[0] in m;
      assert Clashes(m);
    }
  }

  /**
   * Why the two lemmas above need non-empty ids: an earlier holder with the
   * empty id is falsy and does not block a later one, so order matters.
   */
  lemma EmptyIdOrderMatters(w: World, userId: string, role: string, hint: Option<string>)
    requires HoldsRole(w, userId, role, "") && HoldsRole(w, userId, role, "a")
    ensures SelectTenant(w, userId, role, hint, ["", "a"]) == Chosen(Some("a"))
    ensures SelectTenant(w, userId, role, hint, ["a", ""]) == Ambiguous
  {
    assert ["", "a"][..1] == [""] && [""][..0] == [];
    assert ["a", ""][..1] == ["a"] && ["a"][..0] == [];
    assert Matches(w, userId, role, ["", "a"]) == ["", "a"];
    assert Matches(w, userId, role, ["a", ""]) == ["a", ""];
  }

  /** Two sequences with the same multiset and length one are the same singleton. */
  lemma SameSingleton(a: seq<string>, b: seq<string>)
    requires multiset(a) == multiset(b) && |a| == 1
    ensures b == a
  {
    assert |b| == |multiset(b)| == 1;
    assert b[0] in multiset(a);
  }

  /**
   * With real (non-empty) tenant ids the selection does not depend on the
   * order the backend lists the tenants in.
   */
  lemma SelectionIgnoresOrder(w: World, userId: string, role: string, hint: Option<string>, tenants: seq<string>, reordered: seq<string>)
    requires multiset(reordered) == multiset(tenants)
    requires forall t | t in tenants :: t != ""
    ensures SelectTenant(w, userId, role, hint, tenants) == SelectTenant(w, userId, role, hint, reordered)
  {
    assert |tenants| == |multiset(tenants)| == |reordered|;
    if |tenants| == 1 {
      SameSingleton(tenants, reordered);
    } else {
      forall t | t in reordered ensures t != "" {
        assert t in multiset(reordered);
        assert t in tenants;
      }
      var m1 := Matches(w, userId, role, tenants);
      var m2 := Matches(w, userId, role, reordered);
      MatchesReordered(w, userId, role, tenants, reordered);
      assert |m1| == |multiset(m1)| == |m2|;
      if |m1| == 1 {
        SameSingleton(m1, m2);
      }
      ResolveByRoleCount(w, userId, role, hint, tenants);
      ResolveByRoleCount(w, userId, role, hint, reordered);
    }
  }
}
