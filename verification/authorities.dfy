/** How the resource catalogue turns an access token's role claims into
    granted authorities: every realm role, then every role of every client,
    each prefixed with `ROLE_`. Claims of an unexpected shape contribute
    nothing. */
module Authorities {
  import opened Wrappers
  import opened Text

  /** A claim value as the token decoder hands it over: a JSON object with
      its members in iteration order, an array of strings, or anything
      else. */
  datatype Claim =
    | ClaimMap(entries: seq<(string, Claim)>)
    | ClaimList(items: seq<string>)
    | ClaimOther

  type Claims = map<string, Claim>

  const RolePrefix: string := "ROLE_"

  /** The member of an object under `key` (the first, as keys are unique):
      absent exactly when no entry has that key. */
  function Member(entries: seq<(string, Claim)>, key: string): (r: Option<Claim>)
    ensures r.None? <==> forall i :: 0 <= i < |entries| ==> entries[i].0 != key
    ensures r.Some? ==> exists i :: && 0 <= i < |entries| && entries[i] == (key, r.value)
                                    && forall j :: 0 <= j < i ==> entries[j].0 != key
  {
    if |entries| == 0 then None
    else if entries[0].0 == key then Some(entries[0].1)
    else Member(entries[1..], key)
  }

  /** The `roles` of a claim: its `roles` member when the claim is an object
      and that member a collection; nothing otherwise. */
  function RolesOf(c: Claim): seq<string> {
    match c
    case ClaimMap(entries) =>
      (match Member(entries, "roles")
       case Some(ClaimList(items)) => items
       case _ => [])
    case _ => []
  }

  /** One authority per role, in order. */
  function Prefixed(roles: seq<string>): (r: seq<string>)
    ensures |r| == |roles|
    ensures forall i :: 0 <= i < |r| ==> r[i] == RolePrefix + roles[i]
  {
    if |roles| == 0 then [] else [RolePrefix + roles[0]] + Prefixed(roles[1..])
  }

  /** The roles of every client under `resource_access`, client by client. */
  function ClientAuthorities(clients: seq<(string, Claim)>): seq<string> {
    if |clients| == 0 then [] else Prefixed(RolesOf(clients[0].1)) + ClientAuthorities(clients[1..])
  }

  function RealmRoles(claims: Claims): seq<string> {
    if "realm_access" in claims then RolesOf(claims["realm_access"]) else []
  }

  function ResourceAuthorities(claims: Claims): seq<string> {
    if "resource_access" in claims && claims["resource_access"].ClaimMap?
    then ClientAuthorities(claims["resource_access"].entries)
    else []
  }

  /** The converter: realm authorities first, then client authorities,
      duplicates kept. */
  function GrantedAuthorities(claims: Claims): (r: seq<string>)
    ensures |r| == |RealmRoles(claims)| + |ResourceAuthorities(claims)|
    ensures r[..|RealmRoles(claims)|] == Prefixed(RealmRoles(claims))
    ensures r[|RealmRoles(claims)|..] == ResourceAuthorities(claims)
  {
    var realm := Prefixed(RealmRoles(claims));
    var r := realm + ResourceAuthorities(claims);
    assert r[..|realm|] == realm;
    assert r[|realm|..] == ResourceAuthorities(claims);
    r
  }

  /** `hasRole(role)`: the authority `ROLE_<role>` was granted. */
  predicate HasRole(authorities: seq<string>, role: string) {
    RolePrefix + role in authorities
  }

  // ---------------------------------------------------------------------------
  // Properties
  // ---------------------------------------------------------------------------

  lemma PrefixCancels(a: string, b: string)
    requires RolePrefix + a == RolePrefix + b
    ensures a == b
  {
    assert a == (RolePrefix + a)[|RolePrefix|..];
    assert b == (RolePrefix + b)[|RolePrefix|..];
  }

  /** A role is granted exactly when it is among the prefixed roles. */
  lemma PrefixedMembership(roles: seq<string>, role: string)
    ensures RolePrefix + role in Prefixed(roles) <==> role in roles
  {
    var r := Prefixed(roles);
    if RolePrefix + role in r {
      var i :| 0 <= i < |r| && r[i] == RolePrefix + role;
      PrefixCancels(roles[i], role);
    }
    if role in roles {
      var i :| 0 <= i < |roles| && roles[i] == role;
      assert r[i] == RolePrefix + role;
    }
  }

  /** An authority comes from the client roles exactly when some client
      lists it. */
  lemma {:induction false} ClientAuthoritiesMembership(clients: seq<(string, Claim)>, role: string)
    ensures RolePrefix + role in ClientAuthorities(clients) <==>
              exists i :: 0 <= i < |clients| && role in RolesOf(clients[i].1)
  {
    if |clients| > 0 {
      PrefixedMembership(RolesOf(clients[0].1), role);
      ClientAuthoritiesMembership(clients[1..], role);
      if exists i :: 0 <= i < |clients[1..]| && role in RolesOf(clients[1..][i].1) {
        var i :| 0 <= i < |clients[1..]| && role in RolesOf(clients[1..][i].1);
        assert clients[i + 1] == clients[1..][i];
      }
      if exists i :: 0 <= i < |clients| && role in RolesOf(clients[i].1) {
        var i :| 0 <= i < |clients| && role in RolesOf(clients[i].1);
        if i > 0 {
          assert clients[1..][i - 1] == clients[i];
        }
      }
    }
  }

  /** A role holds exactly when the realm lists it or some client does:
      in particular `hasRole('admin')` follows an `admin` realm role. */
  lemma HasRoleIffListed(claims: Claims, role: string)
    ensures HasRole(GrantedAuthorities(claims), role) <==>
              || role in RealmRoles(claims)
              || ("resource_access" in claims && claims["resource_access"].ClaimMap?
                  && exists i :: 0 <= i < |claims["resource_access"].entries|
                                 && role in RolesOf(claims["resource_access"].entries[i].1))
  {
    PrefixedMembership(RealmRoles(claims), role);
    if "resource_access" in claims && claims["resource_access"].ClaimMap? {
      ClientAuthoritiesMembership(claims["resource_access"].entries, role);
    }
  }

  /** Every client authority carries the `ROLE_` prefix. */
  lemma {:induction false} ClientAuthoritiesArePrefixed(clients: seq<(string, Claim)>)
    ensures forall a :: a in ClientAuthorities(clients) ==> StartsWith(a, RolePrefix)
  {
    if |clients| > 0 {
      ClientAuthoritiesArePrefixed(clients[1..]);
      var head := Prefixed(RolesOf(clients[0].1));
      forall a | a in head
        ensures StartsWith(a, RolePrefix)
      {
        var i :| 0 <= i < |head| && head[i] == a;
        assert a[..|RolePrefix|] == RolePrefix;
      }
    }
  }

  /** Claims of the wrong shape are skipped without error: a realm claim
      that is not an object, or whose roles are not a collection, gives no
      realm authority, and a client claim that is not an object gives no
      client authority. */
  lemma WrongShapesContributeNothing(claims: Claims)
    ensures "realm_access" in claims && !claims["realm_access"].ClaimMap? ==> RealmRoles(claims) == []
    ensures "realm_access" in claims && claims["realm_access"].ClaimMap?
            && (match Member(claims["realm_access"].entries, "roles") case Some(ClaimList(_)) => false case _ => true)
            ==> RealmRoles(claims) == []
    ensures "resource_access" in claims && !claims["resource_access"].ClaimMap? ==> ResourceAuthorities(claims) == []
  {
  }

  /** Every granted authority, realm or client, carries the `ROLE_` prefix. */
  lemma AllAuthoritiesArePrefixed(claims: Claims)
    ensures forall a :: a in GrantedAuthorities(claims) ==> StartsWith(a, RolePrefix)
  {
    var r := GrantedAuthorities(claims);
    var n := |RealmRoles(claims)|;
    if "resource_access" in claims && claims["resource_access"].ClaimMap? {
      ClientAuthoritiesArePrefixed(claims["resource_access"].entries);
    }
    forall a | a in r
      ensures StartsWith(a, RolePrefix)
    {
      var i :| 0 <= i < |r| && r[i] == a;
      if i < n {
        assert a == Prefixed(RealmRoles(claims))[i] == RolePrefix + RealmRoles(claims)[i];
        assert a[..|RolePrefix|] == RolePrefix;
      } else {
        assert a == r[n..][i - n];
        assert a in ResourceAuthorities(claims);
      }
    }
  }

  /** Duplicates are kept: a role listed by the realm and by some client is
      granted at least twice, once among the realm authorities and once
      among the client authorities after them. */
  lemma DuplicatesAreKept(claims: Claims, role: string)
    requires role in RealmRoles(claims)
    requires "resource_access" in claims && claims["resource_access"].ClaimMap?
    requires exists i :: 0 <= i < |claims["resource_access"].entries|
                         && role in RolesOf(claims["resource_access"].entries[i].1)
    ensures exists i, j :: && 0 <= i < |RealmRoles(claims)| <= j < |GrantedAuthorities(claims)|
                           && GrantedAuthorities(claims)[i] == RolePrefix + role
                           && GrantedAuthorities(claims)[j] == RolePrefix + role
  {
    var r := GrantedAuthorities(claims);
    var n := |RealmRoles(claims)|;
    PrefixedMembership(RealmRoles(claims), role);
    ClientAuthoritiesMembership(claims["resource_access"].entries, role);
    var i :| 0 <= i < n && r[..n][i] == RolePrefix + role;
    var k :| 0 <= k < |r[n..]| && r[n..][k] == RolePrefix + role;
    assert r[i] == RolePrefix + role;
    assert r[n + k] == RolePrefix + role;
  }

  /** An illustration: the same role in the realm and in one client gives
      the authority twice, and nothing else. */
  lemma DuplicateRoleExample()
    ensures var roles := ClaimMap([("roles", ClaimList(["admin"]))]);
            var claims := map["realm_access" := roles, "resource_access" := ClaimMap([("catalogue", roles)])];
            GrantedAuthorities(claims) == ["ROLE_admin", "ROLE_admin"]
  {
    var roles := ClaimMap([("roles", ClaimList(["admin"]))]);
    var claims := map["realm_access" := roles, "resource_access" := ClaimMap([("catalogue", roles)])];
    assert Member(roles.entries, "roles") == Some(ClaimList(["admin"]));
    assert RealmRoles(claims) == ["admin"];
    var clients := claims["resource_access"].entries;
    assert Prefixed(["admin"]) == ["ROLE_admin"] by {
      assert RolePrefix + "admin" == "ROLE_admin";
    }
    assert RolesOf(clients[0].1) == ["admin"];
    assert ClientAuthorities(clients[1..]) == [];
    assert ClientAuthorities(clients) == ["ROLE_admin"];
  }
}
