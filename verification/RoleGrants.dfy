/**
 Role assignments for the managed identity of a policy assignment. Nothing records them: creation and
 deletion both derive their names from the assignment ID, the scope and the role definition.
 */
module RoleGrants {
  import opened Wrappers
  import opened ResourceId
  import opened Cloud

  datatype Permission = Permission(role: string, roleDefinitionId: string, scope: string)
  datatype IdentitySpec = IdentitySpec(kind: string, userAssignedId: string, location: string, permissions: seq<Permission>)

  /** Where a grant lives: the name is the hash of the three strings run together. */
  function GrantKey(env: Env, assignmentId: string, scope: string, roleId: string): Key {
    Key(scope, env.hash(assignmentId + scope + roleId))
  }

  /** The role definition a permission means, once resolved. */
  function RoleOf(env: Env, p: Permission): Option<string> {
    if p.roleDefinitionId != "" then Some(p.roleDefinitionId) else env.role(p.scope, p.role)
  }

  /** Resolving it: a call only when the ID is not given. */
  function Resolved(env: Env, az: Azure, p: Permission): Reply<Option<string>> {
    if p.roleDefinitionId != "" then Reply(az, Some(p.roleDefinitionId)) else LookupRole(env, az, p.scope, p.role)
  }

  function GrantAll(env: Env, az: Azure, assignmentId: string, principal: string, perms: seq<Permission>): Reply<bool>
    decreases |perms|
  {
    if perms == [] then Reply(az, true)
    else if perms[0].roleDefinitionId == "" && perms[0].role == "" then Reply(az, false)
    else
      var role := Resolved(env, az, perms[0]);
      if role.value.None? then Reply(role.az, false)
      else
        var g := UpsertGrant(env, role.az, GrantKey(env, assignmentId, perms[0].scope, role.value.value),
                             Grant(principal, role.value.value));
        if g.value then GrantAll(env, g.az, assignmentId, principal, perms[1..]) else g
  }

  /** reconcileRoleAssignments: nothing to do without an identity, permissions or a principal. */
  function Granted(env: Env, az: Azure, assignmentId: string, principal: string, identity: Option<IdentitySpec>): Reply<bool> {
    if identity.None? || identity.value.permissions == [] || principal == "" then Reply(az, true)
    else GrantAll(env, az, assignmentId, principal, identity.value.permissions)
  }

  function RevokeAll(env: Env, az: Azure, assignmentId: string, perms: seq<Permission>): Reply<bool>
    decreases |perms|
  {
    if perms == [] then Reply(az, true)
    else
      var role := Resolved(env, az, perms[0]);
      if role.value.None? then Reply(role.az, false)
      else
        var g := RemoveGrant(env, role.az, GrantKey(env, assignmentId, perms[0].scope, role.value.value));
        if g.value then RevokeAll(env, g.az, assignmentId, perms[1..]) else g
  }

  function Permissions(identity: Option<IdentitySpec>): seq<Permission> {
    if identity.None? then [] else identity.value.permissions
  }

  class Granter {
    const client: Client

    constructor (client: Client)
      ensures this.client == client
    {
      this.client := client;
    }

    method ReconcileRoleAssignments(assignmentId: string, principal: string, identity: Option<IdentitySpec>)
      returns (ok: bool)
      modifies client
      ensures Reply(client.az, ok) == Granted(client.env, old(client.az), assignmentId, principal, identity)
    {
      if identity.None? || |identity.value.permissions| == 0 || principal == "" {
        return true;
      }
      var perms := identity.value.permissions;
      assert perms[0..] == perms;
      for i := 0 to |perms|
        invariant GrantAll(client.env, old(client.az), assignmentId, principal, perms)
               == GrantAll(client.env, client.az, assignmentId, principal, perms[i..])
      {
        assert perms[i..][1..] == perms[i + 1..];
        var roleDefinitionId := perms[i].roleDefinitionId;
        if roleDefinitionId == "" {
          if perms[i].role == "" {
            return false;
          }
          var resolved := client.ResolveRole(perms[i].scope, perms[i].role);
          if resolved.None? {
            return false;
          }
          roleDefinitionId := resolved.value;
        }
        ok := client.CreateGrant(GrantKey(client.env, assignmentId, perms[i].scope, roleDefinitionId),
                                 Grant(principal, roleDefinitionId));
        if !ok {
          return;
        }
      }
      return true;
    }

    /** The role part of deletion. */
    method DeleteRoleAssignments(assignmentId: string, identity: Option<IdentitySpec>) returns (ok: bool)
      modifies client
      ensures Reply(client.az, ok) == RevokeAll(client.env, old(client.az), assignmentId, Permissions(identity))
    {
      var perms := Permissions(identity);
      assert perms[0..] == perms;
      for i := 0 to |perms|
        invariant RevokeAll(client.env, old(client.az), assignmentId, perms)
               == RevokeAll(client.env, client.az, assignmentId, perms[i..])
      {
        assert perms[i..][1..] == perms[i + 1..];
        var roleDefinitionId := perms[i].roleDefinitionId;
        if roleDefinitionId == "" {
          var resolved := client.ResolveRole(perms[i].scope, perms[i].role);
          if resolved.None? {
            return false;
          }
          roleDefinitionId := resolved.value;
        }
        ok := client.DeleteGrant(GrantKey(client.env, assignmentId, perms[i].scope, roleDefinitionId));
        if !ok {
          return;
        }
      }
      return true;
    }
  }

  // ---- creation and deletion meet ------------------------------------------------------------------

  /** The keys a list of permissions stands for. */
  function GrantKeys(env: Env, assignmentId: string, perms: seq<Permission>): set<Key> {
    set p | p in perms && RoleOf(env, p).Some? :: GrantKey(env, assignmentId, p.scope, RoleOf(env, p).value)
  }

  lemma {:induction false} GrantKeysCons(env: Env, assignmentId: string, perms: seq<Permission>)
    requires perms != []
    ensures GrantKeys(env, assignmentId, perms)
         == GrantKeys(env, assignmentId, [perms[0]]) + GrantKeys(env, assignmentId, perms[1..])
  {
    assert perms == [perms[0]] + perms[1..];
  }

  /** Every key holds a grant to the principal of the very role the key was derived from. */
  predicate Proper(env: Env, assignmentId: string, principal: string, grants: map<Key, Grant>, keys: set<Key>) {
    && keys <= grants.Keys
    && forall k :: k in keys ==>
         grants[k].principal == principal && k == GrantKey(env, assignmentId, k.scope, grants[k].roleDefinitionId)
  }

  /** Only the grants, the call count and the log may have changed. */
  predicate GrantsOnly(a: Azure, b: Azure) {
    b.assignments == a.assignments && b.exemptions == a.exemptions && b.minted == a.minted
  }

  /** Calls appended since, all of them about grants. */
  predicate GrantCalls(before: seq<Call>, after: seq<Call>) {
    |before| <= |after| && after[..|before|] == before
    && forall i :: |before| <= i < |after| ==> after[i].PutGrant? || after[i].DropGrant?
  }

  lemma {:induction false} GrantCallsTransitive(a: seq<Call>, b: seq<Call>, c: seq<Call>)
    requires GrantCalls(a, b) && GrantCalls(b, c)
    ensures GrantCalls(a, c)
  {
    assert c[..|a|] == c[..|b|][..|a|];
    forall i | |a| <= i < |c|
      ensures c[i].PutGrant? || c[i].DropGrant?
    {
      if i < |b| {
        assert c[i] == c[..|b|][i];
      }
    }
  }

  /** Grants added or replaced under `keys` only, none removed, and nothing else touched. */
  predicate GrantFrame(az: Azure, az2: Azure, keys: set<Key>) {
    && GrantsOnly(az, az2) && GrantCalls(az.log, az2.log)
    && az2.grants - keys == az.grants - keys
    && az.grants.Keys <= az2.grants.Keys
  }

  lemma {:induction false} GrantAllEffect(env: Env, az: Azure, assignmentId: string, principal: string, perms: seq<Permission>)
    ensures var r := GrantAll(env, az, assignmentId, principal, perms);
            var keys := GrantKeys(env, assignmentId, perms);
            GrantFrame(az, r.az, keys) && (r.value ==> Proper(env, assignmentId, principal, r.az.grants, keys))
    decreases |perms|
  {
    if perms != [] && !(perms[0].roleDefinitionId == "" && perms[0].role == "") {
      GrantKeysCons(env, assignmentId, perms);
      var role := Resolved(env, az, perms[0]);
      if role.value.Some? {
        var k := GrantKey(env, assignmentId, perms[0].scope, role.value.value);
        assert GrantKeys(env, assignmentId, [perms[0]]) == {k};
        FirstGrant(env, az, assignmentId, principal, perms[0]);
        var g := UpsertGrant(env, role.az, k, Grant(principal, role.value.value));
        if g.value {
          GrantAllEffect(env, g.az, assignmentId, principal, perms[1..]);
          GrantsThen(env, assignmentId, principal, az, g.az, GrantAll(env, g.az, assignmentId, principal, perms[1..]),
                     k, GrantKeys(env, assignmentId, perms[1..]));
        } else {
          GrantFrameWider(az, g.az, k, GrantKeys(env, assignmentId, perms));
        }
      }
    }
  }

  lemma {:induction false} FirstGrant(env: Env, az: Azure, assignmentId: string, principal: string, p: Permission)
    requires Resolved(env, az, p).value.Some?
    ensures var role := Resolved(env, az, p);
            var k := GrantKey(env, assignmentId, p.scope, role.value.value);
            var g := UpsertGrant(env, role.az, k, Grant(principal, role.value.value));
            && GrantFrame(az, g.az, {k})
            && (g.value ==> Proper(env, assignmentId, principal, g.az.grants, {k}))
  {
  }

  lemma {:induction false} GrantFrameWider(a: Azure, b: Azure, k: Key, keys: set<Key>)
    requires GrantFrame(a, b, {k}) && k in keys
    ensures GrantFrame(a, b, keys)
  {
    assert b.grants - keys == (b.grants - {k}) - keys;
    assert a.grants - keys == (a.grants - {k}) - keys;
  }

  lemma {:induction false} GrantsThen(env: Env, assignmentId: string, principal: string, a: Azure, b: Azure, r: Reply<bool>, k: Key, rest: set<Key>)
    requires GrantFrame(a, b, {k}) && Proper(env, assignmentId, principal, b.grants, {k})
    requires GrantFrame(b, r.az, rest) && (r.value ==> Proper(env, assignmentId, principal, r.az.grants, rest))
    ensures GrantFrame(a, r.az, {k} + rest)
    ensures r.value ==> Proper(env, assignmentId, principal, r.az.grants, {k} + rest)
  {
    GrantCallsTransitive(a.log, b.log, r.az.log);
    var c := r.az.grants;
    assert c - ({k} + rest) == (c - rest) - {k};
    assert a.grants - ({k} + rest) == (b.grants - {k}) - rest;
    assert (b.grants - rest) - {k} == (b.grants - {k}) - rest;
    if k !in rest {
      assert k in b.grants - rest && k in c - rest && (b.grants - rest)[k] == (c - rest)[k];
    }
  }

  lemma {:induction false} RevokeAllEffect(env: Env, az: Azure, assignmentId: string, perms: seq<Permission>)
    ensures var r := RevokeAll(env, az, assignmentId, perms);
            var keys := GrantKeys(env, assignmentId, perms);
            && GrantsOnly(az, r.az) && GrantCalls(az.log, r.az.log)
            && r.az.grants - keys == az.grants - keys
            && r.az.grants.Keys <= az.grants.Keys
            && (r.value ==> r.az.grants == az.grants - keys)
    decreases |perms|
  {
    if perms != [] {
      GrantKeysCons(env, assignmentId, perms);
      var role := Resolved(env, az, perms[0]);
      if role.value.Some? {
        var k := GrantKey(env, assignmentId, perms[0].scope, role.value.value);
        assert GrantKeys(env, assignmentId, [perms[0]]) == {k};
        var g := RemoveGrant(env, role.az, k);
        if g.value {
          RevokeAllEffect(env, g.az, assignmentId, perms[1..]);
          var r := RevokeAll(env, g.az, assignmentId, perms[1..]);
          GrantCallsTransitive(az.log, g.az.log, r.az.log);
          RevokeStep(az.grants, r.az.grants, k, GrantKeys(env, assignmentId, perms[1..]), r.value);
        }
      }
    }
  }

  lemma {:induction false} RevokeStep(a: map<Key, Grant>, c: map<Key, Grant>, k: Key, rest: set<Key>, ok: bool)
    requires c - rest == (a - {k}) - rest && c.Keys <= (a - {k}).Keys
    requires ok ==> c == (a - {k}) - rest
    ensures c - ({k} + rest) == a - ({k} + rest) && c.Keys <= a.Keys
    ensures ok ==> c == a - ({k} + rest)
  {
    assert c - ({k} + rest) == (c - rest) - {k};
    assert a - ({k} + rest) == ((a - {k}) - rest) - {k};
  }

  /** Every permission names a role, by ID or by a name that resolves. */
  predicate Resolvable(env: Env, perms: seq<Permission>) {
    forall p :: p in perms ==> (p.roleDefinitionId != "" || p.role != "") && RoleOf(env, p).Some?
  }

  predicate Findable(env: Env, perms: seq<Permission>) {
    forall p :: p in perms ==> RoleOf(env, p).Some?
  }

  lemma {:induction false} GrantAllExactly(env: Env, az: Azure, assignmentId: string, principal: string, perms: seq<Permission>)
    requires AllGo(env, az.calls)
    ensures GrantAll(env, az, assignmentId, principal, perms).value <==> Resolvable(env, perms)
    decreases |perms|
  {
    if perms != [] {
      assert perms == [perms[0]] + perms[1..];
      var role := Resolved(env, az, perms[0]);
      if role.value.Some? && (perms[0].roleDefinitionId != "" || perms[0].role != "") {
        var g := UpsertGrant(env, role.az, GrantKey(env, assignmentId, perms[0].scope, role.value.value),
                             Grant(principal, role.value.value));
        GrantAllExactly(env, g.az, assignmentId, principal, perms[1..]);
      } else {
        assert perms[0] in perms;
      }
    }
  }

  /**
   Creation, every call going through: it succeeds exactly when there is nothing to grant, for want of a principal
   or of permissions, or every permission names a role that can be found; and with nothing to grant it makes no call.
   */
  lemma {:induction false} GrantedExactly(env: Env, az: Azure, assignmentId: string, principal: string, identity: Option<IdentitySpec>)
    requires AllGo(env, az.calls)
    ensures var g := Granted(env, az, assignmentId, principal, identity);
            && (g.value <==> principal == "" || Resolvable(env, Permissions(identity)))
            && (principal == "" || Permissions(identity) == [] ==> g.az == az)
  {
    GrantAllExactly(env, az, assignmentId, principal, Permissions(identity));
  }

  /** Deletion, every call going through: it succeeds exactly when every permission's role can be found. */
  lemma {:induction false} RevokedExactly(env: Env, az: Azure, assignmentId: string, perms: seq<Permission>)
    requires AllGo(env, az.calls)
    ensures RevokeAll(env, az, assignmentId, perms).value <==> Findable(env, perms)
    decreases |perms|
  {
    if perms != [] {
      assert perms == [perms[0]] + perms[1..];
      var role := Resolved(env, az, perms[0]);
      if role.value.Some? {
        var g := RemoveGrant(env, role.az, GrantKey(env, assignmentId, perms[0].scope, role.value.value));
        RevokedExactly(env, g.az, assignmentId, perms[1..]);
      } else {
        assert perms[0] in perms;
      }
    }
  }

  /** The keys of a list of permissions, in order; those of roles that cannot be found are missing. */
  function KeysInOrder(env: Env, assignmentId: string, perms: seq<Permission>): seq<Key> {
    if perms == [] then []
    else
      (match RoleOf(env, perms[0]) case None => [] case Some(role) => [GrantKey(env, assignmentId, perms[0].scope, role)])
      + KeysInOrder(env, assignmentId, perms[1..])
  }

  function Puts(keys: seq<Key>): seq<Call> {
    seq(|keys|, i requires 0 <= i < |keys| => PutGrant(keys[i]))
  }

  function Drops(keys: seq<Key>): seq<Call> {
    seq(|keys|, i requires 0 <= i < |keys| => DropGrant(keys[i]))
  }

  /** What each attempt does, whatever fails: it grants the first `n` permissions in order, and succeeds exactly when these are all. */
  lemma {:induction false} GrantsInOrder(env: Env, az: Azure, assignmentId: string, principal: string, perms: seq<Permission>) returns (n: nat)
    ensures var r := GrantAll(env, az, assignmentId, principal, perms);
            && n <= |perms| && (r.value <==> n == |perms|) && Resolvable(env, perms[..n])
            && r.az.log == az.log + Puts(KeysInOrder(env, assignmentId, perms[..n]))
    decreases |perms|
  {
    if perms != [] && !(perms[0].roleDefinitionId == "" && perms[0].role == "") {
      var role := Resolved(env, az, perms[0]);
      if role.value.Some? {
        var k := GrantKey(env, assignmentId, perms[0].scope, role.value.value);
        var g := UpsertGrant(env, role.az, k, Grant(principal, role.value.value));
        if g.value {
          var m := GrantsInOrder(env, g.az, assignmentId, principal, perms[1..]);
          FirstOf(env, assignmentId, perms, m + 1, k);
          Onward(az.log, PutGrant(k), Puts(KeysInOrder(env, assignmentId, perms[1..][..m])));
          return m + 1;
        }
      }
    }
    assert perms[..0] == [] && az.log + [] == az.log;
    n := 0;
  }

  lemma {:induction false} FirstOf(env: Env, assignmentId: string, perms: seq<Permission>, n: nat, k: Key)
    requires 1 <= n <= |perms| && RoleOf(env, perms[0]).Some? && k == GrantKey(env, assignmentId, perms[0].scope, RoleOf(env, perms[0]).value)
    ensures var rest := KeysInOrder(env, assignmentId, perms[1..][..n - 1]);
            && Puts(KeysInOrder(env, assignmentId, perms[..n])) == [PutGrant(k)] + Puts(rest)
            && Drops(KeysInOrder(env, assignmentId, perms[..n])) == [DropGrant(k)] + Drops(rest)
    ensures forall p :: p in perms[..n] ==> p == perms[0] || p in perms[1..][..n - 1]
  {
    assert perms[..n] == [perms[0]] + perms[1..][..n - 1];
    assert perms[..n][1..] == perms[1..][..n - 1];
  }

  /** The same for revoking. */
  lemma {:induction false} RevokesInOrder(env: Env, az: Azure, assignmentId: string, perms: seq<Permission>) returns (n: nat)
    ensures var r := RevokeAll(env, az, assignmentId, perms);
            && n <= |perms| && (r.value <==> n == |perms|) && Findable(env, perms[..n])
            && r.az.log == az.log + Drops(KeysInOrder(env, assignmentId, perms[..n]))
    decreases |perms|
  {
    if perms != [] {
      var role := Resolved(env, az, perms[0]);
      if role.value.Some? {
        var k := GrantKey(env, assignmentId, perms[0].scope, role.value.value);
        var g := RemoveGrant(env, role.az, k);
        if g.value {
          var m := RevokesInOrder(env, g.az, assignmentId, perms[1..]);
          FirstOf(env, assignmentId, perms, m + 1, k);
          Onward(az.log, DropGrant(k), Drops(KeysInOrder(env, assignmentId, perms[1..][..m])));
          return m + 1;
        }
      }
    }
    assert perms[..0] == [] && az.log + [] == az.log;
    n := 0;
  }

  /**
   Grants round-trip without bookkeeping. Creation touches derived keys only; a later deletion under the same
   assignment ID removes exactly the derived keys, whatever has happened in between; so if the other keys are
   then as creation left them, and none of the derived ones was taken before, everything is as it was found.
   */
  lemma {:induction false} GrantRevokeRoundTrip(env: Env, az: Azure, assignmentId: string, principal: string, identity: Option<IdentitySpec>,
                             later: Azure)
    requires RevokeAll(env, later, assignmentId, Permissions(identity)).value
    ensures var keys := GrantKeys(env, assignmentId, Permissions(identity));
            var granted := Granted(env, az, assignmentId, principal, identity);
            var revoked := RevokeAll(env, later, assignmentId, Permissions(identity)).az.grants;
            && granted.az.grants - keys == az.grants - keys
            && (granted.value && principal != "" ==> Proper(env, assignmentId, principal, granted.az.grants, keys))
            && revoked == later.grants - keys
            && (later.grants - keys == granted.az.grants - keys ==> revoked == az.grants - keys)
            && (later.grants - keys == granted.az.grants - keys && keys !! az.grants.Keys ==> revoked == az.grants)
  {
    GrantAllEffect(env, az, assignmentId, principal, Permissions(identity));
    RevokeAllEffect(env, later, assignmentId, Permissions(identity));
  }

  /**
   The hashed text has no separators, yet two different (scope, role) pairs of one assignment share a
   key only when two different texts hash alike.
   */
  lemma {:induction false} SharedKeyIsCollision(env: Env, assignmentId: string, scope1: string, role1: string, scope2: string, role2: string)
    requires (scope1, role1) != (scope2, role2)
    requires GrantKey(env, assignmentId, scope1, role1) == GrantKey(env, assignmentId, scope2, role2)
    ensures assignmentId + scope1 + role1 != assignmentId + scope2 + role2
    ensures env.hash(assignmentId + scope1 + role1) == env.hash(assignmentId + scope2 + role2)
  {
    SuffixesDiffer(assignmentId + scope1, role1, role2);
  }

  lemma {:induction false} SuffixesDiffer(prefix: string, a: string, b: string)
    requires a != b
    ensures prefix + a != prefix + b
  {
    assert (prefix + a)[|prefix|..] == a && (prefix + b)[|prefix|..] == b;
  }

  lemma {:induction false} PrefixesDiffer(a: string, b: string, s: string, t: string)
    requires |a| == |b| && a != b
    ensures a + s != b + t
  {
    assert (a + s)[..|a|] == a && (b + t)[..|b|] == b;
  }

  /** The text a permission's grant name is hashed from. */
  function HashedText(env: Env, assignmentId: string, p: Permission): string
    requires RoleOf(env, p).Some?
  {
    assignmentId + p.scope + RoleOf(env, p).value
  }

  /** Two of these permissions, at one scope, whose different texts under the two IDs hash alike. */
  predicate Collides(env: Env, granted: string, other: string, perms: seq<Permission>) {
    exists p, q :: p in perms && q in perms && RoleOf(env, p).Some? && RoleOf(env, q).Some? && p.scope == q.scope
      && HashedText(env, granted, p) != HashedText(env, other, q)
      && env.hash(HashedText(env, granted, p)) == env.hash(HashedText(env, other, q))
  }

  /**
   Deleting under an ID that differs from the one granted under, even only in letter case: a key is shared
   only where two of the permissions at hand collide.
   */
  lemma {:induction false} OtherIdMissesGrants(env: Env, granted: string, other: string, perms: seq<Permission>, k: Key)
    requires |granted| == |other| && granted != other
    requires k in GrantKeys(env, granted, perms) && k in GrantKeys(env, other, perms)
    ensures Collides(env, granted, other, perms)
  {
    var p :| p in perms && RoleOf(env, p).Some? && k == GrantKey(env, granted, p.scope, RoleOf(env, p).value);
    var q :| q in perms && RoleOf(env, q).Some? && k == GrantKey(env, other, q.scope, RoleOf(env, q).value);
    assert HashedText(env, granted, p) == granted + (p.scope + RoleOf(env, p).value);
    assert HashedText(env, other, q) == other + (q.scope + RoleOf(env, q).value);
    PrefixesDiffer(granted, other, p.scope + RoleOf(env, p).value, q.scope + RoleOf(env, q).value);
  }

  /**
   What deletion under `other` does to the grants made under `granted`, the two being equal but for letter
   case and collisions aside: it removes them exactly when the two IDs are the same, and else none of them.
   */
  lemma {:induction false} GrantsReachedExactly(env: Env, az: Azure, granted: string, other: string, perms: seq<Permission>)
    requires |granted| == |other| && (other == granted || !Collides(env, granted, other, perms))
    requires GrantKeys(env, granted, perms) != {} && GrantKeys(env, granted, perms) <= az.grants.Keys
    requires RevokeAll(env, az, other, perms).value
    ensures var after := RevokeAll(env, az, other, perms).az.grants;
            && (GrantKeys(env, granted, perms) !! after.Keys <==> other == granted)
            && (other != granted ==> forall k :: k in GrantKeys(env, granted, perms) ==> k in after && after[k] == az.grants[k])
  {
    RevokeAllEffect(env, az, other, perms);
    if other != granted {
      forall k | k in GrantKeys(env, granted, perms)
        ensures k !in GrantKeys(env, other, perms)
      {
        if k in GrantKeys(env, other, perms) {
          OtherIdMissesGrants(env, granted, other, perms, k);
        }
      }
    }
  }
}
