/** Laws of the assignment service: ordered and retry-safe deletion, and writes that read back as written. */
module AssignmentLaws {
  import opened Wrappers
  import opened Text
  import opened ResourceId
  import opened Resource
  import opened Payload
  import opened Cloud
  import opened InlineExemptions
  import opened ExemptionPasses
  import opened RoleGrants
  import opened Drift
  import opened AssignmentService
  import ExemptionService

  // ---- deletion ----------------------------------------------------------------------------------

  /** Everything one assignment's deletion is about. */
  datatype Target = Target(scope: string, id: string, tracked: seq<Tracked>, identity: Option<IdentitySpec>)

  function Delete(env: Env, az: Azure, t: Target): Reply<bool> {
    Deleted(env, az, t.scope, t.id, t.tracked, t.identity)
  }

  function AssignmentKey(t: Target): Key {
    Key(t.scope, LastSegment(t.id))
  }

  function Roles(env: Env, t: Target): set<Key> {
    GrantKeys(env, t.id, Permissions(t.identity))
  }

  /** Azure with all of the target gone and everything else as it was. */
  predicate Cleared(env: Env, az: Azure, t: Target, az2: Azure) {
    && az2.exemptions == az.exemptions - Places(t.tracked)
    && az2.grants == az.grants - Roles(env, t)
    && az2.assignments == az.assignments - {AssignmentKey(t)}
  }

  /** Azure with at most the target gone. */
  predicate Within(env: Env, az: Azure, t: Target, az2: Azure) {
    && az2.exemptions - Places(t.tracked) == az.exemptions - Places(t.tracked)
    && az2.exemptions.Keys <= az.exemptions.Keys
    && az2.grants - Roles(env, t) == az.grants - Roles(env, t)
    && az2.grants.Keys <= az.grants.Keys
    && az2.assignments - {AssignmentKey(t)} == az.assignments - {AssignmentKey(t)}
    && az2.assignments.Keys <= az.assignments.Keys
    && az2.minted == az.minted
  }

  predicate AboutAssignments(c: Call) {
    c.PutAssignment? || c.DropAssignment? || c.ReadAssignment?
  }

  /** Only exemption and grant deletes, so far. */
  predicate NoAssignmentDropped(before: seq<Call>, after: seq<Call>) {
    && LogExtends(before, after)
    && forall i :: |before| <= i < |after| ==> !AboutAssignments(after[i]) && !after[i].PutExemption?
  }

  /** Only tracked places are hit by the exemption deletes of the attempt. */
  predicate DropsWithin(before: seq<Call>, after: seq<Call>, keys: set<Key>) {
    LogExtends(before, after) && forall i :: |before| <= i < |after| && after[i].DropExemption? ==> after[i].key in keys
  }

  lemma {:induction false} DropAllListed(env: Env, az: Azure, tracked: seq<Tracked>)
    ensures var d := DropAll(env, az, {}, tracked);
            && DropFrame(az, d.az, Places(tracked)) && NoAssignmentDropped(az.log, d.az.log)
            && (d.value ==> d.az.exemptions == az.exemptions - Places(tracked))
  {
    DropAllEffect(env, az, {}, tracked);
    assert Gone(tracked, {}) == Places(tracked);
  }

  lemma {:induction false} NoDropTransitive(a: seq<Call>, b: seq<Call>, c: seq<Call>)
    requires NoAssignmentDropped(a, b) && GrantCalls(b, c)
    ensures NoAssignmentDropped(a, c)
  {
    assert c[..|a|] == c[..|b|][..|a|];
    forall i | |a| <= i < |c|
      ensures !AboutAssignments(c[i]) && !c[i].PutExemption?
    {
      if i < |b| {
        assert c[i] == c[..|b|][i];
      }
    }
  }

  lemma {:induction false} DropsThenGrants(a: seq<Call>, b: seq<Call>, c: seq<Call>, keys: set<Key>)
    requires DropsOnly(a, b, keys) && GrantCalls(b, c)
    ensures DropsWithin(a, c, keys)
  {
    assert c[..|a|] == c[..|b|][..|a|];
    forall i | |a| <= i < |c| && c[i].DropExemption?
      ensures c[i].key in keys
    {
      assert i < |b| && c[i] == c[..|b|][i];
    }
  }

  /** The state before the last call of a deletion: exemptions and roles processed, assignment untouched. */
  ghost predicate BeforeLast(env: Env, az: Azure, t: Target, az2: Azure, complete: bool) {
    && az2.exemptions - Places(t.tracked) == az.exemptions - Places(t.tracked)
    && az2.exemptions.Keys <= az.exemptions.Keys
    && az2.grants - Roles(env, t) == az.grants - Roles(env, t)
    && az2.grants.Keys <= az.grants.Keys
    && az2.assignments == az.assignments && az2.minted == az.minted
    && NoAssignmentDropped(az.log, az2.log) && DropsWithin(az.log, az2.log, Places(t.tracked))
    && (complete ==> az2.exemptions == az.exemptions - Places(t.tracked) && az2.grants == az.grants - Roles(env, t))
  }

  lemma {:induction false} DeletePhases(env: Env, az: Azure, t: Target) returns (az2: Azure, complete: bool)
    ensures BeforeLast(env, az, t, az2, complete)
    ensures Delete(env, az, t) == if complete then RemoveAssignment(env, az2, AssignmentKey(t)) else Reply(az2, false)
  {
    var d := DropAll(env, az, {}, t.tracked);
    DropAllListed(env, az, t.tracked);
    if d.value {
      var r := RevokeAll(env, d.az, t.id, Permissions(t.identity));
      RevokeAllEffect(env, d.az, t.id, Permissions(t.identity));
      NoDropTransitive(az.log, d.az.log, r.az.log);
      DropsThenGrants(az.log, d.az.log, r.az.log, Places(t.tracked));
      az2, complete := r.az, r.value;
    } else {
      az2, complete := d.az, false;
    }
  }

  /**
   One attempt, interrupted or not: it stays within its target; it reports success exactly when the
   assignment delete went through, which is its last call and comes only once every tracked exemption
   and derived role assignment is gone.
   */
  lemma {:induction false} DeleteOrdered(env: Env, az: Azure, t: Target)
    ensures var r := Delete(env, az, t);
            && Within(env, az, t, r.az)
            && (r.value ==> Cleared(env, az, t, r.az))
            && (!r.value ==> r.az.assignments == az.assignments && NoAssignmentDropped(az.log, r.az.log))
            && (r.value ==> |r.az.log| > |az.log| && r.az.log[|r.az.log| - 1] == DropAssignment(AssignmentKey(t))
                            && NoAssignmentDropped(az.log, r.az.log[..|r.az.log| - 1]))
            && DropsWithin(az.log, r.az.log, Places(t.tracked))
  {
    var az2, complete := DeletePhases(env, az, t);
    if complete {
      LastCall(env, az, t, az2);
    }
  }

  lemma {:induction false} LastCall(env: Env, az: Azure, t: Target, az2: Azure)
    requires BeforeLast(env, az, t, az2, true)
    ensures var r := RemoveAssignment(env, az2, AssignmentKey(t));
            && Within(env, az, t, r.az)
            && (r.value ==> Cleared(env, az, t, r.az))
            && (!r.value ==> r.az.assignments == az.assignments && NoAssignmentDropped(az.log, r.az.log))
            && (r.value ==> |r.az.log| > |az.log| && r.az.log[|r.az.log| - 1] == DropAssignment(AssignmentKey(t))
                            && NoAssignmentDropped(az.log, r.az.log[..|r.az.log| - 1]))
            && DropsWithin(az.log, r.az.log, Places(t.tracked))
  {
    var r := RemoveAssignment(env, az2, AssignmentKey(t));
    if r.value {
      assert r.az.log == az2.log + [DropAssignment(AssignmentKey(t))];
      assert r.az.log[..|az2.log|] == az2.log;
      assert r.az.log[..|az.log|] == az2.log[..|az.log|];
    }
  }

  /**
   The first call of a deletion goes through, and if that only looks up a role (nothing is tracked, and the first
   permission names its role), the role is found and the second call goes through as well.
   */
  predicate DeletionStarts(env: Env, az: Azure, t: Target) {
    var perms := Permissions(t.identity);
    && !env.fails(az.calls)
    && (t.tracked == [] && perms != [] && perms[0].roleDefinitionId == "" ==>
          env.role(perms[0].scope, perms[0].role).Some? && !env.fails(az.calls + 1))
  }

  lemma {:induction false} DropsStart(env: Env, az: Azure, tracked: seq<Tracked>)
    requires tracked != []
    ensures var d := DropAll(env, az, {}, tracked);
            if env.fails(az.calls) then !d.value && d.az.log == az.log else |d.az.log| > |az.log|
  {
    var r := ExemptionService.Removed(env, az, tracked[0].scope, tracked[0].exemptionId);
    if r.value {
      DropAllEffect(env, r.az, {}, tracked[1..]);
    }
  }

  lemma {:induction false} RevokesStart(env: Env, az: Azure, id: string, perms: seq<Permission>)
    requires perms != []
    ensures var r := RevokeAll(env, az, id, perms);
            var starts := if perms[0].roleDefinitionId != "" then !env.fails(az.calls)
                          else !env.fails(az.calls) && env.role(perms[0].scope, perms[0].role).Some? && !env.fails(az.calls + 1);
            if starts then |r.az.log| > |az.log| else !r.value && r.az.log == az.log
  {
    var role := Resolved(env, az, perms[0]);
    if role.value.Some? {
      var g := RemoveGrant(env, role.az, GrantKey(env, id, perms[0].scope, role.value.value));
      if g.value {
        RevokeAllEffect(env, g.az, id, perms[1..]);
      }
    }
  }

  lemma {:induction false} DropAllGoes(env: Env, az: Azure, desired: set<string>, previous: seq<Tracked>)
    requires AllGo(env, az.calls)
    ensures var d := DropAll(env, az, desired, previous); d.value && d.az.calls >= az.calls
    decreases |previous|
  {
    if previous != [] {
      if previous[0].displayName in desired {
        DropAllGoes(env, az, desired, previous[1..]);
      } else {
        DropAllGoes(env, ExemptionService.Removed(env, az, previous[0].scope, previous[0].exemptionId).az, desired, previous[1..]);
      }
    }
  }

  lemma {:induction false} RevokeAllCalls(env: Env, az: Azure, id: string, perms: seq<Permission>)
    ensures RevokeAll(env, az, id, perms).az.calls >= az.calls
    decreases |perms|
  {
    if perms != [] && Resolved(env, az, perms[0]).value.Some? {
      var role := Resolved(env, az, perms[0]);
      RevokeAllCalls(env, RemoveGrant(env, role.az, GrantKey(env, id, perms[0].scope, role.value.value)).az, id, perms[1..]);
    }
  }

  /** With every call going through, deletion succeeds exactly when the roles of all permissions can be found. */
  lemma {:induction false} DeletionGoesExactly(env: Env, az: Azure, t: Target)
    requires AllGo(env, az.calls)
    ensures Delete(env, az, t).value <==> Findable(env, Permissions(t.identity))
  {
    DropAllGoes(env, az, {}, t.tracked);
    var d := DropAll(env, az, {}, t.tracked);
    RevokedExactly(env, d.az, t.id, Permissions(t.identity));
    RevokeAllCalls(env, d.az, t.id, Permissions(t.identity));
  }

  /** Whether an attempt at deletion changes anything can be told before it. */
  lemma {:induction false} DeletionStartsExactly(env: Env, az: Azure, t: Target)
    ensures DeletionStarts(env, az, t) <==> Delete(env, az, t).az.log != az.log
  {
    var perms := Permissions(t.identity);
    var d := DropAll(env, az, {}, t.tracked);
    if t.tracked != [] {
      DropsStart(env, az, t.tracked);
    }
    if d.value {
      var r := RevokeAll(env, d.az, t.id, perms);
      RevokeAllEffect(env, d.az, t.id, perms);
      if perms != [] {
        RevokesStart(env, d.az, t.id, perms);
      }
    }
  }

  lemma {:induction false} WithinTransitive(env: Env, a: Azure, t: Target, b: Azure, c: Azure)
    requires Within(env, a, t, b) && Within(env, b, t, c)
    ensures Within(env, a, t, c)
  {
  }

  lemma {:induction false} ClearedAfterWithin(env: Env, a: Azure, t: Target, b: Azure, c: Azure)
    requires Within(env, a, t, b) && Cleared(env, b, t, c)
    ensures Cleared(env, a, t, c)
  {
  }

  /** Any number of attempts, each interrupted anywhere or complete. */
  function Attempts(env: Env, az: Azure, t: Target, n: nat): Azure {
    if n == 0 then az else Delete(env, Attempts(env, az, t, n - 1), t).az
  }

  lemma {:induction false} AttemptsWithin(env: Env, az: Azure, t: Target, n: nat)
    ensures Within(env, az, t, Attempts(env, az, t, n))
  {
    if n > 0 {
      AttemptsWithin(env, az, t, n - 1);
      DeleteOrdered(env, Attempts(env, az, t, n - 1), t);
      WithinTransitive(env, az, t, Attempts(env, az, t, n - 1), Attempts(env, az, t, n));
    }
  }

  /** Deletion is retry-safe: after any attempts, one that succeeds leaves what a single complete one would. */
  lemma {:induction false} DeleteRetrySafe(env: Env, az: Azure, t: Target, n: nat)
    requires Delete(env, Attempts(env, az, t, n), t).value
    ensures Cleared(env, az, t, Delete(env, Attempts(env, az, t, n), t).az)
  {
    AttemptsWithin(env, az, t, n);
    var before := Attempts(env, az, t, n);
    DeleteOrdered(env, before, t);
    ClearedAfterWithin(env, az, t, before, Delete(env, before, t).az);
  }

  // ---- the write -----------------------------------------------------------------------------------

  /** Between `a` and `b` no call concerned assignments. */
  predicate Aside(a: Azure, b: Azure) {
    && b.assignments == a.assignments
    && LogExtends(a.log, b.log)
    && forall i :: |a.log| <= i < |b.log| ==> !AboutAssignments(b.log[i])
  }

  lemma {:induction false} AsideTransitive(a: Azure, b: Azure, c: Azure)
    requires Aside(a, b) && Aside(b, c)
    ensures Aside(a, c)
  {
    assert c.log[..|a.log|] == c.log[..|b.log|][..|a.log|];
    forall i | |a.log| <= i < |c.log|
      ensures !AboutAssignments(c.log[i])
    {
      if i < |b.log| {
        assert c.log[i] == c.log[..|b.log|][i];
      }
    }
  }

  lemma {:induction false} WriteAllAside(env: Env, az: Azure, assignmentId: string, existing: map<string, Tracked>,
                                         specs: seq<InlineSpec>)
    ensures Aside(az, WriteAll(env, az, assignmentId, existing, specs).az)
    decreases |specs|
  {
    if specs != [] {
      var r := ExemptionService.Upserted(env, az, PreviousId(existing, specs[0].displayName), Synthetic(specs[0], assignmentId));
      assert Aside(az, r.az);
      if r.value.Some? {
        WriteAllAside(env, r.az, assignmentId, existing, specs[1..]);
        AsideTransitive(az, r.az, WriteAll(env, r.az, assignmentId, existing, specs[1..]).az);
      }
    }
  }

  lemma {:induction false} PassAside(env: Env, az: Azure, assignmentId: string, specs: seq<InlineSpec>, status: seq<Tracked>)
    ensures Aside(az, Pass(env, az, assignmentId, specs, status).az)
  {
    WriteAllAside(env, az, assignmentId, Existing(status), specs);
    var w := WriteAll(env, az, assignmentId, Existing(status), specs);
    if w.value.Some? {
      DropAllEffect(env, w.az, DisplayNames(specs), status);
      AsideTransitive(az, w.az, DropAll(env, w.az, DisplayNames(specs), status).az);
    }
  }

  /** The phases after the write never concern assignments. */
  lemma {:induction false} AttachAside(env: Env, az: Azure, cr: AssignmentCR, x: Written)
    ensures Aside(az, Attach(env, az, cr, x).az)
  {
    var p := Pass(env, az, x.id, cr.spec.exemptions, cr.status.exemptions);
    PassAside(env, az, x.id, cr.spec.exemptions, cr.status.exemptions);
    if p.value.Some? {
      GrantAllEffect(env, p.az, x.id, x.principal, Permissions(cr.spec.identity));
      AsideTransitive(az, p.az, Granted(env, p.az, x.id, x.principal, cr.spec.identity).az);
    }
  }

  /** The write itself: what `Apply` returns as ID, and what it does to assignments and to the log. */
  lemma {:induction false} ApplyWrites(env: Env, az: Azure, cr: AssignmentCR, definitionId: string)
    ensures var a := Apply(env, az, cr, definitionId);
            if env.fails(az.calls) then
              a.id == a.location == a.principal == "" && a.exemptions.None? && !a.ok && Aside(az, a.az)
            else
              && a.id == AssignmentId(WriteKey(cr)) && a.location == env.location(az.calls)
              && a.az.assignments == az.assignments[WriteKey(cr) := BodyOf(cr, definitionId)]
              && exists az1 :: Aside(az1, a.az)
                   && az1.log == az.log + [PutAssignment(WriteKey(cr), BodyOf(cr, definitionId), a.location)]
  {
    var w := UpsertAssignment(env, az, WriteKey(cr), BodyOf(cr, definitionId));
    if w.value.Some? {
      AttachAside(env, w.az, cr, w.value.value);
      assert Aside(w.az, Apply(env, az, cr, definitionId).az);
    }
  }

  /**
   What a write carries of its spec, field by field; an empty text or list is not sent at all. Selectors survive
   exactly when every operator is a known one; messages read back as the default and the per-policy entries with a
   text, in order, each with its reference; an identity is sent exactly when one other than None is asked for, with
   the user-assigned one only under that kind; the location is the identity's, or without an identity the last one
   recorded.
   */
  lemma {:induction false} BodyCarries(cr: AssignmentCR, definitionId: string)
    ensures var body, spec := BodyOf(cr, definitionId), cr.spec;
            && body.displayName == spec.displayName && body.definitionId == definitionId
            && body.description.GetOr("") == spec.description && (body.description.Some? <==> spec.description != "")
            && body.notScopes.GetOr([]) == spec.notScopes && (body.notScopes.Some? <==> spec.notScopes != [])
            && body.enforcementMode.GetOr("") == spec.enforcementMode
            && (body.enforcementMode.Some? <==> spec.enforcementMode != "")
            && (Recovered(body.selectors) == spec.selectors <==> KnownOperators(spec.selectors))
            && (body.selectors.Some? <==> spec.selectors != [])
            && MessagesBack(body.messages.GetOr([]))
               == (match spec.messages case None => MessagesSpec("", []) case Some(m) => MessagesSpec(m.default, Spoken(m.perPolicy)))
            && (body.messages.Some? ==> body.messages.value != [])
            && (body.identity.Some? <==> spec.identity.Some? && spec.identity.value.kind != "None")
            && (body.identity.Some? ==>
                  && body.identity.value.kind == spec.identity.value.kind
                  && body.identity.value.userAssigned.GetOr("")
                     == (if spec.identity.value.kind == "UserAssigned" then spec.identity.value.userAssignedId else "")
                  && body.location.GetOr("") == spec.identity.value.location)
            && (body.identity.None? ==> body.location.GetOr("") == cr.status.location)
            && body.location != Some("")
  {
    TranslationLossless(cr.spec.selectors);
    MessagesRecovered(cr.spec.messages);
  }

  // ---- drift ---------------------------------------------------------------------------------------

  /**
   The drift of any live body against any spec, field by field and nothing else, no field twice: names and
   descriptions compared exactly, definitions up to letter case and only if one is given, excluded scopes as sets;
   what Azure does not report of description or enforcement mode is no drift.
   */
  lemma {:induction false} DriftExactly(live: Assignment, spec: AssignmentSpec, definitionId: string)
    ensures var drift := DriftFields(live, spec, definitionId);
            && ("displayName" in drift <==> live.displayName != spec.displayName)
            && ("description" in drift <==> live.description.Some? && live.description.value != spec.description)
            && ("policyDefinitionId" in drift <==> definitionId != "" && !EqualFold(live.definitionId, definitionId))
            && ("enforcementMode" in drift <==> live.enforcementMode.Some? && live.enforcementMode.value != spec.enforcementMode)
            && ("notScopes" in drift <==> Elements(live.notScopes.GetOr([])) != Elements(spec.notScopes))
            && (forall f :: f in drift ==> f in {"displayName", "description", "policyDefinitionId", "enforcementMode", "notScopes"})
            && NoRepeats(drift)
  {
    NotedFive(DriftFields(live, spec, definitionId),
              live.displayName != spec.displayName, "displayName",
              live.description.Some? && live.description.value != spec.description, "description",
              definitionId != "" && !EqualFold(live.definitionId, definitionId), "policyDefinitionId",
              live.enforcementMode.Some? && live.enforcementMode.value != spec.enforcementMode, "enforcementMode",
              Elements(live.notScopes.GetOr([])) != Elements(spec.notScopes), "notScopes");
  }

  lemma {:induction false} NotedFive(fields: seq<string>, b1: bool, f1: string, b2: bool, f2: string, b3: bool, f3: string,
                                     b4: bool, f4: string, b5: bool, f5: string)
    requires f1 != f2 && f1 != f3 && f1 != f4 && f1 != f5 && f2 != f3 && f2 != f4 && f2 != f5 && f3 != f4 && f3 != f5 && f4 != f5
    requires fields == (if b1 then [f1] else []) + (if b2 then [f2] else []) + (if b3 then [f3] else [])
                       + (if b4 then [f4] else []) + (if b5 then [f5] else [])
    ensures (f1 in fields <==> b1) && (f2 in fields <==> b2) && (f3 in fields <==> b3) && (f4 in fields <==> b4) && (f5 in fields <==> b5)
    ensures (forall f :: f in fields ==> f == f1 || f == f2 || f == f3 || f == f4 || f == f5) && NoRepeats(fields)
  {
    var one := Noted([], b1, f1);
    var two := Noted(one, b2, f2);
    var three := Noted(two, b3, f3);
    var four := Noted(three, b4, f4);
    NotedExactly([], b1, f1);
    NotedExactly(one, b2, f2);
    NotedExactly(two, b3, f3);
    NotedExactly(three, b4, f4);
    NotedExactly(four, b5, f5);
    assert one == if b1 then [f1] else [];
    assert fields == Noted(four, b5, f5);
  }

  /** Some field of the live body differs from the spec. */
  predicate Drifted(live: Assignment, spec: AssignmentSpec, definitionId: string) {
    || live.displayName != spec.displayName
    || (live.description.Some? && live.description.value != spec.description)
    || (definitionId != "" && !EqualFold(live.definitionId, definitionId))
    || (live.enforcementMode.Some? && live.enforcementMode.value != spec.enforcementMode)
    || Elements(live.notScopes.GetOr([])) != Elements(spec.notScopes)
  }

  /**
   Import of any ID: it succeeds exactly when the ID names an assignment, is readable, the call goes through and the
   assignment is there; it then gives the location and principal Azure reports, and drift exactly when the reported
   body, in which an unset enforcement mode is the default one, differs.
   */
  lemma {:induction false} ImportExactly(env: Env, az: Azure, id: string, spec: AssignmentSpec, definitionId: string)
    ensures var r, key := Import(env, az, id, spec, definitionId).value, KeyOfAssignmentId(id);
            && (r.Some? <==> NamesKind(FOLDED_ASSIGNMENTS, id) && key.Some? && key.value in az.assignments && !env.fails(az.calls))
            && (r.Some? ==>
                  && r.value.location == env.location(az.calls) && r.value.principal == env.principal(az.calls)
                  && (r.value.drift != [] <==> Drifted(Reported(az.assignments[key.value]), spec, definitionId)))
  {
  }

  /** What a spec looks like when Azure reports it back: drift in nothing but an unset enforcement mode. */
  lemma {:induction false} BodyReportsAsWritten(cr: AssignmentCR, definitionId: string)
    ensures DriftFields(Reported(BodyOf(cr, definitionId)), cr.spec, definitionId)
         == if cr.spec.enforcementMode == "" then ["enforcementMode"] else []
  {
    var live := Reported(BodyOf(cr, definitionId));
    assert live.notScopes.GetOr([]) == cr.spec.notScopes;
  }

  /**
   Write, then observe: importing the ID a write returned, under the same spec, reports drift exactly
   when the spec left the enforcement mode empty (Azure then reports its default).
   */
  lemma {:induction false} WriteThenObserve(env: Env, az: Azure, cr: AssignmentCR, definitionId: string)
    requires NoSlash(WriteName(cr)) && Apply(env, az, cr, definitionId).id != ""
    requires var a := Apply(env, az, cr, definitionId); !env.fails(a.az.calls)
    ensures var a := Apply(env, az, cr, definitionId);
            var seen := Import(env, a.az, a.id, cr.spec, definitionId);
            && seen.value.Some?
            && (seen.value.value.drift == [] <==> cr.spec.enforcementMode != "")
  {
    ApplyWrites(env, az, cr, definitionId);
    ReadBack(env, Apply(env, az, cr, definitionId).az, WriteKey(cr), cr, definitionId);
  }

  lemma {:induction false} ReadBack(env: Env, az: Azure, key: Key, cr: AssignmentCR, definitionId: string)
    requires NoSlash(key.name) && !env.fails(az.calls)
    requires key in az.assignments && az.assignments[key] == BodyOf(cr, definitionId)
    ensures var seen := Import(env, az, AssignmentId(key), cr.spec, definitionId);
            seen.value.Some? && (seen.value.value.drift == [] <==> cr.spec.enforcementMode != "")
  {
    AssignmentIdNamesKind(key);
    FoundById(env, az, key);
    BodyReportsAsWritten(cr, definitionId);
    ImportSees(env, az, AssignmentId(key), cr.spec, definitionId);
  }

  lemma {:induction false} FoundById(env: Env, az: Azure, key: Key)
    requires NoSlash(key.name) && !env.fails(az.calls) && key in az.assignments
    ensures var r := ReadAssignmentById(env, az, AssignmentId(key));
            r.value.Some? && r.value.value.body == Reported(az.assignments[key])
  {
    KeyOfPrinted(key);
    FoundAt(env, az, AssignmentId(key), key);
  }

  lemma {:induction false} FoundAt(env: Env, az: Azure, id: string, key: Key)
    requires KeyOfAssignmentId(id) == Some(key) && !env.fails(az.calls) && key in az.assignments
    ensures var r := ReadAssignmentById(env, az, id);
            r.value.Some? && r.value.value.body == Reported(az.assignments[key])
  {
  }

  lemma {:induction false} ImportSees(env: Env, az: Azure, id: string, spec: AssignmentSpec, definitionId: string)
    requires NamesKind(FOLDED_ASSIGNMENTS, id) && ReadAssignmentById(env, az, id).value.Some?
    ensures var seen := Import(env, az, id, spec, definitionId);
            seen.value.Some?
            && seen.value.value.drift == DriftFields(ReadAssignmentById(env, az, id).value.value.body, spec, definitionId)
  {
  }
}
