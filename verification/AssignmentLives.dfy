/** Whole lives of an assignment resource, its deletion included: what they leave of grants and exemptions. */
module AssignmentLives {
  import opened Wrappers
  import opened Text
  import opened ResourceId
  import opened Resource
  import opened Cloud
  import opened InlineExemptions
  import opened ExemptionPasses
  import opened ExemptionRuns
  import opened RoleGrants
  import opened AssignmentService
  import opened AssignmentLaws
  import opened AssignmentController
  import opened AssignmentSteps
  import opened AssignmentRuns
  import opened AssignmentModes
  import ExemptionService
  import opened LedgerRuns

  // ---- grants ----------------------------------------------------------------------------------------------

  predicate FixedIdentity(identity: Option<IdentitySpec>, e: Event) {
    e.Edit? ==> e.spec.identity == identity
  }

  /** The grants of this resource are derived from its own ID, exist only while it is bound, and are all it adds. */
  predicate GrantsAround(env: Env, own: Key, identity: Option<IdentitySpec>, start: map<Key, Grant>, w: World) {
    var keys := GrantKeys(env, AssignmentId(own), Permissions(identity));
    && w.az.grants - keys == start - keys
    && (w.stored.Some? ==> w.stored.value.spec.identity == identity)
    && (w.stored.None? || w.stored.value.status.assignmentId == "" ==> w.az.grants == start)
  }

  lemma {:induction false} WriteKeepsGrants(env: Env, own: Key, identity: Option<IdentitySpec>, az: Azure, cr: AssignmentCR,
                                            definitionId: string)
    requires WriteKey(cr) == own && cr.spec.identity == identity
    ensures var a := Apply(env, az, cr, definitionId);
            var keys := GrantKeys(env, AssignmentId(own), Permissions(identity));
            && a.az.grants - keys == az.grants - keys
            && (a.id == "" ==> a.az.grants == az.grants)
  {
    var w := UpsertAssignment(env, az, WriteKey(cr), BodyOf(cr, definitionId));
    if w.value.Some? {
      AttachKeepsGrants(env, w.az, cr, w.value.value);
    }
  }

  lemma {:induction false} AttachKeepsGrants(env: Env, az: Azure, cr: AssignmentCR, x: Written)
    requires x.id != ""
    ensures var keys := GrantKeys(env, x.id, Permissions(cr.spec.identity));
            Attach(env, az, cr, x).az.grants - keys == az.grants - keys && Attach(env, az, cr, x).id == x.id
  {
    PassKeepsGrants(env, az, x.id, cr.spec.exemptions, cr.status.exemptions);
    var p := Pass(env, az, x.id, cr.spec.exemptions, cr.status.exemptions);
    GrantAllEffect(env, p.az, x.id, x.principal, Permissions(cr.spec.identity));
  }

  lemma {:induction false} PassKeepsGrants(env: Env, az: Azure, id: string, specs: seq<InlineSpec>, status: seq<Tracked>)
    ensures Pass(env, az, id, specs, status).az.grants == az.grants
  {
    WritesKeepGrants(env, az, id, Existing(status), specs);
    DropAllEffect(env, WriteAll(env, az, id, Existing(status), specs).az, DisplayNames(specs), status);
  }

  lemma {:induction false} WritesKeepGrants(env: Env, az: Azure, id: string, existing: map<string, Tracked>, specs: seq<InlineSpec>)
    ensures WriteAll(env, az, id, existing, specs).az.grants == az.grants
    decreases |specs|
  {
    if specs != [] {
      WritesKeepGrants(env, ExemptionService.Upserted(env, az, PreviousId(existing, specs[0].displayName),
                                                      Synthetic(specs[0], id)).az, id, existing, specs[1..]);
    }
  }

  lemma {:induction false} DeletionKeepsGrants(env: Env, own: Key, identity: Option<IdentitySpec>, start: map<Key, Grant>,
                                               w: World, k: Kube)
    requires Owned(own, w) && w.stored.Some? && GrantsAround(env, own, identity, start, w)
    requires start.Keys !! GrantKeys(env, AssignmentId(own), Permissions(identity))
    ensures GrantsAround(env, own, identity, start, HandleDeletion(env, w, w.stored.value, k))
  {
    DeleteOrdered(env, w.az, TargetOf(w.stored.value));
    var keys := GrantKeys(env, AssignmentId(own), Permissions(identity));
    assert start - keys == start;
  }

  lemma {:induction false} StepKeepsGrants(env: Env, own: Key, identity: Option<IdentitySpec>, start: map<Key, Grant>,
                                           w: World, k: Kube)
    requires NoSlash(own.name) && Owned(own, w) && GrantsAround(env, own, identity, start, w) && k.status
    requires start.Keys !! GrantKeys(env, AssignmentId(own), Permissions(identity))
    ensures GrantsAround(env, own, identity, start, Step(env, w, k))
  {
    ShapeReads(env, w, k);
    match ShapeOf(env, w, k)
    case Idle(_) =>
    case Finalizing =>
    case Deleting => DeletionKeepsGrants(env, own, identity, start, w, k);
    case Flagged(az, status) => PlainRead(own, w.stored.value, w.az, az, status);
    case Writing(az, cr, definitionId) =>
      PlainRead(own, w.stored.value, w.az, az, cr.status);
      OwnKeys(own, cr);
      WriteKeepsGrants(env, own, identity, az, cr, definitionId);
      ApplyWrites(env, az, cr, definitionId);
  }

  /**
   Grants over whole lives. With one identity spec throughout, no import annotations, a fixed scope and persisting
   status writes, whatever else fails: the grants other than the derived ones never change, and once the
   resource is gone the grants are exactly those there were before it.
   */
  lemma {:induction false} LifeLeavesGrants(env: Env, own: Key, identity: Option<IdentitySpec>, start: map<Key, Grant>,
                                            w: World, events: seq<Event>)
    requires NoSlash(own.name) && Owned(own, w) && GrantsAround(env, own, identity, start, w)
    requires start.Keys !! GrantKeys(env, AssignmentId(own), Permissions(identity))
    requires forall e :: e in events ==> PlainEvent(own, e) && StatusPersists(e) && FixedIdentity(identity, e)
    ensures var end := Run(env, w, events);
            var keys := GrantKeys(env, AssignmentId(own), Permissions(identity));
            && end.az.grants - keys == start - keys
            && (end.stored.None? ==> end.az.grants == start)
    decreases |events|
  {
    if events != [] {
      assert events[0] in events;
      if events[0].Reconcile? {
        OrphanExactlyWhen(env, own, w, events[0].k);
        StepKeepsGrants(env, own, identity, start, w, events[0].k);
      }
      LifeLeavesGrants(env, own, identity, start, Happen(env, w, events[0]), events[1..]);
    }
  }

  // ---- grants under a recased ID ----------------------------------------------------------------------------

  /** The first reconcile of the life: a write whose three phases go through, for a principal. */
  predicate Granting(env: Env, w: World, k: Kube) {
    && k.status && ShapeOf(env, w, k).Writing? && w.stored.Some? && w.stored.value.finalizer && !w.stored.value.deleting
    && var s := ShapeOf(env, w, k);
    && Apply(env, s.az, s.cr, s.definitionId).ok && Apply(env, s.az, s.cr, s.definitionId).principal != ""
  }

  /**
   A reconcile that imports and records no written ID, its status being saved: the write after the import fails, or
   the resource is only observed and there is no write.
   */
  predicate Rebinds(env: Env, w: World, k: Kube) {
    && k.status && w.stored.Some?
    && match ShapeOf(env, w, k)
       case Flagged(az, _) => az.log != w.az.log
       case Writing(az, _, _) => az.log != w.az.log && env.fails(az.calls)
       case _ => false
  }

  lemma {:induction false} GrantingStep(env: Env, w: World, k: Kube)
    requires Granting(env, w, k)
    ensures var w1 := Step(env, w, k);
            && w1.stored.Some? && w1.stored.value == w.stored.value.(status := w1.stored.value.status)
            && w1.stored.value.status.assignmentId == AssignmentId(WriteKey(ShapeOf(env, w, k).cr))
            && GrantKeys(env, w1.stored.value.status.assignmentId, Permissions(w.stored.value.spec.identity)) <= w1.az.grants.Keys
  {
    ShapeReads(env, w, k);
    ReadyMeansDone(env, w, k);
  }

  lemma {:induction false} RebindingStep(env: Env, w: World, k: Kube)
    requires Rebinds(env, w, k)
    ensures var w1 := Step(env, w, k);
            && w1.stored.Some? && w1.stored.value == w.stored.value.(status := w1.stored.value.status)
            && w1.stored.value.status.assignmentId == w.stored.value.annotations.importId
            && w1.az.grants == w.az.grants
  {
    ShapeReads(env, w, k);
    match ShapeOf(env, w, k)
    case Writing(az, cr, definitionId) => FailedApply(env, az, cr, definitionId);
    case _ =>
  }

  /** The resource after a granting reconcile and an edit of its annotations. */
  function Reannotated(env: Env, w: World, k1: Kube, a: Annotations): World
    requires Granting(env, w, k1)
  {
    GrantingStep(env, w, k1);
    Happen(env, Step(env, w, k1), Edit(a, w.stored.value.spec))
  }

  /** And then after a reconcile that rebinds it, and a request for deletion. */
  function Doomed(env: Env, w: World, k1: Kube, a: Annotations, k2: Kube): World
    requires Granting(env, w, k1) && Rebinds(env, Reannotated(env, w, k1, a), k2)
  {
    Happen(env, Step(env, Reannotated(env, w, k1, a), k2), MarkDeleted)
  }

  lemma {:induction false} DoomedState(env: Env, w: World, k1: Kube, a: Annotations, k2: Kube)
    requires Granting(env, w, k1) && Rebinds(env, Reannotated(env, w, k1, a), k2)
    ensures var d, granted := Doomed(env, w, k1, a, k2), AssignmentId(WriteKey(ShapeOf(env, w, k1).cr));
            var perms := Permissions(w.stored.value.spec.identity);
            && d.stored.Some? && d.stored.value.deleting && d.stored.value.finalizer
            && d.stored.value.spec == w.stored.value.spec && d.stored.value.status.assignmentId == a.importId
            && GrantKeys(env, granted, perms) <= d.az.grants.Keys
  {
    GrantingStep(env, w, k1);
    RebindingStep(env, Reannotated(env, w, k1, a), k2);
  }

  /**
   A whole life: grants are made under the ID Azure returned; the resource is then annotated with an import ID equal
   to that but for letter case, and an import follows that records no written ID, because its write fails or because
   it only observes; then it is deleted, every deletion call going through. Collisions aside, the grants are gone exactly when the annotated ID is the returned one letter for
   letter; otherwise every one of them is still live, and the resource is gone.
   */
  lemma {:induction false} RecasedLife(env: Env, w: World, k1: Kube, a: Annotations, k2: Kube, k3: Kube)
    requires Granting(env, w, k1) && Rebinds(env, Reannotated(env, w, k1, a), k2)
    requires k3.fetch && k3.update
    requires var d := Doomed(env, w, k1, a, k2); Delete(env, d.az, TargetOf(d.stored.value)).value
    requires var granted, perms := AssignmentId(WriteKey(ShapeOf(env, w, k1).cr)), Permissions(w.stored.value.spec.identity);
             && EqualFold(a.importId, granted) && GrantKeys(env, granted, perms) != {}
             && (a.importId == granted || !Collides(env, granted, a.importId, perms))
    ensures var end := Run(env, w, [Reconcile(k1), Edit(a, w.stored.value.spec), Reconcile(k2), MarkDeleted, Reconcile(k3)]);
            var granted, perms := AssignmentId(WriteKey(ShapeOf(env, w, k1).cr)), Permissions(w.stored.value.spec.identity);
            && end.stored.None?
            && (GrantKeys(env, granted, perms) !! end.az.grants.Keys <==> a.importId == granted)
            && (a.importId != granted ==> GrantKeys(env, granted, perms) <= end.az.grants.Keys)
  {
    GrantingStep(env, w, k1);
    DoomedState(env, w, k1, a, k2);
    var d := Doomed(env, w, k1, a, k2);
    FiveEvents(env, w, Reconcile(k1), Edit(a, w.stored.value.spec), Reconcile(k2), MarkDeleted, Reconcile(k3));
    var granted, perms := AssignmentId(WriteKey(ShapeOf(env, w, k1).cr)), Permissions(w.stored.value.spec.identity);
    DeletedUnder(env, d, k3, granted, perms);
  }

  lemma {:induction false} FiveEvents(env: Env, w: World, e1: Event, e2: Event, e3: Event, e4: Event, e5: Event)
    ensures Run(env, w, [e1, e2, e3, e4, e5])
         == Happen(env, Happen(env, Happen(env, Happen(env, Happen(env, w, e1), e2), e3), e4), e5)
  {
    var w2 := Happen(env, Happen(env, w, e1), e2);
    assert [e1, e2, e3, e4, e5][1..] == [e2, e3, e4, e5] && [e2, e3, e4, e5][1..] == [e3, e4, e5];
    assert Run(env, w, [e1, e2, e3, e4, e5]) == Run(env, Happen(env, w, e1), [e2, e3, e4, e5]);
    ThreeEvents(env, w2, e3, e4, e5);
  }

  /** Deletion of a resource bound to an ID that equals the one its grants were made under but for letter case. */
  lemma {:induction false} DeletedUnder(env: Env, w: World, k: Kube, granted: string, perms: seq<Permission>)
    requires w.stored.Some? && w.stored.value.deleting && w.stored.value.finalizer && k.fetch && k.update
    requires w.stored.value.status.assignmentId != "" && Permissions(w.stored.value.spec.identity) == perms
    requires Delete(env, w.az, TargetOf(w.stored.value)).value
    requires GrantKeys(env, granted, perms) != {} && GrantKeys(env, granted, perms) <= w.az.grants.Keys
    requires var id := w.stored.value.status.assignmentId;
             EqualFold(id, granted) && (id == granted || !Collides(env, granted, id, perms))
    ensures var end := Step(env, w, k);
            && end.stored.None?
            && (GrantKeys(env, granted, perms) !! end.az.grants.Keys <==> w.stored.value.status.assignmentId == granted)
            && (w.stored.value.status.assignmentId != granted ==> GrantKeys(env, granted, perms) <= end.az.grants.Keys)
  {
    var id := w.stored.value.status.assignmentId;
    DeleteOrdered(env, w.az, TargetOf(w.stored.value));
    assert |id| == |Fold(granted)|;
    if id != granted {
      forall k | k in GrantKeys(env, granted, perms)
        ensures k !in GrantKeys(env, id, perms)
      {
        if k in GrantKeys(env, id, perms) {
          OtherIdMissesGrants(env, granted, id, perms, k);
        }
      }
      assert GrantKeys(env, granted, perms) <= (w.az.grants - GrantKeys(env, id, perms)).Keys;
    }
  }

  /** A new resource at a free key, with one permission that gives its role's ID, and nothing else to write. */
  predicate Fledgling(w: World, own: Key, p: Permission) {
    && w.stored.Some? && own !in w.az.assignments && NoSlash(own.name) && p.roleDefinitionId != ""
    && var cr := w.stored.value;
    && PlainResource(own, cr) && cr.finalizer && !cr.deleting
    && cr.status.assignmentId == "" && cr.status.exemptions == [] && cr.spec.exemptions == []
    && cr.spec.definitionRef == "" && Permissions(cr.spec.identity) == [p]
  }

  lemma {:induction false} FledglingGrants(env: Env, w: World, k: Kube, own: Key, p: Permission)
    requires Fledgling(w, own, p) && k.fetch && k.status && env.principal(w.az.calls + 1) != ""
    requires !env.fails(w.az.calls) && !env.fails(w.az.calls + 1) && !env.fails(w.az.calls + 2)
    ensures Granting(env, w, k) && WriteKey(ShapeOf(env, w, k).cr) == own
    ensures var w1 := Step(env, w, k);
            && w1.stored.Some? && w1.az.calls == w.az.calls + 3 && own in w1.az.assignments
            && w1.stored.value.status.assignmentId == AssignmentId(own) && w1.stored.value.status.exemptions == []
            && w1.stored.value == w.stored.value.(status := w1.stored.value.status)
            && Reason(w1.stored.value.status, READY) == "Reconciled"
  {
    var cr := w.stored.value;
    assert ShapeOf(env, w, k) == Writing(Tick(w.az), cr, cr.spec.definitionId);
    OneGrant(env, Tick(w.az), cr, cr.spec.definitionId, own, p);
  }

  /** With one permission and no exemptions, a write is two calls. */
  lemma {:induction false} OneGrant(env: Env, az: Azure, cr: AssignmentCR, definitionId: string, own: Key, p: Permission)
    requires WriteKey(cr) == own && p.roleDefinitionId != "" && Permissions(cr.spec.identity) == [p]
    requires cr.spec.exemptions == [] && cr.status.exemptions == [] && env.principal(az.calls) != ""
    requires !env.fails(az.calls) && !env.fails(az.calls + 1)
    ensures var a := Apply(env, az, cr, definitionId);
            && a.ok && a.id == AssignmentId(own) && a.exemptions == Some([]) && a.principal == env.principal(az.calls)
            && a.az.calls == az.calls + 2 && own in a.az.assignments
  {
    var w := UpsertAssignment(env, az, own, BodyOf(cr, definitionId));
    assert [p][1..] == [];
    assert GrantAll(env, w.az, AssignmentId(own), env.principal(az.calls), [p]).value;
  }

  /** The annotations of an import under the same key with the keywords in lower case. */
  function Recased(own: Key, mode: string): Annotations {
    Annotations(LowerCaseId(own), mode, own.name)
  }

  /** Bound to its own printed ID, and annotated with the lower-case one. */
  predicate Reimporting(w: World, own: Key, mode: string) {
    && w.stored.Some? && NoSlash(own.name) && own in w.az.assignments
    && var cr := w.stored.value;
    && cr.annotations == Recased(own, mode) && cr.status.assignmentId == AssignmentId(own)
    && cr.finalizer && !cr.deleting && cr.spec.definitionRef == ""
  }

  lemma {:induction false} RecasedImportFails(env: Env, w: World, k: Kube, own: Key)
    requires Reimporting(w, own, RECONCILE) && k.fetch && k.status
    requires !env.fails(w.az.calls) && env.fails(w.az.calls + 1)
    ensures Rebinds(env, w, k) && Step(env, w, k).az.calls == w.az.calls + 2
    ensures Step(env, w, k).stored.Some? && Step(env, w, k).stored.value.status.exemptions == w.stored.value.status.exemptions
  {
    LowerCaseIdReads(own);
    KeyedIsPrinted(LowerCaseId(own), own);
    RebindFails(env, w, k, LowerCaseId(own), own);
  }

  lemma {:induction false} RecasedImportObserves(env: Env, w: World, k: Kube, own: Key, mode: string)
    requires Reimporting(w, own, mode) && (mode == "" || mode == OBSERVE_ONLY) && k.fetch && k.status
    requires !env.fails(w.az.calls)
    ensures Rebinds(env, w, k) && Step(env, w, k).az.calls == w.az.calls + 1
    ensures Step(env, w, k).stored.Some? && Step(env, w, k).stored.value.status.exemptions == w.stored.value.status.exemptions
  {
    LowerCaseIdReads(own);
    KeyedIsPrinted(LowerCaseId(own), own);
    RebindObserves(env, w, k, LowerCaseId(own), own);
  }

  lemma {:induction false} RebindObserves(env: Env, w: World, k: Kube, id: string, own: Key)
    requires w.stored.Some? && w.stored.value.annotations.importId == id && ModeOf(w.stored.value.annotations) == OBSERVE_ONLY
    requires id != "" && KeyOfAssignmentId(id) == Some(own) && NamesKind(FOLDED_ASSIGNMENTS, id) && own in w.az.assignments
    requires w.stored.value.finalizer && !w.stored.value.deleting && w.stored.value.spec.definitionRef == ""
    requires EqualFold(id, w.stored.value.status.assignmentId) && k.fetch && k.status && !env.fails(w.az.calls)
    ensures Rebinds(env, w, k) && Step(env, w, k).az.calls == w.az.calls + 1
    ensures Step(env, w, k).stored.Some? && Step(env, w, k).stored.value.status.exemptions == w.stored.value.status.exemptions
  {
    var cr := w.stored.value;
    ImportGoesThrough(env, w.az, id, own, cr.spec, cr.spec.definitionId);
    var r := Import(env, w.az, id, cr.spec, cr.spec.definitionId);
    assert HandleImport(env, w.az, cr, cr.spec.definitionId)
        == Flag(r.az, WithCondition(Adopt(cr.status, id, r.value.value), READY, true, "ObservedOnly"));
    assert |r.az.log| == |w.az.log| + 1;
  }

  lemma {:induction false} RebindFails(env: Env, w: World, k: Kube, id: string, own: Key)
    requires w.stored.Some? && w.stored.value.annotations.importId == id && w.stored.value.annotations.importMode == RECONCILE
    requires id != "" && KeyOfAssignmentId(id) == Some(own) && NamesKind(FOLDED_ASSIGNMENTS, id) && own in w.az.assignments
    requires w.stored.value.finalizer && !w.stored.value.deleting && w.stored.value.spec.definitionRef == ""
    requires EqualFold(id, w.stored.value.status.assignmentId) && k.fetch && k.status
    requires !env.fails(w.az.calls) && env.fails(w.az.calls + 1)
    ensures Rebinds(env, w, k) && Step(env, w, k).az.calls == w.az.calls + 2
    ensures Step(env, w, k).stored.Some? && Step(env, w, k).stored.value.status.exemptions == w.stored.value.status.exemptions
  {
    var cr := w.stored.value;
    var az, adopted := RebindsTo(env, w.az, cr, id, own);
    assert ShapeOf(env, w, k) == Writing(az, adopted, cr.spec.definitionId);
    FailedWrite(env, w.(az := az), adopted, cr.spec.definitionId, k);
  }

  lemma {:induction false} FailedWrite(env: Env, w: World, cr: AssignmentCR, definitionId: string, k: Kube)
    requires w.stored.Some? && k.status && env.fails(w.az.calls)
    ensures var w1 := WriteStep(env, w, cr, definitionId, k);
            && w1.az.calls == w.az.calls + 1 && w1.stored.Some?
            && w1.stored.value.status.exemptions == cr.status.exemptions
  {
    FailedApply(env, w.az, cr, definitionId);
  }

  lemma {:induction false} FailedApply(env: Env, az: Azure, cr: AssignmentCR, definitionId: string)
    requires env.fails(az.calls)
    ensures Apply(env, az, cr, definitionId) == Applied(Tick(az), "", "", "", None, false)
  {
  }

  /** Importing, in a managing mode, under an ID that is the bound one but for letter case. */
  lemma {:induction false} RebindsTo(env: Env, az: Azure, cr: AssignmentCR, id: string, own: Key)
    returns (az2: Azure, adopted: AssignmentCR)
    requires cr.annotations.importId == id && cr.annotations.importMode == RECONCILE && id != ""
    requires EqualFold(id, cr.status.assignmentId) && KeyOfAssignmentId(id) == Some(own) && NamesKind(FOLDED_ASSIGNMENTS, id)
    requires own in az.assignments && !env.fails(az.calls)
    ensures ImportShape(env, az, cr, cr.spec.definitionId) == Writing(az2, adopted, cr.spec.definitionId)
    ensures az2.calls == az.calls + 1 && az2.log != az.log && adopted == cr.(status := adopted.status)
    ensures adopted.status.exemptions == cr.status.exemptions
  {
    ImportGoesThrough(env, az, id, own, cr.spec, cr.spec.definitionId);
    var r := Import(env, az, id, cr.spec, cr.spec.definitionId);
    az2, adopted := r.az, cr.(status := Adopt(cr.status, id, r.value.value));
    assert |r.az.log| == |az.log| + 1;
  }

  lemma {:induction false} TwoCallDeletion(env: Env, az: Azure, t: Target, p: Permission)
    requires t.tracked == [] && Permissions(t.identity) == [p] && p.roleDefinitionId != ""
    requires !env.fails(az.calls) && !env.fails(az.calls + 1)
    ensures Delete(env, az, t).value
  {
    assert [p][1..] == [];
    var g := RemoveGrant(env, az, GrantKey(env, t.id, p.scope, p.roleDefinitionId));
    assert RevokeAll(env, g.az, t.id, []) == Reply(g.az, true);
    assert RevokeAll(env, az, t.id, [p]) == Reply(g.az, true);
  }

  /**
   Such a life, call by call: of seven calls to Azure only the fifth, the write after the import, fails. The
   hash telling the two texts apart, the grant is still live when the resource is gone.
   */
  lemma {:induction false} RecasedInput(env: Env, w: World, k: Kube, own: Key, p: Permission)
    requires Fledgling(w, own, p) && k.fetch && k.update && k.status && env.principal(w.az.calls + 1) != ""
    requires forall i: nat :: w.az.calls <= i < w.az.calls + 7 ==> (env.fails(i) <==> i == w.az.calls + 4)
    requires env.hash(HashedText(env, AssignmentId(own), p)) != env.hash(HashedText(env, LowerCaseId(own), p))
    ensures var a := Recased(own, RECONCILE);
            var end := Run(env, w, [Reconcile(k), Edit(a, w.stored.value.spec), Reconcile(k), MarkDeleted, Reconcile(k)]);
            end.stored.None? && GrantKey(env, AssignmentId(own), p.scope, p.roleDefinitionId) in end.az.grants
  {
    FledglingGrants(env, w, k, own, p);
    RecasedImportFails(env, Reannotated(env, w, k, Recased(own, RECONCILE)), k, own);
    RecasedEnd(env, w, k, own, p, RECONCILE);
  }

  /**
   The ordinary way: no call fails at all. The resource is annotated with the lower-case ID and no mode, or
   observe-only, is reconciled once, and is deleted; the grant made before is still live when it is gone.
   */
  lemma {:induction false} RecasedQuietly(env: Env, w: World, k: Kube, own: Key, p: Permission, mode: string)
    requires Fledgling(w, own, p) && k.fetch && k.update && k.status && env.principal(w.az.calls + 1) != ""
    requires (mode == "" || mode == OBSERVE_ONLY) && forall i: nat :: w.az.calls <= i < w.az.calls + 6 ==> !env.fails(i)
    requires env.hash(HashedText(env, AssignmentId(own), p)) != env.hash(HashedText(env, LowerCaseId(own), p))
    ensures var a := Recased(own, mode);
            var end := Run(env, w, [Reconcile(k), Edit(a, w.stored.value.spec), Reconcile(k), MarkDeleted, Reconcile(k)]);
            end.stored.None? && GrantKey(env, AssignmentId(own), p.scope, p.roleDefinitionId) in end.az.grants
  {
    FledglingGrants(env, w, k, own, p);
    RecasedImportObserves(env, Reannotated(env, w, k, Recased(own, mode)), k, own, mode);
    RecasedEnd(env, w, k, own, p, mode);
  }

  /** Rebound with nothing tracked, and the two calls of its deletion will go through. */
  predicate RebindsBare(env: Env, w: World, k: Kube) {
    && Rebinds(env, w, k)
    && var w1 := Step(env, w, k);
    && w1.stored.Some? && w1.stored.value.status.exemptions == []
    && !env.fails(w1.az.calls) && !env.fails(w1.az.calls + 1)
  }

  /** From the rebinding on, however it came about. */
  lemma {:induction false} RecasedEnd(env: Env, w: World, k: Kube, own: Key, p: Permission, mode: string)
    requires Fledgling(w, own, p) && k.fetch && k.update && Granting(env, w, k) && WriteKey(ShapeOf(env, w, k).cr) == own
    requires RebindsBare(env, Reannotated(env, w, k, Recased(own, mode)), k)
    requires env.hash(HashedText(env, AssignmentId(own), p)) != env.hash(HashedText(env, LowerCaseId(own), p))
    ensures var a := Recased(own, mode);
            var end := Run(env, w, [Reconcile(k), Edit(a, w.stored.value.spec), Reconcile(k), MarkDeleted, Reconcile(k)]);
            end.stored.None? && GrantKey(env, AssignmentId(own), p.scope, p.roleDefinitionId) in end.az.grants
  {
    LowerCaseIdReads(own);
    GrantOutlives(env, w, k, Recased(own, mode), AssignmentId(own), p);
  }

  lemma {:induction false} GrantOutlives(env: Env, w: World, k: Kube, a: Annotations, granted: string, p: Permission)
    requires k.fetch && k.update && Granting(env, w, k) && AssignmentId(WriteKey(ShapeOf(env, w, k).cr)) == granted
    requires Permissions(w.stored.value.spec.identity) == [p] && p.roleDefinitionId != ""
    requires RebindsBare(env, Reannotated(env, w, k, a), k) && EqualFold(a.importId, granted) && a.importId != granted
    requires env.hash(HashedText(env, granted, p)) != env.hash(HashedText(env, a.importId, p))
    ensures var end := Run(env, w, [Reconcile(k), Edit(a, w.stored.value.spec), Reconcile(k), MarkDeleted, Reconcile(k)]);
            end.stored.None? && GrantKey(env, granted, p.scope, p.roleDefinitionId) in end.az.grants
  {
    OnePermission(env, granted, a.importId, p);
    DoomedState(env, w, k, a, k);
    DoomedDeletes(env, w, k, a, p);
    RecasedLife(env, w, k, a, k, k);
  }

  lemma {:induction false} DoomedDeletes(env: Env, w: World, k: Kube, a: Annotations, p: Permission)
    requires Granting(env, w, k) && RebindsBare(env, Reannotated(env, w, k, a), k)
    requires Permissions(w.stored.value.spec.identity) == [p] && p.roleDefinitionId != ""
    ensures var d := Doomed(env, w, k, a, k); d.stored.Some? && Delete(env, d.az, TargetOf(d.stored.value)).value
  {
    ReannotatedState(env, w, k, a);
    ReboundDeletes(env, Reannotated(env, w, k, a), k, p);
  }

  lemma {:induction false} ReannotatedState(env: Env, w: World, k: Kube, a: Annotations)
    requires Granting(env, w, k)
    ensures var w2 := Reannotated(env, w, k, a);
            w2.stored.Some? && w2.stored.value.finalizer && w2.stored.value.spec == w.stored.value.spec
  {
    GrantingStep(env, w, k);
  }

  lemma {:induction false} ReboundDeletes(env: Env, w: World, k: Kube, p: Permission)
    requires RebindsBare(env, w, k) && w.stored.Some? && w.stored.value.finalizer
    requires Permissions(w.stored.value.spec.identity) == [p] && p.roleDefinitionId != ""
    ensures var d := Happen(env, Step(env, w, k), MarkDeleted); d.stored.Some? && Delete(env, d.az, TargetOf(d.stored.value)).value
  {
    RebindingStep(env, w, k);
    MarkedDeletes(env, Step(env, w, k), p);
  }

  lemma {:induction false} MarkedDeletes(env: Env, w: World, p: Permission)
    requires w.stored.Some? && w.stored.value.finalizer && w.stored.value.status.exemptions == []
    requires Permissions(w.stored.value.spec.identity) == [p] && p.roleDefinitionId != ""
    requires !env.fails(w.az.calls) && !env.fails(w.az.calls + 1)
    ensures var d := Happen(env, w, MarkDeleted); d.stored.Some? && Delete(env, d.az, TargetOf(d.stored.value)).value
  {
    TwoCallDeletion(env, w.az, TargetOf(w.stored.value), p);
  }

  lemma {:induction false} OnePermission(env: Env, granted: string, other: string, p: Permission)
    requires p.roleDefinitionId != "" && env.hash(HashedText(env, granted, p)) != env.hash(HashedText(env, other, p))
    ensures GrantKey(env, granted, p.scope, p.roleDefinitionId) in GrantKeys(env, granted, [p])
    ensures !Collides(env, granted, other, [p])
  {
    assert p in [p];
  }

  // ---- exemptions --------------------------------------------------------------------------------------------

  /** Nothing is tracked before anything is bound, and what is bound has its finalizer. */
  predicate Settled(w: World) {
    && w.stored.Some?
    && var cr := w.stored.value;
    if cr.status.assignmentId == "" then cr.status.exemptions == [] else cr.finalizer
  }

  lemma {:induction false} StepStaysSettled(env: Env, w: World, k: Kube)
    requires Settled(w) && Undisturbed(env, w, Reconcile(k))
    ensures Settled(Step(env, w, k))
  {
    ShapeReads(env, w, k);
    match ShapeOf(env, w, k)
    case Writing(az, cr, definitionId) => ApplyWrites(env, az, cr, definitionId);
    case _ =>
  }

  lemma {:induction false} RunStaysSettled(env: Env, w: World, events: seq<Event>)
    requires Settled(w) && UndisturbedRun(env, w, events)
    ensures Settled(Run(env, w, events))
    decreases |events|
  {
    if events != [] {
      if events[0].Reconcile? {
        StepStaysSettled(env, w, events[0].k);
      }
      RunStaysSettled(env, Happen(env, w, events[0]), events[1..]);
    }
  }

  /** An unbound resource goes without a call to Azure. */
  lemma {:induction false} UnboundGoes(env: Env, w: World, ks: seq<Kube>)
    requires w.stored.Some? ==> w.stored.value.deleting && w.stored.value.status.assignmentId == ""
    ensures Reconciles(env, w, ks).az == w.az
    decreases |ks|
  {
    if ks != [] {
      UnboundGoes(env, Step(env, w, ks[0]), ks[1..]);
    }
  }

  /**
   A whole life leaves Azure's exemptions as it found them: any undisturbed run of the controller from a new
   resource, then a request for deletion, then any reconciles, however often they are interrupted; once the
   resource is gone, the exemptions are exactly those there were before it.
   */
  lemma {:induction false} LifeLeavesExemptions(env: Env, w: World, events: seq<Event>, ks: seq<Kube>)
    requires ValidEnv(env) && Fresh(env, w.az) && UndisturbedRun(env, w, events)
    requires w.stored.Some? && w.stored.value.status.assignmentId == "" && w.stored.value.status.exemptions == []
    ensures var end := Reconciles(env, Happen(env, Run(env, w, events), MarkDeleted), ks);
            end.stored.None? ==> end.az.exemptions == w.az.exemptions
  {
    var foreign := w.az.exemptions;
    assert foreign - Places([]) == foreign;
    RunStaysAround(env, foreign, w, events);
    RunStaysSettled(env, w, events);
    var last := Run(env, w, events);
    MarkedGoes(env, foreign, last, ks);
  }

  lemma {:induction false} MarkedGoes(env: Env, foreign: map<Key, Exemption>, w: World, ks: seq<Kube>)
    requires StatusAround(env, foreign, w) && Settled(w)
    ensures var end := Reconciles(env, Happen(env, w, MarkDeleted), ks);
            end.stored.None? ==> end.az.exemptions == foreign
  {
    var marked := Happen(env, w, MarkDeleted);
    if w.stored.value.status.assignmentId == "" {
      assert w.az.exemptions - Places([]) == w.az.exemptions;
      UnboundGoes(env, marked, ks);
    } else {
      FinalizerHeld(env, TargetOf(marked.stored.value), marked, ks);
    }
  }

  // ---- deletion among edits and others ---------------------------------------------------------------------------

  /** Edits leave scope and identity alone; others may do anything. */
  predicate KeepsTarget(t: Target, e: Event) {
    e.Edit? ==> e.spec.scope == t.scope && e.spec.identity == t.identity
  }

  /** Of exemptions and grants at most the target's are gone. */
  predicate WithinAside(env: Env, az: Azure, t: Target, az2: Azure) {
    && az2.exemptions - Places(t.tracked) == az.exemptions - Places(t.tracked)
    && az2.exemptions.Keys <= az.exemptions.Keys
    && az2.grants - Roles(env, t) == az.grants - Roles(env, t)
    && az2.grants.Keys <= az.grants.Keys
  }

  predicate ClearedAside(env: Env, az: Azure, t: Target, az2: Azure) {
    && az2.exemptions == az.exemptions - Places(t.tracked) && az2.grants == az.grants - Roles(env, t)
    && DropAssignment(AssignmentKey(t)) in az2.log
  }

  lemma {:induction false} DyingStep(env: Env, t: Target, w: World, k: Kube)
    requires Dying(t, w)
    ensures var w1 := Step(env, w, k);
            && w1.az.assignments - {AssignmentKey(t)} == w.az.assignments - {AssignmentKey(t)}
            && if w1.stored.None? then ClearedAside(env, w.az, t, w1.az) else Dying(t, w1) && WithinAside(env, w.az, t, w1.az)
  {
    DeleteOrdered(env, w.az, t);
    var r := Delete(env, w.az, t);
    assert r.value ==> r.az.log[|r.az.log| - 1] in r.az.log;
  }

  lemma {:induction false} GoneRun(env: Env, w: World, events: seq<Event>)
    requires w.stored.None?
    ensures var end := Run(env, w, events);
            && end.stored.None? && end.az.exemptions == w.az.exemptions && end.az.grants == w.az.grants && end.az.log == w.az.log
            && end.az.assignments == OthersOnly(w.az.assignments, events)
    decreases |events|
  {
    if events != [] {
      GoneRun(env, Happen(env, w, events[0]), events[1..]);
    }
  }

  /**
   The finalizer is held against edits and others: in every run that starts with deletion under way and keeps scope
   and identity, whatever calls fail and whatever others do to assignments: while the resource is there it is aimed at
   the same target, and Azure has lost at most that; once it is gone, exactly the target's exemptions and grants are
   gone and its assignment was deleted; all other assignments are as others alone left them.
   */
  lemma {:induction false} HeldAgainstOthers(env: Env, t: Target, w: World, events: seq<Event>)
    requires Dying(t, w) && forall e :: e in events ==> KeepsTarget(t, e)
    ensures var end := Run(env, w, events);
            && end.az.assignments - {AssignmentKey(t)} == OthersOnly(w.az.assignments, events) - {AssignmentKey(t)}
            && if end.stored.None? then ClearedAside(env, w.az, t, end.az) else Dying(t, end) && WithinAside(env, w.az, t, end.az)
    decreases |events|
  {
    if events != [] {
      assert events[0] in events;
      var w1 := Happen(env, w, events[0]);
      if events[0].Reconcile? {
        DyingStep(env, t, w, events[0].k);
        OthersAside(AssignmentKey(t), w1.az.assignments, w.az.assignments, events[1..]);
      }
      if w1.stored.None? {
        GoneRun(env, w1, events[1..]);
      } else {
        HeldAgainstOthers(env, t, w1, events[1..]);
        ClearedLater(env, w.az, t, w1.az, Run(env, w1, events[1..]).az);
      }
    }
  }

  lemma {:induction false} ClearedLater(env: Env, a: Azure, t: Target, b: Azure, c: Azure)
    requires WithinAside(env, a, t, b)
    ensures ClearedAside(env, b, t, c) ==> ClearedAside(env, a, t, c)
    ensures WithinAside(env, b, t, c) ==> WithinAside(env, a, t, c)
  {
  }

  /**
   What an edit of scope or identity during deletion leaves behind: the deletion goes by the edited spec, so the
   assignment survives exactly if the scope was changed, and of its grants exactly those that the edited identity
   does not derive.
   */
  lemma {:induction false} EditedWhileDying(env: Env, t: Target, w: World, a: Annotations, spec: AssignmentSpec, k: Kube)
    requires Dying(t, w) && k.fetch && k.update && AssignmentKey(t) in w.az.assignments
    requires Delete(env, w.az, Target(spec.scope, t.id, t.tracked, spec.identity)).value
    ensures var t2 := Target(spec.scope, t.id, t.tracked, spec.identity);
            var end := Run(env, w, [Edit(a, spec), Reconcile(k)]);
            && end.stored.None? && Cleared(env, w.az, t2, end.az)
            && (AssignmentKey(t) in end.az.assignments <==> spec.scope != t.scope)
            && (forall g :: g in Roles(env, t) && g in w.az.grants ==> (g in end.az.grants <==> g !in Roles(env, t2)))
  {
    var t2 := Target(spec.scope, t.id, t.tracked, spec.identity);
    var w1 := Happen(env, w, Edit(a, spec));
    assert Dying(t2, w1);
    DeleteOrdered(env, w.az, t2);
    assert [Edit(a, spec), Reconcile(k)][1..] == [Reconcile(k)] && [Reconcile(k)][1..] == [];
    assert Run(env, w1, [Reconcile(k)]) == Step(env, w1, k);
    assert AssignmentKey(t) == AssignmentKey(t2) <==> spec.scope == t.scope;
  }
}
