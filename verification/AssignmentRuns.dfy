/** What the assignment controller guarantees over whole runs. */
module AssignmentRuns {
  import opened Wrappers
  import opened Text
  import opened ResourceId
  import opened Resource
  import opened Cloud
  import opened InlineExemptions
  import opened ExemptionPasses
  import opened ExemptionRuns
  import opened RoleGrants
  import opened AssignmentService
  import opened AssignmentLaws
  import opened AssignmentController
  import opened AssignmentSteps
  import ExemptionService

  function TargetOf(cr: AssignmentCR): Target {
    Target(cr.spec.scope, cr.status.assignmentId, cr.status.exemptions, cr.spec.identity)
  }

  // ---- no orphan, no takeover: resources without import annotations -----------------------------------

  /** Edits keep the scope and set no import annotation; others leave the resource's own key alone. */
  predicate PlainEvent(own: Key, e: Event) {
    match e
    case Reconcile(_) => true
    case Edit(annotations, spec) => Unmanaged(annotations) && spec.scope == own.scope
    case MarkDeleted => true
    case Outside(key, _) => key != own
  }

  predicate StatusPersists(e: Event) {
    e.Reconcile? ==> e.k.status
  }

  predicate PlainResource(own: Key, cr: AssignmentCR) {
    cr.name == own.name && cr.spec.scope == own.scope && Unmanaged(cr.annotations)
  }

  /** Stored resource and Azure agree on who owns the key. */
  predicate Owned(own: Key, w: World) {
    && (w.stored.Some? ==>
          var cr := w.stored.value;
          && PlainResource(own, cr)
          && (cr.status.assignmentId == "" || (cr.status.assignmentId == AssignmentId(own) && cr.finalizer)))
    && (own in w.az.assignments ==> w.stored.Some? && w.stored.value.status.assignmentId != "")
  }

  lemma {:induction false} OwnKeys(own: Key, cr: AssignmentCR)
    requires NoSlash(own.name) && PlainResource(own, cr)
    requires cr.status.assignmentId == "" || cr.status.assignmentId == AssignmentId(own)
    ensures WriteKey(cr) == own && Key(cr.spec.scope, LookupName(cr)) == own
    ensures cr.status.assignmentId != "" ==> AssignmentKey(TargetOf(cr)) == own
  {
    PrintLastSegment(ASSIGNMENTS, own);
  }

  /** Without import annotations a step's reading changes nothing that ownership is about. */
  lemma {:induction false} PlainRead(own: Key, cr: AssignmentCR, az: Azure, az2: Azure, s2: AssignmentStatus)
    requires PlainResource(own, cr) && ReadBy(cr, az, cr.status, az2, s2)
    ensures az2.assignments == az.assignments && s2.assignmentId == cr.status.assignmentId
  {
  }

  lemma {:induction false} DeletionKeepsOwned(env: Env, own: Key, w: World, k: Kube)
    requires NoSlash(own.name) && Owned(own, w) && w.stored.Some? && w.stored.value.deleting
    ensures Owned(own, HandleDeletion(env, w, w.stored.value, k))
  {
    var cr := w.stored.value;
    if cr.finalizer && cr.status.assignmentId != "" {
      OwnKeys(own, cr);
      DeleteOrdered(env, w.az, TargetOf(cr));
    }
  }

  lemma {:induction false} WriteKeepsOwned(env: Env, own: Key, w: World, az: Azure, cr: AssignmentCR, definitionId: string, k: Kube)
    requires NoSlash(own.name) && Owned(own, w) && w.stored.Some?
    requires az.assignments == w.az.assignments && cr == w.stored.value.(status := cr.status) && cr.finalizer
    requires cr.status.assignmentId == w.stored.value.status.assignmentId
    requires cr.status.assignmentId == "" ==> own !in az.assignments
    ensures !Owned(own, WriteStep(env, w.(az := az), cr, definitionId, k))
       <==> cr.status.assignmentId == "" && !env.fails(az.calls) && !k.status
  {
    OwnKeys(own, cr);
    ApplyWrites(env, az, cr, definitionId);
  }

  /** This step plans the first write, the call goes through, and the status write is lost. */
  predicate LosesNew(env: Env, w: World, k: Kube) {
    var shape := ShapeOf(env, w, k);
    shape.Writing? && shape.cr.status.assignmentId == "" && !env.fails(shape.az.calls) && !k.status
  }

  /**
   One step and ownership. It is lost exactly when this step creates the assignment and its status
   write is lost: the assignment is live, and nothing stored knows of it.
   */
  lemma {:induction false} OrphanExactlyWhen(env: Env, own: Key, w: World, k: Kube)
    requires NoSlash(own.name) && Owned(own, w)
    ensures !Owned(own, Step(env, w, k)) <==> LosesNew(env, w, k)
  {
    ShapeReads(env, w, k);
    match ShapeOf(env, w, k)
    case Idle(_) =>
    case Finalizing =>
    case Deleting => DeletionKeepsOwned(env, own, w, k);
    case Flagged(az, status) => PlainRead(own, w.stored.value, w.az, az, status);
    case Writing(az, cr, definitionId) =>
      PlainRead(own, w.stored.value, w.az, az, cr.status);
      OwnKeys(own, cr);
      WriteKeepsOwned(env, own, w, az, cr, definitionId, k);
  }

  /** A step of an owned resource touches no assignment but its own. */
  lemma {:induction false} OnlyOwn(env: Env, own: Key, w: World, k: Kube)
    requires NoSlash(own.name) && Owned(own, w)
    ensures Step(env, w, k).az.assignments - {own} == w.az.assignments - {own}
  {
    ShapeReads(env, w, k);
    match ShapeOf(env, w, k)
    case Idle(_) =>
    case Finalizing =>
    case Deleting => DeletesOnlyOwn(env, own, w, k);
    case Flagged(az, status) => PlainRead(own, w.stored.value, w.az, az, status);
    case Writing(az, cr, definitionId) =>
      PlainRead(own, w.stored.value, w.az, az, cr.status);
      OwnKeys(own, cr);
      ApplyWrites(env, az, cr, definitionId);
  }

  lemma {:induction false} DeletesOnlyOwn(env: Env, own: Key, w: World, k: Kube)
    requires NoSlash(own.name) && Owned(own, w) && w.stored.Some?
    ensures HandleDeletion(env, w, w.stored.value, k).az.assignments - {own} == w.az.assignments - {own}
  {
    OwnKeys(own, w.stored.value);
    DeleteOrdered(env, w.az, TargetOf(w.stored.value));
  }

  /** Azure's assignments as others alone would have left them. */
  function OthersOnly(m: map<Key, Assignment>, events: seq<Event>): map<Key, Assignment>
    decreases |events|
  {
    if events == [] then m
    else OthersOnly(if events[0].Outside? then Changed(m, events[0].key, events[0].body) else m, events[1..])
  }

  function Changed(m: map<Key, Assignment>, key: Key, body: Option<Assignment>): map<Key, Assignment> {
    match body case None => m - {key} case Some(b) => m[key := b]
  }

  /** What others do to the rest does not depend on the own assignment. */
  lemma {:induction false} OthersAside(own: Key, a: map<Key, Assignment>, b: map<Key, Assignment>, events: seq<Event>)
    requires a - {own} == b - {own}
    ensures OthersOnly(a, events) - {own} == OthersOnly(b, events) - {own}
    decreases |events|
  {
    if events != [] {
      if events[0].Outside? {
        var key, body := events[0].key, events[0].body;
        ChangedAside(own, a, b, key, body);
        OthersAside(own, Changed(a, key, body), Changed(b, key, body), events[1..]);
      } else {
        OthersAside(own, a, b, events[1..]);
      }
    }
  }

  lemma {:induction false} ChangedAside(own: Key, a: map<Key, Assignment>, b: map<Key, Assignment>, key: Key,
                                        body: Option<Assignment>)
    requires a - {own} == b - {own}
    ensures Changed(a, key, body) - {own} == Changed(b, key, body) - {own}
  {
    forall x | x != own
      ensures x in Changed(a, key, body) <==> x in Changed(b, key, body)
      ensures x in Changed(a, key, body) ==> Changed(a, key, body)[x] == Changed(b, key, body)[x]
    {
      assert x in a <==> x in a - {own};
      assert x in b <==> x in b - {own};
      assert x in a ==> a[x] == (a - {own})[x];
      assert x in b ==> b[x] == (b - {own})[x];
    }
  }

  /**
   No orphan: in every run, whatever calls fail, as long as status writes persist: while the assignment
   is live in Azure the stored resource has its finalizer and the assignment's ID; so once the
   finalizer (or the resource) is gone, the assignment is gone. Every other assignment is as others alone
   left it.
   */
  lemma {:induction false} NoOrphan(env: Env, own: Key, w: World, events: seq<Event>)
    requires NoSlash(own.name) && Owned(own, w)
    requires forall e :: e in events ==> PlainEvent(own, e) && StatusPersists(e)
    ensures var end := Run(env, w, events);
            && Owned(own, end)
            && (own in end.az.assignments ==>
                  end.stored.Some? && end.stored.value.finalizer && end.stored.value.status.assignmentId == AssignmentId(own))
            && end.az.assignments - {own} == OthersOnly(w.az.assignments, events) - {own}
    decreases |events|
  {
    if events != [] {
      assert events[0] in events;
      var w1 := Happen(env, w, events[0]);
      if events[0].Reconcile? {
        OrphanExactlyWhen(env, own, w, events[0].k);
        OnlyOwn(env, own, w, events[0].k);
        OthersAside(own, w1.az.assignments, w.az.assignments, events[1..]);
      }
      NoOrphan(env, own, w1, events[1..]);
    }
  }

  /** A new resource, before its first reconcile. */
  predicate NewResource(own: Key, cr: AssignmentCR) {
    PlainResource(own, cr) && cr.status.assignmentId == "" && cr.status.location == "" && cr.status.exemptions == []
    && Reason(cr.status, READY) != APPLIED_ONCE
  }

  lemma {:induction false} NewResourceOwned(own: Key, cr: AssignmentCR, az: Azure)
    requires NewResource(own, cr) && own !in az.assignments
    ensures Owned(own, World(Some(cr), az))
  {
  }

  /** Somebody else's assignment sits at the resource's key, and nothing is bound. */
  predicate Foreign(own: Key, body: Assignment, w: World) {
    && own in w.az.assignments && w.az.assignments[own] == body
    && (w.stored.Some? ==> PlainResource(own, w.stored.value) && w.stored.value.status.assignmentId == "")
  }

  lemma {:induction false} StepKeepsForeign(env: Env, own: Key, body: Assignment, w: World, k: Kube)
    requires NoSlash(own.name) && Foreign(own, body, w)
    ensures Foreign(own, body, Step(env, w, k))
  {
    ShapeReads(env, w, k);
    if w.stored.Some? {
      OwnKeys(own, w.stored.value);
    }
  }

  /**
   No takeover: an assignment found at the key of an unbound resource without import annotations is
   never modified or deleted, in any run, whatever fails: the existence check and the first write
   agree on scope and name.
   */
  lemma {:induction false} NoTakeover(env: Env, own: Key, body: Assignment, w: World, events: seq<Event>)
    requires NoSlash(own.name) && Foreign(own, body, w)
    requires forall e :: e in events ==> PlainEvent(own, e)
    ensures var end := Run(env, w, events);
            && own in end.az.assignments && end.az.assignments[own] == body
            && (end.stored.Some? ==> end.stored.value.status.assignmentId == "")
    decreases |events|
  {
    if events != [] {
      assert events[0] in events;
      if events[0].Reconcile? {
        StepKeepsForeign(env, own, body, w, events[0].k);
      }
      NoTakeover(env, own, body, Happen(env, w, events[0]), events[1..]);
    }
  }

  // ---- readiness ---------------------------------------------------------------------------------------

  /**
   Ready means done. A step that writes and saves its status saves Ready as true exactly when all three
   phases went through; and then the assignment is in Azure as specified, the grants are in place for the
   principal Azure reported, and the status lists the exemptions of the spec: each live in Azure as specified,
   if the list before was the operator's own and the display names are distinct.
   */
  lemma {:induction false} ReadyMeansDone(env: Env, w: World, k: Kube)
    requires k.status && ShapeOf(env, w, k).Writing?
    ensures w.stored.Some? && Step(env, w, k).stored.Some?
    ensures var w2, shape := Step(env, w, k), ShapeOf(env, w, k);
            var s, a := w2.stored.value.status, Apply(env, shape.az, shape.cr, shape.definitionId);
            && READY in s.conditions && (s.conditions[READY].status <==> a.ok)
            && (a.ok ==> Done(env, shape.cr, shape.definitionId, a.principal, s, w2.az))
            && (a.ok && ValidEnv(env) && OwnList(env, shape) ==> InPlace(env, shape.cr.spec.exemptions, s, w2.az))
  {
    var shape := ShapeOf(env, w, k);
    if Apply(env, shape.az, shape.cr, shape.definitionId).ok {
      ApplyDone(env, shape.az, shape.cr, shape.definitionId);
      if ValidEnv(env) && OwnList(env, shape) {
        ApplyInPlace(env, shape.az, shape.cr, shape.definitionId);
      }
    }
  }

  ghost predicate OwnList(env: Env, shape: Shape)
    requires shape.Writing?
  {
    Coherent(env, shape.az.minted, shape.cr.status.exemptions) && Distinct(shape.cr.spec.exemptions)
  }

  /** Entry by entry, the listed exemption is live at its place as the entry asks. */
  predicate InPlace(env: Env, specs: seq<InlineSpec>, s: AssignmentStatus, az: Azure) {
    && AllRecord(specs, s.exemptions)
    && forall i :: 0 <= i < |specs| ==>
         Place(s.exemptions[i]) in az.exemptions
         && AsAsked(env, s.assignmentId, specs[i], az.exemptions[Place(s.exemptions[i])])
  }

  lemma {:induction false} ApplyInPlace(env: Env, az: Azure, cr: AssignmentCR, definitionId: string)
    requires ValidEnv(env) && Coherent(env, az.minted, cr.status.exemptions) && Distinct(cr.spec.exemptions)
    requires Apply(env, az, cr, definitionId).ok
    ensures var a := Apply(env, az, cr, definitionId); InPlace(env, cr.spec.exemptions, Recorded(cr.status, a), a.az)
  {
    var w := UpsertAssignment(env, az, WriteKey(cr), BodyOf(cr, definitionId));
    AttachInPlace(env, w.az, cr, w.value.value);
  }

  lemma {:induction false} AttachInPlace(env: Env, az: Azure, cr: AssignmentCR, x: Written)
    requires ValidEnv(env) && Coherent(env, az.minted, cr.status.exemptions) && Distinct(cr.spec.exemptions)
    requires Attach(env, az, cr, x).ok && x.id != ""
    ensures var a := Attach(env, az, cr, x); InPlace(env, cr.spec.exemptions, Recorded(cr.status, a), a.az)
  {
    PassContent(env, az, x.id, cr.spec.exemptions, cr.status.exemptions);
    var p := Pass(env, az, x.id, cr.spec.exemptions, cr.status.exemptions);
    GrantAllEffect(env, p.az, x.id, x.principal, Permissions(cr.spec.identity));
    PassEntries(env, az, x.id, cr.spec.exemptions, cr.status.exemptions);
  }

  predicate Done(env: Env, cr: AssignmentCR, definitionId: string, principal: string, s: AssignmentStatus, az: Azure) {
    && s.assignmentId == AssignmentId(WriteKey(cr))
    && WriteKey(cr) in az.assignments && az.assignments[WriteKey(cr)] == BodyOf(cr, definitionId)
    && |s.exemptions| == |cr.spec.exemptions|
    && (forall i :: 0 <= i < |s.exemptions| ==> s.exemptions[i].displayName == cr.spec.exemptions[i].displayName)
    && (principal != "" ==>
          Proper(env, s.assignmentId, principal, az.grants, GrantKeys(env, s.assignmentId, Permissions(cr.spec.identity))))
  }

  lemma {:induction false} ApplyDone(env: Env, az: Azure, cr: AssignmentCR, definitionId: string)
    requires Apply(env, az, cr, definitionId).ok
    ensures var a := Apply(env, az, cr, definitionId);
            Done(env, cr, definitionId, a.principal, Recorded(cr.status, a), a.az)
  {
    ApplyWrites(env, az, cr, definitionId);
    var w := UpsertAssignment(env, az, WriteKey(cr), BodyOf(cr, definitionId));
    var x := w.value.value;
    PassListsAll(env, w.az, x.id, cr.spec.exemptions, cr.status.exemptions);
    var p := Pass(env, w.az, x.id, cr.spec.exemptions, cr.status.exemptions);
    GrantAllEffect(env, p.az, x.id, x.principal, Permissions(cr.spec.identity));
  }

  lemma {:induction false} PassListsAll(env: Env, az: Azure, id: string, specs: seq<InlineSpec>, status: seq<Tracked>)
    requires Pass(env, az, id, specs, status).value.Some?
    ensures var entries := Pass(env, az, id, specs, status).value.value;
            && |entries| == |specs| && forall i :: 0 <= i < |specs| ==> entries[i].displayName == specs[i].displayName
  {
    WritesListAll(env, az, id, Existing(status), specs);
  }

  lemma {:induction false} WritesListAll(env: Env, az: Azure, id: string, existing: map<string, Tracked>, specs: seq<InlineSpec>)
    requires WriteAll(env, az, id, existing, specs).value.Some?
    ensures var entries := WriteAll(env, az, id, existing, specs).value.value;
            && |entries| == |specs| && forall i :: 0 <= i < |specs| ==> entries[i].displayName == specs[i].displayName
    decreases |specs|
  {
    if specs != [] {
      var r := ExemptionService.Upserted(env, az, PreviousId(existing, specs[0].displayName), Synthetic(specs[0], id));
      WritesListAll(env, r.az, id, existing, specs[1..]);
    }
  }

  // ---- the bound identity ------------------------------------------------------------------------------

  /** Bound, under the spec's scope, to `id` up to letter case. */
  predicate BoundTo(scope: string, id: string, s: AssignmentStatus) {
    s.assignmentId != "" && EqualFold(s.assignmentId, id) && Under(ASSIGNMENTS, scope, s.assignmentId)
  }

  predicate KeepsScope(scope: string, e: Event) {
    e.Edit? ==> e.spec.scope == scope
  }

  lemma {:induction false} ReadKeepsBound(scope: string, id: string, cr: AssignmentCR, az: Azure, az2: Azure, s2: AssignmentStatus)
    requires BoundTo(scope, id, cr.status) && ReadBy(cr, az, cr.status, az2, s2)
    ensures BoundTo(scope, id, s2)
  {
    if s2.assignmentId != cr.status.assignmentId {
      UnderIsCaseBlind(ASSIGNMENTS, scope, cr.status.assignmentId, s2.assignmentId);
    }
  }

  lemma {:induction false} WriteKeepsBound(env: Env, scope: string, id: string, az: Azure, cr: AssignmentCR, definitionId: string)
    requires BoundTo(scope, id, cr.status) && cr.spec.scope == scope
    ensures BoundTo(scope, id, Recorded(cr.status, Apply(env, az, cr, definitionId)))
  {
    ApplyWrites(env, az, cr, definitionId);
    var was := cr.status.assignmentId;
    UnderIsCaseBlind(ASSIGNMENTS, scope, was, was);
    var now := Print(ASSIGNMENTS, Key(scope, LastSegment(was)));
    assert WriteKey(cr) == Key(scope, LastSegment(was));
    UnderIsCaseBlind(ASSIGNMENTS, scope, was, now);
  }

  lemma {:induction false} StepKeepsBound(env: Env, scope: string, id: string, w: World, k: Kube)
    requires w.stored.Some? ==> w.stored.value.spec.scope == scope && BoundTo(scope, id, w.stored.value.status)
    ensures var w2 := Step(env, w, k);
            w2.stored.Some? ==> w2.stored.value.spec.scope == scope && BoundTo(scope, id, w2.stored.value.status)
  {
    ShapeReads(env, w, k);
    match ShapeOf(env, w, k)
    case Idle(_) =>
    case Finalizing =>
    case Deleting =>
    case Flagged(az, status) => ReadKeepsBound(scope, id, w.stored.value, w.az, az, status);
    case Writing(az, cr, definitionId) =>
      ReadKeepsBound(scope, id, w.stored.value, w.az, az, cr.status);
      WriteKeepsBound(env, scope, id, az, cr, definitionId);
  }

  /**
   Bound identity is stable: once bound to an ID under its scope, the resource stays bound to that ID up
   to letter case, in every run, whatever fails and whatever is written to the import annotations.
   */
  lemma {:induction false} IdentityStable(env: Env, scope: string, id: string, w: World, events: seq<Event>)
    requires w.stored.Some? ==> w.stored.value.spec.scope == scope && BoundTo(scope, id, w.stored.value.status)
    requires forall e :: e in events ==> KeepsScope(scope, e)
    ensures var end := Run(env, w, events);
            end.stored.Some? ==> end.stored.value.status.assignmentId != "" && EqualFold(end.stored.value.status.assignmentId, id)
    decreases |events|
  {
    if events != [] {
      assert events[0] in events;
      if events[0].Reconcile? {
        StepKeepsBound(env, scope, id, w, events[0].k);
      }
      IdentityStable(env, scope, id, Happen(env, w, events[0]), events[1..]);
    }
  }

  /**
   Where the scope of the import ID matters: a write under an ID that reads as the key `seen` keeps that ID, up
   to letter case, exactly when the scope in it is the spec's up to letter case; otherwise the resource ends
   up bound elsewhere.
   */
  lemma {:induction false} ImportKeptExactlyUnderScope(env: Env, az: Azure, cr: AssignmentCR, definitionId: string, seen: Key)
    requires KeyOfAssignmentId(cr.status.assignmentId) == Some(seen) && !env.fails(az.calls) && cr.status.assignmentId != ""
    ensures EqualFold(Recorded(cr.status, Apply(env, az, cr, definitionId)).assignmentId, cr.status.assignmentId)
       <==> EqualFold(seen.scope, cr.spec.scope)
  {
    ApplyWrites(env, az, cr, definitionId);
    KeyedIsPrinted(cr.status.assignmentId, seen);
    PrintedScopes(seen.scope, cr.spec.scope, seen.name);
  }

  /**
   What such a write replaces. It goes to the imported name under the spec's scope, without an existence check:
   an assignment that is there is replaced, and that is the imported one exactly when the scopes are the same;
   otherwise the imported one stays as it is.
   */
  lemma {:induction false} ImportedWriteReplaces(env: Env, w: World, k: Kube, seen: Key)
    requires ShapeOf(env, w, k).Writing? && !env.fails(ShapeOf(env, w, k).az.calls)
    requires w.stored.value.annotations.importId != "" && KeyOfAssignmentId(w.stored.value.annotations.importId) == Some(seen)
    ensures var s, w2 := ShapeOf(env, w, k), Step(env, w, k);
            var key := Key(w.stored.value.spec.scope, seen.name);
            && w2.az.assignments == w.az.assignments[key := BodyOf(s.cr, s.definitionId)]
            && (key == seen <==> w.stored.value.spec.scope == seen.scope)
            && seen in w.az.assignments
            && (key != seen ==> w2.az.assignments[seen] == w.az.assignments[seen])
  {
    ShapeReads(env, w, k);
    ImportedBeforeWrite(env, w, k);
    KeyedIsPrinted(w.stored.value.annotations.importId, seen);
    var s := ShapeOf(env, w, k);
    ApplyWrites(env, s.az, s.cr, s.definitionId);
    ImportFoundIt(env, w, k, seen);
  }

  lemma {:induction false} ImportFoundIt(env: Env, w: World, k: Kube, seen: Key)
    requires ShapeOf(env, w, k).Writing?
    requires w.stored.value.annotations.importId != "" && KeyOfAssignmentId(w.stored.value.annotations.importId) == Some(seen)
    ensures seen in w.az.assignments
  {
  }

  /**
   A write that fails right after an import leaves the import ID stored in the letter case of the
   annotation; what deletion then misses is said by `AssignmentLives.RecasedLife`.
   */
  lemma {:induction false} FailedWriteStoresImportCasing(env: Env, w: World, k: Kube)
    requires ShapeOf(env, w, k).Writing? && w.stored.value.annotations.importId != "" && k.status
    requires var s := ShapeOf(env, w, k); env.fails(s.az.calls)
    ensures Step(env, w, k).stored.Some?
    ensures Step(env, w, k).stored.value.status.assignmentId == w.stored.value.annotations.importId
  {
    ImportedBeforeWrite(env, w, k);
    var s := ShapeOf(env, w, k);
    ApplyWrites(env, s.az, s.cr, s.definitionId);
  }

  lemma {:induction false} ImportedBeforeWrite(env: Env, w: World, k: Kube)
    requires ShapeOf(env, w, k).Writing? && w.stored.value.annotations.importId != ""
    ensures ShapeOf(env, w, k).cr.status.assignmentId == w.stored.value.annotations.importId
  {
  }

  // ---- location ------------------------------------------------------------------------------------------

  /** The last location Azure reported, "" before the first. */
  function LastLocation(log: seq<Call>): string {
    if log == [] then ""
    else
      var c := log[|log| - 1];
      if (c.PutAssignment? || c.ReadAssignment?) && c.location != "" then c.location else LastLocation(log[..|log| - 1])
  }

  /** Every write without an identity carried the last location Azure had reported by then. */
  predicate LocationsKept(log: seq<Call>) {
    forall i :: 0 <= i < |log| && log[i].PutAssignment? && log[i].body.identity.None? && LastLocation(log[..i]) != "" ==>
      log[i].body.location == Some(LastLocation(log[..i]))
  }

  lemma {:induction false} LastLocationAppend(log: seq<Call>, c: Call)
    ensures LastLocation(log + [c])
         == if (c.PutAssignment? || c.ReadAssignment?) && c.location != "" then c.location else LastLocation(log)
  {
    assert (log + [c])[..|log|] == log;
  }

  lemma {:induction false} LocationsKeptAppend(log: seq<Call>, c: Call)
    requires LocationsKept(log)
    requires c.PutAssignment? && c.body.identity.None? && LastLocation(log) != "" ==> c.body.location == Some(LastLocation(log))
    ensures LocationsKept(log + [c])
  {
    var longer := log + [c];
    forall i | 0 <= i < |longer| && longer[i].PutAssignment? && longer[i].body.identity.None? && LastLocation(longer[..i]) != ""
      ensures longer[i].body.location == Some(LastLocation(longer[..i]))
    {
      if i < |log| {
        assert longer[..i] == log[..i];
      } else {
        assert longer[..i] == log;
      }
    }
  }

  lemma {:induction false} AsideLocations(a: Azure, b: Azure)
    requires Aside(a, b) && LocationsKept(a.log)
    ensures LastLocation(b.log) == LastLocation(a.log) && LocationsKept(b.log)
    decreases |b.log|
  {
    if |b.log| == |a.log| {
      assert b.log == a.log;
    } else {
      var front, last := b.log[..|b.log| - 1], b.log[|b.log| - 1];
      assert b.log == front + [last] && front[..|a.log|] == a.log;
      assert Aside(a, b.(log := front));
      AsideLocations(a, b.(log := front));
      LastLocationAppend(front, last);
      LocationsKeptAppend(front, last);
    }
  }

  /** The stored location is the last one Azure reported. */
  predicate Located(w: World) {
    LocationsKept(w.az.log) && (w.stored.Some? ==> w.stored.value.status.location == LastLocation(w.az.log))
  }

  lemma {:induction false} ReadLocates(cr: AssignmentCR, az: Azure, az2: Azure, s2: AssignmentStatus)
    requires ReadBy(cr, az, cr.status, az2, s2) && LocationsKept(az.log) && cr.status.location == LastLocation(az.log)
    ensures LocationsKept(az2.log) && s2.location == LastLocation(az2.log)
  {
    if az2.log != az.log {
      assert az2.log == az.log + [az2.log[|az.log|]];
      LastLocationAppend(az.log, az2.log[|az.log|]);
      LocationsKeptAppend(az.log, az2.log[|az.log|]);
    }
  }

  lemma {:induction false} WriteLocates(env: Env, az: Azure, cr: AssignmentCR, definitionId: string)
    requires LocationsKept(az.log) && cr.status.location == LastLocation(az.log)
    ensures var a := Apply(env, az, cr, definitionId);
            LocationsKept(a.az.log) && Recorded(cr.status, a).location == LastLocation(a.az.log)
  {
    ApplyWrites(env, az, cr, definitionId);
    var a := Apply(env, az, cr, definitionId);
    if env.fails(az.calls) {
      AsideLocations(az, a.az);
    } else {
      var put := PutAssignment(WriteKey(cr), BodyOf(cr, definitionId), a.location);
      var az1 :| Aside(az1, a.az) && az1.log == az.log + [put];
      LastLocationAppend(az.log, put);
      LocationsKeptAppend(az.log, put);
      AsideLocations(az1, a.az);
    }
  }

  lemma {:induction false} DeleteLocates(env: Env, az: Azure, t: Target)
    requires LocationsKept(az.log)
    ensures LocationsKept(Delete(env, az, t).az.log) && LastLocation(Delete(env, az, t).az.log) == LastLocation(az.log)
  {
    DeleteOrdered(env, az, t);
    var r := Delete(env, az, t);
    if r.value {
      var front, last := r.az.log[..|r.az.log| - 1], r.az.log[|r.az.log| - 1];
      assert r.az.log == front + [last];
      AsideLocations(az, az.(log := front));
      LastLocationAppend(front, last);
      LocationsKeptAppend(front, last);
    } else {
      AsideLocations(az, az.(log := r.az.log));
    }
  }

  lemma {:induction false} DeletionLocates(env: Env, w: World, k: Kube)
    requires Located(w) && w.stored.Some?
    ensures Located(HandleDeletion(env, w, w.stored.value, k))
  {
    DeleteLocates(env, w.az, TargetOf(w.stored.value));
  }

  lemma {:induction false} StepLocates(env: Env, w: World, k: Kube)
    requires Located(w) && k.status
    ensures Located(Step(env, w, k))
  {
    ShapeReads(env, w, k);
    match ShapeOf(env, w, k)
    case Idle(_) =>
    case Finalizing =>
    case Deleting => DeletionLocates(env, w, k);
    case Flagged(az, status) => ReadLocates(w.stored.value, w.az, az, status);
    case Writing(az, cr, definitionId) =>
      ReadLocates(w.stored.value, w.az, az, cr.status);
      WriteLocates(env, az, cr, definitionId);
  }

  /**
   Location preservation: in every run with persisting status writes, across failed reconciles, imports
   and arbitrary edits, each write made without an identity carries the last location Azure reported.
   */
  lemma {:induction false} LocationPreserved(env: Env, w: World, events: seq<Event>)
    requires Located(w) && forall e :: e in events ==> StatusPersists(e)
    ensures LocationsKept(Run(env, w, events).az.log)
    decreases |events|
  {
    if events != [] {
      assert events[0] in events;
      if events[0].Reconcile? {
        StepLocates(env, w, events[0].k);
      }
      LocationPreserved(env, Happen(env, w, events[0]), events[1..]);
    }
  }

  // ---- deletion by the controller ---------------------------------------------------------------------------

  /** Consecutive reconciles of a resource that is being deleted. */
  function Reconciles(env: Env, w: World, ks: seq<Kube>): World
    decreases |ks|
  {
    if ks == [] then w else Reconciles(env, Step(env, w, ks[0]), ks[1..])
  }

  /** Being deleted, finalizer in place, bound, and still aimed at `t`. */
  predicate Dying(t: Target, w: World) {
    && w.stored.Some? && w.stored.value.deleting && w.stored.value.finalizer
    && t.id != "" && TargetOf(w.stored.value) == t
  }

  /**
   The finalizer is held: however often deletion is interrupted, and whatever fails, the resource either
   stays as it was, aimed at the same target, with Azure losing at most that target; or it is gone and
   Azure has lost exactly its target.
   */
  lemma {:induction false} FinalizerHeld(env: Env, t: Target, w: World, ks: seq<Kube>)
    requires Dying(t, w)
    ensures var end := Reconciles(env, w, ks);
            if end.stored.None? then Cleared(env, w.az, t, end.az) else Dying(t, end) && Within(env, w.az, t, end.az)
    decreases |ks|
  {
    if ks != [] {
      DeleteOrdered(env, w.az, t);
      var w1 := Step(env, w, ks[0]);
      if w1.stored.None? {
        GoneStaysGone(env, w1, ks[1..]);
      } else {
        assert Dying(t, w1) && Within(env, w.az, t, w1.az);
        FinalizerHeld(env, t, w1, ks[1..]);
        var end := Reconciles(env, w1, ks[1..]);
        if end.stored.None? {
          ClearedAfterWithin(env, w.az, t, w1.az, end.az);
        } else {
          WithinTransitive(env, w.az, t, w1.az, end.az);
        }
      }
    }
  }

  lemma {:induction false} GoneStaysGone(env: Env, w: World, ks: seq<Kube>)
    requires w.stored.None?
    ensures Reconciles(env, w, ks) == w
    decreases |ks|
  {
    if ks != [] {
      GoneStaysGone(env, w, ks[1..]);
    }
  }
}
