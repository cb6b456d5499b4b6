/**
 What one reconcile of an assignment comes to in each situation a caller can tell beforehand: what is stored, which
 conditions it carries, and what happened to Azure.
 */
module AssignmentOutcomes {
  import opened Wrappers
  import opened Text
  import opened ResourceId
  import opened Resource
  import opened Cloud
  import opened InlineExemptions
  import opened RoleGrants
  import opened AssignmentService
  import opened AssignmentLaws
  import opened AssignmentController
  import opened AssignmentSteps
  import opened AssignmentRuns
  import opened AssignmentModes
  import opened AssignmentReach

  function Marked(s: AssignmentStatus, kind: string, status: bool, reason: string): AssignmentStatus {
    s.(conditions := s.conditions[kind := Condition(status, reason)])
  }

  /** The stored resource has this status if the status write succeeds, and is otherwise as it was. */
  predicate Left(w: World, k: Kube, status: AssignmentStatus, w2: World) {
    w.stored.Some? && w2.stored == Some(if k.status then w.stored.value.(status := status) else w.stored.value)
  }

  /** Azure's resources and the calls that went through are as they were. */
  predicate Untouched(w: World, w2: World) {
    SameResources(w.az, w2.az) && w2.az.log == w.az.log && w2.az.minted == w.az.minted
  }

  // ---- the finalizer and deletion ------------------------------------------------------------------------------

  /** The first reconcile of a resource adds the finalizer and does nothing else. */
  lemma {:induction false} FinalizerAdded(env: Env, w: World, k: Kube)
    requires w.stored.Some? && !w.stored.value.deleting && !w.stored.value.finalizer && k.fetch
    ensures Step(env, w, k) == World(Some(w.stored.value.(finalizer := k.update)), w.az)
  {
  }

  /** Without the resource at hand nothing happens, nor to one that is deleting and already released. */
  lemma {:induction false} NothingToDo(env: Env, w: World, k: Kube)
    requires w.stored.None? || !k.fetch || (w.stored.value.deleting && !w.stored.value.finalizer)
    ensures Step(env, w, k) == w
  {
  }

  /** A resource that was never bound is let go of without a call to Azure. */
  lemma {:induction false} LetGo(env: Env, w: World, k: Kube)
    requires w.stored.Some? && w.stored.value.deleting && w.stored.value.finalizer && k.fetch
    requires w.stored.value.status.assignmentId == ""
    ensures Step(env, w, k) == World(if k.update then None else w.stored, w.az)
  {
  }

  /** Deletion of a bound resource, in whatever mode: held and marked when it fails, gone when it succeeds. */
  lemma {:induction false} DeletesOrHolds(env: Env, t: Target, w: World, k: Kube)
    requires Dying(t, w) && k.fetch
    ensures var w2, d := Step(env, w, k), Delete(env, w.az, t);
            && w2.az == d.az
            && (d.value ==> w2.stored == if k.update then None else w.stored)
            && (!d.value ==> Left(w, k, Marked(w.stored.value.status, READY, false, "DeleteFailed"), w2))
  {
  }

  // ---- reconciling -----------------------------------------------------------------------------------------------

  /** A resource at work: with its finalizer, not deleting, at hand. */
  predicate AtWork(w: World, k: Kube) {
    w.stored.Some? && !w.stored.value.deleting && w.stored.value.finalizer && k.fetch
  }

  /** The definition it assigns: its own ID where it names no resource, else the ID that resource reports. */
  predicate Assigns(w: World, k: Kube, definitionId: string)
    requires w.stored.Some?
  {
    var spec := w.stored.value.spec;
    if spec.definitionRef == "" then definitionId == spec.definitionId
    else k.definition == Known(definitionId) && definitionId != ""
  }

  /** A reference to a resource that is missing, or has no ID yet, parks the assignment, and the status says why. */
  lemma {:induction false} Parks(env: Env, w: World, k: Kube)
    requires AtWork(w, k) && w.stored.value.spec.definitionRef != "" && (k.definition == Missing || k.definition == Known(""))
    ensures var w2 := Step(env, w, k);
            && w2.az == w.az
            && Left(w, k, Marked(w.stored.value.status, READY, false,
                                 if k.definition == Missing then "RefNotFound" else "RefNotReady"), w2)
  {
  }

  predicate MayBindTo(cr: AssignmentCR) {
    cr.status.assignmentId == "" || EqualFold(cr.annotations.importId, cr.status.assignmentId)
  }

  lemma {:induction false} Conflicts(env: Env, w: World, k: Kube, definitionId: string)
    requires AtWork(w, k) && Assigns(w, k, definitionId)
    requires w.stored.value.annotations.importId != "" && !MayBindTo(w.stored.value)
    ensures var w2 := Step(env, w, k);
            w2.az == w.az && Left(w, k, Marked(w.stored.value.status, READY, false, "ImportConflict"), w2)
  {
  }

  /** The record the source looks for before it skips an adopt-once resource. */
  predicate AppliedOnce(cr: AssignmentCR) {
    cr.annotations.importMode == ADOPT_ONCE && READY in cr.status.conditions && cr.status.conditions[READY].reason == APPLIED_ONCE
  }

  lemma {:induction false} Skips(env: Env, w: World, k: Kube, definitionId: string)
    requires AtWork(w, k) && Assigns(w, k, definitionId)
    requires w.stored.value.annotations.importId != "" && MayBindTo(w.stored.value) && AppliedOnce(w.stored.value)
    ensures Step(env, w, k) == w
  {
  }

  /** About to import, nothing standing in the way of trying. */
  predicate Imports(w: World, k: Kube, definitionId: string) {
    && AtWork(w, k) && Assigns(w, k, definitionId)
    && w.stored.value.annotations.importId != "" && MayBindTo(w.stored.value) && !AppliedOnce(w.stored.value)
  }

  /** What makes an import succeed. */
  predicate Importable(env: Env, az: Azure, id: string) {
    && NamesKind(FOLDED_ASSIGNMENTS, id) && KeyOfAssignmentId(id).Some? && KeyOfAssignmentId(id).value in az.assignments
    && !env.fails(az.calls)
  }

  lemma {:induction false} ImportFails(env: Env, w: World, k: Kube, definitionId: string)
    requires Imports(w, k, definitionId) && !Importable(env, w.az, w.stored.value.annotations.importId)
    ensures var w2 := Step(env, w, k);
            && Untouched(w, w2)
            && Left(w, k, Marked(Marked(w.stored.value.status, IMPORTED, false, "ImportFailed"), READY, false, "ImportFailed"), w2)
  {
    ImportExactly(env, w.az, w.stored.value.annotations.importId, w.stored.value.spec, definitionId);
    ImportReads(env, w.az, w.stored.value.annotations.importId, w.stored.value.spec, definitionId);
  }

  /** What was reported replaces what was recorded, unless nothing was reported. */
  function Latest(had: string, reported: string): string {
    if reported == "" then had else reported
  }

  /** The status right after a successful import at call `n`: bound to the ID as annotated, with drift as found. */
  function Adopted(env: Env, n: nat, s: AssignmentStatus, id: string, drifted: bool): AssignmentStatus {
    Marked(Marked(s.(assignmentId := id, location := Latest(s.location, env.location(n)), principal := Latest(s.principal, env.principal(n))),
                  IMPORTED, true, "ImportSucceeded"),
           DRIFT, drifted, if drifted then "SpecMismatch" else "InSync")
  }

  /** Whether the imported assignment differs from the spec. */
  predicate Differs(w: World, definitionId: string)
    requires w.stored.Some? && KeyOfAssignmentId(w.stored.value.annotations.importId).Some?
    requires KeyOfAssignmentId(w.stored.value.annotations.importId).value in w.az.assignments
  {
    Drifted(Reported(w.az.assignments[KeyOfAssignmentId(w.stored.value.annotations.importId).value]), w.stored.value.spec, definitionId)
  }

  /** Azure after the one read of an import. */
  function Read(env: Env, az: Azure): Azure {
    Logged(az, ReadAssignment(env.location(az.calls)))
  }

  lemma {:induction false} ImportBinds(env: Env, w: World, k: Kube, definitionId: string)
    requires Imports(w, k, definitionId) && Importable(env, w.az, w.stored.value.annotations.importId)
    ensures var cr := w.stored.value;
            var s := Adopted(env, w.az.calls, cr.status, cr.annotations.importId, Differs(w, definitionId));
            HandleImport(env, w.az, cr, definitionId)
              == if ModeOf(cr.annotations) == OBSERVE_ONLY then Flag(Read(env, w.az), Marked(s, READY, true, "ObservedOnly"))
                 else Proceed(Read(env, w.az), s)
  {
    var id := w.stored.value.annotations.importId;
    ImportExactly(env, w.az, id, w.stored.value.spec, definitionId);
    ImportGoesThrough(env, w.az, id, KeyOfAssignmentId(id).value, w.stored.value.spec, definitionId);
  }

  /** A successful import in a mode that only observes. */
  lemma {:induction false} Observes(env: Env, w: World, k: Kube, definitionId: string)
    requires Imports(w, k, definitionId) && Importable(env, w.az, w.stored.value.annotations.importId)
    requires w.stored.value.annotations.importMode == "" || w.stored.value.annotations.importMode == OBSERVE_ONLY
    ensures var w2, cr := Step(env, w, k), w.stored.value;
            var s := Adopted(env, w.az.calls, cr.status, cr.annotations.importId, Differs(w, definitionId));
            w2.az == Read(env, w.az) && Left(w, k, Marked(s, READY, true, "ObservedOnly"), w2)
  {
    ImportBinds(env, w, k, definitionId);
  }

  /** The name looked up and first written under: the import name in the two managing modes, else the resource's own. */
  function NameInUse(cr: AssignmentCR): string {
    if cr.annotations.importMode == RECONCILE || cr.annotations.importMode == ADOPT_ONCE then cr.annotations.importName else cr.name
  }

  /**
   The write from Azure `az` and in-memory status `s`, and what the step leaves. The put goes to the spec's scope, under the
   last segment of the bound ID or, unbound, the name in use. If it fails nothing but the failure is recorded. Else ID,
   location and principal are recorded whatever follows; then come the exemptions, for the returned ID, and only if
   they went through are their list recorded and the roles granted, to the principal just returned. Ready says whether
   all went through.
   */
  predicate Wrote(env: Env, w: World, k: Kube, az: Azure, s: AssignmentStatus, definitionId: string)
    requires w.stored.Some?
  {
    WroteTo(env, w, k, az, s, definitionId, Step(env, w, k))
  }

  predicate WroteTo(env: Env, w: World, k: Kube, az: Azure, s: AssignmentStatus, definitionId: string, w2: World)
    requires w.stored.Some?
  {
    var cr := w.stored.value;
    var key := Key(cr.spec.scope, if s.assignmentId != "" then LastSegment(s.assignmentId) else NameInUse(cr));
    var body := BodyOf(cr.(status := s), definitionId);
    if env.fails(az.calls) then
      SameResources(az, w2.az) && w2.az.log == az.log && Left(w, k, Marked(s, READY, false, "ReconcileFailed"), w2)
    else
      var put := Logged(az, PutAssignment(key, body, env.location(az.calls))).(assignments := az.assignments[key := body]);
      var id, principal := AssignmentId(key), env.principal(az.calls);
      var bound := s.(assignmentId := id, location := Latest(s.location, env.location(az.calls)), principal := Latest(s.principal, principal));
      var p := Pass(env, put, id, cr.spec.exemptions, s.exemptions);
      if p.value.None? then
        w2.az == p.az && Left(w, k, Marked(bound, READY, false, "ReconcileFailed"), w2)
      else
        var g := Granted(env, p.az, id, principal, cr.spec.identity);
        && w2.az == g.az
        && Left(w, k, Marked(bound.(exemptions := p.value.value), READY, g.value, if g.value then "Reconciled" else "ReconcileFailed"), w2)
  }

  lemma {:induction false} WritesUnder(cr: AssignmentCR, s: AssignmentStatus)
    ensures WriteKey(cr.(status := s))
         == Key(cr.spec.scope, if s.assignmentId != "" then LastSegment(s.assignmentId) else NameInUse(cr))
  {
  }

  /** The three phases of a write, put together. */
  lemma {:induction false} Phases(env: Env, az: Azure, cr: AssignmentCR, definitionId: string, key: Key)
    requires key == WriteKey(cr)
    ensures var a := Apply(env, az, cr, definitionId);
            if env.fails(az.calls) then a == Applied(Tick(az), "", "", "", None, false)
            else
              var body, location, principal := BodyOf(cr, definitionId), env.location(az.calls), env.principal(az.calls);
              var put := Logged(az, PutAssignment(key, body, location)).(assignments := az.assignments[key := body]);
              var p := Pass(env, put, AssignmentId(key), cr.spec.exemptions, cr.status.exemptions);
              if p.value.None? then a == Applied(p.az, AssignmentId(key), location, principal, None, false)
              else
                var g := Granted(env, p.az, AssignmentId(key), principal, cr.spec.identity);
                a == Applied(g.az, AssignmentId(key), location, principal, p.value, g.value)
  {
  }

  /** What an attempted write reports back is what is saved of it. */
  lemma {:induction false} Saves(w: World, k: Kube, s: AssignmentStatus, a: Applied, w2: World)
    requires w.stored.Some?
    requires w2 == Save(w.(az := a.az), WithCondition(Recorded(s, a), READY, a.ok, if a.ok then "Reconciled" else "ReconcileFailed"), k.status)
    ensures var bound := s.(assignmentId := Latest(s.assignmentId, a.id), location := Latest(s.location, a.location),
                            principal := Latest(s.principal, a.principal), exemptions := a.exemptions.GetOr(s.exemptions));
            w2.az == a.az && Left(w, k, Marked(bound, READY, a.ok, if a.ok then "Reconciled" else "ReconcileFailed"), w2)
  {
  }

  /** What a write step leaves is what was just said of it. */
  lemma {:induction false} WriteLeaves(env: Env, w: World, k: Kube, az: Azure, s: AssignmentStatus, definitionId: string)
    requires w.stored.Some?
    ensures WroteTo(env, w, k, az, s, definitionId, WriteStep(env, w.(az := az), w.stored.value.(status := s), definitionId, k))
  {
    var cr := w.stored.value.(status := s);
    var key := WriteKey(cr);
    WritesUnder(w.stored.value, s);
    Phases(env, az, cr, definitionId, key);
    var a, w2 := Apply(env, az, cr, definitionId), WriteStep(env, w.(az := az), cr, definitionId, k);
    Saves(w, k, s, a, w2);
    EmptyLeaves(s, AssignmentId(key));
  }

  /** Empty results leave the status as it was. */
  lemma {:induction false} EmptyLeaves(s: AssignmentStatus, id: string)
    requires id != ""
    ensures Latest(s.assignmentId, id) == id && s.(assignmentId := Latest(s.assignmentId, ""), location := Latest(s.location, ""),
                                                   principal := Latest(s.principal, ""), exemptions := s.exemptions) == s
  {
  }

  /** Once the import branch is passed, the existence check decides. */
  lemma {:induction false} Passed(env: Env, w: World, k: Kube, az: Azure, s: AssignmentStatus, definitionId: string)
    requires AtWork(w, k) && Assigns(w, k, definitionId)
    requires HandleImport(env, w.az, w.stored.value, definitionId) == Proceed(az, s)
    ensures var cr := w.stored.value.(status := s);
            Step(env, w, k) == match CheckExisting(env, az, cr)
                               case Halt(az) => w.(az := az)
                               case Flag(az, status) => Save(w.(az := az), status, k.status)
                               case Proceed(az, _) => WriteStep(env, w.(az := az), cr, definitionId, k)
  {
    var cr := w.stored.value.(status := s);
    assert ShapeOf(env, w, k) == WriteShape(env, az, cr, definitionId);
  }

  lemma {:induction false} BoundWrites(env: Env, w: World, k: Kube, az: Azure, s: AssignmentStatus, definitionId: string)
    requires AtWork(w, k) && Assigns(w, k, definitionId) && s.assignmentId != ""
    requires HandleImport(env, w.az, w.stored.value, definitionId) == Proceed(az, s)
    ensures Wrote(env, w, k, az, s, definitionId)
  {
    Passed(env, w, k, az, s, definitionId);
    WriteLeaves(env, w, k, az, s, definitionId);
  }

  /** A successful import in any other mode, then the write. */
  lemma {:induction false} Adopts(env: Env, w: World, k: Kube, definitionId: string)
    requires Imports(w, k, definitionId) && Importable(env, w.az, w.stored.value.annotations.importId)
    requires w.stored.value.annotations.importMode != "" && w.stored.value.annotations.importMode != OBSERVE_ONLY
    ensures var cr := w.stored.value;
            Wrote(env, w, k, Read(env, w.az),
                  Adopted(env, w.az.calls, cr.status, cr.annotations.importId, Differs(w, definitionId)), definitionId)
  {
    ImportBinds(env, w, k, definitionId);
    var cr := w.stored.value;
    BoundWrites(env, w, k, Read(env, w.az), Adopted(env, w.az.calls, cr.status, cr.annotations.importId, Differs(w, definitionId)),
                definitionId);
  }

  /** Without an import ID and bound: the write comes at once. */
  lemma {:induction false} Rewrites(env: Env, w: World, k: Kube, definitionId: string)
    requires AtWork(w, k) && Assigns(w, k, definitionId)
    requires w.stored.value.annotations.importId == "" && w.stored.value.status.assignmentId != ""
    ensures Wrote(env, w, k, w.az, w.stored.value.status, definitionId)
  {
    BoundWrites(env, w, k, w.az, w.stored.value.status, definitionId);
  }

  /**
   Without an import ID and unbound, the existence check decides: if it fails nothing is stored; if something is there
   the status says so; else the write comes.
   */
  lemma {:induction false} FirstWrites(env: Env, w: World, k: Kube, definitionId: string)
    requires AtWork(w, k) && Assigns(w, k, definitionId)
    requires w.stored.value.annotations.importId == "" && w.stored.value.status.assignmentId == ""
    ensures var w2, cr := Step(env, w, k), w.stored.value;
            if env.fails(w.az.calls) then w2 == w.(az := Tick(w.az))
            else if Key(cr.spec.scope, NameInUse(cr)) in w.az.assignments then
              w2.az == Tick(w.az) && Left(w, k, Marked(cr.status, READY, false, "PolicyAssignmentAlreadyExists"), w2)
            else Wrote(env, w, k, Tick(w.az), cr.status, definitionId)
  {
    var cr := w.stored.value;
    Passed(env, w, k, w.az, cr.status, definitionId);
    if !env.fails(w.az.calls) && Key(cr.spec.scope, NameInUse(cr)) !in w.az.assignments {
      WriteLeaves(env, w, k, Tick(w.az), cr.status, definitionId);
    }
  }

  /**
   From nothing to ready: a new resource at a free key, two reconciles in which every call goes through, its references
   and roles resolvable. It ends with its finalizer, bound and Ready, and its assignment is live with the body asked for.
   */
  lemma {:induction false} NewBecomesReady(env: Env, own: Key, w: World, k: Kube, definitionId: string)
    requires w.stored.Some? && NewResource(own, w.stored.value) && !w.stored.value.finalizer && !w.stored.value.deleting
    requires own !in w.az.assignments && Assigns(w, k, definitionId) && k.fetch && k.update && k.status
    requires AllGo(env, w.az.calls) && Resolvable(env, Permissions(w.stored.value.spec.identity))
    ensures var cr, end := w.stored.value, Run(env, w, [Reconcile(k), Reconcile(k)]);
            && end.stored.Some? && end.stored.value == cr.(finalizer := true, status := end.stored.value.status)
            && end.stored.value.status.assignmentId == AssignmentId(own)
            && READY in end.stored.value.status.conditions
            && end.stored.value.status.conditions[READY] == Condition(true, "Reconciled")
            && own in end.az.assignments && end.az.assignments[own] == BodyOf(cr, definitionId)
  {
    FinalizerAdded(env, w, k);
    var w1 := World(Some(w.stored.value.(finalizer := true)), w.az);
    FirstWrites(env, w1, k, definitionId);
    NextReady(env, w1, k);
    WroteLive(env, w1, k, Tick(w.az), definitionId, own);
    assert [Reconcile(k), Reconcile(k)][1..] == [Reconcile(k)] && [Reconcile(k)][1..] == [];
    assert Run(env, w1, [Reconcile(k)]) == Step(env, w1, k);
  }

  /** The phases after a put leave the assignment where it was put. */
  lemma {:induction false} WroteLive(env: Env, w: World, k: Kube, az: Azure, definitionId: string, own: Key)
    requires w.stored.Some? && w.stored.value.status.assignmentId == "" && k.status && !env.fails(az.calls)
    requires Wrote(env, w, k, az, w.stored.value.status, definitionId)
    requires own == Key(w.stored.value.spec.scope, NameInUse(w.stored.value))
    ensures var w2 := Step(env, w, k);
            && w2.stored.Some? && w2.stored.value == w.stored.value.(status := w2.stored.value.status)
            && w2.stored.value.status.assignmentId == AssignmentId(own)
            && own in w2.az.assignments && w2.az.assignments[own] == BodyOf(w.stored.value, definitionId)
  {
    var cr, s := w.stored.value, w.stored.value.status;
    assert cr.(status := s) == cr;
    var body := BodyOf(cr, definitionId);
    var put := Logged(az, PutAssignment(own, body, env.location(az.calls))).(assignments := az.assignments[own := body]);
    PassAside(env, put, AssignmentId(own), cr.spec.exemptions, s.exemptions);
    var p := Pass(env, put, AssignmentId(own), cr.spec.exemptions, s.exemptions);
    GrantAllEffect(env, p.az, AssignmentId(own), env.principal(az.calls), Permissions(cr.spec.identity));
  }
}
