/**
 What one reconcile of a stand-alone exemption comes to in each situation a caller can tell beforehand: what is stored,
 which condition it carries, and what happened to Azure.
 */
module ExemptionOutcomes {
  import opened Wrappers
  import opened Text
  import opened ResourceId
  import opened Resource
  import opened Cloud
  import opened ExemptionService
  import opened ExemptionController

  function Ready(s: ExemptionStatus, id: string, status: bool, reason: string): ExemptionStatus {
    ExemptionStatus(id, s.conditions[READY := Condition(status, reason)])
  }

  /** The stored resource has this status if the status write succeeds, and is otherwise as it was. */
  predicate Left(w: World, k: Kube, status: ExemptionStatus, w2: World) {
    w.stored.Some? && w2.stored == Some(if k.status then w.stored.value.(status := status) else w.stored.value)
  }

  // ---- the finalizer and deletion ------------------------------------------------------------------------------

  /** The first reconcile of a resource adds the finalizer and does nothing else. */
  lemma {:induction false} FinalizerAdded(env: Env, w: World, k: Kube)
    requires w.stored.Some? && !w.stored.value.deleting && !w.stored.value.finalizer && k.fetch
    ensures Step(env, w, k) == World(Some(w.stored.value.(finalizer := k.update)), w.az)
  {
  }

  /** Without the resource at hand nothing happens, nor to one that is deleting and already released. */
  lemma {:induction false} NothingToDo(env: Env, w: World, k: Kube)
    requires w.stored.None? || !k.fetch || (w.stored.value.deleting && !w.stored.value.finalizer)
    ensures Step(env, w, k) == w
  {
  }

  predicate Dying(w: World, k: Kube) {
    w.stored.Some? && w.stored.value.deleting && w.stored.value.finalizer && k.fetch
  }

  /** A resource that was never bound is let go of without a call to Azure. */
  lemma {:induction false} LetGo(env: Env, w: World, k: Kube)
    requires Dying(w, k) && w.stored.value.status.exemptionId == ""
    ensures Step(env, w, k) == World(if k.update then None else w.stored, w.az)
  {
  }

  /** Bound, and the delete fails: the resource is held, and says so. Else exactly its exemption is gone, then the resource. */
  lemma {:induction false} DeletesOrHolds(env: Env, w: World, k: Kube)
    requires Dying(w, k) && w.stored.value.status.exemptionId != ""
    ensures var w2, s := Step(env, w, k), w.stored.value.status;
            var key := Key(w.stored.value.spec.scope, LastSegment(s.exemptionId));
            if env.fails(w.az.calls) then
              w2.az == Tick(w.az) && Left(w, k, Ready(s, s.exemptionId, false, "DeleteFailed"), w2)
            else
              && w2.az == Logged(w.az, DropExemption(key)).(exemptions := w.az.exemptions - {key})
              && w2.stored == if k.update then None else w.stored
  {
  }

  // ---- reconciling -----------------------------------------------------------------------------------------------

  predicate AtWork(w: World, k: Kube) {
    w.stored.Some? && !w.stored.value.deleting && w.stored.value.finalizer && k.fetch
  }

  /** The assignment exempted: the ID given, or where only a resource is named the ID that resource reports. */
  predicate Exempts(w: World, k: Kube, assignmentId: string)
    requires w.stored.Some?
  {
    var spec := w.stored.value.spec;
    if spec.policyAssignmentId != "" || spec.policyAssignmentRef == "" then assignmentId == spec.policyAssignmentId
    else k.assignment == Known(assignmentId) && assignmentId != ""
  }

  /** A reference to a resource that is missing, or has no ID yet, parks the exemption, and the status says why. */
  lemma {:induction false} Parks(env: Env, w: World, k: Kube)
    requires AtWork(w, k) && forall assignmentId :: !Exempts(w, k, assignmentId)
    ensures var w2, s := Step(env, w, k), w.stored.value.status;
            && w2.az == w.az
            && (k.assignment == Missing || k.assignment == Known(""))
            && Left(w, k, Ready(s, s.exemptionId, false, if k.assignment == Missing then "RefResolutionFailed" else "RefNotReady"), w2)
  {
    assert !Exempts(w, k, w.stored.value.spec.policyAssignmentId);
    assert k.assignment.Known? ==> !Exempts(w, k, k.assignment.id);
  }

  /**
   The write: one put at the spec's scope, under the last segment of the bound ID or, unbound, the next new name, of
   the spec with the exempted assignment filled in. If it fails the status says so and keeps the ID; else it records the ID put.
   The stored spec stays as it was.
   */
  lemma {:induction false} Writes(env: Env, w: World, k: Kube, assignmentId: string)
    requires AtWork(w, k) && Exempts(w, k, assignmentId)
    ensures var w2, spec, s := Step(env, w, k), w.stored.value.spec, w.stored.value.status;
            var named := if s.exemptionId == "" then w.az.(minted := w.az.minted + 1) else w.az;
            var key := Key(spec.scope, if s.exemptionId == "" then env.mint(w.az.minted) else LastSegment(s.exemptionId));
            var body := BodyOf(env, spec.(policyAssignmentId := assignmentId));
            if env.fails(w.az.calls) then
              w2.az == Tick(named) && Left(w, k, Ready(s, s.exemptionId, false, "ReconcileFailed"), w2)
            else
              && w2.az == Logged(named, PutExemption(key)).(exemptions := w.az.exemptions[key := body])
              && Left(w, k, Ready(s, ExemptionId(key), true, "Reconciled"), w2)
  {
    assert w.stored.value.spec.(policyAssignmentId := assignmentId) == WithRef(w.stored.value.spec, k.assignment);
  }

  /**
   From nothing to ready: a new resource, two reconciles in which every call goes through. It ends with its finalizer,
   bound and Ready, and its exemption is live as specified.
   */
  lemma {:induction false} NewBecomesReady(env: Env, w: World, k: Kube, assignmentId: string)
    requires w.stored.Some? && !w.stored.value.deleting && !w.stored.value.finalizer && w.stored.value.status.exemptionId == ""
    requires Exempts(w, k, assignmentId) && k.fetch && k.update && k.status && !env.fails(w.az.calls)
    ensures var cr, end := w.stored.value, Run(env, w, [Reconcile(k), Reconcile(k)]);
            var key := Key(cr.spec.scope, env.mint(w.az.minted));
            && end.stored == Some(cr.(finalizer := true, status := Ready(cr.status, ExemptionId(key), true, "Reconciled")))
            && end.az.exemptions == w.az.exemptions[key := BodyOf(env, cr.spec.(policyAssignmentId := assignmentId))]
  {
    FinalizerAdded(env, w, k);
    var w1 := World(Some(w.stored.value.(finalizer := true)), w.az);
    Writes(env, w1, k, assignmentId);
    assert [Reconcile(k), Reconcile(k)][1..] == [Reconcile(k)] && [Reconcile(k)][1..] == [];
    assert Run(env, w1, [Reconcile(k)]) == Step(env, w1, k);
  }
}
