/** The import modes, as the assignment controller really treats them. */
module AssignmentModes {
  import opened Wrappers
  import opened Text
  import opened ResourceId
  import opened Resource
  import opened Cloud
  import opened InlineExemptions
  import opened ExemptionPasses
  import opened RoleGrants
  import opened AssignmentService
  import opened AssignmentLaws
  import opened AssignmentController
  import opened AssignmentSteps
  import opened AssignmentRuns

  /** Calls made since, all of them reads. */
  predicate OnlyReads(before: seq<Call>, after: seq<Call>) {
    LogExtends(before, after) && forall i :: |before| <= i < |after| ==> after[i].ReadAssignment?
  }

  predicate SameResources(a: Azure, b: Azure) {
    b.assignments == a.assignments && b.exemptions == a.exemptions && b.grants == a.grants
  }

  predicate Observed(a: Annotations) {
    a.importId != "" && ModeOf(a) == OBSERVE_ONLY
  }

  /** A bound resource is being deleted, and the deletion gets as far as a write. */
  predicate DeletesSomething(env: Env, w: World, k: Kube)
    requires w.stored.Some?
  {
    var cr := w.stored.value;
    && k.fetch && cr.deleting && cr.finalizer && cr.status.assignmentId != ""
    && DeletionStarts(env, w.az, TargetOf(cr))
  }

  lemma {:induction false} DeletionNeverReads(env: Env, az: Azure, t: Target)
    ensures OnlyReads(az.log, Delete(env, az, t).az.log) <==> Delete(env, az, t).az.log == az.log
  {
    DeleteOrdered(env, az, t);
    var before, after := az.log, Delete(env, az, t).az.log;
    if |after| > |before| {
      assert Delete(env, az, t).value ==> after[..|after| - 1][..|before|] == before;
      assert Delete(env, az, t).value && |before| < |after| - 1 ==> after[..|after| - 1][|before|] == after[|before|];
      assert !after[|before|].ReadAssignment?;
    }
  }

  lemma {:induction false} QuietStep(env: Env, w: World, k: Kube)
    requires w.stored.Some? && Observed(w.stored.value.annotations) && !w.stored.value.deleting
    ensures SameResources(w.az, Step(env, w, k).az) && OnlyReads(w.az.log, Step(env, w, k).az.log)
  {
    ShapeReads(env, w, k);
  }

  /**
   One step of an observed assignment, whether its mode is observe-only or missing: it writes nothing to
   Azure, except exactly when it is deletion of a bound resource, which does not look at the mode.
   */
  lemma {:induction false} ObservedStepExactly(env: Env, w: World, k: Kube)
    requires w.stored.Some? && Observed(w.stored.value.annotations)
    ensures OnlyReads(w.az.log, Step(env, w, k).az.log) <==> !DeletesSomething(env, w, k)
  {
    var cr := w.stored.value;
    if !cr.deleting {
      QuietStep(env, w, k);
    } else if k.fetch && cr.finalizer && cr.status.assignmentId != "" {
      DeletionNeverReads(env, w.az, TargetOf(cr));
      DeletionStartsExactly(env, w.az, TargetOf(cr));
      assert Step(env, w, k).az == Delete(env, w.az, TargetOf(cr)).az;
    }
  }

  /** Before deletion, no run of an observed assignment writes anything to Azure. */
  lemma {:induction false} ObservedRun(env: Env, w: World, events: seq<Event>)
    requires w.stored.Some? ==> Observed(w.stored.value.annotations) && !w.stored.value.deleting
    requires forall e :: e in events ==> !e.MarkDeleted? && (e.Edit? ==> Observed(e.annotations))
    ensures OnlyReads(w.az.log, Run(env, w, events).az.log)
    ensures Run(env, w, events).az.exemptions == w.az.exemptions && Run(env, w, events).az.grants == w.az.grants
    decreases |events|
  {
    if events != [] {
      assert events[0] in events;
      var w1 := Happen(env, w, events[0]);
      if events[0].Reconcile? && w.stored.Some? {
        QuietStep(env, w, events[0].k);
        KeepsMark(env, w, events[0].k);
      }
      ObservedRun(env, w1, events[1..]);
      ReadsTransitive(w.az.log, w1.az.log, Run(env, w1, events[1..]).az.log);
    }
  }

  lemma {:induction false} KeepsMark(env: Env, w: World, k: Kube)
    ensures var w2 := Step(env, w, k);
            w2.stored.Some? ==> w.stored.Some? && w2.stored.value.annotations == w.stored.value.annotations
                                && w2.stored.value.deleting == w.stored.value.deleting
  {
    ShapeReads(env, w, k);
  }

  lemma {:induction false} ReadsTransitive(a: seq<Call>, b: seq<Call>, c: seq<Call>)
    requires OnlyReads(a, b) && OnlyReads(b, c)
    ensures OnlyReads(a, c)
  {
    assert c[..|a|] == c[..|b|][..|a|];
    forall i | |a| <= i < |c|
      ensures c[i].ReadAssignment?
    {
      if i < |b| {
        assert c[i] == c[..|b|][i];
      }
    }
  }

  /**
   What deletion then does. It takes the assignment of the imported name under the spec's scope, and that is
   the observed one exactly when the scope in the import ID is the spec's; otherwise the observed assignment
   stays as it is, and another one, which was never observed, is lost.
   */
  lemma {:induction false} ObserveOnlyDeletes(env: Env, t: Target, w: World, k: Kube, seen: Key)
    requires Dying(t, w) && k.fetch && Delete(env, w.az, t).value
    requires Observed(w.stored.value.annotations) && t.id == w.stored.value.annotations.importId
    requires KeyOfAssignmentId(t.id) == Some(seen) && seen in w.az.assignments
    ensures var az2 := Step(env, w, k).az;
            && Cleared(env, w.az, t, az2)
            && az2.assignments == w.az.assignments - {Key(t.scope, seen.name)}
            && (seen !in az2.assignments <==> t.scope == seen.scope)
            && (seen in az2.assignments ==> az2.assignments[seen] == w.az.assignments[seen])
  {
    DeleteOrdered(env, w.az, t);
    KeyedIsPrinted(t.id, seen);
  }

  /** A resource about to observe: not bound, nothing tracked, no permissions, and its import ID reads as `seen`. */
  predicate AboutToObserve(w: World, seen: Key) {
    && w.stored.Some?
    && var cr := w.stored.value;
    && cr.finalizer && !cr.deleting && Observed(cr.annotations)
    && cr.status.assignmentId == "" && cr.status.exemptions == [] && Permissions(cr.spec.identity) == []
    && KeyOfAssignmentId(cr.annotations.importId) == Some(seen) && seen in w.az.assignments
  }

  /** Observing binds it and changes nothing. */
  lemma {:induction false} ObservingStep(env: Env, w: World, k: Kube, seen: Key)
    requires AboutToObserve(w, seen) && k.fetch && k.status && !env.fails(w.az.calls)
    requires Resolve(w.stored.value.spec, k.definition).Resolved?
    ensures var w1 := Step(env, w, k);
            && w1.stored.Some? && w1.az.assignments == w.az.assignments && w1.az.calls == w.az.calls + 1
            && w1.stored.value == w.stored.value.(status := w1.stored.value.status)
            && w1.stored.value.status.assignmentId == w.stored.value.annotations.importId
            && w1.stored.value.status.exemptions == []
  {
    KeyedNamesKind(w.stored.value.annotations.importId);
  }

  /**
   A whole life: a resource observes an assignment, is deleted, and every call goes through. In the end the
   assignment of the imported name under the spec's scope is gone and nothing else, the observed one exactly
   when the scopes are the same.
   */
  lemma {:induction false} ObservedLife(env: Env, w: World, k1: Kube, k2: Kube, seen: Key)
    requires AboutToObserve(w, seen) && k1.fetch && k1.status && k2.fetch && k2.update
    requires Resolve(w.stored.value.spec, k1.definition).Resolved?
    requires !env.fails(w.az.calls) && !env.fails(w.az.calls + 1)
    ensures var end := Run(env, w, [Reconcile(k1), MarkDeleted, Reconcile(k2)]);
            && end.stored.None?
            && end.az.assignments == w.az.assignments - {Key(w.stored.value.spec.scope, seen.name)}
            && (seen !in end.az.assignments <==> w.stored.value.spec.scope == seen.scope)
  {
    ObservingStep(env, w, k1, seen);
    var w1 := Step(env, w, k1);
    var w2 := Happen(env, w1, MarkDeleted);
    var t := TargetOf(w2.stored.value);
    assert Dying(t, w2);
    BareDeletion(env, w2.az, t);
    ObserveOnlyDeletes(env, t, w2, k2, seen);
    ThreeEvents(env, w, Reconcile(k1), MarkDeleted, Reconcile(k2));
  }

  /** With nothing tracked and no permissions, deletion is one call. */
  lemma {:induction false} BareDeletion(env: Env, az: Azure, t: Target)
    requires t.tracked == [] && Permissions(t.identity) == [] && !env.fails(az.calls)
    ensures Delete(env, az, t).value
  {
  }

  lemma {:induction false} ThreeEvents(env: Env, w: World, e1: Event, e2: Event, e3: Event)
    ensures Run(env, w, [e1, e2, e3]) == Happen(env, Happen(env, Happen(env, w, e1), e2), e3)
  {
    assert [e1, e2, e3][1..] == [e2, e3] && [e2, e3][1..] == [e3] && [e3][1..] == [];
    assert Run(env, Happen(env, Happen(env, w, e1), e2), [e3]) == Happen(env, Happen(env, Happen(env, w, e1), e2), e3);
  }

  lemma {:induction false} StepNotAppliedOnce(env: Env, w: World, k: Kube)
    requires w.stored.Some? ==> Reason(w.stored.value.status, READY) != APPLIED_ONCE
    ensures Step(env, w, k).stored.Some? ==> Reason(Step(env, w, k).stored.value.status, READY) != APPLIED_ONCE
  {
    ShapeReads(env, w, k);
  }

  /**
   The assignment controller never records "AppliedOnce", so its adopt-once skip is never taken (see
   `AdoptOnceIsReconcile`).
   */
  lemma {:induction false} NeverAppliedOnce(env: Env, w: World, events: seq<Event>)
    requires w.stored.Some? ==> Reason(w.stored.value.status, READY) != APPLIED_ONCE
    ensures var end := Run(env, w, events);
            end.stored.Some? ==> Reason(end.stored.value.status, READY) != APPLIED_ONCE
    decreases |events|
  {
    if events != [] {
      if events[0].Reconcile? {
        StepNotAppliedOnce(env, w, events[0].k);
      }
      NeverAppliedOnce(env, Happen(env, w, events[0]), events[1..]);
    }
  }

  // ---- adopt-once ------------------------------------------------------------------------------------------

  /** The same annotations with mode reconcile in place of adopt-once. */
  function Recast(a: Annotations): Annotations {
    if a.importMode == ADOPT_ONCE then a.(importMode := RECONCILE) else a
  }

  function RecastCR(cr: AssignmentCR): AssignmentCR {
    cr.(annotations := Recast(cr.annotations))
  }

  function RecastWorld(w: World): World {
    if w.stored.None? then w else w.(stored := Some(RecastCR(w.stored.value)))
  }

  function RecastEvent(e: Event): Event {
    match e case Edit(annotations, spec) => Edit(Recast(annotations), spec) case _ => e
  }

  function RecastAll(events: seq<Event>): (r: seq<Event>)
    ensures |r| == |events| && forall i :: 0 <= i < |r| ==> r[i] == RecastEvent(events[i])
  {
    if events == [] then [] else [RecastEvent(events[0])] + RecastAll(events[1..])
  }

  function RecastShape(s: Shape): Shape {
    match s case Writing(az, cr, definitionId) => Writing(az, RecastCR(cr), definitionId) case _ => s
  }

  lemma {:induction false} ImportShapeRecast(env: Env, az: Azure, cr: AssignmentCR, definitionId: string)
    requires Reason(cr.status, READY) != APPLIED_ONCE
    ensures ImportShape(env, az, RecastCR(cr), definitionId) == RecastShape(ImportShape(env, az, cr, definitionId))
  {
    HandleImportRecast(env, az, cr, definitionId);
    match HandleImport(env, az, cr, definitionId)
    case Proceed(az2, status) =>
      WriteShapeRecast(env, az2, cr.(status := status), definitionId);
      assert RecastCR(cr.(status := status)) == RecastCR(cr).(status := status);
    case _ =>
  }

  lemma {:induction false} HandleImportRecast(env: Env, az: Azure, cr: AssignmentCR, definitionId: string)
    requires Reason(cr.status, READY) != APPLIED_ONCE
    ensures HandleImport(env, az, RecastCR(cr), definitionId) == HandleImport(env, az, cr, definitionId)
  {
  }

  lemma {:induction false} WriteShapeRecast(env: Env, az: Azure, cr: AssignmentCR, definitionId: string)
    ensures WriteShape(env, az, RecastCR(cr), definitionId) == RecastShape(WriteShape(env, az, cr, definitionId))
  {
  }

  lemma {:induction false} ShapeRecast(env: Env, w: World, k: Kube)
    requires w.stored.Some? ==> Reason(w.stored.value.status, READY) != APPLIED_ONCE
    ensures ShapeOf(env, RecastWorld(w), k) == RecastShape(ShapeOf(env, w, k))
  {
    if w.stored.Some? && Resolve(w.stored.value.spec, k.definition).Resolved? {
      ImportShapeRecast(env, w.az, w.stored.value, Resolve(w.stored.value.spec, k.definition).id);
    }
  }

  lemma {:induction false} WriteRecast(env: Env, w: World, cr: AssignmentCR, definitionId: string, k: Kube)
    requires w.stored.Some? && cr.annotations == w.stored.value.annotations
    ensures WriteStep(env, RecastWorld(w), RecastCR(cr), definitionId, k) == RecastWorld(WriteStep(env, w, cr, definitionId, k))
  {
    assert BodyOf(RecastCR(cr), definitionId) == BodyOf(cr, definitionId);
    assert WriteKey(RecastCR(cr)) == WriteKey(cr);
    assert Apply(env, w.az, RecastCR(cr), definitionId) == Apply(env, w.az, cr, definitionId);
  }

  lemma {:induction false} StepRecast(env: Env, w: World, k: Kube)
    requires w.stored.Some? ==> Reason(w.stored.value.status, READY) != APPLIED_ONCE
    ensures Step(env, RecastWorld(w), k) == RecastWorld(Step(env, w, k))
  {
    ShapeReads(env, w, k);
    ShapeRecast(env, w, k);
    match ShapeOf(env, w, k)
    case Idle(_) =>
    case Finalizing =>
    case Deleting => assert TargetOf(RecastCR(w.stored.value)) == TargetOf(w.stored.value);
    case Flagged(az, status) =>
    case Writing(az, cr, definitionId) => WriteRecast(env, w.(az := az), cr, definitionId, k);
  }

  /**
   For assignments adopt-once is reconcile: every run, with any edits and failures, is step by step the run in
   which adopt-once is everywhere replaced by reconcile, the annotation itself aside. In particular it goes on
   writing (see `AdoptOnceWritesAgain`).
   */
  lemma {:induction false} AdoptOnceIsReconcile(env: Env, w: World, events: seq<Event>)
    requires w.stored.Some? ==> Reason(w.stored.value.status, READY) != APPLIED_ONCE
    ensures Run(env, RecastWorld(w), RecastAll(events)) == RecastWorld(Run(env, w, events))
    decreases |events|
  {
    if events != [] {
      var w1 := Happen(env, w, events[0]);
      if events[0].Reconcile? {
        StepRecast(env, w, events[0].k);
        StepNotAppliedOnce(env, w, events[0].k);
      }
      assert Happen(env, RecastWorld(w), RecastEvent(events[0])) == RecastWorld(w1);
      assert RecastAll(events)[1..] == RecastAll(events[1..]);
      AdoptOnceIsReconcile(env, w1, events[1..]);
    }
  }

  /** A bare resource in adopt-once mode, bound or about to be bound to the live assignment at its own key. */
  predicate Adopting(w: World, own: Key) {
    && w.stored.Some?
    && var cr := w.stored.value;
    && cr.finalizer && !cr.deleting && cr.annotations.importMode == ADOPT_ONCE
    && cr.annotations.importId == AssignmentId(own) && NoSlash(own.name) && cr.spec.scope == own.scope
    && (cr.status.assignmentId == "" || cr.status.assignmentId == AssignmentId(own))
    && cr.status.exemptions == [] && cr.spec.exemptions == [] && Permissions(cr.spec.identity) == []
    && Reason(cr.status, READY) != APPLIED_ONCE && own in w.az.assignments
  }

  lemma {:induction false} AdoptingWrites(env: Env, w: World, k: Kube, own: Key)
    requires Adopting(w, own) && k.fetch && k.status && Resolve(w.stored.value.spec, k.definition).Resolved?
    requires !env.fails(w.az.calls) && !env.fails(w.az.calls + 1)
    ensures var w1 := Step(env, w, k);
            && Adopting(w1, own) && w1.stored.value.spec == w.stored.value.spec
            && w1.az.calls == w.az.calls + 2 && |w1.az.log| == |w.az.log| + 2
            && w1.az.log[|w.az.log| + 1].PutAssignment? && w1.az.log[|w.az.log| + 1].key == own
  {
    var cr := w.stored.value;
    var definitionId := Resolve(cr.spec, k.definition).id;
    KeyOfPrinted(own);
    AssignmentIdNamesKind(own);
    PrintLastSegment(ASSIGNMENTS, own);
    var r := Import(env, w.az, AssignmentId(own), cr.spec, definitionId);
    ImportGoesThrough(env, w.az, AssignmentId(own), own, cr.spec, definitionId);
    var adopted := cr.(status := Adopt(cr.status, AssignmentId(own), r.value.value));
    AdoptingShape(env, w, k, own, r.az, adopted);
    BareWrite(env, r.az, adopted, definitionId, own);
  }

  lemma {:induction false} AdoptingShape(env: Env, w: World, k: Kube, own: Key, az: Azure, adopted: AssignmentCR)
    requires Adopting(w, own) && k.fetch && Resolve(w.stored.value.spec, k.definition).Resolved?
    requires var r := Import(env, w.az, AssignmentId(own), w.stored.value.spec, Resolve(w.stored.value.spec, k.definition).id);
             r.value.Some? && az == r.az
             && adopted == w.stored.value.(status := Adopt(w.stored.value.status, AssignmentId(own), r.value.value))
    ensures ShapeOf(env, w, k) == Writing(az, adopted, Resolve(w.stored.value.spec, k.definition).id)
  {
  }

  lemma {:induction false} ImportGoesThrough(env: Env, az: Azure, id: string, key: Key, spec: AssignmentSpec, definitionId: string)
    requires KeyOfAssignmentId(id) == Some(key) && NamesKind(FOLDED_ASSIGNMENTS, id)
    requires key in az.assignments && !env.fails(az.calls)
    ensures var r := Import(env, az, id, spec, definitionId);
            && r.value.Some? && r.az == Logged(az, ReadAssignment(r.value.value.location))
  {
  }

  /** With no exemptions and no permissions, a write is one call. */
  lemma {:induction false} BareWrite(env: Env, az: Azure, cr: AssignmentCR, definitionId: string, own: Key)
    requires !env.fails(az.calls) && WriteKey(cr) == own
    requires cr.spec.exemptions == [] && cr.status.exemptions == [] && Permissions(cr.spec.identity) == []
    ensures var a := Apply(env, az, cr, definitionId);
            && a.ok && a.id == AssignmentId(own) && a.exemptions == Some([])
            && a.az == Logged(az, PutAssignment(own, BodyOf(cr, definitionId), a.location))
                         .(assignments := az.assignments[own := BodyOf(cr, definitionId)])
  {
  }

  /** Two reconciles in adopt-once mode, every call going through: each writes the assignment. */
  lemma {:induction false} AdoptOnceWritesAgain(env: Env, w: World, k: Kube, own: Key)
    requires Adopting(w, own) && k.fetch && k.status && Resolve(w.stored.value.spec, k.definition).Resolved?
    requires forall i :: w.az.calls <= i < w.az.calls + 4 ==> !env.fails(i)
    ensures var log := Run(env, w, [Reconcile(k), Reconcile(k)]).az.log;
            && |log| == |w.az.log| + 4
            && log[|w.az.log| + 1].PutAssignment? && log[|w.az.log| + 1].key == own
            && log[|w.az.log| + 3].PutAssignment? && log[|w.az.log| + 3].key == own
  {
    AdoptingWrites(env, w, k, own);
    var w1 := Step(env, w, k);
    AdoptingWrites(env, w1, k, own);
    StepExtendsLog(env, w1, k, own);
    assert [Reconcile(k), Reconcile(k)][1..] == [Reconcile(k)] && [Reconcile(k)][1..] == [];
    assert Run(env, w1, [Reconcile(k)]) == Step(env, w1, k);
  }

  lemma {:induction false} StepExtendsLog(env: Env, w: World, k: Kube, own: Key)
    requires Adopting(w, own) && k.fetch && Resolve(w.stored.value.spec, k.definition).Resolved?
    ensures LogExtends(w.az.log, Step(env, w, k).az.log)
  {
    ShapeReads(env, w, k);
    match ShapeOf(env, w, k)
    case Writing(az, cr, definitionId) => ApplyWrites(env, az, cr, definitionId); WriteExtendsLog(env, w.az.log, az, cr, definitionId);
    case _ =>
  }

  lemma {:induction false} WriteExtendsLog(env: Env, before: seq<Call>, az: Azure, cr: AssignmentCR, definitionId: string)
    requires LogExtends(before, az.log)
    ensures LogExtends(before, Apply(env, az, cr, definitionId).az.log)
  {
    ApplyWrites(env, az, cr, definitionId);
    var end := Apply(env, az, cr, definitionId).az.log;
    assert end[..|before|] == end[..|az.log|][..|before|];
  }
}
