/** What a step of the assignment controller reads before it writes, and runs of steps and edits. */
module AssignmentSteps {
  import opened Wrappers
  import opened Text
  import opened ResourceId
  import opened Resource
  import opened Cloud
  import opened InlineExemptions
  import opened AssignmentService
  import opened AssignmentController

  /**
   From Azure `az` and status `s` to `az2` and `s2` by at most one import read, which binds the import
   ID and takes over the location Azure reports.
   */
  predicate ReadBy(cr: AssignmentCR, az: Azure, s: AssignmentStatus, az2: Azure, s2: AssignmentStatus) {
    && az2.assignments == az.assignments && az2.exemptions == az.exemptions && az2.grants == az.grants
    && az2.minted == az.minted && s2.exemptions == s.exemptions
    && (Reason(s2, READY) == Reason(s, READY) || Reason(s2, READY) != APPLIED_ONCE)
    && (|| (az2.log == az.log && s2.assignmentId == s.assignmentId && s2.location == s.location)
        || (&& |az2.log| == |az.log| + 1 && az2.log[..|az.log|] == az.log && az2.log[|az.log|].ReadAssignment?
            && s2.location == Keep(s.location, az2.log[|az.log|].location)
            && cr.annotations.importId != "" && s2.assignmentId == cr.annotations.importId
            && (s.assignmentId == "" || EqualFold(cr.annotations.importId, s.assignmentId))))
  }

  lemma {:induction false} ImportReads(env: Env, az: Azure, id: string, spec: AssignmentSpec, definitionId: string)
    ensures var r := Import(env, az, id, spec, definitionId);
            && r.az.assignments == az.assignments && r.az.exemptions == az.exemptions && r.az.grants == az.grants
            && r.az.minted == az.minted
            && r.az.log == match r.value case None => az.log case Some(i) => az.log + [ReadAssignment(i.location)]
  {
  }

  /** Nothing happened but calls without effect. */
  predicate OnlyCalls(az: Azure, az2: Azure) {
    az2 == az.(calls := az2.calls)
  }

  /** Before anything is written, a step only reads. */
  lemma {:induction false} ShapeReads(env: Env, w: World, k: Kube)
    ensures match ShapeOf(env, w, k)
            case Idle(az) => OnlyCalls(w.az, az)
            case Flagged(az, status) => w.stored.Some? && ReadBy(w.stored.value, w.az, w.stored.value.status, az, status)
            case Writing(az, cr, _) =>
              && w.stored.Some? && ReadBy(w.stored.value, w.az, w.stored.value.status, az, cr.status)
              && cr == w.stored.value.(status := cr.status)
              && !cr.deleting && cr.finalizer
              && (cr.status.assignmentId == "" ==> Key(cr.spec.scope, LookupName(cr)) !in az.assignments)
            case _ => w.stored.Some?
  {
    if w.stored.Some? && k.fetch && !w.stored.value.deleting && w.stored.value.finalizer {
      var cr := w.stored.value;
      if Resolve(cr.spec, k.definition).Resolved? {
        ImportShapeReads(env, w.az, cr, Resolve(cr.spec, k.definition).id);
      }
    }
  }

  lemma {:induction false} ImportShapeReads(env: Env, az: Azure, cr: AssignmentCR, definitionId: string)
    ensures match ImportShape(env, az, cr, definitionId)
            case Flagged(az2, status) => ReadBy(cr, az, cr.status, az2, status)
            case Writing(az2, cr2, _) =>
              && ReadBy(cr, az, cr.status, az2, cr2.status) && cr2 == cr.(status := cr2.status)
              && (cr2.status.assignmentId == "" ==> Key(cr2.spec.scope, LookupName(cr2)) !in az2.assignments)
            case Idle(az2) => OnlyCalls(az, az2)
            case _ => false
  {
    HandleImportReads(env, az, cr, definitionId);
    match HandleImport(env, az, cr, definitionId)
    case Proceed(az2, status) => CheckExistingReads(env, az2, cr.(status := status));
    case _ =>
  }

  lemma {:induction false} HandleImportReads(env: Env, az: Azure, cr: AssignmentCR, definitionId: string)
    ensures match HandleImport(env, az, cr, definitionId)
            case Halt(az2) => OnlyCalls(az, az2)
            case Flag(az2, status) => ReadBy(cr, az, cr.status, az2, status)
            case Proceed(az2, status) => ReadBy(cr, az, cr.status, az2, status)
  {
    ImportReads(env, az, cr.annotations.importId, cr.spec, definitionId);
    var r := Import(env, az, cr.annotations.importId, cr.spec, definitionId);
    if cr.annotations.importId != "" && r.value.Some?
       && (cr.status.assignmentId == "" || EqualFold(cr.annotations.importId, cr.status.assignmentId)) {
      AdoptReads(cr, az, r.az, r.value.value);
    }
  }

  lemma {:induction false} CheckExistingReads(env: Env, az: Azure, cr: AssignmentCR)
    ensures match CheckExisting(env, az, cr)
            case Halt(az2) => OnlyCalls(az, az2) && cr.status.assignmentId == ""
            case Flag(az2, status) =>
              && OnlyCalls(az, az2) && status == WithCondition(cr.status, READY, false, "PolicyAssignmentAlreadyExists")
            case Proceed(az2, status) =>
              && OnlyCalls(az, az2) && status == cr.status
              && (cr.status.assignmentId == "" ==> Key(cr.spec.scope, LookupName(cr)) !in az2.assignments)
  {
  }

  lemma {:induction false} AdoptReads(cr: AssignmentCR, az: Azure, az2: Azure, i: Imported)
    requires az2.assignments == az.assignments && az2.exemptions == az.exemptions && az2.grants == az.grants
    requires az2.minted == az.minted && az2.log == az.log + [ReadAssignment(i.location)]
    requires cr.annotations.importId != ""
    requires cr.status.assignmentId == "" || EqualFold(cr.annotations.importId, cr.status.assignmentId)
    ensures var adopted := Adopt(cr.status, cr.annotations.importId, i);
            && ReadBy(cr, az, cr.status, az2, adopted)
            && ReadBy(cr, az, cr.status, az2, WithCondition(adopted, READY, true, "ObservedOnly"))
  {
  }

  // ---- runs ----------------------------------------------------------------------------------------

  /** What can happen between and at reconciles: edits and deletion by users, changes to Azure by others. */
  datatype Event =
    | Reconcile(k: Kube)
    | Edit(annotations: Annotations, spec: AssignmentSpec)
    | MarkDeleted
    | Outside(key: Key, body: Option<Assignment>)

  function Happen(env: Env, w: World, e: Event): World {
    match e
    case Reconcile(k) => Step(env, w, k)
    case Edit(annotations, spec) =>
      if w.stored.None? then w else w.(stored := Some(w.stored.value.(annotations := annotations, spec := spec)))
    case MarkDeleted =>
      if w.stored.None? then w
      else if !w.stored.value.finalizer then w.(stored := None)
      else w.(stored := Some(w.stored.value.(deleting := true)))
    case Outside(key, body) =>
      w.(az := w.az.(assignments := match body case None => w.az.assignments - {key} case Some(b) => w.az.assignments[key := b]))
  }

  function Run(env: Env, w: World, events: seq<Event>): World
    decreases |events|
  {
    if events == [] then w else Run(env, Happen(env, w, events[0]), events[1..])
  }
}
