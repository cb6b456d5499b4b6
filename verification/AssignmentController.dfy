/**
 The assignment controller: one call of `Reconcile` as one step over the stored resource, an in-memory
 copy of it, and Azure.
 */
module AssignmentController {
  import opened Wrappers
  import opened Text
  import opened ResourceId
  import opened Resource
  import opened Cloud
  import opened InlineExemptions
  import opened RoleGrants
  import opened AssignmentService

  /** How the API server treats one step: which of its calls succeed, and the referenced definition. */
  datatype Kube = Kube(fetch: bool, update: bool, status: bool, definition: Answer)

  /** The stored resource (None once it is gone) and Azure. */
  datatype World = World(stored: Option<AssignmentCR>, az: Azure)

  /** `Status().Update`: persists the status and nothing else. */
  function Save(w: World, status: AssignmentStatus, ok: bool): World {
    if ok && w.stored.Some? then w.(stored := Some(w.stored.value.(status := status))) else w
  }

  /** `Update`: persists metadata and spec; a deleting resource without finalizer is gone. */
  function Update(w: World, cr: AssignmentCR, ok: bool): World {
    if !ok || w.stored.None? then w
    else if cr.deleting && !cr.finalizer then w.(stored := None)
    else w.(stored := Some(cr.(status := w.stored.value.status)))
  }

  function WithCondition(s: AssignmentStatus, kind: string, status: bool, reason: string): AssignmentStatus {
    s.(conditions := s.conditions[kind := Condition(status, reason)])
  }

  function WithDrift(s: AssignmentStatus, fields: seq<string>): AssignmentStatus {
    if |fields| > 0 then WithCondition(s, DRIFT, true, "SpecMismatch") else WithCondition(s, DRIFT, false, "InSync")
  }

  function Reason(s: AssignmentStatus, kind: string): string {
    if kind in s.conditions then s.conditions[kind].reason else ""
  }

  function Release(w: World, cr: AssignmentCR, ok: bool): World {
    Update(w, cr.(finalizer := false), ok)
  }

  function HandleDeletion(env: Env, w: World, cr: AssignmentCR, k: Kube): World {
    if !cr.finalizer then w
    else if cr.status.assignmentId == "" then Release(w, cr, k.update)
    else
      var d := Deleted(env, w.az, cr.spec.scope, cr.status.assignmentId, cr.status.exemptions, cr.spec.identity);
      if d.value then Release(w.(az := d.az), cr, k.update)
      else Save(w.(az := d.az), WithCondition(cr.status, READY, false, "DeleteFailed"), k.status)
  }

  datatype Resolution = Resolved(id: string) | Parked(reason: string)

  function Resolve(spec: AssignmentSpec, answer: Answer): Resolution {
    if spec.definitionRef == "" then Resolved(spec.definitionId)
    else if answer.Missing? then Parked("RefNotFound")
    else if answer.id == "" then Parked("RefNotReady")
    else Resolved(answer.id)
  }

  function Keep(had: string, reported: string): string {
    if reported != "" then reported else had
  }

  function Adopt(s: AssignmentStatus, id: string, i: Imported): AssignmentStatus {
    WithDrift(WithCondition(s.(assignmentId := id, location := Keep(s.location, i.location),
                               principal := Keep(s.principal, i.principal)), IMPORTED, true, "ImportSucceeded"), i.drift)
  }

  function ImportFailed(s: AssignmentStatus): AssignmentStatus {
    WithCondition(WithCondition(s, IMPORTED, false, "ImportFailed"), READY, false, "ImportFailed")
  }

  /** How one phase ends: the step stops there, or saves a status and stops, or goes on. */
  datatype Verdict =
    | Halt(az: Azure)
    | Flag(az: Azure, status: AssignmentStatus)
    | Proceed(az: Azure, status: AssignmentStatus)

  function HandleImport(env: Env, az: Azure, cr: AssignmentCR, definitionId: string): Verdict {
    var id, s := cr.annotations.importId, cr.status;
    if id == "" then Proceed(az, s)
    else if s.assignmentId != "" && !EqualFold(id, s.assignmentId) then
      Flag(az, WithCondition(s, READY, false, "ImportConflict"))
    else if ModeOf(cr.annotations) == ADOPT_ONCE && Reason(s, READY) == APPLIED_ONCE then Halt(az)
    else
      var r := Import(env, az, id, cr.spec, definitionId);
      AfterImport(r.az, cr, r.value)
  }

  function AfterImport(az: Azure, cr: AssignmentCR, r: Option<Imported>): Verdict {
    match r
    case None => Flag(az, ImportFailed(cr.status))
    case Some(i) =>
      var adopted := Adopt(cr.status, cr.annotations.importId, i);
      if ModeOf(cr.annotations) == OBSERVE_ONLY then Flag(az, WithCondition(adopted, READY, true, "ObservedOnly"))
      else Proceed(az, adopted)
  }

  /** An unbound resource may only be written where nothing exists yet. */
  function CheckExisting(env: Env, az: Azure, cr: AssignmentCR): Verdict {
    if cr.status.assignmentId != "" then Proceed(az, cr.status)
    else
      var f := FindAssignment(env, az, Key(cr.spec.scope, LookupName(cr)));
      match f.value
      case None => Halt(f.az)
      case Some(id) =>
        if id != "" then Flag(f.az, WithCondition(cr.status, READY, false, "PolicyAssignmentAlreadyExists"))
        else Proceed(f.az, cr.status)
  }

  /** The status after a write attempt; empty results leave what was there. */
  function Recorded(s: AssignmentStatus, a: Applied): AssignmentStatus {
    s.(assignmentId := Keep(s.assignmentId, a.id), location := Keep(s.location, a.location),
       principal := Keep(s.principal, a.principal), exemptions := a.exemptions.GetOr(s.exemptions))
  }

  function WriteStep(env: Env, w: World, cr: AssignmentCR, definitionId: string, k: Kube): World {
    var a := Apply(env, w.az, cr, definitionId);
    var s := Recorded(cr.status, a);
    Save(w.(az := a.az),
         if a.ok then WithCondition(s, READY, true, "Reconciled") else WithCondition(s, READY, false, "ReconcileFailed"),
         k.status)
  }

  /**
   What a step comes to: nothing, or the finalizer is added, or deletion runs, or only the status is saved, or a write
   is attempted from the given Azure and in-memory copy.
   */
  datatype Shape =
    | Idle(az: Azure)
    | Finalizing
    | Deleting
    | Flagged(az: Azure, status: AssignmentStatus)
    | Writing(az: Azure, cr: AssignmentCR, definitionId: string)

  function ShapeOf(env: Env, w: World, k: Kube): Shape {
    if w.stored.None? || !k.fetch then Idle(w.az)
    else
      var cr := w.stored.value;
      if cr.deleting then Deleting
      else if !cr.finalizer then Finalizing
      else
        match Resolve(cr.spec, k.definition)
        case Parked(reason) => Flagged(w.az, WithCondition(cr.status, READY, false, reason))
        case Resolved(definitionId) => ImportShape(env, w.az, cr, definitionId)
  }

  function ImportShape(env: Env, az: Azure, cr: AssignmentCR, definitionId: string): Shape {
    match HandleImport(env, az, cr, definitionId)
    case Halt(az) => Idle(az)
    case Flag(az, status) => Flagged(az, status)
    case Proceed(az, status) => WriteShape(env, az, cr.(status := status), definitionId)
  }

  function WriteShape(env: Env, az: Azure, cr: AssignmentCR, definitionId: string): Shape {
    match CheckExisting(env, az, cr)
    case Halt(az) => Idle(az)
    case Flag(az, status) => Flagged(az, status)
    case Proceed(az, _) => Writing(az, cr, definitionId)
  }

  function Outcome(env: Env, w: World, k: Kube, shape: Shape): World
    requires shape.Finalizing? || shape.Deleting? ==> w.stored.Some?
  {
    match shape
    case Idle(az) => w.(az := az)
    case Finalizing => Update(w, w.stored.value.(finalizer := true), k.update)
    case Deleting => HandleDeletion(env, w, w.stored.value, k)
    case Flagged(az, status) => Save(w.(az := az), status, k.status)
    case Writing(az, cr, definitionId) => WriteStep(env, w.(az := az), cr, definitionId, k)
  }

  function Step(env: Env, w: World, k: Kube): World {
    Outcome(env, w, k, ShapeOf(env, w, k))
  }

  /** The copy of the resource a reconcile works on. */
  class Copy {
    var cr: AssignmentCR

    constructor (cr: AssignmentCR)
      ensures this.cr == cr
    {
      this.cr := cr;
    }

    method SetCondition(kind: string, status: bool, reason: string)
      modifies this
      ensures cr == old(cr).(status := WithCondition(old(cr).status, kind, status, reason))
    {
      cr := cr.(status := cr.status.(conditions := cr.status.conditions[kind := Condition(status, reason)]));
    }

    method SetDriftCondition(fields: seq<string>)
      modifies this
      ensures cr == old(cr).(status := WithDrift(old(cr).status, fields))
    {
      if |fields| > 0 {
        SetCondition(DRIFT, true, "SpecMismatch");
      } else {
        SetCondition(DRIFT, false, "InSync");
      }
    }
  }

  class AssignmentReconciler {
    const client: Client
    const service: Service
    var stored: Option<AssignmentCR>

    ghost function Now(): World
      reads this, client
    {
      World(stored, client.az)
    }

    predicate Wired() {
      service.client == client && service.Wired()
    }

    constructor (client: Client, service: Service, stored: Option<AssignmentCR>)
      requires service.client == client && service.Wired()
      ensures Wired() && this.client == client && this.stored == stored
    {
      this.client := client;
      this.service := service;
      this.stored := stored;
    }

    method UpdateStatus(copy: Copy, k: Kube)
      modifies this`stored
      ensures Now() == Save(old(Now()), copy.cr.status, k.status)
    {
      if k.status && stored.Some? {
        stored := Some(stored.value.(status := copy.cr.status));
      }
    }

    method UpdateResource(copy: Copy, k: Kube)
      modifies this`stored
      ensures Now() == Update(old(Now()), copy.cr, k.update)
    {
      if k.update && stored.Some? {
        if copy.cr.deleting && !copy.cr.finalizer {
          stored := None;
        } else {
          stored := Some(copy.cr.(status := stored.value.status));
        }
      }
    }

    method Reconcile(k: Kube)
      requires Wired()
      modifies this`stored, client
      ensures Now() == Step(client.env, old(Now()), k)
    {
      if stored.None? || !k.fetch {
        return;
      }
      var copy := new Copy(stored.value);
      if copy.cr.deleting {
        DoHandleDeletion(copy, k);
        return;
      }
      if !copy.cr.finalizer {
        copy.cr := copy.cr.(finalizer := true);
        UpdateResource(copy, k);
        return;
      }
      var definitionId, done := DoResolve(copy, k);
      if done {
        return;
      }
      Manage(copy, definitionId, k);
    }

    method Manage(copy: Copy, definitionId: string, k: Kube)
      requires Wired()
      modifies this`stored, client, copy
      ensures Now() == Outcome(client.env, old(Now()), k, ImportShape(client.env, old(client.az), old(copy.cr), definitionId))
    {
      var done := DoHandleImport(copy, definitionId, k);
      if done {
        return;
      }
      DoCreateOrUpdate(copy, definitionId, k);
    }

    method DoHandleDeletion(copy: Copy, k: Kube)
      requires Wired()
      modifies this`stored, client, copy
      ensures Now() == HandleDeletion(client.env, old(Now()), old(copy.cr), k)
    {
      if !copy.cr.finalizer {
        return;
      }
      if copy.cr.status.assignmentId != "" {
        var s := copy.cr.status;
        var ok := service.Delete(copy.cr.spec.scope, s.assignmentId, s.exemptions, copy.cr.spec.identity);
        if !ok {
          copy.SetCondition(READY, false, "DeleteFailed");
          UpdateStatus(copy, k);
          return;
        }
      }
      copy.cr := copy.cr.(finalizer := false);
      UpdateResource(copy, k);
    }

    method DoResolve(copy: Copy, k: Kube) returns (definitionId: string, done: bool)
      modifies this`stored, copy
      ensures match Resolve(old(copy.cr).spec, k.definition)
              case Resolved(id) => !done && definitionId == id && Now() == old(Now()) && copy.cr == old(copy.cr)
              case Parked(reason) =>
                done && Now() == Save(old(Now()), WithCondition(old(copy.cr).status, READY, false, reason), k.status)
    {
      if copy.cr.spec.definitionRef == "" {
        return copy.cr.spec.definitionId, false;
      }
      if k.definition.Missing? {
        copy.SetCondition(READY, false, "RefNotFound");
        UpdateStatus(copy, k);
        return "", true;
      }
      if k.definition.id == "" {
        copy.SetCondition(READY, false, "RefNotReady");
        UpdateStatus(copy, k);
        return "", true;
      }
      return k.definition.id, false;
    }

    method DoHandleImport(copy: Copy, definitionId: string, k: Kube) returns (done: bool)
      requires Wired()
      modifies this`stored, client, copy
      ensures match HandleImport(client.env, old(client.az), old(copy.cr), definitionId)
              case Halt(az) => done && Now() == old(Now()).(az := az)
              case Flag(az, status) => done && Now() == Save(old(Now()).(az := az), status, k.status)
              case Proceed(az, status) =>
                !done && Now() == old(Now()).(az := az) && copy.cr == old(copy.cr).(status := status)
    {
      var importId := copy.cr.annotations.importId;
      if importId == "" {
        return false;
      }
      if copy.cr.status.assignmentId != "" && !EqualFold(importId, copy.cr.status.assignmentId) {
        copy.SetCondition(READY, false, "ImportConflict");
        UpdateStatus(copy, k);
        return true;
      }
      var importMode := copy.cr.annotations.importMode;
      if importMode == "" {
        importMode := OBSERVE_ONLY;
      }
      if importMode == ADOPT_ONCE {
        if READY in copy.cr.status.conditions && copy.cr.status.conditions[READY].reason == APPLIED_ONCE {
          return true;
        }
      }
      var imported := service.ImportExisting(importId, copy.cr, definitionId);
      done := DoAfterImport(copy, imported, importMode, k);
    }

    method DoAfterImport(copy: Copy, imported: Option<Imported>, importMode: string, k: Kube) returns (done: bool)
      requires importMode == ModeOf(copy.cr.annotations)
      modifies this`stored, copy
      ensures match AfterImport(client.az, old(copy.cr), imported)
              case Halt(_) => false
              case Flag(_, status) => done && Now() == Save(old(Now()), status, k.status)
              case Proceed(_, status) => !done && Now() == old(Now()) && copy.cr == old(copy.cr).(status := status)
    {
      if imported.None? {
        FailImport(copy, k);
        return true;
      }
      TakeOver(copy, copy.cr.annotations.importId, imported.value);
      if importMode == OBSERVE_ONLY {
        copy.SetCondition(READY, true, "ObservedOnly");
        UpdateStatus(copy, k);
        return true;
      }
      return false;
    }

    method FailImport(copy: Copy, k: Kube)
      modifies this`stored, copy
      ensures Now() == Save(old(Now()), ImportFailed(old(copy.cr).status), k.status)
    {
      copy.SetCondition(IMPORTED, false, "ImportFailed");
      copy.SetCondition(READY, false, "ImportFailed");
      UpdateStatus(copy, k);
    }

    method TakeOver(copy: Copy, importId: string, i: Imported)
      modifies copy
      ensures copy.cr == old(copy.cr).(status := Adopt(old(copy.cr).status, importId, i))
    {
      var s := copy.cr.status.(assignmentId := importId);
      if i.location != "" {
        s := s.(location := i.location);
      }
      if i.principal != "" {
        s := s.(principal := i.principal);
      }
      copy.cr := copy.cr.(status := s);
      copy.SetCondition(IMPORTED, true, "ImportSucceeded");
      copy.SetDriftCondition(i.drift);
    }

    method DoCreateOrUpdate(copy: Copy, definitionId: string, k: Kube)
      requires Wired()
      modifies this`stored, client, copy
      ensures Now() == Outcome(client.env, old(Now()), k, WriteShape(client.env, old(client.az), old(copy.cr), definitionId))
    {
      var wasAssigned := copy.cr.status.assignmentId != "";
      if !wasAssigned {
        var existing := service.Get(copy.cr);
        if existing.None? {
          return;
        }
        if existing.value != "" {
          copy.SetCondition(READY, false, "PolicyAssignmentAlreadyExists");
          UpdateStatus(copy, k);
          return;
        }
      }
      DoWrite(copy, definitionId, k);
    }

    method DoWrite(copy: Copy, definitionId: string, k: Kube)
      requires Wired()
      modifies this`stored, client, copy
      ensures Now() == WriteStep(client.env, old(Now()), old(copy.cr), definitionId, k)
    {
      var id, location, principal, tracked, ok := service.CreateOrUpdate(copy.cr, definitionId);
      var s := copy.cr.status;
      if id != "" {
        s := s.(assignmentId := id);
      }
      if location != "" {
        s := s.(location := location);
      }
      if principal != "" {
        s := s.(principal := principal);
      }
      if tracked.Some? {
        s := s.(exemptions := tracked.value);
      }
      copy.cr := copy.cr.(status := s);
      if !ok {
        copy.SetCondition(READY, false, "ReconcileFailed");
        UpdateStatus(copy, k);
        return;
      }
      copy.SetCondition(READY, true, "Reconciled");
      UpdateStatus(copy, k);
    }
  }
}
