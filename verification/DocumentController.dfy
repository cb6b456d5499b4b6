/**
 The controller of definitions and the controller of initiatives, as one machine over the kind of document:
 one call of `Reconcile` as one step over the stored resource, an in-memory copy of it, and Azure. The two
 differ in how an import ID is compared with the bound one, and in that initiatives first resolve references.
 */
module DocumentController {
  import opened Wrappers
  import opened Text
  import opened ResourceId
  import opened Resource
  import opened Documents

  /**
   How the API server treats one step: which of its calls succeed, and what it answers when the i-th
   reference of an initiative is fetched.
   */
  datatype Kube = Kube(fetch: bool, update: bool, status: bool, definition: nat -> Answer)

  /** The stored resource (None once it is gone) and Azure. */
  datatype World = World(stored: Option<DocumentCR>, lib: Library)

  /** `Status().Update`: persists the status and nothing else. */
  function Save(w: World, status: DocumentStatus, ok: bool): World {
    if ok && w.stored.Some? then w.(stored := Some(w.stored.value.(status := status))) else w
  }

  /** `Update`: persists metadata and spec; a deleting resource without finalizer is gone. */
  function Update(w: World, cr: DocumentCR, ok: bool): World {
    if !ok || w.stored.None? then w
    else if cr.deleting && !cr.finalizer then w.(stored := None)
    else w.(stored := Some(cr.(status := w.stored.value.status)))
  }

  function WithCondition(s: DocumentStatus, kind: string, status: bool, reason: string): DocumentStatus {
    s.(conditions := s.conditions[kind := Condition(status, reason)])
  }

  function WithDrift(s: DocumentStatus, fields: seq<string>): DocumentStatus {
    if |fields| > 0 then WithCondition(s, DRIFT, true, "SpecMismatch") else WithCondition(s, DRIFT, false, "InSync")
  }

  function Reason(s: DocumentStatus, kind: string): string {
    if kind in s.conditions then s.conditions[kind].reason else ""
  }

  // ---- reference resolution ------------------------------------------------------------------------------

  predicate Blocked(policies: seq<PolicyRef>, answer: nat -> Answer, i: nat)
    requires i < |policies|
  {
    policies[i].ref != "" && (answer(i).Missing? || answer(i).id == "")
  }

  /** The first reference from `from` on that cannot be resolved, or the end. */
  function FirstBlocked(policies: seq<PolicyRef>, answer: nat -> Answer, from: nat): (i: nat)
    requires from <= |policies|
    ensures from <= i <= |policies|
    ensures forall j: nat :: from <= j < i ==> !Blocked(policies, answer, j)
    ensures i < |policies| ==> Blocked(policies, answer, i)
    decreases |policies| - from
  {
    if from == |policies| || Blocked(policies, answer, from) then from else FirstBlocked(policies, answer, from + 1)
  }

  function ResolvedId(policies: seq<PolicyRef>, answer: nat -> Answer, i: nat): string
    requires i < |policies| && !Blocked(policies, answer, i)
  {
    if policies[i].ref != "" then answer(i).id else policies[i].id
  }

  datatype Resolution = Resolved(ids: seq<string>) | Parked(reason: string, at: nat)

  /** All IDs, as many as there are policies and in their order; or none, parked at the first that fails. */
  function Resolve(policies: seq<PolicyRef>, answer: nat -> Answer): Resolution {
    var i := FirstBlocked(policies, answer, 0);
    if i == |policies| then Resolved(seq(i, j requires 0 <= j < i => ResolvedId(policies, answer, j)))
    else Parked(if answer(i).Missing? then "RefNotFound" else "RefNotReady", i)
  }

  /** Definitions refer to nothing. */
  function ResolveFor(kind: DocumentKind, spec: DocumentSpec, answer: nat -> Answer): Resolution {
    if kind.Definition? then Resolved([]) else Resolve(spec.policies, answer)
  }

  // ---- the step --------------------------------------------------------------------------------------------

  function Release(w: World, cr: DocumentCR, ok: bool): World {
    Update(w, cr.(finalizer := false), ok)
  }

  function HandleDeletion(env: Env, w: World, cr: DocumentCR, k: Kube): World {
    if !cr.finalizer then w
    else if cr.annotations.importMode == OBSERVE_ONLY || cr.status.id == "" then Release(w, cr, k.update)
    else
      var d := DropDocument(env, w.lib, DeleteAddress(cr));
      if d.value then Release(w.(lib := d.lib), cr, k.update)
      else Save(w.(lib := d.lib), WithCondition(cr.status, READY, false, "DeleteFailed"), k.status)
  }

  /** How one phase ends: the step stops there, or saves a status and stops, or goes on. */
  datatype Verdict =
    | Halt(lib: Library)
    | Flag(lib: Library, status: DocumentStatus)
    | Proceed(lib: Library, status: DocumentStatus)

  /** Definitions compare the import ID with the bound one exactly, initiatives up to letter case. */
  predicate SameId(kind: DocumentKind, importId: string, bound: string) {
    if kind.Definition? then importId == bound else EqualFold(importId, bound)
  }

  function Adopt(s: DocumentStatus, id: string, drift: seq<string>): DocumentStatus {
    WithDrift(WithCondition(s.(id := id), IMPORTED, true, "ImportSucceeded"), drift)
  }

  function ImportFailed(s: DocumentStatus): DocumentStatus {
    WithCondition(WithCondition(s, IMPORTED, false, "ImportFailed"), READY, false, "ImportFailed")
  }

  function HandleImport(env: Env, kind: DocumentKind, lib: Library, cr: DocumentCR, ids: seq<string>): Verdict {
    var id, s := cr.annotations.importId, cr.status;
    if id == "" then Proceed(lib, s)
    else if s.id != "" && !SameId(kind, id, s.id) then Flag(lib, WithCondition(s, READY, false, "ImportConflict"))
    else if ModeOf(cr.annotations) == ADOPT_ONCE && Reason(s, READY) == APPLIED_ONCE then Halt(lib)
    else
      var r := Import(env, kind, lib, id, cr.spec, ids);
      AfterImport(r.lib, cr, r.value)
  }

  function AfterImport(lib: Library, cr: DocumentCR, drift: Option<seq<string>>): Verdict {
    match drift
    case None => Flag(lib, ImportFailed(cr.status))
    case Some(fields) =>
      var adopted := Adopt(cr.status, cr.annotations.importId, fields);
      if ModeOf(cr.annotations) == OBSERVE_ONLY then Flag(lib, WithCondition(adopted, READY, true, "ObservedOnly"))
      else Proceed(lib, adopted)
  }

  function AlreadyExists(kind: DocumentKind): string {
    if kind.Definition? then "PolicyDefinitionAlreadyExists" else "PolicyInitiativeAlreadyExists"
  }

  /** An unbound resource may only be written where nothing exists yet. */
  function CheckExisting(env: Env, kind: DocumentKind, lib: Library, cr: DocumentCR): Verdict {
    if cr.status.id != "" then Proceed(lib, cr.status)
    else
      var f := FindDocument(env, kind, lib, WriteAddress(cr));
      if f.value.None? then Halt(f.lib)
      else if f.value.value != "" then Flag(f.lib, WithCondition(cr.status, READY, false, AlreadyExists(kind)))
      else Proceed(f.lib, cr.status)
  }

  function Applied(cr: DocumentCR, id: string): DocumentStatus {
    WithCondition(cr.status.(id := id, appliedVersion := cr.spec.version), READY, true,
                  if cr.annotations.importMode == ADOPT_ONCE then APPLIED_ONCE else "Reconciled")
  }

  function WriteStep(env: Env, kind: DocumentKind, w: World, cr: DocumentCR, ids: seq<string>, k: Kube): World {
    var r := PutDocument(env, kind, w.lib, WriteAddress(cr), BodyOf(kind, cr.spec, ids));
    Save(w.(lib := r.lib),
         if r.value.Some? then Applied(cr, r.value.value) else WithCondition(cr.status, READY, false, "ReconcileFailed"),
         k.status)
  }

  /** What a step comes to: the finalizer, deletion, a status, a write from the given Azure and copy, or nothing. */
  datatype Plan =
    | Idle(lib: Library)
    | Finalizing
    | Deleting
    | Flagging(lib: Library, status: DocumentStatus)
    | Writing(lib: Library, cr: DocumentCR, ids: seq<string>)

  function PlanOf(env: Env, kind: DocumentKind, w: World, k: Kube): Plan {
    if w.stored.None? || !k.fetch then Idle(w.lib)
    else if w.stored.value.deleting then Deleting
    else if !w.stored.value.finalizer then Finalizing
    else
      match ResolveFor(kind, w.stored.value.spec, k.definition)
      case Parked(reason, _) => Flagging(w.lib, WithCondition(w.stored.value.status, READY, false, reason))
      case Resolved(ids) => ManagePlan(env, kind, w.lib, w.stored.value, ids)
  }

  function ManagePlan(env: Env, kind: DocumentKind, lib: Library, cr: DocumentCR, ids: seq<string>): Plan {
    match HandleImport(env, kind, lib, cr, ids)
    case Halt(lib) => Idle(lib)
    case Flag(lib, status) => Flagging(lib, status)
    case Proceed(lib, status) => ReconcilePlan(env, kind, lib, cr.(status := status), ids)
  }

  function ReconcilePlan(env: Env, kind: DocumentKind, lib: Library, cr: DocumentCR, ids: seq<string>): Plan {
    match CheckExisting(env, kind, lib, cr)
    case Halt(lib) => Idle(lib)
    case Flag(lib, status) => Flagging(lib, status)
    case Proceed(lib, _) => Writing(lib, cr, ids)
  }

  function Outcome(env: Env, kind: DocumentKind, w: World, k: Kube, plan: Plan): World
    requires plan.Finalizing? || plan.Deleting? ==> w.stored.Some?
  {
    match plan
    case Idle(lib) => w.(lib := lib)
    case Finalizing => Update(w, w.stored.value.(finalizer := true), k.update)
    case Deleting => HandleDeletion(env, w, w.stored.value, k)
    case Flagging(lib, status) => Save(w.(lib := lib), status, k.status)
    case Writing(lib, cr, ids) => WriteStep(env, kind, w.(lib := lib), cr, ids, k)
  }

  function Step(env: Env, kind: DocumentKind, w: World, k: Kube): World {
    Outcome(env, kind, w, k, PlanOf(env, kind, w, k))
  }

  // ---- the controller ----------------------------------------------------------------------------------------

  /** The copy of the resource a reconcile works on. */
  class Copy {
    var cr: DocumentCR

    constructor (cr: DocumentCR)
      ensures this.cr == cr
    {
      this.cr := cr;
    }

    method SetCondition(kind: string, status: bool, reason: string)
      modifies this
      ensures cr == old(cr).(status := WithCondition(old(cr).status, kind, status, reason))
    {
      cr := cr.(status := cr.status.(conditions := cr.status.conditions[kind := Condition(status, reason)]));
    }

    method SetDriftCondition(fields: seq<string>)
      modifies this
      ensures cr == old(cr).(status := WithDrift(old(cr).status, fields))
    {
      if |fields| > 0 {
        SetCondition(DRIFT, true, "SpecMismatch");
      } else {
        SetCondition(DRIFT, false, "InSync");
      }
    }
  }

  class DocumentReconciler {
    const client: Client
    const service: Service
    var stored: Option<DocumentCR>

    ghost function Now(): World
      reads this, client
    {
      World(stored, client.lib)
    }

    constructor (client: Client, service: Service, stored: Option<DocumentCR>)
      requires service.client == client
      ensures this.client == client && this.service == service && this.stored == stored
    {
      this.client, this.service, this.stored := client, service, stored;
    }

    method UpdateStatus(copy: Copy, k: Kube)
      modifies this`stored
      ensures Now() == Save(old(Now()), copy.cr.status, k.status)
    {
      if k.status && stored.Some? {
        stored := Some(stored.value.(status := copy.cr.status));
      }
    }

    method UpdateResource(copy: Copy, k: Kube)
      modifies this`stored
      ensures Now() == Update(old(Now()), copy.cr, k.update)
    {
      if k.update && stored.Some? {
        if copy.cr.deleting && !copy.cr.finalizer {
          stored := None;
        } else {
          stored := Some(copy.cr.(status := stored.value.status));
        }
      }
    }

    method Reconcile(k: Kube)
      requires service.client == client
      modifies this`stored, client
      ensures Now() == Step(client.env, client.kind, old(Now()), k)
    {
      if stored.None? || !k.fetch {
        return;
      }
      var copy := new Copy(stored.value);
      if copy.cr.deleting {
        DoHandleDeletion(copy, k);
        return;
      }
      if !copy.cr.finalizer {
        copy.cr := copy.cr.(finalizer := true);
        UpdateResource(copy, k);
        return;
      }
      var ids: Option<seq<string>> := Some([]);
      if client.kind.Initiative? {
        ids := ResolvePolicyDefinitionIds(copy, k);
        if ids.None? {
          return;
        }
      }
      Manage(copy, ids.value, k);
    }

    method Manage(copy: Copy, ids: seq<string>, k: Kube)
      requires service.client == client
      requires client.kind.Initiative? ==> |ids| == |copy.cr.spec.policies|
      modifies this`stored, client, copy
      ensures Now() == Outcome(client.env, client.kind, old(Now()), k,
                               ManagePlan(client.env, client.kind, old(client.lib), old(copy.cr), ids))
    {
      var done := DoHandleImport(copy, ids, k);
      if done {
        return;
      }
      DoReconcile(copy, ids, k);
    }

    method DoHandleDeletion(copy: Copy, k: Kube)
      requires service.client == client
      modifies this`stored, client, copy
      ensures Now() == HandleDeletion(client.env, old(Now()), old(copy.cr), k)
    {
      if !copy.cr.finalizer {
        return;
      }
      if copy.cr.annotations.importMode == OBSERVE_ONLY {
        copy.cr := copy.cr.(finalizer := false);
        UpdateResource(copy, k);
        return;
      }
      if copy.cr.status.id != "" {
        var ok := service.Delete(copy.cr);
        if !ok {
          copy.SetCondition(READY, false, "DeleteFailed");
          UpdateStatus(copy, k);
          return;
        }
      }
      copy.cr := copy.cr.(finalizer := false);
      UpdateResource(copy, k);
    }

    /**
     All-or-nothing: either no reference is blocked and every policy has its ID at its own index, or
     nothing is returned and the status says why the first blocked reference failed.
     */
    method ResolvePolicyDefinitionIds(copy: Copy, k: Kube) returns (ids: Option<seq<string>>)
      modifies this`stored, copy
      ensures match Resolve(old(copy.cr).spec.policies, k.definition)
              case Resolved(r) =>
                ids == Some(r) && |r| == |copy.cr.spec.policies| && Now() == old(Now()) && copy.cr == old(copy.cr)
              case Parked(reason, _) =>
                ids == None && Now() == Save(old(Now()), WithCondition(old(copy.cr).status, READY, false, reason), k.status)
    {
      var policies := copy.cr.spec.policies;
      var resolved := new string[|policies|];
      for i := 0 to |policies|
        modifies resolved, copy, this`stored
        invariant copy.cr == old(copy.cr) && stored == old(stored)
        invariant FirstBlocked(policies, k.definition, 0) == FirstBlocked(policies, k.definition, i)
        invariant forall j: nat :: j < i ==> !Blocked(policies, k.definition, j)
        invariant forall j: nat :: j < i ==> resolved[j] == ResolvedId(policies, k.definition, j)
      {
        if policies[i].ref != "" {
          if k.definition(i).Missing? {
            copy.SetCondition(READY, false, "RefNotFound");
            UpdateStatus(copy, k);
            return None;
          }
          if k.definition(i).id == "" {
            copy.SetCondition(READY, false, "RefNotReady");
            UpdateStatus(copy, k);
            return None;
          }
          resolved[i] := k.definition(i).id;
        } else {
          resolved[i] := policies[i].id;
        }
      }
      assert resolved[..] == Resolve(policies, k.definition).ids;
      return Some(resolved[..]);
    }

    method DoHandleImport(copy: Copy, ids: seq<string>, k: Kube) returns (done: bool)
      requires service.client == client
      modifies this`stored, client, copy
      ensures match HandleImport(client.env, client.kind, old(client.lib), old(copy.cr), ids)
              case Halt(lib) => done && Now() == old(Now()).(lib := lib)
              case Flag(lib, status) => done && Now() == Save(old(Now()).(lib := lib), status, k.status)
              case Proceed(lib, status) =>
                !done && Now() == old(Now()).(lib := lib) && copy.cr == old(copy.cr).(status := status)
    {
      var importId := copy.cr.annotations.importId;
      if importId == "" {
        return false;
      }
      var bound := copy.cr.status.id;
      if bound != "" && (if client.kind.Definition? then importId != bound else !EqualFold(importId, bound)) {
        copy.SetCondition(READY, false, "ImportConflict");
        UpdateStatus(copy, k);
        return true;
      }
      var importMode := copy.cr.annotations.importMode;
      if importMode == "" {
        importMode := OBSERVE_ONLY;
      }
      if importMode == ADOPT_ONCE {
        if READY in copy.cr.status.conditions && copy.cr.status.conditions[READY].reason == APPLIED_ONCE {
          return true;
        }
      }
      var drift := service.ImportExisting(importId, copy.cr, ids);
      done := DoAfterImport(copy, drift, importMode, k);
    }

    method DoAfterImport(copy: Copy, drift: Option<seq<string>>, importMode: string, k: Kube) returns (done: bool)
      requires importMode == ModeOf(copy.cr.annotations)
      modifies this`stored, copy
      ensures match AfterImport(client.lib, old(copy.cr), drift)
              case Halt(_) => false
              case Flag(_, status) => done && Now() == Save(old(Now()), status, k.status)
              case Proceed(_, status) => !done && Now() == old(Now()) && copy.cr == old(copy.cr).(status := status)
    {
      if drift.None? {
        copy.SetCondition(IMPORTED, false, "ImportFailed");
        copy.SetCondition(READY, false, "ImportFailed");
        UpdateStatus(copy, k);
        return true;
      }
      copy.cr := copy.cr.(status := copy.cr.status.(id := copy.cr.annotations.importId));
      copy.SetCondition(IMPORTED, true, "ImportSucceeded");
      copy.SetDriftCondition(drift.value);
      if importMode == OBSERVE_ONLY {
        copy.SetCondition(READY, true, "ObservedOnly");
        UpdateStatus(copy, k);
        return true;
      }
      return false;
    }

    method DoReconcile(copy: Copy, ids: seq<string>, k: Kube)
      requires service.client == client
      requires client.kind.Initiative? ==> |ids| == |copy.cr.spec.policies|
      modifies this`stored, client, copy
      ensures Now() == Outcome(client.env, client.kind, old(Now()), k,
                               ReconcilePlan(client.env, client.kind, old(client.lib), old(copy.cr), ids))
    {
      var wasCreated := copy.cr.status.id == "";
      if wasCreated {
        var existing := service.Get(copy.cr);
        if existing.None? {
          return;
        }
        if existing.value != "" {
          copy.SetCondition(READY, false, AlreadyExists(client.kind));
          UpdateStatus(copy, k);
          return;
        }
      }
      DoWrite(copy, ids, k);
    }

    method DoWrite(copy: Copy, ids: seq<string>, k: Kube)
      requires service.client == client
      requires client.kind.Initiative? ==> |ids| == |copy.cr.spec.policies|
      modifies this`stored, client, copy
      ensures Now() == WriteStep(client.env, client.kind, old(Now()), old(copy.cr), ids, k)
    {
      var id := service.CreateOrUpdate(copy.cr, ids);
      if id.None? {
        copy.SetCondition(READY, false, "ReconcileFailed");
        UpdateStatus(copy, k);
        return;
      }
      copy.cr := copy.cr.(status := copy.cr.status.(id := id.value));
      copy.cr := copy.cr.(status := copy.cr.status.(appliedVersion := copy.cr.spec.version));
      var readyReason := "Reconciled";
      if copy.cr.annotations.importMode == ADOPT_ONCE {
        readyReason := APPLIED_ONCE;
      }
      copy.SetCondition(READY, true, readyReason);
      UpdateStatus(copy, k);
    }
  }
}
