/**
 What one reconcile of a definition or initiative comes to in each situation a caller can tell beforehand: what is
 stored, which conditions it carries, and what happened to Azure. And from these, how deletion and the first
 reconciles of a resource go.
 */
module DocumentOutcomes {
  import opened Wrappers
  import opened Text
  import opened ResourceId
  import opened Resource
  import opened Drift
  import opened Documents
  import opened DocumentController
  import opened DocumentRuns

  function Marked(s: DocumentStatus, kind: string, status: bool, reason: string): DocumentStatus {
    s.(conditions := s.conditions[kind := Condition(status, reason)])
  }

  /** The stored resource has this status if the status write succeeds, and is otherwise as it was. */
  predicate Left(w: World, k: Kube, status: DocumentStatus, w2: World) {
    w.stored.Some? && w2.stored == Some(if k.status then w.stored.value.(status := status) else w.stored.value)
  }

  // ---- the finalizer -----------------------------------------------------------------------------------------

  /** The first reconcile of a resource adds the finalizer and does nothing else. */
  lemma {:induction false} FinalizerAdded(env: Env, kind: DocumentKind, w: World, k: Kube)
    requires w.stored.Some? && !w.stored.value.deleting && !w.stored.value.finalizer && k.fetch
    ensures Step(env, kind, w, k) == World(Some(w.stored.value.(finalizer := k.update)), w.lib)
  {
  }

  /** Without the resource at hand nothing happens, nor to one that is deleting and already released. */
  lemma {:induction false} NothingToDo(env: Env, kind: DocumentKind, w: World, k: Kube)
    requires w.stored.None? || !k.fetch || (w.stored.value.deleting && !w.stored.value.finalizer)
    ensures Step(env, kind, w, k) == w
  {
  }

  // ---- deletion ------------------------------------------------------------------------------------------------

  predicate Dying(w: World) {
    w.stored.Some? && w.stored.value.deleting && w.stored.value.finalizer
  }

  /** A resource that was never bound, or is in observe-only mode, is let go of without a call to Azure. */
  lemma {:induction false} LetGo(env: Env, kind: DocumentKind, w: World, k: Kube)
    requires Dying(w) && k.fetch && (w.stored.value.status.id == "" || w.stored.value.annotations.importMode == OBSERVE_ONLY)
    ensures Step(env, kind, w, k) == World(if k.update then None else w.stored, w.lib)
  {
  }

  /** Bound, in any other mode, and the delete fails: the resource is held, and says so. */
  lemma {:induction false} DeleteFails(env: Env, kind: DocumentKind, w: World, k: Kube)
    requires Dying(w) && k.fetch && w.stored.value.status.id != "" && w.stored.value.annotations.importMode != OBSERVE_ONLY
    requires env.fails(w.lib.calls)
    ensures var w2 := Step(env, kind, w, k);
            && Left(w, k, Marked(w.stored.value.status, READY, false, "DeleteFailed"), w2)
            && w2.lib.docs == w.lib.docs && w2.lib.log == w.lib.log
  {
  }

  /** The delete goes through: exactly the document of the bound name under the spec's group is gone, then the resource. */
  lemma {:induction false} DeleteGoes(env: Env, kind: DocumentKind, w: World, k: Kube)
    requires Dying(w) && k.fetch && w.stored.value.status.id != "" && w.stored.value.annotations.importMode != OBSERVE_ONLY
    requires !env.fails(w.lib.calls)
    ensures var w2, a := Step(env, kind, w, k), Address(w.stored.value.spec.group, LastSegment(w.stored.value.status.id));
            && w2.stored == (if k.update then None else w.stored)
            && w2.lib.docs == w.lib.docs - {a} && w2.lib.log == w.lib.log + [Drop(a)]
  {
  }

  /** Deleting, with its finalizer, bound to `id` under `group`, in a mode other than observe-only. */
  predicate Held(w: World, id: string, group: string) {
    && Dying(w) && id != "" && w.stored.value.status.id == id && w.stored.value.spec.group == group
    && w.stored.value.annotations.importMode != OBSERVE_ONLY
  }

  predicate KeepsHeld(group: string, e: Event) {
    e.Edit? ==> e.spec.group == group && e.annotations.importMode != OBSERVE_ONLY
  }

  lemma {:induction false} GoneRun(env: Env, kind: DocumentKind, w: World, events: seq<Event>)
    requires w.stored.None?
    ensures var end := Run(env, kind, w, events);
            end.stored.None? && end.lib.log == w.lib.log && end.lib.docs == OthersOnly(w.lib.docs, events)
    decreases |events|
  {
    if events != [] {
      GoneRun(env, kind, Happen(env, kind, w, events[0]), events[1..]);
    }
  }

  /**
   The finalizer is held. In every run that starts with deletion under way, in any mode but observe-only, whatever
   fails, edited or changed by others: either the resource is still there, deleting, with its finalizer and ID; or it is
   gone, and then its document was deleted. No other document is touched; and as long as nobody else changes Azure,
   the document is there exactly as before until its one deletion is logged.
   */
  lemma {:induction false} FinalizerHeld(env: Env, kind: DocumentKind, id: string, group: string, w: World, events: seq<Event>)
    requires Held(w, id, group) && forall e :: e in events ==> KeepsHeld(group, e)
    ensures var end, a := Run(env, kind, w, events), Address(group, LastSegment(id));
            && (if end.stored.Some? then Held(end, id, group) else end.lib.log != w.lib.log)
            && end.lib.docs - {a} == OthersOnly(w.lib.docs, events) - {a}
            && |w.lib.log| <= |end.lib.log| && end.lib.log[..|w.lib.log|] == w.lib.log
            && (forall i :: |w.lib.log| <= i < |end.lib.log| ==> end.lib.log[i] == Drop(a))
            && ((forall e :: e in events ==> !e.Outside?) ==>
                  end.lib.docs == if end.lib.log == w.lib.log then w.lib.docs else w.lib.docs - {a})
    decreases |events|
  {
    if events != [] {
      assert events[0] in events;
      var a := Address(group, LastSegment(id));
      var w1 := Happen(env, kind, w, events[0]);
      if events[0].Reconcile? {
        HeldStep(env, kind, id, group, w, events[0].k);
        OthersAside(a, w1.lib.docs, w.lib.docs, events[1..]);
      }
      if w1.stored.None? {
        GoneRun(env, kind, w1, events[1..]);
        NoOthers(w1.lib.docs, events[1..]);
      } else {
        FinalizerHeld(env, kind, id, group, w1, events[1..]);
        LogOfBoth(w.lib.log, w1.lib.log, Run(env, kind, w1, events[1..]).lib.log, Drop(a));
      }
    }
  }

  lemma {:induction false} HeldStep(env: Env, kind: DocumentKind, id: string, group: string, w: World, k: Kube)
    requires Held(w, id, group)
    ensures var w1, a := Step(env, kind, w, k), Address(group, LastSegment(id));
            && (if w1.stored.Some? then Held(w1, id, group) else w1.lib.log != w.lib.log)
            && ((w1.lib.docs == w.lib.docs && w1.lib.log == w.lib.log)
                || (w1.lib.docs == w.lib.docs - {a} && w1.lib.log == w.lib.log + [Drop(a)]))
  {
    if !k.fetch {
      NothingToDo(env, kind, w, k);
    } else if env.fails(w.lib.calls) {
      DeleteFails(env, kind, w, k);
    } else {
      DeleteGoes(env, kind, w, k);
      assert |w.lib.log + [Drop(Address(group, LastSegment(id)))]| == |w.lib.log| + 1;
    }
  }

  lemma {:induction false} NoOthers(docs: map<Address, Document>, events: seq<Event>)
    ensures (forall e :: e in events ==> !e.Outside?) ==> OthersOnly(docs, events) == docs
    decreases |events|
  {
    if events != [] && forall e :: e in events ==> !e.Outside? {
      assert events[0] in events;
      NoOthers(docs, events[1..]);
    }
  }

  lemma {:induction false} LogOfBoth(a: seq<Write>, b: seq<Write>, c: seq<Write>, x: Write)
    requires b == a || b == a + [x]
    requires |b| <= |c| && c[..|b|] == b && forall i :: |b| <= i < |c| ==> c[i] == x
    ensures |a| <= |c| && c[..|a|] == a && (forall i :: |a| <= i < |c| ==> c[i] == x)
    ensures c == a ==> b == a
  {
    assert c[..|a|] == c[..|b|][..|a|];
    if b != a {
      assert c[|a|] == c[..|b|][|a|];
    }
  }

  // ---- reconciling -----------------------------------------------------------------------------------------------

  /** A resource at work: with its finalizer, not deleting, at hand. */
  predicate AtWork(w: World, k: Kube) {
    w.stored.Some? && !w.stored.value.deleting && w.stored.value.finalizer && k.fetch
  }

  /** A reference to a resource that is missing, or has no ID yet. */
  predicate Unresolved(p: PolicyRef, answer: Answer) {
    p.ref != "" && (answer == Missing || answer == Known(""))
  }

  predicate Clear(kind: DocumentKind, spec: DocumentSpec, answer: nat -> Answer) {
    kind.Initiative? ==> forall i: nat :: i < |spec.policies| ==> !Unresolved(spec.policies[i], answer(i))
  }

  /** The IDs a clear initiative refers to: its own where it gives them, else those of the resources it names. */
  predicate IdsOf(kind: DocumentKind, spec: DocumentSpec, answer: nat -> Answer, ids: seq<string>) {
    if kind.Definition? then ids == []
    else
      && |ids| == |spec.policies|
      && forall i: nat :: i < |ids| ==>
           if spec.policies[i].ref == "" then ids[i] == spec.policies[i].id else answer(i) == Known(ids[i])
  }

  lemma {:induction false} ClearResolves(kind: DocumentKind, spec: DocumentSpec, answer: nat -> Answer) returns (ids: seq<string>)
    requires Clear(kind, spec, answer)
    ensures ResolveFor(kind, spec, answer) == Resolved(ids) && IdsOf(kind, spec, answer, ids)
  {
    assert kind.Initiative? ==>
             forall i: nat :: i < |spec.policies| ==> (Blocked(spec.policies, answer, i) <==> Unresolved(spec.policies[i], answer(i)));
    ids := ResolveFor(kind, spec, answer).ids;
    if kind.Initiative? {
      forall i: nat | i < |ids|
        ensures if spec.policies[i].ref == "" then ids[i] == spec.policies[i].id else answer(i) == Known(ids[i])
      {
        assert !Blocked(spec.policies, answer, i);
      }
    }
  }

  /** The first reference that cannot be resolved parks the initiative, and the status says why. */
  lemma {:induction false} Parks(env: Env, kind: DocumentKind, w: World, k: Kube, i: nat)
    requires AtWork(w, k) && kind.Initiative? && i < |w.stored.value.spec.policies|
    requires Unresolved(w.stored.value.spec.policies[i], k.definition(i))
    requires forall j: nat :: j < i ==> !Unresolved(w.stored.value.spec.policies[j], k.definition(j))
    ensures var w2 := Step(env, kind, w, k);
            && w2.lib == w.lib
            && Left(w, k, Marked(w.stored.value.status, READY, false,
                                 if k.definition(i).Missing? then "RefNotFound" else "RefNotReady"), w2)
  {
    var policies := w.stored.value.spec.policies;
    assert forall j: nat :: j <= i ==> (Blocked(policies, k.definition, j) <==> Unresolved(policies[j], k.definition(j)));
    assert FirstBlocked(policies, k.definition, 0) == i;
  }

  /** The import ID is compared with the bound one: letter for letter for definitions, up to letter case for initiatives. */
  predicate MayBindTo(kind: DocumentKind, cr: DocumentCR) {
    cr.status.id == "" || (if kind.Definition? then cr.annotations.importId == cr.status.id
                           else EqualFold(cr.annotations.importId, cr.status.id))
  }

  lemma {:induction false} Conflicts(env: Env, kind: DocumentKind, w: World, k: Kube)
    requires AtWork(w, k) && Clear(kind, w.stored.value.spec, k.definition)
    requires w.stored.value.annotations.importId != "" && !MayBindTo(kind, w.stored.value)
    ensures var w2 := Step(env, kind, w, k);
            w2.lib == w.lib && Left(w, k, Marked(w.stored.value.status, READY, false, "ImportConflict"), w2)
  {
    var ids := ClearResolves(kind, w.stored.value.spec, k.definition);
  }

  predicate AppliedOnce(cr: DocumentCR) {
    cr.annotations.importMode == ADOPT_ONCE && READY in cr.status.conditions && cr.status.conditions[READY].reason == APPLIED_ONCE
  }

  lemma {:induction false} Skips(env: Env, kind: DocumentKind, w: World, k: Kube)
    requires AtWork(w, k) && Clear(kind, w.stored.value.spec, k.definition)
    requires w.stored.value.annotations.importId != "" && MayBindTo(kind, w.stored.value) && AppliedOnce(w.stored.value)
    ensures Step(env, kind, w, k) == w
  {
    var ids := ClearResolves(kind, w.stored.value.spec, k.definition);
  }

  /** About to import, nothing standing in the way of trying. */
  predicate Imports(kind: DocumentKind, w: World, k: Kube) {
    && AtWork(w, k) && Clear(kind, w.stored.value.spec, k.definition)
    && w.stored.value.annotations.importId != "" && MayBindTo(kind, w.stored.value) && !AppliedOnce(w.stored.value)
  }

  /** What makes an import succeed. */
  predicate Importable(env: Env, kind: DocumentKind, lib: Library, id: string) {
    && NamesKind(kind.Folded(), id) && Parsed(kind, id).Some? && Parsed(kind, id).value in lib.docs && !env.fails(lib.calls)
    && lib.docs[Parsed(kind, id).value].policyType.GetOr("Custom") == "Custom"
  }

  lemma {:induction false} ImportFails(env: Env, kind: DocumentKind, w: World, k: Kube)
    requires Imports(kind, w, k) && !Importable(env, kind, w.lib, w.stored.value.annotations.importId)
    ensures var w2 := Step(env, kind, w, k);
            && w2.lib.docs == w.lib.docs && w2.lib.log == w.lib.log
            && Left(w, k, Marked(Marked(w.stored.value.status, IMPORTED, false, "ImportFailed"), READY, false, "ImportFailed"), w2)
  {
    var ids := ClearResolves(kind, w.stored.value.spec, k.definition);
    ImportExactly(env, kind, w.lib, w.stored.value.annotations.importId, w.stored.value.spec, ids);
  }

  /** The status right after a successful import: bound to the ID as annotated, with drift as found. */
  function Adopted(s: DocumentStatus, id: string, drifted: bool): DocumentStatus {
    Marked(Marked(s.(id := id), IMPORTED, true, "ImportSucceeded"), DRIFT, drifted, if drifted then "SpecMismatch" else "InSync")
  }

  lemma {:induction false} ImportBinds(env: Env, kind: DocumentKind, w: World, k: Kube, ids: seq<string>)
    requires Imports(kind, w, k) && Importable(env, kind, w.lib, w.stored.value.annotations.importId)
    requires ResolveFor(kind, w.stored.value.spec, k.definition) == Resolved(ids)
    ensures var cr := w.stored.value;
            var drifted := Drifted(kind, w.lib.docs[Parsed(kind, cr.annotations.importId).value], cr.spec, ids);
            var s := Adopted(cr.status, cr.annotations.importId, drifted);
            HandleImport(env, kind, w.lib, cr, ids)
              == if ModeOf(cr.annotations) == OBSERVE_ONLY then Flag(Tick(w.lib), Marked(s, READY, true, "ObservedOnly"))
                 else Proceed(Tick(w.lib), s)
  {
    var id := w.stored.value.annotations.importId;
    ImportExactly(env, kind, w.lib, id, w.stored.value.spec, ids);
    ImportTicks(env, kind, w.lib, id, w.stored.value.spec, ids);
  }

  lemma {:induction false} ImportTicks(env: Env, kind: DocumentKind, lib: Library, id: string, spec: DocumentSpec, ids: seq<string>)
    requires Import(env, kind, lib, id, spec, ids).value.Some?
    ensures Import(env, kind, lib, id, spec, ids).lib == Tick(lib)
  {
  }

  /** A successful import in a mode that only observes. */
  lemma {:induction false} Observes(env: Env, kind: DocumentKind, w: World, k: Kube, ids: seq<string>)
    requires Imports(kind, w, k) && Importable(env, kind, w.lib, w.stored.value.annotations.importId)
    requires w.stored.value.annotations.importMode == "" || w.stored.value.annotations.importMode == OBSERVE_ONLY
    requires IdsOf(kind, w.stored.value.spec, k.definition, ids)
    ensures var w2, cr := Step(env, kind, w, k), w.stored.value;
            var drifted := Drifted(kind, w.lib.docs[Parsed(kind, cr.annotations.importId).value], cr.spec, ids);
            && w2.lib.docs == w.lib.docs && w2.lib.log == w.lib.log
            && Left(w, k, Marked(Adopted(cr.status, cr.annotations.importId, drifted), READY, true, "ObservedOnly"), w2)
  {
    var resolved := ClearResolves(kind, w.stored.value.spec, k.definition);
    assert resolved == ids;
    ImportBinds(env, kind, w, k, ids);
  }

  /** Once the import branch is passed by a bound resource, the write follows. */
  lemma {:induction false} BoundWrites(env: Env, kind: DocumentKind, w: World, k: Kube, ids: seq<string>, lib: Library, s: DocumentStatus)
    requires AtWork(w, k) && ResolveFor(kind, w.stored.value.spec, k.definition) == Resolved(ids) && s.id != "" && lib.docs == w.lib.docs
    requires lib.log == w.lib.log && HandleImport(env, kind, w.lib, w.stored.value, ids) == Proceed(lib, s)
    ensures Wrote(env, kind, w, k, lib, s, ids)
  {
    assert PlanOf(env, kind, w, k) == Writing(lib, w.stored.value.(status := s), ids);
    WriteLeaves(env, kind, w, k, lib, s, ids);
  }

  /** A successful import in any other mode, then the write: what is put where, and what is recorded if it fails. */
  lemma {:induction false} Adopts(env: Env, kind: DocumentKind, w: World, k: Kube, ids: seq<string>)
    requires Imports(kind, w, k) && Importable(env, kind, w.lib, w.stored.value.annotations.importId)
    requires w.stored.value.annotations.importMode != "" && w.stored.value.annotations.importMode != OBSERVE_ONLY
    requires IdsOf(kind, w.stored.value.spec, k.definition, ids)
    ensures var cr := w.stored.value;
            var drifted := Drifted(kind, w.lib.docs[Parsed(kind, cr.annotations.importId).value], cr.spec, ids);
            Wrote(env, kind, w, k, Tick(w.lib), Adopted(cr.status, cr.annotations.importId, drifted), ids)
  {
    var resolved := ClearResolves(kind, w.stored.value.spec, k.definition);
    assert resolved == ids;
    ImportBinds(env, kind, w, k, ids);
    var cr := w.stored.value;
    var drifted := Drifted(kind, w.lib.docs[Parsed(kind, cr.annotations.importId).value], cr.spec, ids);
    BoundWrites(env, kind, w, k, ids, Tick(w.lib), Adopted(cr.status, cr.annotations.importId, drifted));
  }

  /** The name written under: the import name in the two managing modes, else the resource's own. */
  function NameInUse(cr: DocumentCR): string {
    if cr.annotations.importMode == RECONCILE || cr.annotations.importMode == ADOPT_ONCE then cr.annotations.importName else cr.name
  }

  /**
   The step wrote, from Azure `lib` and the in-memory status `s`: one put at the spec's group and the name in use,
   whose ID and version are recorded; or, the call failing, nothing but the failure on top of `s`.
   */
  predicate Wrote(env: Env, kind: DocumentKind, w: World, k: Kube, lib: Library, s: DocumentStatus, ids: seq<string>)
    requires w.stored.Some?
  {
    WroteTo(env, kind, w, k, lib, s, ids, Step(env, kind, w, k))
  }

  predicate WroteTo(env: Env, kind: DocumentKind, w: World, k: Kube, lib: Library, s: DocumentStatus, ids: seq<string>, w2: World)
    requires w.stored.Some?
  {
    var cr := w.stored.value;
    var a := Address(cr.spec.group, NameInUse(cr));
    if env.fails(lib.calls) then
      && w2.lib.docs == w.lib.docs && w2.lib.log == w.lib.log && Left(w, k, Marked(s, READY, false, "ReconcileFailed"), w2)
    else
      && w2.lib.docs == w.lib.docs[a := BodyOf(kind, cr.spec, ids)] && w2.lib.log == w.lib.log + [Put(a, BodyOf(kind, cr.spec, ids))]
      && Left(w, k, Marked(s.(id := IdOf(env, kind, a), appliedVersion := cr.spec.version), READY, true,
                           if cr.annotations.importMode == ADOPT_ONCE then APPLIED_ONCE else "Reconciled"), w2)
  }

  lemma {:induction false} WriteLeaves(env: Env, kind: DocumentKind, w: World, k: Kube, lib: Library, s: DocumentStatus, ids: seq<string>)
    requires w.stored.Some? && lib.docs == w.lib.docs && lib.log == w.lib.log
    ensures WroteTo(env, kind, w, k, lib, s, ids, WriteStep(env, kind, w.(lib := lib), w.stored.value.(status := s), ids, k))
  {
  }

  /** Without an import ID and bound: the write comes at once. */
  lemma {:induction false} Rewrites(env: Env, kind: DocumentKind, w: World, k: Kube, ids: seq<string>)
    requires AtWork(w, k) && Clear(kind, w.stored.value.spec, k.definition) && IdsOf(kind, w.stored.value.spec, k.definition, ids)
    requires w.stored.value.annotations.importId == "" && w.stored.value.status.id != ""
    ensures Wrote(env, kind, w, k, w.lib, w.stored.value.status, ids)
  {
    var resolved := ClearResolves(kind, w.stored.value.spec, k.definition);
    assert resolved == ids;
  }

  /**
   Without an import ID and unbound, the existence check decides: if it fails nothing is stored; if something is there
   the status says so; else the write comes.
   */
  lemma {:induction false} FirstWrites(env: Env, kind: DocumentKind, w: World, k: Kube, ids: seq<string>)
    requires AtWork(w, k) && Clear(kind, w.stored.value.spec, k.definition) && IdsOf(kind, w.stored.value.spec, k.definition, ids)
    requires w.stored.value.annotations.importId == "" && w.stored.value.status.id == ""
    ensures var w2, cr := Step(env, kind, w, k), w.stored.value;
            if env.fails(w.lib.calls) then w2 == w.(lib := Tick(w.lib))
            else if Address(cr.spec.group, NameInUse(cr)) in w.lib.docs then
              && w2.lib == Tick(w.lib)
              && Left(w, k, Marked(cr.status, READY, false,
                                   if kind.Definition? then "PolicyDefinitionAlreadyExists" else "PolicyInitiativeAlreadyExists"), w2)
            else Wrote(env, kind, w, k, Tick(w.lib), cr.status, ids)
  {
    var resolved := ClearResolves(kind, w.stored.value.spec, k.definition);
    assert resolved == ids;
  }

  /**
   From nothing to ready: a new resource without import annotations at a free address, two reconciles, every call going
   through. It ends with its finalizer, bound and Ready, and its document is live as specified.
   */
  lemma {:induction false} NewBecomesReady(env: Env, kind: DocumentKind, w: World, k: Kube, ids: seq<string>)
    requires w.stored.Some? && !w.stored.value.deleting && !w.stored.value.finalizer && w.stored.value.status.id == ""
    requires Unmanaged(w.stored.value.annotations) && Address(w.stored.value.spec.group, w.stored.value.name) !in w.lib.docs
    requires Clear(kind, w.stored.value.spec, k.definition) && IdsOf(kind, w.stored.value.spec, k.definition, ids)
    requires k.fetch && k.update && k.status && !env.fails(w.lib.calls) && !env.fails(w.lib.calls + 1)
    ensures var cr, end := w.stored.value, Run(env, kind, w, [Reconcile(k), Reconcile(k)]);
            var a := Address(cr.spec.group, cr.name);
            && end.lib.docs == w.lib.docs[a := BodyOf(kind, cr.spec, ids)]
            && end.stored.Some? && end.stored.value == cr.(finalizer := true, status := end.stored.value.status)
            && end.stored.value.status
               == Marked(cr.status.(id := IdOf(env, kind, a), appliedVersion := cr.spec.version), READY, true, "Reconciled")
  {
    FinalizerAdded(env, kind, w, k);
    var w1 := World(Some(w.stored.value.(finalizer := true)), w.lib);
    FirstWrites(env, kind, w1, k, ids);
    assert [Reconcile(k), Reconcile(k)][1..] == [Reconcile(k)] && [Reconcile(k)][1..] == [];
    assert Run(env, kind, w1, [Reconcile(k)]) == Step(env, kind, w1, k);
  }
}
