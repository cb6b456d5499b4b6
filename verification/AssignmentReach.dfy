/**
 How far an assignment resource reaches, imports included; what a lost reply does to its ownership; and when its
 next reconcile makes it ready.
 */
module AssignmentReach {
  import opened Wrappers
  import opened Text
  import opened ResourceId
  import opened Resource
  import opened Cloud
  import opened InlineExemptions
  import opened ExemptionPasses
  import opened RoleGrants
  import opened AssignmentService
  import opened AssignmentLaws
  import opened AssignmentController
  import opened AssignmentSteps
  import opened AssignmentRuns
  import opened AssignmentModes
  import ExemptionService

  // ---- reach -------------------------------------------------------------------------------------------------

  predicate Closed(names: set<string>) {
    forall n :: n in names ==> LastSegment(n) in names
  }

  /** The names annotations can lead to: the import name in a managing mode, and the import ID's last segment. */
  predicate Leads(names: set<string>, a: Annotations) {
    && (Managing(a) ==> a.importName in names)
    && (a.importId != "" ==> LastSegment(a.importId) in names)
  }

  predicate Reaching(scope: string, names: set<string>, w: World) {
    w.stored.Some? ==>
      var cr := w.stored.value;
      && cr.spec.scope == scope && cr.name in names && Leads(names, cr.annotations)
      && (cr.status.assignmentId != "" ==> LastSegment(cr.status.assignmentId) in names)
  }

  predicate Inside(scope: string, names: set<string>, key: Key) {
    key.scope == scope && key.name in names
  }

  predicate LeadsEvent(scope: string, names: set<string>, e: Event) {
    e.Edit? ==> e.spec.scope == scope && Leads(names, e.annotations)
  }

  /** Every write or delete of an assignment since is at the scope and one of the names. */
  predicate TouchesWithin(scope: string, names: set<string>, before: seq<Call>, after: seq<Call>) {
    && LogExtends(before, after)
    && forall i :: |before| <= i < |after| && (after[i].PutAssignment? || after[i].DropAssignment?) ==>
         Inside(scope, names, after[i].key)
  }

  ghost predicate SameElsewhere(scope: string, names: set<string>, a: map<Key, Assignment>, b: map<Key, Assignment>) {
    forall key: Key :: !Inside(scope, names, key) ==> (key in a <==> key in b) && (key in a ==> key in b ==> a[key] == b[key])
  }

  lemma {:induction false} TouchesTransitive(scope: string, names: set<string>, a: seq<Call>, b: seq<Call>, c: seq<Call>)
    requires TouchesWithin(scope, names, a, b) && TouchesWithin(scope, names, b, c)
    ensures TouchesWithin(scope, names, a, c)
  {
    assert c[..|a|] == c[..|b|][..|a|];
    forall i | |a| <= i < |c| && (c[i].PutAssignment? || c[i].DropAssignment?)
      ensures Inside(scope, names, c[i].key)
    {
      if i < |b| {
        assert c[i] == c[..|b|][i];
      }
    }
  }

  lemma {:induction false} AsideTouches(scope: string, names: set<string>, a: Azure, b: Azure)
    requires Aside(a, b)
    ensures TouchesWithin(scope, names, a.log, b.log)
  {
  }

  lemma {:induction false} OneMore(scope: string, names: set<string>, log: seq<Call>, c: Call)
    requires c.PutAssignment? || c.DropAssignment? ==> Inside(scope, names, c.key)
    ensures TouchesWithin(scope, names, log, log + [c])
  {
  }

  lemma {:induction false} WriteReaches(env: Env, scope: string, names: set<string>, az: Azure, cr: AssignmentCR, definitionId: string)
    requires Closed(names) && Inside(scope, names, WriteKey(cr))
    requires cr.status.assignmentId != "" ==> LastSegment(cr.status.assignmentId) in names
    ensures var a := Apply(env, az, cr, definitionId);
            var id := Recorded(cr.status, a).assignmentId;
            && TouchesWithin(scope, names, az.log, a.az.log) && SameElsewhere(scope, names, az.assignments, a.az.assignments)
            && (id != "" ==> LastSegment(id) in names)
  {
    ApplyWrites(env, az, cr, definitionId);
    var a := Apply(env, az, cr, definitionId);
    if env.fails(az.calls) {
      AsideTouches(scope, names, az, a.az);
    } else {
      var put := PutAssignment(WriteKey(cr), BodyOf(cr, definitionId), a.location);
      var az1 :| Aside(az1, a.az) && az1.log == az.log + [put];
      OneMore(scope, names, az.log, put);
      AsideTouches(scope, names, az1, a.az);
      TouchesTransitive(scope, names, az.log, az1.log, a.az.log);
      LastSegmentOfAnyPath(Folder(ASSIGNMENTS, scope), WriteKey(cr).name);
    }
  }

  lemma {:induction false} DeleteReaches(env: Env, scope: string, names: set<string>, az: Azure, t: Target)
    requires Inside(scope, names, AssignmentKey(t))
    ensures var r := Delete(env, az, t);
            TouchesWithin(scope, names, az.log, r.az.log) && SameElsewhere(scope, names, az.assignments, r.az.assignments)
  {
    DeleteOrdered(env, az, t);
    var r := Delete(env, az, t);
    if r.value {
      var front := r.az.log[..|r.az.log| - 1];
      assert r.az.log == front + [DropAssignment(AssignmentKey(t))];
      OneMore(scope, names, front, DropAssignment(AssignmentKey(t)));
      assert TouchesWithin(scope, names, az.log, front);
      TouchesTransitive(scope, names, az.log, front, r.az.log);
    }
  }

  lemma {:induction false} ReadReaches(scope: string, names: set<string>, cr: AssignmentCR, az: Azure, az2: Azure, s2: AssignmentStatus)
    requires ReadBy(cr, az, cr.status, az2, s2) && Leads(names, cr.annotations)
    requires cr.status.assignmentId != "" ==> LastSegment(cr.status.assignmentId) in names
    ensures TouchesWithin(scope, names, az.log, az2.log) && az2.assignments == az.assignments
    ensures s2.assignmentId != "" ==> LastSegment(s2.assignmentId) in names
  {
  }

  lemma {:induction false} StepReaches(env: Env, scope: string, names: set<string>, w: World, k: Kube)
    requires Closed(names) && Reaching(scope, names, w)
    ensures var w2 := Step(env, w, k);
            && Reaching(scope, names, w2) && TouchesWithin(scope, names, w.az.log, w2.az.log)
            && SameElsewhere(scope, names, w.az.assignments, w2.az.assignments)
  {
    ShapeReads(env, w, k);
    match ShapeOf(env, w, k)
    case Idle(_) =>
    case Finalizing =>
    case Deleting =>
      if w.stored.value.status.assignmentId != "" {
        DeleteReaches(env, scope, names, w.az, TargetOf(w.stored.value));
      }
    case Flagged(az, status) => ReadReaches(scope, names, w.stored.value, w.az, az, status);
    case Writing(az, cr, definitionId) =>
      ReadReaches(scope, names, w.stored.value, w.az, az, cr.status);
      WriteReaches(env, scope, names, az, cr, definitionId);
      TouchesTransitive(scope, names, w.az.log, az.log, Apply(env, az, cr, definitionId).az.log);
  }

  /** What others do does not depend on what is at the names. */
  lemma {:induction false} OthersElsewhere(scope: string, names: set<string>, a: map<Key, Assignment>, b: map<Key, Assignment>,
                                           events: seq<Event>)
    requires SameElsewhere(scope, names, a, b)
    ensures SameElsewhere(scope, names, OthersOnly(a, events), OthersOnly(b, events))
    decreases |events|
  {
    if events != [] {
      if events[0].Outside? {
        var key, body := events[0].key, events[0].body;
        OthersElsewhere(scope, names, Changed(a, key, body), Changed(b, key, body), events[1..]);
      } else {
        OthersElsewhere(scope, names, a, b, events[1..]);
      }
    }
  }

  /**
   The reach of an assignment resource, whatever import annotations it is given, whatever fails, deletion included: in
   every run at one scope it writes and deletes assignments at that scope only, and under no other names than its
   own, the import names in managing modes, the last segments of import IDs, and what it was bound to. Every other
   assignment is as others alone left it.
   */
  lemma {:induction false} RunReaches(env: Env, scope: string, names: set<string>, w: World, events: seq<Event>)
    requires Closed(names) && Reaching(scope, names, w)
    requires forall e :: e in events ==> LeadsEvent(scope, names, e)
    ensures var end := Run(env, w, events);
            && TouchesWithin(scope, names, w.az.log, end.az.log)
            && SameElsewhere(scope, names, OthersOnly(w.az.assignments, events), end.az.assignments)
    decreases |events|
  {
    if events != [] {
      assert events[0] in events;
      var w1 := Happen(env, w, events[0]);
      if events[0].Reconcile? {
        StepReaches(env, scope, names, w, events[0].k);
        OthersElsewhere(scope, names, w.az.assignments, w1.az.assignments, events[1..]);
      }
      RunReaches(env, scope, names, w1, events[1..]);
      TouchesTransitive(scope, names, w.az.log, w1.az.log, Run(env, w1, events[1..]).az.log);
    }
  }

  // ---- a lost reply ------------------------------------------------------------------------------------------

  /** The step whose planned write takes effect in Azure although an error is reported. */
  function LostReply(env: Env, w: World, k: Kube): World
    requires ShapeOf(env, w, k).Writing?
  {
    var s := ShapeOf(env, w, k);
    var body := BodyOf(s.cr, s.definitionId);
    Save(w.(az := Logged(s.az, PutAssignment(WriteKey(s.cr), body, "")).(assignments := s.az.assignments[WriteKey(s.cr) := body])),
         WithCondition(s.cr.status, READY, false, "ReconcileFailed"), k.status)
  }

  /**
   A lost reply is the other way to lose ownership: it does so exactly when the write was the first one, whether or
   not the status is saved. Then, in every run without import annotations, the assignment stays in Azure as
   written and the resource stays unbound: its own existence check keeps it out.
   */
  lemma {:induction false} LostReplyExactly(env: Env, own: Key, w: World, k: Kube, events: seq<Event>)
    requires NoSlash(own.name) && Owned(own, w) && ShapeOf(env, w, k).Writing?
    requires forall e :: e in events ==> PlainEvent(own, e)
    ensures !Owned(own, LostReply(env, w, k)) <==> w.stored.Some? && w.stored.value.status.assignmentId == ""
    ensures !Owned(own, LostReply(env, w, k)) ==>
              var s, end := ShapeOf(env, w, k), Run(env, LostReply(env, w, k), events);
              && own in end.az.assignments && end.az.assignments[own] == BodyOf(s.cr, s.definitionId)
              && (end.stored.Some? ==> end.stored.value.status.assignmentId == "")
  {
    ShapeReads(env, w, k);
    var s := ShapeOf(env, w, k);
    PlainRead(own, w.stored.value, w.az, s.az, s.cr.status);
    OwnKeys(own, s.cr);
    if w.stored.value.status.assignmentId == "" {
      NoTakeover(env, own, BodyOf(s.cr, s.definitionId), LostReply(env, w, k), events);
    }
  }

  // ---- progress ----------------------------------------------------------------------------------------------

  lemma {:induction false} WritesGo(env: Env, az: Azure, id: string, existing: map<string, Tracked>, specs: seq<InlineSpec>)
    requires AllGo(env, az.calls)
    ensures var r := WriteAll(env, az, id, existing, specs); r.value.Some? && r.az.calls >= az.calls
    decreases |specs|
  {
    if specs != [] {
      var r := ExemptionService.Upserted(env, az, PreviousId(existing, specs[0].displayName), Synthetic(specs[0], id));
      WritesGo(env, r.az, id, existing, specs[1..]);
    }
  }

  lemma {:induction false} ApplyGoes(env: Env, az: Azure, cr: AssignmentCR, definitionId: string)
    requires AllGo(env, az.calls) && Resolvable(env, Permissions(cr.spec.identity))
    ensures Apply(env, az, cr, definitionId).ok
  {
    var w := UpsertAssignment(env, az, WriteKey(cr), BodyOf(cr, definitionId));
    AttachGoes(env, w.az, cr, w.value.value);
  }

  lemma {:induction false} AttachGoes(env: Env, az: Azure, cr: AssignmentCR, x: Written)
    requires AllGo(env, az.calls) && Resolvable(env, Permissions(cr.spec.identity))
    ensures Attach(env, az, cr, x).ok
  {
    var existing := Existing(cr.status.exemptions);
    WritesGo(env, az, x.id, existing, cr.spec.exemptions);
    var w := WriteAll(env, az, x.id, existing, cr.spec.exemptions);
    DropAllGoes(env, w.az, DisplayNames(cr.spec.exemptions), cr.status.exemptions);
    var p := Pass(env, az, x.id, cr.spec.exemptions, cr.status.exemptions);
    GrantedExactly(env, p.az, x.id, x.principal, cr.spec.identity);
  }

  /** Nothing stands in the way: without an import a bound ID or a free key, with one a live assignment it may bind to. */
  predicate Unobstructed(az: Azure, cr: AssignmentCR) {
    var id := cr.annotations.importId;
    if id == "" then cr.status.assignmentId != "" || Key(cr.spec.scope, LookupName(cr)) !in az.assignments
    else
      && (cr.status.assignmentId == "" || EqualFold(id, cr.status.assignmentId))
      && !(cr.annotations.importMode == ADOPT_ONCE && Reason(cr.status, READY) == APPLIED_ONCE)
      && KeyOfAssignmentId(id).Some? && KeyOfAssignmentId(id).value in az.assignments
  }

  /**
   Progress: a resource with its finalizer, its references and roles resolvable and nothing in its way is ready after
   the next reconcile in which every call goes through: observed if it is only to observe, else reconciled.
   */
  lemma {:induction false} NextReady(env: Env, w: World, k: Kube)
    requires w.stored.Some? && w.stored.value.finalizer && !w.stored.value.deleting && k.fetch && k.status
    requires Resolve(w.stored.value.spec, k.definition).Resolved? && Unobstructed(w.az, w.stored.value)
    requires AllGo(env, w.az.calls) && Resolvable(env, Permissions(w.stored.value.spec.identity))
    ensures Step(env, w, k).stored.Some?
    ensures var s := Step(env, w, k).stored.value.status;
            && READY in s.conditions && s.conditions[READY].status
            && s.conditions[READY].reason == if Observed(w.stored.value.annotations) then "ObservedOnly" else "Reconciled"
  {
    var cr := w.stored.value;
    var definitionId := Resolve(cr.spec, k.definition).id;
    var id := cr.annotations.importId;
    if id == "" {
      FreeWrites(env, w, cr, definitionId, k);
    } else {
      KeyedNamesKind(id);
      ImportGoesThrough(env, w.az, id, KeyOfAssignmentId(id).value, cr.spec, definitionId);
      var r := Import(env, w.az, id, cr.spec, definitionId);
      if !Observed(cr.annotations) {
        FreeWrites(env, w.(az := r.az), cr.(status := Adopt(cr.status, id, r.value.value)), definitionId, k);
      }
    }
  }

  lemma {:induction false} FreeWrites(env: Env, w: World, cr: AssignmentCR, definitionId: string, k: Kube)
    requires w.stored.Some? && k.status && AllGo(env, w.az.calls) && Resolvable(env, Permissions(cr.spec.identity))
    requires cr.status.assignmentId != "" || Key(cr.spec.scope, LookupName(cr)) !in w.az.assignments
    ensures var w1 := Outcome(env, w, k, WriteShape(env, w.az, cr, definitionId));
            && WriteShape(env, w.az, cr, definitionId).Writing? && w1.stored.Some?
            && var s := w1.stored.value.status;
            && READY in s.conditions && s.conditions[READY] == Condition(true, "Reconciled")
  {
    if cr.status.assignmentId != "" {
      ApplyGoes(env, w.az, cr, definitionId);
    } else {
      ApplyGoes(env, FindAssignment(env, w.az, Key(cr.spec.scope, LookupName(cr))).az, cr, definitionId);
    }
  }
}
