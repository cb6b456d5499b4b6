/** The controller of stand-alone exemption resources: one step, and what runs of it keep. */
module ExemptionController {
  import opened Wrappers
  import opened Text
  import opened ResourceId
  import opened Resource
  import opened Cloud
  import opened ExemptionService

  datatype ExemptionStatus = ExemptionStatus(exemptionId: string, conditions: map<string, Condition>)
  datatype ExemptionCR = ExemptionCR(finalizer: bool, deleting: bool, spec: ExemptionSpec, status: ExemptionStatus)

  /** How the API server treats one step: which of its calls succeed, and the referenced assignment. */
  datatype Kube = Kube(fetch: bool, update: bool, status: bool, assignment: Answer)
  datatype World = World(stored: Option<ExemptionCR>, az: Azure)

  function Save(w: World, status: ExemptionStatus, ok: bool): World {
    if ok && w.stored.Some? then w.(stored := Some(w.stored.value.(status := status))) else w
  }

  function Update(w: World, cr: ExemptionCR, ok: bool): World {
    if !ok || w.stored.None? then w
    else if cr.deleting && !cr.finalizer then w.(stored := None)
    else w.(stored := Some(cr.(status := w.stored.value.status)))
  }

  function WithReady(s: ExemptionStatus, status: bool, reason: string): ExemptionStatus {
    s.(conditions := s.conditions[READY := Condition(status, reason)])
  }

  function HandleDeletion(env: Env, w: World, cr: ExemptionCR, k: Kube): World {
    if !cr.finalizer then w
    else if cr.status.exemptionId == "" then Update(w, cr.(finalizer := false), k.update)
    else
      var d := Removed(env, w.az, cr.spec.scope, cr.status.exemptionId);
      if d.value then Update(w.(az := d.az), cr.(finalizer := false), k.update)
      else Save(w.(az := d.az), WithReady(cr.status, false, "DeleteFailed"), k.status)
  }

  predicate NeedsRef(spec: ExemptionSpec) {
    spec.policyAssignmentRef != "" && spec.policyAssignmentId == ""
  }

  /** The spec the write uses: the reference is resolved on the in-memory copy only. */
  function WithRef(spec: ExemptionSpec, answer: Answer): ExemptionSpec {
    if NeedsRef(spec) && answer.Known? then spec.(policyAssignmentId := answer.id) else spec
  }

  function WriteStep(env: Env, w: World, cr: ExemptionCR, k: Kube): World {
    var r := Upserted(env, w.az, cr.status.exemptionId, cr.spec);
    match r.value
    case None => Save(w.(az := r.az), WithReady(cr.status, false, "ReconcileFailed"), k.status)
    case Some(id) => Save(w.(az := r.az), WithReady(cr.status.(exemptionId := id), true, "Reconciled"), k.status)
  }

  function Step(env: Env, w: World, k: Kube): World {
    if w.stored.None? || !k.fetch then w
    else
      var cr := w.stored.value;
      if cr.deleting then HandleDeletion(env, w, cr, k)
      else if !cr.finalizer then Update(w, cr.(finalizer := true), k.update)
      else if NeedsRef(cr.spec) && k.assignment.Missing? then
        Save(w, WithReady(cr.status, false, "RefResolutionFailed"), k.status)
      else if NeedsRef(cr.spec) && k.assignment.id == "" then Save(w, WithReady(cr.status, false, "RefNotReady"), k.status)
      else WriteStep(env, w, cr.(spec := WithRef(cr.spec, k.assignment)), k)
  }

  class ExemptionReconciler {
    const client: Client
    const service: Service
    var stored: Option<ExemptionCR>

    ghost function Now(): World
      reads this, client
    {
      World(stored, client.az)
    }

    constructor (client: Client, service: Service, stored: Option<ExemptionCR>)
      requires service.client == client
      ensures this.client == client && this.service == service && this.stored == stored
    {
      this.client := client;
      this.service := service;
      this.stored := stored;
    }

    method UpdateStatus(cr: ExemptionCR, k: Kube)
      modifies this`stored
      ensures Now() == Save(old(Now()), cr.status, k.status)
    {
      if k.status && stored.Some? {
        stored := Some(stored.value.(status := cr.status));
      }
    }

    method UpdateResource(cr: ExemptionCR, k: Kube)
      modifies this`stored
      ensures Now() == Update(old(Now()), cr, k.update)
    {
      if k.update && stored.Some? {
        if cr.deleting && !cr.finalizer {
          stored := None;
        } else {
          stored := Some(cr.(status := stored.value.status));
        }
      }
    }

    method Reconcile(k: Kube)
      requires service.client == client
      modifies this`stored, client
      ensures Now() == Step(client.env, old(Now()), k)
    {
      if stored.None? || !k.fetch {
        return;
      }
      var exemption := stored.value;
      if exemption.deleting {
        if exemption.finalizer {
          if exemption.status.exemptionId != "" {
            var ok := service.Delete(exemption.spec.scope, exemption.status.exemptionId);
            if !ok {
              exemption := exemption.(status := WithReady(exemption.status, false, "DeleteFailed"));
              UpdateStatus(exemption, k);
              return;
            }
          }
          exemption := exemption.(finalizer := false);
          UpdateResource(exemption, k);
        }
        return;
      }
      if !exemption.finalizer {
        exemption := exemption.(finalizer := true);
        UpdateResource(exemption, k);
        return;
      }
      if exemption.spec.policyAssignmentRef != "" && exemption.spec.policyAssignmentId == "" {
        if k.assignment.Missing? {
          exemption := exemption.(status := WithReady(exemption.status, false, "RefResolutionFailed"));
          UpdateStatus(exemption, k);
          return;
        }
        if k.assignment.id == "" {
          exemption := exemption.(status := WithReady(exemption.status, false, "RefNotReady"));
          UpdateStatus(exemption, k);
          return;
        }
        exemption := exemption.(spec := exemption.spec.(policyAssignmentId := k.assignment.id));
      }
      Write(exemption, k);
    }

    method Write(cr: ExemptionCR, k: Kube)
      requires service.client == client
      modifies this`stored, client
      ensures Now() == WriteStep(client.env, old(Now()), cr, k)
    {
      var exemption := cr;
      var id := service.CreateOrUpdate(exemption.status.exemptionId, exemption.spec);
      if id.None? {
        exemption := exemption.(status := WithReady(exemption.status, false, "ReconcileFailed"));
        UpdateStatus(exemption, k);
        return;
      }
      exemption := exemption.(status := WithReady(exemption.status.(exemptionId := id.value), true, "Reconciled"));
      UpdateStatus(exemption, k);
    }
  }

  // ---- runs --------------------------------------------------------------------------------------------

  datatype Event = Reconcile(k: Kube) | Edit(spec: ExemptionSpec) | MarkDeleted

  function Happen(env: Env, w: World, e: Event): World {
    match e
    case Reconcile(k) => Step(env, w, k)
    case Edit(spec) => if w.stored.None? then w else w.(stored := Some(w.stored.value.(spec := spec)))
    case MarkDeleted =>
      if w.stored.None? then w
      else if !w.stored.value.finalizer then w.(stored := None)
      else w.(stored := Some(w.stored.value.(deleting := true)))
  }

  function Run(env: Env, w: World, events: seq<Event>): World
    decreases |events|
  {
    if events == [] then w else Run(env, Happen(env, w, events[0]), events[1..])
  }

  /** The one place the resource is bound to, if any. */
  function Bound(w: World): set<Key> {
    if w.stored.None? || w.stored.value.status.exemptionId == "" then {}
    else {Key(w.stored.value.spec.scope, LastSegment(w.stored.value.status.exemptionId))}
  }

  /**
   Azure holds everybody else's exemptions and at most one more, at the place the stored resource is bound
   to and under a finalizer; everything this resource ever put is there or gone.
   */
  ghost predicate OnlyOne(env: Env, scope: string, foreign: map<Key, Exemption>, w: World) {
    && Fresh(env, w.az)
    && w.az.exemptions - Bound(w) == foreign && Bound(w) !! foreign.Keys
    && (forall c :: c in w.az.log && c.PutExemption? && c.key in w.az.exemptions ==> c.key in Bound(w))
    && (w.stored.Some? ==> w.stored.value.spec.scope == scope)
    && (forall key :: key in Bound(w) ==>
          && w.stored.value.finalizer && w.stored.value.status.exemptionId == ExemptionId(key)
          && (forall i: nat :: i >= w.az.minted ==> key.name != env.mint(i)))
  }

  predicate Ordinary(scope: string, e: Event) {
    match e
    case Reconcile(k) => k.status
    case Edit(spec) => spec.scope == scope
    case MarkDeleted => true
  }

  /** Writing: at the bound place, or at a newly named one that becomes the bound one. */
  lemma {:induction false} WriteKeepsOne(env: Env, scope: string, foreign: map<Key, Exemption>, w: World, cr: ExemptionCR, k: Kube)
    requires ValidEnv(env) && OnlyOne(env, scope, foreign, w) && k.status
    requires w.stored.Some? && w.stored.value.finalizer
    requires cr.spec.scope == scope && cr.status == w.stored.value.status
    ensures OnlyOne(env, scope, foreign, WriteStep(env, w, cr, k))
  {
    var r := Upserted(env, w.az, cr.status.exemptionId, cr.spec);
    UpsertedWrote(env, w.az, cr.status.exemptionId, cr.spec);
    WroteKeepsOne(env, scope, foreign, w, cr, r, WriteStep(env, w, cr, k));
  }

  lemma {:induction false} WroteKeepsOne(env: Env, scope: string, foreign: map<Key, Exemption>, w: World, cr: ExemptionCR,
                      r: Reply<Option<string>>, w2: World)
    requires ValidEnv(env) && OnlyOne(env, scope, foreign, w)
    requires w.stored.Some? && w.stored.value.finalizer
    requires cr.spec.scope == scope && cr.status == w.stored.value.status
    requires Wrote(env, w.az, cr.status.exemptionId, cr.spec, r)
    requires w2.az == r.az && w2.stored.Some? && w2.stored.value.spec == w.stored.value.spec && w2.stored.value.finalizer
    requires w2.stored.value.status.exemptionId == if r.value.Some? then r.value.value else cr.status.exemptionId
    ensures OnlyOne(env, scope, foreign, w2)
  {
    if r.value.Some? {
      var key := Key(scope, NameFor(env, w.az, cr.status.exemptionId));
      assert Bound(w2) == {key};
      PutKeepsOne(env, foreign, w, w2.az, key, BodyOf(env, cr.spec), cr.status.exemptionId != "");
    } else {
      assert Bound(w2) == Bound(w);
    }
  }

  /** Putting at the bound place, or at a name minted just now while nothing is bound. */
  lemma {:induction false} PutKeepsOne(env: Env, foreign: map<Key, Exemption>, w: World, az2: Azure, key: Key, body: Exemption, bound: bool)
    requires ValidEnv(env) && Fresh(env, w.az) && w.az.exemptions - Bound(w) == foreign && Bound(w) !! foreign.Keys
    requires forall c :: c in w.az.log && c.PutExemption? && c.key in w.az.exemptions ==> c.key in Bound(w)
    requires az2.exemptions == w.az.exemptions[key := body] && az2.log == w.az.log + [PutExemption(key)]
    requires az2.minted == if bound then w.az.minted else w.az.minted + 1
    requires if bound then Bound(w) == {key} && (forall i: nat :: i >= w.az.minted ==> key.name != env.mint(i))
             else Bound(w) == {} && key.name == env.mint(w.az.minted)
    ensures Fresh(env, az2) && az2.exemptions - {key} == foreign && key !in foreign
    ensures forall c :: c in az2.log && c.PutExemption? && c.key in az2.exemptions ==> c.key == key
    ensures forall i: nat :: i >= az2.minted ==> key.name != env.mint(i)
  {
    assert key !in foreign;
    assert az2.exemptions - {key} == w.az.exemptions - {key};
    assert w.az.exemptions - {key} == foreign;
  }

  lemma {:induction false} DeletionKeepsOne(env: Env, scope: string, foreign: map<Key, Exemption>, w: World, k: Kube)
    requires ValidEnv(env) && OnlyOne(env, scope, foreign, w) && w.stored.Some? && w.stored.value.deleting
    ensures OnlyOne(env, scope, foreign, HandleDeletion(env, w, w.stored.value, k))
  {
    var cr := w.stored.value;
    if cr.finalizer && cr.status.exemptionId != "" {
      var key := Key(cr.spec.scope, LastSegment(cr.status.exemptionId));
      assert Bound(w) == {key};
      var d := Removed(env, w.az, cr.spec.scope, cr.status.exemptionId);
      if d.value {
        assert d.az.exemptions == foreign;
        assert foreign - {} == foreign && foreign - {key} == foreign;
      }
    }
  }

  lemma {:induction false} StepKeepsOne(env: Env, scope: string, foreign: map<Key, Exemption>, w: World, k: Kube)
    requires ValidEnv(env) && OnlyOne(env, scope, foreign, w) && k.status
    ensures OnlyOne(env, scope, foreign, Step(env, w, k))
  {
    if w.stored.Some? && k.fetch {
      var cr := w.stored.value;
      if cr.deleting {
        DeletionKeepsOne(env, scope, foreign, w, k);
      } else if cr.finalizer && !(NeedsRef(cr.spec) && (k.assignment.Missing? || k.assignment.id == "")) {
        WriteKeepsOne(env, scope, foreign, w, cr.(spec := WithRef(cr.spec, k.assignment)), k);
      }
    }
  }

  /**
   In every run at a fixed scope with persisting status writes, whatever else fails: Azure never holds
   more than one exemption of this resource, the stored ID finds it, the finalizer guards it, and all other
   exemptions are untouched; once the resource is gone Azure holds exactly what it held before it.
   */
  lemma {:induction false} OneExemption(env: Env, scope: string, foreign: map<Key, Exemption>, w: World, events: seq<Event>)
    requires ValidEnv(env) && OnlyOne(env, scope, foreign, w)
    requires forall e :: e in events ==> Ordinary(scope, e)
    ensures var end := Run(env, w, events);
            && OnlyOne(env, scope, foreign, end)
            && (end.stored.None? ==> end.az.exemptions == foreign)
    decreases |events|
  {
    if events == [] {
      assert w.az.exemptions - {} == w.az.exemptions;
    } else {
      assert events[0] in events;
      if events[0].Reconcile? {
        StepKeepsOne(env, scope, foreign, w, events[0].k);
      }
      OneExemption(env, scope, foreign, Happen(env, w, events[0]), events[1..]);
    }
  }

  // ---- where the two conditions are needed -----------------------------------------------------------------

  /** The step writes: not deleting, finalizer in place, and the reference resolved if one is needed. */
  predicate Writes(w: World, k: Kube) {
    && w.stored.Some? && k.fetch && !w.stored.value.deleting && w.stored.value.finalizer
    && (NeedsRef(w.stored.value.spec) ==> k.assignment.Known? && k.assignment.id != "")
  }

  /**
   One step, whatever fails, status writes included: the resource keeps its one exemption except exactly
   when an unbound resource is written and the status write, which alone knows the new name, is lost.
   */
  lemma {:induction false} OneLostExactly(env: Env, scope: string, foreign: map<Key, Exemption>, w: World, k: Kube)
    requires ValidEnv(env) && OnlyOne(env, scope, foreign, w)
    ensures !OnlyOne(env, scope, foreign, Step(env, w, k))
       <==> Writes(w, k) && w.stored.value.status.exemptionId == "" && !env.fails(w.az.calls) && !k.status
  {
    if Writes(w, k) {
      var cr := w.stored.value;
      LostWriteExactly(env, scope, foreign, w, cr.(spec := WithRef(cr.spec, k.assignment)), k);
    } else if w.stored.Some? && k.fetch && w.stored.value.deleting {
      DeletionKeepsOne(env, scope, foreign, w, k);
    }
  }

  lemma {:induction false} LostWriteExactly(env: Env, scope: string, foreign: map<Key, Exemption>, w: World, cr: ExemptionCR, k: Kube)
    requires ValidEnv(env) && OnlyOne(env, scope, foreign, w)
    requires w.stored.Some? && w.stored.value.finalizer && cr.spec.scope == scope && cr.status == w.stored.value.status
    ensures !OnlyOne(env, scope, foreign, WriteStep(env, w, cr, k))
       <==> cr.status.exemptionId == "" && !env.fails(w.az.calls) && !k.status
  {
    var id := cr.status.exemptionId;
    UpsertedWrote(env, w.az, id, cr.spec);
    if k.status {
      WriteKeepsOne(env, scope, foreign, w, cr, k);
    } else {
      UnsavedWrite(env, scope, foreign, w, cr, Upserted(env, w.az, id, cr.spec), WriteStep(env, w, cr, k));
    }
  }

  /** The status write is lost: a rewrite of the bound exemption is none the worse, a first write is. */
  lemma {:induction false} UnsavedWrite(env: Env, scope: string, foreign: map<Key, Exemption>, w: World, cr: ExemptionCR,
                     r: Reply<Option<string>>, w2: World)
    requires ValidEnv(env) && OnlyOne(env, scope, foreign, w)
    requires w.stored.Some? && w.stored.value.finalizer && cr.spec.scope == scope && cr.status == w.stored.value.status
    requires Wrote(env, w.az, cr.status.exemptionId, cr.spec, r) && w2.az == r.az && w2.stored == w.stored
    ensures !OnlyOne(env, scope, foreign, w2) <==> cr.status.exemptionId == "" && r.value.Some?
  {
    if r.value.Some? {
      var id := cr.status.exemptionId;
      var key := Key(scope, NameFor(env, w.az, id));
      PutKeepsOne(env, foreign, w, w2.az, key, BodyOf(env, cr.spec), id != "");
      assert Bound(w2) == if id != "" then {key} else {};
      assert PutExemption(key) in w2.az.log && key in w2.az.exemptions;
    } else {
      assert Bound(w2) == Bound(w);
    }
  }

  lemma {:induction false} ExemptionIdScopes(a: Key, b: Key)
    requires a.name == b.name && a.scope != b.scope
    ensures ExemptionId(a) != ExemptionId(b)
  {
    var tail := "/" + PROVIDERS + "/" + AUTHORIZATION + "/" + EXEMPTIONS + "/" + a.name;
    assert ExemptionId(a) == a.scope + tail && ExemptionId(b) == b.scope + tail;
    assert |a.scope + tail| == |b.scope + tail| ==> (a.scope + tail)[..|a.scope|] == a.scope && (b.scope + tail)[..|a.scope|] == b.scope;
  }

  /** An edit keeps it, at the scope edited to, exactly when nothing is bound or the scope stays. */
  lemma {:induction false} EditKeepsOneExactly(env: Env, scope: string, foreign: map<Key, Exemption>, w: World, spec: ExemptionSpec)
    requires OnlyOne(env, scope, foreign, w) && w.stored.Some?
    ensures OnlyOne(env, spec.scope, foreign, Happen(env, w, Edit(spec)))
       <==> w.stored.value.status.exemptionId == "" || spec.scope == scope
  {
    var id := w.stored.value.status.exemptionId;
    if id != "" {
      assert Bound(w) == {Key(scope, LastSegment(id))};
      if spec.scope != scope {
        ExemptionIdScopes(Key(scope, LastSegment(id)), Key(spec.scope, LastSegment(id)));
        assert Bound(Happen(env, w, Edit(spec))) == {Key(spec.scope, LastSegment(id))};
      }
    } else {
      assert Bound(Happen(env, w, Edit(spec))) == {} && Bound(w) == {};
    }
  }

  /**
   A bound, live exemption, an edit of the spec, then deletion with every call going through: the
   resource is gone, and its exemption with it exactly when the edit left the scope alone.
   */
  lemma {:induction false} EditThenDelete(env: Env, scope: string, foreign: map<Key, Exemption>, w: World, spec: ExemptionSpec, k: Kube)
    requires ValidEnv(env) && OnlyOne(env, scope, foreign, w)
    requires w.stored.Some? && w.stored.value.status.exemptionId != "" && Bound(w) <= w.az.exemptions.Keys
    requires k.fetch && k.update && !env.fails(w.az.calls)
    ensures var end := Run(env, w, [Edit(spec), MarkDeleted, Reconcile(k)]);
            && end.stored.None?
            && (end.az.exemptions == foreign <==> spec.scope == scope)
            && (spec.scope != scope ==> Key(scope, LastSegment(w.stored.value.status.exemptionId)) in end.az.exemptions)
  {
    var key := Key(scope, LastSegment(w.stored.value.status.exemptionId));
    assert Bound(w) == {key};
    var w1 := Happen(env, w, Edit(spec));
    var w2 := Happen(env, w1, MarkDeleted);
    var w3 := Step(env, w2, k);
    assert w3.stored.None? && w3.az.exemptions == w.az.exemptions - {Key(spec.scope, key.name)};
    assert [Edit(spec), MarkDeleted, Reconcile(k)][1..] == [MarkDeleted, Reconcile(k)];
    assert [MarkDeleted, Reconcile(k)][1..] == [Reconcile(k)];
    assert Run(env, w2, [Reconcile(k)]) == w3;
    assert w.az.exemptions - {key} == foreign && key !in foreign;
  }

  /** A new resource starts such a run around whatever Azure holds. */
  lemma {:induction false} NewExemption(env: Env, w: World)
    requires w.stored.Some? && w.stored.value.status.exemptionId == "" && w.az.log == [] && Fresh(env, w.az)
    ensures OnlyOne(env, w.stored.value.spec.scope, w.az.exemptions, w)
  {
    assert w.az.exemptions - {} == w.az.exemptions;
  }

  /**
   The reference is followed afresh at each write: what is written exempts the assignment the referenced
   resource reports now, and the stored spec never keeps the resolved ID.
   */
  lemma {:induction false} ReferenceFollowed(env: Env, w: World, k: Kube)
    requires w.stored.Some? && k.fetch && k.status && k.assignment.Known? && k.assignment.id != ""
    requires !w.stored.value.deleting && w.stored.value.finalizer && NeedsRef(w.stored.value.spec) && !env.fails(w.az.calls)
    ensures var w2 := Step(env, w, k);
            var cr := w.stored.value;
            var key := Key(cr.spec.scope, NameFor(env, w.az, cr.status.exemptionId));
            && w2.stored.Some? && w2.stored.value.spec == cr.spec
            && w2.stored.value.status.exemptionId == ExemptionId(key)
            && key in w2.az.exemptions && w2.az.exemptions[key].assignmentId == k.assignment.id
  {
  }
}
