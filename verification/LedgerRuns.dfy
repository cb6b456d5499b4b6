/** The exemption ledger over whole runs of the assignment controller, deletion included. */
module LedgerRuns {
  import opened Wrappers
  import opened ResourceId
  import opened Resource
  import opened Cloud
  import opened InlineExemptions
  import opened ExemptionPasses
  import opened ExemptionRuns
  import opened RoleGrants
  import opened AssignmentService
  import opened AssignmentLaws
  import opened AssignmentController
  import opened AssignmentSteps
  import opened AssignmentRuns

  function TrackedNames(status: seq<Tracked>): set<string> {
    set e | e in status :: e.displayName
  }

  /**
   The display names that may have lost their exemption, after a reconcile: none when a new list was
   stored; else those absent from the spec are added, and deletion adds all of them.
   */
  function NextDropped(env: Env, w: World, dropped: set<string>, e: Event): set<string> {
    if !e.Reconcile? || w.stored.None? then dropped
    else
      var s := w.stored.value.status.exemptions;
      match ShapeOf(env, w, e.k)
      case Idle(_) => dropped
      case Finalizing => dropped
      case Flagged(_, _) => dropped
      case Deleting => dropped + TrackedNames(s)
      case Writing(az, cr, definitionId) =>
        var a := Apply(env, az, cr, definitionId);
        if a.exemptions.Some? && e.k.status then {} else dropped + Absent(s, cr.spec.exemptions)
  }

  /** The ledger holds of the stored list, and of the log alone once the resource is gone. */
  ghost predicate Accounted(env: Env, w: World, dropped: set<string>) {
    && DropsFollowPuts(w.az.log)
    && (w.stored.Some? ==>
          Distinct(w.stored.value.spec.exemptions) && Ledger(env, w.az, w.stored.value.status.exemptions, dropped))
  }

  predicate DistinctEdits(e: Event) {
    e.Edit? ==> Distinct(e.spec.exemptions)
  }

  // ---- how the rest of a step leaves the ledger alone --------------------------------------------------

  /** Calls that are neither exemption deletes nor anything the ledger looks at. */
  predicate Harmless(a: Azure, b: Azure) {
    && b.exemptions == a.exemptions && a.minted <= b.minted
    && LogExtends(a.log, b.log)
    && forall i :: |a.log| <= i < |b.log| ==> !b.log[i].DropExemption?
  }

  lemma {:induction false} LogKeepsOrder(before: seq<Call>, after: seq<Call>)
    requires DropsFollowPuts(before) && LogExtends(before, after)
    requires forall i :: |before| <= i < |after| ==> !after[i].DropExemption?
    ensures DropsFollowPuts(after)
  {
    forall i | 0 <= i < |after| && after[i].DropExemption?
      ensures PutExemption(after[i].key) in after[..i]
    {
      assert i < |before| && before[i] == after[..|before|][i];
      assert before[..i] == after[..i];
    }
  }

  lemma {:induction false} HarmlessKeepsLedger(env: Env, a: Azure, b: Azure, status: seq<Tracked>, dropped: set<string>)
    requires Ledger(env, a, status, dropped) && Harmless(a, b)
    ensures Ledger(env, b, status, dropped)
  {
    LogKeepsOrder(a.log, b.log);
    CoherentLater(env, a.minted, b.minted, status);
    forall e | e in status
      ensures PutExemption(Place(e)) in b.log
    {
      InExtension(a.log, b.log, PutExemption(Place(e)));
    }
  }

  lemma {:induction false} ReadKeepsLedger(env: Env, cr: AssignmentCR, az: Azure, az2: Azure, s2: AssignmentStatus, dropped: set<string>)
    requires ReadBy(cr, az, cr.status, az2, s2) && Ledger(env, az, cr.status.exemptions, dropped)
    ensures Ledger(env, az2, s2.exemptions, dropped)
  {
    assert az2.log[..|az.log|] == az.log;
    HarmlessKeepsLedger(env, az, az2, cr.status.exemptions, dropped);
  }

  /** The phases of a write: the pass keeps the ledger, the write before it and the grants after it are harmless. */
  lemma {:induction false} ApplyKeepsLedger(env: Env, az: Azure, cr: AssignmentCR, definitionId: string, dropped: set<string>)
    requires ValidEnv(env) && Ledger(env, az, cr.status.exemptions, dropped) && Distinct(cr.spec.exemptions)
    ensures var a := Apply(env, az, cr, definitionId);
            && Ledger(env, a.az, cr.status.exemptions, dropped + Absent(cr.status.exemptions, cr.spec.exemptions))
            && (a.exemptions.Some? ==> Ledger(env, a.az, a.exemptions.value, {}))
  {
    var s, absent := cr.status.exemptions, Absent(cr.status.exemptions, cr.spec.exemptions);
    var w := UpsertAssignment(env, az, WriteKey(cr), BodyOf(cr, definitionId));
    assert Harmless(az, w.az);
    HarmlessKeepsLedger(env, az, w.az, s, dropped);
    LedgerWider(env, w.az, s, dropped, dropped + absent);
    if w.value.Some? {
      AttachKeepsLedger(env, w.az, cr, w.value.value, dropped);
    }
  }

  lemma {:induction false} GrantedKeepsLedger(env: Env, az: Azure, cr: AssignmentCR, x: Written, status: seq<Tracked>, dropped: set<string>)
    requires Ledger(env, az, status, dropped)
    ensures Ledger(env, Granted(env, az, x.id, x.principal, cr.spec.identity).az, status, dropped)
  {
    GrantAllEffect(env, az, x.id, x.principal, Permissions(cr.spec.identity));
    HarmlessKeepsLedger(env, az, Granted(env, az, x.id, x.principal, cr.spec.identity).az, status, dropped);
  }

  lemma {:induction false} AttachKeepsLedger(env: Env, az: Azure, cr: AssignmentCR, x: Written, dropped: set<string>)
    requires ValidEnv(env) && Ledger(env, az, cr.status.exemptions, dropped) && Distinct(cr.spec.exemptions)
    ensures var a := Attach(env, az, cr, x);
            && Ledger(env, a.az, cr.status.exemptions, dropped + Absent(cr.status.exemptions, cr.spec.exemptions))
            && (a.exemptions.Some? ==> Ledger(env, a.az, a.exemptions.value, {}))
  {
    var s := cr.status.exemptions;
    PassKeepsLedger(env, az, x.id, cr.spec.exemptions, s, dropped);
    var p := Pass(env, az, x.id, cr.spec.exemptions, s);
    if p.value.Some? {
      GrantedKeepsLedger(env, p.az, cr, x, s, dropped + Absent(s, cr.spec.exemptions));
      GrantedKeepsLedger(env, p.az, cr, x, p.value.value, {});
    }
  }

  lemma {:induction false} DeletionKeepsLedger(env: Env, az: Azure, t: Target, dropped: set<string>)
    requires Ledger(env, az, t.tracked, dropped)
    ensures Ledger(env, Delete(env, az, t).az, t.tracked, dropped + TrackedNames(t.tracked))
  {
    DeleteOrdered(env, az, t);
    var b := Delete(env, az, t).az;
    var keys := Places(t.tracked);
    forall i | 0 <= i < |b.log| && b.log[i].DropExemption?
      ensures PutExemption(b.log[i].key) in b.log[..i]
    {
      if i < |az.log| {
        assert az.log[i] == b.log[..|az.log|][i];
        assert az.log[..i] == b.log[..i];
      } else {
        assert b.log[i].key in keys;
        var j :| 0 <= j < |az.log| && az.log[j] == PutExemption(b.log[i].key);
        assert b.log[..i][j] == b.log[..|az.log|][j];
      }
    }
    forall e | e in t.tracked
      ensures PutExemption(Place(e)) in b.log
    {
      InExtension(az.log, b.log, PutExemption(Place(e)));
    }
  }

  lemma {:induction false} StepAccounted(env: Env, w: World, dropped: set<string>, k: Kube)
    requires ValidEnv(env) && Accounted(env, w, dropped)
    ensures Accounted(env, Step(env, w, k), NextDropped(env, w, dropped, Reconcile(k)))
  {
    ShapeReads(env, w, k);
    if w.stored.Some? {
      var s := w.stored.value.status.exemptions;
      match ShapeOf(env, w, k)
      case Idle(_) =>
      case Finalizing =>
      case Deleting =>
        DeletionKeepsLedger(env, w.az, TargetOf(w.stored.value), dropped);
        LedgerWider(env, w.az, s, dropped, dropped + TrackedNames(s));
      case Flagged(az, status) => ReadKeepsLedger(env, w.stored.value, w.az, az, status, dropped);
      case Writing(az, cr, definitionId) =>
        ReadKeepsLedger(env, w.stored.value, w.az, az, cr.status, dropped);
        ApplyKeepsLedger(env, az, cr, definitionId, dropped);
    }
  }

  function RunDropped(env: Env, w: World, dropped: set<string>, events: seq<Event>): set<string>
    decreases |events|
  {
    if events == [] then dropped
    else RunDropped(env, Happen(env, w, events[0]), NextDropped(env, w, dropped, events[0]), events[1..])
  }

  lemma {:induction false} RunAccounted(env: Env, w: World, dropped: set<string>, events: seq<Event>)
    requires ValidEnv(env) && Accounted(env, w, dropped)
    requires forall e :: e in events ==> DistinctEdits(e)
    ensures Accounted(env, Run(env, w, events), RunDropped(env, w, dropped, events))
    decreases |events|
  {
    if events != [] {
      assert events[0] in events;
      if events[0].Reconcile? {
        StepAccounted(env, w, dropped, events[0].k);
      }
      RunAccounted(env, Happen(env, w, events[0]), NextDropped(env, w, dropped, events[0]), events[1..]);
    }
  }

  /**
   In every run from a new resource, whatever call or status write fails, as long as each spec has distinct
   display names: every exemption delete hits a scope and name that an earlier create returned, and a
   tracked exemption whose display name never left the spec since its list was stored is live.
   */
  lemma {:induction false} LedgerHolds(env: Env, w: World, events: seq<Event>)
    requires ValidEnv(env) && w.az.log == []
    requires w.stored.Some? && w.stored.value.status.exemptions == [] && Distinct(w.stored.value.spec.exemptions)
    requires forall e :: e in events ==> DistinctEdits(e)
    ensures var end := Run(env, w, events);
            && DropsFollowPuts(end.az.log)
            && (end.stored.Some? ==>
                  forall e :: e in end.stored.value.status.exemptions && e.displayName !in RunDropped(env, w, {}, events)
                    ==> Place(e) in end.az.exemptions)
  {
    RunAccounted(env, w, {}, events);
  }

  // ---- exactness over controller runs --------------------------------------------------------------------

  /**
   Events that exactness asks for: a reconcile that writes finishes its exemption pass and stores its
   status, on a spec with distinct display names and no retained name at a new scope; nothing deletes.
   */
  predicate Undisturbed(env: Env, w: World, e: Event) {
    match e
    case MarkDeleted => false
    case Reconcile(k) =>
      (match ShapeOf(env, w, k)
       case Deleting => false
       case Writing(az, cr, definitionId) =>
         && k.status && Distinct(cr.spec.exemptions) && ScopesKept(cr.spec.exemptions, cr.status.exemptions)
         && (env.fails(az.calls) || Apply(env, az, cr, definitionId).exemptions.Some?)
       case _ => true)
    case _ => true
  }

  predicate UndisturbedRun(env: Env, w: World, events: seq<Event>)
    decreases |events|
  {
    events == [] || (Undisturbed(env, w, events[0]) && UndisturbedRun(env, Happen(env, w, events[0]), events[1..]))
  }

  ghost predicate StatusAround(env: Env, foreign: map<Key, Exemption>, w: World) {
    w.stored.Some? && Around(env, foreign, w.az, w.stored.value.status.exemptions)
  }

  lemma {:induction false} SameExemptionsAround(env: Env, foreign: map<Key, Exemption>, a: Azure, b: Azure, status: seq<Tracked>)
    requires Around(env, foreign, a, status) && b.exemptions == a.exemptions && b.minted == a.minted
    ensures Around(env, foreign, b, status)
  {
  }

  /** A write whose pass went through: status, Azure and spec agree exactly. */
  lemma {:induction false} ApplyExact(env: Env, foreign: map<Key, Exemption>, az: Azure, cr: AssignmentCR, definitionId: string)
    requires ValidEnv(env) && Around(env, foreign, az, cr.status.exemptions)
    requires Distinct(cr.spec.exemptions) && ScopesKept(cr.spec.exemptions, cr.status.exemptions)
    requires Apply(env, az, cr, definitionId).exemptions.Some?
    ensures var a := Apply(env, az, cr, definitionId);
            && Around(env, foreign, a.az, a.exemptions.value) && AllRecord(cr.spec.exemptions, a.exemptions.value)
            && a.az.exemptions == foreign + Content(env, a.id, cr.spec.exemptions, a.exemptions.value)
  {
    var w := UpsertAssignment(env, az, WriteKey(cr), BodyOf(cr, definitionId));
    SameExemptionsAround(env, foreign, az, w.az, cr.status.exemptions);
    AttachExact(env, foreign, w.az, cr, w.value.value);
  }

  lemma {:induction false} AttachExact(env: Env, foreign: map<Key, Exemption>, az: Azure, cr: AssignmentCR, x: Written)
    requires ValidEnv(env) && Around(env, foreign, az, cr.status.exemptions)
    requires Distinct(cr.spec.exemptions) && ScopesKept(cr.spec.exemptions, cr.status.exemptions)
    requires Attach(env, az, cr, x).exemptions.Some?
    ensures var a := Attach(env, az, cr, x);
            && Around(env, foreign, a.az, a.exemptions.value) && AllRecord(cr.spec.exemptions, a.exemptions.value)
            && a.az.exemptions == foreign + Content(env, a.id, cr.spec.exemptions, a.exemptions.value)
  {
    PassStaysAround(env, foreign, az, cr.status.exemptions, Round(x.id, cr.spec.exemptions));
    var p := Pass(env, az, x.id, cr.spec.exemptions, cr.status.exemptions);
    GrantAllEffect(env, p.az, x.id, x.principal, Permissions(cr.spec.identity));
    SameExemptionsAround(env, foreign, p.az, Granted(env, p.az, x.id, x.principal, cr.spec.identity).az, p.value.value);
  }

  lemma {:induction false} StepStaysAround(env: Env, foreign: map<Key, Exemption>, w: World, k: Kube)
    requires ValidEnv(env) && StatusAround(env, foreign, w) && Undisturbed(env, w, Reconcile(k))
    ensures StatusAround(env, foreign, Step(env, w, k))
  {
    ShapeReads(env, w, k);
    match ShapeOf(env, w, k)
    case Idle(_) =>
    case Finalizing =>
    case Deleting =>
    case Flagged(az, status) => SameExemptionsAround(env, foreign, w.az, az, status.exemptions);
    case Writing(az, cr, definitionId) =>
      SameExemptionsAround(env, foreign, w.az, az, cr.status.exemptions);
      if Apply(env, az, cr, definitionId).exemptions.Some? {
        ApplyExact(env, foreign, az, cr, definitionId);
      } else {
        SameExemptionsAround(env, foreign, az, Apply(env, az, cr, definitionId).az, cr.status.exemptions);
      }
  }

  lemma {:induction false} RunStaysAround(env: Env, foreign: map<Key, Exemption>, w: World, events: seq<Event>)
    requires ValidEnv(env) && StatusAround(env, foreign, w) && UndisturbedRun(env, w, events)
    ensures StatusAround(env, foreign, Run(env, w, events))
    decreases |events|
  {
    if events != [] {
      if events[0].Reconcile? {
        StepStaysAround(env, foreign, w, events[0].k);
      }
      RunStaysAround(env, foreign, Happen(env, w, events[0]), events[1..]);
    }
  }

  /**
   Over any undisturbed run of the controller from a new resource, ended by a reconcile whose write goes
   through: the stored status mirrors the stored spec entry by entry, and Azure's exemptions are exactly
   those it held at the start plus the tracked ones, with the content of the spec and the stored ID.
   */
  lemma {:induction false} ControllerExact(env: Env, w: World, events: seq<Event>, k: Kube)
    requires ValidEnv(env) && Fresh(env, w.az)
    requires w.stored.Some? && w.stored.value.status.exemptions == [] && UndisturbedRun(env, w, events)
    requires var last := Run(env, w, events);
             && Undisturbed(env, last, Reconcile(k)) && ShapeOf(env, last, k).Writing?
             && !env.fails(ShapeOf(env, last, k).az.calls)
    ensures var end := Step(env, Run(env, w, events), k);
            && end.stored.Some?
            && var cr := end.stored.value;
            && AllRecord(cr.spec.exemptions, cr.status.exemptions) && Apart(cr.status.exemptions)
            && Places(cr.status.exemptions) !! w.az.exemptions.Keys
            && end.az.exemptions == w.az.exemptions
                                    + Content(env, cr.status.assignmentId, cr.spec.exemptions, cr.status.exemptions)
  {
    var foreign := w.az.exemptions;
    assert foreign - Places([]) == foreign;
    RunStaysAround(env, foreign, w, events);
    LastWriteExact(env, foreign, Run(env, w, events), k);
  }

  lemma {:induction false} LastWriteExact(env: Env, foreign: map<Key, Exemption>, w: World, k: Kube)
    requires ValidEnv(env) && StatusAround(env, foreign, w)
    requires Undisturbed(env, w, Reconcile(k)) && ShapeOf(env, w, k).Writing? && !env.fails(ShapeOf(env, w, k).az.calls)
    ensures var end := Step(env, w, k);
            && end.stored.Some?
            && var cr := end.stored.value;
            && AllRecord(cr.spec.exemptions, cr.status.exemptions) && Apart(cr.status.exemptions)
            && Places(cr.status.exemptions) !! foreign.Keys
            && end.az.exemptions == foreign + Content(env, cr.status.assignmentId, cr.spec.exemptions, cr.status.exemptions)
  {
    ShapeReads(env, w, k);
    var s := ShapeOf(env, w, k);
    SameExemptionsAround(env, foreign, w.az, s.az, s.cr.status.exemptions);
    ApplyExact(env, foreign, s.az, s.cr, s.definitionId);
    ApplyWrites(env, s.az, s.cr, s.definitionId);
  }
}
