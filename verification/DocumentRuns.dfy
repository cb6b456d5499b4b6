/** What the definition and initiative controllers guarantee over whole runs. */
module DocumentRuns {
  import opened Wrappers
  import opened Text
  import opened ResourceId
  import opened Resource
  import opened Documents
  import opened DocumentController

  /** What can happen between and at reconciles: edits and deletion by users, changes to Azure by others. */
  datatype Event =
    | Reconcile(k: Kube)
    | Edit(annotations: Annotations, spec: DocumentSpec)
    | MarkDeleted
    | Outside(address: Address, body: Option<Document>)

  function Changed(docs: map<Address, Document>, a: Address, body: Option<Document>): map<Address, Document> {
    match body case None => docs - {a} case Some(b) => docs[a := b]
  }

  function Happen(env: Env, kind: DocumentKind, w: World, e: Event): World {
    match e
    case Reconcile(k) => Step(env, kind, w, k)
    case Edit(annotations, spec) =>
      if w.stored.None? then w else w.(stored := Some(w.stored.value.(annotations := annotations, spec := spec)))
    case MarkDeleted =>
      if w.stored.None? then w
      else if !w.stored.value.finalizer then w.(stored := None)
      else w.(stored := Some(w.stored.value.(deleting := true)))
    case Outside(a, body) => w.(lib := w.lib.(docs := Changed(w.lib.docs, a, body)))
  }

  function Run(env: Env, kind: DocumentKind, w: World, events: seq<Event>): World
    decreases |events|
  {
    if events == [] then w else Run(env, kind, Happen(env, kind, w, events[0]), events[1..])
  }

  /** Azure's documents as others alone would have left them. */
  function OthersOnly(docs: map<Address, Document>, events: seq<Event>): map<Address, Document>
    decreases |events|
  {
    if events == [] then docs
    else OthersOnly(if events[0].Outside? then Changed(docs, events[0].address, events[0].body) else docs, events[1..])
  }

  predicate StatusPersists(e: Event) {
    e.Reconcile? ==> e.k.status
  }

  predicate SameLibrary(a: Library, b: Library) {
    a.docs == b.docs && a.log == b.log
  }

  /** A status saved without a write: an ID is bound by import only, and no record of an application is made. */
  predicate MayFlag(kind: DocumentKind, was: DocumentCR, status: DocumentStatus) {
    && Reason(status, READY) != APPLIED_ONCE
    && (status.id == was.status.id || MayBind(kind, was, status.id))
  }

  predicate MayBind(kind: DocumentKind, was: DocumentCR, id: string) {
    && id != "" && id == was.annotations.importId
    && (was.status.id == "" || SameId(kind, id, was.status.id))
  }

  /** A write is planned only under these conditions. */
  predicate MayWrite(kind: DocumentKind, was: DocumentCR, lib: Library, cr: DocumentCR) {
    && cr == was.(status := cr.status)
    && (cr.status.id == "" ==> WriteAddress(cr) !in lib.docs)
    && (if was.annotations.importId == "" then cr.status == was.status
        else
          && MayBind(kind, was, cr.status.id) && ModeOf(was.annotations) != OBSERVE_ONLY
          && !(ModeOf(was.annotations) == ADOPT_ONCE && Reason(was.status, READY) == APPLIED_ONCE))
  }

  /** While a step makes its plan it writes nothing, and what it plans is allowed. */
  lemma {:induction false} PlanReads(env: Env, kind: DocumentKind, w: World, k: Kube)
    ensures match PlanOf(env, kind, w, k)
            case Idle(lib) => SameLibrary(lib, w.lib)
            case Flagging(lib, status) => SameLibrary(lib, w.lib) && w.stored.Some? && MayFlag(kind, w.stored.value, status)
            case Writing(lib, cr, _) =>
              && SameLibrary(lib, w.lib) && w.stored.Some? && MayWrite(kind, w.stored.value, lib, cr)
              && !w.stored.value.deleting && w.stored.value.finalizer
            case _ => w.stored.Some?
  {
    if w.stored.Some? && k.fetch && !w.stored.value.deleting && w.stored.value.finalizer {
      var cr := w.stored.value;
      if ResolveFor(kind, cr.spec, k.definition).Resolved? {
        ManageReads(env, kind, w.lib, cr, ResolveFor(kind, cr.spec, k.definition).ids);
      }
    }
  }

  lemma {:induction false} ManageReads(env: Env, kind: DocumentKind, lib: Library, was: DocumentCR, ids: seq<string>)
    ensures match ManagePlan(env, kind, lib, was, ids)
            case Idle(lib2) => SameLibrary(lib2, lib)
            case Flagging(lib2, status) => SameLibrary(lib2, lib) && MayFlag(kind, was, status)
            case Writing(lib2, cr, _) => SameLibrary(lib2, lib) && MayWrite(kind, was, lib2, cr)
            case _ => false
  {
    if was.annotations.importId != "" {
      ImportReads(env, kind, lib, was, ids);
    }
    match HandleImport(env, kind, lib, was, ids)
    case Proceed(lib2, status) => ReconcileReads(env, kind, lib2, was.(status := status), ids);
    case _ =>
  }

  lemma {:induction false} ReconcileReads(env: Env, kind: DocumentKind, lib: Library, cr: DocumentCR, ids: seq<string>)
    ensures match ReconcilePlan(env, kind, lib, cr, ids)
            case Idle(lib2) => SameLibrary(lib2, lib)
            case Flagging(lib2, status) =>
              SameLibrary(lib2, lib) && Reason(status, READY) != APPLIED_ONCE && status.id == cr.status.id
            case Writing(lib2, cr2, _) =>
              SameLibrary(lib2, lib) && cr2 == cr && (cr.status.id == "" ==> WriteAddress(cr) !in lib2.docs)
            case _ => false
  {
  }

  lemma {:induction false} ImportReads(env: Env, kind: DocumentKind, lib: Library, was: DocumentCR, ids: seq<string>)
    requires was.annotations.importId != ""
    ensures match HandleImport(env, kind, lib, was, ids)
            case Halt(lib2) => SameLibrary(lib2, lib)
            case Flag(lib2, status) => SameLibrary(lib2, lib) && MayFlag(kind, was, status)
            case Proceed(lib2, status) => SameLibrary(lib2, lib) && MayWrite(kind, was, lib2, was.(status := status))
  {
    var s, id := was.status, was.annotations.importId;
    if s.id == "" || SameId(kind, id, s.id) {
      AfterImportReads(kind, Import(env, kind, lib, id, was.spec, ids).lib, was,
                       Import(env, kind, lib, id, was.spec, ids).value);
    }
  }

  lemma {:induction false} AfterImportReads(kind: DocumentKind, lib: Library, was: DocumentCR, drift: Option<seq<string>>)
    requires was.annotations.importId != "" && MayBind(kind, was, was.annotations.importId)
    ensures match AfterImport(lib, was, drift)
            case Halt(_) => false
            case Flag(lib2, status) => lib2 == lib && MayFlag(kind, was, status)
            case Proceed(lib2, status) =>
              lib2 == lib && status.id == was.annotations.importId && ModeOf(was.annotations) != OBSERVE_ONLY
  {
  }

  /**
   The Ready condition tells the truth. A step that saves a status saves Ready as true exactly when it
   observed, or wrote: one put of the spec's body at the write address, recorded as ID and version.
   */
  lemma {:induction false} ReadyExactly(env: Env, kind: DocumentKind, w: World, k: Kube)
    requires k.status && (PlanOf(env, kind, w, k).Flagging? || PlanOf(env, kind, w, k).Writing?)
    ensures w.stored.Some? && Step(env, kind, w, k).stored.Some?
    ensures var w2 := Step(env, kind, w, k);
            var cr, s := w.stored.value, w2.stored.value.status;
            && READY in s.conditions
            && (s.conditions[READY].status <==> w2.lib.log != w.lib.log || Reason(s, READY) == "ObservedOnly")
            && (Reason(s, READY) == "ObservedOnly" ==>
                  w2.lib.log == w.lib.log && s.id == cr.annotations.importId && ModeOf(cr.annotations) == OBSERVE_ONLY)
            && (w2.lib.log != w.lib.log ==>
                  && ResolveFor(kind, cr.spec, k.definition).Resolved?
                  && var ids := ResolveFor(kind, cr.spec, k.definition).ids;
                  && w2.lib.log == w.lib.log + [Put(WriteAddress(cr), BodyOf(kind, cr.spec, ids))]
                  && s.id == IdOf(env, kind, WriteAddress(cr)) && s.appliedVersion == cr.spec.version)
  {
    PlanReads(env, kind, w, k);
    match PlanOf(env, kind, w, k)
    case Flagging(lib, status) => FlagsTell(env, kind, w, k);
    case Writing(lib, cr, ids) => assert lib.log + [Put(WriteAddress(cr), BodyOf(kind, cr.spec, ids))] != lib.log;
  }

  /** A status saved without a write: Ready exactly if observed, under the import ID. */
  predicate Tells(was: DocumentCR, s: DocumentStatus) {
    && READY in s.conditions && (s.conditions[READY].status <==> Reason(s, READY) == "ObservedOnly")
    && (Reason(s, READY) == "ObservedOnly" ==> s.id == was.annotations.importId && ModeOf(was.annotations) == OBSERVE_ONLY)
  }

  lemma {:induction false} FlagsTell(env: Env, kind: DocumentKind, w: World, k: Kube)
    requires PlanOf(env, kind, w, k).Flagging?
    ensures w.stored.Some? && Tells(w.stored.value, PlanOf(env, kind, w, k).status)
  {
    var cr := w.stored.value;
    if ResolveFor(kind, cr.spec, k.definition).Resolved? {
      var ids := ResolveFor(kind, cr.spec, k.definition).ids;
      ImportTells(env, kind, w.lib, cr, ids);
      match HandleImport(env, kind, w.lib, cr, ids)
      case Proceed(lib, status) => ExistingTells(env, kind, lib, cr.(status := status));
      case _ =>
    }
  }

  lemma {:induction false} ImportTells(env: Env, kind: DocumentKind, lib: Library, cr: DocumentCR, ids: seq<string>)
    ensures var v := HandleImport(env, kind, lib, cr, ids); v.Flag? ==> Tells(cr, v.status)
  {
    var s, id := cr.status, cr.annotations.importId;
    if id != "" && !(s.id != "" && !SameId(kind, id, s.id)) {
      var r := Import(env, kind, lib, id, cr.spec, ids);
      AfterImportTells(r.lib, cr, r.value);
    }
  }

  lemma {:induction false} AfterImportTells(lib: Library, cr: DocumentCR, drift: Option<seq<string>>)
    ensures var v := AfterImport(lib, cr, drift); v.Flag? ==> Tells(cr, v.status)
  {
  }

  lemma {:induction false} ExistingTells(env: Env, kind: DocumentKind, lib: Library, cr: DocumentCR)
    ensures var v := CheckExisting(env, kind, lib, cr); v.Flag? ==> Tells(cr, v.status)
  {
    assert AlreadyExists(kind) != "ObservedOnly";
  }

  // ---- no orphan, no takeover: resources without import annotations ---------------------------------------

  /** Edits keep the management group and set no import; others leave the resource's own document alone. */
  predicate PlainEvent(own: Address, e: Event) {
    match e
    case Reconcile(_) => true
    case Edit(annotations, spec) => Unmanaged(annotations) && spec.group == own.group
    case MarkDeleted => true
    case Outside(a, _) => a != own
  }

  predicate PlainResource(own: Address, cr: DocumentCR) {
    cr.name == own.name && cr.spec.group == own.group && Unmanaged(cr.annotations)
  }

  predicate Slashfree(env: Env, own: Address) {
    NoSlash(env.subscription) && NoSlash(own.group) && NoSlash(own.name)
  }

  lemma {:induction false} OwnAddresses(env: Env, kind: DocumentKind, own: Address, cr: DocumentCR)
    requires Slashfree(env, own) && PlainResource(own, cr)
    ensures WriteAddress(cr) == own
    ensures cr.status.id == IdOf(env, kind, own) ==> DeleteAddress(cr) == own
  {
    CanonicalCasing(kind);
    SplitDocumentId(Canonical(kind.Word()), env.subscription, own);
  }

  /** Somebody else's document sits at the resource's address, and nothing is bound. */
  predicate Foreign(own: Address, body: Document, w: World) {
    && own in w.lib.docs && w.lib.docs[own] == body
    && (w.stored.Some? ==> PlainResource(own, w.stored.value) && w.stored.value.status.id == "")
  }

  /**
   No takeover: a document found at the address of an unbound resource without import annotations is
   never modified or deleted, in any run, whatever fails: the existence check and the first write agree.
   */
  lemma {:induction false} NoTakeover(env: Env, kind: DocumentKind, own: Address, body: Document, w: World, events: seq<Event>)
    requires Foreign(own, body, w)
    requires forall e :: e in events ==> PlainEvent(own, e)
    ensures var end := Run(env, kind, w, events);
            && own in end.lib.docs && end.lib.docs[own] == body
            && (end.stored.Some? ==> end.stored.value.status.id == "")
    decreases |events|
  {
    if events != [] {
      assert events[0] in events;
      if events[0].Reconcile? {
        StepKeepsForeign(env, kind, own, body, w, events[0].k);
      }
      NoTakeover(env, kind, own, body, Happen(env, kind, w, events[0]), events[1..]);
    }
  }

  lemma {:induction false} StepKeepsForeign(env: Env, kind: DocumentKind, own: Address, body: Document, w: World, k: Kube)
    requires Foreign(own, body, w)
    ensures Foreign(own, body, Step(env, kind, w, k))
  {
    PlanReads(env, kind, w, k);
  }

  /** Stored resource and Azure agree on who owns the address. */
  predicate Owned(env: Env, kind: DocumentKind, own: Address, w: World) {
    && (w.stored.Some? ==>
          var cr := w.stored.value;
          && PlainResource(own, cr)
          && (cr.status.id == "" || (cr.status.id == IdOf(env, kind, own) && cr.finalizer)))
    && (own in w.lib.docs ==> w.stored.Some? && w.stored.value.status.id != "")
  }

  /** This step plans the first write, the write goes through, and the status write is lost. */
  predicate LosesNew(env: Env, kind: DocumentKind, w: World, k: Kube) {
    var plan := PlanOf(env, kind, w, k);
    plan.Writing? && plan.cr.status.id == "" && !env.fails(plan.lib.calls) && !k.status
  }

  /** This step lets go of the resource, in observe-only mode, while the document it created is live. */
  predicate ReleasesLive(own: Address, w: World, k: Kube) {
    && own in w.lib.docs && w.stored.Some? && k.fetch && k.update
    && w.stored.value.deleting && w.stored.value.finalizer && w.stored.value.annotations.importMode == OBSERVE_ONLY
  }

  /** One step and ownership: the two ways, and the only two, in which a live document is left without an owner. */
  lemma {:induction false} OrphanExactlyWhen(env: Env, kind: DocumentKind, own: Address, w: World, k: Kube)
    requires Slashfree(env, own) && Owned(env, kind, own, w)
    ensures !Owned(env, kind, own, Step(env, kind, w, k)) <==> LosesNew(env, kind, w, k) || ReleasesLive(own, w, k)
  {
    PlanReads(env, kind, w, k);
    if w.stored.Some? {
      OwnAddresses(env, kind, own, w.stored.value);
      var plan := PlanOf(env, kind, w, k);
      if plan.Writing? {
        WriteKeepsOwned(env, kind, own, w, plan.lib, plan.cr, plan.ids, k);
      } else if plan.Deleting? {
        DeletionKeepsOwned(env, kind, own, w, k);
      }
    }
  }

  lemma {:induction false} DeletionKeepsOwned(env: Env, kind: DocumentKind, own: Address, w: World, k: Kube)
    requires Owned(env, kind, own, w) && w.stored.Some? && w.stored.value.deleting && k.fetch
    requires w.stored.value.status.id != "" ==> DeleteAddress(w.stored.value) == own
    ensures var w2 := HandleDeletion(env, w, w.stored.value, k);
            && (Owned(env, kind, own, w2) <==> !ReleasesLive(own, w, k))
            && (own in w2.lib.docs ==> own in w.lib.docs)
  {
  }

  lemma {:induction false} WriteKeepsOwned(env: Env, kind: DocumentKind, own: Address, w: World, lib: Library, cr: DocumentCR,
                        ids: seq<string>, k: Kube)
    requires Owned(env, kind, own, w) && w.stored.Some? && SameLibrary(lib, w.lib) && MayWrite(kind, w.stored.value, lib, cr)
    requires WriteAddress(cr) == own && w.stored.value.finalizer
    ensures var w2 := WriteStep(env, kind, w.(lib := lib), cr, ids, k);
            (cr.status.id == "" && !env.fails(lib.calls) && !k.status) <==> !Owned(env, kind, own, w2)
  {
  }

  /**
   No orphan: in every run, whatever calls fail, as long as status writes persist and the mode is never
   observe-only: while the document is live, the stored resource has its finalizer and the document's ID;
   once the finalizer (or the resource) is gone, so is the document. Every other document is as others
   alone left it.
   */
  lemma {:induction false} NoOrphan(env: Env, kind: DocumentKind, own: Address, w: World, events: seq<Event>)
    requires Slashfree(env, own) && Owned(env, kind, own, w)
    requires w.stored.Some? ==> w.stored.value.annotations.importMode != OBSERVE_ONLY
    requires forall e :: e in events ==>
               PlainEvent(own, e) && StatusPersists(e) && (e.Edit? ==> e.annotations.importMode != OBSERVE_ONLY)
    ensures var end := Run(env, kind, w, events);
            && (own in end.lib.docs ==>
                  end.stored.Some? && end.stored.value.finalizer && end.stored.value.status.id == IdOf(env, kind, own))
            && end.lib.docs - {own} == OthersOnly(w.lib.docs, events) - {own}
    decreases |events|
  {
    if events != [] {
      assert events[0] in events;
      var w1 := Happen(env, kind, w, events[0]);
      if events[0].Reconcile? {
        OrphanExactlyWhen(env, kind, own, w, events[0].k);
        OnlyOwn(env, kind, own, w, events[0].k);
        AnnotationsStay(env, kind, w, events[0].k);
        OthersAside(own, w1.lib.docs, w.lib.docs, events[1..]);
      }
      NoOrphan(env, kind, own, w1, events[1..]);
    }
  }

  /** A step of an owned resource touches no document but its own. */
  lemma {:induction false} OnlyOwn(env: Env, kind: DocumentKind, own: Address, w: World, k: Kube)
    requires Slashfree(env, own) && Owned(env, kind, own, w)
    ensures Step(env, kind, w, k).lib.docs - {own} == w.lib.docs - {own}
  {
    PlanReads(env, kind, w, k);
    if w.stored.Some? {
      OwnAddresses(env, kind, own, w.stored.value);
    }
  }

  /** What others do to the rest does not depend on the own document. */
  lemma {:induction false} OthersAside(own: Address, a: map<Address, Document>, b: map<Address, Document>, events: seq<Event>)
    requires a - {own} == b - {own}
    ensures OthersOnly(a, events) - {own} == OthersOnly(b, events) - {own}
    decreases |events|
  {
    if events != [] {
      if events[0].Outside? {
        var x, body := events[0].address, events[0].body;
        ChangedAside(own, a, b, x, body);
        OthersAside(own, Changed(a, x, body), Changed(b, x, body), events[1..]);
      } else {
        OthersAside(own, a, b, events[1..]);
      }
    }
  }

  lemma {:induction false} ChangedAside(own: Address, a: map<Address, Document>, b: map<Address, Document>, x: Address, body: Option<Document>)
    requires a - {own} == b - {own}
    ensures Changed(a, x, body) - {own} == Changed(b, x, body) - {own}
  {
    forall y | y != own
      ensures y in Changed(a, x, body) <==> y in Changed(b, x, body)
      ensures y in Changed(a, x, body) ==> Changed(a, x, body)[y] == Changed(b, x, body)[y]
    {
      assert y in a <==> y in a - {own};
      assert y in b <==> y in b - {own};
      assert y in a ==> a[y] == (a - {own})[y];
      assert y in b ==> b[y] == (b - {own})[y];
    }
  }

  /** Reconciling never touches annotations, spec or the deletion mark. */
  lemma {:induction false} AnnotationsStay(env: Env, kind: DocumentKind, w: World, k: Kube)
    ensures var w2 := Step(env, kind, w, k);
            w2.stored.Some? ==>
              && w.stored.Some? && w2.stored.value.annotations == w.stored.value.annotations
              && w2.stored.value.spec == w.stored.value.spec && w2.stored.value.deleting == w.stored.value.deleting
  {
    PlanReads(env, kind, w, k);
  }

  // ---- observe-only --------------------------------------------------------------------------------------------

  /** Deletion of a bound resource whose mode annotation is missing goes through. */
  predicate TakesObserved(env: Env, w: World, k: Kube)
    requires w.stored.Some?
  {
    var cr := w.stored.value;
    && k.fetch && cr.deleting && cr.finalizer && cr.status.id != ""
    && cr.annotations.importMode == "" && !env.fails(w.lib.calls)
  }

  /**
   One step of an observed resource. It writes nothing to Azure, with exactly one exception: a bound
   resource that is being deleted and whose mode annotation is missing, rather than set to observe-only.
   What such a deletion takes is said by `TakenExactly`.
   */
  lemma {:induction false} ObservedStepExactly(env: Env, kind: DocumentKind, w: World, k: Kube)
    requires w.stored.Some? && w.stored.value.annotations.importId != "" && ModeOf(w.stored.value.annotations) == OBSERVE_ONLY
    ensures SameLibrary(Step(env, kind, w, k).lib, w.lib) <==> !TakesObserved(env, w, k)
  {
    PlanReads(env, kind, w, k);
    var lib := w.lib;
    assert |lib.log + [Drop(DeleteAddress(w.stored.value))]| == |lib.log| + 1;
  }

  /**
   What that deletion takes, for a resource bound to an import ID in any keyword casing: one document, and
   that is the observed one exactly when the spec's management group is the ID's. Otherwise the observed
   document stays as it is, and the one of the same name under the spec's group is gone.
   */
  lemma {:induction false} TakenExactly(env: Env, kind: DocumentKind, w: World, k: Kube, c: Casing, subscription: string, a: Address)
    requires w.stored.Some? && TakesObserved(env, w, k) && w.stored.value.status.id == w.stored.value.annotations.importId
    requires w.stored.value.annotations.importId == DocumentId(c, subscription, a) && a in w.lib.docs
    requires Parseable(kind, c, subscription, a)
    ensures Parsed(kind, w.stored.value.annotations.importId) == Some(a)
    ensures var cr, docs := w.stored.value, Step(env, kind, w, k).lib.docs;
            && docs == w.lib.docs - {Address(cr.spec.group, a.name)}
            && (a !in docs <==> cr.spec.group == a.group)
            && (a in docs ==> docs[a] == w.lib.docs[a])
  {
    AddressesAgree(kind, c, subscription, a, w.stored.value);
    ParsePrinted(kind, c, subscription, a);
    assert Step(env, kind, w, k).lib.docs == w.lib.docs - {DeleteAddress(w.stored.value)};
  }

  /** The ID's parts hold no '/', nor anything the parser takes for a keyword. */
  predicate Parseable(kind: DocumentKind, c: Casing, subscription: string, a: Address) {
    && CasingOf(c, kind.Word()) && NoSlash(subscription) && NoSlash(a.group) && NoSlash(a.name)
    && KeywordFree(kind, if a.group == "" then subscription else a.group)
  }

  /** An unbound resource with an import ID, no mode annotation, and a custom document behind the ID. */
  predicate AboutToObserve(kind: DocumentKind, w: World, id: string, a: Address) {
    && w.stored.Some?
    && var cr := w.stored.value;
    && cr.finalizer && !cr.deleting && cr.status.id == "" && cr.annotations.importId == id && cr.annotations.importMode == ""
    && a in w.lib.docs && w.lib.docs[a].policyType.GetOr("Custom") == "Custom"
  }

  lemma {:induction false} ObservingStep(env: Env, kind: DocumentKind, w: World, k: Kube, id: string, a: Address)
    requires AboutToObserve(kind, w, id, a) && id != "" && NamesKind(kind.Folded(), id) && Parsed(kind, id) == Some(a)
    requires k.fetch && k.status && !env.fails(w.lib.calls) && ResolveFor(kind, w.stored.value.spec, k.definition).Resolved?
    ensures var w1 := Step(env, kind, w, k);
            && w1.stored.Some? && w1.lib == Tick(w.lib) && w1.stored.value.status.id == id
            && w1.stored.value == w.stored.value.(status := w1.stored.value.status)
  {
  }

  /**
   A whole life: a resource without a mode annotation observes a document, is deleted, and every call goes
   through. In the end the document of the imported name under the spec's management group is gone and nothing
   else, the observed one exactly when the groups are the same.
   */
  lemma {:induction false} ObservedLife(env: Env, kind: DocumentKind, w: World, k1: Kube, k2: Kube, c: Casing,
                                        subscription: string, a: Address)
    requires Parseable(kind, c, subscription, a) && AboutToObserve(kind, w, DocumentId(c, subscription, a), a)
    requires k1.fetch && k1.status && k2.fetch && k2.update && !env.fails(w.lib.calls) && !env.fails(w.lib.calls + 1)
    requires ResolveFor(kind, w.stored.value.spec, k1.definition).Resolved?
    ensures var end := Run(env, kind, w, [Reconcile(k1), MarkDeleted, Reconcile(k2)]);
            && end.stored.None?
            && end.lib.docs == w.lib.docs - {Address(w.stored.value.spec.group, a.name)}
            && (a !in end.lib.docs <==> w.stored.value.spec.group == a.group)
  {
    ParsePrinted(kind, c, subscription, a);
    DocumentIdNamesKind(kind, c, subscription, a);
    LifeUnder(env, kind, w, k1, k2, DocumentId(c, subscription, a), a);
  }

  lemma {:induction false} LifeUnder(env: Env, kind: DocumentKind, w: World, k1: Kube, k2: Kube, id: string, a: Address)
    requires AboutToObserve(kind, w, id, a) && id != "" && NamesKind(kind.Folded(), id) && Parsed(kind, id) == Some(a)
    requires k1.fetch && k1.status && k2.fetch && k2.update && !env.fails(w.lib.calls) && !env.fails(w.lib.calls + 1)
    requires ResolveFor(kind, w.stored.value.spec, k1.definition).Resolved? && LastSegment(id) == a.name
    ensures var end := Run(env, kind, w, [Reconcile(k1), MarkDeleted, Reconcile(k2)]);
            end.stored.None? && end.lib.docs == w.lib.docs - {Address(w.stored.value.spec.group, a.name)}
  {
    ObservingStep(env, kind, w, k1, id, a);
    var w2 := Happen(env, kind, Step(env, kind, w, k1), MarkDeleted);
    assert Step(env, kind, w2, k2).lib.docs == w2.lib.docs - {DeleteAddress(w2.stored.value)};
    ThreeEvents(env, kind, w, Reconcile(k1), MarkDeleted, Reconcile(k2));
  }

  lemma {:induction false} ThreeEvents(env: Env, kind: DocumentKind, w: World, e1: Event, e2: Event, e3: Event)
    ensures Run(env, kind, w, [e1, e2, e3]) == Happen(env, kind, Happen(env, kind, Happen(env, kind, w, e1), e2), e3)
  {
    var w2 := Happen(env, kind, Happen(env, kind, w, e1), e2);
    assert [e1, e2, e3][1..] == [e2, e3] && [e2, e3][1..] == [e3] && [e3][1..] == [];
    assert Run(env, kind, w2, [e3]) == Happen(env, kind, w2, e3);
  }

  predicate ObserveOnly(a: Annotations) {
    a.importId != "" && a.importMode == OBSERVE_ONLY
  }

  /**
   Observe-only: while the import ID is set and the mode is explicitly observe-only, no run, from the first
   reconcile through the removal of the finalizer, creates, updates or deletes anything in Azure.
   */
  lemma {:induction false} ObserveOnlyWritesNothing(env: Env, kind: DocumentKind, w: World, events: seq<Event>)
    requires w.stored.Some? ==> ObserveOnly(w.stored.value.annotations)
    requires forall e :: e in events && e.Edit? ==> ObserveOnly(e.annotations)
    ensures var end := Run(env, kind, w, events);
            end.lib.log == w.lib.log && end.lib.docs == OthersOnly(w.lib.docs, events)
    decreases |events|
  {
    if events != [] {
      assert events[0] in events;
      if events[0].Reconcile? {
        if w.stored.Some? {
          ObservedStepExactly(env, kind, w, events[0].k);
        }
        AnnotationsStay(env, kind, w, events[0].k);
      }
      ObserveOnlyWritesNothing(env, kind, Happen(env, kind, w, events[0]), events[1..]);
    }
  }

  // ---- adopt-once ------------------------------------------------------------------------------------------------

  predicate Adopting(id: string, a: Annotations) {
    a.importId == id && a.importMode == ADOPT_ONCE
  }

  /** Before deletion, under one import ID in adopt-once mode. */
  predicate AdoptingWorld(id: string, w: World) {
    w.stored.Some? ==> Adopting(id, w.stored.value.annotations) && !w.stored.value.deleting
  }

  predicate AdoptingEvent(id: string, e: Event) {
    !e.MarkDeleted? && (e.Edit? ==> Adopting(id, e.annotations))
  }

  /** Nothing more will be written: applied once, or bound to another ID than the import ID. */
  predicate Settled(kind: DocumentKind, id: string, w: World) {
    w.stored.Some? ==>
      var s := w.stored.value.status;
      s.id != "" && (Reason(s, READY) == APPLIED_ONCE || !SameId(kind, id, s.id))
  }

  /** Reference resolution runs before the import and overwrites the record that it was applied once. */
  predicate Overwrites(kind: DocumentKind, id: string, w: World, k: Kube) {
    && w.stored.Some? && k.fetch && k.status && w.stored.value.finalizer
    && SameId(kind, id, w.stored.value.status.id)
    && ResolveFor(kind, w.stored.value.spec, k.definition).Parked?
  }

  /** A settled resource writes nothing, and stays settled except exactly when its record is overwritten. */
  lemma {:induction false} SettledStepExactly(env: Env, kind: DocumentKind, id: string, w: World, k: Kube)
    requires id != "" && AdoptingWorld(id, w) && Settled(kind, id, w)
    ensures SameLibrary(Step(env, kind, w, k).lib, w.lib)
    ensures Settled(kind, id, Step(env, kind, w, k)) <==> !Overwrites(kind, id, w, k)
  {
    PlanReads(env, kind, w, k);
  }

  /** An unsettled one writes at most once, and becomes settled exactly when it wrote and the status was saved. */
  lemma {:induction false} UnsettledStepExactly(env: Env, kind: DocumentKind, id: string, w: World, k: Kube)
    requires id != "" && AdoptingWorld(id, w) && !Settled(kind, id, w)
    ensures var w2 := Step(env, kind, w, k);
            && (SameLibrary(w2.lib, w.lib) || |w2.lib.log| == |w.lib.log| + 1)
            && (Settled(kind, id, w2) <==> |w2.lib.log| == |w.lib.log| + 1 && k.status)
  {
    PlanReads(env, kind, w, k);
    UnsettledOutcome(env, kind, id, w, k, PlanOf(env, kind, w, k));
  }

  lemma {:induction false} UnsettledOutcome(env: Env, kind: DocumentKind, id: string, w: World, k: Kube, plan: Plan)
    requires id != "" && w.stored.Some? && AdoptingWorld(id, w) && !Settled(kind, id, w)
    requires match plan
             case Idle(lib) => SameLibrary(lib, w.lib)
             case Flagging(lib, status) => SameLibrary(lib, w.lib) && MayFlag(kind, w.stored.value, status)
             case Writing(lib, cr, _) => SameLibrary(lib, w.lib) && MayWrite(kind, w.stored.value, lib, cr)
             case Finalizing => true
             case Deleting => false
    ensures var w2 := Outcome(env, kind, w, k, plan);
            && (SameLibrary(w2.lib, w.lib) || |w2.lib.log| == |w.lib.log| + 1)
            && (Settled(kind, id, w2) <==> |w2.lib.log| == |w.lib.log| + 1 && k.status)
  {
    match plan
    case Writing(lib, cr, ids) => UnsettledWrite(env, kind, id, w, lib, cr, ids, k);
    case Flagging(lib, status) => UnsettledFlag(env, kind, id, w, lib, status, k);
    case _ =>
  }

  lemma {:induction false} UnsettledFlag(env: Env, kind: DocumentKind, id: string, w: World, lib: Library, status: DocumentStatus, k: Kube)
    requires id != "" && w.stored.Some? && Adopting(id, w.stored.value.annotations) && !Settled(kind, id, w)
    requires MayFlag(kind, w.stored.value, status)
    ensures !Settled(kind, id, Save(w.(lib := lib), status, k.status))
  {
    SameIdReflexive(kind, id);
  }

  lemma {:induction false} UnsettledWrite(env: Env, kind: DocumentKind, id: string, w: World, lib: Library, cr: DocumentCR,
                       ids: seq<string>, k: Kube)
    requires id != "" && w.stored.Some? && Adopting(id, w.stored.value.annotations) && !Settled(kind, id, w)
    requires SameLibrary(lib, w.lib) && MayWrite(kind, w.stored.value, lib, cr)
    ensures var w2 := WriteStep(env, kind, w.(lib := lib), cr, ids, k);
            && (SameLibrary(w2.lib, w.lib) || |w2.lib.log| == |w.lib.log| + 1)
            && (Settled(kind, id, w2) <==> |w2.lib.log| == |w.lib.log| + 1 && k.status)
  {
    SameIdReflexive(kind, id);
  }

  lemma {:induction false} SameIdReflexive(kind: DocumentKind, id: string)
    ensures SameId(kind, id, id)
  {
  }

  /** The events that may cost one more write: a lost status, or an overwritten record. */
  function Costs(env: Env, kind: DocumentKind, id: string, w: World, events: seq<Event>): nat
    decreases |events|
  {
    if events == [] then 0
    else
      (if events[0].Reconcile? && (!events[0].k.status || (Settled(kind, id, w) && Overwrites(kind, id, w, events[0].k)))
       then 1 else 0)
      + Costs(env, kind, id, Happen(env, kind, w, events[0]), events[1..])
  }

  function Due(kind: DocumentKind, id: string, w: World): nat {
    if Settled(kind, id, w) then 0 else 1
  }

  /**
   Adopt-once, accounted for: under a fixed import ID, any run before deletion writes to Azure at most
   once, plus once for every lost status and every overwritten record, across retries, import failures,
   ID conflicts and edits.
   */
  lemma {:induction false} AdoptOnceBudget(env: Env, kind: DocumentKind, id: string, w: World, events: seq<Event>)
    requires id != "" && AdoptingWorld(id, w)
    requires forall e :: e in events ==> AdoptingEvent(id, e)
    ensures |Run(env, kind, w, events).lib.log| <= |w.lib.log| + Due(kind, id, w) + Costs(env, kind, id, w, events)
    decreases |events|
  {
    if events != [] {
      assert events[0] in events;
      if events[0].Reconcile? {
        AnnotationsStay(env, kind, w, events[0].k);
        if Settled(kind, id, w) {
          SettledStepExactly(env, kind, id, w, events[0].k);
        } else {
          UnsettledStepExactly(env, kind, id, w, events[0].k);
        }
      }
      AdoptOnceBudget(env, kind, id, Happen(env, kind, w, events[0]), events[1..]);
    }
  }

  /** Nothing to resolve: a definition, or an initiative whose references are all direct IDs. */
  predicate Direct(kind: DocumentKind, spec: DocumentSpec) {
    kind.Initiative? ==> forall p :: p in spec.policies ==> p.ref == ""
  }

  lemma {:induction false} DirectNeverParks(kind: DocumentKind, spec: DocumentSpec, answer: nat -> Answer)
    requires Direct(kind, spec)
    ensures ResolveFor(kind, spec, answer).Resolved?
  {
    var i := FirstBlocked(spec.policies, answer, 0);
    assert i < |spec.policies| ==> spec.policies[i] in spec.policies;
  }

  lemma {:induction false} DirectCostsNothing(env: Env, kind: DocumentKind, id: string, w: World, events: seq<Event>)
    requires w.stored.Some? ==> Direct(kind, w.stored.value.spec)
    requires forall e :: e in events ==> StatusPersists(e) && (e.Edit? ==> Direct(kind, e.spec))
    ensures Costs(env, kind, id, w, events) == 0
    decreases |events|
  {
    if events != [] {
      assert events[0] in events;
      if events[0].Reconcile? {
        AnnotationsStay(env, kind, w, events[0].k);
        if w.stored.Some? {
          DirectNeverParks(kind, w.stored.value.spec, events[0].k.definition);
        }
      }
      DirectCostsNothing(env, kind, id, Happen(env, kind, w, events[0]), events[1..]);
    }
  }

  /**
   Adopt-once: a definition, or an initiative whose references are all direct IDs, is written at most once
   in any run before deletion with persisting status writes.
   */
  lemma {:induction false} AdoptOnce(env: Env, kind: DocumentKind, id: string, w: World, events: seq<Event>)
    requires id != "" && AdoptingWorld(id, w) && (w.stored.Some? ==> Direct(kind, w.stored.value.spec))
    requires forall e :: e in events ==>
               AdoptingEvent(id, e) && StatusPersists(e) && (e.Edit? ==> Direct(kind, e.spec))
    ensures |Run(env, kind, w, events).lib.log| <= |w.lib.log| + (if Settled(kind, id, w) then 0 else 1)
  {
    AdoptOnceBudget(env, kind, id, w, events);
    DirectCostsNothing(env, kind, id, w, events);
  }

  /**
   Where it fails: an initiative already applied once, with one reference that is unresolved at one
   reconcile and resolved at the next, is written again.
   */
  lemma {:induction false} ParkingWritesAgain(env: Env, id: string, w: World, k1: Kube, k2: Kube, ids: seq<string>)
    requires id != "" && w.stored.Some? && AdoptingWorld(id, w) && Settled(Initiative, id, w) && Overwrites(Initiative, id, w, k1)
    requires k2.fetch && Resolve(w.stored.value.spec.policies, k2.definition) == Resolved(ids)
    requires Import(env, Initiative, w.lib, id, w.stored.value.spec, ids).value.Some? && !env.fails(w.lib.calls + 1)
    ensures var w2 := Run(env, Initiative, w, [Reconcile(k1), Reconcile(k2)]);
            |w2.lib.log| == |w.lib.log| + 1
  {
    var w1 := Step(env, Initiative, w, k1);
    ParkedStep(env, id, w, k1);
    ReopenedWrites(env, id, w1, k2, ids);
    assert [Reconcile(k1), Reconcile(k2)][1..] == [Reconcile(k2)];
    assert Run(env, Initiative, w1, [Reconcile(k2)]) == Step(env, Initiative, w1, k2);
  }

  lemma {:induction false} ParkedStep(env: Env, id: string, w: World, k: Kube)
    requires w.stored.Some? && AdoptingWorld(id, w) && Overwrites(Initiative, id, w, k)
    ensures var w1 := Step(env, Initiative, w, k);
            && w1.lib == w.lib && w1.stored.Some? && Reason(w1.stored.value.status, READY) != APPLIED_ONCE
            && w1.stored.value == w.stored.value.(status := w1.stored.value.status)
            && w1.stored.value.status.id == w.stored.value.status.id
  {
  }

  lemma {:induction false} ReopenedWrites(env: Env, id: string, w: World, k: Kube, ids: seq<string>)
    requires id != "" && w.stored.Some? && AdoptingWorld(id, w) && w.stored.value.finalizer
    requires SameId(Initiative, id, w.stored.value.status.id) && Reason(w.stored.value.status, READY) != APPLIED_ONCE
    requires k.fetch && Resolve(w.stored.value.spec.policies, k.definition) == Resolved(ids)
    requires Import(env, Initiative, w.lib, id, w.stored.value.spec, ids).value.Some? && !env.fails(w.lib.calls + 1)
    ensures |Step(env, Initiative, w, k).lib.log| == |w.lib.log| + 1
  {
    var cr := w.stored.value;
    var r := Import(env, Initiative, w.lib, id, cr.spec, ids);
    assert HandleImport(env, Initiative, w.lib, cr, ids) == Proceed(r.lib, Adopt(cr.status, id, r.value.value));
    assert ReconcilePlan(env, Initiative, r.lib, cr.(status := Adopt(cr.status, id, r.value.value)), ids).Writing?;
  }

  // ---- import conflicts --------------------------------------------------------------------------------------------

  /** Bound to another ID than the one import ID, before deletion. */
  predicate Conflicted(kind: DocumentKind, id: string, w: World) {
    w.stored.Some? ==>
      var cr := w.stored.value;
      cr.annotations.importId == id && !cr.deleting && cr.status.id != "" && !SameId(kind, id, cr.status.id)
  }

  lemma {:induction false} ConflictedStep(env: Env, kind: DocumentKind, id: string, w: World, k: Kube)
    requires id != "" && Conflicted(kind, id, w)
    ensures Conflicted(kind, id, Step(env, kind, w, k)) && SameLibrary(Step(env, kind, w, k).lib, w.lib)
  {
    PlanReads(env, kind, w, k);
  }

  /** A conflict freezes Azure: no run before deletion with that import ID writes anything, whatever the mode. */
  lemma {:induction false} ConflictFreezes(env: Env, kind: DocumentKind, id: string, w: World, events: seq<Event>)
    requires id != "" && Conflicted(kind, id, w)
    requires forall e :: e in events ==> !e.MarkDeleted? && (e.Edit? ==> e.annotations.importId == id)
    ensures Run(env, kind, w, events).lib.log == w.lib.log
    decreases |events|
  {
    if events != [] {
      assert events[0] in events;
      if events[0].Reconcile? {
        ConflictedStep(env, kind, id, w, events[0].k);
      }
      ConflictFreezes(env, kind, id, Happen(env, kind, w, events[0]), events[1..]);
    }
  }

  /**
   After a recorded write an imported resource is in conflict with its own import ID exactly when that ID
   is not the one Azure returns for the written address: for initiatives up to letter case, for
   definitions in every letter.
   */
  lemma {:induction false} ConflictAfterWrite(env: Env, kind: DocumentKind, w: World, k: Kube)
    requires w.stored.Some? && w.stored.value.annotations.importId != "" && k.status
    requires PlanOf(env, kind, w, k).Writing? && !env.fails(PlanOf(env, kind, w, k).lib.calls)
    ensures Conflicted(kind, w.stored.value.annotations.importId, Step(env, kind, w, k))
       <==> !SameId(kind, w.stored.value.annotations.importId, IdOf(env, kind, WriteAddress(w.stored.value)))
  {
    PlanReads(env, kind, w, k);
  }

  /**
   An unbound resource about to import, under its own address but in some casing `c`, a live custom document, and to
   write it: in a managing mode, with the import name and management group of the ID.
   */
  predicate AboutToAdopt(env: Env, kind: DocumentKind, w: World, c: Casing, a: Address) {
    && w.stored.Some? && Parseable(kind, c, env.subscription, a)
    && var cr := w.stored.value;
    && cr.finalizer && !cr.deleting && cr.status.id == "" && Reason(cr.status, READY) != APPLIED_ONCE
    && cr.annotations.importId == DocumentId(c, env.subscription, a) && Managing(cr.annotations)
    && cr.annotations.importName == a.name && cr.spec.group == a.group
    && a in w.lib.docs && w.lib.docs[a].policyType.GetOr("Custom") == "Custom"
  }

  lemma {:induction false} AdoptingPlan(env: Env, kind: DocumentKind, w: World, k: Kube, id: string, a: Address)
    requires w.stored.Some? && w.stored.value.finalizer && !w.stored.value.deleting && w.stored.value.status.id == ""
    requires Managing(w.stored.value.annotations) && Reason(w.stored.value.status, READY) != APPLIED_ONCE
    requires w.stored.value.annotations.importId == id && id != "" && NamesKind(kind.Folded(), id) && Parsed(kind, id) == Some(a)
    requires a in w.lib.docs && w.lib.docs[a].policyType.GetOr("Custom") == "Custom" && k.fetch && !env.fails(w.lib.calls)
    requires ResolveFor(kind, w.stored.value.spec, k.definition).Resolved?
    ensures var plan := PlanOf(env, kind, w, k);
            plan.Writing? && plan.lib == Tick(w.lib) && plan.ids == ResolveFor(kind, w.stored.value.spec, k.definition).ids
  {
  }

  /**
   An input of the conflict. A resource adopts its document under its own address with every call going through; it
   writes it once, and is then in conflict with its own import ID exactly when it is a definition and the ID is
   written in another casing than Azure's. Initiatives never are.
   */
  lemma {:induction false} AdoptedConflict(env: Env, kind: DocumentKind, w: World, k: Kube, c: Casing, a: Address)
    requires AboutToAdopt(env, kind, w, c, a) && k.fetch && k.status
    requires !env.fails(w.lib.calls) && !env.fails(w.lib.calls + 1)
    requires ResolveFor(kind, w.stored.value.spec, k.definition).Resolved?
    ensures var w1, ids := Step(env, kind, w, k), ResolveFor(kind, w.stored.value.spec, k.definition).ids;
            && w1.lib.log == w.lib.log + [Put(a, BodyOf(kind, w.stored.value.spec, ids))]
            && (Conflicted(kind, w.stored.value.annotations.importId, w1)
                <==> kind.Definition?
                     && Segments(c, env.subscription, a) != Segments(Canonical(kind.Word()), env.subscription, a))
  {
    var id := DocumentId(c, env.subscription, a);
    ParsePrinted(kind, c, env.subscription, a);
    DocumentIdNamesKind(kind, c, env.subscription, a);
    AdoptedWrite(env, kind, w, k, id, a);
    OwnCasing(env, kind, c, a);
  }

  lemma {:induction false} AdoptedWrite(env: Env, kind: DocumentKind, w: World, k: Kube, id: string, a: Address)
    requires w.stored.Some? && w.stored.value.finalizer && !w.stored.value.deleting && w.stored.value.status.id == ""
    requires Managing(w.stored.value.annotations) && Reason(w.stored.value.status, READY) != APPLIED_ONCE
    requires w.stored.value.annotations.importId == id && id != "" && NamesKind(kind.Folded(), id) && Parsed(kind, id) == Some(a)
    requires a in w.lib.docs && w.lib.docs[a].policyType.GetOr("Custom") == "Custom" && k.fetch && k.status
    requires WriteAddress(w.stored.value) == a && !env.fails(w.lib.calls) && !env.fails(w.lib.calls + 1)
    requires ResolveFor(kind, w.stored.value.spec, k.definition).Resolved?
    ensures var w1, ids := Step(env, kind, w, k), ResolveFor(kind, w.stored.value.spec, k.definition).ids;
            && w1.lib.log == w.lib.log + [Put(a, BodyOf(kind, w.stored.value.spec, ids))]
            && (Conflicted(kind, id, w1) <==> !SameId(kind, id, IdOf(env, kind, a)))
  {
    AdoptingPlan(env, kind, w, k, id, a);
    PlanReads(env, kind, w, k);
    ConflictAfterWrite(env, kind, w, k);
  }

  /** An ID in some casing against Azure's own. */
  lemma {:induction false} OwnCasing(env: Env, kind: DocumentKind, c: Casing, a: Address)
    requires Parseable(kind, c, env.subscription, a)
    ensures !SameId(kind, DocumentId(c, env.subscription, a), IdOf(env, kind, a))
       <==> kind.Definition? && Segments(c, env.subscription, a) != Segments(Canonical(kind.Word()), env.subscription, a)
  {
    CanonicalCasing(kind);
    DocumentIdSegments(c, Canonical(kind.Word()), env.subscription, a);
    DocumentIdFolds(c, Canonical(kind.Word()), kind.Word(), env.subscription, a);
  }

  /**
   And what follows from it: from then on nothing is written in any run before deletion under that import ID, in
   whatever mode and with whatever spec.
   */
  lemma {:induction false} AdoptedThenFrozen(env: Env, w: World, k: Kube, c: Casing, a: Address, events: seq<Event>)
    requires AboutToAdopt(env, Definition, w, c, a) && k.fetch && k.status
    requires Segments(c, env.subscription, a) != Segments(Canonical(Definition.Word()), env.subscription, a)
    requires !env.fails(w.lib.calls) && !env.fails(w.lib.calls + 1)
    requires forall e :: e in events ==>
               !e.MarkDeleted? && (e.Edit? ==> e.annotations.importId == w.stored.value.annotations.importId)
    ensures Run(env, Definition, w, [Reconcile(k)] + events).lib.log
         == w.lib.log + [Put(a, BodyOf(Definition, w.stored.value.spec, []))]
  {
    AdoptedConflict(env, Definition, w, k, c, a);
    var w1 := Step(env, Definition, w, k);
    ConflictFreezes(env, Definition, w.stored.value.annotations.importId, w1, events);
    assert ([Reconcile(k)] + events)[1..] == events;
  }

  // ---- progress --------------------------------------------------------------------------------------------------------

  /** Nothing stands in the way: without an import a bound ID or a free address, with one a custom document it may bind to. */
  predicate Unobstructed(kind: DocumentKind, lib: Library, cr: DocumentCR) {
    var id := cr.annotations.importId;
    if id == "" then cr.status.id != "" || WriteAddress(cr) !in lib.docs
    else
      && (cr.status.id == "" || SameId(kind, id, cr.status.id))
      && !(cr.annotations.importMode == ADOPT_ONCE && Reason(cr.status, READY) == APPLIED_ONCE)
      && NamesKind(kind.Folded(), id) && Parsed(kind, id).Some? && Parsed(kind, id).value in lib.docs
      && lib.docs[Parsed(kind, id).value].policyType.GetOr("Custom") == "Custom"
  }

  /**
   Progress: a resource with its finalizer, resolvable references and nothing in its way is ready after the next
   reconcile in which both calls go through: observed if it is only to observe, else applied.
   */
  lemma {:induction false} NextReady(env: Env, kind: DocumentKind, w: World, k: Kube)
    requires w.stored.Some? && w.stored.value.finalizer && !w.stored.value.deleting && k.fetch && k.status
    requires ResolveFor(kind, w.stored.value.spec, k.definition).Resolved? && Unobstructed(kind, w.lib, w.stored.value)
    requires !env.fails(w.lib.calls) && !env.fails(w.lib.calls + 1)
    ensures Step(env, kind, w, k).stored.Some?
    ensures var a, s := w.stored.value.annotations, Step(env, kind, w, k).stored.value.status;
            && READY in s.conditions && s.conditions[READY].status
            && s.conditions[READY].reason == if a.importId != "" && ModeOf(a) == OBSERVE_ONLY then "ObservedOnly"
                                             else if a.importMode == ADOPT_ONCE then APPLIED_ONCE else "Reconciled"
  {
    var cr := w.stored.value;
    var ids := ResolveFor(kind, cr.spec, k.definition).ids;
    if cr.annotations.importId == "" {
      assert ManagePlan(env, kind, w.lib, cr, ids) == ReconcilePlan(env, kind, w.lib, cr, ids);
      FreeWrites(env, kind, w, cr, ids, k);
    } else {
      var r := Import(env, kind, w.lib, cr.annotations.importId, cr.spec, ids);
      ImportGoesThrough(env, kind, w.lib, cr.annotations.importId, cr.spec, ids);
      if ModeOf(cr.annotations) != OBSERVE_ONLY {
        FreeWrites(env, kind, w.(lib := r.lib), cr.(status := Adopt(cr.status, cr.annotations.importId, r.value.value)), ids, k);
      }
    }
  }

  lemma {:induction false} ImportGoesThrough(env: Env, kind: DocumentKind, lib: Library, id: string, spec: DocumentSpec,
                                             ids: seq<string>)
    requires NamesKind(kind.Folded(), id) && Parsed(kind, id).Some? && Parsed(kind, id).value in lib.docs
    requires lib.docs[Parsed(kind, id).value].policyType.GetOr("Custom") == "Custom" && !env.fails(lib.calls)
    ensures var r := Import(env, kind, lib, id, spec, ids); r.value.Some? && r.lib == Tick(lib)
  {
  }

  lemma {:induction false} FreeWrites(env: Env, kind: DocumentKind, w: World, cr: DocumentCR, ids: seq<string>, k: Kube)
    requires w.stored.Some? && k.status && (cr.status.id != "" || WriteAddress(cr) !in w.lib.docs)
    requires !env.fails(w.lib.calls) && (cr.status.id == "" ==> !env.fails(w.lib.calls + 1))
    ensures var w1 := Outcome(env, kind, w, k, ReconcilePlan(env, kind, w.lib, cr, ids));
            && w1.stored.Some?
            && var s := w1.stored.value.status;
            && READY in s.conditions
            && s.conditions[READY] == Condition(true, if cr.annotations.importMode == ADOPT_ONCE then APPLIED_ONCE else "Reconciled")
  {
  }

  // ---- a change of name ----------------------------------------------------------------------------------------------

  /**
   What an edit to a managing mode with an import name, but no import ID, does to a bound resource. The next write goes
   to that name without an existence check: a document that is there is replaced, the resource is bound to it, and the
   document it was bound to is left behind, unless the name is the same.
   */
  lemma {:induction false} RenamedWriteReplaces(env: Env, kind: DocumentKind, own: Address, w: World, name: string,
                                                mode: string, k: Kube)
    requires Slashfree(env, own) && Owned(env, kind, own, w) && w.stored.Some? && w.stored.value.status.id != ""
    requires !w.stored.value.deleting && own in w.lib.docs && (mode == RECONCILE || mode == ADOPT_ONCE)
    requires k.fetch && k.status && !env.fails(w.lib.calls) && ResolveFor(kind, w.stored.value.spec, k.definition).Resolved?
    ensures var spec, at := w.stored.value.spec, Address(own.group, name);
            var w2 := Run(env, kind, w, [Edit(Annotations("", mode, name), spec), Reconcile(k)]);
            && w2.lib.docs == w.lib.docs[at := BodyOf(kind, spec, ResolveFor(kind, spec, k.definition).ids)]
            && w2.stored.Some? && w2.stored.value.status.id == IdOf(env, kind, at)
            && (at == own <==> name == own.name)
            && (name != own.name ==> own in w2.lib.docs && w2.lib.docs[own] == w.lib.docs[own])
  {
    var spec := w.stored.value.spec;
    var a := Annotations("", mode, name);
    var w1 := Happen(env, kind, w, Edit(a, spec));
    var ids := ResolveFor(kind, spec, k.definition).ids;
    assert PlanOf(env, kind, w1, k) == Writing(w1.lib, w1.stored.value, ids);
    assert WriteAddress(w1.stored.value) == Address(own.group, name);
    assert [Edit(a, spec), Reconcile(k)][1..] == [Reconcile(k)] && [Reconcile(k)][1..] == [];
    assert Run(env, kind, w1, [Reconcile(k)]) == Step(env, kind, w1, k);
  }
}
