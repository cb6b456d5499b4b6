/**
 Policy definitions and initiatives: Azure's library of them, the resources that describe them, and the
 service behind their two controllers. The two services are the same code for two kinds of document.
 */
module Documents {
  import opened Wrappers
  import opened Text
  import opened ResourceId
  import opened Resource
  import opened Drift

  /** Properties of a document in Azure; definitions have a mode, initiatives references. */
  datatype Document = Document(displayName: Option<string>, description: Option<string>, mode: Option<string>,
                               policyType: Option<string>, references: seq<LiveRef>)

  /** A write that went through. */
  datatype Write = Put(address: Address, body: Document) | Drop(address: Address)

  /** Azure's documents of one kind. `calls` numbers every call attempted. */
  datatype Library = Library(docs: map<Address, Document>, calls: nat, log: seq<Write>)

  /** Which calls fail, and the subscription the client works in. A failed call has no effect. */
  datatype Env = Env(fails: nat -> bool, subscription: string)

  datatype Reply<+T> = Reply(lib: Library, value: T)

  function Tick(lib: Library): Library {
    lib.(calls := lib.calls + 1)
  }

  function IdOf(env: Env, kind: DocumentKind, a: Address): (id: string)
    ensures id != ""
  {
    DocumentId(Canonical(kind.Word()), env.subscription, a)
  }

  function PutDocument(env: Env, kind: DocumentKind, lib: Library, a: Address, body: Document): Reply<Option<string>> {
    if env.fails(lib.calls) then Reply(Tick(lib), None)
    else Reply(Tick(lib).(docs := lib.docs[a := body], log := lib.log + [Put(a, body)]), Some(IdOf(env, kind, a)))
  }

  function DropDocument(env: Env, lib: Library, a: Address): Reply<bool> {
    if env.fails(lib.calls) then Reply(Tick(lib), false)
    else Reply(Tick(lib).(docs := lib.docs - {a}, log := lib.log + [Drop(a)]), true)
  }

  /** Existence check: an error, or the ID found ("" when there is none). */
  function FindDocument(env: Env, kind: DocumentKind, lib: Library, a: Address): Reply<Option<string>> {
    Reply(Tick(lib), if env.fails(lib.calls) then None else Some(if a in lib.docs then IdOf(env, kind, a) else ""))
  }

  /** Azure reports the type Custom when the stored body names none. */
  function Reported(d: Document): Document {
    d.(policyType := Some(d.policyType.GetOr("Custom")))
  }

  function ReadDocument(env: Env, lib: Library, a: Address): Reply<Option<Document>> {
    Reply(Tick(lib), if env.fails(lib.calls) || a !in lib.docs then None else Some(Reported(lib.docs[a])))
  }

  // ---- the resources -----------------------------------------------------------------------------------

  /** One policy of an initiative: the name of a definition resource, or a definition's Azure ID. */
  datatype PolicyRef = PolicyRef(ref: string, id: string)

  /** `mode` and `policyType` are read for definitions only, `policies` for initiatives only. */
  datatype DocumentSpec = DocumentSpec(displayName: string, description: string, mode: string, policyType: string,
                                       version: string, group: string, policies: seq<PolicyRef>)

  datatype DocumentStatus = DocumentStatus(id: string, appliedVersion: string, conditions: map<string, Condition>)

  datatype DocumentCR = DocumentCR(name: string, annotations: Annotations, finalizer: bool, deleting: bool,
                                   spec: DocumentSpec, status: DocumentStatus)

  /** Where the existence check looks and where writes go. */
  function WriteAddress(cr: DocumentCR): Address {
    Address(cr.spec.group, if Managing(cr.annotations) then cr.annotations.importName else cr.name)
  }

  /** Where deletion goes: the last segment of the bound ID, under the spec's management group. */
  function DeleteAddress(cr: DocumentCR): Address {
    Address(cr.spec.group, if cr.status.id != "" then LastSegment(cr.status.id) else cr.name)
  }

  function BodyOf(kind: DocumentKind, spec: DocumentSpec, ids: seq<string>): Document {
    if kind.Definition? then
      Document(Some(spec.displayName), NonEmpty(spec.description), Some(spec.mode), NonEmpty(spec.policyType), [])
    else
      Document(Some(spec.displayName), NonEmpty(spec.description), None, None, LiveRefs(ids))
  }

  predicate Differs(live: Option<string>, spec: string) {
    live.Some? && live.value != spec
  }

  function DriftFields(kind: DocumentKind, live: Document, spec: DocumentSpec, ids: seq<string>): seq<string> {
    (if Differs(live.displayName, spec.displayName) then ["displayName"] else [])
    + (if Differs(live.description, spec.description) then ["description"] else [])
    + (if kind.Definition? && Differs(live.mode, spec.mode) then ["mode"] else [])
    + (if kind.Initiative? && live.references != LiveRefs(ids) then ["policyDefinitions"] else [])
  }

  /** Import: the ID must name this kind and parse; only custom documents are taken. */
  function Import(env: Env, kind: DocumentKind, lib: Library, id: string, spec: DocumentSpec, ids: seq<string>)
    : Reply<Option<seq<string>>>
  {
    if !NamesKind(kind.Folded(), id) || Parsed(kind, id).None? then Reply(lib, None)
    else
      var r := ReadDocument(env, lib, Parsed(kind, id).value);
      Reply(r.lib, if r.value.Some? && r.value.value.policyType == Some("Custom")
                   then Some(DriftFields(kind, r.value.value, spec, ids)) else None)
  }

  /** The client handle of one kind: each call changes Azure as the function of the same meaning says. */
  class Client {
    const env: Env
    const kind: DocumentKind
    var lib: Library

    constructor (env: Env, kind: DocumentKind, lib: Library)
      ensures this.env == env && this.kind == kind && this.lib == lib
    {
      this.env, this.kind, this.lib := env, kind, lib;
    }

    method CreateOrUpdate(a: Address, body: Document) returns (id: Option<string>)
      modifies this
      ensures Reply(lib, id) == PutDocument(env, kind, old(lib), a, body)
    {
      var r := PutDocument(env, kind, lib, a, body);
      lib, id := r.lib, r.value;
    }

    method Delete(a: Address) returns (ok: bool)
      modifies this
      ensures Reply(lib, ok) == DropDocument(env, old(lib), a)
    {
      var r := DropDocument(env, lib, a);
      lib, ok := r.lib, r.value;
    }

    method Find(a: Address) returns (id: Option<string>)
      modifies this
      ensures Reply(lib, id) == FindDocument(env, kind, old(lib), a)
    {
      var r := FindDocument(env, kind, lib, a);
      lib, id := r.lib, r.value;
    }

    method Read(a: Address) returns (doc: Option<Document>)
      modifies this
      ensures Reply(lib, doc) == ReadDocument(env, old(lib), a)
    {
      var r := ReadDocument(env, lib, a);
      lib, doc := r.lib, r.value;
    }
  }

  class Service {
    const client: Client

    constructor (client: Client)
      ensures this.client == client
    {
      this.client := client;
    }

    /** buildPolicyDefinitionRefs: one reference per policy, in order, carrying the resolved ID. */
    method BuildPolicyDefinitionRefs(policies: seq<PolicyRef>, ids: seq<string>) returns (refs: seq<LiveRef>)
      requires |policies| <= |ids|
      ensures refs == LiveRefs(ids[..|policies|])
    {
      var result := new LiveRef[|policies|];
      for i := 0 to |policies|
        invariant forall j :: 0 <= j < i ==> result[j] == LiveRef(Some(ids[j]))
      {
        result[i] := LiveRef(Some(ids[i]));
      }
      refs := result[..];
    }

    method CreateOrUpdate(cr: DocumentCR, ids: seq<string>) returns (id: Option<string>)
      requires client.kind.Initiative? ==> |ids| == |cr.spec.policies|
      modifies client
      ensures Reply(client.lib, id)
           == PutDocument(client.env, client.kind, old(client.lib), WriteAddress(cr), BodyOf(client.kind, cr.spec, ids))
    {
      var spec := cr.spec;
      var params := Document(Some(spec.displayName), None, None, None, []);
      if client.kind.Definition? {
        params := params.(mode := Some(spec.mode));
        if spec.policyType != "" {
          params := params.(policyType := Some(spec.policyType));
        }
      } else {
        var refs := BuildPolicyDefinitionRefs(spec.policies, ids);
        assert ids[..|spec.policies|] == ids;
        params := params.(references := refs);
      }
      if spec.description != "" {
        params := params.(description := Some(spec.description));
      }
      var name := cr.name;
      if cr.annotations.importMode == RECONCILE || cr.annotations.importMode == ADOPT_ONCE {
        name := cr.annotations.importName;
      }
      id := client.CreateOrUpdate(Address(spec.group, name), params);
    }

    method ImportExisting(importId: string, cr: DocumentCR, ids: seq<string>) returns (drift: Option<seq<string>>)
      modifies client
      ensures Reply(client.lib, drift) == Import(client.env, client.kind, old(client.lib), importId, cr.spec, ids)
    {
      if !Contains(Fold(importId), "/" + client.kind.Folded() + "/") {
        return None;
      }
      var name, group, ok := ParseImportId(client.kind, importId);
      if !ok {
        return None;
      }
      var live := client.Read(Address(group, name));
      if live.None? || live.value.policyType.None? || live.value.policyType.value != "Custom" {
        return None;
      }
      var fields := CompareWithSpec(live.value, cr.spec, ids);
      drift := Some(fields);
    }

    /** The drift part of Import. */
    method CompareWithSpec(live: Document, spec: DocumentSpec, ids: seq<string>) returns (drift: seq<string>)
      ensures drift == DriftFields(client.kind, live, spec, ids)
    {
      drift := [];
      if live.displayName.Some? && live.displayName.value != spec.displayName {
        drift := drift + ["displayName"];
      }
      if live.description.Some? && live.description.value != spec.description {
        drift := drift + ["description"];
      }
      if client.kind.Definition? {
        if live.mode.Some? && live.mode.value != spec.mode {
          drift := drift + ["mode"];
        }
      } else {
        var differ := PolicyDefinitionDrift(live.references, ids);
        if differ {
          drift := drift + ["policyDefinitions"];
        }
      }
    }

    method Get(cr: DocumentCR) returns (id: Option<string>)
      modifies client
      ensures Reply(client.lib, id) == FindDocument(client.env, client.kind, old(client.lib), WriteAddress(cr))
    {
      var name := cr.name;
      if cr.annotations.importMode == RECONCILE || cr.annotations.importMode == ADOPT_ONCE {
        name := cr.annotations.importName;
      }
      id := client.Find(Address(cr.spec.group, name));
    }

    method Delete(cr: DocumentCR) returns (ok: bool)
      modifies client
      ensures Reply(client.lib, ok) == DropDocument(client.env, old(client.lib), DeleteAddress(cr))
    {
      var name := cr.name;
      if cr.status.id != "" {
        var parts := Split(cr.status.id);
        name := parts[|parts| - 1];
      }
      ok := client.Delete(Address(cr.spec.group, name));
    }
  }

  // ---- laws --------------------------------------------------------------------------------------------

  /** The client's subscription and the address hold no '/', nor anything the parsers take for a keyword. */
  predicate Printable(env: Env, kind: DocumentKind, a: Address) {
    && NoSlash(env.subscription) && NoSlash(a.group) && NoSlash(a.name)
    && KeywordFree(kind, if a.group == "" then env.subscription else a.group)
  }

  lemma {:induction false} CanonicalCasing(kind: DocumentKind)
    ensures CasingOf(Canonical(kind.Word()), kind.Word())
  {
    SlashlessGroupWords();
    SlashlessWords();
    SlashlessKind(kind);
  }

  lemma {:induction false} SlashlessGroupWords()
    ensures NoSlash(MANAGEMENT) && NoSlash(MANAGEMENT_GROUPS)
  {
  }

  lemma {:induction false} SlashlessWords()
    ensures NoSlash(SUBSCRIPTIONS) && NoSlash(PROVIDERS) && NoSlash(AUTHORIZATION)
  {
  }

  lemma {:induction false} SlashlessKind(kind: DocumentKind)
    ensures NoSlash(kind.Word())
  {
  }

  /**
   The three addresses. Of a resource bound to an ID in any keyword casing, import reads the document the
   ID names; deletion removes that same document exactly when the spec's management group is the ID's; and
   a write goes to it exactly when, besides, the name in use (in a managing mode the import name) is the ID's.
   */
  lemma {:induction false} AddressesAgree(kind: DocumentKind, c: Casing, subscription: string, a: Address, cr: DocumentCR)
    requires CasingOf(c, kind.Word())
    requires NoSlash(subscription) && NoSlash(a.group) && NoSlash(a.name)
    requires KeywordFree(kind, if a.group == "" then subscription else a.group)
    requires cr.status.id == DocumentId(c, subscription, a)
    ensures Parsed(kind, cr.status.id) == Some(a)
    ensures DeleteAddress(cr) == a <==> cr.spec.group == a.group
    ensures WriteAddress(cr) == a
       <==> cr.spec.group == a.group && (if Managing(cr.annotations) then cr.annotations.importName else cr.name) == a.name
  {
    ParsePrinted(kind, c, subscription, a);
  }

  /**
   What a write carries of its spec, field by field; an empty description or type is not sent. A definition has a mode
   and no references; an initiative has one reference per resolved ID, in order, and neither mode nor type.
   */
  lemma {:induction false} BodyCarries(kind: DocumentKind, spec: DocumentSpec, ids: seq<string>)
    ensures var body := BodyOf(kind, spec, ids);
            && body.displayName == Some(spec.displayName)
            && body.description.GetOr("") == spec.description && (body.description.Some? <==> spec.description != "")
            && (kind.Definition? ==>
                  && body.mode == Some(spec.mode) && body.references == []
                  && body.policyType.GetOr("") == spec.policyType && (body.policyType.Some? <==> spec.policyType != ""))
            && (kind.Initiative? ==>
                  && body.mode == None && body.policyType == None && |body.references| == |ids|
                  && forall i :: 0 <= i < |ids| ==> body.references[i] == LiveRef(Some(ids[i])))
  {
  }

  /** The live references are the desired IDs, in order and none nil. */
  predicate RefersTo(references: seq<LiveRef>, ids: seq<string>) {
    |references| == |ids| && forall i :: 0 <= i < |ids| ==> references[i].LiveRef? && references[i].id == Some(ids[i])
  }

  /**
   The drift of any live document against any spec, field by field and nothing else, no field twice: what Azure does
   not report is no drift, modes are compared for definitions only, references for initiatives only.
   */
  lemma {:induction false} DriftExactly(kind: DocumentKind, live: Document, spec: DocumentSpec, ids: seq<string>)
    ensures var drift := DriftFields(kind, live, spec, ids);
            && ("displayName" in drift <==> live.displayName.Some? && live.displayName.value != spec.displayName)
            && ("description" in drift <==> live.description.Some? && live.description.value != spec.description)
            && ("mode" in drift <==> kind.Definition? && live.mode.Some? && live.mode.value != spec.mode)
            && ("policyDefinitions" in drift <==> kind.Initiative? && !RefersTo(live.references, ids))
            && (forall f :: f in drift ==> f in {"displayName", "description", "mode", "policyDefinitions"})
            && NoRepeats(drift)
  {
    RefersExactly(live.references, ids);
    NotedFour(DriftFields(kind, live, spec, ids),
              live.displayName.Some? && live.displayName.value != spec.displayName, "displayName",
              live.description.Some? && live.description.value != spec.description, "description",
              kind.Definition? && live.mode.Some? && live.mode.value != spec.mode, "mode",
              kind.Initiative? && !RefersTo(live.references, ids), "policyDefinitions");
  }

  lemma {:induction false} RefersExactly(references: seq<LiveRef>, ids: seq<string>)
    ensures RefersTo(references, ids) <==> references == LiveRefs(ids)
  {
    if RefersTo(references, ids) {
      assert forall i :: 0 <= i < |ids| ==> references[i] == LiveRefs(ids)[i];
    }
  }

  lemma {:induction false} NotedFour(fields: seq<string>, b1: bool, f1: string, b2: bool, f2: string, b3: bool, f3: string,
                                     b4: bool, f4: string)
    requires f1 != f2 && f1 != f3 && f1 != f4 && f2 != f3 && f2 != f4 && f3 != f4
    requires fields == (if b1 then [f1] else []) + (if b2 then [f2] else []) + (if b3 then [f3] else []) + (if b4 then [f4] else [])
    ensures (f1 in fields <==> b1) && (f2 in fields <==> b2) && (f3 in fields <==> b3) && (f4 in fields <==> b4)
    ensures (forall f :: f in fields ==> f == f1 || f == f2 || f == f3 || f == f4) && NoRepeats(fields)
  {
    var one := Noted([], b1, f1);
    var two := Noted(one, b2, f2);
    var three := Noted(two, b3, f3);
    NotedExactly([], b1, f1);
    assert one == if b1 then [f1] else [];
    assert forall f :: f in one ==> f == f1;
    NotedExactly(one, b2, f2);
    assert forall f :: f in two ==> f == f1 || f == f2;
    NotedExactly(two, b3, f3);
    NotedExactly(three, b4, f4);
    assert fields == Noted(three, b4, f4);
  }

  /** Some field of the live document differs from the spec. */
  predicate Drifted(kind: DocumentKind, live: Document, spec: DocumentSpec, ids: seq<string>) {
    || (live.displayName.Some? && live.displayName.value != spec.displayName)
    || (live.description.Some? && live.description.value != spec.description)
    || (kind.Definition? && live.mode.Some? && live.mode.value != spec.mode)
    || (kind.Initiative? && !RefersTo(live.references, ids))
  }

  /**
   Import of any ID: it succeeds exactly when the ID names this kind and parses, the call goes through, and a document
   is there whose type is Custom or not stated; drift is reported exactly when that document differs.
   */
  lemma {:induction false} ImportExactly(env: Env, kind: DocumentKind, lib: Library, id: string, spec: DocumentSpec, ids: seq<string>)
    ensures var r, a := Import(env, kind, lib, id, spec, ids).value, Parsed(kind, id);
            && (r.Some? <==> && NamesKind(kind.Folded(), id) && a.Some? && a.value in lib.docs && !env.fails(lib.calls)
                             && lib.docs[a.value].policyType.GetOr("Custom") == "Custom")
            && (r.Some? ==> (r.value != [] <==> Drifted(kind, lib.docs[a.value], spec, ids)))
  {
    if Import(env, kind, lib, id, spec, ids).value.Some? {
      var live := lib.docs[Parsed(kind, id).value];
      RefersExactly(live.references, ids);
    }
  }

  /**
   Write, then observe: importing the ID that a write returned, under the same spec, succeeds exactly when
   the spec's type is Custom or left to Azure's default, and then reports no drift.
   */
  lemma {:induction false} WriteThenObserve(env: Env, kind: DocumentKind, lib: Library, cr: DocumentCR, ids: seq<string>)
    requires Printable(env, kind, WriteAddress(cr))
    requires !env.fails(lib.calls) && !env.fails(lib.calls + 1)
    ensures var w := PutDocument(env, kind, lib, WriteAddress(cr), BodyOf(kind, cr.spec, ids));
            && w.value.Some?
            && var seen := Import(env, kind, w.lib, w.value.value, cr.spec, ids).value;
            && (seen.Some? <==> (kind.Definition? ==> cr.spec.policyType == "" || cr.spec.policyType == "Custom"))
            && (seen.Some? ==> seen.value == [])
  {
    var a := WriteAddress(cr);
    var w := PutDocument(env, kind, lib, a, BodyOf(kind, cr.spec, ids));
    CanonicalCasing(kind);
    ParsePrinted(kind, Canonical(kind.Word()), env.subscription, a);
    DocumentIdNamesKind(kind, Canonical(kind.Word()), env.subscription, a);
    ReadBack(env, kind, w.lib, IdOf(env, kind, a), a, cr.spec, ids);
  }

  lemma {:induction false} ReadBack(env: Env, kind: DocumentKind, lib: Library, id: string, a: Address, spec: DocumentSpec, ids: seq<string>)
    requires NamesKind(kind.Folded(), id) && Parsed(kind, id) == Some(a)
    requires !env.fails(lib.calls) && a in lib.docs && lib.docs[a] == BodyOf(kind, spec, ids)
    ensures var seen := Import(env, kind, lib, id, spec, ids).value;
            && (seen.Some? <==> (kind.Definition? ==> spec.policyType == "" || spec.policyType == "Custom"))
            && (seen.Some? ==> seen.value == [])
  {
  }
}
