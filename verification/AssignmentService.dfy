/** The policy assignment resource and the service behind its controller. */
module AssignmentService {
  import opened Wrappers
  import opened Text
  import opened ResourceId
  import opened Resource
  import opened Payload
  import opened Cloud
  import opened InlineExemptions
  import opened RoleGrants
  import opened Drift
  import ExemptionService

  datatype AssignmentSpec = AssignmentSpec(
    displayName: string, description: string, definitionRef: string, definitionId: string, scope: string,
    notScopes: seq<string>, enforcementMode: string, identity: Option<IdentitySpec>, messages: Option<MessagesSpec>,
    selectors: seq<ResourceSelectorSpec>, exemptions: seq<InlineSpec>)

  datatype AssignmentStatus = AssignmentStatus(
    assignmentId: string, location: string, principal: string, exemptions: seq<Tracked>,
    conditions: map<string, Condition>)

  datatype AssignmentCR = AssignmentCR(
    name: string, annotations: Annotations, finalizer: bool, deleting: bool,
    spec: AssignmentSpec, status: AssignmentStatus)

  /** The name looked up when nothing is bound yet. */
  function LookupName(cr: AssignmentCR): string {
    if Managing(cr.annotations) then cr.annotations.importName else cr.name
  }

  /** The name written to: the bound one, or the one looked up. */
  function WriteName(cr: AssignmentCR): string {
    if cr.status.assignmentId != "" then LastSegment(cr.status.assignmentId) else LookupName(cr)
  }

  function WriteKey(cr: AssignmentCR): Key {
    Key(cr.spec.scope, WriteName(cr))
  }

  predicate HasIdentity(spec: AssignmentSpec) {
    spec.identity.Some? && spec.identity.value.kind != "None"
  }

  function IdentityOf(spec: AssignmentSpec): Option<IdentityBody> {
    if !HasIdentity(spec) then None
    else
      var i := spec.identity.value;
      Some(IdentityBody(i.kind, if i.kind == "UserAssigned" then NonEmpty(i.userAssignedId) else None))
  }

  /** The body of the write; without an identity it repeats the location Azure last reported. */
  function BodyOf(cr: AssignmentCR, definitionId: string): Assignment {
    var spec := cr.spec;
    Assignment(spec.displayName, definitionId, NonEmpty(spec.description),
               if spec.notScopes == [] then None else Some(spec.notScopes),
               NonEmpty(spec.enforcementMode), MessagesOf(spec.messages), Translated(spec.selectors), IdentityOf(spec),
               NonEmpty(if HasIdentity(spec) then spec.identity.value.location else cr.status.location))
  }

  /** Everything CreateOrUpdate returns, and Azure after it. */
  datatype Applied = Applied(az: Azure, id: string, location: string, principal: string,
                             exemptions: Option<seq<Tracked>>, ok: bool)

  function Apply(env: Env, az: Azure, cr: AssignmentCR, definitionId: string): Applied {
    var w := UpsertAssignment(env, az, WriteKey(cr), BodyOf(cr, definitionId));
    match w.value
    case None => Applied(w.az, "", "", "", None, false)
    case Some(x) => Attach(env, w.az, cr, x)
  }

  /** The two phases after the write: inline exemptions, then role assignments. */
  function Attach(env: Env, az: Azure, cr: AssignmentCR, x: Written): Applied {
    var p := Pass(env, az, x.id, cr.spec.exemptions, cr.status.exemptions);
    if p.value.None? then Applied(p.az, x.id, x.location, x.principal, None, false)
    else
      var g := Granted(env, p.az, x.id, x.principal, cr.spec.identity);
      Applied(g.az, x.id, x.location, x.principal, p.value, g.value)
  }

  function DriftFields(live: Assignment, spec: AssignmentSpec, definitionId: string): seq<string> {
    (if live.displayName != spec.displayName then ["displayName"] else [])
    + (if live.description.Some? && live.description.value != spec.description then ["description"] else [])
    + (if definitionId != "" && !EqualFold(live.definitionId, definitionId) then ["policyDefinitionId"] else [])
    + (if live.enforcementMode.Some? && live.enforcementMode.value != spec.enforcementMode then ["enforcementMode"] else [])
    + (if Elements(live.notScopes.GetOr([])) != Elements(spec.notScopes) then ["notScopes"] else [])
  }

  datatype Imported = Imported(location: string, principal: string, drift: seq<string>)

  function Import(env: Env, az: Azure, id: string, spec: AssignmentSpec, definitionId: string): Reply<Option<Imported>> {
    if !NamesKind(FOLDED_ASSIGNMENTS, id) then Reply(az, None)
    else
      var r := ReadAssignmentById(env, az, id);
      match r.value
      case None => Reply(r.az, None)
      case Some(live) => Reply(r.az, Some(Imported(live.location, live.principal, DriftFields(live.body, spec, definitionId))))
  }

  /** Delete: the tracked exemptions, then the derived role assignments, then the assignment itself. */
  function Deleted(env: Env, az: Azure, scope: string, id: string, exemptions: seq<Tracked>, identity: Option<IdentitySpec>)
    : Reply<bool>
  {
    var d := DropAll(env, az, {}, exemptions);
    if !d.value then d
    else
      var r := RevokeAll(env, d.az, id, Permissions(identity));
      if !r.value then r else RemoveAssignment(env, r.az, Key(scope, LastSegment(id)))
  }

  class Service {
    const client: Client
    const exemptions: ExemptionService.Service
    const inline: Reconciler
    const granter: Granter

    predicate Wired() {
      exemptions.client == client && inline.client == client && inline.exemptions.client == client && granter.client == client
    }

    constructor (client: Client, exemptions: ExemptionService.Service)
      requires exemptions.client == client
      ensures Wired() && this.client == client
    {
      this.client := client;
      this.exemptions := exemptions;
      this.inline := new Reconciler(client, exemptions);
      this.granter := new Granter(client);
    }

    method BuildBody(cr: AssignmentCR, definitionId: string) returns (body: Assignment)
      ensures body == BodyOf(cr, definitionId)
    {
      var spec := cr.spec;
      body := Assignment(spec.displayName, definitionId, None, None, None, None, None, None, None);
      if spec.description != "" {
        body := body.(description := Some(spec.description));
      }
      if |spec.notScopes| > 0 {
        var notScopes := new string[|spec.notScopes|];
        for i := 0 to |spec.notScopes|
          invariant forall k :: 0 <= k < i ==> notScopes[k] == spec.notScopes[k]
        {
          notScopes[i] := spec.notScopes[i];
        }
        assert notScopes[..] == spec.notScopes;
        body := body.(notScopes := Some(notScopes[..]));
      }
      if spec.enforcementMode != "" {
        body := body.(enforcementMode := Some(spec.enforcementMode));
      }
      var messages := BuildMessages(spec.messages);
      var selectors := TranslateResourceSelectors(spec.selectors);
      body := body.(messages := messages, selectors := selectors);
      if spec.identity.Some? && spec.identity.value.kind != "None" {
        var identity := spec.identity.value;
        body := body.(identity := Some(IdentityBody(identity.kind, None)));
        if identity.location != "" {
          body := body.(location := Some(identity.location));
        }
        if identity.kind == "UserAssigned" && identity.userAssignedId != "" {
          body := body.(identity := Some(IdentityBody(identity.kind, Some(identity.userAssignedId))));
        }
      } else if cr.status.location != "" {
        body := body.(location := Some(cr.status.location));
      }
    }

    method CreateOrUpdate(cr: AssignmentCR, definitionId: string)
      returns (id: string, location: string, principal: string, tracked: Option<seq<Tracked>>, ok: bool)
      requires Wired()
      modifies client
      ensures Applied(client.az, id, location, principal, tracked, ok) == Apply(client.env, old(client.az), cr, definitionId)
    {
      var name := "";
      if cr.status.assignmentId != "" {
        name := LastSegment(cr.status.assignmentId);
      } else if cr.annotations.importMode == RECONCILE || cr.annotations.importMode == ADOPT_ONCE {
        name := cr.annotations.importName;
      } else {
        name := cr.name;
      }
      var body := BuildBody(cr, definitionId);
      var written := client.CreateAssignment(Key(cr.spec.scope, name), body);
      if written.None? {
        return "", "", "", None, false;
      }
      id, location, principal := written.value.id, written.value.location, written.value.principal;
      tracked := inline.ReconcileExemptions(id, cr.spec.exemptions, cr.status.exemptions);
      if tracked.None? {
        ok := false;
        return;
      }
      ok := granter.ReconcileRoleAssignments(id, principal, cr.spec.identity);
    }

    method ImportExisting(importId: string, cr: AssignmentCR, definitionId: string) returns (r: Option<Imported>)
      modifies client
      ensures Reply(client.az, r) == Import(client.env, old(client.az), importId, cr.spec, definitionId)
    {
      if !Contains(Fold(importId), "/" + FOLDED_ASSIGNMENTS + "/") {
        return None;
      }
      var got := client.GetAssignmentById(importId);
      if got.None? {
        return None;
      }
      var drift := CompareWithSpec(got.value.body, cr.spec, definitionId);
      r := Some(Imported(got.value.location, got.value.principal, drift));
    }

    /** The drift part of Import. */
    method CompareWithSpec(live: Assignment, spec: AssignmentSpec, definitionId: string) returns (drift: seq<string>)
      ensures drift == DriftFields(live, spec, definitionId)
    {
      drift := [];
      if live.displayName != spec.displayName {
        drift := drift + ["displayName"];
      }
      if live.description.Some? && live.description.value != spec.description {
        drift := drift + ["description"];
      }
      if definitionId != "" && !EqualFold(live.definitionId, definitionId) {
        drift := drift + ["policyDefinitionId"];
      }
      if live.enforcementMode.Some? && live.enforcementMode.value != spec.enforcementMode {
        drift := drift + ["enforcementMode"];
      }
      var differ := NotScopesDrift(NonNil(live.notScopes.GetOr([])), spec.notScopes);
      if differ {
        drift := drift + ["notScopes"];
      }
    }

    method Get(cr: AssignmentCR) returns (id: Option<string>)
      modifies client
      ensures Reply(client.az, id) == FindAssignment(client.env, old(client.az), Key(cr.spec.scope, LookupName(cr)))
    {
      var name := cr.name;
      if cr.annotations.importMode == RECONCILE || cr.annotations.importMode == ADOPT_ONCE {
        name := cr.annotations.importName;
      }
      id := client.GetAssignment(Key(cr.spec.scope, name));
    }

    method Delete(scope: string, assignmentId: string, tracked: seq<Tracked>, identity: Option<IdentitySpec>)
      returns (ok: bool)
      requires Wired()
      modifies client
      ensures Reply(client.az, ok) == Deleted(client.env, old(client.az), scope, assignmentId, tracked, identity)
    {
      assert tracked[0..] == tracked;
      for i := 0 to |tracked|
        invariant DropAll(client.env, old(client.az), {}, tracked) == DropAll(client.env, client.az, {}, tracked[i..])
      {
        assert tracked[i..][1..] == tracked[i + 1..];
        ok := exemptions.Delete(tracked[i].scope, tracked[i].exemptionId);
        if !ok {
          return;
        }
      }
      ok := granter.DeleteRoleAssignments(assignmentId, identity);
      if !ok {
        return;
      }
      ok := client.DeleteAssignment(Key(scope, LastSegment(assignmentId)));
    }
  }
}
