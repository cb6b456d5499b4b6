/** The policy exemption service: create or update under a stable name, and delete. */
module ExemptionService {
  import opened Wrappers
  import opened Text
  import opened ResourceId
  import opened Payload
  import opened Cloud

  datatype ExemptionSpec = ExemptionSpec(
    displayName: string, description: string, policyAssignmentId: string, policyAssignmentRef: string, scope: string,
    category: string, expiresOn: string, selectors: seq<ResourceSelectorSpec>)

  function BodyOf(env: Env, spec: ExemptionSpec): Exemption {
    Exemption(spec.displayName, spec.policyAssignmentId, spec.category, NonEmpty(spec.description),
              if spec.expiresOn == "" then None else env.time(spec.expiresOn), Translated(spec.selectors))
  }

  /** The name written to: recovered from the stored ID, or the next minted one. */
  function NameFor(env: Env, az: Azure, id: string): string {
    if id != "" then LastSegment(id) else env.mint(az.minted)
  }

  function AfterNaming(az: Azure, id: string): Azure {
    if id != "" then az else az.(minted := az.minted + 1)
  }

  /** CreateOrUpdate: the ID Azure returns, or None when the call fails. */
  function Upserted(env: Env, az: Azure, id: string, spec: ExemptionSpec): Reply<Option<string>> {
    var key := Key(spec.scope, NameFor(env, az, id));
    var r := UpsertExemption(env, AfterNaming(az, id), key, BodyOf(env, spec));
    Reply(r.az, if r.value then Some(ExemptionId(key)) else None)
  }

  /** Delete: by the given scope and the last segment of the ID. */
  function Removed(env: Env, az: Azure, scope: string, id: string): Reply<bool> {
    RemoveExemption(env, az, Key(scope, LastSegment(id)))
  }

  class Service {
    const client: Client

    constructor (client: Client)
      ensures this.client == client
    {
      this.client := client;
    }

    method CreateOrUpdate(statusId: string, spec: ExemptionSpec) returns (id: Option<string>)
      modifies client
      ensures Reply(client.az, id) == Upserted(client.env, old(client.az), statusId, spec)
    {
      var name := "";
      if statusId != "" {
        name := LastSegment(statusId);
      } else {
        name := client.NewName();
      }
      var body := Exemption(spec.displayName, spec.policyAssignmentId, spec.category, None, None, None);
      if spec.description != "" {
        body := body.(description := Some(spec.description));
      }
      if spec.expiresOn != "" {
        body := body.(expiresOn := client.env.time(spec.expiresOn));
      }
      if |spec.selectors| > 0 {
        var selectors := TranslateResourceSelectors(spec.selectors);
        body := body.(selectors := selectors);
      }
      var ok := client.CreateOrUpdateExemption(Key(spec.scope, name), body);
      id := if ok then Some(ExemptionId(Key(spec.scope, name))) else None;
    }

    method Delete(scope: string, exemptionId: string) returns (ok: bool)
      modifies client
      ensures Reply(client.az, ok) == Removed(client.env, old(client.az), scope, exemptionId)
    {
      ok := client.DeleteExemption(Key(scope, LastSegment(exemptionId)));
    }
  }

  /**
   What a write carries of its spec, field by field: selectors survive exactly when every operator is a
   known one; the expiry is what the given text parses to, and an empty or unparseable text sends none.
   */
  lemma {:induction false} BodyCarries(env: Env, spec: ExemptionSpec)
    ensures var body := BodyOf(env, spec);
            && body.displayName == spec.displayName && body.assignmentId == spec.policyAssignmentId
            && body.category == spec.category && body.description.GetOr("") == spec.description
            && (body.description.Some? <==> spec.description != "") && (body.selectors.Some? <==> spec.selectors != [])
            && (spec.expiresOn == "" ==> body.expiresOn == None) && (spec.expiresOn != "" ==> body.expiresOn == env.time(spec.expiresOn))
            && (Recovered(body.selectors) == spec.selectors <==> KnownOperators(spec.selectors))
  {
    TranslationLossless(spec.selectors);
  }

  /** `r` is the outcome of one create-or-update under stored ID `id`: all of Azure's new state. */
  predicate Wrote(env: Env, az: Azure, id: string, spec: ExemptionSpec, r: Reply<Option<string>>) {
    var key := Key(spec.scope, NameFor(env, az, id));
    && r.az.minted == (if id != "" then az.minted else az.minted + 1)
    && r.az.assignments == az.assignments && r.az.grants == az.grants
    && (match r.value
        case None => r.az.exemptions == az.exemptions && r.az.log == az.log
        case Some(newId) =>
          && newId == ExemptionId(key) && LastSegment(newId) == key.name
          && r.az.exemptions == az.exemptions[key := BodyOf(env, spec)] && r.az.log == az.log + [PutExemption(key)])
  }

  lemma {:induction false} UpsertedWrote(env: Env, az: Azure, id: string, spec: ExemptionSpec)
    requires ValidEnv(env)
    ensures Wrote(env, az, id, spec, Upserted(env, az, id, spec))
  {
    PrintLastSegment(EXEMPTIONS, Key(spec.scope, NameFor(env, az, id)));
  }

  /** Writing again under the ID a write returned goes to the same place and takes no new name. */
  lemma {:induction false} RewriteIsStable(env: Env, az: Azure, id: string, spec: ExemptionSpec, later: Azure)
    requires ValidEnv(env)
    requires Upserted(env, az, id, spec).value.Some?
    ensures var back := Upserted(env, az, id, spec).value.value;
            && back != ""
            && NameFor(env, later, back) == NameFor(env, az, id)
            && AfterNaming(later, back) == later
  {
    PrintLastSegment(EXEMPTIONS, Key(spec.scope, NameFor(env, az, id)));
  }
}
