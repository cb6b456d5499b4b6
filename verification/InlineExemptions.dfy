/**
 The inline exemptions of an assignment: one pass writes every exemption of the spec (under the name
 it had before, or a new one) and then deletes the tracked ones that left the spec.
 */
module InlineExemptions {
  import opened Wrappers
  import opened Text
  import opened ResourceId
  import opened Cloud
  import opened ExemptionService

  datatype InlineSpec = InlineSpec(displayName: string, description: string, scope: string, category: string,
                                   expiresOn: string)

  /** A status entry: an exemption the assignment keeps track of. */
  datatype Tracked = Tracked(displayName: string, exemptionId: string, scope: string)

  /** The exemption resource an inline entry stands for. */
  function Synthetic(s: InlineSpec, assignmentId: string): ExemptionSpec {
    ExemptionSpec(s.displayName, s.description, assignmentId, "", s.scope, s.category, s.expiresOn, [])
  }

  /** The lookup built from the status list; a later entry replaces an earlier one of the same name. */
  function Existing(status: seq<Tracked>): map<string, Tracked> {
    if status == [] then map[]
    else
      var last := status[|status| - 1];
      Existing(status[..|status| - 1])[last.displayName := last]
  }

  function PreviousId(existing: map<string, Tracked>, displayName: string): string {
    if displayName in existing then existing[displayName].exemptionId else ""
  }

  function WriteAll(env: Env, az: Azure, assignmentId: string, existing: map<string, Tracked>, specs: seq<InlineSpec>)
    : Reply<Option<seq<Tracked>>>
    decreases |specs|
  {
    if specs == [] then Reply(az, Some([]))
    else
      var s := specs[0];
      var r := Upserted(env, az, PreviousId(existing, s.displayName), Synthetic(s, assignmentId));
      match r.value
      case None => Reply(r.az, None)
      case Some(id) => After([Tracked(s.displayName, id, s.scope)], WriteAll(env, r.az, assignmentId, existing, specs[1..]))
  }

  /** Entries already written, put before the result of the rest of the loop. */
  function After(done: seq<Tracked>, rest: Reply<Option<seq<Tracked>>>): Reply<Option<seq<Tracked>>> {
    Reply(rest.az, match rest.value case None => None case Some(more) => Some(done + more))
  }

  function DropAll(env: Env, az: Azure, desired: set<string>, previous: seq<Tracked>): Reply<bool>
    decreases |previous|
  {
    if previous == [] then Reply(az, true)
    else if previous[0].displayName in desired then DropAll(env, az, desired, previous[1..])
    else
      var r := Removed(env, az, previous[0].scope, previous[0].exemptionId);
      if r.value then DropAll(env, r.az, desired, previous[1..]) else r
  }

  function DisplayNames(specs: seq<InlineSpec>): set<string> {
    set s | s in specs :: s.displayName
  }

  /** One pass of reconcileExemptions: the new status list, or None when some call failed. */
  function Pass(env: Env, az: Azure, assignmentId: string, specs: seq<InlineSpec>, status: seq<Tracked>)
    : Reply<Option<seq<Tracked>>>
  {
    var w := WriteAll(env, az, assignmentId, Existing(status), specs);
    if w.value.None? then w
    else
      var d := DropAll(env, w.az, DisplayNames(specs), status);
      Reply(d.az, if d.value then w.value else None)
  }

  lemma {:induction false} AfterAfter(a: seq<Tracked>, b: seq<Tracked>, rest: Reply<Option<seq<Tracked>>>)
    ensures After(a, After(b, rest)) == After(a + b, rest)
  {
    if rest.value.Some? {
      assert a + (b + rest.value.value) == (a + b) + rest.value.value;
    }
  }

  class Reconciler {
    const client: Client
    const exemptions: Service

    constructor (client: Client, exemptions: Service)
      requires exemptions.client == client
      ensures this.client == client && this.exemptions == exemptions
    {
      this.client := client;
      this.exemptions := exemptions;
    }

    method ReconcileExemptions(assignmentId: string, specs: seq<InlineSpec>, status: seq<Tracked>)
      returns (results: Option<seq<Tracked>>)
      requires exemptions.client == client
      modifies client
      ensures Reply(client.az, results) == Pass(client.env, old(client.az), assignmentId, specs, status)
    {
      var existing: map<string, Tracked> := map[];
      for i := 0 to |status|
        invariant existing == Existing(status[..i])
      {
        assert status[..i + 1][..i] == status[..i];
        existing := existing[status[i].displayName := status[i]];
      }
      assert status[..|status|] == status;
      var desired;
      desired, results := WriteDesired(assignmentId, existing, specs);
      if results.None? {
        return;
      }
      var ok := DeleteRemoved(desired, status);
      if !ok {
        results := None;
      }
    }

    /** The first loop: writes what the spec asks for. */
    method WriteDesired(assignmentId: string, existing: map<string, Tracked>, specs: seq<InlineSpec>)
      returns (desired: set<string>, results: Option<seq<Tracked>>)
      requires exemptions.client == client
      modifies client
      ensures Reply(client.az, results) == WriteAll(client.env, old(client.az), assignmentId, existing, specs)
      ensures results.Some? ==> desired == DisplayNames(specs)
    {
      desired := {};
      var written: seq<Tracked> := [];
      ghost var goal := WriteAll(client.env, client.az, assignmentId, existing, specs);
      assert specs[0..] == specs;
      assert goal.value.Some? ==> [] + goal.value.value == goal.value.value;
      for i := 0 to |specs|
        invariant desired == DisplayNames(specs[..i])
        invariant goal == After(written, WriteAll(client.env, client.az, assignmentId, existing, specs[i..]))
      {
        var s := specs[i];
        assert specs[..i + 1] == specs[..i] + [s];
        assert specs[i..][1..] == specs[i + 1..];
        desired := desired + {s.displayName};
        var statusId := "";
        if s.displayName in existing {
          statusId := existing[s.displayName].exemptionId;
        }
        var id := exemptions.CreateOrUpdate(statusId, Synthetic(s, assignmentId));
        if id.None? {
          return desired, None;
        }
        var entry := Tracked(s.displayName, id.value, s.scope);
        AfterAfter(written, [entry], WriteAll(client.env, client.az, assignmentId, existing, specs[i + 1..]));
        written := written + [entry];
      }
      assert specs[..|specs|] == specs && specs[|specs|..] == [];
      assert written + [] == written;
      results := Some(written);
    }

    /** The second loop: deletes the tracked exemptions that left the spec. */
    method DeleteRemoved(desired: set<string>, status: seq<Tracked>) returns (ok: bool)
      requires exemptions.client == client
      modifies client
      ensures Reply(client.az, ok) == DropAll(client.env, old(client.az), desired, status)
    {
      assert status[0..] == status;
      for i := 0 to |status|
        invariant DropAll(client.env, old(client.az), desired, status) == DropAll(client.env, client.az, desired, status[i..])
      {
        assert status[i..][1..] == status[i + 1..];
        if status[i].displayName !in desired {
          ok := exemptions.Delete(status[i].scope, status[i].exemptionId);
          if !ok {
            return;
          }
        }
      }
      ok := true;
    }
  }
}
