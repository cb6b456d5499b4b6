/**
 Azure as the assignment side of the operator sees it: three maps keyed by (scope, name), a log of
 the calls that went through, and a supply of names. Any call may fail; a failed call has no effect.
 */
module Cloud {
  import opened Wrappers
  import opened Text
  import opened ResourceId
  import opened Payload

  datatype IdentityBody = IdentityBody(kind: string, userAssigned: Option<string>)

  datatype Assignment = Assignment(
    displayName: string, definitionId: string, description: Option<string>, notScopes: Option<seq<string>>,
    enforcementMode: Option<string>, messages: Option<seq<Message>>, selectors: Option<seq<ResourceSelector>>,
    identity: Option<IdentityBody>, location: Option<string>)

  datatype Exemption = Exemption(
    displayName: string, assignmentId: string, category: string, description: Option<string>,
    expiresOn: Option<string>, selectors: Option<seq<ResourceSelector>>)

  datatype Grant = Grant(principal: string, roleDefinitionId: string)

  /** A call that went through. `location` is what Azure reported, "" when it reported none. */
  datatype Call =
    | PutAssignment(key: Key, body: Assignment, location: string)
    | DropAssignment(key: Key)
    | ReadAssignment(location: string)
    | PutExemption(key: Key)
    | DropExemption(key: Key)
    | PutGrant(key: Key)
    | DropGrant(key: Key)

  /** Azure's state. `calls` numbers every call attempted, `minted` the names taken so far. */
  datatype Azure = Azure(assignments: map<Key, Assignment>, exemptions: map<Key, Exemption>, grants: map<Key, Grant>,
                         calls: nat, minted: nat, log: seq<Call>)

  /**
   What the operator does not control: which calls fail, the random names (`uuid.NewString`), the
   name-based hash (`uuid.NewSHA1`), role lookup by (scope, role name), RFC 3339 parsing, and the
   principal and location Azure reports at each call.
   */
  datatype Env = Env(fails: nat -> bool, mint: nat -> string, hash: string -> string,
                     role: (string, string) -> Option<string>, time: string -> Option<string>,
                     principal: nat -> string, location: nat -> string)

  /** Minted names are usable and never repeat. */
  ghost predicate ValidEnv(env: Env) {
    && (forall i: nat :: env.mint(i) != "" && NoSlash(env.mint(i)))
    && (forall i: nat, j: nat :: env.mint(i) == env.mint(j) ==> i == j)
  }

  /** Nobody has used a name that is still to be minted. */
  ghost predicate Fresh(env: Env, az: Azure) {
    forall k, i: nat :: k in az.exemptions && i >= az.minted ==> k.name != env.mint(i)
  }

  /** From call `from` on nothing fails. */
  ghost predicate AllGo(env: Env, from: nat) {
    forall i: nat :: i >= from ==> !env.fails(i)
  }

  datatype Reply<+T> = Reply(az: Azure, value: T)

  /** One more call attempted. */
  function Tick(az: Azure): Azure {
    az.(calls := az.calls + 1)
  }

  function Logged(az: Azure, call: Call): Azure {
    Tick(az).(log := az.log + [call])
  }

  lemma {:induction false} Onward(log: seq<Call>, call: Call, rest: seq<Call>)
    ensures (log + [call]) + rest == log + ([call] + rest)
  {
  }

  function UpsertExemption(env: Env, az: Azure, key: Key, body: Exemption): Reply<bool> {
    if env.fails(az.calls) then Reply(Tick(az), false)
    else Reply(Logged(az, PutExemption(key)).(exemptions := az.exemptions[key := body]), true)
  }

  function RemoveExemption(env: Env, az: Azure, key: Key): Reply<bool> {
    if env.fails(az.calls) then Reply(Tick(az), false)
    else Reply(Logged(az, DropExemption(key)).(exemptions := az.exemptions - {key}), true)
  }

  function UpsertGrant(env: Env, az: Azure, key: Key, body: Grant): Reply<bool> {
    if env.fails(az.calls) then Reply(Tick(az), false)
    else Reply(Logged(az, PutGrant(key)).(grants := az.grants[key := body]), true)
  }

  function RemoveGrant(env: Env, az: Azure, key: Key): Reply<bool> {
    if env.fails(az.calls) then Reply(Tick(az), false)
    else Reply(Logged(az, DropGrant(key)).(grants := az.grants - {key}), true)
  }

  function LookupRole(env: Env, az: Azure, scope: string, role: string): Reply<Option<string>> {
    Reply(Tick(az), if env.fails(az.calls) then None else env.role(scope, role))
  }

  datatype Written = Written(id: string, principal: string, location: string)

  function UpsertAssignment(env: Env, az: Azure, key: Key, body: Assignment): Reply<Option<Written>> {
    if env.fails(az.calls) then Reply(Tick(az), None)
    else
      var location := env.location(az.calls);
      Reply(Logged(az, PutAssignment(key, body, location)).(assignments := az.assignments[key := body]),
            Some(Written(AssignmentId(key), env.principal(az.calls), location)))
  }

  function RemoveAssignment(env: Env, az: Azure, key: Key): Reply<bool> {
    if env.fails(az.calls) then Reply(Tick(az), false)
    else Reply(Logged(az, DropAssignment(key)).(assignments := az.assignments - {key}), true)
  }

  /** Existence check: an error, or the ID found ("" when there is none). */
  function FindAssignment(env: Env, az: Azure, key: Key): Reply<Option<string>> {
    Reply(Tick(az), if env.fails(az.calls) then None
                    else Some(if key in az.assignments then AssignmentId(key) else ""))
  }

  datatype Live = Live(body: Assignment, principal: string, location: string)

  /** Azure reports the default enforcement mode when the stored body names none. */
  function Reported(a: Assignment): Assignment {
    a.(enforcementMode := Some(a.enforcementMode.GetOr("Default")))
  }

  function ReadAssignmentById(env: Env, az: Azure, id: string): Reply<Option<Live>> {
    match KeyOfAssignmentId(id)
    case None => Reply(Tick(az), None)
    case Some(key) =>
      if env.fails(az.calls) || key !in az.assignments then Reply(Tick(az), None)
      else
        var location := env.location(az.calls);
        Reply(Logged(az, ReadAssignment(location)),
              Some(Live(Reported(az.assignments[key]), env.principal(az.calls), location)))
  }

  /** The client handle: each call changes Azure as the function of the same meaning says. */
  class Client {
    const env: Env
    var az: Azure

    constructor (env: Env, az: Azure)
      ensures this.env == env && this.az == az
    {
      this.env := env;
      this.az := az;
    }

    method CreateOrUpdateExemption(key: Key, body: Exemption) returns (ok: bool)
      modifies this
      ensures Reply(az, ok) == UpsertExemption(env, old(az), key, body)
    {
      var r := UpsertExemption(env, az, key, body);
      az, ok := r.az, r.value;
    }

    method DeleteExemption(key: Key) returns (ok: bool)
      modifies this
      ensures Reply(az, ok) == RemoveExemption(env, old(az), key)
    {
      var r := RemoveExemption(env, az, key);
      az, ok := r.az, r.value;
    }

    method CreateGrant(key: Key, body: Grant) returns (ok: bool)
      modifies this
      ensures Reply(az, ok) == UpsertGrant(env, old(az), key, body)
    {
      var r := UpsertGrant(env, az, key, body);
      az, ok := r.az, r.value;
    }

    method DeleteGrant(key: Key) returns (ok: bool)
      modifies this
      ensures Reply(az, ok) == RemoveGrant(env, old(az), key)
    {
      var r := RemoveGrant(env, az, key);
      az, ok := r.az, r.value;
    }

    method ResolveRole(scope: string, role: string) returns (id: Option<string>)
      modifies this
      ensures Reply(az, id) == LookupRole(env, old(az), scope, role)
    {
      var r := LookupRole(env, az, scope, role);
      az, id := r.az, r.value;
    }

    method CreateAssignment(key: Key, body: Assignment) returns (written: Option<Written>)
      modifies this
      ensures Reply(az, written) == UpsertAssignment(env, old(az), key, body)
    {
      var r := UpsertAssignment(env, az, key, body);
      az, written := r.az, r.value;
    }

    method DeleteAssignment(key: Key) returns (ok: bool)
      modifies this
      ensures Reply(az, ok) == RemoveAssignment(env, old(az), key)
    {
      var r := RemoveAssignment(env, az, key);
      az, ok := r.az, r.value;
    }

    method GetAssignment(key: Key) returns (id: Option<string>)
      modifies this
      ensures Reply(az, id) == FindAssignment(env, old(az), key)
    {
      var r := FindAssignment(env, az, key);
      az, id := r.az, r.value;
    }

    method GetAssignmentById(id: string) returns (live: Option<Live>)
      modifies this
      ensures Reply(az, live) == ReadAssignmentById(env, old(az), id)
    {
      var r := ReadAssignmentById(env, az, id);
      az, live := r.az, r.value;
    }

    method NewName() returns (name: string)
      modifies this
      ensures name == env.mint(old(az).minted) && az == old(az).(minted := old(az).minted + 1)
    {
      name := env.mint(az.minted);
      az := az.(minted := az.minted + 1);
    }
  }
}
