/**
 The watch on definitions: an event on one is mapped to reconcile requests for the initiatives and the
 assignments of its namespace that refer to it by name.
 */
module WakeUps {
  import opened Wrappers
  import opened Resource
  import opened Documents
  import opened DocumentController
  import AssignmentService
  import AssignmentController

  /** A stored resource as a list returns it; names are unique within a namespace. */
  datatype Listed<S> = Listed(namespace: string, name: string, spec: S)

  datatype Request = Request(namespace: string, name: string)

  predicate Unique<S(!new)>(items: seq<Listed<S>>) {
    forall i, j :: 0 <= i < j < |items| ==> items[i].namespace != items[j].namespace || items[i].name != items[j].name
  }

  /** `List` with `InNamespace`. */
  function InNamespace<S>(items: seq<Listed<S>>, namespace: string): seq<Listed<S>>
    decreases |items|
  {
    if items == [] then []
    else (if items[0].namespace == namespace then [items[0]] else []) + InNamespace(items[1..], namespace)
  }

  function RequestFor<S>(item: Listed<S>): Request {
    Request(item.namespace, item.name)
  }

  function Own<S>(item: Listed<S>, refers: S -> bool): seq<Request> {
    if refers(item.spec) then [RequestFor(item)] else []
  }

  /** One request for every item whose spec refers to the object of the event, in list order. */
  function Enqueued<S>(items: seq<Listed<S>>, refers: S -> bool): seq<Request>
    decreases |items|
  {
    if items == [] then [] else Own(items[0], refers) + Enqueued(items[1..], refers)
  }

  predicate InitiativeRefers(spec: DocumentSpec, definition: string) {
    exists i :: 0 <= i < |spec.policies| && spec.policies[i].ref == definition
  }

  predicate AssignmentRefers(spec: AssignmentService.AssignmentSpec, definition: string) {
    spec.definitionRef == definition
  }

  /** The requests an event on `definition` leads to; a failed list leads to none. */
  function InitiativeRequests(cluster: seq<Listed<DocumentSpec>>, namespace: string, definition: string, ok: bool): seq<Request> {
    if ok then Enqueued(InNamespace(cluster, namespace), spec => InitiativeRefers(spec, definition)) else []
  }

  function AssignmentRequests(cluster: seq<Listed<AssignmentService.AssignmentSpec>>, namespace: string, definition: string,
                              ok: bool): seq<Request>
  {
    if ok then Enqueued(InNamespace(cluster, namespace), spec => AssignmentRefers(spec, definition)) else []
  }

  lemma {:induction false} EnqueuedAppend<S>(items: seq<Listed<S>>, item: Listed<S>, refers: S -> bool)
    ensures Enqueued(items + [item], refers) == Enqueued(items, refers) + Own(item, refers)
    decreases |items|
  {
    var all := items + [item];
    if items == [] {
      assert all[0] == item && all[1..] == [];
    } else {
      assert all[0] == items[0] && all[1..] == items[1..] + [item];
      EnqueuedAppend(items[1..], item, refers);
    }
  }

  lemma {:induction false} EnqueuedStep<S>(items: seq<Listed<S>>, i: nat, refers: S -> bool)
    requires i < |items|
    ensures Enqueued(items[..i + 1], refers) == Enqueued(items[..i], refers) + Own(items[i], refers)
  {
    assert items[..i + 1] == items[..i] + [items[i]];
    EnqueuedAppend(items[..i], items[i], refers);
  }

  method InitiativesReferencingDefinition(cluster: seq<Listed<DocumentSpec>>, namespace: string, definition: string, ok: bool)
    returns (requests: seq<Request>)
    ensures requests == InitiativeRequests(cluster, namespace, definition, ok)
  {
    if !ok {
      return [];
    }
    var items := InNamespace(cluster, namespace);
    ghost var refers := (spec: DocumentSpec) => InitiativeRefers(spec, definition);
    requests := [];
    for i := 0 to |items|
      invariant requests == Enqueued(items[..i], refers)
    {
      EnqueuedStep(items, i, refers);
      var policies := items[i].spec.policies;
      for j := 0 to |policies|
        invariant requests == Enqueued(items[..i], refers)
        invariant forall l :: 0 <= l < j ==> policies[l].ref != definition
      {
        if policies[j].ref == definition {
          assert refers(items[i].spec);
          requests := requests + [Request(items[i].namespace, items[i].name)];
          break;
        }
      }
    }
    assert items[..|items|] == items;
  }

  method AssignmentsReferencingDefinition(cluster: seq<Listed<AssignmentService.AssignmentSpec>>, namespace: string,
                                          definition: string, ok: bool)
    returns (requests: seq<Request>)
    ensures requests == AssignmentRequests(cluster, namespace, definition, ok)
  {
    if !ok {
      return [];
    }
    var items := InNamespace(cluster, namespace);
    ghost var refers := (spec: AssignmentService.AssignmentSpec) => AssignmentRefers(spec, definition);
    requests := [];
    for i := 0 to |items|
      invariant requests == Enqueued(items[..i], refers)
    {
      EnqueuedStep(items, i, refers);
      if items[i].spec.definitionRef == definition {
        requests := requests + [Request(items[i].namespace, items[i].name)];
      }
    }
    assert items[..|items|] == items;
  }

  // ---- no lost wake-ups ----------------------------------------------------------------------------------

  predicate Woken<S(!new)>(cluster: seq<Listed<S>>, namespace: string, refers: S -> bool, r: Request) {
    exists i :: 0 <= i < |cluster| && r == Request(namespace, cluster[i].name) && cluster[i].namespace == namespace && refers(cluster[i].spec)
  }

  /**
   Each resource of the namespace that refers to the object is enqueued exactly once, and nothing else is:
   for every possible request, its number of occurrences.
   */
  lemma {:induction false} EnqueuedExactly<S(!new)>(cluster: seq<Listed<S>>, namespace: string, refers: S -> bool, r: Request)
    requires Unique(cluster)
    ensures multiset(Enqueued(InNamespace(cluster, namespace), refers))[r] == if Woken(cluster, namespace, refers, r) then 1 else 0
    decreases |cluster|
  {
    if cluster != [] {
      var rest := cluster[1..];
      EnqueuedExactly(rest, namespace, refers, r);
      var here := cluster[0].namespace == namespace && refers(cluster[0].spec);
      assert Enqueued(InNamespace(cluster, namespace), refers)
          == (if here then Own(cluster[0], refers) else []) + Enqueued(InNamespace(rest, namespace), refers) by {
        if cluster[0].namespace == namespace {
          assert ([cluster[0]] + InNamespace(rest, namespace))[1..] == InNamespace(rest, namespace);
        } else {
          assert [] + InNamespace(rest, namespace) == InNamespace(rest, namespace);
          assert [] + Enqueued(InNamespace(rest, namespace), refers) == Enqueued(InNamespace(rest, namespace), refers);
        }
      }
      WokenSplit(cluster, namespace, refers, r);
    }
  }

  lemma {:induction false} WokenSplit<S(!new)>(cluster: seq<Listed<S>>, namespace: string, refers: S -> bool, r: Request)
    requires cluster != [] && Unique(cluster)
    ensures var here := cluster[0].namespace == namespace && refers(cluster[0].spec) && RequestFor(cluster[0]) == r;
            && (Woken(cluster, namespace, refers, r) <==> here || Woken(cluster[1..], namespace, refers, r))
            && !(RequestFor(cluster[0]) == r && Woken(cluster[1..], namespace, refers, r))
  {
    var rest := cluster[1..];
    if Woken(cluster, namespace, refers, r) {
      var i :| 0 <= i < |cluster| && RequestFor(cluster[i]) == r && cluster[i].namespace == namespace && refers(cluster[i].spec);
      assert i > 0 ==> rest[i - 1] == cluster[i];
    }
    if Woken(rest, namespace, refers, r) {
      var i :| 0 <= i < |rest| && RequestFor(rest[i]) == r && rest[i].namespace == namespace && refers(rest[i].spec);
      assert cluster[i + 1] == rest[i];
    }
  }

  /**
   Resolution of an initiative's references. It succeeds exactly when none is blocked, and then gives as many
   IDs as there are policies, each at its own index; otherwise it parks at the first blocked reference.
   */
  lemma {:induction false} ResolutionExact(policies: seq<PolicyRef>, answer: nat -> Answer)
    ensures match Resolve(policies, answer)
            case Resolved(ids) =>
              && |ids| == |policies|
              && forall i: nat :: i < |policies| ==>
                   !Blocked(policies, answer, i) && ids[i] == if policies[i].ref == "" then policies[i].id else answer(i).id
            case Parked(reason, at) =>
              && at < |policies| && Blocked(policies, answer, at)
              && (forall i: nat :: i < at ==> !Blocked(policies, answer, i))
              && (reason == "RefNotFound" <==> answer(at).Missing?)
  {
  }

  /**
   What an event on a definition enqueues, request by request: an initiative of the namespace once if one of its
   policies names the definition, and nothing else; a failed list enqueues nothing.
   */
  lemma {:induction false} InitiativesExactly(cluster: seq<Listed<DocumentSpec>>, namespace: string, definition: string, ok: bool, r: Request)
    requires Unique(cluster)
    ensures multiset(InitiativeRequests(cluster, namespace, definition, ok))[r]
         == if ok && r.namespace == namespace
               && exists i, j :: 0 <= i < |cluster| && 0 <= j < |cluster[i].spec.policies| && cluster[i].namespace == namespace
                                 && cluster[i].name == r.name && cluster[i].spec.policies[j].ref == definition
            then 1 else 0
  {
    var refers := (spec: DocumentSpec) => InitiativeRefers(spec, definition);
    EnqueuedExactly(cluster, namespace, refers, r);
    if Woken(cluster, namespace, refers, r) {
      var i :| 0 <= i < |cluster| && r == Request(namespace, cluster[i].name) && cluster[i].namespace == namespace && refers(cluster[i].spec);
      var j :| 0 <= j < |cluster[i].spec.policies| && cluster[i].spec.policies[j].ref == definition;
    }
    forall i, j | 0 <= i < |cluster| && 0 <= j < |cluster[i].spec.policies| && cluster[i].namespace == namespace
                  && r == Request(namespace, cluster[i].name) && cluster[i].spec.policies[j].ref == definition
      ensures Woken(cluster, namespace, refers, r)
    {
      assert refers(cluster[i].spec);
    }
  }

  /** The same for assignments, each of which names at most one definition. */
  lemma {:induction false} AssignmentsExactly(cluster: seq<Listed<AssignmentService.AssignmentSpec>>, namespace: string, definition: string,
                                              ok: bool, r: Request)
    requires Unique(cluster)
    ensures multiset(AssignmentRequests(cluster, namespace, definition, ok))[r]
         == if ok && r.namespace == namespace
               && exists i :: 0 <= i < |cluster| && cluster[i].namespace == namespace && cluster[i].name == r.name
                              && cluster[i].spec.definitionRef == definition
            then 1 else 0
  {
    var refers := (spec: AssignmentService.AssignmentSpec) => AssignmentRefers(spec, definition);
    EnqueuedExactly(cluster, namespace, refers, r);
    forall i | 0 <= i < |cluster| && cluster[i].namespace == namespace && r == Request(namespace, cluster[i].name)
               && cluster[i].spec.definitionRef == definition
      ensures Woken(cluster, namespace, refers, r)
    {
      assert refers(cluster[i].spec);
    }
  }

  /** No lost wake-up: whenever resolution parks an initiative because of a definition, an event on it enqueues the initiative once. */
  lemma {:induction false} InitiativeWoken(cluster: seq<Listed<DocumentSpec>>, at: nat, answer: nat -> Answer)
    requires Unique(cluster) && at < |cluster|
    requires Resolve(cluster[at].spec.policies, answer).Parked?
    ensures var i := Resolve(cluster[at].spec.policies, answer).at;
            && i < |cluster[at].spec.policies|
            && var d := cluster[at].spec.policies[i].ref;
               var requests := InitiativeRequests(cluster, cluster[at].namespace, d, true);
            && d != "" && multiset(requests)[Request(cluster[at].namespace, cluster[at].name)] == 1
  {
    ResolutionExact(cluster[at].spec.policies, answer);
    var namespace, i := cluster[at].namespace, Resolve(cluster[at].spec.policies, answer).at;
    InitiativesExactly(cluster, namespace, cluster[at].spec.policies[i].ref, true, Request(namespace, cluster[at].name));
  }

  /** The same for assignments, whose resolution follows a single reference. */
  lemma {:induction false} AssignmentWoken(cluster: seq<Listed<AssignmentService.AssignmentSpec>>, at: nat, answer: Answer)
    requires Unique(cluster) && at < |cluster|
    requires AssignmentController.Resolve(cluster[at].spec, answer).Parked?
    ensures var d := cluster[at].spec.definitionRef;
            var requests := AssignmentRequests(cluster, cluster[at].namespace, d, true);
            d != "" && multiset(requests)[Request(cluster[at].namespace, cluster[at].name)] == 1
  {
    var namespace := cluster[at].namespace;
    AssignmentsExactly(cluster, namespace, cluster[at].spec.definitionRef, true, Request(namespace, cluster[at].name));
  }
}
