/** The drift comparisons that are computed by loops. */
module Drift {
  import opened Wrappers

  function Scopes(live: seq<Option<string>>): set<string> {
    set x | x in live && x.Some? :: x.value
  }

  function Elements(xs: seq<string>): set<string> {
    set x | x in xs
  }

  /** The live scopes as Azure returns them: no nil among them. */
  function NonNil(xs: seq<string>): (r: seq<Option<string>>)
    ensures Scopes(r) == Elements(xs)
  {
    if xs == [] then []
    else
      assert xs == [xs[0]] + xs[1..];
      var r := [Some(xs[0])] + NonNil(xs[1..]);
      assert Elements(xs) == {xs[0]} + Elements(xs[1..]);
      assert Scopes(r) == {xs[0]} + Scopes(NonNil(xs[1..]));
      r
  }

  lemma {:induction false} SubsetOfSameSize(a: set<string>, b: set<string>)
    requires a <= b && |a| == |b|
    ensures a == b
  {
    assert |b - a| == |b| - |a|;
  }

  /**
   The excluded scopes are compared as sets: two sets are built, their sizes compared, and one
   inclusion checked. Drift is reported exactly when the sets differ, for all orders and repetitions.
   */
  method NotScopesDrift(live: seq<Option<string>>, spec: seq<string>) returns (drift: bool)
    ensures drift <==> Scopes(live) != Elements(spec)
  {
    var liveNotScopes: set<string> := {};
    for i := 0 to |live|
      invariant liveNotScopes == Scopes(live[..i])
    {
      assert live[..i + 1] == live[..i] + [live[i]];
      if live[i].Some? {
        liveNotScopes := liveNotScopes + {live[i].value};
      }
    }
    assert live[..|live|] == live;
    var specNotScopes: set<string> := {};
    for i := 0 to |spec|
      invariant specNotScopes == Elements(spec[..i])
    {
      assert spec[..i + 1] == spec[..i] + [spec[i]];
      specNotScopes := specNotScopes + {spec[i]};
    }
    assert spec[..|spec|] == spec;
    if |liveNotScopes| != |specNotScopes| {
      return true;
    }
    var rest := specNotScopes;
    while rest != {}
      invariant rest <= specNotScopes
      invariant specNotScopes - rest <= liveNotScopes
      decreases rest
    {
      var ns :| ns in rest;
      if ns !in liveNotScopes {
        return true;
      }
      rest := rest - {ns};
    }
    SubsetOfSameSize(specNotScopes, liveNotScopes);
    return false;
  }

  /** A reference in a live initiative: nil, or with an ID that may itself be nil. */
  datatype LiveRef = NilRef | LiveRef(id: Option<string>)

  function LiveRefs(ids: seq<string>): (r: seq<LiveRef>)
    ensures |r| == |ids|
    ensures forall i :: 0 <= i < |ids| ==> r[i] == LiveRef(Some(ids[i]))
  {
    if ids == [] then [] else [LiveRef(Some(ids[0]))] + LiveRefs(ids[1..])
  }

  /** hasPolicyDefinitionDrift: false exactly when the live IDs are the desired ones, in order. */
  method PolicyDefinitionDrift(live: seq<LiveRef>, desired: seq<string>) returns (drift: bool)
    ensures drift <==> live != LiveRefs(desired)
  {
    if |live| != |desired| {
      return true;
    }
    for i := 0 to |desired|
      invariant forall j :: 0 <= j < i ==> live[j] == LiveRef(Some(desired[j]))
    {
      if live[i].NilRef? || live[i].id.None? || live[i].id.value != desired[i] {
        return true;
      }
    }
    return false;
  }

  /** One more entry of a drift list, present exactly if `b`: what was in the list stays decided as it was. */
  function Noted(fields: seq<string>, b: bool, field: string): seq<string> {
    fields + (if b then [field] else [])
  }

  predicate NoRepeats(fields: seq<string>) {
    forall i, j :: 0 <= i < j < |fields| ==> fields[i] != fields[j]
  }

  lemma {:induction false} NotedExactly(fields: seq<string>, b: bool, field: string)
    requires field !in fields && NoRepeats(fields)
    ensures var r := Noted(fields, b, field);
            && (field in r <==> b) && (forall f :: f != field ==> (f in r <==> f in fields)) && NoRepeats(r)
  {
  }
}
