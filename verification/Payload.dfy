/**
 The parts of a request body that are built by loops: resource selectors (the same triple loop in
 the assignment and the exemption service) and non-compliance messages.
 */
module Payload {
  import opened Wrappers

  datatype SelectorSpec = SelectorSpec(property: string, operator: string, values: seq<string>)
  datatype ResourceSelectorSpec = ResourceSelectorSpec(name: string, selectors: seq<SelectorSpec>)

  /** Azure's selector: the values sit under `in` or `notIn`; both are absent for any other operator. */
  datatype Selector = Selector(kind: string, isIn: Option<seq<string>>, notIn: Option<seq<string>>)
  datatype ResourceSelector = ResourceSelector(name: string, selectors: seq<Selector>)

  function SelectorOf(s: SelectorSpec): Selector {
    Selector(s.property,
             if s.operator == "In" then Some(s.values) else None,
             if s.operator == "notIn" then Some(s.values) else None)
  }

  function SelectorsOf(ss: seq<SelectorSpec>): (r: seq<Selector>)
    ensures |r| == |ss|
    ensures forall i :: 0 <= i < |ss| ==> r[i] == SelectorOf(ss[i])
  {
    if ss == [] then [] else [SelectorOf(ss[0])] + SelectorsOf(ss[1..])
  }

  function ResourceSelectorsOf(rs: seq<ResourceSelectorSpec>): (r: seq<ResourceSelector>)
    ensures |r| == |rs|
    ensures forall i :: 0 <= i < |rs| ==> r[i] == ResourceSelector(rs[i].name, SelectorsOf(rs[i].selectors))
  {
    if rs == [] then []
    else [ResourceSelector(rs[0].name, SelectorsOf(rs[0].selectors))] + ResourceSelectorsOf(rs[1..])
  }

  /** An empty list is not sent at all. */
  function Translated(rs: seq<ResourceSelectorSpec>): Option<seq<ResourceSelector>> {
    if rs == [] then None else Some(ResourceSelectorsOf(rs))
  }

  method TranslateResourceSelectors(rs: seq<ResourceSelectorSpec>) returns (payload: Option<seq<ResourceSelector>>)
    ensures payload == Translated(rs)
  {
    payload := None;
    if |rs| > 0 {
      ghost var goal := ResourceSelectorsOf(rs);
      var resourceSelectors := new ResourceSelector[|rs|];
      for i := 0 to |rs|
        invariant forall x :: 0 <= x < i ==> resourceSelectors[x] == goal[x]
      {
        var selectors := TranslateSelectors(rs[i].selectors);
        resourceSelectors[i] := ResourceSelector(rs[i].name, selectors);
      }
      assert resourceSelectors[..] == goal;
      payload := Some(resourceSelectors[..]);
    }
  }

  /** The two inner loops. */
  method TranslateSelectors(ss: seq<SelectorSpec>) returns (r: seq<Selector>)
    ensures r == SelectorsOf(ss)
  {
    var selectors := new Selector[|ss|];
    for j := 0 to |ss|
      invariant forall y :: 0 <= y < j ==> selectors[y] == SelectorOf(ss[y])
    {
      var sel := ss[j];
      var s := Selector(sel.property, None, None);
      var vals := new string[|sel.values|];
      for k := 0 to |sel.values|
        modifies vals
        invariant forall z :: 0 <= z < k ==> vals[z] == sel.values[z]
      {
        vals[k] := sel.values[k];
      }
      assert vals[..] == sel.values;
      if sel.operator == "In" {
        s := s.(isIn := Some(vals[..]));
      } else if sel.operator == "notIn" {
        s := s.(notIn := Some(vals[..]));
      }
      selectors[j] := s;
    }
    assert selectors[..] == SelectorsOf(ss);
    r := selectors[..];
  }

  function SpecOf(s: Selector): SelectorSpec {
    match s.notIn
    case Some(values) => SelectorSpec(s.kind, "notIn", values)
    case None => SelectorSpec(s.kind, "In", s.isIn.GetOr([]))
  }

  function SpecsOf(ss: seq<Selector>): (r: seq<SelectorSpec>)
    ensures |r| == |ss|
    ensures forall i :: 0 <= i < |ss| ==> r[i] == SpecOf(ss[i])
  {
    if ss == [] then [] else [SpecOf(ss[0])] + SpecsOf(ss[1..])
  }

  function ResourceSpecsOf(rs: seq<ResourceSelector>): (r: seq<ResourceSelectorSpec>)
    ensures |r| == |rs|
    ensures forall i :: 0 <= i < |rs| ==> r[i] == ResourceSelectorSpec(rs[i].name, SpecsOf(rs[i].selectors))
  {
    if rs == [] then []
    else [ResourceSelectorSpec(rs[0].name, SpecsOf(rs[0].selectors))] + ResourceSpecsOf(rs[1..])
  }

  /** Reads a payload back into the spec's nested lists. */
  function Recovered(payload: Option<seq<ResourceSelector>>): seq<ResourceSelectorSpec> {
    match payload
    case None => []
    case Some(rs) => ResourceSpecsOf(rs)
  }

  predicate KnownOperators(rs: seq<ResourceSelectorSpec>) {
    forall i, j :: 0 <= i < |rs| && 0 <= j < |rs[i].selectors| ==> rs[i].selectors[j].operator in {"In", "notIn"}
  }

  /** The translation loses nothing exactly when every operator is one of the two it knows. */
  lemma {:induction false} TranslationLossless(rs: seq<ResourceSelectorSpec>)
    ensures Recovered(Translated(rs)) == rs <==> KnownOperators(rs)
  {
    var back := Recovered(Translated(rs));
    if KnownOperators(rs) {
      forall i | 0 <= i < |rs|
        ensures back[i] == rs[i]
      {
        forall j | 0 <= j < |rs[i].selectors|
          ensures back[i].selectors[j] == rs[i].selectors[j]
        {
          assert rs[i].selectors[j].operator in {"In", "notIn"};
        }
      }
    } else {
      var i, j :| 0 <= i < |rs| && 0 <= j < |rs[i].selectors| && rs[i].selectors[j].operator !in {"In", "notIn"};
      assert back[i].selectors[j].operator in {"In", "notIn"};
    }
  }

  /** What is sent of each selector: the values under the operator given, and under an unknown operator nowhere. */
  lemma {:induction false} SentExactly(rs: seq<ResourceSelectorSpec>)
    ensures var sent := Translated(rs).GetOr([]);
            && |sent| == |rs|
            && forall i :: 0 <= i < |rs| ==>
                 && sent[i].name == rs[i].name && |sent[i].selectors| == |rs[i].selectors|
                 && forall j :: 0 <= j < |rs[i].selectors| ==>
                      var s, had := sent[i].selectors[j], rs[i].selectors[j];
                      && s.kind == had.property
                      && (s.isIn.Some? <==> had.operator == "In") && (s.isIn.Some? ==> s.isIn.value == had.values)
                      && (s.notIn.Some? <==> had.operator == "notIn") && (s.notIn.Some? ==> s.notIn.value == had.values)
  {
    if rs != [] {
      assert Translated(rs).GetOr([]) == ResourceSelectorsOf(rs);
    }
  }

  // ---- non-compliance messages ---------------------------------------------------------------

  datatype PerPolicy = PerPolicy(reference: string, message: string)
  datatype MessagesSpec = MessagesSpec(default: string, perPolicy: seq<PerPolicy>)
  datatype Message = Message(text: string, reference: Option<string>)

  function PerPolicyMessages(ps: seq<PerPolicy>): seq<Message> {
    if ps == [] then []
    else (if ps[0].message == "" then [] else [Message(ps[0].message, Some(ps[0].reference))]) + PerPolicyMessages(ps[1..])
  }

  function MessagesOf(spec: Option<MessagesSpec>): Option<seq<Message>> {
    match spec
    case None => None
    case Some(m) =>
      var all := (if m.default == "" then [] else [Message(m.default, None)]) + PerPolicyMessages(m.perPolicy);
      if all == [] then None else Some(all)
  }

  method BuildMessages(spec: Option<MessagesSpec>) returns (messages: Option<seq<Message>>)
    ensures messages == MessagesOf(spec)
  {
    messages := None;
    if spec.Some? {
      var m := spec.value;
      var all: seq<Message> := [];
      if m.default != "" {
        all := all + [Message(m.default, None)];
      }
      assert all == if m.default == "" then [] else [Message(m.default, None)];
      ghost var goal := all + PerPolicyMessages(m.perPolicy);
      for i := 0 to |m.perPolicy|
        invariant all + PerPolicyMessages(m.perPolicy[i..]) == goal
      {
        assert m.perPolicy[i..][1..] == m.perPolicy[i + 1..];
        if m.perPolicy[i].message == "" {
          continue;
        }
        all := all + [Message(m.perPolicy[i].message, Some(m.perPolicy[i].reference))];
      }
      assert m.perPolicy[|m.perPolicy|..] == [];
      assert all == goal;
      if |all| > 0 {
        messages := Some(all);
      }
    }
  }

  /** What is sent: never an empty text, and nothing at all rather than an empty list. */
  lemma {:induction false} MessagesNeverEmpty(spec: Option<MessagesSpec>)
    ensures MessagesOf(spec).None?
       <==> spec.None? || (spec.value.default == "" && forall p :: p in spec.value.perPolicy ==> p.message == "")
    ensures MessagesOf(spec).Some? ==> forall m :: m in MessagesOf(spec).value ==> m.text != ""
  {
    if spec.Some? {
      PerPolicyTexts(spec.value.perPolicy);
    }
  }

  /** The per-policy entries that say something, in order. */
  function Spoken(ps: seq<PerPolicy>): seq<PerPolicy> {
    if ps == [] then [] else (if ps[0].message == "" then [] else [ps[0]]) + Spoken(ps[1..])
  }

  /** Reads a message list back: a first message without reference is the default, every other is for its policy. */
  function MessagesBack(messages: seq<Message>): MessagesSpec {
    if messages != [] && messages[0].reference.None? then MessagesSpec(messages[0].text, PerPolicyBack(messages[1..]))
    else MessagesSpec("", PerPolicyBack(messages))
  }

  function PerPolicyBack(messages: seq<Message>): seq<PerPolicy> {
    if messages == [] then []
    else [PerPolicy(messages[0].reference.GetOr(""), messages[0].text)] + PerPolicyBack(messages[1..])
  }

  lemma {:induction false} PerPolicyRecovered(ps: seq<PerPolicy>)
    ensures PerPolicyBack(PerPolicyMessages(ps)) == Spoken(ps)
    ensures forall m :: m in PerPolicyMessages(ps) ==> m.reference.Some?
  {
    if ps != [] {
      PerPolicyRecovered(ps[1..]);
      var rest := PerPolicyMessages(ps[1..]);
      if ps[0].message != "" {
        assert PerPolicyMessages(ps)[1..] == rest;
      } else {
        assert PerPolicyMessages(ps) == rest;
      }
    }
  }

  /**
   Message translation is lossless but for empty texts: reading the payload back gives the default, and the
   per-policy entries with a text, in order, each with its reference; and every message that is not the first
   names its policy.
   */
  lemma {:induction false} MessagesRecovered(spec: Option<MessagesSpec>)
    ensures var sent := MessagesOf(spec).GetOr([]);
            && MessagesBack(sent) == (match spec case None => MessagesSpec("", []) case Some(m) => MessagesSpec(m.default, Spoken(m.perPolicy)))
            && forall i :: 0 < i < |sent| ==> sent[i].reference.Some?
  {
    if spec.Some? {
      var m := spec.value;
      var rest := PerPolicyMessages(m.perPolicy);
      PerPolicyRecovered(m.perPolicy);
      if m.default != "" {
        assert ([Message(m.default, None)] + rest)[1..] == rest;
      } else {
        assert [] + rest == rest;
        assert rest != [] ==> rest[0] in rest;
      }
    }
  }

  lemma {:induction false} PerPolicyTexts(ps: seq<PerPolicy>)
    ensures PerPolicyMessages(ps) == [] <==> forall p :: p in ps ==> p.message == ""
    ensures forall m :: m in PerPolicyMessages(ps) ==> m.text != ""
  {
    if ps != [] {
      PerPolicyTexts(ps[1..]);
      assert ps == [ps[0]] + ps[1..];
    }
  }
}
