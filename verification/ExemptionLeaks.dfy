/**
 Where the conditions of the exemption runs are needed: exactly which passes leave an exemption behind that
 no status entry knows of, and exactly when a pass leaves a status list the next one can rely on.
 */
module ExemptionLeaks {
  import opened Wrappers
  import opened Text
  import opened ResourceId
  import opened Cloud
  import opened ExemptionService
  import opened InlineExemptions
  import opened ExemptionPasses
  import opened ExemptionRuns

  // ---- exemptions a failed pass leaves behind -----------------------------------------------------------

  /** Something went live since, at a place that `status` does not list. */
  predicate Untracked(status: seq<Tracked>, az: Azure, az2: Azure) {
    exists k :: k in az2.exemptions && k !in az.exemptions && k !in Places(status)
  }

  /** Calls `from` to `from + n` go through. */
  predicate GoesThrough(env: Env, from: nat, n: nat) {
    forall j: nat :: from <= j <= from + n ==> !env.fails(j)
  }

  /** Nothing is at the place this entry is written to: it has no name yet, or keeps one at another, free scope. */
  predicate TakesNewPlace(az: Azure, existing: map<string, Tracked>, s: InlineSpec) {
    s.displayName in existing ==>
      var e := existing[s.displayName];
      s.scope != e.scope && Key(s.scope, Place(e).name) !in az.exemptions
  }

  /** Some entry takes a new place, and its write, the call of the same number, goes through with all before it. */
  predicate ReachesNewPlace(env: Env, az: Azure, existing: map<string, Tracked>, specs: seq<InlineSpec>) {
    exists i: nat :: i < |specs| && TakesNewPlace(az, existing, specs[i]) && GoesThrough(env, az.calls, i)
  }

  function ListedPlaces(existing: map<string, Tracked>): set<Key> {
    set d | d in existing :: Place(existing[d])
  }

  predicate NewlyLive(existing: map<string, Tracked>, az: Azure, az2: Azure) {
    exists k :: k in az2.exemptions && k !in az.exemptions && k !in ListedPlaces(existing)
  }

  lemma {:induction false} OneCall(env: Env, az: Azure, id: string, spec: ExemptionSpec)
    ensures var r := Upserted(env, az, id, spec);
            r.az.calls == az.calls + 1 && (r.value.Some? <==> !env.fails(az.calls))
  {
  }

  /** The place of a first write that takes a new one. */
  lemma {:induction false} NewPlaceIsNew(env: Env, az: Azure, existing: map<string, Tracked>, s: InlineSpec, hi: nat, e: Tracked)
    requires ValidEnv(env) && KnownNames(env, az.minted, existing) && Fresh(env, az)
    requires Records(s, e) && Named(env, az.minted, hi, existing, e) && TakesNewPlace(az, existing, s)
    ensures Place(e) !in az.exemptions && Place(e) !in ListedPlaces(existing)
  {
    if e.displayName in existing {
      assert Place(e) == Key(s.scope, Place(existing[e.displayName]).name);
    } else {
      assert MintedIn(env, az.minted, hi, Place(e).name);
      forall d | d in existing
        ensures Place(existing[d]).name != Place(e).name
      {
        assert MintedIn(env, 0, az.minted, Place(existing[d]).name);
      }
    }
  }

  /** After a first write that takes none, the question for the rest is the question for all. */
  lemma {:induction false} RestReachesNewPlace(env: Env, az: Azure, az1: Azure, existing: map<string, Tracked>, specs: seq<InlineSpec>)
    requires specs != [] && Distinct(specs) && KnownNames(env, az.minted, existing)
    requires !TakesNewPlace(az, existing, specs[0]) && !env.fails(az.calls) && az1.calls == az.calls + 1
    requires az1.exemptions.Keys
          == az.exemptions.Keys + {Key(specs[0].scope, Place(existing[specs[0].displayName]).name)}
    ensures ReachesNewPlace(env, az, existing, specs) <==> ReachesNewPlace(env, az1, existing, specs[1..])
  {
    var rest := specs[1..];
    forall i: nat | i < |rest|
      ensures rest[i] == specs[i + 1] && (TakesNewPlace(az1, existing, rest[i]) <==> TakesNewPlace(az, existing, specs[i + 1]))
      ensures GoesThrough(env, az1.calls, i) <==> GoesThrough(env, az.calls, i + 1)
    {
      assert rest[i].displayName != specs[0].displayName;
      assert GoesThrough(env, az1.calls, i) ==> forall j: nat :: az.calls <= j <= az.calls + i + 1 ==> j == az.calls || !env.fails(j);
    }
    if ReachesNewPlace(env, az, existing, specs) {
      var i: nat :| i < |specs| && TakesNewPlace(az, existing, specs[i]) && GoesThrough(env, az.calls, i);
      assert TakesNewPlace(az1, existing, rest[i - 1]) && GoesThrough(env, az1.calls, i - 1);
    }
    if ReachesNewPlace(env, az1, existing, rest) {
      var i: nat :| i < |rest| && TakesNewPlace(az1, existing, rest[i]) && GoesThrough(env, az1.calls, i);
      assert TakesNewPlace(az, existing, specs[i + 1]) && GoesThrough(env, az.calls, i + 1);
    }
  }

  /** The write loop, failing or not. */
  lemma {:induction false} WritesNewExactly(env: Env, az: Azure, assignmentId: string, existing: map<string, Tracked>,
                                            specs: seq<InlineSpec>)
    requires ValidEnv(env) && KnownNames(env, az.minted, existing) && Fresh(env, az) && Distinct(specs)
    ensures NewlyLive(existing, az, WriteAll(env, az, assignmentId, existing, specs).az)
       <==> ReachesNewPlace(env, az, existing, specs)
    decreases |specs|
  {
    if specs != [] {
      var s := specs[0];
      var id, spec := PreviousId(existing, s.displayName), Synthetic(s, assignmentId);
      var r := Upserted(env, az, id, spec);
      OneCall(env, az, id, spec);
      FirstWrite(env, az, assignmentId, existing, s);
      if r.value.Some? {
        var e := Tracked(s.displayName, r.value.value, s.scope);
        WriteAllFrame(env, r.az, assignmentId, existing, specs[1..]);
        if TakesNewPlace(az, existing, s) {
          FirstIsNew(env, az, r.az, WriteAll(env, r.az, assignmentId, existing, specs[1..]).az, existing, specs, e);
        } else {
          OldPlaceStaysOld(env, az, r.az, existing, s, e);
          WritesNewExactly(env, r.az, assignmentId, existing, specs[1..]);
          FirstIsOld(env, az, r.az, WriteAll(env, r.az, assignmentId, existing, specs[1..]).az, existing, specs, e);
        }
      } else {
        NothingReached(env, az, r.az, existing, specs);
      }
    }
  }

  lemma {:induction false} FirstIsNew(env: Env, az: Azure, az1: Azure, end: Azure, existing: map<string, Tracked>,
                                      specs: seq<InlineSpec>, e: Tracked)
    requires ValidEnv(env) && KnownNames(env, az.minted, existing) && Fresh(env, az) && specs != []
    requires Records(specs[0], e) && Named(env, az.minted, az1.minted, existing, e) && TakesNewPlace(az, existing, specs[0])
    requires !env.fails(az.calls) && Place(e) in az1.exemptions && az1.exemptions.Keys <= end.exemptions.Keys
    ensures NewlyLive(existing, az, end) && ReachesNewPlace(env, az, existing, specs)
  {
    NewPlaceIsNew(env, az, existing, specs[0], az1.minted, e);
    assert Place(e) in end.exemptions;
    assert GoesThrough(env, az.calls, 0);
  }

  lemma {:induction false} NothingReached(env: Env, az: Azure, end: Azure, existing: map<string, Tracked>, specs: seq<InlineSpec>)
    requires env.fails(az.calls) && end.exemptions == az.exemptions
    ensures !NewlyLive(existing, az, end) && !ReachesNewPlace(env, az, existing, specs)
  {
    forall i: nat
      ensures !GoesThrough(env, az.calls, i)
    {
    }
  }

  lemma {:induction false} FirstIsOld(env: Env, az: Azure, az1: Azure, end: Azure, existing: map<string, Tracked>,
                                      specs: seq<InlineSpec>, e: Tracked)
    requires specs != [] && Distinct(specs) && KnownNames(env, az.minted, existing)
    requires !TakesNewPlace(az, existing, specs[0]) && !env.fails(az.calls) && az1.calls == az.calls + 1
    requires Place(e) == Key(specs[0].scope, Place(existing[specs[0].displayName]).name)
    requires az1.exemptions.Keys == az.exemptions.Keys + {Place(e)}
    requires Place(e) in az.exemptions || Place(e) in ListedPlaces(existing)
    requires NewlyLive(existing, az1, end) <==> ReachesNewPlace(env, az1, existing, specs[1..])
    ensures NewlyLive(existing, az, end) <==> ReachesNewPlace(env, az, existing, specs)
  {
    RestReachesNewPlace(env, az, az1, existing, specs);
    SameNewlyLive(existing, az, az1, end, Place(e));
  }

  lemma {:induction false} OldPlaceStaysOld(env: Env, az: Azure, az1: Azure, existing: map<string, Tracked>, s: InlineSpec, e: Tracked)
    requires ValidEnv(env) && KnownNames(env, az.minted, existing) && Fresh(env, az) && az.minted <= az1.minted
    requires Records(s, e) && Named(env, az.minted, az1.minted, existing, e) && !TakesNewPlace(az, existing, s)
    requires az1.exemptions.Keys == az.exemptions.Keys + {Place(e)}
    ensures Fresh(env, az1) && Place(e) == Key(s.scope, Place(existing[s.displayName]).name)
    ensures Place(e) in az.exemptions || Place(e) in ListedPlaces(existing)
  {
    assert MintedIn(env, 0, az.minted, Place(existing[s.displayName]).name);
  }

  lemma {:induction false} SameNewlyLive(existing: map<string, Tracked>, az: Azure, az1: Azure, end: Azure, k: Key)
    requires az1.exemptions.Keys == az.exemptions.Keys + {k} && (k in az.exemptions || k in ListedPlaces(existing))
    ensures NewlyLive(existing, az, end) <==> NewlyLive(existing, az1, end)
  {
    if NewlyLive(existing, az, end) {
      var x :| x in end.exemptions && x !in az.exemptions && x !in ListedPlaces(existing);
      assert x !in az1.exemptions;
    }
    if NewlyLive(existing, az1, end) {
      var x :| x in end.exemptions && x !in az1.exemptions && x !in ListedPlaces(existing);
      assert x !in az.exemptions;
    }
  }

  lemma {:induction false} ListedPlacesOf(env: Env, minted: nat, status: seq<Tracked>)
    requires Coherent(env, minted, status)
    ensures ListedPlaces(Existing(status)) == Places(status)
  {
    ExistingFaithful(env, minted, status);
    forall e | e in status
      ensures Place(e) in ListedPlaces(Existing(status))
    {
      assert Existing(status)[e.displayName] == e;
    }
  }

  /**
   A pass, for every spec with distinct display names and every coherent status: it leaves something live that
   the status it started from does not list exactly when some entry takes a new place and its write is reached.
   A pass that fails leaves that status in place, so these are the exemptions nobody keeps track of.
   */
  lemma {:induction false} UntrackedExactly(env: Env, az: Azure, assignmentId: string, specs: seq<InlineSpec>, status: seq<Tracked>)
    requires ValidEnv(env) && Coherent(env, az.minted, status) && Fresh(env, az) && Distinct(specs)
    ensures Untracked(status, az, Pass(env, az, assignmentId, specs, status).az)
       <==> ReachesNewPlace(env, az, Existing(status), specs)
  {
    ExistingFaithful(env, az.minted, status);
    ListedPlacesOf(env, az.minted, status);
    var w := WriteAll(env, az, assignmentId, Existing(status), specs);
    WritesNewExactly(env, az, assignmentId, Existing(status), specs);
    assert NewlyLive(Existing(status), az, w.az) <==> Untracked(status, az, w.az);
    if w.value.Some? {
      DropAllEffect(env, w.az, DisplayNames(specs), status);
      DropsKeepUntracked(status, specs, az, w.az, DropAll(env, w.az, DisplayNames(specs), status).az);
    }
  }

  lemma {:induction false} DropsKeepUntracked(status: seq<Tracked>, specs: seq<InlineSpec>, az: Azure, az1: Azure, az2: Azure)
    requires DropFrame(az1, az2, Gone(status, DisplayNames(specs)))
    ensures Untracked(status, az, az1) <==> Untracked(status, az, az2)
  {
    var gone := Gone(status, DisplayNames(specs));
    assert gone <= Places(status);
    if Untracked(status, az, az1) {
      var k :| k in az1.exemptions && k !in az.exemptions && k !in Places(status);
      assert k in az1.exemptions - gone;
      assert k in az2.exemptions - gone;
    }
    if Untracked(status, az, az2) {
      var k :| k in az2.exemptions && k !in az.exemptions && k !in Places(status);
      assert k in az1.exemptions;
    }
  }

  /** The smallest input: a pass over two new entries that fails at its second call. */
  lemma {:induction false} FailedPassLeaks(env: Env, az: Azure, assignmentId: string, s: InlineSpec, t: InlineSpec)
    requires ValidEnv(env) && Fresh(env, az) && s.displayName != t.displayName
    requires !env.fails(az.calls) && env.fails(az.calls + 1)
    ensures var r := Pass(env, az, assignmentId, [s, t], []);
            var key := Key(s.scope, env.mint(az.minted));
            r.value.None? && key !in az.exemptions && key in r.az.exemptions && Untracked([], az, r.az)
  {
    assert [s, t][1..] == [t];
    var r := Upserted(env, az, "", Synthetic(s, assignmentId));
    UpsertedWrote(env, az, "", Synthetic(s, assignmentId));
    assert WriteAll(env, r.az, assignmentId, map[], [t]).value.None?;
    assert WriteAll(env, r.az, assignmentId, map[], [t]).az.exemptions == r.az.exemptions;
  }

  // ---- display names given twice --------------------------------------------------------------------------

  /** A successful pass leaves a list the next pass can rely on exactly when the spec's display names are distinct. */
  lemma {:induction false} CoherentExactly(env: Env, az: Azure, assignmentId: string, specs: seq<InlineSpec>, status: seq<Tracked>)
    requires ValidEnv(env) && Coherent(env, az.minted, status)
    requires Pass(env, az, assignmentId, specs, status).value.Some?
    ensures var r := Pass(env, az, assignmentId, specs, status); Coherent(env, r.az.minted, r.value.value) <==> Distinct(specs)
  {
    if Distinct(specs) {
      PassContent(env, az, assignmentId, specs, status);
    } else {
      ExistingFaithful(env, az.minted, status);
      WriteAllContent(env, az, assignmentId, Existing(status), specs);
      var entries := Pass(env, az, assignmentId, specs, status).value.value;
      var i, j :| 0 <= i < j < |specs| && specs[i].displayName == specs[j].displayName;
      assert Records(specs[i], entries[i]) && Records(specs[j], entries[j]);
    }
  }

  /** Distinct places, whatever the display names: what a first pass from nothing leaves. */
  predicate NamesApartAll(entries: seq<Tracked>) {
    forall i, j :: 0 <= i < j < |entries| ==> Place(entries[i]).name != Place(entries[j]).name
  }

  /** Named as the write loop names, said of every entry; display names may repeat. */
  lemma {:induction false} WriteAllNamed(env: Env, az: Azure, assignmentId: string, existing: map<string, Tracked>,
                                         specs: seq<InlineSpec>)
    requires ValidEnv(env) && KnownNames(env, az.minted, existing)
    requires WriteAll(env, az, assignmentId, existing, specs).value.Some?
    ensures var r := WriteAll(env, az, assignmentId, existing, specs);
            && az.minted <= r.az.minted
            && (forall e :: e in r.value.value ==> Named(env, az.minted, r.az.minted, existing, e))
            && (existing == map[] ==> NamesApartAll(r.value.value))
    decreases |specs|
  {
    if specs != [] {
      var az1, head, rest := Unrolled(env, az, assignmentId, existing, specs);
      WriteAllNamed(env, az1, assignmentId, existing, specs[1..]);
      NamedWider(env, az.minted, az1.minted, rest.az.minted, existing, head);
      HeadApart(env, az.minted, az1.minted, rest.az.minted, existing, head, rest.value.value);
    }
  }

  lemma {:induction false} HeadApart(env: Env, lo: nat, mid: nat, hi: nat, existing: map<string, Tracked>, head: Tracked, tail: seq<Tracked>)
    requires ValidEnv(env) && lo <= mid <= hi && Named(env, lo, mid, existing, head)
    requires forall e :: e in tail ==> Named(env, mid, hi, existing, e)
    ensures forall e :: e in tail ==> Named(env, lo, hi, existing, e)
    ensures existing == map[] && NamesApartAll(tail) ==> NamesApartAll([head] + tail)
  {
    forall e | e in tail
      ensures Named(env, lo, hi, existing, e)
      ensures existing == map[] ==> Place(head).name != Place(e).name
    {
      if e.displayName !in existing {
        assert MintedIn(env, mid, hi, Place(e).name);
        assert existing == map[] ==> MintedIn(env, lo, mid, Place(head).name);
      }
    }
  }

  /** Entry `l` is the last of display name `d`. */
  predicate IsLast(status: seq<Tracked>, d: string, l: nat) {
    l < |status| && status[l].displayName == d && forall j :: l < j < |status| ==> status[j].displayName != d
  }

  /** The lookup keeps the last entry of each display name. */
  lemma {:induction false} LookupKeepsLast(status: seq<Tracked>)
    ensures forall i :: 0 <= i < |status| ==> status[i].displayName in Existing(status)
    ensures forall d :: d in Existing(status) ==> exists l: nat :: IsLast(status, d, l) && Existing(status)[d] == status[l]
  {
    if status != [] {
      var n := |status| - 1;
      var front := status[..n];
      LookupKeepsLast(front);
      forall i | 0 <= i < |status|
        ensures status[i].displayName in Existing(status)
      {
        assert i < n ==> front[i] == status[i];
      }
      forall d | d in Existing(status)
        ensures exists l: nat :: IsLast(status, d, l) && Existing(status)[d] == status[l]
      {
        if d == status[n].displayName {
          assert IsLast(status, d, n);
        } else {
          var l: nat :| IsLast(front, d, l) && Existing(front)[d] == front[l];
          LastOfFront(status, d, l);
        }
      }
    }
  }

  lemma {:induction false} LastOfFront(status: seq<Tracked>, d: string, l: nat)
    requires status != [] && status[|status| - 1].displayName != d && IsLast(status[..|status| - 1], d, l)
    ensures IsLast(status, d, l) && status[l] == status[..|status| - 1][l]
  {
    forall j | l < j < |status|
      ensures status[j].displayName != d
    {
      if j < |status| - 1 {
        assert status[..|status| - 1][j] == status[j];
      }
    }
  }

  lemma {:induction false} KnownAfterFirst(env: Env, minted: nat, first: seq<Tracked>)
    requires NamesApartAll(first)
    requires forall e :: e in first ==> e.exemptionId == ExemptionId(Place(e)) && MintedIn(env, 0, minted, Place(e).name)
    ensures KnownNames(env, minted, Existing(first))
  {
    LookupKeepsLast(first);
    var m := Existing(first);
    forall d | d in m
      ensures m[d].exemptionId != "" && MintedIn(env, 0, minted, Place(m[d]).name)
    {
      var i: nat :| IsLast(first, d, i) && m[d] == first[i];
      assert first[i] in first && m[d].exemptionId == ExemptionId(Place(m[d]));
    }
    forall d, f | d in m && f in m && d != f
      ensures Place(m[d]).name != Place(m[f]).name
    {
      var i: nat :| IsLast(first, d, i) && m[d] == first[i];
      var j: nat :| IsLast(first, f, j) && m[f] == first[j];
      ApartAt(first, i, j);
    }
  }

  /** What a first pass from an empty status leaves, repetitions allowed. */
  lemma {:induction false} FirstPass(env: Env, az: Azure, assignmentId: string, specs: seq<InlineSpec>)
    requires ValidEnv(env) && Fresh(env, az) && Pass(env, az, assignmentId, specs, []).value.Some?
    ensures var r := Pass(env, az, assignmentId, specs, []);
            && AllRecord(specs, r.value.value) && NamesApartAll(r.value.value) && az.minted <= r.az.minted
            && (forall e :: e in r.value.value ==> Place(e) in r.az.exemptions && Place(e) !in az.exemptions)
            && KnownNames(env, r.az.minted, Existing(r.value.value))
  {
    var r := WriteAll(env, az, assignmentId, map[], specs);
    WriteAllContent(env, az, assignmentId, map[], specs);
    WriteAllNamed(env, az, assignmentId, map[], specs);
    EntryNames(specs, r.value.value);
    ContentKeys(env, assignmentId, specs, r.value.value);
    forall e | e in r.value.value
      ensures Place(e) in r.az.exemptions && Place(e) !in az.exemptions && MintedIn(env, 0, r.az.minted, Place(e).name)
    {
      assert Place(e) in Places(r.value.value);
      assert Named(env, az.minted, r.az.minted, map[], e) && MintedIn(env, az.minted, r.az.minted, Place(e).name);
    }
    KnownAfterFirst(env, r.az.minted, r.value.value);
  }

  /** The earlier of two entries of one display name: still live after a second pass, and listed no more. */
  lemma {:induction false} EarlierLeftBehind(env: Env, az: Azure, assignmentId: string, specs: seq<InlineSpec>, first: seq<Tracked>, i: nat, j: nat)
    requires ValidEnv(env) && AllRecord(specs, first) && NamesApartAll(first) && KnownNames(env, az.minted, Existing(first))
    requires i < j < |specs| && specs[i].displayName == specs[j].displayName && Place(first[i]) in az.exemptions
    requires Pass(env, az, assignmentId, specs, first).value.Some?
    ensures var r := Pass(env, az, assignmentId, specs, first);
            Place(first[i]) in r.az.exemptions && Place(first[i]) !in Places(r.value.value)
  {
    var existing := Existing(first);
    var w := WriteAll(env, az, assignmentId, existing, specs);
    EntryNames(specs, first);
    NothingRemoved(env, w.az, first, DisplayNames(specs));
    WriteAllFrame(env, az, assignmentId, existing, specs);
    WriteAllContent(env, az, assignmentId, existing, specs);
    WriteAllNamed(env, az, assignmentId, existing, specs);
    SameDisplayNames(specs, first, w.value.value);
    assert Records(specs[i], first[i]) && Records(specs[j], first[j]);
    NoneNamedAsEarlier(env, az.minted, w.az.minted, first, w.value.value, i, j);
  }

  predicate SameNames(a: seq<Tracked>, b: seq<Tracked>) {
    |a| == |b| && forall x :: 0 <= x < |a| ==> a[x].displayName == b[x].displayName
  }

  lemma {:induction false} SameDisplayNames(specs: seq<InlineSpec>, first: seq<Tracked>, second: seq<Tracked>)
    requires AllRecord(specs, first) && AllRecord(specs, second)
    ensures SameNames(first, second)
  {
    forall x | 0 <= x < |first|
      ensures first[x].displayName == second[x].displayName
    {
      assert Records(specs[x], first[x]) && Records(specs[x], second[x]);
    }
  }

  lemma {:induction false} NoneNamedAsEarlier(env: Env, lo: nat, hi: nat, first: seq<Tracked>, second: seq<Tracked>, i: nat, j: nat)
    requires NamesApartAll(first) && SameNames(first, second) && i < j < |first| && first[i].displayName == first[j].displayName
    requires forall e :: e in second ==> Named(env, lo, hi, Existing(first), e)
    ensures Place(first[i]) !in Places(second)
  {
    forall x | 0 <= x < |second|
      ensures Place(second[x]).name != Place(first[i]).name
    {
      assert second[x] in second;
      NamedAsLast(env, lo, hi, first, i, j, x, second[x]);
    }
  }

  lemma {:induction false} LastOf(status: seq<Tracked>, x: nat) returns (l: nat)
    requires x < |status|
    ensures status[x].displayName in Existing(status) && IsLast(status, status[x].displayName, l)
    ensures Existing(status)[status[x].displayName] == status[l]
  {
    LookupKeepsLast(status);
    l :| IsLast(status, status[x].displayName, l) && Existing(status)[status[x].displayName] == status[l];
  }

  /** What is written again gets the name of the last entry of its display name, never that of an earlier one. */
  lemma {:induction false} NamedAsLast(env: Env, lo: nat, hi: nat, first: seq<Tracked>, i: nat, j: nat, x: nat, e: Tracked)
    requires NamesApartAll(first) && i < j < |first| && x < |first|
    requires first[i].displayName == first[j].displayName && e.displayName == first[x].displayName
    requires Named(env, lo, hi, Existing(first), e)
    ensures Place(e).name != Place(first[i]).name
  {
    var l := LastOf(first, x);
    LastIsNoEarlier(first, first[x].displayName, i, j, l);
    ApartAt(first, l, i);
  }

  lemma {:induction false} LastIsNoEarlier(status: seq<Tracked>, d: string, i: nat, j: nat, l: nat)
    requires i < j < |status| && status[i].displayName == status[j].displayName && IsLast(status, d, l)
    ensures l != i
  {
  }

  lemma {:induction false} ApartAt(entries: seq<Tracked>, a: nat, b: nat)
    requires NamesApartAll(entries) && a < |entries| && b < |entries| && a != b
    ensures Place(entries[a]).name != Place(entries[b]).name
  {
    assert a < b || b < a;
  }

  /**
   Two successful passes over one spec from an empty status: everything that is live now and was not before is
   listed, and all that is listed is live, exactly when the spec's display names are distinct.
   */
  lemma {:induction false} RepeatedPassExactly(env: Env, az: Azure, assignmentId: string, specs: seq<InlineSpec>)
    requires ValidEnv(env) && Fresh(env, az) && Pass(env, az, assignmentId, specs, []).value.Some?
    requires var r := Pass(env, az, assignmentId, specs, []); Pass(env, r.az, assignmentId, specs, r.value.value).value.Some?
    ensures var r := Pass(env, az, assignmentId, specs, []);
            var again := Pass(env, r.az, assignmentId, specs, r.value.value);
            again.az.exemptions.Keys == az.exemptions.Keys + Places(again.value.value) <==> Distinct(specs)
  {
    if Distinct(specs) {
      RepeatedDistinct(env, az, assignmentId, specs);
    } else {
      RepeatedTwice(env, az, assignmentId, specs);
    }
  }

  lemma {:induction false} RepeatedDistinct(env: Env, az: Azure, assignmentId: string, specs: seq<InlineSpec>)
    requires ValidEnv(env) && Fresh(env, az) && Pass(env, az, assignmentId, specs, []).value.Some? && Distinct(specs)
    requires var r := Pass(env, az, assignmentId, specs, []); Pass(env, r.az, assignmentId, specs, r.value.value).value.Some?
    ensures var r := Pass(env, az, assignmentId, specs, []);
            var again := Pass(env, r.az, assignmentId, specs, r.value.value);
            again.az.exemptions.Keys == az.exemptions.Keys + Places(again.value.value)
  {
    RunExact(env, az, [Round(assignmentId, specs)]);
    assert [Round(assignmentId, specs)][1..] == [];
    assert Coherent(env, az.minted, []);
    PassIdempotent(env, az, assignmentId, specs, []);
    ContentKeys(env, assignmentId, specs, Pass(env, az, assignmentId, specs, []).value.value);
  }

  lemma {:induction false} RepeatedTwice(env: Env, az: Azure, assignmentId: string, specs: seq<InlineSpec>)
    requires ValidEnv(env) && Fresh(env, az) && Pass(env, az, assignmentId, specs, []).value.Some? && !Distinct(specs)
    requires var r := Pass(env, az, assignmentId, specs, []); Pass(env, r.az, assignmentId, specs, r.value.value).value.Some?
    ensures var r := Pass(env, az, assignmentId, specs, []);
            var again := Pass(env, r.az, assignmentId, specs, r.value.value);
            again.az.exemptions.Keys != az.exemptions.Keys + Places(again.value.value)
  {
    var r := Pass(env, az, assignmentId, specs, []);
    var i: nat, j: nat :| i < j < |specs| && specs[i].displayName == specs[j].displayName;
    FirstPass(env, az, assignmentId, specs);
    assert r.value.value[i] in r.value.value;
    EarlierLeftBehind(env, r.az, assignmentId, specs, r.value.value, i, j);
  }

  /** The smallest input: from an empty status, two passes over two entries of one display name. */
  lemma {:induction false} DuplicateNamesLeak(env: Env, az: Azure, assignmentId: string, s: InlineSpec, t: InlineSpec)
    requires ValidEnv(env) && Fresh(env, az) && s.displayName == t.displayName && GoesThrough(env, az.calls, 3)
    ensures var r := Pass(env, az, assignmentId, [s, t], []);
            && r.value.Some?
            && var again := Pass(env, r.az, assignmentId, [s, t], r.value.value);
            && again.value.Some?
            && exists k :: k in again.az.exemptions && k !in az.exemptions && k !in Places(again.value.value)
  {
    var specs := [s, t];
    TwoWritesGoThrough(env, az, assignmentId, map[], s, t);
    var r := Pass(env, az, assignmentId, specs, []);
    assert r == WriteAll(env, az, assignmentId, map[], specs);
    FirstPass(env, az, assignmentId, specs);
    TwoWritesGoThrough(env, r.az, assignmentId, Existing(r.value.value), s, t);
    EntryNames(specs, r.value.value);
    NothingRemoved(env, WriteAll(env, r.az, assignmentId, Existing(r.value.value), specs).az, r.value.value, DisplayNames(specs));
    assert r.value.value[0] in r.value.value;
    EarlierLeftBehind(env, r.az, assignmentId, specs, r.value.value, 0, 1);
  }

  lemma {:induction false} TwoWritesGoThrough(env: Env, az: Azure, assignmentId: string, existing: map<string, Tracked>, s: InlineSpec, t: InlineSpec)
    requires GoesThrough(env, az.calls, 1)
    ensures var w := WriteAll(env, az, assignmentId, existing, [s, t]); w.value.Some? && w.az.calls == az.calls + 2
  {
    assert [s, t][1..] == [t] && [t][1..] == [];
    var r := Upserted(env, az, PreviousId(existing, s.displayName), Synthetic(s, assignmentId));
    assert WriteAll(env, r.az, assignmentId, existing, [t]).value.Some?;
    assert WriteAll(env, r.az, assignmentId, existing, [t]).az.calls == r.az.calls + 1;
  }

  lemma {:induction false} NothingRemoved(env: Env, az: Azure, previous: seq<Tracked>, desired: set<string>)
    requires forall e :: e in previous ==> e.displayName in desired
    ensures DropAll(env, az, desired, previous) == Reply(az, true)
    decreases |previous|
  {
    if previous != [] {
      assert previous[0] in previous;
      NothingRemoved(env, az, previous[1..], desired);
    }
  }
}
