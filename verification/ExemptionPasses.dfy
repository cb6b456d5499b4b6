/** What one pass over the inline exemptions does to Azure and to the status list. */
module ExemptionPasses {
  import opened Wrappers
  import opened Text
  import opened ResourceId
  import opened Cloud
  import opened ExemptionService
  import opened InlineExemptions

  /** Where a tracked exemption is found again: its stored scope and the last segment of its ID. */
  function Place(e: Tracked): Key {
    Key(e.scope, LastSegment(e.exemptionId))
  }

  function Places(status: seq<Tracked>): set<Key> {
    set e | e in status :: Place(e)
  }

  ghost predicate MintedIn(env: Env, lo: nat, hi: nat, name: string) {
    exists i: nat :: lo <= i < hi && name == env.mint(i)
  }

  /** No two entries share a display name, nor a resource name. */
  predicate Apart(status: seq<Tracked>) {
    forall i, j :: 0 <= i < j < |status| ==>
      status[i].displayName != status[j].displayName && Place(status[i]).name != Place(status[j]).name
  }

  lemma {:induction false} ApartIdentifies(status: seq<Tracked>)
    requires Apart(status)
    ensures forall a, b :: a in status && b in status && Place(a).name == Place(b).name ==> a == b
    ensures forall a, b :: a in status && b in status && a.displayName == b.displayName ==> a == b
  {
    forall a, b | a in status && b in status && (Place(a).name == Place(b).name || a.displayName == b.displayName)
      ensures a == b
    {
      var i :| 0 <= i < |status| && status[i] == a;
      var j :| 0 <= j < |status| && status[j] == b;
      assert !(i < j) && !(j < i);
    }
  }

  /** A status list as the operator itself builds it. */
  ghost predicate Coherent(env: Env, minted: nat, status: seq<Tracked>) {
    && Apart(status)
    && (forall e :: e in status ==> e.exemptionId == ExemptionId(Place(e)) && MintedIn(env, 0, minted, Place(e).name))
  }

  predicate Distinct(specs: seq<InlineSpec>) {
    forall i, j :: 0 <= i < j < |specs| ==> specs[i].displayName != specs[j].displayName
  }

  /** Entry `e` records exemption `s`, under the ID of the place it was written to. */
  predicate Records(s: InlineSpec, e: Tracked) {
    e.displayName == s.displayName && e.scope == s.scope && e.exemptionId == ExemptionId(Place(e))
  }

  predicate AllRecord(specs: seq<InlineSpec>, entries: seq<Tracked>) {
    |specs| == |entries| && forall i :: 0 <= i < |specs| ==> Records(specs[i], entries[i])
  }

  /** What Azure holds for these entries: each exemption at its place, with the body the spec gives. */
  function Content(env: Env, assignmentId: string, specs: seq<InlineSpec>, entries: seq<Tracked>): map<Key, Exemption>
    requires |specs| == |entries|
  {
    if specs == [] then map[]
    else map[Place(entries[0]) := BodyOf(env, Synthetic(specs[0], assignmentId))]
         + Content(env, assignmentId, specs[1..], entries[1..])
  }

  lemma {:induction false} ContentKeys(env: Env, assignmentId: string, specs: seq<InlineSpec>, entries: seq<Tracked>)
    requires |specs| == |entries|
    ensures Content(env, assignmentId, specs, entries).Keys == Places(entries)
  {
    if specs != [] {
      ContentKeys(env, assignmentId, specs[1..], entries[1..]);
      assert entries == [entries[0]] + entries[1..];
      assert Places(entries) == {Place(entries[0])} + Places(entries[1..]);
    }
  }

  // ---- the write loop ------------------------------------------------------------------------

  /** Existing IDs hold usable names: different for different display names, minted before `minted`. */
  ghost predicate KnownNames(env: Env, minted: nat, existing: map<string, Tracked>) {
    && (forall d :: d in existing ==> existing[d].exemptionId != "" && MintedIn(env, 0, minted, Place(existing[d]).name))
    && (forall d, f :: d in existing && f in existing && d != f ==> Place(existing[d]).name != Place(existing[f]).name)
  }

  /** The name an entry got: the one it had, or one minted between `lo` and `hi`. */
  ghost predicate Named(env: Env, lo: nat, hi: nat, existing: map<string, Tracked>, e: Tracked) {
    if e.displayName in existing then Place(e).name == Place(existing[e.displayName]).name
    else MintedIn(env, lo, hi, Place(e).name)
  }

  /** What one write of the loop does, `r` being its outcome. */
  ghost predicate OneWrite(env: Env, az: Azure, assignmentId: string, existing: map<string, Tracked>, s: InlineSpec,
                           r: Reply<Option<string>>) {
    && az.minted <= r.az.minted && KnownNames(env, r.az.minted, existing)
    && r.az.assignments == az.assignments && r.az.grants == az.grants
    && (match r.value
        case None => r.az.exemptions == az.exemptions && r.az.log == az.log
        case Some(id) =>
          var e := Tracked(s.displayName, id, s.scope);
          && Records(s, e) && Named(env, az.minted, r.az.minted, existing, e)
          && r.az.exemptions == az.exemptions[Place(e) := BodyOf(env, Synthetic(s, assignmentId))]
          && r.az.log == az.log + [PutExemption(Place(e))])
  }

  lemma {:induction false} FirstWrite(env: Env, az: Azure, assignmentId: string, existing: map<string, Tracked>, s: InlineSpec)
    requires ValidEnv(env) && KnownNames(env, az.minted, existing)
    ensures OneWrite(env, az, assignmentId, existing, s,
                     Upserted(env, az, PreviousId(existing, s.displayName), Synthetic(s, assignmentId)))
  {
    var id, spec := PreviousId(existing, s.displayName), Synthetic(s, assignmentId);
    UpsertedWrote(env, az, id, spec);
    WroteOne(env, az, assignmentId, existing, s, Upserted(env, az, id, spec));
  }

  lemma {:induction false} WroteOne(env: Env, az: Azure, assignmentId: string, existing: map<string, Tracked>, s: InlineSpec,
                 r: Reply<Option<string>>)
    requires ValidEnv(env) && KnownNames(env, az.minted, existing)
    requires Wrote(env, az, PreviousId(existing, s.displayName), Synthetic(s, assignmentId), r)
    ensures OneWrite(env, az, assignmentId, existing, s, r)
  {
    MintedMonotone(env, az.minted, r.az.minted, existing);
    if s.displayName !in existing {
      assert MintedIn(env, az.minted, az.minted + 1, env.mint(az.minted));
    }
  }

  lemma {:induction false} MintedMonotone(env: Env, lo: nat, hi: nat, existing: map<string, Tracked>)
    requires lo <= hi && KnownNames(env, lo, existing)
    ensures KnownNames(env, hi, existing)
  {
    forall d | d in existing
      ensures MintedIn(env, 0, hi, Place(existing[d]).name)
    {
      assert MintedIn(env, 0, lo, Place(existing[d]).name);
    }
  }

  /** A successful write loop starts with one successful write. */
  lemma {:induction false} Unrolled(env: Env, az: Azure, assignmentId: string, existing: map<string, Tracked>, specs: seq<InlineSpec>)
    returns (az1: Azure, head: Tracked, rest: Reply<Option<seq<Tracked>>>)
    requires ValidEnv(env) && KnownNames(env, az.minted, existing) && specs != []
    requires WriteAll(env, az, assignmentId, existing, specs).value.Some?
    ensures rest == WriteAll(env, az1, assignmentId, existing, specs[1..]) && rest.value.Some?
    ensures WriteAll(env, az, assignmentId, existing, specs) == Reply(rest.az, Some([head] + rest.value.value))
    ensures az.minted <= az1.minted && KnownNames(env, az1.minted, existing)
    ensures Records(specs[0], head) && Named(env, az.minted, az1.minted, existing, head)
    ensures az1.exemptions == az.exemptions[Place(head) := BodyOf(env, Synthetic(specs[0], assignmentId))]
    ensures PutExemption(Place(head)) in az1.log
  {
    FirstWrite(env, az, assignmentId, existing, specs[0]);
    var r := Upserted(env, az, PreviousId(existing, specs[0].displayName), Synthetic(specs[0], assignmentId));
    az1 := r.az;
    head := Tracked(specs[0].displayName, r.value.value, specs[0].scope);
    rest := WriteAll(env, az1, assignmentId, existing, specs[1..]);
  }

  lemma {:induction false} PutThenAdd(m: map<Key, Exemption>, k: Key, v: Exemption, c: map<Key, Exemption>)
    ensures m[k := v] + c == m + (map[k := v] + c)
  {
  }

  /** A successful write loop: one entry per spec, and exactly their content added to Azure. */
  lemma {:induction false} WriteAllContent(env: Env, az: Azure, assignmentId: string, existing: map<string, Tracked>,
                                           specs: seq<InlineSpec>)
    requires ValidEnv(env) && KnownNames(env, az.minted, existing)
    requires WriteAll(env, az, assignmentId, existing, specs).value.Some?
    ensures var r := WriteAll(env, az, assignmentId, existing, specs);
            && AllRecord(specs, r.value.value)
            && r.az.exemptions == az.exemptions + Content(env, assignmentId, specs, r.value.value)
    decreases |specs|
  {
    if specs != [] {
      var az1, head, rest := Unrolled(env, az, assignmentId, existing, specs);
      WriteAllContent(env, az1, assignmentId, existing, specs[1..]);
      ContentCons(env, assignmentId, specs, head, rest.value.value);
      PutThenAdd(az.exemptions, Place(head), BodyOf(env, Synthetic(specs[0], assignmentId)),
                 Content(env, assignmentId, specs[1..], rest.value.value));
    }
  }

  lemma {:induction false} ContentCons(env: Env, assignmentId: string, specs: seq<InlineSpec>, head: Tracked, tail: seq<Tracked>)
    requires specs != [] && Records(specs[0], head) && AllRecord(specs[1..], tail)
    ensures AllRecord(specs, [head] + tail)
    ensures Content(env, assignmentId, specs, [head] + tail)
         == map[Place(head) := BodyOf(env, Synthetic(specs[0], assignmentId))] + Content(env, assignmentId, specs[1..], tail)
  {
    assert ([head] + tail)[1..] == tail;
    forall i | 0 <= i < |specs|
      ensures Records(specs[i], ([head] + tail)[i])
    {
      if i > 0 {
        assert Records(specs[1..][i - 1], tail[i - 1]);
      }
    }
  }

  /** The names given out by a successful write loop never clash. */
  lemma {:induction false} WriteAllNames(env: Env, az: Azure, assignmentId: string, existing: map<string, Tracked>,
                                         specs: seq<InlineSpec>)
    requires ValidEnv(env) && KnownNames(env, az.minted, existing) && Distinct(specs)
    requires WriteAll(env, az, assignmentId, existing, specs).value.Some?
    ensures var r := WriteAll(env, az, assignmentId, existing, specs);
            && az.minted <= r.az.minted
            && (forall e :: e in r.value.value ==> Named(env, az.minted, r.az.minted, existing, e))
            && Apart(r.value.value)
    decreases |specs|
  {
    if specs != [] {
      var az1, head, rest := Unrolled(env, az, assignmentId, existing, specs);
      WriteAllNames(env, az1, assignmentId, existing, specs[1..]);
      WriteAllContent(env, az1, assignmentId, existing, specs[1..]);
      var tail := rest.value.value;
      forall i | 0 <= i < |tail|
        ensures Named(env, az.minted, rest.az.minted, existing, tail[i])
        ensures head.displayName != tail[i].displayName && Place(head).name != Place(tail[i]).name
      {
        assert tail[i] in tail && Records(specs[1..][i], tail[i]) && specs[1..][i] == specs[i + 1];
        NamesApart(env, az.minted, az1.minted, rest.az.minted, existing, head, tail[i]);
      }
      NamedWider(env, az.minted, az1.minted, rest.az.minted, existing, head);
      ApartCons(head, tail);
    }
  }

  lemma {:induction false} NamedWider(env: Env, lo: nat, mid: nat, hi: nat, existing: map<string, Tracked>, e: Tracked)
    requires lo <= mid <= hi && Named(env, lo, mid, existing, e)
    ensures Named(env, lo, hi, existing, e)
  {
    if e.displayName !in existing {
      assert MintedIn(env, lo, mid, Place(e).name);
    }
  }

  lemma {:induction false} ApartCons(head: Tracked, tail: seq<Tracked>)
    requires Apart(tail)
    requires forall i :: 0 <= i < |tail| ==> head.displayName != tail[i].displayName && Place(head).name != Place(tail[i]).name
    ensures Apart([head] + tail)
  {
    var all := [head] + tail;
    assert all[0] == head && all[1..] == tail;
    assert forall j :: 1 <= j < |all| ==> all[j] == tail[j - 1];
  }

  lemma {:induction false} NamesApart(env: Env, lo: nat, mid: nat, hi: nat, existing: map<string, Tracked>, a: Tracked, b: Tracked)
    requires ValidEnv(env) && KnownNames(env, lo, existing) && lo <= mid <= hi
    requires Named(env, lo, mid, existing, a) && Named(env, mid, hi, existing, b)
    requires a.displayName != b.displayName
    ensures Place(a).name != Place(b).name
    ensures Named(env, lo, hi, existing, b)
  {
    if b.displayName in existing {
      assert MintedIn(env, 0, lo, Place(existing[b.displayName]).name);
    } else {
      assert MintedIn(env, mid, hi, Place(b).name);
    }
    if a.displayName in existing {
      assert MintedIn(env, 0, lo, Place(existing[a.displayName]).name);
    } else {
      assert MintedIn(env, lo, mid, Place(a).name);
    }
  }

  /** The lookup of a coherent status list is faithful. */
  lemma {:induction false} ExistingFaithful(env: Env, minted: nat, status: seq<Tracked>)
    requires Coherent(env, minted, status)
    ensures forall e :: e in status ==> e.displayName in Existing(status) && Existing(status)[e.displayName] == e
    ensures forall d :: d in Existing(status) ==> Existing(status)[d] in status && Existing(status)[d].displayName == d
    ensures KnownNames(env, minted, Existing(status))
  {
    if status != [] {
      var front, last := status[..|status| - 1], status[|status| - 1];
      assert status == front + [last];
      ExistingFaithful(env, minted, front);
      var m := Existing(status);
      forall d | d in m
        ensures m[d] in status && m[d].displayName == d
      {
      }
      forall e | e in status
        ensures e.displayName in m && m[e.displayName] == e
      {
      }
      forall d | d in m
        ensures m[d].exemptionId != "" && MintedIn(env, 0, minted, Place(m[d]).name)
      {
        assert m[d].exemptionId == ExemptionId(Place(m[d]));
      }
      forall d, f | d in m && f in m && d != f
        ensures Place(m[d]).name != Place(m[f]).name
      {
        var i :| 0 <= i < |status| && status[i] == m[d];
        var j :| 0 <= j < |status| && status[j] == m[f];
        assert i < j || j < i;
      }
    }
  }

  // ---- frames: what a pass leaves alone, even when it fails ------------------------------------

  /** A name the write loop may write to. */
  ghost predicate Ours(env: Env, lo: nat, hi: nat, existing: map<string, Tracked>, name: string) {
    MintedIn(env, lo, hi, name) || exists d :: d in existing && Place(existing[d]).name == name
  }

  predicate SameAt(a: map<Key, Exemption>, b: map<Key, Exemption>, k: Key) {
    (k in a <==> k in b) && (k in a ==> k in b ==> a[k] == b[k])
  }

  predicate LogExtends(before: seq<Call>, after: seq<Call>) {
    |before| <= |after| && after[..|before|] == before
  }

  predicate PutsOnly(before: seq<Call>, after: seq<Call>) {
    LogExtends(before, after) && forall i :: |before| <= i < |after| ==> after[i].PutExemption?
  }

  ghost predicate WriteFrame(env: Env, az: Azure, az2: Azure, existing: map<string, Tracked>) {
    && az2.assignments == az.assignments && az2.grants == az.grants && az.minted <= az2.minted
    && az.exemptions.Keys <= az2.exemptions.Keys
    && (forall k: Key :: !Ours(env, az.minted, az2.minted, existing, k.name) ==> SameAt(az.exemptions, az2.exemptions, k))
    && PutsOnly(az.log, az2.log)
  }

  lemma {:induction false} WriteFrameTransitive(env: Env, a: Azure, b: Azure, c: Azure, existing: map<string, Tracked>)
    requires WriteFrame(env, a, b, existing) && WriteFrame(env, b, c, existing)
    ensures WriteFrame(env, a, c, existing)
  {
    forall k: Key | !Ours(env, a.minted, c.minted, existing, k.name)
      ensures SameAt(a.exemptions, c.exemptions, k)
    {
      OursWider(env, a.minted, a.minted, b.minted, c.minted, existing, k.name);
      OursWider(env, a.minted, b.minted, c.minted, c.minted, existing, k.name);
      assert SameAt(a.exemptions, b.exemptions, k) && SameAt(b.exemptions, c.exemptions, k);
    }
    assert c.log[..|a.log|] == c.log[..|b.log|][..|a.log|];
    forall i | |a.log| <= i < |c.log|
      ensures c.log[i].PutExemption?
    {
      if i < |b.log| {
        assert c.log[i] == c.log[..|b.log|][i];
      }
    }
  }

  lemma {:induction false} OursWider(env: Env, lo: nat, from: nat, to: nat, hi: nat, existing: map<string, Tracked>, name: string)
    requires lo <= from <= to <= hi
    ensures Ours(env, from, to, existing, name) ==> Ours(env, lo, hi, existing, name)
  {
    if MintedIn(env, from, to, name) {
      assert MintedIn(env, lo, hi, name);
    }
  }

  lemma {:induction false} FirstWriteFrame(env: Env, az: Azure, assignmentId: string, existing: map<string, Tracked>, s: InlineSpec)
    requires ValidEnv(env) && KnownNames(env, az.minted, existing)
    ensures WriteFrame(env, az, Upserted(env, az, PreviousId(existing, s.displayName), Synthetic(s, assignmentId)).az, existing)
  {
    FirstWrite(env, az, assignmentId, existing, s);
    var r := Upserted(env, az, PreviousId(existing, s.displayName), Synthetic(s, assignmentId));
    if r.value.Some? {
      OnePutFrame(env, az, r.az, existing, Tracked(s.displayName, r.value.value, s.scope),
                  BodyOf(env, Synthetic(s, assignmentId)));
    }
  }

  lemma {:induction false} OnePutFrame(env: Env, a: Azure, b: Azure, existing: map<string, Tracked>, e: Tracked, body: Exemption)
    requires b.assignments == a.assignments && b.grants == a.grants && a.minted <= b.minted
    requires b.exemptions == a.exemptions[Place(e) := body] && b.log == a.log + [PutExemption(Place(e))]
    requires Named(env, a.minted, b.minted, existing, e)
    ensures WriteFrame(env, a, b, existing)
  {
    assert Ours(env, a.minted, b.minted, existing, Place(e).name);
  }

  /** The write loop touches nothing but exemptions under its own names, and deletes none. */
  lemma {:induction false} WriteAllFrame(env: Env, az: Azure, assignmentId: string, existing: map<string, Tracked>,
                                         specs: seq<InlineSpec>)
    requires ValidEnv(env) && KnownNames(env, az.minted, existing)
    ensures WriteFrame(env, az, WriteAll(env, az, assignmentId, existing, specs).az, existing)
    decreases |specs|
  {
    if specs != [] {
      FirstWrite(env, az, assignmentId, existing, specs[0]);
      FirstWriteFrame(env, az, assignmentId, existing, specs[0]);
      var r := Upserted(env, az, PreviousId(existing, specs[0].displayName), Synthetic(specs[0], assignmentId));
      if r.value.Some? {
        WriteAllFrame(env, r.az, assignmentId, existing, specs[1..]);
        WriteFrameTransitive(env, az, r.az, WriteAll(env, r.az, assignmentId, existing, specs[1..]).az, existing);
      }
    }
  }

  /** Every entry a successful write loop returns was put by that loop. */
  lemma {:induction false} WriteAllLogged(env: Env, az: Azure, assignmentId: string, existing: map<string, Tracked>,
                                          specs: seq<InlineSpec>)
    requires ValidEnv(env) && KnownNames(env, az.minted, existing)
    requires WriteAll(env, az, assignmentId, existing, specs).value.Some?
    ensures var r := WriteAll(env, az, assignmentId, existing, specs);
            forall e :: e in r.value.value ==> PutExemption(Place(e)) in r.az.log
    decreases |specs|
  {
    if specs != [] {
      var az1, head, rest := Unrolled(env, az, assignmentId, existing, specs);
      WriteAllLogged(env, az1, assignmentId, existing, specs[1..]);
      WriteAllFrame(env, az1, assignmentId, existing, specs[1..]);
      assert PutExemption(Place(head)) in rest.az.log[..|az1.log|];
    }
  }

  // ---- the delete loop -------------------------------------------------------------------------

  /** The places of the entries whose display name is no longer desired. */
  function Gone(previous: seq<Tracked>, desired: set<string>): set<Key> {
    set e | e in previous && e.displayName !in desired :: Place(e)
  }

  predicate DropsOnly(before: seq<Call>, after: seq<Call>, keys: set<Key>) {
    LogExtends(before, after) && forall i :: |before| <= i < |after| ==> after[i].DropExemption? && after[i].key in keys
  }

  /** Deleting only some of `keys`, and nothing else. */
  predicate DropFrame(az: Azure, az2: Azure, keys: set<Key>) {
    && az2.assignments == az.assignments && az2.grants == az.grants && az2.minted == az.minted
    && az2.exemptions - keys == az.exemptions - keys
    && az2.exemptions.Keys <= az.exemptions.Keys
    && DropsOnly(az.log, az2.log, keys)
  }

  lemma {:induction false} DropFrameTransitive(a: Azure, b: Azure, c: Azure, keys: set<Key>)
    requires DropFrame(a, b, keys) && DropFrame(b, c, keys)
    ensures DropFrame(a, c, keys)
  {
    assert c.log[..|a.log|] == c.log[..|b.log|][..|a.log|];
    forall i | |a.log| <= i < |c.log|
      ensures c.log[i].DropExemption? && c.log[i].key in keys
    {
      if i < |b.log| {
        assert c.log[i] == c.log[..|b.log|][i];
      }
    }
  }

  lemma {:induction false} DropFrameWider(a: Azure, b: Azure, few: set<Key>, many: set<Key>)
    requires DropFrame(a, b, few) && few <= many
    ensures DropFrame(a, b, many)
  {
    assert b.exemptions - many == (b.exemptions - few) - many;
    assert a.exemptions - many == (a.exemptions - few) - many;
  }

  lemma {:induction false} DroppedOne(env: Env, az: Azure, e: Tracked, all: set<Key>)
    requires Place(e) in all
    ensures DropFrame(az, Removed(env, az, e.scope, e.exemptionId).az, all)
  {
  }

  lemma {:induction false} DropAllEffect(env: Env, az: Azure, desired: set<string>, previous: seq<Tracked>)
    ensures var d := DropAll(env, az, desired, previous);
            && DropFrame(az, d.az, Gone(previous, desired))
            && (d.value ==> d.az.exemptions == az.exemptions - Gone(previous, desired))
    decreases |previous|
  {
    if previous != [] {
      var e, tail := previous[0], previous[1..];
      assert previous == [e] + tail;
      var all := Gone(previous, desired);
      if e.displayName in desired {
        DropAllEffect(env, az, desired, tail);
        assert all == Gone(tail, desired);
      } else {
        assert all == {Place(e)} + Gone(tail, desired);
        var r := Removed(env, az, e.scope, e.exemptionId);
        DroppedOne(env, az, e, all);
        if r.value {
          DropAllEffect(env, r.az, desired, tail);
          var d := DropAll(env, r.az, desired, tail);
          DropFrameWider(r.az, d.az, Gone(tail, desired), all);
          DropFrameTransitive(az, r.az, d.az, all);
          assert (az.exemptions - {Place(e)}) - Gone(tail, desired) == az.exemptions - all;
        }
      }
    }
  }

  /** The entries whose display names left the spec, in order. */
  function Leavers(previous: seq<Tracked>, desired: set<string>): seq<Tracked> {
    if previous == [] then [] else (if previous[0].displayName in desired then [] else [previous[0]]) + Leavers(previous[1..], desired)
  }

  function Drops(entries: seq<Tracked>): seq<Call> {
    seq(|entries|, i requires 0 <= i < |entries| => DropExemption(Place(entries[i])))
  }

  lemma {:induction false} LeaversCons(previous: seq<Tracked>, desired: set<string>)
    requires previous != []
    ensures var rest := Leavers(previous[1..], desired);
            Leavers(previous, desired) == if previous[0].displayName in desired then rest else [previous[0]] + rest
  {
  }

  /** From `az` on, the first `n` of these deletions went through in order, and `n` are all unless the next call fails. */
  predicate Dropped(env: Env, az: Azure, gone: seq<Tracked>, n: nat, d: Reply<bool>) {
    && n <= |gone| && (d.value <==> n == |gone|) && d.az.log == az.log + Drops(gone[..n])
    && (forall i :: az.calls <= i < az.calls + n ==> !env.fails(i)) && (n < |gone| ==> env.fails(az.calls + n))
  }

  lemma {:induction false} OneMoreDrop(env: Env, az: Azure, mid: Azure, e: Tracked, rest: seq<Tracked>, m: nat, d: Reply<bool>)
    requires !env.fails(az.calls) && mid.calls == az.calls + 1 && mid.log == az.log + [DropExemption(Place(e))]
    requires Dropped(env, mid, rest, m, d)
    ensures Dropped(env, az, [e] + rest, m + 1, d)
  {
    assert ([e] + rest)[..m + 1] == [e] + rest[..m];
    assert Drops([e] + rest[..m]) == [DropExemption(Place(e))] + Drops(rest[..m]);
    Onward(az.log, DropExemption(Place(e)), Drops(rest[..m]));
  }

  /**
   What each attempt does, call by call: it deletes the leavers in order up to the first failing call, and succeeds exactly
   when none fails.
   */
  lemma {:induction false} DropsInOrder(env: Env, az: Azure, desired: set<string>, previous: seq<Tracked>) returns (n: nat)
    ensures Dropped(env, az, Leavers(previous, desired), n, DropAll(env, az, desired, previous))
    decreases |previous|
  {
    if previous != [] {
      var e, tail := previous[0], previous[1..];
      LeaversCons(previous, desired);
      if e.displayName in desired {
        n := DropsInOrder(env, az, desired, tail);
        return;
      }
      var r := Removed(env, az, e.scope, e.exemptionId);
      if r.value {
        var m := DropsInOrder(env, r.az, desired, tail);
        OneMoreDrop(env, az, r.az, e, Leavers(tail, desired), m, DropAll(env, r.az, desired, tail));
        return m + 1;
      }
    }
    assert az.log + [] == az.log;
    n := 0;
  }
}
