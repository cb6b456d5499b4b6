/** Inline exemptions over whole runs: exactness, idempotence, and the ledger that failures cannot break. */
module ExemptionRuns {
  import opened Wrappers
  import opened Text
  import opened ResourceId
  import opened Cloud
  import opened ExemptionService
  import opened InlineExemptions
  import opened ExemptionPasses

  /** Entries still wanted keep the scope they are tracked under. */
  predicate ScopesKept(specs: seq<InlineSpec>, status: seq<Tracked>) {
    forall s, e :: s in specs && e in status && s.displayName == e.displayName ==> s.scope == e.scope
  }

  lemma {:induction false} PassKeepsFresh(env: Env, az: Azure, assignmentId: string, specs: seq<InlineSpec>, status: seq<Tracked>)
    requires ValidEnv(env) && Coherent(env, az.minted, status) && Fresh(env, az)
    ensures Fresh(env, Pass(env, az, assignmentId, specs, status).az)
  {
    ExistingFaithful(env, az.minted, status);
    WriteAllFrame(env, az, assignmentId, Existing(status), specs);
    var w := WriteAll(env, az, assignmentId, Existing(status), specs);
    FrameKeepsFresh(env, az, w.az, Existing(status));
    if w.value.Some? {
      DropAllEffect(env, w.az, DisplayNames(specs), status);
    }
  }

  lemma {:induction false} FrameKeepsFresh(env: Env, a: Azure, b: Azure, existing: map<string, Tracked>)
    requires ValidEnv(env) && Fresh(env, a) && KnownNames(env, a.minted, existing) && WriteFrame(env, a, b, existing)
    ensures Fresh(env, b)
  {
    forall k, i: nat | k in b.exemptions && i >= b.minted
      ensures k.name != env.mint(i)
    {
      if Ours(env, a.minted, b.minted, existing, k.name) {
        if d :| d in existing && Place(existing[d]).name == k.name {
          assert MintedIn(env, 0, a.minted, k.name);
        } else {
          assert MintedIn(env, a.minted, b.minted, k.name);
        }
      } else {
        assert SameAt(a.exemptions, b.exemptions, k);
      }
    }
  }

  /** The names of a new status list are those of retained entries, or were unused before. */
  lemma {:induction false} NewNames(env: Env, minted: nat, status: seq<Tracked>, entries: seq<Tracked>, hi: nat)
    requires ValidEnv(env) && Coherent(env, minted, status) && minted <= hi
    requires Apart(entries)
    requires forall e :: e in entries ==> e.exemptionId == ExemptionId(Place(e))
    requires forall e :: e in entries ==> Named(env, minted, hi, Existing(status), e)
    ensures Coherent(env, hi, entries)
    ensures forall e, t :: e in entries && t in status && Place(e).name == Place(t).name ==> e.displayName == t.displayName
  {
    ExistingFaithful(env, minted, status);
    var existing := Existing(status);
    forall e | e in entries
      ensures MintedIn(env, 0, hi, Place(e).name)
    {
      if e.displayName in existing {
        assert MintedIn(env, 0, minted, Place(existing[e.displayName]).name);
      } else {
        assert MintedIn(env, minted, hi, Place(e).name);
      }
    }
    forall e, t | e in entries && t in status && Place(e).name == Place(t).name
      ensures e.displayName == t.displayName
    {
      assert MintedIn(env, 0, minted, Place(t).name);
      assert existing[t.displayName] == t;
      assert e.displayName !in existing ==> MintedIn(env, minted, hi, Place(e).name);
    }
  }

  lemma {:induction false} EntryNames(specs: seq<InlineSpec>, entries: seq<Tracked>)
    requires AllRecord(specs, entries)
    ensures forall e :: e in entries ==> e.exemptionId == ExemptionId(Place(e)) && e.displayName in DisplayNames(specs)
  {
    forall e | e in entries
      ensures e.exemptionId == ExemptionId(Place(e)) && e.displayName in DisplayNames(specs)
    {
      var i :| 0 <= i < |entries| && entries[i] == e;
      assert Records(specs[i], entries[i]) && specs[i] in specs;
    }
  }

  /** A successful pass: what the status becomes, and Azure with the removed entries out and the rest in. */
  ghost predicate Succeeded(env: Env, az: Azure, assignmentId: string, specs: seq<InlineSpec>, status: seq<Tracked>,
                            az2: Azure, entries: seq<Tracked>) {
    && AllRecord(specs, entries) && az.minted <= az2.minted
    && Coherent(env, az2.minted, entries)
    && (forall e :: e in entries ==> Named(env, az.minted, az2.minted, Existing(status), e))
    && Places(entries) !! Gone(status, DisplayNames(specs))
    && az2.exemptions == (az.exemptions - Gone(status, DisplayNames(specs))) + Content(env, assignmentId, specs, entries)
  }

  lemma {:induction false} PassContent(env: Env, az: Azure, assignmentId: string, specs: seq<InlineSpec>, status: seq<Tracked>)
    requires ValidEnv(env) && Coherent(env, az.minted, status) && Distinct(specs)
    requires Pass(env, az, assignmentId, specs, status).value.Some?
    ensures var r := Pass(env, az, assignmentId, specs, status);
            Succeeded(env, az, assignmentId, specs, status, r.az, r.value.value)
  {
    ExistingFaithful(env, az.minted, status);
    var w := WriteAll(env, az, assignmentId, Existing(status), specs);
    WriteAllContent(env, az, assignmentId, Existing(status), specs);
    WriteAllNames(env, az, assignmentId, Existing(status), specs);
    DropAllEffect(env, w.az, DisplayNames(specs), status);
    WrittenThenDropped(env, az, assignmentId, specs, status, w.az, w.value.value,
                       DropAll(env, w.az, DisplayNames(specs), status).az);
  }

  lemma {:induction false} WrittenThenDropped(env: Env, az: Azure, assignmentId: string, specs: seq<InlineSpec>, status: seq<Tracked>,
                           az1: Azure, entries: seq<Tracked>, az2: Azure)
    requires ValidEnv(env) && Coherent(env, az.minted, status) && Distinct(specs)
    requires AllRecord(specs, entries) && az1.exemptions == az.exemptions + Content(env, assignmentId, specs, entries)
    requires az.minted <= az1.minted == az2.minted && Apart(entries)
    requires forall e :: e in entries ==> Named(env, az.minted, az1.minted, Existing(status), e)
    requires az2.exemptions == az1.exemptions - Gone(status, DisplayNames(specs))
    ensures Succeeded(env, az, assignmentId, specs, status, az2, entries)
  {
    EntryNames(specs, entries);
    NewNames(env, az.minted, status, entries, az1.minted);
    GoneElsewhere(status, specs, entries);
    ContentKeys(env, assignmentId, specs, entries);
    DropElsewhere(az.exemptions, Content(env, assignmentId, specs, entries), Gone(status, DisplayNames(specs)));
  }

  lemma {:induction false} DropElsewhere(m: map<Key, Exemption>, c: map<Key, Exemption>, gone: set<Key>)
    requires c.Keys !! gone
    ensures (m + c) - gone == (m - gone) + c
  {
  }

  lemma {:induction false} GoneElsewhere(status: seq<Tracked>, specs: seq<InlineSpec>, entries: seq<Tracked>)
    requires AllRecord(specs, entries)
    requires forall e, t :: e in entries && t in status && Place(e).name == Place(t).name ==> e.displayName == t.displayName
    ensures Places(entries) !! Gone(status, DisplayNames(specs))
  {
    EntryNames(specs, entries);
    forall e, t | e in entries && t in status && t.displayName !in DisplayNames(specs)
      ensures Place(e) != Place(t)
    {
    }
  }

  /** The exemption an inline entry asks for, in the entry's own terms. */
  predicate AsAsked(env: Env, assignmentId: string, s: InlineSpec, x: Exemption) {
    && x.displayName == s.displayName && x.category == s.category && x.assignmentId == assignmentId
    && x.description == (if s.description == "" then None else Some(s.description))
    && x.expiresOn == (if s.expiresOn == "" then None else env.time(s.expiresOn))
    && x.selectors == None
  }

  lemma {:induction false} InlineBody(env: Env, s: InlineSpec, assignmentId: string)
    ensures AsAsked(env, assignmentId, s, BodyOf(env, Synthetic(s, assignmentId)))
  {
  }

  /**
   A successful pass, entry by entry: each listed exemption records its entry's display name and scope, and is live
   at its place exactly as the entry asks, expiry included, for the given assignment.
   */
  lemma {:induction false} PassEntries(env: Env, az: Azure, assignmentId: string, specs: seq<InlineSpec>, status: seq<Tracked>)
    requires ValidEnv(env) && Coherent(env, az.minted, status) && Distinct(specs)
    requires Pass(env, az, assignmentId, specs, status).value.Some?
    ensures var r := Pass(env, az, assignmentId, specs, status);
            var entries := r.value.value;
            && |entries| == |specs|
            && forall i :: 0 <= i < |specs| ==>
                 && entries[i].displayName == specs[i].displayName && Place(entries[i]).scope == specs[i].scope
                 && Place(entries[i]) in r.az.exemptions
                 && AsAsked(env, assignmentId, specs[i], r.az.exemptions[Place(entries[i])])
  {
    PassContent(env, az, assignmentId, specs, status);
    var r := Pass(env, az, assignmentId, specs, status);
    forall i | 0 <= i < |specs|
      ensures r.value.value[i].displayName == specs[i].displayName && Place(r.value.value[i]).scope == specs[i].scope
      ensures Place(r.value.value[i]) in r.az.exemptions
      ensures AsAsked(env, assignmentId, specs[i], r.az.exemptions[Place(r.value.value[i])])
    {
      ContentAt(env, assignmentId, specs, r.value.value, i);
      InlineBody(env, specs[i], assignmentId);
      assert Records(specs[i], r.value.value[i]);
    }
  }

  lemma {:induction false} ContentAt(env: Env, id: string, specs: seq<InlineSpec>, entries: seq<Tracked>, i: nat)
    requires |specs| == |entries| && Apart(entries) && i < |specs|
    ensures Place(entries[i]) in Content(env, id, specs, entries)
    ensures Content(env, id, specs, entries)[Place(entries[i])] == BodyOf(env, Synthetic(specs[i], id))
  {
    ContentKeys(env, id, specs[1..], entries[1..]);
    if i == 0 {
      forall j | 0 <= j < |entries[1..]|
        ensures Place(entries[1..][j]) != Place(entries[0])
      {
        assert entries[1..][j] == entries[j + 1];
      }
    } else {
      assert Place(entries[i]) == Place(entries[1..][i - 1]);
      ContentAt(env, id, specs[1..], entries[1..], i - 1);
    }
  }

  /**
   Exactness of one successful pass, from a state where every tracked exemption is live: Azure ends
   with everybody else's exemptions plus exactly the new status list's, each with the body the spec
   gives, exactly when no retained entry changed its scope (the old copy would stay behind).
   */
  lemma {:induction false} PassExact(env: Env, az: Azure, assignmentId: string, specs: seq<InlineSpec>, status: seq<Tracked>)
    requires ValidEnv(env) && Coherent(env, az.minted, status) && Distinct(specs)
    requires Places(status) <= az.exemptions.Keys
    requires Pass(env, az, assignmentId, specs, status).value.Some?
    ensures var r := Pass(env, az, assignmentId, specs, status);
            && AllRecord(specs, r.value.value)
            && (r.az.exemptions == (az.exemptions - Places(status)) + Content(env, assignmentId, specs, r.value.value)
                <==> ScopesKept(specs, status))
  {
    PassContent(env, az, assignmentId, specs, status);
    var r := Pass(env, az, assignmentId, specs, status);
    SuccessExact(env, az, assignmentId, specs, status, r.az, r.value.value);
  }

  lemma {:induction false} SuccessExact(env: Env, az: Azure, assignmentId: string, specs: seq<InlineSpec>, status: seq<Tracked>,
                     az2: Azure, entries: seq<Tracked>)
    requires ValidEnv(env) && Coherent(env, az.minted, status) && Distinct(specs)
    requires Places(status) <= az.exemptions.Keys
    requires Succeeded(env, az, assignmentId, specs, status, az2, entries)
    ensures az2.exemptions == (az.exemptions - Places(status)) + Content(env, assignmentId, specs, entries)
       <==> ScopesKept(specs, status)
  {
    var gone, content := Gone(status, DisplayNames(specs)), Content(env, assignmentId, specs, entries);
    ContentKeys(env, assignmentId, specs, entries);
    if ScopesKept(specs, status) {
      RetainedRewritten(env, az.minted, az2.minted, specs, status, entries);
      DropMore(az.exemptions, content, gone, Places(status));
    } else {
      var s, t :| s in specs && t in status && s.displayName == t.displayName && s.scope != t.scope;
      LeftBehind(env, az.minted, az2.minted, specs, status, entries, s, t);
      StillThere(az.exemptions, content, gone, Places(status), Place(t));
    }
  }

  lemma {:induction false} DropMore(m: map<Key, Exemption>, c: map<Key, Exemption>, few: set<Key>, many: set<Key>)
    requires few <= many <= few + c.Keys
    ensures (m - few) + c == (m - many) + c
  {
  }

  lemma {:induction false} StillThere(m: map<Key, Exemption>, c: map<Key, Exemption>, few: set<Key>, many: set<Key>, k: Key)
    requires k in m && k !in few && k in many && k !in c
    ensures (m - few) + c != (m - many) + c
  {
    assert k in (m - few) + c && k !in (m - many) + c;
  }

  lemma {:induction false} RetainedRewritten(env: Env, lo: nat, hi: nat, specs: seq<InlineSpec>, status: seq<Tracked>, entries: seq<Tracked>)
    requires ValidEnv(env) && Coherent(env, lo, status) && AllRecord(specs, entries) && ScopesKept(specs, status)
    requires forall e :: e in entries ==> Named(env, lo, hi, Existing(status), e)
    ensures Places(status) <= Gone(status, DisplayNames(specs)) + Places(entries)
  {
    ExistingFaithful(env, lo, status);
    forall t | t in status && t.displayName in DisplayNames(specs)
      ensures Place(t) in Places(entries)
    {
      var s :| s in specs && s.displayName == t.displayName;
      var i :| 0 <= i < |specs| && specs[i] == s;
      assert Records(specs[i], entries[i]) && entries[i] in entries;
      assert Place(entries[i]) == Place(t);
    }
  }

  lemma {:induction false} LeftBehind(env: Env, lo: nat, hi: nat, specs: seq<InlineSpec>, status: seq<Tracked>, entries: seq<Tracked>,
                   s: InlineSpec, t: Tracked)
    requires ValidEnv(env) && Coherent(env, lo, status) && lo <= hi && Distinct(specs) && AllRecord(specs, entries)
    requires Apart(entries) && (forall e :: e in entries ==> e.exemptionId == ExemptionId(Place(e)))
    requires forall e :: e in entries ==> Named(env, lo, hi, Existing(status), e)
    requires s in specs && t in status && s.displayName == t.displayName && s.scope != t.scope
    ensures Place(t) !in Gone(status, DisplayNames(specs)) && Place(t) !in Places(entries)
  {
    ApartIdentifies(status);
    NewNames(env, lo, status, entries, hi);
    forall e | e in entries
      ensures Place(e) != Place(t)
    {
      var i :| 0 <= i < |entries| && entries[i] == e;
      var j :| 0 <= j < |specs| && specs[j] == s;
      assert Records(specs[i], e);
      assert e.displayName == t.displayName ==> i == j;
    }
  }

  // ---- runs of successful passes ---------------------------------------------------------------

  /** The inputs of one pass: the assignment it belongs to and the spec at that moment. */
  datatype Round = Round(assignmentId: string, specs: seq<InlineSpec>)

  function Passes(env: Env, az: Azure, status: seq<Tracked>, rounds: seq<Round>): Reply<Option<seq<Tracked>>>
    decreases |rounds|
  {
    if rounds == [] then Reply(az, Some(status))
    else
      var r := Pass(env, az, rounds[0].assignmentId, rounds[0].specs, status);
      if r.value.None? then r else Passes(env, r.az, r.value.value, rounds[1..])
  }

  predicate SameScope(a: seq<InlineSpec>, b: seq<InlineSpec>) {
    forall s, t :: s in a && t in b && s.displayName == t.displayName ==> s.scope == t.scope
  }

  /** Display names are distinct in every spec, and a name kept from one spec to the next keeps its scope. */
  predicate Stable(rounds: seq<Round>) {
    && (forall i :: 0 <= i < |rounds| ==> Distinct(rounds[i].specs))
    && (forall i :: 0 <= i < |rounds| - 1 ==> SameScope(rounds[i].specs, rounds[i + 1].specs))
  }

  /** The tracked exemptions are live, and with them taken out Azure holds exactly `foreign`. */
  ghost predicate Around(env: Env, foreign: map<Key, Exemption>, az: Azure, status: seq<Tracked>) {
    && Coherent(env, az.minted, status) && Fresh(env, az)
    && Places(status) <= az.exemptions.Keys && Places(status) !! foreign.Keys
    && az.exemptions - Places(status) == foreign
  }

  lemma {:induction false} PassStaysAround(env: Env, foreign: map<Key, Exemption>, az: Azure, status: seq<Tracked>, round: Round)
    requires ValidEnv(env) && Around(env, foreign, az, status) && Distinct(round.specs) && ScopesKept(round.specs, status)
    requires Pass(env, az, round.assignmentId, round.specs, status).value.Some?
    ensures var r := Pass(env, az, round.assignmentId, round.specs, status);
            && Around(env, foreign, r.az, r.value.value) && AllRecord(round.specs, r.value.value)
            && r.az.exemptions == foreign + Content(env, round.assignmentId, round.specs, r.value.value)
  {
    PassContent(env, az, round.assignmentId, round.specs, status);
    PassKeepsFresh(env, az, round.assignmentId, round.specs, status);
    var r := Pass(env, az, round.assignmentId, round.specs, status);
    SuccessStaysAround(env, foreign, az, status, round, r.az, r.value.value);
  }

  lemma {:induction false} SuccessStaysAround(env: Env, foreign: map<Key, Exemption>, az: Azure, status: seq<Tracked>, round: Round,
                           az2: Azure, entries: seq<Tracked>)
    requires ValidEnv(env) && Around(env, foreign, az, status) && Distinct(round.specs) && ScopesKept(round.specs, status)
    requires Succeeded(env, az, round.assignmentId, round.specs, status, az2, entries) && Fresh(env, az2)
    ensures Around(env, foreign, az2, entries)
    ensures az2.exemptions == foreign + Content(env, round.assignmentId, round.specs, entries)
  {
    SuccessExact(env, az, round.assignmentId, round.specs, status, az2, entries);
    ContentKeys(env, round.assignmentId, round.specs, entries);
    NotForeign(env, foreign, az, status, round.specs, entries, az2.minted);
    TakenBackOut(foreign, Content(env, round.assignmentId, round.specs, entries));
  }

  lemma {:induction false} TakenBackOut(m: map<Key, Exemption>, c: map<Key, Exemption>)
    requires c.Keys !! m.Keys
    ensures (m + c) - c.Keys == m
    ensures c.Keys <= (m + c).Keys
  {
  }

  lemma {:induction false} NotForeign(env: Env, foreign: map<Key, Exemption>, az: Azure, status: seq<Tracked>, specs: seq<InlineSpec>,
                   entries: seq<Tracked>, hi: nat)
    requires ValidEnv(env) && Around(env, foreign, az, status) && ScopesKept(specs, status) && AllRecord(specs, entries)
    requires forall e :: e in entries ==> Named(env, az.minted, hi, Existing(status), e)
    ensures Places(entries) !! foreign.Keys
  {
    ExistingFaithful(env, az.minted, status);
    forall k | k in Places(entries)
      ensures k !in foreign
    {
      var e :| e in entries && Place(e) == k;
      var i :| 0 <= i < |entries| && entries[i] == e;
      assert Records(specs[i], entries[i]) && specs[i] in specs;
      if e.displayName in Existing(status) {
        assert k == Place(Existing(status)[e.displayName]);
      } else {
        assert MintedIn(env, az.minted, hi, k.name);
      }
    }
  }

  lemma {:induction false} PassesStayAround(env: Env, foreign: map<Key, Exemption>, az: Azure, status: seq<Tracked>,
                                            rounds: seq<Round>)
    requires ValidEnv(env) && Around(env, foreign, az, status) && Stable(rounds) && rounds != []
    requires ScopesKept(rounds[0].specs, status)
    requires Passes(env, az, status, rounds).value.Some?
    ensures var r := Passes(env, az, status, rounds);
            var last := rounds[|rounds| - 1];
            && AllRecord(last.specs, r.value.value) && Around(env, foreign, r.az, r.value.value)
            && r.az.exemptions == foreign + Content(env, last.assignmentId, last.specs, r.value.value)
    decreases |rounds|
  {
    PassStaysAround(env, foreign, az, status, rounds[0]);
    var r := Pass(env, az, rounds[0].assignmentId, rounds[0].specs, status);
    if |rounds| > 1 {
      NextKeepsScopes(rounds[0].specs, rounds[1].specs, r.value.value);
      assert rounds[1..][|rounds| - 2] == rounds[|rounds| - 1];
      PassesStayAround(env, foreign, r.az, r.value.value, rounds[1..]);
    } else {
      assert rounds[1..] == [];
    }
  }

  lemma {:induction false} NextKeepsScopes(specs: seq<InlineSpec>, next: seq<InlineSpec>, entries: seq<Tracked>)
    requires AllRecord(specs, entries) && SameScope(specs, next)
    ensures ScopesKept(next, entries)
  {
    forall s, e | s in next && e in entries && s.displayName == e.displayName
      ensures s.scope == e.scope
    {
      var i :| 0 <= i < |entries| && entries[i] == e;
      assert Records(specs[i], entries[i]) && specs[i] in specs;
    }
  }

  /**
   Over any run of successful passes with arbitrary edits of the spec between them: the status list
   mirrors the last spec entry by entry, no two entries share a place, and Azure holds exactly what
   it held before the first pass plus the tracked exemptions with the content the last spec gives.
   */
  lemma {:induction false} RunExact(env: Env, az: Azure, rounds: seq<Round>)
    requires ValidEnv(env) && Fresh(env, az) && Stable(rounds) && rounds != []
    requires Passes(env, az, [], rounds).value.Some?
    ensures var r := Passes(env, az, [], rounds);
            var last := rounds[|rounds| - 1];
            && AllRecord(last.specs, r.value.value) && Apart(r.value.value)
            && Places(r.value.value) !! az.exemptions.Keys
            && r.az.exemptions == az.exemptions + Content(env, last.assignmentId, last.specs, r.value.value)
  {
    assert az.exemptions - Places([]) == az.exemptions;
    PassesStayAround(env, az.exemptions, az, [], rounds);
  }

  // ---- repeating a pass --------------------------------------------------------------------------

  lemma {:induction false} NoNewNames(env: Env, az: Azure, assignmentId: string, existing: map<string, Tracked>,
                                      specs: seq<InlineSpec>)
    requires ValidEnv(env) && KnownNames(env, az.minted, existing)
    requires forall s :: s in specs ==> s.displayName in existing
    requires WriteAll(env, az, assignmentId, existing, specs).value.Some?
    ensures WriteAll(env, az, assignmentId, existing, specs).az.minted == az.minted
    decreases |specs|
  {
    if specs != [] {
      var r := Upserted(env, az, PreviousId(existing, specs[0].displayName), Synthetic(specs[0], assignmentId));
      UpsertedWrote(env, az, PreviousId(existing, specs[0].displayName), Synthetic(specs[0], assignmentId));
      assert specs[0] in specs;
      NoNewNames(env, r.az, assignmentId, existing, specs[1..]);
    }
  }

  lemma {:induction false} SameEntries(env: Env, lo: nat, hi: nat, specs: seq<InlineSpec>, first: seq<Tracked>, second: seq<Tracked>)
    requires Coherent(env, lo, first) && AllRecord(specs, first) && AllRecord(specs, second)
    requires forall e :: e in second ==> Named(env, lo, hi, Existing(first), e)
    ensures second == first
  {
    ExistingFaithful(env, lo, first);
    forall i | 0 <= i < |specs|
      ensures second[i] == first[i]
    {
      assert Records(specs[i], first[i]) && Records(specs[i], second[i]);
      assert first[i] in first && second[i] in second;
    }
  }

  /** Repeating a successful pass on an unchanged spec changes neither Azure's exemptions nor the status, and mints nothing. */
  lemma {:induction false} PassIdempotent(env: Env, az: Azure, assignmentId: string, specs: seq<InlineSpec>, status: seq<Tracked>)
    requires ValidEnv(env) && Coherent(env, az.minted, status) && Distinct(specs)
    requires Pass(env, az, assignmentId, specs, status).value.Some?
    requires var r := Pass(env, az, assignmentId, specs, status);
             Pass(env, r.az, assignmentId, specs, r.value.value).value.Some?
    ensures var r := Pass(env, az, assignmentId, specs, status);
            var again := Pass(env, r.az, assignmentId, specs, r.value.value);
            && again.az.exemptions == r.az.exemptions && again.value == r.value && again.az.minted == r.az.minted
  {
    PassContent(env, az, assignmentId, specs, status);
    var r := Pass(env, az, assignmentId, specs, status);
    RepeatChangesNothing(env, az, r.az, assignmentId, specs, status, r.value.value);
  }

  lemma {:induction false} RepeatChangesNothing(env: Env, az: Azure, az1: Azure, assignmentId: string, specs: seq<InlineSpec>,
                             status: seq<Tracked>, first: seq<Tracked>)
    requires ValidEnv(env) && Distinct(specs) && Succeeded(env, az, assignmentId, specs, status, az1, first)
    requires Pass(env, az1, assignmentId, specs, first).value.Some?
    ensures var again := Pass(env, az1, assignmentId, specs, first);
            again.az.exemptions == az1.exemptions && again.value == Some(first) && again.az.minted == az1.minted
  {
    PassContent(env, az1, assignmentId, specs, first);
    SecondMintsNothing(env, az1, assignmentId, specs, first);
    var again := Pass(env, az1, assignmentId, specs, first);
    RewrittenSame(env, az, az1, again.az, assignmentId, specs, status, first, again.value.value);
  }

  lemma {:induction false} RewrittenSame(env: Env, az: Azure, az1: Azure, az2: Azure, assignmentId: string, specs: seq<InlineSpec>,
                      status: seq<Tracked>, first: seq<Tracked>, second: seq<Tracked>)
    requires Succeeded(env, az, assignmentId, specs, status, az1, first)
    requires Succeeded(env, az1, assignmentId, specs, first, az2, second)
    ensures second == first && az2.exemptions == az1.exemptions
  {
    SameEntries(env, az1.minted, az2.minted, specs, first, second);
    EntryNames(specs, first);
    assert Gone(first, DisplayNames(specs)) == {};
    var content := Content(env, assignmentId, specs, first);
    assert az1.exemptions - {} == az1.exemptions;
    assert az1.exemptions + content == az1.exemptions;
  }

  lemma {:induction false} SecondMintsNothing(env: Env, az: Azure, assignmentId: string, specs: seq<InlineSpec>, status: seq<Tracked>)
    requires ValidEnv(env) && Coherent(env, az.minted, status) && AllRecord(specs, status)
    requires Pass(env, az, assignmentId, specs, status).value.Some?
    ensures Pass(env, az, assignmentId, specs, status).az.minted == az.minted
  {
    ExistingFaithful(env, az.minted, status);
    forall s | s in specs
      ensures s.displayName in Existing(status)
    {
      var i :| 0 <= i < |specs| && specs[i] == s;
      assert Records(specs[i], status[i]) && status[i] in status;
    }
    NoNewNames(env, az, assignmentId, Existing(status), specs);
    DropAllEffect(env, WriteAll(env, az, assignmentId, Existing(status), specs).az, DisplayNames(specs), status);
  }

  /** An emptied spec list empties the status list and deletes exactly the tracked exemptions. */
  lemma {:induction false} EmptiedSpec(env: Env, az: Azure, assignmentId: string, status: seq<Tracked>)
    requires ValidEnv(env) && Coherent(env, az.minted, status)
    requires Pass(env, az, assignmentId, [], status).value.Some?
    ensures var r := Pass(env, az, assignmentId, [], status);
            r.value == Some([]) && r.az.exemptions == az.exemptions - Places(status)
  {
    PassContent(env, az, assignmentId, [], status);
    assert Gone(status, DisplayNames([])) == Places(status);
    assert Content(env, assignmentId, [], []) == map[];
  }

  // ---- the ledger: passes that may fail at any call ------------------------------------------------

  /** Every exemption delete in the log comes after a put of the same scope and name. */
  predicate DropsFollowPuts(log: seq<Call>) {
    forall i :: 0 <= i < |log| && log[i].DropExemption? ==> PutExemption(log[i].key) in log[..i]
  }

  /**
   What holds between passes, whatever failed: tracked exemptions were put by the operator, deletes
   only ever hit such places, and a tracked exemption is live unless its display name is in
   `dropped`, the names that have been absent from some spec since the list was last replaced.
   */
  ghost predicate Ledger(env: Env, az: Azure, status: seq<Tracked>, dropped: set<string>) {
    && Coherent(env, az.minted, status)
    && DropsFollowPuts(az.log)
    && (forall e :: e in status ==> PutExemption(Place(e)) in az.log)
    && (forall e :: e in status && e.displayName !in dropped ==> Place(e) in az.exemptions)
  }

  function Absent(status: seq<Tracked>, specs: seq<InlineSpec>): set<string> {
    set e | e in status && e.displayName !in DisplayNames(specs) :: e.displayName
  }

  lemma {:induction false} PutsKeepLog(before: seq<Call>, after: seq<Call>)
    requires DropsFollowPuts(before) && PutsOnly(before, after)
    ensures DropsFollowPuts(after)
  {
    forall i | 0 <= i < |after| && after[i].DropExemption?
      ensures PutExemption(after[i].key) in after[..i]
    {
      assert i < |before| && before[i] == after[..|before|][i];
      assert before[..i] == after[..i];
    }
  }

  lemma {:induction false} DropsKeepLog(before: seq<Call>, after: seq<Call>, keys: set<Key>)
    requires DropsFollowPuts(before) && DropsOnly(before, after, keys)
    requires forall k :: k in keys ==> PutExemption(k) in before
    ensures DropsFollowPuts(after)
  {
    forall i | 0 <= i < |after| && after[i].DropExemption?
      ensures PutExemption(after[i].key) in after[..i]
    {
      if i < |before| {
        assert before[i] == after[..|before|][i];
        assert before[..i] == after[..i];
      } else {
        assert after[i].key in keys;
        var j :| 0 <= j < |before| && before[j] == PutExemption(after[i].key);
        assert after[..i][j] == after[..|before|][j];
      }
    }
  }

  lemma {:induction false} InExtension(before: seq<Call>, after: seq<Call>, call: Call)
    requires LogExtends(before, after) && call in before
    ensures call in after
  {
    assert call in after[..|before|];
  }

  lemma {:induction false} CoherentLater(env: Env, lo: nat, hi: nat, status: seq<Tracked>)
    requires lo <= hi && Coherent(env, lo, status)
    ensures Coherent(env, hi, status)
  {
    forall e | e in status
      ensures MintedIn(env, 0, hi, Place(e).name)
    {
      assert MintedIn(env, 0, lo, Place(e).name);
    }
  }

  /** The write loop keeps the ledger of the old status list. */
  lemma {:induction false} WritesKeepLedger(env: Env, az: Azure, assignmentId: string, specs: seq<InlineSpec>, status: seq<Tracked>,
                         dropped: set<string>)
    requires ValidEnv(env) && Ledger(env, az, status, dropped)
    ensures Ledger(env, WriteAll(env, az, assignmentId, Existing(status), specs).az, status, dropped)
  {
    ExistingFaithful(env, az.minted, status);
    WriteAllFrame(env, az, assignmentId, Existing(status), specs);
    var w := WriteAll(env, az, assignmentId, Existing(status), specs).az;
    PutsKeepLog(az.log, w.log);
    CoherentLater(env, az.minted, w.minted, status);
    forall e | e in status
      ensures PutExemption(Place(e)) in w.log
    {
      InExtension(az.log, w.log, PutExemption(Place(e)));
    }
  }

  /** A delete loop over the old list keeps the ledger of any list that shares no place with what it deletes. */
  lemma {:induction false} DropsKeepLedger(env: Env, az: Azure, az2: Azure, gone: set<Key>, status: seq<Tracked>, dropped: set<string>)
    requires Ledger(env, az, status, dropped) && DropFrame(az, az2, gone)
    requires forall k :: k in gone ==> PutExemption(k) in az.log
    requires forall e :: e in status && e.displayName !in dropped ==> Place(e) !in gone
    ensures Ledger(env, az2, status, dropped)
  {
    DropsKeepLog(az.log, az2.log, gone);
    forall e | e in status
      ensures PutExemption(Place(e)) in az2.log
    {
      InExtension(az.log, az2.log, PutExemption(Place(e)));
    }
    forall e | e in status && e.displayName !in dropped
      ensures Place(e) in az2.exemptions
    {
      assert Place(e) in az.exemptions - gone;
      assert Place(e) in az2.exemptions - gone;
    }
  }

  lemma {:induction false} RetainedNotGone(env: Env, minted: nat, status: seq<Tracked>, specs: seq<InlineSpec>)
    requires Coherent(env, minted, status)
    ensures forall e :: e in status && e.displayName !in Absent(status, specs) ==> Place(e) !in Gone(status, DisplayNames(specs))
  {
    ApartIdentifies(status);
  }

  /** The delete loop keeps the ledger of the old list, with the absent names added to `dropped`. */
  lemma {:induction false} OldListAfterDrops(env: Env, az: Azure, specs: seq<InlineSpec>, status: seq<Tracked>, dropped: set<string>)
    requires Ledger(env, az, status, dropped)
    ensures Ledger(env, DropAll(env, az, DisplayNames(specs), status).az, status, dropped + Absent(status, specs))
  {
    DropAllEffect(env, az, DisplayNames(specs), status);
    RetainedNotGone(env, az.minted, status, specs);
    DropsKeepLedger(env, az, DropAll(env, az, DisplayNames(specs), status).az, Gone(status, DisplayNames(specs)), status,
                    dropped + Absent(status, specs));
  }

  /** And that of the new list, which shares no place with what it deletes. */
  lemma {:induction false} NewListAfterDrops(env: Env, az: Azure, specs: seq<InlineSpec>, status: seq<Tracked>, dropped: set<string>,
                          entries: seq<Tracked>)
    requires Ledger(env, az, status, dropped) && Ledger(env, az, entries, {})
    requires Places(entries) !! Gone(status, DisplayNames(specs))
    ensures Ledger(env, DropAll(env, az, DisplayNames(specs), status).az, entries, {})
  {
    DropAllEffect(env, az, DisplayNames(specs), status);
    assert forall e :: e in entries ==> Place(e) in Places(entries);
    DropsKeepLedger(env, az, DropAll(env, az, DisplayNames(specs), status).az, Gone(status, DisplayNames(specs)), entries, {});
  }

  lemma {:induction false} LedgerWider(env: Env, az: Azure, status: seq<Tracked>, few: set<string>, many: set<string>)
    requires Ledger(env, az, status, few) && few <= many
    ensures Ledger(env, az, status, many)
  {
  }

  /**
   A pass that may fail at any call keeps the ledger: of the old list (when it fails, or when the new
   list is never stored) with the absent names added to `dropped`, and of the new list with none.
   */
  lemma {:induction false} PassKeepsLedger(env: Env, az: Azure, assignmentId: string, specs: seq<InlineSpec>, status: seq<Tracked>,
                        dropped: set<string>)
    requires ValidEnv(env) && Ledger(env, az, status, dropped) && Distinct(specs)
    ensures var r := Pass(env, az, assignmentId, specs, status);
            && Ledger(env, r.az, status, dropped + Absent(status, specs))
            && (r.value.Some? ==> Ledger(env, r.az, r.value.value, {}))
  {
    PassKeepsOldList(env, az, assignmentId, specs, status, dropped);
    if Pass(env, az, assignmentId, specs, status).value.Some? {
      PassKeepsNewList(env, az, assignmentId, specs, status, dropped);
    }
  }

  lemma {:induction false} PassKeepsOldList(env: Env, az: Azure, assignmentId: string, specs: seq<InlineSpec>, status: seq<Tracked>,
                         dropped: set<string>)
    requires ValidEnv(env) && Ledger(env, az, status, dropped)
    ensures Ledger(env, Pass(env, az, assignmentId, specs, status).az, status, dropped + Absent(status, specs))
  {
    WritesKeepLedger(env, az, assignmentId, specs, status, dropped);
    var w := WriteAll(env, az, assignmentId, Existing(status), specs);
    if w.value.Some? {
      OldListAfterDrops(env, w.az, specs, status, dropped);
    } else {
      LedgerWider(env, w.az, status, dropped, dropped + Absent(status, specs));
    }
  }

  lemma {:induction false} PassKeepsNewList(env: Env, az: Azure, assignmentId: string, specs: seq<InlineSpec>, status: seq<Tracked>,
                         dropped: set<string>)
    requires ValidEnv(env) && Ledger(env, az, status, dropped) && Distinct(specs)
    requires Pass(env, az, assignmentId, specs, status).value.Some?
    ensures var r := Pass(env, az, assignmentId, specs, status); Ledger(env, r.az, r.value.value, {})
  {
    WritesKeepLedger(env, az, assignmentId, specs, status, dropped);
    var w := WriteAll(env, az, assignmentId, Existing(status), specs);
    NewListLedger(env, az, assignmentId, specs, status, w, dropped);
    PassContent(env, az, assignmentId, specs, status);
    NewListAfterDrops(env, w.az, specs, status, dropped, w.value.value);
  }

  lemma {:induction false} NewListLedger(env: Env, az: Azure, assignmentId: string, specs: seq<InlineSpec>, status: seq<Tracked>,
                      w: Reply<Option<seq<Tracked>>>, dropped: set<string>)
    requires ValidEnv(env) && Ledger(env, az, status, dropped) && Distinct(specs)
    requires w == WriteAll(env, az, assignmentId, Existing(status), specs) && w.value.Some?
    ensures Ledger(env, w.az, w.value.value, {})
  {
    var entries := w.value.value;
    WritesKeepLedger(env, az, assignmentId, specs, status, dropped);
    ExistingFaithful(env, az.minted, status);
    WriteAllContent(env, az, assignmentId, Existing(status), specs);
    WriteAllNames(env, az, assignmentId, Existing(status), specs);
    WriteAllLogged(env, az, assignmentId, Existing(status), specs);
    EntryNames(specs, entries);
    NewNames(env, az.minted, status, entries, w.az.minted);
    ContentKeys(env, assignmentId, specs, entries);
    assert forall e :: e in entries ==> Place(e) in Places(entries);
  }
}
