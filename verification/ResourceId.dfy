/**
 Azure resource IDs: how they are printed, and the two ways the operator reads them back
 (the last path segment, and the keyword scan of the import-ID parsers).
 */
module ResourceId {
  import opened Wrappers
  import opened Text

  /** Where a policy assignment, an exemption or a role assignment lives. */
  datatype Key = Key(scope: string, name: string)

  /** Where a definition or an initiative lives; `group == ""` is the client's subscription. */
  datatype Address = Address(group: string, name: string)

  const ASSIGNMENTS := "policyAssignments"
  const EXEMPTIONS := "policyExemptions"
  const SUBSCRIPTIONS := "subscriptions"
  const PROVIDERS := "providers"
  const MANAGEMENT := "Microsoft.Management"
  const MANAGEMENT_GROUPS := "managementGroups"
  const AUTHORIZATION := "Microsoft.Authorization"

  // The same words in lower case, as case-blind comparisons use them.
  const FOLDED_ASSIGNMENTS := "policyassignments"
  const FOLDED_PROVIDERS := "providers"
  const FOLDED_AUTHORIZATION := "microsoft.authorization"
  const FOLDED_GROUPS := "managementgroups"

  lemma {:induction false} FoldedWords()
    ensures Fold(ASSIGNMENTS) == FOLDED_ASSIGNMENTS && Fold(PROVIDERS) == FOLDED_PROVIDERS
    ensures Fold(AUTHORIZATION) == FOLDED_AUTHORIZATION && Fold(MANAGEMENT_GROUPS) == FOLDED_GROUPS
  {
    FoldedAssignments();
    FoldedAuthorization();
    FoldedGroups();
  }

  lemma {:induction false} FoldedAssignments()
    ensures Fold(ASSIGNMENTS) == FOLDED_ASSIGNMENTS && Fold(PROVIDERS) == FOLDED_PROVIDERS
  {
  }

  lemma {:induction false} FoldedAuthorization()
    ensures Fold(AUTHORIZATION) == FOLDED_AUTHORIZATION
  {
  }

  lemma {:induction false} FoldedGroups()
    ensures Fold(MANAGEMENT_GROUPS) == FOLDED_GROUPS
  {
  }

  /** The path above a resource's name. */
  function Folder(kind: string, scope: string): string {
    scope + "/" + PROVIDERS + "/" + AUTHORIZATION + "/" + kind
  }

  function Print(kind: string, key: Key): (id: string)
    ensures id != ""
  {
    Folder(kind, key.scope) + "/" + key.name
  }

  function AssignmentId(key: Key): string {
    Print(ASSIGNMENTS, key)
  }

  function ExemptionId(key: Key): string {
    Print(EXEMPTIONS, key)
  }

  lemma {:induction false} PrintLastSegment(kind: string, key: Key)
    requires NoSlash(key.name)
    ensures LastSegment(Print(kind, key)) == key.name
  {
    LastSegmentOfPath(Folder(kind, key.scope), key.name);
  }

  /** `id` names a resource of this kind directly under `scope`, in some letter case. */
  predicate Under(kind: string, scope: string, id: string) {
    EqualFold(id, Print(kind, Key(scope, LastSegment(id))))
  }

  lemma {:induction false} FoldPrint(kind: string, scope: string, name: string)
    ensures Fold(Print(kind, Key(scope, name)))
         == Fold(Folder(kind, scope) + "/") + Fold(name)
  {
    FoldConcat(Folder(kind, scope) + "/", name);
  }

  /**
   Whether an ID lies under a scope does not depend on its letter case, and re-printing its last
   segment under the scope changes at most letter case.
   */
  lemma {:induction false} UnderIsCaseBlind(kind: string, scope: string, a: string, b: string)
    requires EqualFold(a, b)
    requires Under(kind, scope, a)
    ensures Under(kind, scope, b)
    ensures EqualFold(Print(kind, Key(scope, LastSegment(b))), a)
  {
    EqualFoldLastSegment(a, b);
    FoldPrint(kind, scope, LastSegment(a));
    FoldPrint(kind, scope, LastSegment(b));
  }

  /**
   The scope and name a full assignment ID addresses when it is fetched by ID: everything before
   the provider keywords, whose letter case Azure ignores, and the last segment.
   */
  function KeyOfAssignmentId(id: string): Option<Key> {
    KeyOfSegments(Split(id), FOLDED_PROVIDERS, FOLDED_AUTHORIZATION, FOLDED_ASSIGNMENTS)
  }

  function KeyOfSegments(parts: seq<string>, p: string, q: string, r: string): Option<Key> {
    var n := |parts|;
    if n >= 5 && Fold(parts[n - 4]) == p && Fold(parts[n - 3]) == q && Fold(parts[n - 2]) == r then
      Some(Key(Join(parts[..n - 4]), parts[n - 1]))
    else
      None
  }

  /** Reading a printed ID back gives the key it was printed from. */
  lemma {:induction false} KeyOfPrinted(key: Key)
    requires NoSlash(key.name)
    ensures KeyOfAssignmentId(AssignmentId(key)) == Some(key)
  {
    FoldedWords();
    SplitFive(key.scope, PROVIDERS, AUTHORIZATION, ASSIGNMENTS, key.name);
    KeyOfFive(Split(key.scope), PROVIDERS, AUTHORIZATION, ASSIGNMENTS, key.name);
  }

  lemma {:induction false} KeyOfFive(front: seq<string>, p: string, q: string, r: string, name: string)
    requires |front| >= 1
    ensures KeyOfSegments(front + [p, q, r, name], Fold(p), Fold(q), Fold(r)) == Some(Key(Join(front), name))
  {
    var parts := front + [p, q, r, name];
    assert parts[..|parts| - 4] == front;
  }

  lemma {:induction false} SplitFive(a: string, p: string, q: string, r: string, s: string)
    requires NoSlash(p) && NoSlash(q) && NoSlash(r) && NoSlash(s)
    ensures Split(a + "/" + p + "/" + q + "/" + r + "/" + s) == Split(a) + [p, q, r, s]
  {
    SplitLast(a + "/" + p + "/" + q + "/" + r, s);
    SplitLast(a + "/" + p + "/" + q, r);
    SplitLast(a + "/" + p, q);
    SplitLast(a, p);
  }

  lemma {:induction false} SplitLast(path: string, name: string)
    requires NoSlash(name)
    ensures Split(path + "/" + name) == Split(path) + [name]
  {
    SplitConcat(path, name);
    SplitNoSlash(name);
  }

  /** An ID that reads as a key is, but for the letter case of its keywords, the one printed for that key. */
  lemma {:induction false} KeyedIsPrinted(id: string, key: Key)
    requires KeyOfAssignmentId(id) == Some(key)
    ensures key.name == LastSegment(id) && EqualFold(id, AssignmentId(key))
  {
    var parts := Split(id);
    var n := |parts|;
    var front := parts[..n - 4];
    assert parts == front + [parts[n - 4], parts[n - 3], parts[n - 2], parts[n - 1]];
    JoinFive(front, parts[n - 4], parts[n - 3], parts[n - 2], parts[n - 1]);
    FoldedWords();
    FoldFive(key.scope, parts[n - 4], parts[n - 3], parts[n - 2], key.name);
    FoldFive(key.scope, PROVIDERS, AUTHORIZATION, ASSIGNMENTS, key.name);
  }

  lemma {:induction false} JoinFive(front: seq<string>, p: string, q: string, r: string, name: string)
    requires |front| >= 1
    ensures Join(front + [p, q, r, name]) == Join(front) + "/" + p + "/" + q + "/" + r + "/" + name
  {
    JoinLast(front, p);
    JoinLast(front + [p], q);
    JoinLast(front + [p] + [q], r);
    JoinLast(front + [p] + [q] + [r], name);
    assert front + [p] + [q] + [r] + [name] == front + [p, q, r, name];
  }

  lemma {:induction false} JoinLast(front: seq<string>, last: string)
    requires |front| >= 1
    ensures Join(front + [last]) == Join(front) + "/" + last
  {
    JoinAppend(front, [last]);
  }

  lemma {:induction false} FoldFive(a: string, p: string, q: string, r: string, name: string)
    ensures Fold(a + "/" + p + "/" + q + "/" + r + "/" + name)
         == Fold(a) + "/" + Fold(p) + "/" + Fold(q) + "/" + Fold(r) + "/" + Fold(name)
  {
    FoldLast(a + "/" + p + "/" + q + "/" + r, name);
    FoldLast(a + "/" + p + "/" + q, r);
    FoldLast(a + "/" + p, q);
    FoldLast(a, p);
  }

  lemma {:induction false} FoldLast(path: string, last: string)
    ensures Fold(path + "/" + last) == Fold(path) + "/" + Fold(last)
  {
    assert Fold("/") == "/";
    FoldConcat(path + "/", last);
    FoldConcat(path, "/");
  }

  /** Printed under two scopes, one name gives IDs equal but for letter case exactly when the scopes are. */
  lemma {:induction false} PrintedScopes(a: string, b: string, name: string)
    ensures EqualFold(AssignmentId(Key(a, name)), AssignmentId(Key(b, name))) <==> EqualFold(a, b)
  {
    ScopesCancel(a, b, PROVIDERS, AUTHORIZATION, ASSIGNMENTS, name);
  }

  lemma {:induction false} ScopesCancel(a: string, b: string, p: string, q: string, r: string, name: string)
    ensures EqualFold(a + "/" + p + "/" + q + "/" + r + "/" + name, b + "/" + p + "/" + q + "/" + r + "/" + name)
       <==> EqualFold(a, b)
  {
    FoldFive(a, p, q, r, name);
    FoldFive(b, p, q, r, name);
    TailsCancel(Fold(a), Fold(b), Fold(p), Fold(q), Fold(r), Fold(name));
  }

  lemma {:induction false} TailsCancel(a: string, b: string, p: string, q: string, r: string, name: string)
    ensures a + "/" + p + "/" + q + "/" + r + "/" + name == b + "/" + p + "/" + q + "/" + r + "/" + name <==> a == b
  {
    OneTail(a, p, q, r, name);
    OneTail(b, p, q, r, name);
    SameTail(a, b, "/" + p + "/" + q + "/" + r + "/" + name);
  }

  lemma {:induction false} OneTail(a: string, p: string, q: string, r: string, name: string)
    ensures a + "/" + p + "/" + q + "/" + r + "/" + name == a + ("/" + p + "/" + q + "/" + r + "/" + name)
  {
  }

  lemma {:induction false} SameTail(a: string, b: string, tail: string)
    ensures a + tail == b + tail <==> a == b
  {
    if a + tail == b + tail {
      assert |a| == |b|;
      assert a == (a + tail)[..|a|] && b == (b + tail)[..|b|];
    }
  }

  /** The ID of an assignment with its keywords in lower case, as exports write it. */
  function LowerCaseId(key: Key): string {
    key.scope + "/" + FOLDED_PROVIDERS + "/" + FOLDED_AUTHORIZATION + "/" + FOLDED_ASSIGNMENTS + "/" + key.name
  }

  lemma {:induction false} LowerCaseIdReads(key: Key)
    requires NoSlash(key.name)
    ensures KeyOfAssignmentId(LowerCaseId(key)) == Some(key) && NamesKind(FOLDED_ASSIGNMENTS, LowerCaseId(key))
    ensures EqualFold(LowerCaseId(key), AssignmentId(key)) && LowerCaseId(key) != AssignmentId(key)
  {
    FoldedTwice();
    SplitFive(key.scope, FOLDED_PROVIDERS, FOLDED_AUTHORIZATION, FOLDED_ASSIGNMENTS, key.name);
    KeyOfFive(Split(key.scope), FOLDED_PROVIDERS, FOLDED_AUTHORIZATION, FOLDED_ASSIGNMENTS, key.name);
    KeyedIsPrinted(LowerCaseId(key), key);
    KeyedNamesKind(LowerCaseId(key));
    assert FOLDED_AUTHORIZATION[0] != AUTHORIZATION[0];
    PathsDiffer(key.scope, PROVIDERS, FOLDED_AUTHORIZATION, FOLDED_ASSIGNMENTS, AUTHORIZATION, ASSIGNMENTS, key.name);
  }

  lemma {:induction false} PathsDiffer(a: string, p: string, q: string, r: string, q2: string, r2: string, name: string)
    requires q != "" && q2 != "" && q[0] != q2[0]
    ensures a + "/" + p + "/" + q + "/" + r + "/" + name != a + "/" + p + "/" + q2 + "/" + r2 + "/" + name
  {
    var i := |a + "/" + p + "/"|;
    assert (a + "/" + p + "/" + q + "/" + r + "/" + name)[i] == q[0];
    assert (a + "/" + p + "/" + q2 + "/" + r2 + "/" + name)[i] == q2[0];
  }

  lemma {:induction false} FoldedTwice()
    ensures Fold(FOLDED_PROVIDERS) == FOLDED_PROVIDERS && Fold(FOLDED_AUTHORIZATION) == FOLDED_AUTHORIZATION
    ensures Fold(FOLDED_ASSIGNMENTS) == FOLDED_ASSIGNMENTS
    ensures NoSlash(FOLDED_PROVIDERS) && NoSlash(FOLDED_AUTHORIZATION) && NoSlash(FOLDED_ASSIGNMENTS)
  {
  }

  /** An ID that reads as a key passes the kind guard of import. */
  lemma {:induction false} KeyedNamesKind(id: string)
    requires KeyOfAssignmentId(id).Some?
    ensures NamesKind(FOLDED_ASSIGNMENTS, id)
  {
    var parts := Split(id);
    var n := |parts|;
    assert parts == parts[..n - 2] + [parts[n - 2], parts[n - 1]];
    PathNamesKind(FOLDED_ASSIGNMENTS, parts[..n - 2], parts[n - 2], parts[n - 1]);
  }

  // ---- definitions and initiatives ---------------------------------------------------------

  /** The segments of the ID Azure returns for a definition or initiative, in any keyword casing. */
  datatype Casing = Casing(subscriptions: string, providers: string, management: string, groups: string,
                           provider: string, kind: string)

  /** The casing of the IDs Azure returns itself. */
  function Canonical(kind: string): Casing {
    Casing(SUBSCRIPTIONS, PROVIDERS, MANAGEMENT, MANAGEMENT_GROUPS, AUTHORIZATION, kind)
  }

  predicate Slashless(c: Casing) {
    && NoSlash(c.subscriptions) && NoSlash(c.providers) && NoSlash(c.management)
    && NoSlash(c.groups) && NoSlash(c.provider) && NoSlash(c.kind)
  }

  predicate CasingOf(c: Casing, kind: string) {
    && Slashless(c)
    && EqualFold(c.subscriptions, SUBSCRIPTIONS) && EqualFold(c.providers, PROVIDERS)
    && EqualFold(c.management, MANAGEMENT) && EqualFold(c.groups, MANAGEMENT_GROUPS)
    && EqualFold(c.provider, AUTHORIZATION) && EqualFold(c.kind, kind)
  }

  function Segments(c: Casing, subscription: string, a: Address): (parts: seq<string>)
    ensures |parts| >= 1
  {
    if a.group == "" then
      ["", c.subscriptions, subscription, c.providers, c.provider, c.kind, a.name]
    else
      ["", c.providers, c.management, c.groups, a.group, c.providers, c.provider, c.kind, a.name]
  }

  function DocumentId(c: Casing, subscription: string, a: Address): (id: string)
    ensures id != ""
  {
    Join(Segments(c, subscription, a))
  }

  lemma {:induction false} SplitDocumentId(c: Casing, subscription: string, a: Address)
    requires Slashless(c)
    requires NoSlash(subscription) && NoSlash(a.group) && NoSlash(a.name)
    ensures Split(DocumentId(c, subscription, a)) == Segments(c, subscription, a)
    ensures LastSegment(DocumentId(c, subscription, a)) == a.name
  {
    var parts := Segments(c, subscription, a);
    assert NoSlash("");
    assert AllNoSlash(parts);
    SplitJoin(parts);
  }

  /** Two casings give the same ID exactly when they agree on every segment of it. */
  lemma {:induction false} DocumentIdSegments(c: Casing, d: Casing, subscription: string, a: Address)
    requires Slashless(c) && Slashless(d)
    requires NoSlash(subscription) && NoSlash(a.group) && NoSlash(a.name)
    ensures DocumentId(c, subscription, a) == DocumentId(d, subscription, a)
       <==> Segments(c, subscription, a) == Segments(d, subscription, a)
  {
    SplitDocumentId(c, subscription, a);
    SplitDocumentId(d, subscription, a);
  }

  /** And IDs equal but for letter case whenever they agree up to letter case. */
  lemma {:induction false} DocumentIdFolds(c: Casing, d: Casing, kind: string, subscription: string, a: Address)
    requires CasingOf(c, kind) && CasingOf(d, kind)
    ensures EqualFold(DocumentId(c, subscription, a), DocumentId(d, subscription, a))
  {
    var p, q := Segments(c, subscription, a), Segments(d, subscription, a);
    FoldJoin(p);
    FoldJoin(q);
    SegmentsFold(c, d, subscription, a);
  }

  lemma {:induction false} SegmentsFold(c: Casing, d: Casing, subscription: string, a: Address)
    requires EqualFold(c.subscriptions, d.subscriptions) && EqualFold(c.providers, d.providers) && EqualFold(c.management, d.management)
    requires EqualFold(c.groups, d.groups) && EqualFold(c.provider, d.provider) && EqualFold(c.kind, d.kind)
    ensures FoldAll(Segments(c, subscription, a)) == FoldAll(Segments(d, subscription, a))
  {
    var p, q := Segments(c, subscription, a), Segments(d, subscription, a);
    assert forall i :: 0 <= i < |p| ==> Fold(p[i]) == Fold(q[i]);
  }

  lemma {:induction false} FoldJoin(parts: seq<string>)
    ensures Fold(Join(parts)) == Join(FoldAll(parts))
  {
    if |parts| == 0 {
      assert Fold("") == "";
    } else if |parts| > 1 {
      FoldJoin(parts[1..]);
      FoldLast(parts[0], Join(parts[1..]));
      assert FoldAll(parts)[1..] == FoldAll(parts[1..]);
    }
  }

  /** The two kinds of document, each with its own keyword. */
  datatype DocumentKind = Definition | Initiative {
    function Word(): string {
      if Definition? then "policyDefinitions" else "policySetDefinitions"
    }

    function Folded(): (w: string)
      ensures w != "" && NoSlash(w)
    {
      if Definition? then "policydefinitions" else "policysetdefinitions"
    }
  }

  lemma {:induction false} FoldedKind(kind: DocumentKind)
    ensures Fold(kind.Word()) == kind.Folded()
  {
    if kind.Definition? {
      assert Fold("policyDefinitions") == "policydefinitions";
    } else {
      assert Fold("policySetDefinitions") == "policysetdefinitions";
    }
  }

  /** The scan's stopping test: a segment that is the keyword but for case, with another one after it. */
  predicate Followed(parts: seq<string>, keyword: string, i: int) {
    0 <= i && i + 1 < |parts| && Fold(parts[i]) == keyword
  }

  /** What the scan finds: the segment after the first followed keyword. */
  function AfterKeyword(parts: seq<string>, keyword: string, from: nat): Option<string>
    requires from <= |parts|
    decreases |parts| - from
  {
    if from == |parts| then None
    else if Followed(parts, keyword, from) then Some(parts[from + 1])
    else AfterKeyword(parts, keyword, from + 1)
  }

  /** parseDefinitionImportID / parseInitiativeImportID: the name and management group in an ID. */
  function Parsed(kind: DocumentKind, id: string): Option<Address> {
    var parts := Split(id);
    match AfterKeyword(parts, kind.Folded(), 0)
    case None => None
    case Some(name) => Some(Address(AfterKeyword(parts, FOLDED_GROUPS, 0).GetOr(""), name))
  }

  method ParseImportId(kind: DocumentKind, id: string) returns (name: string, group: string, ok: bool)
    ensures ok == Parsed(kind, id).Some?
    ensures if ok then Parsed(kind, id) == Some(Address(group, name)) else name == group == ""
  {
    name, group := "", "";
    var parts := Split(id);
    for i := 0 to |parts|
      invariant name == group == ""
      invariant AfterKeyword(parts, kind.Folded(), 0) == AfterKeyword(parts, kind.Folded(), i)
    {
      if Fold(parts[i]) == kind.Folded() && i + 1 < |parts| {
        name := parts[i + 1];
        for j := 0 to |parts|
          invariant group == ""
          invariant AfterKeyword(parts, FOLDED_GROUPS, 0) == AfterKeyword(parts, FOLDED_GROUPS, j)
        {
          if Fold(parts[j]) == FOLDED_GROUPS && j + 1 < |parts| {
            group := parts[j + 1];
            break;
          }
        }
        return name, group, true;
      }
    }
    return "", "", false;
  }

  /** The scan, said without the scan: the first followed keyword decides. */
  lemma {:induction false} AfterKeywordIsFirst(parts: seq<string>, keyword: string, from: nat, i: nat)
    requires from <= i
    requires Followed(parts, keyword, i)
    requires forall j :: from <= j < i ==> !Followed(parts, keyword, j)
    ensures AfterKeyword(parts, keyword, from) == Some(parts[i + 1])
    decreases i - from
  {
    if from < i {
      assert !Followed(parts, keyword, from);
      AfterKeywordIsFirst(parts, keyword, from + 1, i);
    }
  }

  lemma {:induction false} AfterKeywordAbsent(parts: seq<string>, keyword: string, from: nat)
    requires from <= |parts|
    requires forall j :: from <= j < |parts| ==> !Followed(parts, keyword, j)
    ensures AfterKeyword(parts, keyword, from) == None
    decreases |parts| - from
  {
    if from < |parts| {
      assert !Followed(parts, keyword, from);
      AfterKeywordAbsent(parts, keyword, from + 1);
    }
  }

  /** No fixed segment of an ID is mistaken for a keyword: they differ in length or first letter. */
  lemma {:induction false} FoldApart(a: string, b: string, folded: string)
    requires EqualFold(a, b) && b != "" && folded != ""
    requires |b| != |folded| || FoldChar(b[0]) != folded[0]
    ensures a != "" && Fold(a) != folded
  {
    assert Fold(b)[0] == FoldChar(b[0]);
  }

  lemma {:induction false} FixedSegments(c: Casing, kind: DocumentKind)
    requires CasingOf(c, kind.Word())
    ensures Fold("") != kind.Folded() && Fold(c.subscriptions) != kind.Folded() && Fold(c.providers) != kind.Folded()
    ensures Fold(c.management) != kind.Folded() && Fold(c.groups) != kind.Folded() && Fold(c.provider) != kind.Folded()
    ensures Fold("") != FOLDED_GROUPS && Fold(c.subscriptions) != FOLDED_GROUPS
    ensures Fold(c.providers) != FOLDED_GROUPS && Fold(c.management) != FOLDED_GROUPS
    ensures Fold(c.provider) != FOLDED_GROUPS && Fold(c.kind) != FOLDED_GROUPS
    ensures Fold(c.kind) == kind.Folded() && Fold(c.groups) == FOLDED_GROUPS && c.providers != ""
  {
    FoldedKind(kind);
    FoldedGroups();
    var word := kind.Folded();
    FoldApart(c.subscriptions, SUBSCRIPTIONS, word);
    FoldApart(c.providers, PROVIDERS, word);
    FoldApart(c.management, MANAGEMENT, word);
    FoldApart(c.groups, MANAGEMENT_GROUPS, word);
    FoldApart(c.provider, AUTHORIZATION, word);
    FoldApart(c.subscriptions, SUBSCRIPTIONS, FOLDED_GROUPS);
    FoldApart(c.providers, PROVIDERS, FOLDED_GROUPS);
    FoldApart(c.management, MANAGEMENT, FOLDED_GROUPS);
    FoldApart(c.provider, AUTHORIZATION, FOLDED_GROUPS);
    FoldApart(c.kind, kind.Word(), FOLDED_GROUPS);
  }

  /** The scan over the nine segments of a management-group ID. */
  lemma {:induction false} ScanGroup(c: Casing, kind: string, groups: string, a: Address)
    requires Fold("") != kind && Fold(c.providers) != kind && Fold(c.management) != kind
    requires Fold(c.groups) != kind && Fold(c.provider) != kind && Fold(c.kind) == kind
    requires Fold("") != groups && Fold(c.providers) != groups && Fold(c.management) != groups
    requires Fold(c.groups) == groups && a.group != ""
    ensures AfterKeyword(Segments(c, "", a), groups, 0) == Some(a.group)
    ensures AfterKeyword(Segments(c, "", a), kind, 0) == Some(if Fold(a.group) == kind then c.providers else a.name)
  {
    var parts := Segments(c, "", a);
    AfterKeywordIsFirst(parts, groups, 0, 3);
    AfterKeywordIsFirst(parts, kind, 0, if Fold(a.group) == kind then 4 else 7);
  }

  /** The scan over the seven segments of a subscription ID. */
  lemma {:induction false} ScanSubscription(c: Casing, kind: string, groups: string, subscription: string, a: Address)
    requires Fold("") != kind && Fold(c.subscriptions) != kind && Fold(c.providers) != kind
    requires Fold(c.provider) != kind && Fold(c.kind) == kind
    requires Fold("") != groups && Fold(c.subscriptions) != groups && Fold(c.providers) != groups
    requires Fold(c.provider) != groups && Fold(c.kind) != groups && a.group == ""
    ensures AfterKeyword(Segments(c, subscription, a), groups, 0)
         == if Fold(subscription) == groups then Some(c.providers) else None
    ensures AfterKeyword(Segments(c, subscription, a), kind, 0)
         == Some(if Fold(subscription) == kind then c.providers else a.name)
  {
    var parts := Segments(c, subscription, a);
    AfterKeywordIsFirst(parts, kind, 0, if Fold(subscription) == kind then 2 else 5);
    if Fold(subscription) == groups {
      AfterKeywordIsFirst(parts, groups, 0, 2);
    } else {
      assert !Followed(parts, groups, 6);
      AfterKeywordAbsent(parts, groups, 0);
    }
  }

  /** Printing at management-group scope and parsing back: exactly when it is lossless. */
  lemma {:induction false} ParseGroupId(kind: DocumentKind, c: Casing, subscription: string, a: Address)
    requires CasingOf(c, kind.Word())
    requires a.group != "" && NoSlash(subscription) && NoSlash(a.group) && NoSlash(a.name)
    ensures Parsed(kind, DocumentId(c, subscription, a)) == Some(a)
       <==> (Fold(a.group) == kind.Folded() ==> a.name == c.providers)
  {
    SplitDocumentId(c, subscription, a);
    FixedSegments(c, kind);
    ScanGroup(c, kind.Folded(), FOLDED_GROUPS, a);
  }

  /** The same at subscription scope. */
  lemma {:induction false} ParseSubscriptionId(kind: DocumentKind, c: Casing, subscription: string, a: Address)
    requires CasingOf(c, kind.Word())
    requires a.group == "" && NoSlash(subscription) && NoSlash(a.name)
    ensures Parsed(kind, DocumentId(c, subscription, a)) == Some(a)
       <==> Fold(subscription) != FOLDED_GROUPS && (Fold(subscription) == kind.Folded() ==> a.name == c.providers)
  {
    SplitDocumentId(c, subscription, a);
    FixedSegments(c, kind);
    ScanSubscription(c, kind.Folded(), FOLDED_GROUPS, subscription, a);
  }

  /** A subscription or management group name the parsers cannot mistake for a keyword. */
  predicate KeywordFree(kind: DocumentKind, s: string) {
    Fold(s) != kind.Folded() && Fold(s) != FOLDED_GROUPS
  }

  /**
   Parser and printer undo each other, whatever the casing of the keywords, and the parsed name is
   the last segment that deletion goes by.
   */
  lemma {:induction false} ParsePrinted(kind: DocumentKind, c: Casing, subscription: string, a: Address)
    requires CasingOf(c, kind.Word())
    requires NoSlash(subscription) && NoSlash(a.group) && NoSlash(a.name)
    requires KeywordFree(kind, if a.group == "" then subscription else a.group)
    ensures Parsed(kind, DocumentId(c, subscription, a)) == Some(a)
    ensures LastSegment(DocumentId(c, subscription, a)) == a.name
  {
    SplitDocumentId(c, subscription, a);
    if a.group == "" {
      ParseSubscriptionId(kind, c, subscription, a);
    } else {
      ParseGroupId(kind, c, subscription, a);
    }
  }

  /** The guard before parsing: `strings.Contains(strings.ToLower(id), "/<kind>/")`. */
  predicate NamesKind(folded: string, id: string) {
    Contains(Fold(id), "/" + folded + "/")
  }

  lemma {:induction false} DocumentIdNamesKind(kind: DocumentKind, c: Casing, subscription: string, a: Address)
    requires EqualFold(c.kind, kind.Word())
    ensures NamesKind(kind.Folded(), DocumentId(c, subscription, a))
  {
    FoldedKind(kind);
    var parts := Segments(c, subscription, a);
    var front := parts[..|parts| - 2];
    assert parts == front + [c.kind, a.name];
    PathNamesKind(kind.Folded(), front, c.kind, a.name);
  }

  lemma {:induction false} PathNamesKind(folded: string, front: seq<string>, word: string, name: string)
    requires |front| >= 1 && Fold(word) == folded
    ensures NamesKind(folded, Join(front + [word, name]))
  {
    JoinAppend(front, [word, name]);
    JoinPair(word, name);
    MiddleNamesKind(folded, Join(front), word, name);
  }

  lemma {:induction false} JoinPair(word: string, name: string)
    ensures Join([word, name]) == word + "/" + name
  {
    assert [word, name][1..] == [name];
  }

  lemma {:induction false} MiddleNamesKind(folded: string, path: string, word: string, name: string)
    requires Fold(word) == folded
    ensures NamesKind(folded, path + "/" + (word + "/" + name))
  {
    assert path + "/" + (word + "/" + name) == path + ("/" + word + "/") + name;
    FoldAround(path, word, name);
    ContainsMiddle(Fold(path), "/" + folded + "/", Fold(name));
  }

  /** What the guard accepts: an ID one of whose inner segments, neither the first nor the last, is the keyword but for case. */
  lemma {:induction false} NamesKindExactly(folded: string, id: string)
    requires NoSlash(folded)
    ensures NamesKind(folded, id) <==> exists i :: 1 <= i < |Split(id)| - 1 && Fold(Split(id)[i]) == folded
  {
    var parts := Split(id);
    if NamesKind(folded, id) {
      var a, b := ContainedBetween(Fold(id), "/" + folded + "/");
      assert Fold(id) == a + "/" + (folded + "/" + b);
      SplitConcat(a, folded + "/" + b);
      SplitConcat(folded, b);
      SplitNoSlash(folded);
      FoldSplit(id);
      assert Split(Fold(id))[|Split(a)|] == folded;
    }
    forall i | 1 <= i < |parts| - 1 && Fold(parts[i]) == folded
      ensures NamesKind(folded, id)
    {
      JoinAround(parts, i);
      MiddleNamesKind(folded, Join(parts[..i]), parts[i], Join(parts[i + 1..]));
    }
  }

  lemma {:induction false} ContainedBetween(s: string, sub: string) returns (a: string, b: string)
    requires Contains(s, sub)
    ensures s == a + sub + b
  {
    if s[..|sub|] == sub {
      a, b := "", s[|sub|..];
    } else {
      a, b := ContainedBetween(s[1..], sub);
      a := [s[0]] + a;
      assert s == [s[0]] + s[1..];
    }
  }

  lemma {:induction false} JoinAround(parts: seq<string>, i: nat)
    requires 1 <= i < |parts| - 1
    ensures Join(parts) == Join(parts[..i]) + "/" + (parts[i] + "/" + Join(parts[i + 1..]))
  {
    var rest := parts[i..];
    assert parts == parts[..i] + rest;
    JoinAppend(parts[..i], rest);
    assert rest[1..] == parts[i + 1..];
  }

  lemma {:induction false} AssignmentIdNamesKind(key: Key)
    ensures NamesKind(FOLDED_ASSIGNMENTS, AssignmentId(key))
  {
    FoldedAssignments();
    var path := key.scope + "/" + PROVIDERS + "/" + AUTHORIZATION;
    assert AssignmentId(key) == path + "/" + (ASSIGNMENTS + "/" + key.name);
    MiddleNamesKind(FOLDED_ASSIGNMENTS, path, ASSIGNMENTS, key.name);
  }

  lemma {:induction false} FoldAround(a: string, b: string, c: string)
    ensures Fold(a + ("/" + b + "/") + c) == Fold(a) + ("/" + Fold(b) + "/") + Fold(c)
  {
    assert Fold("/") == "/";
    FoldConcat(a + ("/" + b + "/"), c);
    FoldConcat(a, "/" + b + "/");
    FoldConcat("/" + b, "/");
    FoldConcat("/", b);
  }

  lemma {:induction false} JoinAppend(p: seq<string>, q: seq<string>)
    requires |p| >= 1 && |q| >= 1
    ensures Join(p + q) == Join(p) + "/" + Join(q)
  {
    if |p| == 1 {
      assert (p + q)[1..] == q;
    } else {
      assert (p + q)[1..] == p[1..] + q;
      JoinAppend(p[1..], q);
    }
  }
}
