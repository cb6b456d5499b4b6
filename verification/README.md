# Azure policy operator: a verified model

This project models the reconcilers of a Kubernetes operator for Azure Policy and proves what they
guarantee over whole runs. Azure is a set of maps keyed by scope and name together with a log of the calls
that went through; every Azure call and every write to the Kubernetes API may fail at any point. All
statements are checked by Dafny; nothing was executed. Dafny's automatic induction is switched off on every
lemma: each induction is written out.

How it is laid out:

* `Text`, `ResourceId`: splitting, joining and case folding of resource IDs, printing them, and the two ways
  they are read back (last segment, and the keyword scan of the import-ID parsers).
* `Payload`, `Drift`: the parts of request bodies and of drift detection that are built by loops.
* `Cloud`, `Documents`: Azure, as the assignment side and as the definition side see it; the client classes
  change it as the functions of the same meaning say.
* `ExemptionService`, `InlineExemptions`, `RoleGrants`, `AssignmentService`: the services, as classes whose
  methods loop and call Azure, each proved equal to a function over Azure's state.
* `ExemptionPasses`, `ExemptionRuns`, `ExemptionLeaks`, `AssignmentLaws`: laws of those functions.
* `AssignmentController`, `ExemptionController`, `DocumentController`: one `Reconcile` as one step over the
  stored resource, an in-memory copy and Azure, as classes and as functions. `Status().Update` persists the
  status only, `Update` metadata and spec only.
* `AssignmentSteps`, `AssignmentRuns`, `AssignmentModes`, `AssignmentLives`, `AssignmentReach`, `LedgerRuns`,
  `DocumentRuns`: runs, in which reconciles, user edits, deletion requests and changes to Azure by others are interleaved in any order.
* `AssignmentOutcomes`, `ExemptionOutcomes`, `DocumentOutcomes`: what one reconcile stores, records and does to Azure in
  each situation that can be told beforehand, stated over the resource and Azure alone; and from these, how a new
  resource becomes ready and how a deletion ends.
* `WakeUps`: the watch on definitions.

The definition and initiative controllers, and their services, are the same code for two kinds of document.
They are modelled once, over the kind; the branches on the kind are the places where the two differ (comparison
of the import ID, reference resolution, the fields of the body).

Where the code does less than its documentation or comments say, the model follows the code:

* The documentation says an observe-only assignment is never deleted. Deletion does not look at the mode: it removes
  the assignment of the imported name under the spec's scope, which is the observed one exactly when the scope in
  the import ID is the spec's (`AssignmentModes.ObserveOnlyDeletes`, `AssignmentModes.ObservedLife`).
* The documentation gives observe-only as the default import mode. For definitions and initiatives a missing mode
  means observe-only during import but not during deletion, which takes the document of the imported name under
  the spec's management group (`DocumentRuns.ObservedStepExactly`, `DocumentRuns.TakenExactly`).
* For assignments the record that adopt-once has been applied is read but never written, so the mode is reconcile
  under another name (`AssignmentModes.AdoptOnceIsReconcile`, `AssignmentModes.AdoptOnceWritesAgain`). Their
  documentation page says as much, the comment at the skip says otherwise.
* An initiative's reference resolution can overwrite the record that it was applied once, after which it is
  written again (`DocumentRuns.SettledStepExactly`, `DocumentRuns.ParkingWritesAgain`).
* A definition whose import ID is not letter for letter the ID Azure returns is in conflict with itself after
  its first write, and from then on frozen (`DocumentRuns.AdoptedConflict`, `DocumentRuns.AdoptedThenFrozen`).
* An import name without an import ID moves a bound definition or initiative to that name unchecked
  (`DocumentRuns.RenamedWriteReplaces`).
* An import stores the import ID as annotated, unless a write that goes through follows: so in a mode that only
  observes, with no call failing, and in the other modes when the write fails. A later deletion derives its role
  assignments from that text and leaves live all that were granted under another letter casing
  (`AssignmentLives.RecasedLife`, `AssignmentLives.RecasedQuietly`, `AssignmentLives.RecasedInput`).
* A failed exemption pass returns no list, so what it created is tracked by nobody
  (`ExemptionLeaks.UntrackedExactly`); and one display name given twice leaves an exemption behind at the second
  pass (`ExemptionLeaks.RepeatedPassExactly`).
* The comment on assignment names speaks of a generated UUID; the code uses the resource's name.

Assumptions about Azure and Kubernetes: a put is an upsert that stores the body as sent; deleting what is absent
succeeds; a lookup classifies not-found exactly; generated names are fresh and hold no `/`; an unset enforcement
mode is reported as `Default` and an unset policy type as `Custom`.

## Model

| member | source | states |
|---|---|---|
| `Text.SplitConcat` | internal/service/policyassignment/assingment.go:463-464 | Splitting at `/` distributes over paths put together with `/`. |
| `Text.SplitJoin` | internal/service/policydefinition/definition.go:158-159 | Splitting a path joined from slash-free segments returns exactly those segments. |
| `Text.LastSegmentOfPath` | internal/service/policyexemption/exemption.go:97-98 | A slash-free name at the end of any path is what the last segment recovers. |
| `Text.FoldLastSegment` | internal/controller/azurepolicyassignment_controller.go:150-154 | Taking the last segment commutes with changing letter case. |
| `Text.EqualFoldLastSegment` | internal/controller/azurepolicyassignment_controller.go:150-154 | IDs equal up to letter case have last segments equal up to letter case. |
| `ResourceId.PrintLastSegment` | internal/service/policyassignment/assingment.go:44-46 | The name recovered from a printed ID is the name it was printed with. |
| `ResourceId.UnderIsCaseBlind` | internal/service/policyassignment/assingment.go:44-46 | Lying under a scope ignores letter case, and re-printing the last segment under the scope changes at most letter case. |
| `ResourceId.KeyOfPrinted` | internal/service/policyassignment/assingment.go:345-348 | Reading a printed assignment ID back gives the scope and name it was printed from, for every scope. |
| `ResourceId.KeyedIsPrinted` | internal/service/policyassignment/assingment.go:345-348 | An ID that reads as a scope and name is the one printed for them, up to letter case, and the name is its last segment. |
| `ResourceId.LowerCaseIdReads` | internal/controller/azurepolicyassignment_controller.go:150-154 | The ID with its keywords in lower case reads as the same scope and name, equals the printed one up to letter case, and differs from it. |
| `ResourceId.ParseImportId` | internal/service/policydefinition/definition.go:157-172 | The nested scan returns the segment after the first followed kind keyword and the first followed group keyword, or fails with both empty. |
| `ResourceId.AfterKeywordIsFirst` | internal/service/policybundle/initiative.go:150-151 | The scan's result is decided by the first segment that is the keyword, but for case, and has a successor. |
| `ResourceId.AfterKeywordAbsent` | internal/service/policybundle/initiative.go:150-162 | Without such a segment the scan finds nothing. |
| `ResourceId.ParseGroupId` | internal/service/policydefinition/definition.go:157-172 | For a management-group ID in any keyword casing the parser undoes the printer if and only if the group is not the kind keyword (or the name happens to be the following segment). |
| `ResourceId.ParseSubscriptionId` | internal/service/policydefinition/definition.go:157-172 | For a subscription ID in any keyword casing the parser undoes the printer if and only if the subscription is no keyword (with the same coincidence). |
| `ResourceId.ParsePrinted` | internal/service/policybundle/initiative.go:148-163 | For every keyword-free ID the parser returns exactly name and group, and the name is the last segment that deletion goes by. |
| `ResourceId.DocumentIdNamesKind` | internal/service/policydefinition/definition.go:100-102 | Every ID printed for a kind, in any casing of its keyword, passes the kind guard of import. |
| `ResourceId.AssignmentIdNamesKind` | internal/service/policyassignment/assingment.go:340-342 | Every printed assignment ID passes the kind guard of import. |
| `ResourceId.NamesKindExactly` | internal/service/policybundle/initiative.go:84-86 | The kind guard accepts an ID if and only if one of its segments, neither the first nor the last, is the kind keyword up to letter case. |
| `Payload.TranslateResourceSelectors` | internal/service/policyassignment/assingment.go:127-153 | The triple loop over arrays builds the payload the translation function describes; an empty list is not sent. |
| `Payload.TranslateSelectors` | internal/service/policyexemption/exemption.go:59-75 | The two inner loops, the same in both services. |
| `Payload.TranslationLossless` | internal/service/policyexemption/exemption.go:56-82 | An inverse recovers the spec's nested lists from the payload if and only if every operator is In or notIn. |
| `Payload.SentExactly` | internal/service/policyexemption/exemption.go:56-82 | Selector by selector: the property, and the values under In or notIn as the operator says; under any other operator they are not sent. |
| `Payload.BuildMessages` | internal/service/policyassignment/assingment.go:80-102 | The default first, then the non-empty per-policy messages in order; no list at all rather than an empty one. |
| `Payload.MessagesNeverEmpty` | internal/service/policyassignment/assingment.go:80-102 | No empty text is ever sent, and nothing is sent if and only if no text is given. |
| `Payload.MessagesRecovered` | internal/service/policyassignment/assingment.go:80-102 | An inverse recovers from the payload the default, as the first and only message without reference, and exactly the per-policy entries with a text, in order, each with its reference. |
| `Drift.NotScopesDrift` | internal/service/policyassignment/assingment.go:380-400 | The two map-building loops, size test and one-sided inclusion report drift if and only if the two lists differ as sets. |
| `Drift.PolicyDefinitionDrift` | internal/service/policybundle/initiative.go:165-176 | No drift if and only if the live references are exactly the desired IDs in order, none nil. |
| `ExemptionService.Service.CreateOrUpdate` | internal/service/policyexemption/exemption.go:24-92 | Azure's new state and the result: the recovered or a newly minted name, and the body as specified. |
| `ExemptionService.Service.Delete` | internal/service/policyexemption/exemption.go:94-104 | Exactly the exemption at the given scope and last segment is removed. |
| `ExemptionService.UpsertedWrote` | internal/service/policyexemption/exemption.go:24-92 | One write in full: which key and body, which log entry, how many names taken, and that the returned ID's last segment is the name written. |
| `ExemptionService.BodyCarries` | internal/service/policyexemption/exemption.go:35-82 | What a write carries of its spec, field by field: names, category, description; no expiry without a text, and otherwise what that text parses to; the selectors recoverably if and only if every operator is known. |
| `ExemptionService.RewriteIsStable` | internal/service/policyexemption/exemption.go:28-33 | Writing again under the returned ID, at any later time, goes to the same name and takes no new one. |
| `InlineExemptions.Reconciler.ReconcileExemptions` | internal/service/policyassignment/assingment.go:278-333 | The loops over status, spec and status again, with early return at any failed call, compute the pass function and change Azure as it says. |
| `InlineExemptions.Reconciler.WriteDesired` | internal/service/policyassignment/assingment.go:287-320 | The create-or-update loop. |
| `InlineExemptions.Reconciler.DeleteRemoved` | internal/service/policyassignment/assingment.go:322-330 | The delete loop. |
| `ExemptionPasses.WriteAllContent` | internal/service/policyassignment/assingment.go:290-320 | A successful write loop returns one entry per spec entry in order and adds exactly their content to Azure. |
| `ExemptionPasses.WriteAllNames` | internal/service/policyassignment/assingment.go:305-310 | Known display names keep their resource name, others get names minted in this loop, and no two clash. |
| `ExemptionPasses.WriteAllFrame` | internal/service/policyassignment/assingment.go:290-320 | Even when it fails midway, the write loop touches only exemptions under its own names, deletes none, and leaves everything else alone. |
| `ExemptionPasses.WriteAllLogged` | internal/service/policyassignment/assingment.go:310-319 | Every entry returned was put by that loop. |
| `ExemptionPasses.DropAllEffect` | internal/service/policyassignment/assingment.go:322-330 | The delete loop removes only places of entries that left the spec, and all of them when it succeeds. |
| `ExemptionPasses.DropsInOrder` | internal/service/policyassignment/assingment.go:322-330 | Call by call: the delete loop deletes the entries that left the spec in order up to the first failing call, and succeeds if and only if none fails. |
| `ExemptionPasses.ExistingFaithful` | internal/service/policyassignment/assingment.go:281-285 | On a status list the operator built, the lookup map returns each entry under its own display name. |
| `ExemptionRuns.PassContent` | internal/service/policyassignment/assingment.go:278-333 | A successful pass from any state: new status mirrors the spec, removed places are out, every spec entry is in with its body. |
| `ExemptionRuns.PassEntries` | internal/service/policyassignment/assingment.go:290-320 | After a successful pass, entry by entry of the inline spec: the exemption live at the entry's place has its display name, category and description, the given assignment, no selectors, and the expiry its text parses to, or none without a text. |
| `ExemptionRuns.PassExact` | internal/service/policyassignment/assingment.go:305-310 | After a successful pass Azure is everybody else's exemptions plus exactly the status entries' if and only if no retained entry changed its scope. |
| `ExemptionRuns.RunExact` | internal/service/policyassignment/assingment.go:278-333 | Over any run of successful passes with arbitrary edits that keep display names distinct and scopes of retained names, status, spec and Azure agree one to one and all else is untouched. |
| `ExemptionRuns.PassIdempotent` | internal/service/policyassignment/assingment.go:278-333 | Repeating a successful pass on the same spec changes neither exemptions nor status and takes no name. |
| `ExemptionRuns.EmptiedSpec` | internal/service/policyassignment/assingment.go:288-332 | An emptied spec empties the status list and deletes exactly the tracked exemptions. |
| `ExemptionRuns.PassKeepsLedger` | internal/service/policyassignment/assingment.go:281-332 | A pass that may fail at any call keeps the ledger: deletes hit only places put before, tracked entries still wanted stay live. |
| `ExemptionLeaks.UntrackedExactly` | internal/service/policyassignment/assingment.go:290-313 | For every spec with distinct display names: a pass leaves something live that the status it started from does not list if and only if some entry has no name yet, or keeps one at another and free scope, and none of the calls up to its own fails. |
| `ExemptionLeaks.FailedPassLeaks` | internal/service/policyassignment/assingment.go:310-313 | The smallest such input: two new entries and a failure at the second call. |
| `ExemptionLeaks.CoherentExactly` | internal/service/policyassignment/assingment.go:282-285 | A successful pass leaves a status list the next pass can rely on if and only if the spec's display names are distinct. |
| `ExemptionLeaks.RepeatedPassExactly` | internal/service/policyassignment/assingment.go:281-332 | After two successful passes over one spec from an empty status, live and listed exemptions agree if and only if the display names are distinct. |
| `ExemptionLeaks.DuplicateNamesLeak` | internal/service/policyassignment/assingment.go:282-285 | The smallest failing input: from an empty status, two passes over two entries of one display name leave an exemption that no entry lists. |
| `RoleGrants.Granter.ReconcileRoleAssignments` | internal/service/policyassignment/assingment.go:206-253 | The loop with role resolution and early return computes the grant function, and changes nothing without identity, permissions or principal. |
| `RoleGrants.Granter.DeleteRoleAssignments` | internal/service/policyassignment/assingment.go:443-461 | The loop computes the revoke function. |
| `RoleGrants.GrantAllEffect` | internal/service/policyassignment/assingment.go:217-250 | Granting changes only keys the permissions derive, removes none, and when it succeeds each holds a grant to the principal of the very role its key was derived from. |
| `RoleGrants.RevokeAllEffect` | internal/service/policyassignment/assingment.go:446-460 | Revoking changes only those keys, and when it succeeds exactly they are gone. |
| `RoleGrants.GrantedExactly` | internal/service/policyassignment/assingment.go:206-229 | With every call going through, granting succeeds if and only if there is no principal or every permission gives a role ID or a role name that is found; without principal or permissions it calls nothing. |
| `RoleGrants.GrantsInOrder` | internal/service/policyassignment/assingment.go:217-250 | Whatever fails, the calls that go through are the grants of a prefix of the permissions in order, each with a role given or found, and granting succeeds if and only if that prefix is all of them. |
| `RoleGrants.RevokedExactly` | internal/service/policyassignment/assingment.go:446-460 | With every call going through, revoking succeeds if and only if every permission gives a role ID or its role name is found. |
| `RoleGrants.RevokesInOrder` | internal/service/policyassignment/assingment.go:446-460 | The same for revoking. |
| `RoleGrants.GrantRevokeRoundTrip` | internal/service/policyassignment/assingment.go:443-461 | Creation touches derived keys only; a later deletion removes exactly the derived keys from whatever there is then; so with other keys left alone everything is as it was found. |
| `RoleGrants.SharedKeyIsCollision` | internal/service/policyassignment/assingment.go:231-232 | Two different (scope, role) pairs share a key only if two different texts hash alike, although the text has no separators. |
| `RoleGrants.OtherIdMissesGrants` | internal/service/policyassignment/assingment.go:455 | Under an ID of the same length that differs, a key is shared only where two of the given permissions, at one scope, hash different texts alike. |
| `RoleGrants.GrantsReachedExactly` | internal/service/policyassignment/assingment.go:443-461 | Collisions aside, deletion under an ID equal to the granted one but for letter case removes the grants if and only if the two are the same, and else none of them. |
| `AssignmentService.Service.BuildBody` | internal/service/policyassignment/assingment.go:55-171 | The request body, including the location it repeats when there is no identity. |
| `AssignmentService.Service.CreateOrUpdate` | internal/service/policyassignment/assingment.go:39-202 | All five results and Azure after it, whichever phase fails. |
| `AssignmentService.Service.ImportExisting` | internal/service/policyassignment/assingment.go:337-404 | Kind guard, read by ID, and the drift fields; Azure's resources are not changed. |
| `AssignmentService.Service.CompareWithSpec` | internal/service/policyassignment/assingment.go:362-401 | The drift fields in order, excluded scopes compared as sets. |
| `AssignmentService.Service.Get` | internal/service/policyassignment/assingment.go:408-425 | The existence check at the scope and name the first write uses. |
| `AssignmentService.Service.Delete` | internal/service/policyassignment/assingment.go:432-470 | Tracked exemptions, then derived role assignments, then the assignment, stopping at the first failure. |
| `AssignmentLaws.DeleteOrdered` | internal/service/policyassignment/assingment.go:432-470 | One attempt stays within its target; it succeeds if and only if the assignment delete went through, its last call, made only once all exemptions and grants are gone. |
| `AssignmentLaws.DeletionStartsExactly` | internal/service/policyassignment/assingment.go:432-470 | An attempt changes something if and only if its first call goes through and, where that only looks up a role, the role is found and the second call goes through. |
| `AssignmentLaws.DeletionGoesExactly` | internal/service/policyassignment/assingment.go:432-470 | With every call going through, deletion succeeds if and only if the roles of all permissions can be found. |
| `AssignmentLaws.DeleteRetrySafe` | internal/service/policyassignment/assingment.go:432-470 | After any number of attempts interrupted anywhere, a complete one leaves what a single complete one would. |
| `AssignmentLaws.ApplyWrites` | internal/service/policyassignment/assingment.go:175-202 | The write happens at the derived key with the derived body whatever the later phases do, and its ID is returned even when they fail. |
| `AssignmentLaws.AttachAside` | internal/service/policyassignment/assingment.go:192-199 | The exemption and role phases never touch assignments. |
| `AssignmentLaws.BodyCarries` | internal/service/policyassignment/assingment.go:55-171 | What a write carries, field by field: names, description, excluded scopes and enforcement mode, each left out when empty; messages that read back as given; selectors recoverably if and only if every operator is known; an identity if and only if one other than None is asked for, the user-assigned one under that kind only; the identity's location or else the recorded one. |
| `AssignmentLaws.DriftExactly` | internal/service/policyassignment/assingment.go:362-401 | For any live body and spec, field by field: displayName, description, policyDefinitionId, enforcementMode and notScopes are each in the drift if and only if they differ, definitions up to letter case and only if an ID is given, scopes as sets; nothing else is in it, and nothing twice. |
| `AssignmentLaws.ImportExactly` | internal/service/policyassignment/assingment.go:337-404 | Import succeeds if and only if the ID names an assignment, reads as a scope and name, the call goes through and the assignment is there; it then gives the location and principal reported, and drift if and only if some field differs. |
| `AssignmentLaws.WriteThenObserve` | internal/service/policyassignment/assingment.go:337-404 | Importing the ID a write returned, under the same spec, reports no drift if and only if the spec sets an enforcement mode. |
| `AssignmentController.AssignmentReconciler.Reconcile` | internal/controller/azurepolicyassignment_controller.go:63-92 | One reconcile changes stored resource and Azure exactly as the step function says, for every combination of failures. |
| `AssignmentController.AssignmentReconciler.DoHandleDeletion` | internal/controller/azurepolicyassignment_controller.go:94-121 | The deletion branch. |
| `AssignmentController.AssignmentReconciler.DoResolve` | internal/controller/azurepolicyassignment_controller.go:123-140 | Reference resolution: an ID, or parked with the reason saved. |
| `AssignmentController.AssignmentReconciler.DoHandleImport` | internal/controller/azurepolicyassignment_controller.go:142-214 | The import branch: conflict, skip, failure, observation or adoption. |
| `AssignmentController.AssignmentReconciler.DoCreateOrUpdate` | internal/controller/azurepolicyassignment_controller.go:219-249 | The existence check before a first write. |
| `AssignmentController.AssignmentReconciler.DoWrite` | internal/controller/azurepolicyassignment_controller.go:251-292 | The write and what of its results is recorded. |
| `AssignmentSteps.ShapeReads` | internal/controller/azurepolicyassignment_controller.go:123-249 | Before it writes, a step makes at most one import read, and an unbound resource writes only where nothing exists. |
| `AssignmentRuns.OrphanExactlyWhen` | internal/controller/azurepolicyassignment_controller.go:240-292 | A step loses ownership if and only if it plans the first write, that call does not fail, and its status write is lost. |
| `AssignmentRuns.NoOrphan` | internal/controller/azurepolicyassignment_controller.go:63-121 | In every run without import annotations and with persisting status writes: while the assignment is live, finalizer and ID are stored, even if the exemption or role phase failed; once the finalizer is gone, so is the assignment; all other assignments are as others alone left them. |
| `AssignmentRuns.NewResourceOwned` | internal/controller/azurepolicyassignment_controller.go:243-249 | A new resource at a free key starts such a run. |
| `AssignmentRuns.ReadyMeansDone` | internal/controller/azurepolicyassignment_controller.go:251-292 | A writing step records Ready as true if and only if all three phases went through; then assignment and grants are in place as specified, and so is every listed exemption, entry by entry. |
| `AssignmentRuns.NoTakeover` | internal/controller/azurepolicyassignment_controller.go:219-249 | An assignment found at the key of an unbound resource without import annotations is never modified or deleted, in any run. |
| `AssignmentRuns.IdentityStable` | internal/controller/azurepolicyassignment_controller.go:150-159 | Once bound under its scope, the bound ID changes in at most letter case, in every run, whatever is annotated. |
| `AssignmentRuns.ImportKeptExactlyUnderScope` | internal/service/policyassignment/assingment.go:44-46 | A write keeps a just-imported ID, up to letter case, if and only if the scope in it is the spec's up to letter case. |
| `AssignmentRuns.ImportedWriteReplaces` | internal/service/policyassignment/assingment.go:175 | A write after an import goes to the imported name under the spec's scope without an existence check and replaces what is there: the imported assignment if and only if the scopes are the same, else another one, and the imported one stays as it is. |
| `AssignmentRuns.FailedWriteStoresImportCasing` | internal/controller/azurepolicyassignment_controller.go:265-275 | A write failing right after an import leaves the import ID stored as annotated. |
| `AssignmentRuns.LocationPreserved` | internal/service/policyassignment/assingment.go:168-171 | In every run with persisting status writes, each write without identity carries the last location Azure reported. |
| `AssignmentRuns.FinalizerHeld` | internal/controller/azurepolicyassignment_controller.go:94-121 | However often deletion is interrupted, the resource stays with its target and Azure loses at most that target, until it is gone and Azure has lost exactly it. |
| `AssignmentLives.HeldAgainstOthers` | internal/controller/azurepolicyassignment_controller.go:94-121 | The same among edits that keep scope and identity and any changes by others: aimed at its target until gone, then exactly the target's exemptions and grants are gone and its assignment was deleted, and other assignments are as others alone left them. |
| `AssignmentLives.EditedWhileDying` | internal/controller/azurepolicyassignment_controller.go:103-104 | An edit of scope or identity during deletion: the assignment survives if and only if the scope changed, and of its grants exactly those the edited identity does not derive. |
| `AssignmentReach.RunReaches` | internal/service/policyassignment/assingment.go:42-53 | In every run at one scope, whatever import annotations: assignments are written and deleted at that scope only, under no names but the resource's own, the import names in managing modes, the last segments of import IDs and of the bound ID; all others are as others alone left them. |
| `AssignmentReach.LostReplyExactly` | internal/service/policyassignment/assingment.go:175-178 | A write that takes effect and reports an error loses ownership if and only if it was the first one; then, in every run, the assignment stays and the resource stays unbound. |
| `AssignmentReach.NextReady` | internal/controller/azurepolicyassignment_controller.go:240-292 | With finalizer, resolvable references and roles and nothing in the way, the next reconcile in which every call goes through records Ready, as observed or as reconciled. |
| `AssignmentOutcomes.FinalizerAdded` | internal/controller/azurepolicyassignment_controller.go:73-79 | A reconcile of a resource without finalizer that is not deleting stores it with the finalizer, if its update goes through, otherwise unchanged, and leaves Azure as it was. |
| `AssignmentOutcomes.LetGo` | internal/controller/azurepolicyassignment_controller.go:119-120 | An unbound resource under deletion goes once its update goes through, without a call to Azure. |
| `AssignmentOutcomes.DeletesOrHolds` | internal/controller/azurepolicyassignment_controller.go:103-120 | Deletion of a bound resource in any mode: if it succeeds the resource goes; if it fails the resource stays as it is with Ready False "DeleteFailed". |
| `AssignmentOutcomes.Parks` | internal/controller/azurepolicyassignment_controller.go:123-140 | A definition resource that is missing, or has no ID yet, leaves Azure alone and Ready False with the reason that says which. |
| `AssignmentOutcomes.Conflicts` | internal/controller/azurepolicyassignment_controller.go:154-159 | An import ID that differs from the bound one beyond letter case leaves Azure alone and Ready False "ImportConflict". |
| `AssignmentOutcomes.Skips` | internal/controller/azurepolicyassignment_controller.go:172-178 | With the record that it was applied once, which the controller reads but never makes, an adopt-once resource stays as it is, without a call. |
| `AssignmentOutcomes.ImportFails` | internal/controller/azurepolicyassignment_controller.go:182-189 | If the import ID does not lead to a live assignment, or the call fails, nothing is written and both Imported and Ready are False "ImportFailed". |
| `AssignmentOutcomes.Observes` | internal/controller/azurepolicyassignment_controller.go:191-210 | An import in observe-only mode, which a missing mode means too, makes one read and records the ID as annotated, what location and principal were reported, DriftDetected according to whether some field differs, and Ready "ObservedOnly". |
| `AssignmentOutcomes.Adopts` | internal/controller/azurepolicyassignment_controller.go:182-214 | In any other mode the same is recorded and the write follows: what is put where, what the later phases do and what is recorded of each, success or failure. |
| `AssignmentOutcomes.Rewrites` | internal/controller/azurepolicyassignment_controller.go:251-292 | Without import ID and bound, the write comes at once, under the last segment of the bound ID. |
| `AssignmentOutcomes.FirstWrites` | internal/controller/azurepolicyassignment_controller.go:219-292 | Without import ID and unbound: a failing existence check leaves all as it was, a find is reported as "PolicyAssignmentAlreadyExists", and else the write follows, under the name looked up. |
| `AssignmentOutcomes.WriteLeaves` | internal/controller/azurepolicyassignment_controller.go:251-289 | The write in full: if the put fails, only "ReconcileFailed" is recorded; else ID, and location and principal if reported, whatever follows; the list of exemptions if their pass goes through; and Ready "Reconciled" if and only if the roles are granted as well, to the principal just returned. |
| `AssignmentOutcomes.NewBecomesReady` | internal/controller/azurepolicyassignment_controller.go:63-92 | From a new resource at a free key, two reconciles in which every call goes through, references and roles resolvable, end with finalizer, ID and Ready "Reconciled" stored and the assignment live with its body. |
| `AssignmentModes.ObservedStepExactly` | internal/controller/azurepolicyassignment_controller.go:94-121 | A step of an observed assignment writes nothing, except exactly when it deletes a bound one and the deletion gets as far as a write, which can be told before it. |
| `AssignmentModes.ObservedRun` | internal/controller/azurepolicyassignment_controller.go:203-210 | Before deletion, no run of an observed assignment writes anything. |
| `AssignmentModes.ObserveOnlyDeletes` | internal/controller/azurepolicyassignment_controller.go:103-120 | Deletion of an observed assignment removes the one of the imported name under the spec's scope: the observed one if and only if the scope in the import ID is the spec's; otherwise the observed one survives and the other is lost. |
| `AssignmentModes.ObservedLife` | internal/controller/azurepolicyassignment_controller.go:94-121 | A run of observation, deletion request and deletion in which every call goes through, with just that outcome. |
| `AssignmentModes.NeverAppliedOnce` | internal/controller/azurepolicyassignment_controller.go:285 | No run ever records that adopt-once was applied. |
| `AssignmentModes.AdoptOnceIsReconcile` | internal/controller/azurepolicyassignment_controller.go:171-178 | Every run is, step by step, the run with adopt-once replaced by reconcile in all annotations, those annotations aside. |
| `AssignmentModes.AdoptOnceWritesAgain` | internal/controller/azurepolicyassignment_controller.go:212-214 | Two reconciles in adopt-once mode in which every call goes through each write the assignment. |
| `AssignmentLives.RebindingStep` | internal/controller/azurepolicyassignment_controller.go:191-210 | An import that records no written ID, because its write fails or because it only observes, stores the annotated ID letter for letter and touches no grant. |
| `AssignmentLives.RecasedLife` | internal/service/policyassignment/assingment.go:455 | A run in which grants are made, such an import under another letter casing follows, and the resource is deleted: collisions aside the grants are gone if and only if the annotated ID is the granted one letter for letter, and else all of them are still live. |
| `AssignmentLives.RecasedInput` | internal/controller/azurepolicyassignment_controller.go:265-275 | Such a run call by call, through a failing write: of seven calls to Azure only the fifth fails, and the grant is live when the resource is gone. |
| `AssignmentLives.RecasedQuietly` | internal/controller/azurepolicyassignment_controller.go:203-210 | Such a run in which no call fails, through a mode that only observes: the grant is live when the resource is gone. |
| `AssignmentLives.LifeLeavesGrants` | internal/service/policyassignment/assingment.go:206-253 | In every run with one identity spec, no import annotations, a fixed scope and persisting status writes, other grants never change, and once the resource is gone the grants are exactly those before it, if none of the derived keys was taken then. |
| `AssignmentLives.LifeLeavesExemptions` | internal/service/policyassignment/assingment.go:432-441 | An undisturbed run of the controller followed by deletion, interrupted however often, leaves Azure's exemptions exactly as it found them. |
| `LedgerRuns.LedgerHolds` | internal/service/policyassignment/assingment.go:281-332 | In every run with distinct display names, whatever fails: each exemption delete hits a key that an earlier create returned, and a tracked exemption whose display name stayed in the spec is live. |
| `LedgerRuns.StepAccounted` | internal/controller/azurepolicyassignment_controller.go:251-263 | One controller step, deletion included, keeps the ledger. |
| `LedgerRuns.ControllerExact` | internal/controller/azurepolicyassignment_controller.go:251-263 | Over any undisturbed run of the controller ended by a write: stored status mirrors stored spec, and Azure's exemptions are those at the start plus exactly the tracked ones with the spec's content. |
| `ExemptionController.ExemptionReconciler.Reconcile` | internal/controller/azurepolicyexemption_controller.go:57-156 | One reconcile of a stand-alone exemption is one step, for every combination of failures. |
| `ExemptionController.OneExemption` | internal/controller/azurepolicyexemption_controller.go:57-156 | In every run at a fixed scope Azure holds at most one exemption of the resource, the stored ID finds it, the finalizer guards it, all others are untouched, and once the resource is gone nothing of it is left. |
| `ExemptionController.OneLostExactly` | internal/controller/azurepolicyexemption_controller.go:126-153 | Whatever fails, a step keeps that state, except exactly when an unbound resource is written and its status write is lost. |
| `ExemptionController.EditKeepsOneExactly` | internal/controller/azurepolicyexemption_controller.go:70-71 | An edit keeps it if and only if nothing is bound or the scope stays. |
| `ExemptionController.EditThenDelete` | internal/controller/azurepolicyexemption_controller.go:66-91 | A bound exemption, an edit, then a deletion in which every call goes through: the exemption is gone with the resource if and only if the edit left the scope alone. |
| `ExemptionController.NewExemption` | internal/controller/azurepolicyexemption_controller.go:95-101 | A new resource starts such a run around whatever Azure holds. |
| `ExemptionController.ReferenceFollowed` | internal/controller/azurepolicyexemption_controller.go:103-128 | Each write uses the ID the referenced assignment reports now, and the stored spec never keeps it. |
| `ExemptionOutcomes.FinalizerAdded` | internal/controller/azurepolicyexemption_controller.go:95-101 | A reconcile of a resource without finalizer that is not deleting stores it with the finalizer, if its update goes through, otherwise unchanged, and leaves Azure as it was. |
| `ExemptionOutcomes.LetGo` | internal/controller/azurepolicyexemption_controller.go:86-89 | An unbound resource under deletion goes once its update goes through, without a call to Azure. |
| `ExemptionOutcomes.DeletesOrHolds` | internal/controller/azurepolicyexemption_controller.go:70-89 | A failed delete leaves Azure's exemptions as they were and the resource with Ready False "DeleteFailed"; one that goes through removes exactly the exemption of the bound name at the spec's scope, and then the resource goes. |
| `ExemptionOutcomes.Parks` | internal/controller/azurepolicyexemption_controller.go:104-122 | An exemption that names only an assignment resource, which is missing or has no ID yet, leaves Azure alone and Ready False with the reason that says which. |
| `ExemptionOutcomes.Writes` | internal/controller/azurepolicyexemption_controller.go:123-153 | The write in full, success or failure: key, body with the exempted assignment filled in, ID and condition recorded, the stored spec unchanged. |
| `ExemptionOutcomes.NewBecomesReady` | internal/controller/azurepolicyexemption_controller.go:57-156 | From a new resource, two reconciles in which every call goes through end with finalizer, ID and Ready "Reconciled" stored and its exemption live, everything else in Azure as it was. |
| `Documents.Service.BuildPolicyDefinitionRefs` | internal/service/policybundle/initiative.go:240-252 | One reference per policy, in order, carrying its resolved ID. |
| `Documents.Service.CreateOrUpdate` | internal/service/policydefinition/definition.go:32-93 | Address, body and returned ID of a write, for both kinds. |
| `Documents.Service.ImportExisting` | internal/service/policybundle/initiative.go:81-130 | Guard, parser, read at the parsed address, type check and drift fields. |
| `Documents.Service.CompareWithSpec` | internal/service/policydefinition/definition.go:138-154 | The drift fields in order, references compared as sequences. |
| `Documents.Service.Get` | internal/service/policybundle/initiative.go:181-212 | The existence check at the address a write goes to. |
| `Documents.Service.Delete` | internal/service/policydefinition/definition.go:213-231 | Removal at the spec's group and the last segment of the bound ID. |
| `Documents.AddressesAgree` | internal/service/policybundle/initiative.go:220-238 | In every mode: import reads what the ID names; deletion removes that same document if and only if the spec's group is the ID's; a write goes to it if and only if the name in use matches as well. |
| `Documents.BodyCarries` | internal/service/policydefinition/definition.go:35-69 | What a write carries, field by field: description and type left out when empty; mode and type for definitions only; for initiatives one reference per resolved ID, in order. |
| `Documents.DriftExactly` | internal/service/policydefinition/definition.go:138-154 | For any live document and spec, field by field: displayName, description, mode (definitions) and policyDefinitions (initiatives, in order) are each in the drift if and only if they differ; nothing else is in it, and nothing twice. |
| `Documents.ImportExactly` | internal/service/policybundle/initiative.go:81-130 | Import succeeds if and only if the ID names the kind and parses, the call goes through and a document of custom type is there; it then gives drift if and only if some field differs. |
| `Documents.WriteThenObserve` | internal/service/policydefinition/definition.go:97-155 | Importing the ID a write returned, under the same spec, succeeds if and only if the type is Custom or unset, and then reports no drift. |
| `DocumentController.DocumentReconciler.Reconcile` | internal/controller/azurepolicydefinition_controller.go:61-82 | One reconcile of a definition or initiative is one step, for every combination of failures. |
| `DocumentController.DocumentReconciler.DoHandleDeletion` | internal/controller/azurepolicyinitiative_controller.go:95-128 | The deletion branch with its observe-only exit. |
| `DocumentController.DocumentReconciler.ResolvePolicyDefinitionIds` | internal/controller/azurepolicyinitiative_controller.go:262-285 | The resolution loop over an index-filled slice: all IDs, or none with the first failure's reason saved. |
| `DocumentController.DocumentReconciler.DoHandleImport` | internal/controller/azurepolicydefinition_controller.go:190-250 | The import branch: conflict, skip, failure, observation or adoption. |
| `DocumentController.DocumentReconciler.DoReconcile` | internal/controller/azurepolicydefinition_controller.go:121-188 | The existence check and the write. |
| `DocumentController.DocumentReconciler.DoWrite` | internal/controller/azurepolicyinitiative_controller.go:165-197 | The write and the status it records. |
| `DocumentRuns.PlanReads` | internal/controller/azurepolicydefinition_controller.go:61-82 | Up to its write a step changes nothing in Azure; a write needs an unused address or a bound ID, and is never planned for an observed or already applied resource. |
| `DocumentRuns.ReadyExactly` | internal/controller/azurepolicydefinition_controller.go:132-163 | A step that saves a status records Ready as true if and only if it observed or wrote: one put of the spec's body at the write address, recorded as ID and version. |
| `DocumentRuns.NoTakeover` | internal/service/policydefinition/definition.go:176-207 | A document found at the address of an unbound resource without import annotations is never modified or deleted, in any run. |
| `DocumentRuns.OrphanExactlyWhen` | internal/controller/azurepolicydefinition_controller.go:84-119 | A step leaves a live document without owner if and only if it plans the first write, that call does not fail and the status write is lost, or it releases the document in observe-only mode. |
| `DocumentRuns.NoOrphan` | internal/controller/azurepolicyinitiative_controller.go:95-128 | In every other run, while the document is live its ID and the finalizer are stored, once they are gone so is the document, and all other documents are as others alone left them. |
| `DocumentRuns.ObservedStepExactly` | internal/controller/azurepolicydefinition_controller.go:93-99 | A step of an observed resource writes nothing, except exactly when it deletes a bound one whose mode annotation is missing and the call goes through. |
| `DocumentRuns.TakenExactly` | internal/controller/azurepolicydefinition_controller.go:101-118 | That deletion removes one document, the observed one if and only if the spec's management group is the import ID's; otherwise the observed one stays as it is. |
| `DocumentRuns.ObservedLife` | internal/controller/azurepolicydefinition_controller.go:207-210 | A run of observation without a mode annotation, deletion request and deletion in which every call goes through, with just that outcome. |
| `DocumentRuns.ObserveOnlyWritesNothing` | internal/controller/azurepolicyinitiative_controller.go:95-108 | With an import ID and the explicit mode, no run through the removal of the finalizer writes anything; Azure is what others made of it. |
| `DocumentRuns.SettledStepExactly` | internal/controller/azurepolicyinitiative_controller.go:262-285 | In adopt-once mode a settled resource writes nothing and stays settled, except exactly when reference resolution overwrites the record. |
| `DocumentRuns.UnsettledStepExactly` | internal/controller/azurepolicydefinition_controller.go:121-164 | An unsettled one writes at most once, and becomes settled if and only if it wrote and the status was saved. |
| `DocumentRuns.AdoptOnceBudget` | internal/controller/azurepolicyinitiative_controller.go:199-257 | In any run before deletion the number of writes is at most one plus the lost statuses and overwritten records. |
| `DocumentRuns.AdoptOnce` | internal/controller/azurepolicydefinition_controller.go:190-250 | A definition, or an initiative with only direct IDs, is written at most once across retries, import failures, ID conflicts and edits. |
| `DocumentRuns.ParkingWritesAgain` | internal/controller/azurepolicyinitiative_controller.go:79-90 | An initiative applied once is written again when a reference fails to resolve at one reconcile and resolves at the next. |
| `DocumentRuns.ConflictAfterWrite` | internal/controller/azurepolicydefinition_controller.go:198-205 | After a recorded write the resource conflicts with its own import ID if and only if that is not the ID Azure returns, exactly for definitions and up to letter case for initiatives. |
| `DocumentRuns.ConflictFreezes` | internal/controller/azurepolicyinitiative_controller.go:207-212 | A conflict ends all writes before deletion, whatever the mode. |
| `DocumentRuns.AdoptedConflict` | internal/controller/azurepolicydefinition_controller.go:198-205 | An input: a resource that adopts its document under its own address, every call going through, writes it once and is then in conflict if and only if it is a definition and some segment of the import ID is cased otherwise than Azure's. |
| `DocumentRuns.AdoptedThenFrozen` | internal/controller/azurepolicydefinition_controller.go:198-205 | From such a definition, every run before deletion under that import ID makes that one write and no other. |
| `DocumentRuns.RenamedWriteReplaces` | internal/service/policydefinition/definition.go:71-76 | An import name given to a bound resource without an import ID sends its next write to that name without an existence check: it replaces what is there and binds to it, and leaves its own document behind if and only if the name differs. |
| `DocumentRuns.NextReady` | internal/controller/azurepolicydefinition_controller.go:121-164 | With finalizer, resolvable references and nothing in the way, the next reconcile in which both calls go through records Ready, as observed or as applied. |
| `DocumentOutcomes.FinalizerAdded` | internal/controller/azurepolicydefinition_controller.go:71-74 | A reconcile of a resource without finalizer that is not deleting stores it with the finalizer, if its update goes through, otherwise unchanged, and leaves Azure as it was. |
| `DocumentOutcomes.LetGo` | internal/controller/azurepolicydefinition_controller.go:95-99 | An unbound or explicitly observed resource under deletion goes once its update goes through, without a call to Azure. |
| `DocumentOutcomes.DeleteFails` | internal/controller/azurepolicydefinition_controller.go:101-111 | Bound, in any other mode: a failed delete leaves Azure's documents and the resource as they were, with Ready False "DeleteFailed". |
| `DocumentOutcomes.DeleteGoes` | internal/controller/azurepolicydefinition_controller.go:101-118 | A delete that goes through removes exactly the document of the bound name under the spec's group, and then the resource goes. |
| `DocumentOutcomes.FinalizerHeld` | internal/controller/azurepolicydefinition_controller.go:84-119 | In every run from deletion on, in any mode but observe-only, whatever fails, with edits that keep the group and stay out of observe-only, and any changes by others: the resource stays deleting, with finalizer and ID, until its document was deleted; it is gone only then; and of Azure nothing but that document is touched. |
| `DocumentOutcomes.Parks` | internal/controller/azurepolicyinitiative_controller.go:262-285 | The first reference that is missing, or has no ID yet, leaves Azure alone and Ready False with the reason that says which. |
| `DocumentOutcomes.Conflicts` | internal/controller/azurepolicydefinition_controller.go:198-205 | An import ID that is not the bound one, letter for letter for definitions and up to letter case for initiatives, leaves Azure alone and Ready False "ImportConflict". |
| `DocumentOutcomes.Skips` | internal/controller/azurepolicydefinition_controller.go:212-219 | With the record that it was applied once, an adopt-once resource stays as it is, without a call. |
| `DocumentOutcomes.ImportFails` | internal/controller/azurepolicydefinition_controller.go:223-232 | If the import ID does not lead to a live document of custom type, or the call fails, nothing is written and both Imported and Ready are False "ImportFailed". |
| `DocumentOutcomes.Observes` | internal/controller/azurepolicydefinition_controller.go:234-246 | An import in observe-only mode, which a missing mode means too, writes nothing and records the ID as annotated, DriftDetected according to whether some field differs, and Ready "ObservedOnly". |
| `DocumentOutcomes.Adopts` | internal/controller/azurepolicydefinition_controller.go:234-249 | In any other mode the same is recorded and the write follows. |
| `DocumentOutcomes.Rewrites` | internal/controller/azurepolicydefinition_controller.go:132-163 | Without import ID and bound, the write comes at once: one put of the body at the spec's group under the name in use, ID, version and Ready recorded; or, failing, only "ReconcileFailed". |
| `DocumentOutcomes.FirstWrites` | internal/controller/azurepolicydefinition_controller.go:126-188 | Without import ID and unbound: a failing existence check leaves all as it was, a find is reported with the kind's reason, and else the write follows. |
| `DocumentOutcomes.NewBecomesReady` | internal/controller/azurepolicydefinition_controller.go:61-82 | From a new resource at a free address, two reconciles in which every call goes through end with finalizer, ID, version and Ready "Reconciled" stored and the document live, everything else in Azure as it was. |
| `WakeUps.ResolutionExact` | internal/controller/azurepolicyinitiative_controller.go:262-285 | Resolution gives as many IDs as policies, index by index, if none is blocked, and otherwise parks at the first blocked one. |
| `WakeUps.InitiativesReferencingDefinition` | internal/controller/azurepolicyinitiative_controller.go:342-359 | The nested loop with its break appends one request per referring initiative. |
| `WakeUps.AssignmentsReferencingDefinition` | internal/controller/azurepolicyassignment_controller.go:349-363 | The loop appends one request per referring assignment. |
| `WakeUps.EnqueuedExactly` | internal/controller/azurepolicyinitiative_controller.go:347-358 | For every possible request, how often it is enqueued: once if it names a resource of the namespace that refers to the object, else never. |
| `WakeUps.InitiativesExactly` | internal/controller/azurepolicyinitiative_controller.go:342-359 | An event on a definition enqueues a request once if it names an initiative of the namespace one of whose policies names the definition, else never; a failed list enqueues nothing. |
| `WakeUps.AssignmentsExactly` | internal/controller/azurepolicyassignment_controller.go:349-363 | The same for assignments that name the definition. |
| `WakeUps.InitiativeWoken` | internal/controller/azurepolicyinitiative_controller.go:262-285 | Whenever a definition parks an initiative, an event on it enqueues that initiative exactly once. |
| `WakeUps.AssignmentWoken` | internal/controller/azurepolicyassignment_controller.go:123-140 | The same for assignments. |

## Left out

- Lost responses: in runs a failed Azure call is taken to have had no effect; what one put that takes effect and reports an error does to an assignment's ownership is AssignmentReach.LostReplyExactly.
- Letter case in Azure's keys: Azure ignores it, the maps do not; IDs are compared as the code compares them.
- An empty resource name is sent like any other; the Azure client rejects it before the call.
- Answers without properties or with nil required fields count as failed reads.
- Changes to exemptions, role assignments and role definitions by others during a run; others may change assignments, definitions and initiatives.
- Changes by others between the calls of one reconcile, in particular a creation between the existence check and the write: they fall between steps.
- JSON: parameters, metadata and policy rules, and the version entry merged into metadata.
- AssignmentService.Service.BuildBody: does not build parameters and metadata, which a JSON library decodes.
- AssignmentService.Service.CreateOrUpdate: writes that body, so without parameters and metadata.
- Documents.Service.CreateOrUpdate: writes a body without metadata, parameters and policy rules, for the same reason.
- Documents.Service.BuildPolicyDefinitionRefs: carries the IDs of the references and not their parameters, for the same reason.
- Paging of the role definition list: a lookup is a function of scope and role name.
- SHA-1 and UUID generation: an uninterpreted hash and a supply of fresh names; RFC 3339 parsing is an uninterpreted function.
- Case folding beyond ASCII letters.
- Conflicts on resource versions: an update of the stored resource either persists or fails.
- Events, log lines, condition messages and observed generations; conditions are a status and a reason per type.
- Requeue delays and leader election: steps run in any order.
- A nil event recorder, which one import branch of the definition and assignment controllers would dereference.
- AssignmentRuns.NoOrphan: asks status writes to persist, because a lost one is exactly what loses the assignment (AssignmentRuns.OrphanExactlyWhen).
- AssignmentRuns.LocationPreserved: asks status writes to persist, because the location is carried between reconciles by the status alone.
- AssignmentLives.LifeLeavesGrants: asks one identity spec throughout, because the code never revokes the grant of a permission that left the spec.
- ExemptionController.OneExemption: asks status writes to persist and the scope to stay; ExemptionController.OneLostExactly and ExemptionController.EditKeepsOneExactly say exactly when it is lost without that.
- DocumentRuns.AdoptOnce: asks references to be direct IDs and status writes to persist; without that the bound is DocumentRuns.AdoptOnceBudget, and DocumentRuns.ParkingWritesAgain shows that it is reached.
