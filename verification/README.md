# Verification model

A Dafny model of the parts of the repository that decide what an agent may do
to a project, and proofs about them. There are five parts.

**Applying plans.** `MemorySandbox` models the in-memory sandbox session, a
tree of files and directories with path rules and limits. `Rollback` models the
ordered application of a plan and its reverse undo, and proves that the undo
restores the tree. The undo of one step need not give back the tree before that
step, since it also prunes directories that an earlier undo recreates; the
invariant is a sandwich between the initial directories and those before the
step. `Approvals` models what an approval is bound to and permits,
`ApplyService` preparations, one-time approvals, cancellation and the run
itself, and `ApplyProtocol` every interleaving of those. `ApplyConfinement`
says which files a run can change, `ApplyRestoration` when its undo restores
the tree, `ApplyInterference` when another run can spoil that, and
`SnapshotDiff` models the difference that a run reports. `SandboxRules` says
when a write or a removal is done, and what it then changes.

**Run grants and the tool gateway.** `RunGrants` models the ledger that caches
its counters, `SqliteRunGrants` the one that derives them from a table of
reservations, and proves that the second refines the first. `Gateway` models
the gateway cut at its single await, `GatewayRuns` every interleaving of its
steps with kill, aborts and grant transitions. `Audit` models the hash chain of
audit events in both sinks. `RunGrantRules`, `GatewayRules` and `AuditRules`
say of each operation exactly when it is accepted and what it changes, and
prove that one revision of a grant admits one change, in memory and over the
tables.

**Routing.** `Requests` normalizes requests, `Candidates` filters providers,
`RouteSearch` enumerates assignments, `Ownership` resolves who may write what,
`Ranking` compares routes and `Router` decides. `RequestRules`, `RankingRules`,
`RoutingRules` and `OwnershipRules` say what a normalized request holds, what
ranks better, who is eligible, what is offered, found and in conflict, over
assignments, claims and catalog alone. `LeadingOptions` shows which of the
routes with one signature survive deduplication. `RouterResults` and `Routing`
prove what the decision means and what it does not depend on, and
`OrderlyCatalogs` for which catalogs it is the best of all routes.

**Policy.** `Policy` folds layered policies, `PolicyResults` says exactly which
layers resolve and what the resolved policy guarantees.

**Identity of content.** `CanonicalJson` models canonical serialization and
proves it injective up to member order and the sign of zero. String quoting
follows JSON strings (section 7 of RFC 8259); keys sort by UTF-16 code unit,
the order that section 3.2.3 of RFC 8785 also uses, and `CanonicalForm` says
which text is the canonical one. `Evidence`, `EvidenceResults` and
`EvidenceOrder` model ingestion, normalization and verification of evidence,
and `EvidenceRules` says field by field what is accepted, what the envelope
holds and when it verifies.

Code that changes state is modelled by classes and methods with loops. Each
such method is proved against a function on values, and the properties are
lemmas about those functions, over all inputs or all runs. `Sorting` and `Base`
hold what the others share. `dafny verify dfyconfig.toml` checks everything.

## Conventions

- Paths are canonical relative paths, given by their segments.
- SHA-256 is a parameter. Where a property needs it, it is injective.
- A clock is a function from the number of the reading to milliseconds.
- Identifiers drawn at random are parameters; where it matters they are new.
- Comparison by locale is an abstract total order on strings. Where fields are
  joined by a zero character before they are compared, so are they here for
  options (`RouteSearch.SortKey`); for ownership and requests the fields are
  compared one by one.
- Confidence is a real number, and how a number is written is a parameter.
- Numbers in canonical JSON are doubles, a finite one given by its bits. How one
  is written is a parameter with the properties in `AreNumerals`, which
  `CanonicalJson.DecimalsAreNumerals` shows can be met.
- Lists that the policy resolver keeps sorted and without duplicates are sets.

## Where the code differs from what one might expect

- Removing a file has no check of writable roots, writing it back has one. So
  a deletion on a denied path cannot be undone; `Undoable` asks for a writable
  path where there was a file.
- A write onto an existing directory replaces it (`Rollback.UndoOnDirectory`),
  and the undo of a create below an existing file deletes that file
  (`Rollback.UndoBelowFile`).
- So the undo can change a file that the approval does not permit to change:
  exactly the files above a recorded operation are deleted
  (`ApplyConfinement.UndoneRunDeletesExactly`). If no unplanned file lies above
  a planned path, which plan and tree tell, only permitted files change
  (`ApplyConfinement.OnlyPlannedFilesChange`).
- A write that is refused may still have created parents, and a removal that
  is refused for the operation limit has already removed its entry.
- A run reported as cancelled need not be undone: the cancellation may have
  arrived during the close (`ApplyService.LateCancellationKeepsTheWork`).
- The sandbox is asked for after an await, with the policy then stored under the
  run id. A later preparation with the same run id replaces the checked one
  (`ApplyProtocol.LaterPolicyIsUsed`).
- Run ids are the first sixteen characters of the nonce, and the undo looks the
  kept contents up under the run id. `ApplyRestoration.AlwaysFaithful` asks that
  no other run takes the id while the run applies its plan. Two approvals can
  interfere if and only if their run ids coincide
  (`ApplyInterference.IdsDecideRestoration`).
- Deduplication keeps the first route seen of those with one signature, not
  the best, and options are tried in the order of a text in which the
  confidence is negated, so that the lower one may come first. The decision is
  optimal among the routes it keeps, for every request. For which catalogs it is
  optimal among all is said exactly by `OrderlyCatalogs.AlwaysBestIffOrderly`;
  `OrderlyCatalogs.DuplicateClaimsLoseTheBest` is a catalog for which it is not.
- An effective policy list that is empty denies everything, while an empty
  list in a layer states nothing, so that a layer can turn the one into the
  other (`PolicyResults.EffectiveCanGrow`). When it does not is said exactly by
  `PolicyResults.EffectiveTightensExactly`.
- The two commit operations check in different orders. They are compared by
  success and by the resulting records, not by the error.

## Model

| member | source | states |
|---|---|---|
| MemorySandbox.MemorySandbox.EnsureParents | packages/sandbox/src/memory-sandbox.ts:108-121 | Missing parents become directories, up to the first file in the way; the parents made before it stay made. |
| MemorySandbox.MemorySandbox.CountFiles | packages/sandbox/src/memory-sandbox.ts:158-164 | The loop counts the files of the tree, and only the files. |
| MemorySandbox.MemorySandbox.Write | packages/sandbox/src/memory-sandbox.ts:123-156 | A write does exactly what `AfterWrite` says: the new tree, counters and refusal, in the order of the checks. |
| MemorySandbox.MemorySandbox.Remove | packages/sandbox/src/memory-sandbox.ts:180-213 | A removal does exactly what `AfterRemove` says: a directory only when empty, and the entry is gone before the limit is checked. |
| MemorySandbox.WrittenIsReadBack | packages/sandbox/src/memory-sandbox.ts:123-174 | After a write its path reads back the content if the write was done, and every other path, or every path if it was refused, reads as before. |
| SandboxRules.WritesExactly | packages/sandbox/src/memory-sandbox.ts:123-156 | A write is done if and only if its path lies under a writable root and no denied path, no file is in the way, and time, operations, bytes and files allow it; it changes its own path and creates missing parents, and nothing else. |
| SandboxRules.RefusedWriteLeaves | packages/sandbox/src/memory-sandbox.ts:123-156 | A refused write leaves every entry, and what it did before the check that failed: parents made, the clock read, operations and bytes counted. |
| SandboxRules.RemovesExactly | packages/sandbox/src/memory-sandbox.ts:180-213 | An entry goes if and only if the session is open and in time, it is not the root and has nothing below it; the reply tells this unless the operations were used up. |
| Rollback.RollbackRestores | packages/apply/src/apply-service.ts:509-566 | After any run, failed or cancelled at any point, whose recorded operations met undoable paths, and with the time left and operations and bytes for the files to be written back, the reverse undo has no failure and gives the initial tree, files and directories. |
| Rollback.FittingPlanIsRestored | packages/apply/src/apply-service.ts:257-341 | The same from conditions on the plan, its contents and the session it starts from alone, whatever the provider fails to answer and whenever the run stops. |
| Rollback.CreatesNeedNoBudget | packages/apply/src/apply-service.ts:544-552 | For a run that created files only, the condition on operations and bytes always holds, since refused removals do not count as failures. |
| Rollback.RunStaysOnPlan | packages/apply/src/apply-service.ts:257-329 | A run records the planned operations in order, each with the file that those before it leave at its path, and uses no more operations and bytes than they cost. |
| Rollback.OneOperationIsRestoredExactly | packages/apply/src/apply-service.ts:530-566 | For one operation: its undo is reported without failure and restores the tree if and only if its path was undoable and there is enough left to write a file back, or its write was refused on a directory that cannot be removed. |
| Rollback.UndoOnDirectory | packages/sandbox/src/memory-sandbox.ts:147-155 | A write onto an existing directory replaces it by the file unless it is refused for its path or the limits, and the undo removes whatever is then there: the exact tree after both. |
| Rollback.UndoBelowFile | packages/apply/src/apply-service.ts:544-552 | A create below an existing file is refused and changes nothing; its undo deletes exactly that file, which the plan never named. |
| Rollback.UndoFromSandwich | packages/apply/src/apply-service.ts:509-566 | Undoing the records of a run from any tree between the initial directories and the run's own restores the initial tree: the induction that survives pruning. |
| Rollback.UndoEffect | packages/apply/src/apply-service.ts:530-566 | Undoing one record takes a tree in the sandwich after the step to one in the sandwich before it. |
| Rollback.PruneEffect | packages/apply/src/apply-service.ts:546-552 | Pruning removes only directories that are neither initial nor above a file. |
| Rollback.RestoredFileFits | packages/sandbox/src/memory-sandbox.ts:147-154 | The file limit never refuses a write that restores a file. |
| Rollback.ForwardEffect | packages/apply/src/apply-service.ts:257-329 | At every step of a run whose recorded operations met undoable paths the session is open, its tree is well formed, within the file limit, and still has every initial directory. |
| Rollback.UnfailedRunIsApplied | packages/apply/src/apply-service.ts:257-329 | A run without failure has applied every operation in order: each file is the one the plan says. |
| Approvals.FirstViolation | packages/apply/src/apply-service.ts:186-199 | The checks made again before mutation pass if and only if the approval is intact, unexpired, bound to plan, project and policy, without commands or hosts, within the limits, and the branch is not protected. |
| Approvals.BoundExactly | packages/apply/src/apply-service.ts:83-174 | What preparing asks of approval, plan and sandbox policy before it looks at operations, field by field. |
| Approvals.PermitsExactly | packages/apply/src/approval-validation.ts:74-104 | An operation passes if and only if its kind is allowed and its first segments, at least one or the root itself, are an allowed path; a path that only begins with the same letters does not pass. |
| ApplyService.ApplyService.AssertBound | packages/apply/src/apply-service.ts:186-199 | The checks are made again in the order of the source, and the first that fails is the refusal. |
| ApplyService.ApplyService.Prepare | packages/apply/src/apply-service.ts:83-174 | Stores a fresh preparation under the run id, ready if and only if the approval is intact, unexpired, unused, bound to plan, project and policy, without commands or hosts, within the limits, the branch is not protected, and each operation has an allowed kind and a path that begins with, or is, an allowed one. |
| ApplyService.ApplyService.Cancel | packages/apply/src/apply-service.ts:424-432 | Adds the run to the cancelled runs and changes nothing else. |
| ApplyService.ApplyService.PerformOperation | packages/apply/src/apply-service.ts:269-315 | Performs one operation and records what its undo needs, as `Perform` says. |
| ApplyService.ApplyService.UndoOperation | packages/apply/src/apply-service.ts:538-558 | The pruning loop and the restoring write do what `AfterUndo` says. |
| ApplyService.ApplyService.RollbackInSandbox | packages/apply/src/apply-service.ts:509-597 | The reverse loop undoes all records in descending order and reports failure exactly if one failed or the tree differs. |
| ApplyService.ApplyService.Run | packages/apply/src/apply-service.ts:255-373 | The run, with cancellations arriving at any read, reports what `ReportOf` says. |
| ApplyService.ApplyService.Apply | packages/apply/src/apply-service.ts:176-243 | Only the stored preparation object, unused, bound and ready, starts a run, which reserves its approval first; the sandbox is then asked for with the policy stored under the run id after that await; each refusal in order, also of a sandbox that cannot be created or read. |
| ApplyService.AppliedMeansApplied | packages/apply/src/apply-service.ts:255-373 | A run reported as applied applied every operation and left exactly the files of the plan. |
| ApplyService.StatusTells | packages/apply/src/apply-service.ts:331-373 | For every run: cancelled if and only if a cancellation came before the last read; otherwise a failed run is reported as failed to roll back exactly if an undo failed or the tree differs, and rolled back means the initial tree. |
| ApplyService.PlanDigestsDecideTheFiles | packages/apply/src/apply-service.ts:286-295 | With a digest for every content, two applied runs on one tree leave the same files, whatever their providers. |
| ApplyService.UndoableRunIsRolledBack | packages/apply/src/apply-service.ts:331-373 | The exact status of an undoable run with room: cancelled if a cancellation arrived before the end, else rolled back if it failed, else applied; and undone means the initial tree. |
| ApplyService.LateCancellationKeepsTheWork | packages/apply/src/apply-service.ts:343-373 | A cancellation that arrives during the close is reported as cancelled although the work was kept: a concrete run. |
| ApplyProtocol.AlwaysSafe | packages/apply/src/apply-service.ts:176-373 | Every interleaving of prepare, apply, cancel and run steps keeps the invariant of used approvals, authorized runs and their progress. |
| ApplyProtocol.OneRunPerApproval | packages/apply/src/apply-service.ts:176-218 | In every interleaving at most one run per nonce reaches mutation. |
| ApplyProtocol.FinishedMeans | packages/apply/src/apply-service.ts:176-373 | In every interleaving each run started under an unexpired approval bound to its plan, each of its operations has a kind that the approval allows and a path of which some beginning, or all, is an allowed path; applied means the whole plan was applied, and rolled back means the initial tree. |
| ApplyProtocol.PolicyIsTheCheckedOne | packages/apply/src/apply-service.ts:220-237 | In every interleaving in which nothing is prepared under the run id between reservation and sandbox, a run works under the policy its approval was checked against. |
| ApplyProtocol.LaterPolicyIsUsed | packages/apply/src/apply-service.ts:599-609 | Otherwise it works under the policy prepared meanwhile, for any two inputs with one run id, whether the later one is approved or not. |
| ApplyConfinement.OnlyApprovedFilesChange | packages/apply/src/apply-service.ts:255-341 | At every point of every interleaving, a file that differs from the initial one is at a path of which some beginning, or all, is an allowed path, with an operation of an allowed kind, or, once the undo has begun, was there at the start above a recorded operation. |
| ApplyConfinement.OnlyPlannedFilesChange | packages/apply/src/apply-service.ts:255-341 | If in the initial tree no file that the plan does not name lies above a planned path, then at every point of every interleaving only files change whose own path has some beginning, or all of it, as an allowed path, and an operation of an allowed kind. |
| ApplyConfinement.UndoneRunDeletesExactly | packages/apply/src/apply-service.ts:530-558 | When a run that keeps its id has been undone in time, an unplanned file has changed if and only if it was there at the start above a recorded operation, and then it is gone. |
| ApplyRestoration.AlwaysFaithful | packages/apply/src/apply-service.ts:220-341 | A run whose id no other run takes while it applies its plan undoes exactly what it recorded itself, whatever runs before, after or beside it. |
| ApplyRestoration.InterleavedRunIsRestored | packages/apply/src/apply-service.ts:331-373 | Such a run, if undoable and with room, is never reported as failed to roll back, and is restored whenever it was undone. |
| ApplyRestoration.InterleavedFittingPlanIsRestored | packages/apply/src/apply-service.ts:331-373 | The same from conditions on the plan and the session it starts from alone. |
| ApplyRestoration.AloneKeepsItsId | packages/apply/src/apply-service.ts:220-224 | A run keeps its id in every interleaving in which no other nonce with that run id is prepared, since no nonce is used twice. |
| ApplyInterference.OverlapLosesTheUndo | packages/apply/src/apply-service.ts:220-224 | For any two usable approvals with one run id, and any plan whose first operation is recorded and changes the tree, some interleaving undoes the run of the first and leaves a tree other than the initial one. |
| ApplyInterference.IdsDecideRestoration | packages/apply/src/apply-service.ts:220-224 | For two usable approvals and a plan that fits its sandbox, such an interleaving of just these two exists if and only if their run ids coincide. |
| SnapshotDiff.DiffSnapshots | packages/apply/src/apply-service.ts:635-661 | The loop reports exactly the paths whose digests differ, each once, with kind, digests and the last operation there, sorted by path. |
| SnapshotDiff.DiffIs | packages/apply/src/apply-service.ts:635-661 | Exactly the paths whose digests differ have an entry, one each; created, removed and modified tell on which side there was a digest, the operation is the last one planned there, and entries go by the joined text of the path. |
| SnapshotDiff.PatchingRestores | packages/apply/src/apply-service.ts:635-661 | The difference, applied to the digests before, gives the digests after, at every path. |
| SnapshotDiff.EmptyDiffMeansSameFiles | packages/apply/src/apply-service.ts:635-661 | There is no difference if and only if the two trees have the same files. |
| RunGrants.StoreRecord | packages/core/src/run-grants.ts:345-399 | A record is made if and only if the quotas are valid, now lies in the time window and the inventory is accepted; it is active, with all counters and the revision at zero. |
| RunGrants.InMemoryRunGrantRepository.Issue | packages/core/src/run-grants.ts:194-200 | A new record is stored, an existing one refused. |
| RunGrants.InMemoryRunGrantRepository.ReserveCall | packages/core/src/run-grants.ts:206-231 | New ledger and reply of a reservation, with every refusal in the order of the checks. |
| RunGrants.InMemoryRunGrantRepository.CommitCall | packages/core/src/run-grants.ts:233-273 | New ledger and reply of a commit, with every refusal in the order of the checks. |
| RunGrants.InMemoryRunGrantRepository.ReleaseCall | packages/core/src/run-grants.ts:275-296 | New ledger and reply of a release, which compares only grant and issuer. |
| RunGrants.InMemoryRunGrantRepository.Transition | packages/core/src/run-grants.ts:325-332 | New ledger and reply of revoke and consume. |
| RunGrants.InMemoryRunGrantRepository.Expire | packages/core/src/run-grants.ts:306-315 | New ledger and reply of expire, which overwrites any state. |
| RunGrants.StepAdvances | packages/core/src/run-grants.ts:190-333 | Whatever the step: a refusal changes nothing, terms stay, usage never falls, the revision rises by one per change, and a grant never becomes active again. |
| RunGrants.ReachableIsSound | packages/core/src/run-grants.ts:190-333 | In every reachable ledger the cached counters are the count and the sum of the outstanding reservations, within both quotas, and a revision counts at most the steps. |
| RunGrants.ReservationIsAGuarantee | packages/core/src/run-grants.ts:233-273 | A genuine handle commits if and only if the response is within its cap and the grant is active and unexpired; no quota or mismatch check is ever reached. |
| RunGrants.ReleaseAlwaysSucceeds | packages/core/src/run-grants.ts:275-296 | A genuine handle can be released in every state of its grant, and usage stays as it is. |
| RunGrants.ExhaustedHasNothingOutstanding | packages/core/src/run-grants.ts:254-272 | An exhausted grant has no outstanding reservation. |
| RunGrants.ActiveHasHeadroom | packages/core/src/run-grants.ts:206-231 | An active, unexpired grant with nothing outstanding can reserve one more call. |
| RunGrantRules.IssuesExactly | packages/core/src/run-grants.ts:194-200 | A grant is issued if and only if its quotas are in range, now lies in its window, the inventory is accepted and its identifiers are new; it is stored active and unused. |
| RunGrantRules.ReservesExactly | packages/core/src/run-grants.ts:206-231 | A call is reserved if and only if the grant exists at the named revision, active and unexpired, with a call and some bytes left beside what is reserved; a refusal changes nothing. |
| RunGrantRules.ReservesWhat | packages/core/src/run-grants.ts:206-231 | The handle holds the response limit, or what is left of the total if that is less; counters and revision of that grant move by exactly this, and no other record changes. |
| RunGrantRules.CommitsExactly | packages/core/src/run-grants.ts:233-273 | In a ledger whose counters are right, a commit is accepted if and only if the handle is the stored one in every field, the response is within it, and its grant is active and unexpired. |
| RunGrantRules.CommitsWhat | packages/core/src/run-grants.ts:233-273 | A commit uses one call and the bytes of the response, gives the rest back, and exhausts the grant if and only if a quota is then used up. |
| RunGrantRules.ReleasesExactly | packages/core/src/run-grants.ts:275-296 | A release is accepted if and only if a reservation of that identifier is stored for the same grant of the same issuer; it gives back what the stored one holds. |
| RunGrantRules.EndsExactly | packages/core/src/run-grants.ts:306-333 | Revoking and consuming ask for the named revision of an active, unexpired grant, expiring for the named revision of one past its time in any state; each sets its own state and moves the revision by one. |
| RunGrantRules.RevisionIsNamed | packages/core/src/run-grants.ts:184-188 | An operation that names a revision is accepted at that revision only, and moves it by one. |
| RunGrantRules.OneChangePerRevision | packages/core/src/run-grants.ts:184-188 | Over every run: of two operations that name one revision of one grant at most one is accepted. |
| SqliteRunGrants.SqliteRunGrantRepository.CountAndSum | packages/core/src/sqlite-run-grants.ts:169-172 | The loop gives the number and the sum of the reservation rows of one grant. |
| SqliteRunGrants.SqliteRunGrantRepository.Read | packages/core/src/sqlite-run-grants.ts:169-185 | Reading decodes the row with the derived counters. |
| SqliteRunGrants.SqliteRunGrantRepository.Issue | packages/core/src/sqlite-run-grants.ts:89-102 | The transaction inserts the row or leaves the database alone. |
| SqliteRunGrants.SqliteRunGrantRepository.ReserveCall | packages/core/src/sqlite-run-grants.ts:106-120 | The transaction reserves with a compare-and-set of the revision, or leaves the database alone. |
| SqliteRunGrants.SqliteRunGrantRepository.CommitCall | packages/core/src/sqlite-run-grants.ts:122-138 | The transaction deletes the reservation, updates the row and reads it back, or leaves the database alone. |
| SqliteRunGrants.SqliteRunGrantRepository.ReleaseCall | packages/core/src/sqlite-run-grants.ts:140-149 | The transaction releases a handle that matches in every field, or leaves the database alone. |
| SqliteRunGrants.SqliteRunGrantRepository.Transition | packages/core/src/sqlite-run-grants.ts:209-211 | The transaction revokes or consumes, or leaves the database alone. |
| SqliteRunGrants.SqliteRunGrantRepository.Expire | packages/core/src/sqlite-run-grants.ts:154-161 | The transaction expires the grant, or leaves the database alone. |
| SqliteRunGrants.SqliteRefinesInMemory | packages/core/src/sqlite-run-grants.ts:89-212 | For every run with genuine handles the two repositories accept the same events and give equal records and reservations. |
| SqliteRunGrants.SqliteRunHolds | packages/core/src/sqlite-run-grants.ts:89-212 | At every point of such a run the tables are the in-memory maps without the cached counters. |
| SqliteRunGrants.DecodesToTheRecord | packages/core/src/sqlite-run-grants.ts:169-185 | Decoding never rejects a reached row and gives the record, cached counters included. |
| SqliteRunGrants.ReleasesAgreeExactly | packages/core/src/sqlite-run-grants.ts:201-207 | The two releases agree on a handle if and only if it is genuine in every field or unknown to both. |
| RunGrantRules.ReadsExactly | packages/core/src/sqlite-run-grants.ts:169-185 | A grant is read if and only if its row has quotas in range and usage and reservations within them; the counters are the number and the sum of its reservation rows. |
| RunGrantRules.SqlReservesExactly | packages/core/src/sqlite-run-grants.ts:106-120 | Whatever the tables hold: a call is reserved if and only if the row reads as a record at the named revision, active and unexpired, a call and bytes are left beside its reservation rows, and the identifier is unused; one row is added and one revision moves. |
| RunGrantRules.OneSqlChangePerRevision | packages/core/src/sqlite-run-grants.ts:36-38 | Over every run of the tables, from any tables: of two operations that name one revision of one grant, by whichever process, at most one is accepted. |
| Gateway.ReadOnlyToolGateway.Begin | packages/core/src/read-only-gateway.ts:131-167 | The synchronous start, with its refusals in order, its audit event and its reservation. |
| Gateway.ReadOnlyToolGateway.Kill | packages/core/src/read-only-gateway.ts:128 | Marks the gateway killed and aborts every call in flight that has no abort reason yet. |
| Gateway.ReadOnlyToolGateway.Abort | packages/core/src/read-only-gateway.ts:159-166 | The first abort of a call gives its reason and settles its race. |
| Gateway.ReadOnlyToolGateway.Settle | packages/core/src/read-only-gateway.ts:169-171 | The provider settles a race that is still open, and only then. |
| Gateway.ReadOnlyToolGateway.Release | packages/core/src/read-only-gateway.ts:182-189 | The catch and finally blocks: the reservation is given back, the call leaves, the code is reported. |
| Gateway.ReadOnlyToolGateway.Resume | packages/core/src/read-only-gateway.ts:172-189 | The continuation after the await, with every check before the commit. |
| GatewayRules.BeginsExactly | packages/core/src/read-only-gateway.ts:131-159 | A call begins if and only if gateway and signal are not aborted, the deadline is readable and ahead, the stored grant has the token and is active and unexpired, the inventory is the one it was given for, the tool is in it, read-only and listed in the grant, consent is given where content is exposed, the input is valid, and a call with some bytes is left. Otherwise only the audit may grow. |
| GatewayRules.EveryCallBeganSo | packages/core/src/read-only-gateway.ts:131-159 | In every interleaving each call in flight, and each that has returned output, began at a moment when all of this held. |
| GatewayRules.AbortsExactly | packages/core/src/read-only-gateway.ts:159-166 | An abort changes its own call only: the first reason stays, and the race is settled by it if it was open. |
| GatewayRules.KillsExactly | packages/core/src/read-only-gateway.ts:128 | Kill does so to every call in flight, and changes nothing else but the mark. |
| GatewayRules.SettlesExactly | packages/core/src/read-only-gateway.ts:169-171 | What the provider gives or throws counts only while the race is open, and changes no other call. |
| GatewayRules.ReturnsExactly | packages/core/src/read-only-gateway.ts:172-189 | In every good state a call returns output if and only if the provider gave it, nobody aborted the call or killed the gateway, the grant is still valid, the output fits its schema and its size the reservation. |
| GatewayRuns.AlwaysGood | packages/core/src/read-only-gateway.ts:128-190 | Every interleaving of starts, provider outcomes, aborts, kill, ends and grant transitions keeps the invariant of reservations, calls and audit. |
| GatewayRuns.ReservationsMatchCallsInFlight | packages/core/src/read-only-gateway.ts:153-189 | In every interleaving outstanding reservations and calls in flight match one to one; no call has two audit events and each event tells how its call ended; tool calls reported are calls used. |
| GatewayRuns.ResumeSettlesOnce | packages/core/src/read-only-gateway.ts:172-189 | Ending a call removes its reservation and no other, uses a call exactly if output is returned, and reports the first abort reason. |
| GatewayRuns.KilledStep | packages/core/src/read-only-gateway.ts:128-190 | No step of a killed gateway uses a call or returns output. |
| GatewayRuns.NothingAfterKill | packages/core/src/read-only-gateway.ts:128-190 | After kill no call returns output or commits, whatever the rest of the interleaving. |
| GatewayRuns.FirstAbortReasonStays | packages/core/src/read-only-gateway.ts:155-175 | Through every continuation of an interleaving the first abort reason of a call in flight stays, and is what the call ends with, unless the provider had thrown. |
| Audit.InMemoryAuditSink.Append | packages/core/src/audit.ts:18-25 | An event is appended with the next sequence and the digest of the last, or refused. |
| Audit.SqliteAuditSink.Append | packages/core/src/sqlite-audit.ts:33-44 | The transaction inserts the next row, or leaves the table alone. |
| Audit.SqliteAuditSink.ReadAll | packages/core/src/sqlite-audit.ts:45-54 | Whatever the table holds, the loop accepts it if and only if it is an intact chain. |
| Audit.AppendsAreReadBack | packages/core/src/sqlite-audit.ts:33-54 | Every sequence of appends gives both sinks the same events, which are read back as an intact chain. |
| Audit.DigestDecidesHistory | packages/core/src/audit.ts:12-25 | Two intact chains that share a digest agree in its position and in every event up to it. |
| Audit.LastDigestDecidesChain | packages/core/src/audit.ts:12-25 | Two intact chains with one last digest are the same in length and in every event. |
| AuditRules.AppendsExactly | packages/core/src/audit.ts:18-25 | In memory an event is appended if and only if its position and link follow the last event, its texts are a text and a time, its position is a safe integer, and it carries its own digest. |
| AuditRules.SqlAppendsExactly | packages/core/src/sqlite-audit.ts:33-44 | A row is inserted if and only if, besides this, the row of the greatest key has a position to follow and neither position nor digest is taken. |
| AuditRules.ReadsExactly | packages/core/src/sqlite-audit.ts:45-54 | The rows come by ascending key, and are accepted if and only if each stands at its position, may stand, links to the one before and carries its own digest. |
| Ranking.CompareVectors | packages/core/src/router/rank.ts:53-63 | The loop with early return compares as the recursive definition, missing entries being unranked. |
| Ranking.CompareRouteCandidates | packages/core/src/router/rank.ts:116-148 | The loops with early return compare by the eight criteria in order. |
| Ranking.CompareOpposite | packages/core/src/router/rank.ts:116-148 | Exchanging the two routes reverses the comparison. |
| Ranking.CompareTransitive | packages/core/src/router/rank.ts:116-148 | The ranking is transitive, strictly so if one of the steps is strict. |
| RankingRules.RanksExactly | packages/core/src/router/rank.ts:65-148 | A route ranks better if and only if it beats the other criterion by criterion: fewer third-party providers; else more native coverage; else more of its providers installed; else more of them reached at the first position of the preferences where the numbers differ; else more primary, then more secondary, then less fallback support; else more confidence. |
| Ownership.ResolveOwnership | packages/core/src/router/ownership.ts:165-263 | The nested loops find the constraints of all pairs, the scopes to split and the status; ownership and constraints are sorted by locale. |
| Ownership.ConstraintsFind | packages/core/src/router/ownership.ts:202-248 | A constraint is reported if and only if some pair gives rise to it. |
| Ownership.FineMeansExclusive | packages/core/src/router/ownership.ts:204-261 | Ownership is fine if and only if no property can be written by two providers of one scope that both name the scope or both name the property. |
| Ownership.FewerAssignmentsStayFine | packages/core/src/router/ownership.ts:204-261 | Leaving assignments out keeps fine ownership fine. |
| OwnershipRules.TemplatesAre | packages/core/src/router/ownership.ts:41-145 | The defaults, read the other way round: which capabilities may write a property, and which make up a domain; any other capability writes itself alone. |
| OwnershipRules.OwnsExactly | packages/core/src/router/ownership.ts:165-196 | An owner has the trimmed texts that the first capability of its id gives for scope and property, unless they are blank, and the defaults otherwise. |
| OwnershipRules.StatusExactly | packages/core/src/router/ownership.ts:202-261 | Blocked if and only if two providers claim one property of one scope by name; else input is needed if and only if two of one named scope share a property that one of them does not name. |
| OwnershipRules.ReportsExactly | packages/core/src/router/ownership.ts:202-248 | A constraint is reported if and only if some pair, the earlier owner first, makes such a claim or clash. |
| OwnershipRules.ReportsAreOrdered | packages/core/src/router/ownership.ts:147-163 | Owners come by provider, scope, domain and property, constraints by code and message: at the first component in which two differ the locale decides. |
| Requests.UniqueInOrder | packages/core/src/router/route-capabilities.ts:107-116 | The loop keeps each value once, in order of first appearance. |
| Requests.UniqueCapabilities | packages/core/src/router/route-capabilities.ts:128-150 | The loop over a map rejects exactly the contradictory requests and otherwise keeps each capability once. |
| Requests.NormalizeRequest | packages/core/src/router/route-capabilities.ts:128-173 | Normalization gives what `Normalize` says, or rejects. |
| Requests.NormalizationIgnoresOrder | packages/core/src/router/route-capabilities.ts:128-173 | The result, or the rejection, is the same for every order and consistent duplication of the capabilities. |
| Requests.NormalizingTwice | packages/core/src/router/route-capabilities.ts:128-173 | Normalizing is idempotent. |
| RequestRules.RejectsExactly | packages/core/src/router/route-capabilities.ts:128-150 | A request is rejected if and only if two of its entries for one capability differ in what they require or in the qualities they name; no quality and an empty one are the same. |
| RequestRules.NormalizesExactly | packages/core/src/router/route-capabilities.ts:118-173 | Each capability asked for has one entry, by identifier, that says what was asked, without an empty quality; preferred providers come in order of first appearance, forbidden ones sorted, each once; the rest stays. |
| Candidates.BuildProviderCandidates | packages/core/src/router/candidates.ts:176-278 | The loop gives the eligible providers in order, with their sorted claims and integrations, and the reason for each other one. |
| Candidates.CandidateFound | packages/core/src/router/candidates.ts:186-265 | A candidate is a listed provider that passes every check, and nothing else is one. |
| Candidates.ForbiddingRemovesOne | packages/core/src/router/candidates.ts:187-195 | Forbidding one provider more takes away that candidate and changes no other. |
| RoutingRules.EligibleExactly | packages/core/src/router/candidates.ts:186-265 | A provider is a candidate if and only if it is neither forbidden nor denied, allowed, catalogued, selectable, healthy and reviewed, and has usable runtimes all of which are licensed, paid for where needed and harmless. |
| RoutingRules.CandidateIs | packages/core/src/router/candidates.ts:228-265 | A candidate is native, supported and installed exactly as platform name, React version and declared packages tell; its integrations are those of its usable runtimes, and its claims the connector's, by capability. |
| RouteSearch.AssignmentOptions | packages/core/src/router/route-capabilities.ts:183-243 | The loops collect the supported claims for a capability and sort them by the text of support, negated confidence and provider. |
| RouteSearch.OptionsOffer | packages/core/src/router/route-capabilities.ts:183-243 | An assignment is an option if and only if some candidate claims it in a supported environment. |
| RoutingRules.OptionsExactly | packages/core/src/router/route-capabilities.ts:183-243 | An assignment is an option if and only if some claim of a supported candidate offers it: its provider, nativeness, support and confidence, with the provider's first position among the preferences. |
| RoutingRules.OptionsAreTriedInOrder | packages/core/src/router/route-capabilities.ts:220-238 | Options come by the text of support, negated confidence and provider. |
| RouteSearch.EnumerationIsComplete | packages/core/src/router/route-capabilities.ts:453-548 | The enumeration contains a route if and only if some choice of one option or omission per capability amounts to it. |
| LeadingOptions.OwnOptions | packages/core/src/router/route-capabilities.ts:193-238 | The options of one provider are its claims for the capability in their own sorted order, wherever other providers' options come between them. |
| LeadingOptions.CombinationsAreLed | packages/core/src/router/route-capabilities.ts:530-548 | Among all combinations, before every other one of its signature comes the one that takes the first option of each provider. |
| Router.FoundMeansStrictlyBest | packages/core/src/router/route-capabilities.ts:580-658 | A route is found if and only if it is an admissible route of first options and ranks strictly better than every other such route. |
| Router.TieMeansTwoOptimal | packages/core/src/router/route-capabilities.ts:590-624 | A tie is reported if and only if two admissible routes of first options, of different architectures, rank as well as any other. |
| Router.TieNamesTheLeaders | packages/core/src/router/route-capabilities.ts:580-624 | A tie names two routes if and only if these are the first two by rank and then signature, and rank equal. |
| Router.DeduplicatedRoutes | packages/core/src/router/route-capabilities.ts:416-426 | Deduplication keeps exactly the routes that take the first option of each provider, one per signature. |
| RouterResults.EveryAnswerHasItsCause | packages/core/src/router/route-capabilities.ts:453-734 | Each answer without a route has its cause, which excludes every better answer; the catch-all at the end is never given. |
| RouterResults.BestAmbiguity | packages/core/src/router/route-capabilities.ts:660-684 | Of the routes of first options whose ownership needs input, the one reported is one and ranks as well as any. |
| RouterResults.EveryProviderIsNeeded | packages/core/src/router/route-capabilities.ts:537-587 | In an optimal route every third-party provider covers a required capability. |
| RouterResults.RaisingTheLimit | packages/core/src/router/route-capabilities.ts:560-578 | Raising maxProviders changes neither a found route nor the two routes of a tie. |
| RouterResults.RemovingUnused | packages/core/src/router/route-capabilities.ts:580-658 | Taking a candidate away that the found route does not use leaves the decision as it is. |
| RouterResults.RemovingUnusedFromTie | packages/core/src/router/route-capabilities.ts:590-624 | Taking a candidate away that neither route of a tie uses leaves the tie as it is. |
| Routing.ExtendAll | packages/core/src/router/route-capabilities.ts:531-547 | The nested loops extend every combination by omission, if allowed, and by every option. |
| Routing.Enumerate | packages/core/src/router/route-capabilities.ts:453-548 | The loop over the capabilities gives all combinations, or the first required one that nothing covers. |
| Routing.Classify | packages/core/src/router/route-capabilities.ts:550-578 | The loop sorts the routes into valid, ambiguous and blocked, and notes whether the limit was exceeded. |
| Routing.DeduplicateRoutes | packages/core/src/router/route-capabilities.ts:416-426 | The loop keeps the first route seen with each key. |
| Routing.Search | packages/core/src/router/route-capabilities.ts:453-734 | The search decides as `Decide` says. |
| Routing.RouteCapabilities | packages/core/src/router/route-capabilities.ts:428-734 | The whole routing of a request decides as `Routed` says. |
| Routing.RequestOrderIsIrrelevant | packages/core/src/router/route-capabilities.ts:128-173 | The decision does not depend on the order or the repetition of the requested capabilities. |
| Routing.RoutedMeansStrictlyBest | packages/core/src/router/route-capabilities.ts:428-658 | For every request that normalizes: a route is found if and only if it ranks strictly better than every other admissible route of first options. |
| RoutingRules.FoundExactly | packages/core/src/router/route-capabilities.ts:428-658 | For every request that normalizes: a route is found if and only if it contends and beats every other contender, criterion by criterion over its assignments, and its status tells whether it has none, native ones only, or others too. |
| RoutingRules.TiesExactly | packages/core/src/router/route-capabilities.ts:590-624 | The two routes of a tie contend, neither beats the other, and no other contender beats either. |
| Routing.ForbiddingUnused | packages/core/src/router/candidates.ts:187-195 | Forbidding a provider that no route of the answer uses leaves the answer, found route or tie, as it is. |
| OrderlyCatalogs.OrderlyMeansBestOfAll | packages/core/src/router/route-capabilities.ts:580-658 | If each candidate's first option for a capability is no worse than its others, the found route is as good as every admissible route and better than all of other architectures, and one is found whenever such a route exists. |
| OrderlyCatalogs.AlwaysBestIffOrderly | packages/core/src/router/route-capabilities.ts:220-238 | For a catalog: every request answered with a route is answered with the best of all admissible ones if and only if each eligible provider's first claim for a capability, in the sorted order, is no worse than its others. |
| OrderlyCatalogs.DuplicateClaimsLoseTheBest | packages/core/src/router/route-capabilities.ts:220-238 | A connector that claims one capability with confidences 0.5 and 0.9, and a locale that puts the text of -0.5 first: the request for it is answered with the former, although the latter makes an admissible, better route. |
| Policy.PolicyResolver.FoldAllowlist | packages/config/src/policy.ts:177-237 | One list is narrowed, kept or refused; a decision is recorded exactly if it changes. |
| Policy.PolicyResolver.FoldBool | packages/config/src/policy.ts:240-269 | One flag is kept, tightened or refused. |
| Policy.PolicyResolver.FoldNetworkMode | packages/config/src/policy.ts:449-476 | The mode is kept, tightened or refused. |
| Policy.PolicyResolver.FoldAllowedHosts | packages/config/src/policy.ts:478-495 | Hosts without allowlist mode are invalid; otherwise they are narrowed as a list. |
| Policy.PolicyResolver.FoldMaxBundle | packages/config/src/policy.ts:515-543 | The cap is set, lowered or refused. |
| Policy.PolicyResolver.FoldRequiredApprovals | packages/config/src/policy.ts:545-567 | The loop adds the approvals that are not there yet. |
| Policy.PolicyResolver.FoldLayer | packages/config/src/policy.ts:352-381 | A layer is refused with the first refusal in the order of the checks, or folded in every field. |
| Policy.PolicyResolver.Resolve | packages/config/src/policy.ts:277-447 | All layers in order give the first refusal or the effective policy, with its decisions. |
| PolicyResults.AcceptedLayerTightens | packages/config/src/policy.ts:352-381 | An accepted layer leaves every field of the fold state as tight or tighter. |
| PolicyResults.ResolvesIffTightening | packages/config/src/policy.ts:352-447 | Layers resolve if and only if each keeps to the baseline and restricts every layer before it, pair by pair. |
| PolicyResults.EffectiveKeepsEveryLayer | packages/config/src/policy.ts:383-420 | The effective lists lie within every stated list and avoid every denial, the cap is the lowest stated, approvals and denials are the unions, and the network stays denied without hosts. |
| PolicyResults.EffectiveTightensExactly | packages/config/src/policy.ts:383-420 | One more accepted layer leaves every effective list within the former one if and only if each list it grants something in was stated before. |
| PolicyResults.EffectiveCanGrow | packages/config/src/policy.ts:398-420 | An accepted layer that is the first to state a list turns the empty effective list into a non-empty one: a concrete input. |
| PolicyResults.DecisionsTellChanges | packages/config/src/policy.ts:177-447 | In the decisions that a resolution reports, a layer has one for a field if and only if it changed that field in the fold, denied connectors excepted; the baseline has its five; the denial of inherited connectors is there if and only if some were taken away; and nothing else is. |
| CanonicalJson.QuotedIsReadBack | packages/contracts/src/canonical-json/index.ts:9-12 | Quoting loses nothing: quotes, control characters, pairs and lone surrogates are all read back. |
| CanonicalJson.NormalDecidesSame | packages/contracts/src/canonical-json/index.ts:38-46 | Sorted normal forms are equal if and only if the values are the same up to member order and the sign of zero. |
| CanonicalJson.DecimalsAreNumerals | packages/contracts/src/canonical-json/index.ts:14-17 | Numerals that are decided by their text exist for all finite doubles, so the results below are about some serialization. |
| CanonicalJson.TextDecides | packages/contracts/src/canonical-json/index.ts:9-49 | The text of a normal form, followed by delimited text, determines the value and what follows. |
| CanonicalJson.TextsAgreeExactly | packages/contracts/src/canonical-json/index.ts:9-53 | Two values have the same text if and only if they are the same up to member order and the sign of zero, at every depth. |
| CanonicalJson.SameMeansSameAnswer | packages/contracts/src/canonical-json/index.ts:3-53 | Reordering members or signing a zero changes neither the text nor whether there is one. |
| CanonicalForm.SerializeWrites | packages/contracts/src/canonical-json/index.ts:9-46 | The text of an object is, in braces, the entries of its members listed once each in an order in which every earlier key has the smaller code unit where the two first differ, or ends there; strings are written unit by unit, arrays and literals as JSON has them. |
| CanonicalForm.CanonicalExactly | packages/contracts/src/canonical-json/index.ts:3-53 | A value is refused if and only if a number in it, at any depth, is not finite; otherwise that text is the answer. |
| Evidence.HasDuplicates | packages/evidence/src/normalization.ts:32-39 | The loop finds whether a string comes twice. |
| Evidence.CheckArtifacts | packages/evidence/src/ingest.ts:69-86 | The loop with its two sets accepts exactly the valid artifacts. |
| Evidence.IngestEvidence | packages/evidence/src/ingest.ts:88-146 | The loops give the first error in order, or the envelope. |
| Evidence.FindStateIssues | packages/evidence/src/verify.ts:22-42 | The loop collects the state issues of all checks. |
| Evidence.VerifyEvidence | packages/evidence/src/verify.ts:44-62 | Verification gives state, digest and id issues. |
| Evidence.SummarizeEvidence | packages/evidence/src/verify.ts:64-89 | Refused exactly if there is an issue; the loop counts each state and lists the failed checks. |
| EvidenceResults.IngestedIffAcceptable | packages/evidence/src/ingest.ts:88-126 | Results are ingested if and only if plan, checks, results and artifacts meet all conditions, whatever their order. |
| EvidenceRules.IngestsExactly | packages/evidence/src/ingest.ts:88-126 | The same field by field: plan and results bound to each other, one result per check, exit codes that go with the states, and artifacts that are digests of content supplied under their names, none twice. |
| EvidenceRules.EnvelopeExactly | packages/evidence/src/ingest.ts:88-146 | The envelope reports each planned check with its result, or as planned without one, in normal order; it lists the required checks left open, each once; digest and identifier are of subject, checks and list. |
| EvidenceRules.VerifiesExactly | packages/evidence/src/verify.ts:22-62 | An envelope has no issue if and only if no check comes twice, each may stand with its state and artifacts, the list is of the checks left open, each once, and digest and identifier are those of its contents in normal order. |
| EvidenceResults.IngestedEvidenceVerifies | packages/evidence/src/verify.ts:22-62 | Every envelope that ingestion returns passes verification without an issue. |
| EvidenceResults.PassedMeansProved | packages/evidence/src/ingest.ts:42-86 | A passed check of ingested evidence has a bound result that exited with zero, with artifacts that are hashes of supplied content. |
| EvidenceResults.CompleteMeansAllPassed | packages/evidence/src/verify.ts:64-89 | For verified evidence, complete holds if and only if every required check passed with an artifact. |
| EvidenceResults.NormalizingTwice | packages/evidence/src/normalization.ts:41-55 | Normalizing checks is idempotent. |
| EvidenceOrder.OrderDoesNotMatter | packages/evidence/src/normalization.ts:41-93 | Acceptance and the whole envelope, digest included, are the same for every order of checks, results, diagnostics and artifacts. |

## Left out

- SqliteRunGrants.SqliteRefinesInMemory: is stated for runs of fewer than 2^53 - 1 events, because decoding requires revisions to be safe integers, and for handles as reservations returned them, because the in-memory release ignores two fields of a handle (`SqliteRunGrants.ReleasesAgreeExactly` says exactly when).
- Rollback.RollbackRestores: where a file is to be written back after a created one was removed, it charges that removal one operation per path segment, the most it can use.
- ApplyRestoration.InterleavedRunIsRestored: assumes that each run has a sandbox session of its own.
- RouteSearch.AssignmentOptions: leaves out the list of claims whose environment is not supported, which serves only the reason given when a required capability has no option.
- Ownership.ResolveOwnership: gives the scopes to split as a set; the sentences that ask for them are not spelled out.
- Routing.RouteCapabilities: gives the decision and its routes. The explanation records, reason codes, digests and identifiers of the route plan are not modelled, and contract validation of inputs is taken as passed.
- Candidates.BuildProviderCandidates: takes whether a declared version proves the minimum React version as given, since version parsing is text handling; the final sort of the candidates by provider finds them in order already.
- Evidence.IngestEvidence: takes as one given fact per result that it is plain JSON without secrets, with readable times, non-empty names and harmless redactions.
- Evidence.VerifyEvidence: starts from an envelope that has passed schema validation.
- Gateway.ReadOnlyToolGateway.Release: reports the code after the release also where the code reports an output schema failure before it; the release cannot fail (`GatewayRuns.ReservationsMatchCallsInFlight`), so the events are the same.
- ApplyService.ApplyService.Prepare: gates are kept as one answer each, without codes and messages, and allowed paths are compared by segments.
- ApplyService.ApplyService.Run: crash records, evidence events and the text of errors are not modelled.
- The public rollback operation, which passes no run id and so finds no sandbox policy.
- SQLite itself: tables are maps, and a transaction happens as a whole or not at all.
- The sandbox on a temporary directory, which depends on the host file system, and path normalization.
- Tokens are compared as issued secrets, without hashing.
- Checks of text formats in stored rows: digests, timestamps and JSON columns.
- Cycles and non-plain objects in canonical JSON, which a datatype value cannot have.
- Copying of untrusted values (`copyJsonValue`) and scanning for secrets.
- Planner, lockfile, catalog snapshots, project inspector, transports and command line.
