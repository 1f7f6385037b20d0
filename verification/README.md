# Covey, verified

Covey is a coordination store for a fleet of agents. Agents register sessions,
claim subtasks under a lease and a fence number, reserve parts of a repository,
and put reviewed artifacts on a ready queue; an apply proof finally says whether
an artifact may land. This project models the core of that store in Dafny and
proves what it is relied on for. Tables are finite maps and sequences, a write
transaction is a function from tables to tables, and code that updates rows or
buffers in place is a class or a method proved against such a function.

Nothing is executed; all results are checked by the verifier:

    dafny verify dfyconfig.toml

## What is proved

**Reservations** (`Text`, `Paths`, `Overlap`, `Reservations`, `RepoopsLookup`).
Raw paths are normalised by a component stack; overlaps are found by ancestor-key
lists, prefix ranges and chunked queries. The reference is a set of paths: a scope
covers paths, and two scopes overlap when some path is covered by both. The indexed
query returns exactly the live reservations that share a path with the candidate,
for all four scope classes, on every table that request handling can produce.

**Conflicts** (`Conflicts`). Over every run of record and resolve calls there is one
row per unordered pair, open exactly when the last call touching the pair recorded it.

**Claims** (`Lifecycle`, `Claims`, `ClaimInvariants`, `ClaimSafety`, `ClaimRefusals`,
`ClaimStore`, `ClaimEffects`). The steps of the claim protocol interleave freely under an
arbitrary, even backward, wall clock. At most one (session, claim, fence) is accepted for a
subtask at any moment, a fence that was closed or whose deadline the committed clock has reached never
returns, fences count 1, 2, 3, ..., and a settled subtask stays settled. A fence an operation
refused as lease-expired stays refused unless the wall clock steps back behind the refusal.
A claim is granted exactly when the session may have it and the subtask is in the pool or
its lease has run out, and each step's effect on the rows is stated.

**Scheduler** (`Reachability`, `Scheduler`, `SchedulerRuns`, `Board`). The recursive
follow-up query is reachability; the gate written out in the queries and the shared one
agree; created dependencies never deadlock; satisfied dependencies stay satisfied; the
aging order has an exact head-start bound and an exact eventual form.

**At-most-once mutations** (`Idempotency`). A run with retries, conflicts and failures
leaves the state and records of its first successful calls alone, for every operation,
unless a retry outran a later call; made in wall-clock order, no retry does.

**Ready queue** (`ReadyQueue`). Fences per item count 1, 2, 3, ...; every reachable row
is one the proof parser accepts and returns unchanged; only the latest grantee can mark
an item applied; the claim loop grants the oldest claimable item; moves obey the
transition table except for requeueing what is stale.

**Apply proof** (`Json`, `Canonical`, `Seal`, `CheckNames`, `ApplyChecks`,
`ApplyRecords`, `ApplyProof`, `ApplyPolicy`, `ApplyRequirements`). Canonical JSON
determines a value up to key order, and a reader of RFC 8259 gives it back; the seal can be
recomputed from the finished manifest in any key order; acceptance is the conjunction of
all checks made, and it is sound and monotone.

## Where the code does less than one might expect

- The prefix range is not exact for every prefix: the successor of U+D7FF does not exist,
  so the bound passes over it and the range admits strings outside the prefix.
  `Text.RangeExactIff` gives the exact condition. A prefix that ends in `/`, as every probe's
  does, always meets it.
- Path normalisation is not idempotent. `Paths.NormalizeTwice` and `Paths.NormalFixedPointIff`
  say exactly when it is; `Paths.NotIdempotent` shows `./ a` and `./c:`.
- Conflict ids collide for arbitrary reservation ids (`Conflicts.ConflictIdCollides`), and are
  injective on pairs for generated ids (`Conflicts.ConflictIdIff`).
- The authority snapshot (`src/ops/repoops.rs`) hands the claim guard the raw wall time, where every
  writing operation hands it the advanced lease tick. `ClaimSafety.SnapshotAcceptsDeadIff` says
  exactly when it then accepts a claim whose lease has expired, and
  `ClaimSafety.SnapshotAcceptsExpired` reaches such a store.
- A refusal for an expired lease rolls back the clock advance it was judged by
  (`ClaimRefusals.RefusalLeavesNoTrace`), so with a wall clock that steps back the refused fence can be
  accepted and renewed again: `ClaimRefusals.RefusedFenceReturns` is such a run. It can return if and only
  if the committed clock has not reached its deadline (`ClaimRefusals.RefusedReturnsIff`).
- Operations advance the lease clock before the idempotency record is looked up and in the same
  transaction, so a replay commits a clock advance. It changes the tick a later call is handed
  exactly if its wall time passes that call's own and the clock of the earlier effects
  (`Idempotency.OutrunIff`); for an operation that keeps its ticks the state then differs, and only
  then (`Idempotency.LogTickIff`). This takes a wall clock that steps back
  (`Idempotency.OrderedRunIsFirstCalls`, `Idempotency.RetryMovesClock`).
- Aging is not starvation freedom (`Scheduler.FullyAgedRivalWins`), and its head-start bound cannot be
  lowered by a millisecond (`Scheduler.AgingBoundTight`).
- Requeueing a stale queue item is a move the transition table does not have. A move obeys the table
  if and only if it is not a requeue (`ReadyQueue.MoveIff`), and runs that requeue exist
  (`ReadyQueue.RequeueMoveReached`).
- A batch can accept a proof that is rejected alone, when only the batch trusts its issuers
  (`ApplyPolicy.BatchOverrideIff`), and naming a verdict or seal digest can accept a proof that is
  rejected without it, because several matching rows count as none (`ApplyPolicy.NamedDigestIff`).
  The primary key allows several verifications of one attempt under different seal digests, so on
  recorded tables this happens exactly when the matching rows have more than one seal
  (`ApplyPolicy.RecordedDigestIff`), and never once the seal is named (`ApplyPolicy.NamedSealSuffices`).
  `ApplyPolicy.RejectionIsLetInByBatch` and `ApplyPolicy.RejectionIsLetInByNaming` exhibit both.
- `close_claim_and_detach` updates the claim row alone despite its name; detaching is its callers' work
  and is modelled there.

## Model

| member | source | states |
|---|---|---|
| Text.LexicographicPrefixUpperBound | src/overlap.rs:560-574 | the loop finds the bound of the recursive definition, and every extension of the prefix lies in [prefix, bound) |
| Text.ExtensionInRange | src/overlap.rs:560-574 | completeness of the range for every prefix that has a bound |
| Text.RangeExactIff | src/overlap.rs:560-574 | the range is exactly the set of extensions if and only if only U+10FFFF was passed over on the way to the bound |
| Text.RangeLeaks | src/overlap.rs:560-574 | otherwise a string in the range that does not extend the prefix is produced |
| Text.SortedUnique | src/overlap.rs:709-716 | sort and dedup give a strictly ascending list of the same elements |
| Text.AscendingUnique | src/overlap.rs:709-716 | such a list is determined by its elements, so the order of the probes cannot matter |
| Text.TrimMeans | src/overlap.rs:109-155 | trimming takes whitespace off both ends, all of it and nothing else |
| Text.WhitespaceIff | src/overlap.rs:109-155 | the class it takes off is the 25 characters of the Unicode property White_Space |
| Text.ControlIff | src/model/types.rs:583-584 | control characters are C0, delete and C1 |
| Text.BytesDecode | src/validators.rs:371-381 | the bytes of a character decode to its code point (section 3 of RFC 3629) |
| Text.Utf8LengthIs | src/validators.rs:371-381 | the length that limits apply to is the number of those bytes |
| Paths.NormalizeRelativeRepoPath | src/overlap.rs:109-155 | the in-place stack loop computes the recursive walk, error cases included |
| Paths.NormalizeMeansOpenComponents | src/overlap.rs:109-155 | beyond trim, absolute and drive rules it fails exactly when some prefix of the components climbs above the root or nothing stays open; otherwise the result joins exactly the components no later `..` closes |
| Paths.OpenStackUnique | src/overlap.rs:109-155 | the components left open are determined by that counting definition |
| Paths.NormalizedIsNormal | src/overlap.rs:109-155 | no component of a result is empty, `.` or `..` |
| Paths.NormalFixedPointIff | src/overlap.rs:109-155 | a normal path normalises to itself if and only if it has no outer whitespace and no drive colon |
| Paths.NormalizeTwice | src/overlap.rs:109-155 | a second normalisation is the identity exactly on trimmed results without a drive colon, refuses the ones with it, and gives a strictly shorter path or refuses where there is outer whitespace |
| Paths.EveryNormalPathIsAResult | src/overlap.rs:109-155 | every normal path is the result of some input, so each of those cases is reached |
| Paths.NotIdempotent | src/overlap.rs:109-155 | two concrete inputs on which normalising twice differs from once |
| Paths.ComponentPrefixIff | src/overlap.rs:576-587 | textual "equal or starts with key and slash" is prefix by components |
| Paths.RepoopsTryFrom | src/model/types.rs:580-619 | the strip-and-collect loops compute the recursive description, error cases included |
| Paths.RepoopsMeans | src/model/types.rs:580-619 | accepts exactly the texts without control characters and climbing components that name something, and keeps just the naming components |
| Paths.NormalisersAgree | src/model/types.rs:580-619 | both path types give the same path on every input both accept |
| Paths.RepoopsIsNormal | src/model/types.rs:580-619 | accepted repoops paths are normal, so index probes apply to them |
| Overlap.UnderPathIff | src/overlap.rs:385-439 | the key or range condition of the descendant query holds exactly for the paths under the root |
| Overlap.ProbeIff | src/overlap.rs:249-558 | the per-class probe conditions hold exactly when the two scopes share a path; the relation is symmetric because sharing is |
| Overlap.PathAncestorScopeKeys | src/overlap.rs:576-587 | the ancestor list of a path |
| Overlap.AncestorIff | src/overlap.rs:576-587 | a key is in that list exactly when the path lies at or under it |
| Overlap.ScopeIds | src/overlap.rs:262-281 | an id is returned exactly for a live reservation of the class whose key meets the condition |
| Overlap.MemberIdsExact | src/overlap.rs:307-325 | the join of members and reservations returns exactly the live generated scopes with a matching member |
| Overlap.QueryReservationScopeIdsForKeysAt | src/overlap.rs:488-524 | splitting the key list into chunks of any size does not change the set of ids |
| Overlap.QueryGeneratedMemberIdsForMembers | src/overlap.rs:526-558 | the same for member lists |
| Overlap.QueryOverlapIdsForExact | src/overlap.rs:249-260 | exactly the live scopes sharing the path |
| Overlap.QueryOverlapIdsForSubtree | src/overlap.rs:327-344 | exactly the live scopes sharing a path under the root |
| Overlap.QueryIdsUnderPathAt | src/overlap.rs:385-410 | exactly the live scopes of the class keyed strictly under the path |
| Overlap.QueryExactPathIdsUnderSubtreeAt | src/overlap.rs:346-359 | exactly the live exact paths at or under the root |
| Overlap.QueryMemberIdsUnderPathAt | src/overlap.rs:412-439 | exactly the live generated scopes with a member strictly under the path |
| Overlap.QueryGeneratedMemberIdsUnderSubtreeAt | src/overlap.rs:373-383 | exactly the live generated scopes with a member at or under the root |
| Overlap.QueryOverlapIdsForGenerated | src/overlap.rs:441-460 | exactly the live scopes sharing one of the members |
| Overlap.AncestorKeysOfAll | src/overlap.rs:470-486 | the merged list holds a key exactly when some member lies at or under it |
| Overlap.LoadReservationsByIds | src/overlap.rs:625-682 | each named row once, in creation order |
| Overlap.LoadActiveReservations | src/overlap.rs:598-623 | all live rows, in creation order |
| Overlap.FindOverlappingReservations | src/overlap.rs:90-107 | on every well-formed table and for each of the four scope classes: exactly the active reservations with a deadline after the tick where one side is repo-global or the two path sets intersect |
| Reservations.NormalizeScopeKey | src/overlap.rs:52-67 | accepted keys are normal paths, or the fixed global key |
| Reservations.NormalizeGeneratedMembers | src/overlap.rs:69-81 | members come back normal, sorted and without duplicates, and any bad member rejects the list |
| Reservations.InsertKeepsWellFormed | src/ops/reservation.rs:66-88 | inserting a requested reservation keeps the table in the form the query theorem needs |
| Reservations.RequestReservation | src/ops/reservation.rs:42-89 | the stored row has the owner, class, normalised key, deadline and time asked for and exactly the normalised members; the reported overlaps are the live reservations that share a path with it; the table stays well formed; it is refused exactly for a missing permission, an oversized owner, key, member or member list, a bad path or a wrong shape |
| Reservations.ValidateScope | src/ops/reservation.rs:42-60 | the scope it probes and stores is the requested one, normalised, or it is refused for size or shape |
| Reservations.RequestedScopeWellFormed | src/ops/reservation.rs:449-479 | a candidate that passed validation covers only normal paths |
| RepoopsLookup.CollectScopeKeyIds | src/queries.rs:337-391 | one key or many, chunked or not: the same ids |
| RepoopsLookup.CollectGeneratedMemberIds | src/queries.rs:393-441 | one path or many, chunked or not: the same ids |
| RepoopsLookup.SinglePathAncestors | src/queries.rs:520-534 | the fast path lists exactly the keys the path lies under |
| RepoopsLookup.PathAncestors | src/queries.rs:494-518 | the general path lists exactly the keys some path lies under |
| RepoopsLookup.LoadRepoopsRelevantReservations | src/queries.rs:270-308 | the owner's live reservations together with exactly the live reservations that share one of the given paths |
| RepoopsLookup.AnyPathProbe | src/queries.rs:270-308 | probing for a list of paths is probing for each of them |
| Conflicts.ConflictStore.RecordReservationOverlapConflicts | src/overlap.rs:157-204 | the upsert loop is one keyed write per overlap |
| Conflicts.ConflictStore.ResolveReservationOverlapConflicts | src/overlap.rs:206-239 | both UPDATE statements together resolve by either side of the pair |
| Conflicts.ConflictIdIff | src/overlap.rs:180-181 | for generated ids two conflict ids are equal exactly when the unordered pairs are |
| Conflicts.ConflictIdCollides | src/overlap.rs:180-181 | for arbitrary ids they are not injective |
| Conflicts.ConflictIdText | src/overlap.rs:180-181 | the id is the fixed prefix and the two ids in order |
| Conflicts.ResolveOn | src/overlap.rs:206-239 | resolving r changes exactly the unresolved rows whose pair contains r |
| Conflicts.OneRowPerPair | src/overlap.rs:157-239 | in every run at most one row per unordered pair |
| Conflicts.OpenIffLastTouchRecorded | src/overlap.rs:157-239 | in every run a pair's row exists exactly if it was ever recorded, and is open exactly if the last call touching the pair recorded it |
| Conflicts.OpenRowIsLastRecord | src/overlap.rs:157-204 | in every run an open row names the requester of that last record first and the other reservation second, with its time, and has the smaller id as its object |
| Lifecycle.OnlyAvailableIsClaimed | src/validators.rs:451-494 | for every kind the only way into Claimed is from Available |
| ClaimInvariants.GrantInv | src/ops/workflow/lifecycle.rs:570-676 | granting a claim keeps claims, current_claim_id and active_subtask_id consistent and fences distinct |
| ClaimInvariants.AcquireInv | src/ops/workflow/lifecycle.rs:190-243 | the same for a whole claim attempt with its expiry, its refusals and its rollbacks |
| ClaimInvariants.RenewInv | src/ops/workflow/lifecycle.rs:500-567 | renewal keeps consistency |
| ClaimInvariants.ReleaseInv | src/ops/workflow/lifecycle.rs:422-497 | release keeps consistency |
| ClaimInvariants.AbandonInv | src/ops/workflow/lifecycle.rs:344-419 | abandon keeps consistency |
| ClaimInvariants.ExitInv | src/ops/session.rs:259-317 | leaving keeps consistency, with all the session's claims closed |
| ClaimInvariants.ReapInv | src/ops/maintenance.rs:60-110 | marking sessions stale and sweeping their claims in one transaction keeps consistency |
| ClaimInvariants.ExpireOldStepInv | src/ops/maintenance.rs:113-153 | the expiry sweep keeps consistency |
| ClaimInvariants.CancelInv | src/ops/meta_task.rs:49-168 | cancelling a meta-task keeps consistency |
| ClaimInvariants.CloseAllInv | src/validators.rs:324-347 | closing any set of claims and detaching their rows keeps consistency |
| ClaimInvariants.ConcludeInv | src/ops/workflow/completion.rs:133-246 | finishing, retrying and failing keep consistency, with the claim released |
| ClaimInvariants.PublishInv | src/ops/workflow/artifact_review.rs:83-259 | publishing keeps consistency, with the claim kept |
| ClaimInvariants.RequestReviewInv | src/ops/workflow/artifact_review.rs:262-396 | requesting a review keeps consistency |
| ClaimInvariants.DecideInv | src/ops/workflow/artifact_review.rs:399-578 | deciding a review releases its claim, and the claim of the work it completes, and keeps consistency |
| ClaimInvariants.StepInv | src/store.rs:837-904 | every step of the protocol keeps the mutual consistency of claims, current_claim_id and active_subtask_id, one held claim per subtask, distinct fences, and no claim on an available, completed, failed, abandoned or decided subtask |
| ClaimSafety.RunInv | src/schema.rs:143-156 | every run keeps that invariant, and the lease clock and fence counters never go back |
| ClaimSafety.AtMostOneAccepted | src/validators.rs:288-322 | in every run, under any wall clock, at most one (session, claim, fence) passes the guard for a subtask |
| ClaimSafety.ClosedIsDead | src/validators.rs:324-347 | a closed claim's fence and all older ones have no live claim |
| ClaimSafety.HeldEndsBy | src/validators.rs:288-322 | the deadline of a held claim bounds that of every held claim of its subtask with its fence or an older one |
| ClaimSafety.FenceNeverReturns | src/validators.rs:274-347 | after a fence was closed, or the committed clock reached its deadline, no fence up to it is accepted again in any continuation of the run |
| ClaimRefusals.RefusalLeavesNoTrace | src/store.rs:99-113 | an operation the guard refuses, for whatever reason, commits nothing, its clock advance included |
| ClaimRefusals.RefusalStands | src/validators.rs:288-322 | in any continuation where no renewal is handed a tick before the deadline, no fence up to a refused one is accepted at a tick from the deadline on |
| ClaimRefusals.RefusalStandsForward | src/ops/workflow/lifecycle.rs:500-567 | so it stays refused in every continuation whose renewals, and the asking operation, are not at an earlier wall time than the refusal; other steps may be at any time |
| ClaimRefusals.RefusedReturnsIff | src/ops/workflow/lifecycle.rs:500-567 | under an arbitrary wall clock some operation in some continuation accepts a refused or older fence if and only if the committed clock has not reached the deadline |
| ClaimRefusals.RefusedFenceReturns | src/ops/workflow/lifecycle.rs:500-567 | a run in which a refused fence is renewed and accepted again, for any ids |
| ClaimSafety.AcceptedFencesAscend | src/validators.rs:288-322 | a later acceptance is of the same triple or of a strictly newer fence |
| ClaimSafety.FencesCountUp | src/validators.rs:274-286 | the k-th fence issued for a subtask is k, whether its counter row was absent or seeded with 1 |
| ClaimSafety.FinalForever | src/ops/workflow/lifecycle.rs:344-419 | in every run, abandoning and cancelling included, an applied, completed, failed or decided subtask stays so |
| ClaimSafety.SnapshotSound | src/ops/repoops.rs:29-37 | the read path is sound when the wall clock is not behind the lease clock |
| ClaimSafety.SnapshotAcceptsDeadIff | src/ops/repoops.rs:29-37 | it accepts a dead fence exactly when the reading is before a deadline the lease clock has passed |
| ClaimSafety.SnapshotAcceptsExpired | src/ops/repoops.rs:29-37 | a run that reaches such a store |
| ClaimEffects.GuardMeans | src/validators.rs:288-322 | each answer of the guard in both directions, and so the order of its complaints |
| ClaimEffects.ExpireOnMeans | src/store.rs:837-904 | expiring a subtask ends exactly its held claims whose deadline is reached or whose owner is not active, and changes no other claim |
| ClaimEffects.ExpireOnFrees | src/store.rs:837-904 | with the claim the subtask loses its current claim, goes back to the pool if work had begun, and the holder is idle; nothing else changes |
| ClaimEffects.ExpireOnKeeps | src/store.rs:837-904 | without such a claim the store is unchanged |
| ClaimEffects.ExpireOldMeans | src/ops/maintenance.rs:113-153 | the sweep does the same for all subtasks at its advanced tick |
| ClaimEffects.GrantedIff | src/ops/workflow/lifecycle.rs:570-676 | a claim is granted if and only if an idle active session of the right role asks, under a new id and for a positive time, for a ready subtask that is in the pool or begun under a lease that has run out |
| ClaimEffects.GrantMeans | src/ops/workflow/lifecycle.rs:570-676 | exactly the new triple, with the next fence, is then accepted, at exactly the ticks before tick plus duration |
| ClaimEffects.NoGrantCommits | src/ops/workflow/lifecycle.rs:35-188 | claiming the next subtask keeps clock and expiry when its candidate is held or not ready; claiming a named one leaves the store as it was |
| ClaimEffects.RenewMeans | src/ops/workflow/lifecycle.rs:500-567 | a renewed triple is accepted at exactly the ticks before the old deadline plus the extension |
| ClaimEffects.ReleaseMeans | src/ops/workflow/lifecycle.rs:422-497 | an admitted release ends the claim, frees the session and puts begun work back |
| ClaimEffects.ReleasedIsTakeable | src/ops/workflow/lifecycle.rs:422-497 | which can then be claimed at any tick |
| ClaimEffects.StartMeans | src/ops/workflow/lifecycle.rs:245-342 | an admitted start puts the subtask in progress and keeps its claim |
| ClaimEffects.AbandonMeans | src/ops/workflow/lifecycle.rs:344-419 | an admitted abandon ends the claim and the subtask, unless it was applied |
| ClaimEffects.ConcludeMeans | src/ops/workflow/completion.rs:133-246 | work in progress, and no other, is finished, failed or retried, with its claim released |
| ClaimEffects.PublishMeans | src/ops/workflow/artifact_review.rs:83-259 | publishing changes the state alone |
| ClaimEffects.RequestReviewMeans | src/ops/workflow/artifact_review.rs:262-396 | the work waits, and a review of the same meta-task is in the pool with no fence issued |
| ClaimEffects.DecideEndsReview | src/ops/workflow/artifact_review.rs:399-578 | an admitted decision decides the review, releases its claim and frees the reviewer |
| ClaimEffects.DecideMeans | src/ops/workflow/artifact_review.rs:399-578 | the work gets the verdict; completed work loses its claim and frees its holder, other verdicts keep it; no other subtask changes |
| ClaimEffects.SettleMeans | src/ops/workflow/artifact_review.rs:1126-1179 | approved work is made ready and applied, and abandoned work comes back to the pool |
| ClaimEffects.ExitMeans | src/ops/session.rs:259-317 | leaving ends exactly the claims the session holds |
| ClaimEffects.ReapMeans | src/ops/maintenance.rs:60-110 | exactly the active sessions not heard of for the threshold become stale |
| ClaimEffects.ReapSweeps | src/ops/maintenance.rs:60-110 | and no claim of theirs, or past its deadline, is left held |
| ClaimEffects.HeardMeans | src/ops/session.rs:212-257 | a session that registers or is heard of survives a reap if and only if the threshold has not passed since |
| ClaimEffects.CancelMeans | src/ops/meta_task.rs:49-168 | cancelling leaves every subtask of the meta-task without a claim, abandoned unless it was terminal, and no other subtask changed |
| ClaimEffects.CancelRevokes | src/ops/meta_task.rs:49-168 | it revokes exactly the claims held on them |
| ClaimStore.SweepIsPerSubtask | src/queries.rs:40-82 | the batch sweep equals running the per-subtask expiry over every subtask, in any order |
| ClaimStore.ExpireOnLeavesNone | src/store.rs:837-904 | after expiring a subtask what is held on it is before its deadline and of an active session |
| ClaimStore.Store.AdvanceLeaseClock | src/schema.rs:143-156 | the upsert is a max merge with the wall time clamped at zero |
| ClaimStore.Store.IssueFenceSeq | src/validators.rs:274-286 | the fence returned is one more than the number issued so far |
| ClaimStore.Store.LoadExpirableClaims | src/queries.rs:40-82 | exactly the held claims whose deadline is reached or whose owner is stale or gone, without duplicates, ordered by (created_at, claim_id) |
| ClaimStore.Store.CloseClaim | src/validators.rs:324-347 | changes the one claim row if it is held and nothing otherwise |
| ClaimStore.Store.ExpireClaim | src/store.rs:837-904 | close, detach subtask and detach session together are one consistent close |
| ClaimStore.Store.ExpireClaimIfNeededForSubtask | src/store.rs:837-904 | closes exactly the stale held claims of the subtask |
| ClaimStore.Store.ExpireOldClaims | src/ops/maintenance.rs:113-153 | the loop over the loaded claims is the simultaneous close of all stale claims |
| ClaimStore.Store.SelectAndWrite | src/ops/workflow/lifecycle.rs:570-676 | the row-by-row writes give the tables of the specification in every outcome, including the ones whose partial writes must be undone |
| ClaimStore.Store.ClaimSubtask | src/ops/workflow/lifecycle.rs:190-243 | one claim transaction: tick, lazy expiry, grant, and rollback or partial commit on refusal |
| ClaimStore.Store.RenewClaim | src/ops/workflow/lifecycle.rs:500-567 | renews exactly when the guard accepts and leaves all tables as they were otherwise |
| Reachability.ChainIff | src/store.rs:537-571 | on every finite graph, cycles included, the recursive query returns exactly what one or more edges reach |
| Reachability.AddSourceAcyclic | src/ops/workflow/create.rs:96-134 | edges leaving a node nothing points at cannot close a cycle |
| Reachability.FindSink | src/store.rs:298-454 | an acyclic graph has, in every non-empty finite set, a node with no edge back into the set |
| Scheduler.GatesAgree | src/store.rs:320-358 | the gate written out in the queries and the shared fragment give the same verdict on every database |
| Scheduler.DependencySatisfiedIff | src/store.rs:537-571 | a dependency is met exactly when it, or something reachable from it by follow-ups, is a decided review, applied canonical work or completed direct or reviewed work |
| Scheduler.SatisfiedAloneIff | src/store.rs:537-571 | without follow-ups it is the row's own columns, so failed and abandoned work satisfies nobody |
| Scheduler.NoOvertaking | src/store.rs:359-365 | at every time, a subtask precedes any later one that is not more urgent |
| Scheduler.AgingBound | src/store.rs:430-436 | a head start of (p - q + 1) * 30000 ms precedes a rival that is not fully aged |
| Scheduler.AgingBoundTight | src/store.rs:359-365 | one millisecond less does not, for any two priorities |
| Scheduler.FullyAgedRivalWins | src/store.rs:359-365 | a fully aged rival of smaller priority wins from then on |
| Scheduler.FullyAgedIff | src/store.rs:359-365 | a row is fully aged exactly from priority times 30000 ms after its creation |
| Scheduler.EventualOrder | src/store.rs:430-436 | once two rows are fully aged one precedes the other if and only if its (priority, created_at) is smaller, for good |
| Scheduler.CandidateExists | src/store.rs:298-513 | the ordered query has an answer on every store, and it is empty only if nothing is eligible |
| Scheduler.ChosenWorkIsReady | src/store.rs:573-592 | a chosen work subtask passes the claim-time dependency check |
| Scheduler.ChosenIsNotOvertaking | src/store.rs:298-513 | no eligible subtask that is older and at least as urgent is left behind by the choice |
| Scheduler.ChosenMatchesQuery | src/store.rs:298-513 | a candidate has the kind, state and route asked for and belongs to an open meta-task, the named one if one is named |
| Scheduler.ChosenReviewIsFirst | src/store.rs:455-513 | a chosen review leaves behind no eligible one of smaller priority, nor an older one of the same priority |
| Scheduler.RefreshMeans | src/store.rs:612-662 | completed exactly when there are subtasks and all are terminal; cancelled is never left or entered; a second refresh changes nothing; other meta-tasks are untouched |
| Scheduler.RefreshNeverHides | src/store.rs:612-662 | after a refresh an available, dependency-ready work subtask is eligible for its scoped query, which then answers |
| Scheduler.DedupeSubtaskDependencies | src/validators.rs:174-182 | each id once, in the order of first occurrences |
| Scheduler.NormalizeSubtaskDependencies | src/validators.rs:190-210 | the limit is checked on the deduplicated list and before self-dependency |
| Scheduler.CreateMeans | src/ops/workflow/create.rs:72-134 | creation succeeds exactly for at most 64 different existing dependencies under an open meta-task; then there is one new available row as asked for with exactly those edges, and its meta-task is active; otherwise nothing changes |
| SchedulerRuns.CreateSound | src/ops/workflow/create.rs:72-134 | creation keeps dependencies among existing subtasks and acyclic |
| SchedulerRuns.RunSound | src/ops/workflow/create.rs:72-134 | and so does every run |
| SchedulerRuns.NoDeadlock | src/store.rs:382-454 | from every reachable store, a non-empty set of available work whose dependencies are met or inside the set yields a candidate |
| SchedulerRuns.NoDeadlockScoped | src/store.rs:307-380 | and so does the query scoped to the set's meta-task |
| SchedulerRuns.SatisfiedForever | src/store.rs:537-571 | a met dependency stays met through every run of table transitions, expiries, abandonings, cancellations and added follow-ups |
| SchedulerRuns.ReadyForever | src/store.rs:573-592 | a subtask that once passed the dependency gate passes it ever after |
| SchedulerRuns.DepsUnchanged | src/ops/workflow/create.rs:96-134 | an existing subtask keeps exactly the dependencies it was created with |
| SchedulerRuns.RouteSatisfies | src/validators.rs:451-494 | work and reviews that go the way of their policy through the transition table satisfy their dependents at its end, and without follow-ups not before |
| SchedulerRuns.FinishSatisfies | src/store.rs:537-571 | concluding direct or reviewed work, applying canonical work or deciding a review satisfies at once, and in every run after |
| SchedulerRuns.FollowupSatisfies | src/store.rs:537-571 | what satisfies for a follow-up satisfies for its source once the two are joined |
| SchedulerRuns.GivingUpMeans | src/ops/workflow/lifecycle.rs:344-419 | abandoning takes held unfinished work out of the pool, expiry and reviving bring it back |
| SchedulerRuns.CancelMetaMeans | src/ops/meta_task.rs:49-168 | cancelling abandons exactly the unfinished subtasks of the meta-task |
| SchedulerRuns.CancelledNeverChosen | src/store.rs:298-513 | in every run nothing of a cancelled meta-task is chosen again |
| Board.Board.RefreshMetaTaskState | src/store.rs:612-662 | the two existence queries and the guarded update compute the refresh |
| Board.Board.InsertSubtaskDependencies | src/ops/workflow/create.rs:105-134 | succeeds exactly on at most 64 distinct, existing, non-self dependencies, and then adds exactly their edges |
| Board.Board.CreateWorkSubtask | src/ops/workflow/create.rs:72-94 | the row, its edges and the refreshed meta-task together, or no change at all |
| Idempotency.Covey.WithWriteTx | src/store.rs:99-113 | commit on success, every table restored on error |
| Idempotency.Covey.WithIdempotentMutation | src/store.rs:189-235 | lookup, conflict, replay and record in one transaction |
| Idempotency.RunIsItsEffects | src/store.rs:189-235 | for any calls with retries, conflicts and failures, the state is that of applying just the effects in order with the ticks they were handed, any two effects differ in actor, operation or key, and the records are exactly those effects |
| Idempotency.LaterCallsReplay | src/store.rs:189-235 | after a success, every later call of the same actor, operation and key returns the recorded response for the same request and a conflict for a different one |
| Idempotency.RecordedIff | src/store.rs:189-235 | in every run there is a record for exactly the (actor, operation, key) that took effect |
| Idempotency.AnsweredFromRecordIff | src/store.rs:189-235 | a valid call is replayed or a conflict if and only if an earlier call of the same actor, operation and key took effect, and otherwise gets what the operation answers |
| Idempotency.FailureChangesNothing | src/store.rs:99-113 | a failed or conflicting call leaves every table, the clock included |
| Idempotency.ReplayIsNoOpIff | src/store.rs:189-235 | a replay changes at most the lease clock, and nothing exactly when its wall time does not pass it |
| Idempotency.OutrunIff | src/store.rs:189-235 | the replays before a call change the tick it is handed exactly if one of them has a wall time past the call's own and past the clock of the earlier effects |
| Idempotency.RunIsFirstCalls | src/store.rs:189-235 | for every operation, if no effect was outrun, running only the first successful calls leaves the same state and records |
| Idempotency.OrderedRunIsFirstCalls | src/store.rs:189-235 | so it does for every run whose wall times do not step back, however late the retries |
| Idempotency.WholeStoreIff | src/store.rs:189-235 | the lease clock is the same too exactly if no ticking replay is later than every effect |
| Idempotency.LogTickIff | src/store.rs:189-235 | for an operation that keeps its ticks the condition is exact: same state if and only if none was outrun |
| Idempotency.RetryMovesClock | src/store.rs:189-235 | a retry followed by a call with an earlier wall time is such a run, for any two calls |
| ReadyQueue.QueueStore.LoadStale | src/store.rs:669-714 | the three queries together list exactly the in-flight items whose lease ended or whose claimant is stale, gone or unknown |
| ReadyQueue.QueueStore.RequeueStaleReadyQueueClaims | src/store.rs:664-735 | exactly those items go back to queued with their fence kept; all other rows are untouched |
| ReadyQueue.QueueStore.ClaimReadyQueueItem | src/store.rs:737-816 | grants the next fence, drops an item that is no longer claimable, or changes nothing |
| ReadyQueue.ClaimMeans | src/store.rs:737-816 | a queued item is cancelled if its meta-task is closed, superseded if its subtask moved on or has another artifact, and else granted: then exactly the claimant, with the next fence and before tick plus duration, may mark it applied |
| ReadyQueue.QueueStore.OrderedReadyQueueCandidate | src/store.rs:594-610 | the oldest queued item, none only if none is queued |
| ReadyQueue.QueueStore.ClaimNextReadyQueueItem | src/ops/queue.rs:296-361 | the loop ends; it grants the oldest claimable item and drops exactly the unclaimable ones it passed over, or drops every queued item when none is claimable |
| ReadyQueue.MoveIff | src/validators.rs:507-521 | for every store, step and item whose state changes: the change is in the transition table if and only if the step is not a requeue, and a requeue moves exactly the items in flight past their deadline or without a known active claimant, back to queued |
| ReadyQueue.RunMoves | src/store.rs:664-816 | in every run each change of an item is one or the other |
| ReadyQueue.ClosedItemStays | src/validators.rs:507-521 | in every run an applied, superseded or cancelled item stays so |
| ReadyQueue.EnqueueMeans | src/ops/queue.rs:2591-2660 | a new item is queued as asked for and is then the only open one of its subtask |
| ReadyQueue.CloseMeans | src/ops/queue.rs:842-960 | marking applied, superseding and cancelling close exactly the items named, with their fences kept |
| ReadyQueue.RequeueMoveReached | src/store.rs:664-735 | a run that makes the move outside the table, for every item and claimant |
| ReadyQueue.ParseIff | src/proof_apply.rs:758-976 | the proof parser accepts exactly the well-shaped rows, and its accessors return state, claimant, fence and deadline as stored |
| ReadyQueue.ValidTokenIff | src/model/types.rs:33-50 | a token is a non-empty text of at most 256 bytes without whitespace and control characters |
| ReadyQueue.RunItemOk | src/store.rs:664-816 | in every run the fences granted for an item are exactly 1, 2, 3, ..., its row keeps the shape, and in flight it is held by the last grantee |
| ReadyQueue.ReachableRowsParse | src/proof_apply.rs:758-976 | every reachable row is accepted by the parser with its state and fence unchanged |
| ReadyQueue.AppliedByLatestGrant | src/ops/queue.rs:855-899 | marking applied is accepted only from the latest grantee with the latest fence |
| Json.EscapeMeans | src/proof_apply.rs:3834-3872 | escaped are exactly the quotation mark, the reverse solidus and the control characters below U+0020, in the short form if there is one, else in lower case |
| Json.ReadEscape | src/proof_apply.rs:3834-3872 | a reader of section 7 of RFC 8259, surrogate pairs included, reads an escape as its character |
| Json.ReadQuote | src/proof_apply.rs:3834-3872 | and a quoted string as the string, whatever follows |
| Json.ReadPrint | src/proof_apply.rs:3834-3872 | a reader of RFC 8259 gives every printed value back, at any nesting depth, with the text after it |
| Json.EscapePrefixFree | src/proof_apply.rs:3834-3872 | no escaped character is a prefix of another (section 7 of RFC 8259) |
| Json.QuoteInjective | src/proof_apply.rs:3834-3872 | a quoted string can be told from whatever follows it |
| Json.PrintInjective | src/proof_apply.rs:3834-3872 | a printed value of any nesting can be read off the front of any text that goes on with no number character |
| Canonical.CanonIff | src/proof_apply.rs:3834-3872 | sorting keys at every level is a normal form of equality up to key order |
| Canonical.CanonicalJsonIff | src/proof_apply.rs:3834-3872 | equal canonical text if and only if equal values up to key order, at any nesting depth |
| Canonical.CanonicalReads | src/proof_apply.rs:3834-3872 | the canonical text reads as the same value with the keys of every object in ascending order |
| Canonical.WriteCanonicalJson | src/proof_apply.rs:3834-3872 | the buffer-appending printer that sorts as it goes produces the canonical text |
| Seal.InsertLookup | src/proof_apply.rs:3882-3887 | inserting changes the answer for its key and no other |
| Seal.BuildManifest | src/proof_apply.rs:2222-2312 | the manifest answers each of its keys with its entry and neither of the two reserved keys |
| Seal.SealManifest | src/proof_apply.rs:2314-2363 | the digest is of the text before the two late fields, and the file is the canonical text with them |
| Seal.DigestRecorded | src/proof_apply.rs:2314-2363 | the finished manifest answers seal_digest with the digest, and landing_authorization exactly if there is one |
| Seal.StripRecoversSealedBytes | src/proof_apply.rs:2314-2361 | removing the two late fields from the finished manifest, in whatever field order it is read, recovers exactly the sealed text |
| Seal.SealVerifies | src/proof_apply.rs:2314-2361 | a reader recomputes the recorded digest |
| Seal.SealBinds | src/proof_apply.rs:2314-2361 | with a collision-free digest, a manifest that verifies under a seal is the sealed one up to key order |
| Seal.FileIff | src/proof_apply.rs:3822-3832 | two written proof files are equal exactly when their manifests are equal up to key order |
| CheckNames.NameReadsBack | src/proof_apply.rs:1827-2219 | each of the 84 checks is read back from the text it is inserted under, so the texts are pairwise different |
| ApplyChecks.NoNameTwice | src/proof_apply.rs:1827-2219 | no request and no evidence insert one text twice |
| ApplyProof.Accumulate | src/proof_apply.rs:1827-2219 | the string-keyed map holds exactly the checks made, each with its own verdict when no text repeats |
| ApplyProof.CheckBlockers | src/proof_apply.rs:3678-3684 | exactly the failed checks, in the order of their names |
| ApplyProof.VerifyApplyRequest | src/proof_apply.rs:1744-2371 | the blockers are exactly the failed checks, so it accepts exactly when every check made passes; an authorization is emitted exactly then, and each of its eight fields is that of the request, of the review and of one recorded apply verification |
| ApplyProof.AcceptedIff | src/proof_apply.rs:1827-2219 | acceptance in terms of the evidence alone: one attempt, three separate actors, matching files, a clean landed head, and whatever the request requires of packet, processes and issuers; both directions |
| ApplyProof.AuthorizationIsSound | src/proof_apply.rs:2332-2361 | an authorization implies that artifact, review, queue row, stored fence and apply verification are of one attempt, by three attested actors in their roles that share no principal, runtime or transcript |
| ApplyPolicy.StricterNeverAccepts | src/proof_apply.rs:2022-2144 | requiring process ids, host claims, run ids, the mission contract, a subject or a subtask, naming a packet where none was used, or forbidding an issuer never turns rejection into acceptance |
| ApplyPolicy.NamedDigestIff | src/proof_apply.rs:2878-2944 | a proof accepted with a named verdict or seal digest is accepted without it if and only if the attempt has a single apply verification |
| ApplyRecords.KeyedIff | src/ops/queue.rs:417-483 | the tables without two rows of one queue, fence and seal digest are exactly those that runs of recordings leave, refused ones included |
| ApplyRecords.SealFindsOne | src/migrations/010_apply_verifications.sql:1-13 | in such a table a lookup that names a seal digest finds at most one row |
| ApplyRecords.SingleIff | src/proof_apply.rs:2878-2944 | and any lookup finds one row if and only if all rows that match have one seal digest |
| ApplyRecords.LookupIff | src/proof_apply.rs:2878-2944 | the lookup answers with a row if and only if it is the only one of the attempt, by the asked verifier, with the digests that are named |
| ApplyPolicy.RecordedDigestIff | src/proof_apply.rs:2878-2944 | on recorded tables a proof accepted with a named digest is accepted without it if and only if the matching rows have one seal digest |
| ApplyPolicy.NamedSealSuffices | src/proof_apply.rs:2878-2944 | on recorded tables a proof accepted with the seal and a verdict named is accepted with the seal alone |
| ApplyPolicy.NamingLetsIn | src/ops/queue.rs:417-483 | any accepted proof that names no digest is rejected once a second verification of its attempt, of another verdict and under a free seal, is recorded, and let back in by naming the verdict, the seal or both |
| ApplyPolicy.TrustedExtensionIff | src/proof_apply.rs:2118-2131 | when trusting more issuers accepts, the narrower request is accepted exactly if it trusted nobody and was not enforced, or already trusted all three issuers |
| ApplyPolicy.BatchOverrideIff | src/proof_apply.rs:2406-2423 | the same for everything a batch lays over its proofs |
| ApplyPolicy.BatchTrustLetsIn | src/proof_apply.rs:2406-2423 | any accepted proof that trusts issuers is rejected when it trusts others instead, and let back in by a batch |
| ApplyPolicy.SomeProofIsAccepted | src/proof_apply.rs:1744-2371 | a concrete request and evidence that are accepted |
| ApplyPolicy.RejectionIsLetInByBatch | src/proof_apply.rs:2406-2423 | so a batch does let a rejected proof in, on a recorded table |
| ApplyPolicy.RejectionIsLetInByNaming | src/proof_apply.rs:2878-2944 | and so does naming the verdict, the seal or both, on the table that recording two verifications leaves |
| ApplyPolicy.EnforcedExcludesLocalIssuers | src/proof_apply.rs:3332-3500 | under enforcement each actor's run id has an issuer that is trusted, not local and forbidden by neither request nor packet |
| ApplyPolicy.EnforcementNeedsPacket | src/proof_apply.rs:3337-3349 | under enforcement nothing is accepted without a readable mission packet |
| ApplyRequirements.HostClaimsMean | src/proof_apply.rs:2055-2108 | a request that asks for host claims in any way is accepted only on three accepted ones that name one signer |
| ApplyRequirements.ProviderRunsMean | src/proof_apply.rs:3642-3676 | and one that asks for provider runs only if each actor has a run id of an allowed issuer, neither of them blank |
| ApplyRequirements.ObservedIdIff | src/proof_apply.rs:3147-3155 | an observed process id is a positive decimal number of 64 bits, read from the left |
| ApplyRequirements.ObservedMeans | src/proof_apply.rs:2041-2054 | a request for observed processes is accepted only with one for each actor |
| ApplyRequirements.PacketOkIff | src/proof_apply.rs:3332-3500 | a packet passes if and only if it makes every statement of its boundary and its contract |
| ApplyRequirements.PacketMeans | src/proof_apply.rs:2022-2040 | a request that names a packet, or is enforced, is accepted only on such a packet in the named file, or in the default one |
| ApplyRequirements.ActorCheckMadeIff | src/proof_apply.rs:2041-2148 | the checks on processes and host claims are made exactly when they are asked for, by the request or by the packet it uses |
| ApplyRequirements.BatchRequires | src/proof_apply.rs:2406-2423 | what a batch asks of its proofs holds for each accepted one, whatever that asks itself |

## Left out

- SQLite itself: pragmas, migrations, index hints and connection handling. Transactions are atomic and foreign keys hold.
- Machine integers: lease arithmetic is unbounded, so overflow of a 64-bit tick plus a duration is not modelled.
- UTF-8: text is sequences of characters; code-point order stands for byte order (section 1 of RFC 3629).
- Git, OpenSSL, BLAKE3 and file reading: their answers are inputs, and digests are functions assumed collision-free only where a lemma says so.
- Numbers in JSON are the text they print as; two spellings of one number are two values. The reader takes no insignificant whitespace, which canonical text has none of.
- Reading evidence for an apply proof: failing reads of files, tables and git other than the queue row and the host claims; the base tree, changed-paths digest and target ref of the authorization.
- ReadyQueue.QueueStore.RequeueStaleReadyQueueClaims: the last sort of the candidates by age is not modelled, because it only orders updates of different rows.
- ReadyQueue.AppliedByLatestGrant: the other conditions of marking applied (role, subtask, artifact, live evidence) are one input, because more conditions only accept less.
- Scheduler.CandidateExists: ties in the ordered query are left open, as the query leaves them open.
- SchedulerRuns.RunSound: the importer that rewrites dependency rows is not among the steps; acyclicity is for the create path.
- Archive cleanup of OpenSpec changes, which inserts claims under reused ids, and the orphan enqueue before claiming the next item.
- Artifact, review and attempt-outcome rows: publishing, requesting and deciding reviews and completing work are modelled on claims, sessions and subtasks, with the tests of policy, evidence and duties as one input.
- ApplyRecords.KeyedIff: of the conditions of recording a verification only the primary key is modelled; role, attestation, lengths, in-flight fence and live review only refuse more, and none compares verdict or seal.
- ApplyPolicy.StricterNeverAccepts: naming another mission packet where one was already used is not a stricter request, because it replaces the evidence.
- Manual conflict acknowledgement, the event log, runtime attestations, VCS workspaces and operator blockers.
- The stale-cleanup filter over repoops owners and the rest of the authority snapshot.
- Session heartbeats beyond the tick they store; at most one active session per principal.
- Command line, configuration, rendering, imports and their field validation.
