# Verification of the record log, vault keys and their clients

A Dafny 4.11 model of the password manager's two coupled protocols, with machine-checked
proofs of what they promise. `dafny verify dfyconfig.toml` checks everything.

**The record log and its sync.** A push decides a batch of changes in memory against the
newest versions, drafts what it would write, and then writes it in one go: compare-and-swap
on the base version, all-or-nothing per record, retries by change id, purges that drop
history, a storage quota per owner, one seq counter and one byte counter per vault. A sync
pages the log out by per-vault cursors without a transaction, and the client applies pages,
batches its outbox and splits refused batches.

**The vault keys and memberships.** Vaults have members with roles, sealed keys, links from
each key to the one before it, and a flag that a rotation is due. Devices walk the links
down, accept a newer key only if it leads to the one they hold, and replace the keys in
memory all at once.

The protocols meet in `System`: a put must be under its vault's current key, so pushes and
rotations share one invariant. Two smaller cores stand beside them: the OpenSSH key writer
and reader, and the second-factor challenge under concurrent requests.

## Modules

| file | what it holds |
|---|---|
| `Tables`, `Crypto`, `Grouping`, `Prelude` | the tables, symbolic encryption (a ciphertext opens only under its own key and associated data), grouping by record |
| `PushRules` | the rules of one push as functions: decide, draft, quota, tables, answers |
| `PushLog`, `PushPlan`, `PushEffect`, `PushAnswers`, `PushOnce`, `PushQuota` | the log invariant, the planner's agreement with what is written, the effect on the log, the answers, exactly-once, the quota |
| `PushResults`, `PushConditions` | what a client learns from the results; exactly when a change is written and why it is refused, when an id is written twice, a moved record stays moved |
| `PushContent` | what the written versions hold and what the answers show, field by field |
| `PushServer`, `PushTransaction` | the transaction as the server runs it, with its loops and shared budget objects, proved to compute the rules |
| `Sync`, `LocalDevice`, `Convergence` | paging, what a device does with a page, convergence over every interleaving |
| `Outbox` | batching, bisection and a whole round of pushes on the client |
| `Vaults`, `VaultEffects`, `VaultServer`, `VaultRuns` | the sharing procedures as rules, what they mean to their callers, as procedures on the database, and their invariants over all runs |
| `KeyChain`, `Secrecy` | catching up with missed rotations; who can derive which key |
| `DeleteAccount` | account deletion, what it keeps, and runs with deletions in them |
| `System` | runs of pushes and sharing procedures together |
| `SecretsStore` | keys in memory, as byte arrays that are wiped |
| `Base64`, `Utf8`, `SshKey`, `SecondFactor` | the two smaller cores |

## How to read it

- Ids are opaque numbers with an order. Records are a sequence of rows in the order they
  were written; member rows and key links are kept inside their vault.
- Each transaction is one atomic step. A method that changes state names, in its `ensures`,
  the rule function whose state it leaves; the properties are lemmas about those functions
  and about runs. The procedures of `VaultServer` also promise what `VaultEffects` proves of
  their rules.
- Clocks, the quota from the environment, fresh keys, the account found for an email and the
  answers of libraries are parameters.
- `usedBytes` sums `pushChangeBytes`, which counts UTF-16 units of base64 text: characters here.

## What turned out not to hold, and exactly when it does

- The SSH round trip fails for a comment that begins with a byte order mark, which the text
  decoder drops, and for one with an unpaired surrogate, which the encoder replaces.
  `SshKey.KeyRoundTrip` proves it holds exactly for the others; `SshKey.MarkedCommentChanges`
  and `SshKey.BrokenCommentChanges` give one of each that fails.
- Account deletion drops a pending membership without marking the vault for a rotation
  (also for a former owner still recorded as `ownerId`).
  `DeleteAccount.FlagStaysRightUnlessInvited` proves the flag stays right exactly when the
  account is not only invited to a vault with no rotation due;
  `DeleteAccount.InviteeDeletionLeavesFlagClear` gives a run after which it fails.
- A change *id* can be written twice for a record, though a *change* cannot: after a purge
  dropped its version, when the client sends it again on a newer base.
  `PushConditions.WrittenAgainExactly` says exactly when, `PushConditions.WrittenTwice` gives
  a run in which it happens.
- A comment in `push.ts` (line 304) says a moved record stays moved whatever tombstone comes
  on top; the code below it (lines 305-308) lets a purge replace the mark, and the model
  follows the code.
  `PushConditions.MovedStaysExactly` proves it stays moved exactly when no written change
  puts or purges it; `PushConditions.PurgeReplacesMark` gives a run in which a purge does.

## Model

The main results come first, down to `SecondFactor.NeverRevived`; the rows after it are what
they are built from.

| member | source | states |
|---|---|---|
| Convergence.RunInSync | packages/store/src/vault.ts:664-677 | over every run, each server row at or below a cursor is on the device as it is, and each row the device holds is on the server or has its purge waiting past the cursor |
| Convergence.Converges | apps/server/src/record/router.ts:61-90 | after the last page of a pull, each of its vaults that got no row since it was read has the same rows on the device as on the server, whatever was written to the others |
| Convergence.ConvergedContent | apps/server/src/record/serialize.ts:4-22 | so the device then shows, of such a vault, every version the server stores, with its data, nonce, crypto and key version, time, kind and deletion as stored, and nothing else |
| PushTransaction.PushChanges | apps/server/src/record/push.ts:95-185 | the whole transaction leaves exactly the tables of the rules, names exactly the vaults with a version planned, and answers every change exactly once, in order, under its id, whatever the loops, shared budgets and seq bumps in between |
| PushContent.PutIsAnswered | apps/server/src/record/push.ts:170-177 | a put that is written is answered with exactly what it sent, field by field, one version above its base, not deleted and without a kind |
| PushContent.WrittenContent | apps/server/src/record/push.ts:289-324 | every written version is its sender's; a deletion keeps the content and keys of the version one below it, stored or written before it, unless it purges, which empties the content only; its kind is the change's, but purged stays purged and a mark stays without one given |
| PushResults.RecordAllOrNothing | apps/server/src/record/push.ts:107-177 | by the results: of each record every change is answered with a version, stored before or written now one above its base, or nothing was written and all not stored before got the same refusal; what was written runs up from the head without a gap |
| PushOnce.ExactlyOnce | apps/server/src/record/push.ts:220-265 | over any run of pushes and rotations, an applied change is never written by a later push it is sent in again; it is answered with a version stored under its id, or refused |
| PushConditions.WrittenExactly | apps/server/src/record/push.ts:193-265 | a change is written exactly when no version is stored under its id, every change of the batch on its record passes, and the quota lets the chain through |
| PushConditions.RefusedExactly | apps/server/src/record/push.ts:193-265 | when a record's chain does not go through, each change not stored before is refused for the reason of the first change that fails, read off access, key, home vault and base, or with the quota when none fails |
| PushConditions.WrittenAgainExactly | apps/server/src/record/push.ts:413-424 | an id written before is written again exactly when the record no longer holds it and its chain goes through; a purge then lies above the first version and below the second |
| PushConditions.WrittenTwice | apps/server/src/record/push.ts:330-343 | from any tables and in any vault a user may write to: a put, a purge, and the put id again on a newer base, both written |
| PushConditions.MovedStaysExactly | apps/server/src/record/push.ts:303-317 | every version a push writes on a moved record is moved exactly when no written change puts or purges it; then its newest version stays moved |
| PushConditions.PurgeReplacesMark | apps/server/src/record/push.ts:304-308 | a run in which a purge replaces the mark of a moved record |
| PushOnce.NeverReused | apps/server/src/record/push.ts:249-304 | a version number of a record, once written, is below every number written for it later, even after purges |
| PushEffect.PushKeepsLog | apps/server/src/record/push.ts:330-378 | every push keeps the log invariant: order, one vault per record, keys and counters in range, purges lowest and empty, bytes exact |
| PushPlan.PlanBatchFits | apps/server/src/record/push.ts:107-168 | every version planned for a batch is a legal next version of its record on top of the stored ones and those planned before it: number, vault, key, fresh change id |
| PushRules.DecidedIsWritable | apps/server/src/record/push.ts:289-304 | the second pass never meets a deletion without a version below it, so its internal error is never thrown |
| PushQuota.PushWithinQuota | apps/server/src/record/push.ts:116-157 | in one push, the written chains with a put that rewrite no old-key record take per owner, over all their vaults, at most what was left |
| PushQuota.AcceptedExactly | apps/server/src/record/push.ts:271-286 | a chain is kept back by the quota exactly when it has a put, rewrites no old-key record, and takes more than the owner's quota less all versions stored in their live vaults and what the chains before it take |
| PushQuota.MovesStayWhenOverQuota | apps/server/src/record/push.ts:159-163 | when a chain was over quota, nothing is written for any record of which the batch has a deletion marked as a move |
| Sync.PullAll | packages/client/src/sync-manager.ts:346-368 | following the returned cursors ends, and the pages together are exactly one unpaged read |
| Sync.ReadPage | apps/server/src/record/router.ts:61-90 | the scan with its room, break and one extra row returns the prefix of the rows past the cursors, tells exactly whether more wait, and the next cursors |
| Sync.MoreMeansAdvanced | packages/client/src/sync-manager.ts:622-624 | a page that claims more moved some cursor forward, so the no-progress guard never fires |
| Outbox.PushBatches | packages/client/src/sync-manager.ts:584-619 | batches lay out the grouped changes, none empty, each within both limits unless a single oversized change, and no chain that fits is split |
| Outbox.Round.PushBatch | packages/client/src/sync-manager.ts:417-471 | against any server, bisection ends with one outcome per change, in order, each read off the answer of a call made for it, or a prefix of them when the round stops: acknowledged exactly when applied, with the answered copy, or when a purge was never there; a stale answer never counts, a missing, old-key or refused call counts and parks at the limit, any other refusal parks; whatever is not acknowledged has its record failed; at most 2n - 1 calls for n records |
| Outbox.FailsExactlyBad | packages/client/src/sync-manager.ts:417-434 | when the server refuses exactly the batches with a bad record, every change of a good record is acknowledged and exactly the bad records fail |
| Outbox.AppliedComesBack | packages/client/src/sync-manager.ts:557-577 | an edit of the outbox that is applied comes back as the device has it, whole; a deletion with its record, place, number and time |
| Outbox.Round.PushOutbox | packages/client/src/sync-manager.ts:392-409 | over a whole round, of each record without a parked change the first pending changes are pushed in order, all of them unless one failed or the round stopped; nothing follows in a batch after the one a record failed in; a record with a parked change sends nothing |
| VaultRuns.RunKeeps | apps/server/src/vault/sharing.ts:118-499 | in every state of every run from registrations and creations on, each vault has its key state, an active owner unless deleted, nobody else in it when personal, and nobody outside it given its current key unless flagged |
| Secrecy.DerivesExactly | packages/crypto/src/user-keys.ts:90-123 | from their own keys and all ciphertexts ever stored, a user derives a key version exactly when they were given it or a newer one |
| Secrecy.LifeDerivesExactly | packages/crypto/src/user-keys.ts:130-147 | at any point of a vault's life a user derives each version of its key exactly when they were given it or a newer one |
| Secrecy.LifeSecrecy | apps/server/src/vault/sharing.ts:98-103 | at any point of the life of a vault, created or registered with its keys, with no rotation due exactly its members and invitees derive its current key |
| Secrecy.LifeCatchesUp | packages/store/src/secrets-store.ts:484-509 | at any point of a vault's life every active member behind its key catches up |
| DeleteAccount.LifeKeepsOwners | apps/server/src/user/delete-account.ts:64-152 | over every run of registrations, sharing, rotations, pushes and account deletions, each vault keeps its key state, an active owner unless deleted, and its privacy when personal |
| DeleteAccount.RefusedExactly | apps/server/src/user/delete-account.ts:95-106 | it is refused exactly when the user is the only active owner of a live shared vault with others active in it |
| DeleteAccount.DeletionMeans | apps/server/src/user/delete-account.ts:95-152 | a vault of the user stays exactly when another active member owns it, any other when it is not recorded as theirs; in those that stay keys and counters are as before, everyone else keeps their row but for the sender of their seal, the user and their invitations go, their recorded ownership passes to another active owner, and a rotation is due if they were active in it |
| DeleteAccount.DeletionKeepsLog | apps/server/src/user/delete-account.ts:148-152 | the log invariant and the exact byte counters survive a deletion, and a row is left exactly when it was there and its vault stays |
| DeleteAccount.SharedVaultsSurvive | apps/server/src/user/delete-account.ts:108-152 | it destroys no live shared vault someone else is active in, directly or by the cascade, and keeps their memberships |
| DeleteAccount.FlagStaysRightUnlessInvited | apps/server/src/user/delete-account.ts:112-152 | the rotation flag stays right exactly when the account is not only invited to a vault with no rotation due |
| DeleteAccount.InviteeDeletionLeavesFlagClear | apps/server/src/user/delete-account.ts:57-79 | a run, a create and an invite, after which the invitee's deletion leaves the flag clear though they were given the current key |
| System.RunsKeep | apps/server/src/record/push.ts:95-185 | over every run of pushes, rotations and membership changes the log and vault invariants hold in every state |
| System.RunsApplyOnce | apps/server/src/record/push.ts:220-265 | over every run of pushes, rotations, registrations and membership changes an applied change is never written by a later push that has it in again |
| System.RunsNeverReuse | apps/server/src/record/push.ts:249-304 | over every such run a version number of a record is never given again |
| System.PutsUnderCurrentKey | apps/server/src/record/push.ts:236-238 | content is only written under its vault's current key, by someone who may write |
| SecretsStore.Store.LoadVaultKeys | packages/store/src/secrets-store.ts:164-201 | all or nothing: refused with the held keys untouched and everything opened zeroed, or the old buffers zeroed and exactly the reachable keys held |
| SshKey.KeyRoundTrip | packages/crypto/src/ssh-key.ts:86-168 | for every comment, as the text it is: the key line read back from a generated file is the generated one exactly when the comment is well-formed text without a byte order mark at its front |
| SecondFactor.CodesAndSessions | apps/server/src/auth/login-router.ts:439-484 | in every interleaving of any number of calls at most five codes are checked, those whose check throws included, and at most one session is created |
| SecondFactor.TakesOnlyAfterYes | apps/server/src/auth/login-router.ts:461-477 | over every run a call that takes the challenge or creates a session had its own code found right |
| SecondFactor.SessionNeedsYes | apps/server/src/auth/login-router.ts:461-484 | over every run there is no session unless the check of some call found its code right |
| SecondFactor.WrongCodeEnds | apps/server/src/auth/login-router.ts:461-472 | over every run a call whose check found the code wrong, or threw, only ends the challenge or is over from then on |
| SecondFactor.ChecksOnlyLetThrough | apps/server/src/auth/login-router.ts:443-458 | over every run no call checks a code, or goes further, unless the throttle let it and its login was found not revoked |
| SecondFactor.RightCodeGetsSession | apps/server/src/auth/login-router.ts:439-484 | a call alone on a live challenge, with an attempt left, let through and not revoked, checks its code, and a right one gets a session and ends the challenge |
| SecondFactor.NeverRevived | apps/server/src/util/redis-utils.ts:445-463 | a challenge that ended is never revived |
| PushTransaction.JudgeChain | apps/server/src/record/push.ts:126-157 | one chain is accepted or refused as the plan says, the budget objects move with the plan's budgets, and only this record's answers change |
| PushTransaction.DecideInTurn | apps/server/src/record/push.ts:193-217 | deciding a chain change by change against a moving head, then spreading the first failure, gives the chain's decision |
| PushTransaction.DropMoveSources | apps/server/src/record/push.ts:159-163 | the second pass plans exactly the kept chains in chain order and leaves every unwritten change with its final answer |
| PushTransaction.AnswerWritten | apps/server/src/record/push.ts:170-177 | each written version answers the change it was drafted for, and no other answer moves |
| PushTransaction.AppendsAtHome | apps/server/src/record/push.ts:150-151 | nothing is ever appended to a record whose newest version lies in a vault the user may not write to |
| PushRules.SimulationAgrees | apps/server/src/record/push.ts:193-213 | the first pass simulates, after every change, exactly the head version and vault the second pass writes |
| PushConditions.DecidedWhenPassing | apps/server/src/record/push.ts:193-265 | deciding a chain against a moving head finds no failure exactly when each change meets a closed condition: access, key, home vault, and the head plus the changes before it as base |
| PushConditions.DeniedExactly | apps/server/src/record/push.ts:384-400 | a push to a vault is denied exactly to everyone but its active owners, managers and writers: readers are forbidden, others are told there is none |
| PushResults.ResentIsAnswered | apps/server/src/record/push.ts:227-234 | a change sent again while the server holds its version is answered with that version or refused, and never written |
| PushAnswers.AppendedOnBase | apps/server/src/record/push.ts:249-265 | a change is appended only on exactly the version it builds on |
| PushAnswers.PlanCarries | apps/server/src/record/push.ts:220-242 | every planned version carries one change of the batch, is one above its base, was not stored before, and its author may write |
| PushContent.AppliedShows | apps/server/src/record/serialize.ts:4-22 | every applied answer shows, field by field, the version stored under the change's id or the one written for it now |
| PushContent.WrittenAre | apps/server/src/record/push.ts:350-378 | the rows written are the planned versions, in that order |
| PushContent.WritersOnly | apps/server/src/record/push.ts:384-400 | only an active member who is more than a reader gets anything written to a vault |
| PushOnce.RunGoesOn | apps/server/src/record/push.ts:95-185 | any valid batch may be pushed next on any run, by any user, with any quota |
| PushOnce.RunExtends | apps/server/src/record/push.ts:95-185 | the log invariant holds all along a run and later tables extend earlier ones |
| PushEffect.PushRows | apps/server/src/record/push.ts:330-364 | after a push a vault's stored rows are exactly the old and written ones with no purge written above them, and its bytes are the sum over them |
| PushEffect.PushExtends | apps/server/src/record/push.ts:330-378 | a push hands out only fresh seqs and drops a row only under a purge whose seq is past every seq handed out before |
| PushLog.DropEffect | apps/server/src/record/push.ts:330-343 | dropping by record id alone removes exactly the versions below a written purge and frees exactly their bytes in the right vault, through several purges |
| PushServer.InsertVersions | apps/server/src/record/push.ts:350-378 | one seq bump per vault and one insert write the same rows, seqs and bytes as writing the versions one at a time |
| PushServer.DropHistories | apps/server/src/record/push.ts:330-343 | the loop over the written rows drops every history below a purge |
| PushServer.StorageBudgets | apps/server/src/record/quota.ts:27-55 | every vault of an owner gets the same budget object, different owners different ones, each with what the owner has left |
| PushServer.TakeFromBudget | apps/server/src/record/push.ts:271-282 | taking a chain's bytes from the shared object is taking them from its owner's budget, for all that owner's vaults at once |
| PushQuota.RemainingIs | apps/server/src/record/quota.ts:27-55 | what an owner has left is their quota less every version stored in a live vault of theirs |
| PushTransaction.FitsBudget | apps/server/src/record/push.ts:150-157 | looking key versions up among the writable vaults only decides the same as looking at all vaults, and a rewrite of an old-key record takes nothing |
| Grouping.GroupByRecord | apps/server/src/record/push.ts:427-435 | the loop over an insertion-ordered map groups by record in order of first appearance |
| Grouping.GroupIsPartition | packages/client/src/sync-manager.ts:627-635 | grouping loses, doubles and reorders nothing: each record once, with exactly its own items in order |
| Sync.PageSplits | apps/server/src/record/router.ts:61-90 | a page and the rows past its cursors make up the rows it started from; it says `hasMore` exactly when some are left |
| LocalDevice.LocalStore.ApplySync | packages/store/src/vault.ts:647-679 | applying a page drops lost vaults, upserts, drops purged history and stores cursors as one new state |
| LocalDevice.LocalStore.DropPurgedHistory | packages/store/src/schema/outbox-schema.ts:223-250 | dropping record by record below the newest purge is dropping everything some purge is above |
| Convergence.PageTracks | packages/store/src/vault.ts:664-677 | after a page no row stays that the server dropped unless its purge is still to come |
| Convergence.PageDelivers | packages/store/src/vault.ts:664-677 | after a page every server row at or below the new cursors is on the device |
| Convergence.AckKeeps | packages/store/src/schema/outbox-schema.ts:301-318 | storing the copies of an acknowledged push one change at a time, however late and stopping anywhere, keeps the device in sync |
| Convergence.PushKeeps | packages/client/src/sync-manager.ts:438-446 | the copies a push answers with are on the server or under a purge the device has still to pull |
| Outbox.BatchesKeepRecords | packages/client/src/sync-manager.ts:584-635 | batching loses, doubles and reorders nothing within a record |
| Outbox.BytesOfOne | packages/schema/src/record-limits.ts:43-48 | a batch counts an edit by its ciphertext and a deletion by nothing, each with its overhead |
| Outbox.NumbersAgree | packages/client/src/sync-manager.ts:557-577 | the server numbers an applied change with the version the device gave it |
| VaultEffects.CreateMeans | apps/server/src/vault/router.ts:37-60 | a new id gives a fresh vault: live, empty, no rotation due, its creator the only member and owner, with the one key; a taken one conflicts |
| VaultEffects.RegisterMeans | apps/server/src/auth/registration-router.ts:105-140 | the same of a vault sent along with a registration, with the keys it had on the device |
| VaultEffects.InviteThenAccept | apps/server/src/vault/sharing.ts:131-204 | exactly who may be invited by whom; the invitee then accepts exactly the current version and is a member with the invited role, nobody else changed |
| VaultEffects.InviteUndone | apps/server/src/vault/sharing.ts:319-332 | declining, or removal by the inviter, gives back the vault as before the invite, with a rotation due |
| VaultEffects.AcceptOnce | apps/server/src/vault/sharing.ts:276-313 | accepting goes through exactly for the version sealed, which is the current one, keeps the role, and conflicts the second time |
| VaultEffects.SetRoleMeans | apps/server/src/vault/sharing.ts:381-407 | exactly who may give which role; only that row changes, an owner stays, and whoever changed another's role can set it back |
| VaultEffects.RemoveMeans | apps/server/src/vault/sharing.ts:414-432 | exactly who may remove whom; the user is gone, everyone else as before, a rotation due, an owner left |
| VaultEffects.LeaveMeans | apps/server/src/vault/sharing.ts:439-459 | an active member of a shared vault may leave exactly when another owner stays or they are none; the others are as before and a rotation is due |
| VaultEffects.TransferMeans | apps/server/src/vault/sharing.ts:465-499 | the owners are the same but for the two, the vault's recorded owner follows, and the new owner can hand it back |
| VaultEffects.DeletedForGood | apps/server/src/vault/router.ts:194-209 | exactly an active owner deletes a shared vault, and every call on it afterwards is refused |
| VaultEffects.GoneAreShutOut | apps/server/src/vault/sharing.ts:319-459 | who declined, left or was removed gets no call on the vault through |
| VaultEffects.RotateMeans | apps/server/src/vault/router.ts:94-178 | exactly when a rotation goes through: a manager with the current key, sealed to exactly the others' current keypairs; then the version is one up with a link down, the flag clear, everyone still there in their role, the caller with the new key and the others with it sealed |
| VaultServer.Rotate | apps/server/src/vault/router.ts:94-187 | the loop over the seals leaves exactly the vault of the rule, with the promises of `RotateMeans`, or throws the code of the first check that fails |
| VaultRuns.StepKeepsKeys | apps/server/src/vault/router.ts:94-178 | links for exactly 1 to k-1, seals of version k, a member sealed exactly when behind, every invitee sealed: kept by each procedure |
| VaultRuns.StepKeepsFlag | apps/server/src/vault/sharing.ts:98-103 | unless a rotation is due, everyone ever given the current key is still in the vault: kept by each procedure |
| VaultRuns.StepKeepsOwner | apps/server/src/vault/sharing.ts:381-499 | each procedure, rotation included, leaves a live vault with an active owner |
| VaultRuns.StepKeepsPrivate | apps/server/src/vault/sharing.ts:118-499 | no procedure gets anybody else into a personal vault, its owner out of it, or it deleted |
| VaultRuns.SealsExactly | apps/server/src/vault/router.ts:110-128 | counting the seals and finding one for every other member means they are for exactly the other members |
| KeyChain.AnyMemberCatchesUp | apps/server/src/vault/access.ts:92-157 | the update offered to a member behind covers exactly held to current minus one, opens, and accepting it brings them up to date |
| KeyChain.WalkReaches | packages/store/src/secrets-store.ts:497-504 | walking honest links down reaches the key of every version below |
| KeyChain.OpensExactly | packages/store/src/secrets-store.ts:484-509 | a device takes an update exactly when it is newer, sealed to its keypair by the sender named, and its key leads link by link to the key held; anything that leads elsewhere is refused |
| KeyChain.OfferedExactly | apps/server/src/vault/access.ts:92-157 | an update is offered exactly to an active member of a live vault with a key sealed to them by a known keypair, with exactly the links from their version up to the sealed one |
| KeyChain.StaysHonest | packages/crypto/src/user-keys.ts:130-147 | every honest action keeps each stored link, wrap and seal holding the key it claims |
| KeyChain.KeyUpdates | apps/server/src/vault/access.ts:92-157 | the list holds an update for exactly the vaults that offer one |
| DeleteAccount.Delete | apps/server/src/user/delete-account.ts:28-156 | deletion is refused with nothing changed, or leaves exactly the vaults of the rules and, in their order, exactly the rows of the vaults that stay |
| DeleteAccount.RefusedMeans | apps/server/src/user/delete-account.ts:95-106 | from any vaults: refused exactly when in some live shared vault the user is active in or recorded as owner of, others are active and none of them an owner |
| Secrecy.CreatedIsRegistered | apps/server/src/auth/registration-router.ts:105-140 | creating a vault and registering a shared one with a single key come to the same vault |
| SecretsStore.Store.WipeVaultKeys | packages/store/src/secrets-store.ts:619-624 | every held buffer is zeroed and none is held |
| SecretsStore.LoadPreviousKeys | packages/store/src/secrets-store.ts:659-676 | exactly the versions from the current one down to the first missing or unopenable link are opened |
| SecretsStore.Store.OpenKeyUpdate | packages/store/src/secrets-store.ts:484-509 | a wrap is returned exactly when the update opens and leads to the held key; every buffer opened is zeroed either way |
| SecretsStore.Walk | packages/store/src/secrets-store.ts:494-508 | walking down zeroes every key passed on the way |
| SecretsStore.Store.OpenInvitation | packages/store/src/secrets-store.ts:461-474 | an invite's key is wrapped for the user only if it opens with its metadata, and zeroed either way |
| SecretsStore.EqualBytes | packages/store/src/secrets-store.ts:679-684 | folding the differences of all bytes tells equality |
| SecretsStore.MemberOpensHistory | apps/server/src/vault/access.ts:35-84 | a member of an honest vault is listed exactly the links below their own key, and opens every key up to it |
| Base64.DecodeEncode | packages/util/src/format.ts:15-53 | decoding undoes encoding, for all bytes |
| Utf8.TextRoundTrip | packages/crypto/src/ssh-key.ts:57-59 | text comes back from its UTF-8 bytes exactly when it is well formed and starts with no byte order mark |
| Utf8.DecodedExactly | packages/crypto/src/ssh-key.ts:57-59 | whatever the bytes: what is decoded is well formed, and without a replacement in it it is exactly what the bytes encode |
| Utf8.PointRoundTrip | packages/util/src/format.ts:23-25 | decoding an encoded code point, whatever follows, gives its units |
| SshKey.PemRoundTrip | packages/crypto/src/ssh-key.ts:66-76 | unwrapping undoes 70-column wrapping, for all bytes |
| SshKey.UnwrapReads | packages/crypto/src/ssh-key.ts:71-76 | what stands between the two marks is decoded without its white space, whatever text stands around them |
| SshKey.StringRoundTrip | packages/crypto/src/ssh-key.ts:20-55 | reading a written wire string gives it back and leaves what follows |
| SshKey.GeneratedMeans | packages/crypto/src/ssh-key.ts:86-124 | byte by byte what a generated pair is: the line of type, base64 and comment; the folded armour; no cipher, one key, its public part; and the section with the check value twice, the key fields, the comment and 1, 2, 3, … up to a multiple of 8 |
| SshKey.ReadPublicKeyLine | packages/crypto/src/ssh-key.ts:140-168 | the cursor-based reader computes the parser on the remaining bytes, errors included |
| SshKey.MarkedCommentChanges | packages/crypto/src/ssh-key.ts:57-59 | a marked comment comes back without its mark |
| SshKey.BrokenCommentChanges | packages/crypto/src/ssh-key.ts:57-59 | a comment with an unpaired surrogate comes back with its replacement |
| SecondFactor.Redis.TakeChallenge | apps/server/src/util/redis-utils.ts:461-463 | only the caller that ended the challenge is told so |
| SecondFactor.RunIsTraced | apps/server/src/auth/login-router.ts:439-484 | every run has the events the statements about single calls are over |
| SecondFactor.WrongCodeGetsNone | apps/server/src/auth/login-router.ts:461-472 | with a wrong code the same call gets none, and the challenge stays with one attempt more unless that was the last |

## Left out

- Statement-level races: each server procedure is one step, so `acceptKey` running without the vault lock, roles read before the lock and lock timeouts (`SERVICE_UNAVAILABLE`) are outside the claims.
- Unique indexes on ciphertexts: a replayed wrap, box or link that conflicts is not modelled; a repeated link version is.
- A registration creates its vaults in one transaction: here each is a step of its own, and that an account has one personal vault is not stated.
- Vault metadata, emails, notifications, dates and the null author of a deleted account's versions.
- The device's pending rows, rebase, conflict merge, breach results and revoked-vault rescue: only synced rows are modelled, so a local purge that is still pending drops nothing here.
- A purge acknowledged without a server copy, and `removeVault` while a page is on its way: the device's rows come from pages and acknowledged copies.
- Convergence.RunInSync: account deletion, which removes whole vaults, is not among the server steps.
- Secrecy.DerivesExactly: one vault at a time, its ciphertexts symbolic, an honest server that keeps nothing of a refused call.
- KeyChain.AnyMemberCatchesUp: the device holds the private key of the keypair the new key was sealed to.
- SecondFactor.CodesAndSessions: which code is right, the login throttle and the session store are answers from outside.
- DeleteAccount.Delete: the choice among several other owners is the least id; the source takes whichever row the database returns first.
- `roleAtLeast`, `rotationsDue`, record history, key fingerprints, other key formats, KDBX import, the password generator, migrations, sessions and the remaining login, recovery and password routes.
