# Password vault: sync protocol, authentication and codecs

A Dafny 4.11 model of the end-to-end encrypted password vault; `dafny verify dfyconfig.toml` checks all of it. It has
three parts.

**The vault.** The server keeps one append-only, hash-chained revision log per vault, a head row and an index row per
item; it serves the log in pages of 500. The browser builds MACed changes, replays pages from its own head, checks
every link, folds the log into an item map and keeps append-only checkpoints in `localStorage`.

| file | what it holds |
|---|---|
| `CanonicalJson.dfy`, `Payloads.dfy`, `Decimals.dfy` | the canonical printer; the MAC, head-hash, envelope and associated-data texts |
| `Chain.dfy` | one link of the log, what a head hash pins down |
| `VaultServer.dfy` | the tables and the write handlers as steps; abstract logs (`Ledgers`) that the tables refine |
| `VaultSync.dfy`, `VaultStore.dfy` | one sync response from three separate reads; the handlers statement by statement, other writers in between |
| `Checkpoints.dfy` | the stored checkpoints, one tab or many |
| `Replica.dfy`, `VaultClient.dfy` | the browser's vault as a value and as an object that is cloned, replayed and committed |
| `Outcomes.dfy` | exactly when a sync or an unlock succeeds, and which alarm is raised otherwise |
| `LoneTab.dfy`, `ManyTabs.dfy` | whole runs of one tab, and of many on one store, against any server |
| `OtherTabs.dfy` | exactly when checkpoints that other tabs save after an unlock are kept |
| `Paging.dfy`, `EndToEnd.dfy` | a whole sync against a fixed log; server, store and tab together |

**Authentication.** `AuthModel.dfy` has the tables, one step per transaction or free-standing statement, a clock that
never goes back and a history of what was accepted. `AuthTables.dfy` has the handlers statement by statement, each
equal to its step. One file per property holds an invariant over all runs: `AuthProvenance.dfy`, `AuthTotp.dfy`,
`AuthBudgets.dfy`, `AuthRecovery.dfy`, `AuthTimers.dfy`, with the counting they share in `AuthHistory.dfy`;
`AuthChallenges.dfy` has what closes a challenge for good and `AuthIsolation.dfy` what a step leaves alone.
`AuthAccess.dfy` is the other direction: what right proofs, codes and confirmations do give, and what wrong ones cost.
`LoginRuns.dfy` puts SCRAM and TOTP in for the checks.

**Codecs.** `Totp.dfy`, `Base32.dfy`, `Scram.dfy`, `Transcript.dfy` and `LoginProof.dfy`, over `Arithmetic.dfy` and
`Results.dfy`: TOTP (section 4 of RFC 6238, section 5.3 of RFC 4226), Base32 (section 6 of RFC 4648), SCRAM (section 3 of
RFC 5802, section 5.2 of RFC 8018) and the length-prefixed login transcript.

Cryptography is a set of function parameters. Nothing is assumed of them beyond, where a lemma says so, that the texts
hashed in the logs at hand do not collide and that accepted change MACs were made by the browser's own
`buildEncryptedItemChange`; where a head has to be storable, that HMACs decode to 32 bytes. Clock readings, random
identifiers, tokens, salts and nonces are parameters of the steps; identifiers once drawn are not drawn again.

## What the code does differently from its documentation

- `docs/security/revision-freshness.md:104-111` gives the genesis head as an HMAC under the vault's integrity key; the
  code uses a plain SHA-256 of the vault id (`crates/api/src/auth/routes.rs:2569-2575`), as `docs/api-contract.md:243`
  also says. Here the genesis head is an arbitrary text chosen by the server, and `Replica.RollbackResistance` shows
  that a stored checkpoint fixes the genesis too.
- `docs/security/revision-freshness.md:62-66` promises that checkpoint writes are monotonic over all tabs. The records
  are, the pointer is not. `Checkpoints.PointerCanGoBack` moves it from 7 back to 5. `Checkpoints.PointerGoesBackIff`
  says exactly when: a tab's pointer write lowers the pointer if and only if the last pointer that other tabs wrote since
  its second check is of a higher head. A persist that no other tab's pointer write interrupts never lowers it, and
  `Checkpoints.LoadNeverDecreases` shows that loads do not suffer.
- `docs/security/revision-freshness.md:29-31` promises that an accepted chain extends the local checkpoint. That holds for
  the checkpoint loaded at unlock, for everything one tab saves itself, and so in every run of a single tab
  (`LoneTab.LaterLogsExtendEarlier`) and for every tab's unlock among many (`ManyTabs.UnlockBindsTheTab`). A checkpoint
  that another tab saved after the unlock is compared with the new head alone. If it is below the tab's head, the promise
  is kept if and only if it is on the tab's log already (`OtherTabs.LowerIsKeptIff`). If it is at that head or above, the
  promise is kept against a server that shows issued MACs only if and only if holders of the key have issued no
  continuation of the tab's log past it on another way (`OtherTabs.AtOrAboveIsKeptIff`); for another hash at the tab's own
  number, no next change at all (`OtherTabs.SameNumberIsKeptIff`). It is kept as long as only one line of history was built
  (`OtherTabs.OneLineIsKept`) and broken by `OtherTabs.BuiltForkIsMissed`, a fork of three changes the page itself builds,
  of which `OtherTabs.TransparentForkIsMissed` is one run in full.
- The browser never compares `head_seq` with `base_head_seq + 1`; `Chain.AcceptedNumbering` gets the numbering from
  unforged MACs instead.

## Model

| member | source | states |
|---|---|---|
| CanonicalJson.StableJsonCanonical | crates/api/static/app.js:324-333 | Two JSON values print alike if and only if they differ only in the order of object keys, at any depth |
| CanonicalJson.RenderReadable | crates/api/static/app.js:324-333 | The printed text is prefix-safe: whatever follows, a value can be read off the front in one way only |
| CanonicalJson.RecordInjective | crates/api/static/app.js:1006-1046 | Flat records over one key list print alike only when every field is equal |
| Payloads.ChangeTextInjective | crates/api/static/app.js:1006-1036 | The MACed text of a change fixes every field of it |
| Payloads.HeadTextInjective | crates/api/static/app.js:1038-1046 | The hashed text of a head fixes the vault, the number, the previous hash and the change MAC |
| Payloads.EnvelopeTextInjective | crates/api/static/app.js:1283-1285 | The hashed text of an envelope fixes the envelope |
| Payloads.AadTextBinds | crates/api/static/app.js:991-1004 | The associated data of two revisions agree if and only if vault, item, revision, operation, both base numbers and key id agree |
| Payloads.TextsNeverMix | crates/api/static/app.js:1006-1054 | No MACed change text is a hashed head text, so under their one key neither stands in for the other |
| Decimals.SignedInjective | crates/api/static/app.js:324-327 | Printed numbers are equal only for equal numbers, signs included |
| Chain.AcceptedNumbering | crates/api/static/app.js:1395-1462 | An accepted log with unforged MACs is numbered 1, 2, ..., n although the client never checks the increment |
| Chain.SameHeadHashSameChange | crates/api/static/app.js:1415-1462 | Without collisions, two authentic changes with one head hash are the same change |
| Chain.SameHeadSameLog | crates/api/static/app.js:1395-1490 | Two accepted logs that reach one head are the same log over the same genesis |
| Checkpoints.LatestVaultCheckpoint | crates/api/static/app.js:1113-1127 | The loop returns a highest checkpoint, and an error exactly when two hashes stand at one number |
| Checkpoints.LocalStorage.LoadVaultCheckpoint | crates/api/static/app.js:1129-1150 | Loading reads pointer and records and equals the specification on the whole store; text that does not parse makes it throw |
| Checkpoints.LocalStorage.PersistVaultCheckpoint | crates/api/static/app.js:1164-1188 | Probe, check, write record, check again, write pointer, each of which may throw: equals the specification, a late refusal leaving the record |
| Checkpoints.LoadMeans | crates/api/static/app.js:1113-1150 | On any storage, pointer on record or not: a load fails if and only if a text does not parse or two checkpoints disagree at one number, and otherwise returns a highest one |
| Checkpoints.PersistAnswer | crates/api/static/app.js:1152-1188 | The exact answer of an uninterrupted persist by the records alone: its second check never refuses, a saved head is pointer, record and what loads, and a refusal leaves at most the record |
| Checkpoints.PersistIsFourSteps | crates/api/static/app.js:1164-1188 | A persist is the four steps of the many-tab machine with nobody in between |
| Checkpoints.LoadNeverDecreases | crates/api/static/app.js:1113-1188 | Under every interleaving of tabs a later load returns no less than an earlier one, at one number the same hash, and errors stay |
| Checkpoints.ForkOnRecordIsPermanent | crates/api/static/app.js:1113-1127 | Two hashes recorded at one number make every later load fail, so no tab can begin to write |
| Checkpoints.SecondCheckMeansHighest | crates/api/static/app.js:1176-1181 | A tab passes its second check if and only if its own head is what the store loads as highest |
| Checkpoints.CompletedPersistIsRemembered | crates/api/static/app.js:1164-1188 | After a completed persist no later load returns less, whatever pointers are written afterwards |
| Checkpoints.PointerGoesBackIff | crates/api/static/app.js:1176-1181 | From a passed second check and for any steps of other tabs, the tab's pointer write lowers the pointer if and only if the last pointer those steps wrote is of a higher head |
| Checkpoints.UninterruptedPersistNeverLowers | crates/api/static/app.js:1164-1188 | A persist that no other tab's pointer write interrupts never lowers the pointer |
| Checkpoints.PointerCanGoBack | crates/api/static/app.js:1176-1181 | A run from the empty store in which a slow tab moves the pointer back |
| VaultServer.StepRefines | crates/api/src/vault.rs:438-667 | Each write on the tables is one step on the abstract logs: it commits exactly when the log accepts it, appends one entry, and a refused write changes nothing |
| VaultServer.RunRefines | crates/api/src/vault.rs:438-667 | After any run of writes the tables are exactly the logs, and logs only grow |
| VaultServer.RevisionPlacedIff | crates/api/src/vault.rs:577-631 | The revision handler's checks on the head row and item row hold if and only if the new entry is well placed in the log |
| VaultServer.ItemRowIff | crates/api/src/vault.rs:904-1033 | A vault has an index row for an item if and only if its log mentions the item, and the row agrees with the last entry |
| VaultServer.ServerInvariant | migrations/202606070001_initial_schema.sql:155-205 | From empty tables, every run keeps numbering 1..n, hash links back to the genesis, the head row at the last entry, and the item index at each item's last entry |
| VaultServer.ItemHistory | crates/api/src/vault.rs:438-667 | An item's revisions run 1, 2, 3, ...: created first and only first, nothing after a delete |
| VaultServer.OneCommitPerBase | crates/api/src/vault.rs:577-631 | Two writes on one base never both commit, whatever is written in between |
| VaultServer.WriteAnswer | crates/api/src/vault.rs:438-667 | Every create, update or delete gets the one answer the logs tell: bad request if malformed; not found if the vault is another's or the log never mentions the item; its entry if committed; otherwise a conflict with the current head. "Unavailable" never occurs |
| VaultStore.VaultTables.CreateItem | crates/api/src/vault.rs:438-548 | The handler, statement by statement with rollback, is one step and gives that answer; it writes exactly when the log accepts, and otherwise leaves the tables alone |
| VaultStore.VaultTables.CreateItemRevision | crates/api/src/vault.rs:550-667 | The same for updates and deletions |
| VaultStore.VaultTables.AppendRevision | crates/api/src/vault.rs:946-1062 | Insert the revision, move the item index, move the head, or roll everything back |
| VaultStore.VaultTables.CursorMatches | crates/api/src/vault.rs:843-877 | The cursor query answers the three-branch check |
| VaultStore.VaultTables.SyncVault | crates/api/src/vault.rs:297-436 | With other writers committing between the three reads, the answer is the one computed atomically at the start |
| VaultStore.Assemble | crates/api/src/vault.rs:350-436 | Truncating to 500, finding the reached head and pushing the changes one by one gives the specified page |
| VaultSync.CursorCheckIsSimple | crates/api/src/vault.rs:843-877 | The three-branch check holds if and only if the hash is the log's hash at that number, as of the head read |
| VaultSync.SelectionIsSlice | crates/api/src/vault.rs:329-349 | Whatever a range query may return is the consecutive slice of the log |
| VaultSync.SyncLinearises | crates/api/src/vault.rs:309-366 | One response equals one computed atomically at the first read, for all writes in between |
| VaultSync.SyncServes | crates/api/src/vault.rs:297-436 | Such an answer is a page if and only if the vault is the caller's and the cursor was its head at some time: the next 500 entries after it, the head they lead to, more to come exactly when entries are left; any other cursor gets the current head |
| Replica.BuildIsAuthentic | crates/api/static/app.js:1287-1357 | A built change passes every check of a client at its builder's head and carries the item, revision, operation, numbers and envelope asked for |
| Replica.StartUnlockHolds | crates/api/static/app.js:1223-1258 | An unlock that passes starts from the empty log with the stored checkpoint to be met |
| Replica.ReplayKeeps | crates/api/static/app.js:1492-1525 | A successful replay extends the log by exactly the received changes and passes through the checkpoint |
| Replica.SyncExtendsOrKeeps | crates/api/static/app.js:1492-1537 | A failed sync keeps the replica; a successful one only appends |
| Replica.RollbackResistance | crates/api/static/app.js:1202-1268 | Whatever the server answers, a sync that succeeds after unlocking with checkpoint (s, h) accepts a log whose first s entries are those accepted when (s, h) was saved |
| Replica.SameHeadSameItems | crates/api/static/app.js:1476-1490 | Two clients at one head hold the same item map |
| Outcomes.TamperingIsNamed | crates/api/static/app.js:1395-1462 | Whatever a server alters in a true change (link, envelope, envelope hash, numbers, identifiers, operation, MAC, head hash) is refused under its own name |
| Outcomes.ReplayOutcome | crates/api/static/app.js:1202-1221 | Fitting pages of a verifiable log: ending below the checkpoint's number is reported as not reaching it, passing that number with another hash as rollback or fork, anything else is accepted whole |
| Outcomes.ReplaySucceedsIff | crates/api/static/app.js:1492-1525 | For any answers with unforged MACs a replay succeeds if and only if the pages fit from the local head to the named one, their log verifies and a pending checkpoint lies on it |
| Outcomes.UnlockNamesTheDanger | crates/api/static/app.js:1190-1258 | A server head below the stored checkpoint is refused as behind, one at its number with another hash as forked; which unlocks start, and with what |
| Outcomes.UnlockSucceedsIff | crates/api/static/app.js:1223-1268 | For any answers with unforged MACs and any storage: exactly when an unlock with its first sync goes through |
| OtherTabs.ComparedWithHeadOnly | crates/api/static/app.js:1152-1162 | With nothing else wrong, a sync succeeds exactly when the highest stored checkpoint is lower than the new head or is that head |
| OtherTabs.LowerIsKeptIff | crates/api/static/app.js:1152-1188 | For one below the tab's head, whether or not the server can forge: every sync that succeeds accepts a log through it if and only if it is on the tab's log before the sync |
| OtherTabs.AtOrAboveIsKeptIff | crates/api/static/app.js:1152-1188 | For one at the tab's number or above: every sync that succeeds on issued MACs accepts a log through it if and only if no issued, accepted and storable continuation of the tab's log passes its number with another hash |
| OtherTabs.SameNumberIsKeptIff | crates/api/static/app.js:1152-1188 | For another hash at the tab's own number: if and only if no single change on the tab's head has been issued |
| OtherTabs.OneLineIsKept | crates/api/static/app.js:1287-1357 | If everything issued lies on one accepted log, every checkpoint on that log is kept, however far ahead another tab saved it |
| OtherTabs.OwnCheckpointIsKept | crates/api/static/app.js:1202-1221 | While the store holds what this tab loaded or saved last, every accepted log passes through it |
| OtherTabs.ForkBelowHeadIsMissed | crates/api/static/app.js:1152-1188 | A sync that succeeds on a log of two entries whose first is not the one another tab saved |
| OtherTabs.BuiltForkIsMissed | crates/api/static/app.js:1287-1357 | The same with three changes as the page builds them, issued by it and opening again, when the texts of the two first changes do not collide |
| OtherTabs.TransparentForkIsMissed | crates/api/static/app.js:1287-1357 | The same with concrete identifiers and hash functions |
| LoneTab.LaterLogsExtendEarlier | crates/api/static/app.js:1223-1268 | In every run of one tab (unlock, refresh, save, lock; any server answers, any refused storage write) a log accepted later extends every log accepted earlier, and every stored record is a head on it |
| LoneTab.TabShowsBestLog | crates/api/static/app.js:1366-1371 | What the tab shows is that log, or a vault that still has that log's head to prove |
| ManyTabs.RecordsAreAcceptedHeads | crates/api/static/app.js:1164-1188 | In every interleaving of tabs against any server, each stored record is the head of a log that some tab verified and put on record |
| ManyTabs.UnlockBindsTheTab | crates/api/static/app.js:1223-1268 | Whatever a tab accepts after an unlock, while all tabs go on, extends a log that was on record at the unlock and whose head was the highest record then |
| ManyTabs.RecordedLogsExtendTheirBase | crates/api/static/app.js:1202-1221 | Every log that went on record extends the base of its tab, which was on record before it |
| VaultClient.CloneVaultForReplay | crates/api/static/app.js:1359-1364 | The clone has its own Map, so replaying on it cannot reach the live vault |
| VaultClient.VerifyAndApplyChange | crates/api/static/app.js:1395-1490 | Applying one change equals the specification; on an error the live vault is unchanged |
| VaultClient.SyncVault | crates/api/static/app.js:1492-1537 | The do-while loop equals the specification; on any failure the vault object, its head and its Map are what they were |
| Paging.PagesCoverLog | crates/api/src/vault.rs:350-366 | The pages from k concatenate to exactly entries k+1..n, in max(1, ceil((n-k)/500)) requests |
| Paging.FixedLogSync | crates/api/static/app.js:1492-1537 | Against a fixed honest log the client's loop ends after exactly those requests, at the end of the log |
| Paging.FoldIsLastEntries | crates/api/static/app.js:1463-1490 | The folded map holds each item's last entry, with the text its envelope opens to under the associated data of its own revision, unless that entry deleted it |
| Paging.ItemsAreLiveRows | crates/api/src/vault.rs:1003-1033 | At the server's head, the client's items are exactly the non-deleted rows, at their latest revision id and number, each with the text that revision's stored envelope opens to |
| Paging.ItemShowsLastText | crates/api/static/app.js:1463-1490 | Every tab holding an accepted log shows of an item what its last entry opens to, or nothing once that deleted it |
| EndToEnd.ServerRecomputesClientSeqs | crates/api/src/vault.rs:465-516 | For every committed write, the entry the server stores carries the numbers the client MACed |
| EndToEnd.HonestRun | crates/api/static/app.js:1287-1357 | After any run of client-built writes, every entry of the log verifies for every client |
| EndToEnd.ConverseSucceeds | crates/api/static/app.js:1492-1537 | A sync while others write either reaches the end of the log as it then is or runs out of answers; it never fails |
| EndToEnd.StepIsFine | crates/api/static/app.js:1223-1268 | With an honest server and one tab, no unlock, refresh or save raises a rollback, fork, chain or checkpoint error |
| EndToEnd.SavedTextIsShown | crates/api/static/app.js:1555-1700 | What a tab saved is the log's last entry about that item, and this tab and every tab whose log has it last show the text that was encrypted, or the item gone |
| EndToEnd.SingleTabNeverAlarms | crates/api/static/app.js:1190-1268 | The same over whole runs, as long as the log's length is a safe integer |
| EndToEnd.FreshIsConsistent | crates/api/src/auth/routes.rs:624-690 | A new vault with an empty store is where such runs start |
| AuthTables.AuthTables.FindMatchingRecoveryCode | crates/api/src/auth/routes.rs:2364-2407 | The loop returns only an unused row of the account whose hash matches, and none only if there is none |
| AuthTables.LastMatchMayMatch | crates/api/src/auth/routes.rs:2385-2406 | The last match among any listing of the account's unused rows is such a row |
| AuthTables.AuthTables.IncrementChallengeAttempts | crates/api/src/auth/routes.rs:2051-2075 | One more attempt; the fifth consumes the challenge |
| AuthTables.AuthTables.RegisterFinish | crates/api/src/auth/routes.rs:466-759 | The handler is the model's step; a taken handle, vault identifier or token rolls every insert back |
| AuthTables.AuthTables.LoginFinish | crates/api/src/auth/routes.rs:827-1091 | Likewise: mismatch and bad proof consume the challenge, a good proof earns a pre-MFA challenge or an enrolment session |
| AuthTables.AuthTables.TotpVerify | crates/api/src/auth/routes.rs:1093-1296 | Likewise: a wrong code costs an attempt, a right one burns its step and creates a verified session |
| AuthTables.AuthTables.RecoveryCodeVerify | crates/api/src/auth/routes.rs:1298-1400 | Likewise for recovery codes, for the code the loop found |
| AuthTables.AuthTables.LoadCurrentSession | crates/api/src/auth/routes.rs:2676-2748 | For the unrevoked row with the token: returns that row's fields when it is unexpired, otherwise nothing and revokes it; nothing when there is no such row |
| AuthTables.AuthTables.RefreshSessionActivity | crates/api/src/auth/routes.rs:2750-2774 | Sets the idle deadline from the request's own copy of the session |
| AuthTables.AuthTables.TotpEnrollStart | crates/api/src/auth/routes.rs:1502-1597 | Every factor of the account gives way to one new pending factor |
| AuthTables.AuthTables.ReplaceRecoveryCodes | crates/api/src/auth/routes.rs:1724-1751 | The delete and the insert loop equal dropping the account's codes and inserting the new ones |
| AuthRecovery.ReplacedCodes | crates/api/src/auth/routes.rs:1724-1751 | After that the account's unused codes are exactly the new ones, and every other account's are as they were |
| AuthTables.AuthTables.TotpEnrollConfirm | crates/api/src/auth/routes.rs:1599-1834 | A wrong code deletes the pending factor; a right one verifies it, replaces the codes and lifts the session |
| AuthProvenance.VerifiedSessionsAreEarned | crates/api/src/auth/routes.rs:930-1061 | In every run a verified session traces back to a TOTP code accepted for that account and session, preceded by the account's registration or an accepted proof |
| AuthProvenance.VaultAccessIsEarned | crates/api/src/vault.rs:742-754 | Vault code runs only under such a session, handed to the request at the request's own time |
| AuthProvenance.CodeEarlier | crates/api/src/auth/routes.rs:1242-1261 | Every accepted TOTP code comes after a registration or accepted proof of the same account |
| AuthAccess.EnrolmentOpensVault | crates/api/src/auth/routes.rs:1753-1791 | A right confirmation opens the vault through the new token, and the session's old token reaches nothing any more |
| AuthAccess.LoginOpensVault | crates/api/src/auth/routes.rs:1224-1261 | A right login code opens the vault through the token just issued |
| AuthAccess.EnrolmentFromStart | crates/api/src/auth/routes.rs:1502-1834 | A code right for the seed given at the start confirms the enrolment, makes that factor the active one and opens the vault |
| AuthAccess.StartReplacesFactors | crates/api/src/auth/routes.rs:1521-1560 | A start leaves the account one pending factor with the given seed and everybody else's factors alone |
| AuthAccess.CodeAcceptedIff | crates/api/src/auth/routes.rs:1147-1261 | A login code gives a verified session if and only if it is right; a wrong one costs an attempt and nothing else, the fifth closes the challenge |
| AuthAccess.RecoveryAcceptedIff | crates/api/src/auth/routes.rs:1320-1364 | A recovery code gives a recovery session if and only if it hashes to an unused code of the account, which it uses up; a wrong one costs an attempt |
| AuthAccess.RecoveryLeadsToEnrolment | crates/api/src/auth/routes.rs:1346-1364 | A right one's token reaches a recovery session that may start an enrolment and does not open the vault |
| AuthAccess.LoadReturnsIff | crates/api/src/auth/routes.rs:2676-2748 | A load hands out the token's live session exactly while both deadlines are ahead, and otherwise only marks it for revocation |
| AuthAccess.ActivityKeepsAlive | crates/api/src/auth/routes.rs:2750-2774 | After a refresh a load is handed the session exactly within half an hour of the refreshing request and before the absolute deadline |
| AuthAccess.ActiveSessionsStay | crates/api/src/auth/routes.rs:2676-2774 | The same at the end of any run of other requests |
| AuthAccess.RegistrationSucceeds | crates/api/src/auth/routes.rs:413-759 | Within ten minutes of its start, whatever else goes on, a registration of a free handle creates account and reachable session and spends its challenge |
| AuthAccess.PasswordLogsIn | crates/api/src/auth/routes.rs:761-1091 | Within five minutes of its start a proof under the account's key logs in: to a challenge for its verified factor, or else to a session to enrol with |
| AuthAccess.LateFinishesAreRefused | crates/api/src/auth/routes.rs:856-885 | A finish after those times changes nothing in any run |
| AuthAccess.OutOfPlaceChangesNothing | crates/api/src/auth/routes.rs:1997-2050 | A step on a spent, expired or foreign challenge, factor, handle or session changes nothing, not even a counter |
| AuthChallenges.ClosedIsFinal | crates/api/src/auth/routes.rs:1982-1995 | A consumed challenge stays so, and every later request on it in any handler changes nothing |
| AuthChallenges.ExpiredIsFinal | crates/api/src/auth/routes.rs:1997-2030 | Nor does any request made after its expiry, which no step moves |
| AuthChallenges.OneGuessPerChallenge | crates/api/src/auth/routes.rs:905-983 | One finish with wrong nonces or a wrong proof closes the login challenge for every run |
| AuthChallenges.AtMostFiveWrongCodes | crates/api/src/auth/routes.rs:2051-2075 | No run tries more than five wrong codes, TOTP and recovery together, on one challenge |
| AuthIsolation.AccountsAreForGood | migrations/202606070001_initial_schema.sql:34-36 | In every run no two accounts share a handle, and handle and stored key never change |
| AuthIsolation.ChallengesWait | crates/api/src/auth/routes.rs:2077-2083 | Until it expires a challenge stays as issued unless a request acts on it; clean-ups take only expired ones |
| AuthIsolation.SessionsAreTheirOwn | crates/api/src/auth/routes.rs:1474-1500 | A session's token, state and deadlines change only by requests sent under it or loads past its deadlines |
| AuthIsolation.AccountsAreIsolated | crates/api/src/auth/routes.rs:1093-1834 | In every run an account's row, sessions, factors and codes change only by steps of its own |
| AuthIsolation.ReachableTokens | migrations/202606070001_initial_schema.sql:129-130 | In every run no two sessions hold one token |
| LoginRuns.ProofLogsInIff | crates/api/src/auth/routes.rs:878-983 | A proof made with the account's password for any message logs in if and only if the challenge is open and asked with its own nonces, and the message is that very challenge's transcript |
| LoginRuns.AcceptedProofIsForItsChallenge | crates/api/src/auth/routes.rs:919-960 | Every proof accepted in a run is the honest one for the challenge it was accepted on |
| LoginRuns.OneFinishPerChallenge | crates/api/src/auth/routes.rs:905-983 | After one finish that failed or logged in, no later step of the run that acts on the challenge changes anything |
| LoginRuns.ChallengesAdmitOnce | crates/api/src/auth/routes.rs:906-983 | So in no run do two steps log in on one challenge, nor does one after a wrong guess on it |
| LoginRuns.ProofsAreNeverReplayed | crates/api/src/auth/routes.rs:919-983 | A proof that logged in once never logs in again in that run, on any challenge of an account with that salted password |
| LoginRuns.JudgeByTotp | crates/api/src/auth/routes.rs:1206-1213 | What the handlers judge a code by is the answer of the verification routine, an error counting as a wrong code |
| AuthTotp.JudgeIsTimely | crates/api/src/auth/totp.rs:78-112 | An accepted code has six digits, is the code of its step, and that step is within one of the clock's thirty-second step and above the last one accepted |
| AuthTotp.StepsOnlyIncrease | crates/api/src/auth/routes.rs:1206-1261 | Over a run the steps a factor accepts, confirmation included, strictly increase; its row holds the last; it is judged by at most one confirmation code |
| AuthTotp.OneTryPerPendingFactor | crates/api/src/auth/routes.rs:1654-1700 | One wrong confirmation code drops the pending factor, and no later confirmation of it does anything in any run |
| AuthTotp.CodesAreBounded | crates/api/src/auth/routes.rs:1654-1722 | Between times t1 <= t2 a factor accepts at most step(t2) - step(t1) + 3 codes |
| AuthBudgets.ChallengeBudgets | crates/api/src/auth/routes.rs:2051-2075 | A pre-MFA challenge pays for at most five judged codes, TOTP and recovery together, and one session; a login challenge for one accepted proof |
| AuthBudgets.AttemptsNeverExhausted | crates/api/src/auth/routes.rs:1147-1150 | An available challenge has fewer than five attempts, exactly the codes judged on it, so the attempts_exhausted branches are unreachable |
| AuthRecovery.CodesAreConserved | crates/api/src/auth/routes.rs:1724-1751 | After a confirmed enrolment, unused codes plus recovery sessions since the last confirmation make ten; before it there are none |
| AuthRecovery.IssuedCodesWork | crates/api/src/auth/routes.rs:1724-1751 | After a confirmed enrolment every code that was issued matches |
| AuthRecovery.RecoverySessionsAreBounded | crates/api/src/auth/routes.rs:1346-1362 | Recovery sessions of an account never exceed ten times its confirmations |
| AuthTimers.DeadlinesHold | crates/api/src/auth/routes.rs:2472-2553 | The absolute deadline stays at creation plus twelve hours and the idle deadline never passes it |
| AuthTimers.ReturnedInTime | crates/api/src/auth/routes.rs:2676-2748 | A session is handed out only within twelve hours of creation and half an hour of recorded activity |
| AuthTimers.RevocationIsPermanent | crates/api/src/auth/routes.rs:2776-2788 | A revoked or deleted session is never handed out again, whatever requests are still under way |
| AuthTimers.LogoutIsFinal | crates/api/src/auth/routes.rs:1474-1500 | After a logout the row is gone and no request is handed the session again |
| AuthTimers.ExpiryIsFinal | crates/api/src/auth/routes.rs:2730-2748 | A session found expired is not returned, and once revoked it stays dead, even if other requests refreshed it in between |
| Totp.TruncateIsLast31Bits | crates/api/src/auth/totp.rs:169-189 | The truncation index is in bounds and the value is the 31 low bits of the four bytes there |
| Totp.BigEndianFaithful | crates/api/src/auth/totp.rs:169-189 | The counter's eight bytes denote the counter |
| Totp.FormatCodeFaithful | crates/api/src/auth/totp.rs:201-203 | The printed code has exactly the digits asked for and denotes the value |
| Totp.FormatCodeInjective | crates/api/src/auth/totp.rs:201-203 | Different values below 10^digits print differently |
| Totp.CodeIsHotp | crates/api/src/auth/totp.rs:169-203 | The code of a step, whole: eight bytes denoting the step, 31 bits at the digest's own offset, their last six or eight digits |
| Totp.Verify | crates/api/src/auth/totp.rs:78-112 | Returns the least step of the window around now, both ends of u64 included, that is above the last one and whose code matches; none otherwise; exactly the listed errors |
| Totp.VerdictUnique | crates/api/src/auth/totp.rs:78-112 | There is only one such verdict |
| Totp.GeneratedCodeIsAccepted | crates/api/src/auth/totp.rs:66-76 | A generated code at most one step away and not burnt is accepted |
| Base32.EncodeNoPadding | crates/api/src/auth/totp.rs:121-146 | The 16-bit buffer that is never masked yields exactly the five-bit groups of the input, the last filled with zeros |
| Base32.DecodeEncode | crates/api/src/lib.rs:4124-4143 | Decoding an encoded text, in upper or lower case, returns the bytes |
| Base32.RecoveryCodeFromRandom | crates/api/src/auth/routes.rs:2320-2331 | The chunk loop builds the hyphenated code, 37 characters long |
| Base32.RecoveryCodeInjective | crates/api/src/auth/routes.rs:2320-2331 | Different random bytes give different codes |
| Base32.IssuedCodesValidate | crates/api/src/auth/routes.rs:2349-2362 | Every issued code passes validation unchanged |
| Base32.ValidateIsIdempotent | crates/api/src/auth/routes.rs:2349-2362 | What validation returns it returns again |
| Scram.XorKeys | crates/api/src/auth/scram.rs:176-182 | The array loop is the bytewise XOR |
| Scram.SaltedPassword | crates/api/src/auth/scram.rs:114-137 | The in-place loop is the XOR of U_1 to U_c for every permitted count, with the listed errors otherwise |
| Scram.BlockIsXorOfIterates | crates/api/src/auth/scram.rs:114-137 | That block is the exclusive or of the first c iterates of the salt and block number one, whichever end it is taken from |
| Scram.DeriveVerifier | crates/api/src/auth/scram.rs:65-79 | Stored and server key come from that salted password |
| Scram.ClientProof | crates/api/src/auth/scram.rs:81-93 | The proof is the honest one for the message |
| Scram.VerifyClientProof | crates/api/src/auth/scram.rs:99-112 | Any proof that is not 32 bytes is an error; otherwise the recovered key is compared by hash |
| Scram.HonestProofVerifies | crates/api/src/auth/scram.rs:81-112 | The honest proof verifies against the derived stored key |
| Scram.OnlyHonestProofVerifies | crates/api/src/auth/scram.rs:99-112 | Without a SHA-256 collision, a proof verifies if and only if it is the honest one |
| Scram.ProofIsForOneMessage | crates/api/src/auth/scram.rs:99-112 | Without collisions, a proof made for one message verifies for another if and only if they are the same |
| Transcript.BuildLoginAuthMessage | crates/api/src/auth/transcript.rs:14-40 | Pushing the fields one by one onto the shared buffer gives the specified text |
| Transcript.TranscriptParses | crates/api/src/auth/transcript.rs:14-49 | The fields can be read back from the text, whatever they contain |
| Transcript.TranscriptUnambiguous | crates/api/src/auth/transcript.rs:14-49 | Equal transcripts mean equal fields, '=', ':' and newlines included |
| LoginProof.ProofBindsTranscript | crates/api/src/auth/routes.rs:905-960 | A client proof verifies for a claimed transcript if and only if all six fields are those it was made for |

## Left out

- HTTP, headers, cookies, CSRF and fetch-site checks, JSON extraction, telemetry, audit rows and configuration: they only refuse more requests or write elsewhere.
- Base64 decoding and the length and trimming checks of the request validators; their refusals change no table.
- SHA-256, HMAC, AES-GCM, XChaCha20 and HKDF themselves, random generation, constant-time comparison and timing.
- Canonical JSON of lone surrogates, NaN and non-integer numbers, and JavaScript's UTF-16 key order beyond the basic plane; numbers are leaves with an integer or given text.
- The wrap-around of 64-bit head numbers on the server; the browser's safe-integer limit is in the model.
- Account deletion cascades, which remove log rows, and device revocation, which no handler performs.
- Challenge rate limiting: count and insert are separate statements, so no bound follows for concurrent requests.
- A write whose response is lost and the screen state that `lockVault` and the busy flags keep; after a throw between `state.vault` being set and the guarded sync the vault object stays; only `LoneTab` and `ManyTabs` model that.
- `isVaultFailClosedError`, which decides by message text whether the screen locks; `LoneTab` and `ManyTabs` lock after every refused checkpoint, all of whose messages it matches, and otherwise leave locking to the user.
- AuthTables.AuthTables.RegisterFinish: does not model the keyset, device and key-wrap rows, which carry fresh identifiers of their own; of the vault row only that its identifier is free, its contents being `VaultServer.NewVault`.
- The server's signature for the client (`server_signature`), provisioning URIs and TOTP seed encryption.
- Identifiers drawn at random are assumed not to repeat, and a request's statements may run arbitrarily late; a request is never forgotten, so the model allows more interleavings than a server shows.
- Locks are taken for granted: each transaction is one step. The reads of a sync, and the load, revoke, refresh and handler transactions of one session request, are separate steps.
- Transcript.TranscriptParses: texts are sequences of characters standing for one byte each, so the length prefix counts characters.
- Base32.DecodeEncode: the decoder is a function on bit strings; the loop with a 32-bit buffer that it stands for is a helper of the repository's own tests, since the program itself never decodes.
- EndToEnd.ConverseSucceeds: the number of server answers is a parameter, because other writers can outrun a sync for ever.
- AuthTotp.CodesAreBounded: it counts by the clock readings of the requests, which may be older than the moment their statements run.
