# Verified model of bancaemdia's stateful protocols

This Dafny project models the parts of bancaemdia where a mistake would lose money, a login or a
release, and proves what those parts are meant to guarantee. The theorems are about all inputs, all
runs or all reachable states; where the code falls short of a promise, a lemma at one concrete input
shows it beside the theorem that says exactly when the promise holds. `dafny verify dfyconfig.toml` checks the whole project.

## What is modelled

**Historical Casa/Telegram reconciliation** (`Sources`, `Matching`, `Money`, `Plan`, `PlanMeaning`, `Reporting`,
`Applying`, `Progress`). The report searches candidate pairs with bisect windows over sorted groups, stops at a
neighbour limit, vetoes what the truncation may have hidden, counts degrees and plans which Telegram
bets to take out of the totals. `PlanMeaning` describes the complete graph by the columns of bets and
relations alone, with no sorting, windows, sets or truncation; `PlanMeaning.MayConsolidate` is what a pair
must satisfy there. The fast search is proved to plan exactly those pairs, and to judge and report every
other bet, pair and relation as the columns say. `Reporting` holds the loops of
`report`, proved to compute that plan. `Applying` runs an approved plan chunk by chunk: each
transaction checks the content and the totals, applies a stretch of candidates and appends a journal
row. Crashes, refusals, lost commits and writers outside the job can fall anywhere. `Progress` says when
the job's own work commits, and that enough undisturbed attempts finish the plan.

**Consolidation relations** (`Relations`). The table with its check constraints, foreign keys, partial
unique indexes and triggers, executing arbitrary inserts, updates and deletes, and the view of bets
that count as financial facts.

**Browser sessions** (`Sessions`, `RefreshRaces`, `SessionLimits`, `IdentityStore`). Every transaction of the identity
service is one step over the session, retired-cookie and revocation tables. A refresh call is split
into retired-cookie lookup, plain lookup, locked renewal and recheck, so every interleaving of calls is
a run. `SessionLimits` says which row each transaction leaves and how long a cookie or bearer is
accepted. `IdentityStore` updates the tables row by row, as the service does.

**Event replay and cash ledger** (`Paging`, `Replay`, `ReplayMeaning`, `Ledger`, `LedgerMeaning`, `ReplayRun`). Keyset paging, folding
each bet's whole history, in-place reconciliation, restoring movements from their events, and
verification. `ReplayMeaning` and `LedgerMeaning` say column by column what is left in the rows and what
verification accepts. `ReplayRun.Replayer` holds the loops with their cursors and pages.

**Dashboard** (`Dashboard`, `Sums`, `FinancialDashboard`). The per-bet contributions, the group-by views,
and the dashboard rebuilt over the financial view, where a consolidated pair counts once.

**Published contract, release script, baseline repair** (`ContractClosure`, `ContractArtifact`, `Deploy`,
`ConflictRepair`, `Pointers`). The schema closure of the collection contract and the document built from
it, with its references read as JSON Pointers; the ECS release and
rollback sequence with every call allowed to fail before or after its effect, the removal of two
conflict blocks from a damaged baseline, and the check of its local references.

## Where the code and the promise differ

Each of these is proved at a concrete input and as an exact condition over all inputs.

- Active relations form a two-sided matching only while no statement rewrites the origin of a linked
  bet: the insert trigger never looks at old rows again (`Relations.OriginRewriteBreaksMatching`;
  exactly: `Relations.SidedExactly`).
- A consolidation appends an event to both histories. A bet that already has MAX_HISTORY events is then
  read back under its account's house, the totals move between houses, and the check after the chunk
  refuses the job's own work at every retry (`Progress.FullHistoryStops`,
  `Progress.FullHistoryNeverApplies`). The next chunk commits exactly when the bets it displaces cancel
  out in every house (`Progress.OwnWorkCommitsExactly`), in particular while every bet to consolidate
  has room for one more event, which the progress theorems assume.
- A dry replay checks less than the tables do. It accepts a movement of zero cents, a second line for the
  same missing movement, and a correction that takes the chat from a Telegram bet
  (`Ledger.ZeroValueFoolsDryRun`, `Ledger.RepeatedIdFoolsDryRun`, `Replay.NulledMessageFoolsDryRun`).
  When it would restore anything it also skips the verification, so it misses a stored idempotent
  response that disagrees with its event (`Ledger.StaleResponseFoolsDryRun`,
  `ReplayRun.StaleResponseStopsReplay`). After a dry run that succeeds, the live one commits exactly when
  the relations replay, the tables take every row it would write, the ledger is verifiable and every
  stored response settles (`ReplayRun.DryRunPredictsExactly`). When the live replay does commit, the dry
  run always agrees with it.
- A restored ledger can fail the verification that follows: an event that spells its transfer id in
  another way than the canonical one, or deposits that carry a transfer id
  (`Ledger.SpellingFailsVerification`; exactly: `Ledger.RestoredLedgerVerifiesExactly`).
- A second replay alters nothing exactly when the stake converts to the same cents again. A state that
  blanks the date of the bet and carries no unit makes it drift (`Replay.BlankedDateDrifts`;
  exactly: `Replay.SecondRunExactly`).
- A credential whose revocation the issuer confirmed stays queued when the transaction is then lost, so
  it is in two places at once (`RefreshRaces.AcknowledgedButQueued`; exactly:
  `RefreshRaces.BothPlacesExactly`). It is never in the live row and the queue at once, and never in none
  of the three (`RefreshRaces.ReachableStates`, `RefreshRaces.RevokedCustody`).
- A refresh credential that the issuer has granted can be lost without a trace: when verifying the
  identity is rejected (`RefreshRaces.RejectedGrantIsLost`), when the transaction around the request is
  lost or the answer is not usable (`RefreshRaces.LostGrants`), and when a login is not admitted or not
  committed (`RefreshRaces.LoginLosesGrant`). It is in a live row exactly when the answer was usable, the
  login was admitted or the renewal's verification was not rejected, and the transaction committed;
  otherwise it is nowhere (`RefreshRaces.GrantIsKeptExactly`).
- The closure of the collection contract reads a reference by its last segment. A reference into a schema
  is collected under the wrong name and dangles in the artifact
  (`ContractArtifact.NestedReferenceDangles`). A schema reference resolves exactly when its first token
  names a listed schema in which the other tokens lead somewhere (`ContractArtifact.ResolvesExactly`);
  those that consist of one plain name always do
  (`ContractArtifact.PlainReferencesResolve`).
- An approved plan without candidates still writes one journal row, from 0 to 0
  (`Progress.EmptyPlanCommits`). A committed chunk moves the offset exactly when candidates were left
  (`Progress.OwnWorkCommitsExactly`).

## Model

| member | source | states |
|---|---|---|
| Matching.WindowIsReach | src/bancaemdia/cli/reconciliar_casa_telegram.py:366-382 | the two bisections over the sorted opposite group select exactly the opposite sources of the same house inside the symmetric window, once each |
| Matching.SaturatedIsCrowded | src/bancaemdia/cli/reconciliar_casa_telegram.py:380-382 | a source counts as saturated exactly when its full neighbourhood exceeds the limit; otherwise truncation drops nothing |
| Matching.VetoIsExact | src/bancaemdia/cli/reconciliar_casa_telegram.py:383-387 | the veto, computed on truncated lists, holds exactly of the sources that are crowded or can reach a crowded one in the full graph: no hidden edge escapes it |
| Matching.DegreesDecideIsolation | src/bancaemdia/cli/reconciliar_casa_telegram.py:388-400 | for unvetoed ends, both degrees are at most one exactly when neither end has another edge in the full graph |
| PlanMeaning.ConsolidateIff | src/bancaemdia/cli/reconciliar_casa_telegram.py:338-434 | over all pairs of bets, the truncated search plans exactly the pairs in view that may be consolidated in the complete graph, told by the columns of bets and relations: no relation of any state between them, no active one on either, one tipster, a unique account, nothing hidden and no rival |
| PlanMeaning.WantedIsSafe | src/bancaemdia/cli/reconciliar_casa_telegram.py:338-449 | what every planned pair rests on, column by column, and that the candidate says the tip's own money |
| PlanMeaning.JudgementIsExact | src/bancaemdia/cli/reconciliar_casa_telegram.py:401-434 | classification, action and reason of every scanned pair, in the order of the reasons, with every condition read in the complete graph |
| PlanMeaning.ReviewIsExact | src/bancaemdia/cli/reconciliar_casa_telegram.py:406-432 | a compatible pair is reviewed exactly when it may not be consolidated, and is called competing exactly when something may be hidden or an end has a rival |
| PlanMeaning.PairsAreNear | src/bancaemdia/cli/reconciliar_casa_telegram.py:401-449 | every pair candidate is a pair of usable bets of one house within the window, shown by the filter and judged as it has to be |
| PlanMeaning.NearPairsAreListed | src/bancaemdia/cli/reconciliar_casa_telegram.py:388-449 | every such pair at a house bet with few bets near is reported |
| PlanMeaning.FaultyExactly | src/bancaemdia/cli/reconciliar_casa_telegram.py:467-490 | the error candidates are exactly the selected, unpaired, unlinked bets at fault, whatever the filter |
| PlanMeaning.ActiveRelationsExactly | src/bancaemdia/cli/reconciliar_casa_telegram.py:450-466 | a relation is reported exactly when it is active and its house bet is there and shown |
| PlanMeaning.TotalsMean | src/bancaemdia/cli/reconciliar_casa_telegram.py:498-499 | current totals are sums over the selected bets that no active relation withholds; projected ones leave out the planned tips as well |
| Plan.PlanIsMatching | src/bancaemdia/cli/reconciliar_casa_telegram.py:388-447 | no bet appears in two planned consolidations, on either side |
| Plan.FilteredReportHides | src/bancaemdia/cli/reconciliar_casa_telegram.py:128-136 | the pair candidates of a filtered report are those of the unfiltered one whose house is selected, same order, classification and action |
| Plan.AdjacentFiltersSplit | src/bancaemdia/cli/reconciliar_casa_telegram.py:128-136 | two date filters that meet split the wider one: every source that the wider filter shows is in view of exactly one of them |
| Plan.WantedIsExact | src/bancaemdia/cli/reconciliar_casa_telegram.py:407-417 | every candidate to consolidate is classified exact, so application never rejects the plan's own candidates |
| Plan.PrefixConservation | src/bancaemdia/cli/reconciliar_casa_telegram.py:514-520 | after any prefix of the plan, subtracting the removed contributions gives the totals recomputed over the bets still counted |
| Plan.PlanReachesProjection | src/bancaemdia/cli/reconciliar_casa_telegram.py:433-499 | at full length the expected totals are the projected totals, and no prefix changes any bet count |
| Money.ComputeTotals | src/bancaemdia/cli/reconciliar_casa_telegram.py:322-330 | the loop over sources computes the per-house ledger that the conservation laws are about |
| Money.SuppressOne | src/bancaemdia/cli/reconciliar_casa_telegram.py:310-330 | suppressing one counted bet removes exactly its contribution, from its own house, and touches no other house |
| Money.TotalsAreSums | src/bancaemdia/cli/reconciliar_casa_telegram.py:310-330 | what a row of totals means over the bets themselves; profit is return minus stake plus the stakes whose return is unknown |
| Money.BetCountsFixed | src/bancaemdia/cli/reconciliar_casa_telegram.py:322-330 | bet counts do not depend on what is suppressed |
| Reporting.CollectGroups | src/bancaemdia/cli/reconciliar_casa_telegram.py:366-371 | the grouping loop yields, for every house and side, the sources sorted by occurrence and id |
| Reporting.ScanNeighbors | src/bancaemdia/cli/reconciliar_casa_telegram.py:372-382 | the loop gives every searchable source its truncated window and collects exactly the saturated ids |
| Reporting.CollectVeto | src/bancaemdia/cli/reconciliar_casa_telegram.py:383-387 | the loop collects exactly the vetoed ids |
| Reporting.ScanEdges | src/bancaemdia/cli/reconciliar_casa_telegram.py:388-400 | the nested loops list all edges in order and count, for every id, its strong edges |
| Reporting.JudgeEdges | src/bancaemdia/cli/reconciliar_casa_telegram.py:401-449 | the loop builds the pair candidates in view and the tips they would take out |
| Reporting.BuildReport | src/bancaemdia/cli/reconciliar_casa_telegram.py:350-501 | the loops together compute the report of the plan theorems: candidates, current and projected totals; the candidates are sorted and none is lost or doubled by sorting |
| Applying.AttemptKeepsJournalSound | src/bancaemdia/cli/reconciliar_casa_telegram.py:651-731 | a committed transaction appends exactly one row that continues the offsets, pre mark, totals and actions of the rows before it |
| Applying.RunKeepsJournalSound | src/bancaemdia/cli/reconciliar_casa_telegram.py:651-731 | under any schedule of crashes, refusals, stops and foreign writes the journal stays a gapless record and only grows |
| Applying.AppliedExactlyOnce | src/bancaemdia/cli/reconciliar_casa_telegram.py:690-731 | every candidate before the offset lies in exactly one journal row |
| Applying.OtherBatchNeverApplies | src/bancaemdia/cli/reconciliar_casa_telegram.py:676-684 | a journal begun with another batch size is never continued |
| Applying.ApplyAllExactly | src/bancaemdia/cli/reconciliar_casa_telegram.py:559-625 | a stretch of candidates goes through exactly when every candidate that needs a decision gets one that lets it and only exact pairs are consolidated |
| Applying.RefusedExactly | src/bancaemdia/cli/reconciliar_casa_telegram.py:640-649 | an approved report is refused exactly for other arguments or for a bet at fault among its rows |
| Applying.ChunkOffsets | src/bancaemdia/cli/reconciliar_casa_telegram.py:697-730 | offsets are the multiples of the batch size, capped by the plan, so the number of rows is fixed in advance |
| Applying.CompletedIsFinal | src/bancaemdia/cli/reconciliar_casa_telegram.py:690-696 | once complete, no run writes anything to the journal, nor to the database unless someone else does |
| Applying.ForgedPlanNeverApplies | src/bancaemdia/cli/reconciliar_casa_telegram.py:670-675 | a plan that the evaluation of its own rows does not reproduce never commits a chunk |
| Applying.ApplyAllEffect | src/bancaemdia/cli/reconciliar_casa_telegram.py:559-625 | applying a stretch adds one active relation per wanted candidate, in order; no bet gains or loses money, and only the ends of wanted candidates change at all |
| Applying.JournalEffect | src/bancaemdia/cli/reconciliar_casa_telegram.py:697-731 | at every checkpoint the relations are the approved ones plus the wanted candidates before the offset, and no other bet has changed |
| Applying.CompleteRunEqualsOnePass | src/bancaemdia/cli/reconciliar_casa_telegram.py:650-741 | a completed job, however often interrupted, leaves the same relations and suppressed bets as one uninterrupted pass |
| Applying.CheckpointTotals | src/bancaemdia/cli/reconciliar_casa_telegram.py:685-708 | at every checkpoint the totals observed in the database are the totals the plan expects there |
| Applying.CompleteIsProjected | src/bancaemdia/cli/reconciliar_casa_telegram.py:498-499 | a completed journal ends at the projected totals of the report |
| Progress.OwnWorkCommitsExactly | src/bancaemdia/cli/reconciliar_casa_telegram.py:685-731 | with no foreign writer and an accepting service, the next chunk commits exactly when the bets that its events displace cancel out in every house; it then ends at the end of the batch, further exactly when candidates were left |
| Progress.CheckAfterExactly | src/bancaemdia/cli/reconciliar_casa_telegram.py:704-708 | the check before the chunk always passes on the job's own work, and the check after it passes exactly under that condition |
| Progress.UndisturbedAttemptsProgress | src/bancaemdia/cli/reconciliar_casa_telegram.py:651-741 | while every bet to consolidate has room for one event, each undisturbed attempt amid any failures commits one more row until the plan is complete |
| Progress.EnoughAttemptsComplete | src/bancaemdia/cli/reconciliar_casa_telegram.py:651-741 | under the same room, one undisturbed attempt per batch completes the plan, with every wanted pair active and the totals projected |
| Progress.RoomKeepsHouse | src/bancaemdia/cli/reconciliar_casa_telegram.py:240-287 | a bet with room for one event keeps its house through any stretch of the plan, because no bet is consolidated twice |
| Progress.EndsLandOnce | src/bancaemdia/cli/reconciliar_casa_telegram.py:240-305 | how a consolidated bet is read afterwards, column by column: one event more, account and tipster on the house side only, and no state if its history was full |
| Progress.JournalLands | src/bancaemdia/cli/reconciliar_casa_telegram.py:697-731 | at every checkpoint each end of an applied candidate is its approved row, consolidated once as its own journal row decided |
| Progress.LeaverBlocks | src/bancaemdia/cli/reconciliar_casa_telegram.py:263-287 | a bet displaced from a house to which the chunk displaces none blocks the chunk, whatever the service decides |
| Progress.FullHistoryStops | src/bancaemdia/cli/reconciliar_casa_telegram.py:263-287 | a concrete approved plan whose tip has MAX_HISTORY events never commits, whatever befalls the attempt |
| Progress.FullHistoryNeverApplies | src/bancaemdia/cli/reconciliar_casa_telegram.py:651-741 | nor does any number of retries |
| Progress.EmptyPlanCommits | src/bancaemdia/cli/reconciliar_casa_telegram.py:690-730 | an approved plan without candidates commits one row from 0 to 0, and is complete from then on |
| Applying.Database.ApplyReport | src/bancaemdia/cli/reconciliar_casa_telegram.py:628-741 | the command's loop: what it answers, that it stops only where a transaction stops, the process dies or `max_chunks` is reached, that other arguments or a bet at fault among the approved rows write nothing, and that nothing else is refused before the first transaction |
| Relations.RunKeepsSound | alembic/versions/c110fact2026_aposta_consolidacoes.py:123-158 | every run of statements keeps the check constraints, the ownership of both ends and the unique active sides |
| Relations.ClosedStaysClosed | alembic/versions/c110fact2026_aposta_consolidacoes.py:183-205 | an unlinked or rejected relation never changes again in any column |
| Relations.DecisionsArePreserved | alembic/versions/c110fact2026_aposta_consolidacoes.py:183-205 | no relation is lost, its immutable columns stay, and a relation only ever changes from active to unlinked |
| Relations.StatementsExactly | alembic/versions/c110fact2026_aposta_consolidacoes.py:131-205 | in sound tables, which inserts, updates and deletes go through, column by column |
| Relations.FinancialExactly | alembic/versions/c110fact2026_aposta_consolidacoes.py:33-36 | a bet is in the view exactly when no active relation has it as its tip |
| Relations.FinancialCount | alembic/versions/c110fact2026_aposta_consolidacoes.py:33-36 | the view has exactly as many rows as bets minus active relations |
| Relations.OneFactPerPair | alembic/versions/c110fact2026_aposta_consolidacoes.py:33-36 | that count holds after every run of accepted and rejected statements |
| Relations.SidedExactly | alembic/versions/c110fact2026_aposta_consolidacoes.py:183-205 | a statement keeps active relations casa-to-Telegram exactly when it does not rewrite the origin of a linked bet to the wrong side |
| Relations.RunKeepsMatching | alembic/versions/c110fact2026_aposta_consolidacoes.py:151-205 | every run without such a rewrite ends with active relations that form a matching |
| Relations.OriginRewriteBreaksMatching | alembic/versions/c110fact2026_aposta_consolidacoes.py:183-205 | a concrete run with such a rewrite ends with one bet on both sides |
| Relations.ReportCountsTheView | src/bancaemdia/cli/reconciliar_casa_telegram.py:322-360 | for every house, the fact count of the report is the number of its selected bets in the financial view |
| Relations.ConsolidationTables.Insert | alembic/versions/c110fact2026_aposta_consolidacoes.py:131-205 | an insert is accepted exactly when its columns meet every trigger, key, check and index, and otherwise changes nothing |
| Relations.ConsolidationTables.Unlink | alembic/versions/c110fact2026_aposta_consolidacoes.py:183-205 | unlinking an active relation gives back exactly one financial fact; any other relation is refused |
| Sessions.StepKeepsRows | src/bancaemdia/auth/identity_service.py:95-506 | every transaction keeps the cookie index, retired cookies apart from current ones, generations equal to retired cookies, and each credential in its place |
| Sessions.RenewalRetires | src/bancaemdia/auth/identity_service.py:389-415 | a cookie is retired by its own rotation and by nothing else |
| Sessions.RevokeMoves | src/bancaemdia/auth/identity_service.py:421-446 | revocation moves each live credential from its row to the queue and leaves every other session as it was |
| RefreshRaces.ReachableStates | src/bancaemdia/auth/identity_service.py:389-446 | in every reachable state: generation equals the number of retired cookies, the current cookie is none of them, the sealed generation is current, a live session's credential is not queued, and a revoked row is emptied |
| RefreshRaces.AtMostOneWinner | src/bancaemdia/auth/identity_service.py:318-419 | in every interleaving of refresh calls on one cookie at most one returns a new cookie |
| RefreshRaces.LateFinishRevokes | src/bancaemdia/auth/identity_service.py:318-352 | a call that finishes after its cookie was retired reports the reuse and leaves the session revoked |
| RefreshRaces.LateCallRevokes | src/bancaemdia/auth/identity_service.py:318-352 | however the rest is interleaved, a call still in progress when its cookie is retired can only end that way, and the session stays revoked |
| RefreshRaces.RunIsLater | src/bancaemdia/auth/identity_service.py:400-446 | over any run `expires_at` and the owner never change, `revoked_at` is never cleared and generations never go back |
| RefreshRaces.OnlyRotationExtends | src/bancaemdia/auth/identity_service.py:400-415 | over any run only a rotation moves cookie and limits, never beyond `expires_at` or the idle setting, so a session that is not refreshed in time is dead |
| RefreshRaces.GrantIsKeptExactly | src/bancaemdia/auth/identity_service.py:112-416 | a credential that the issuer newly grants, at login or renewal, is in a live row exactly when the answer is usable, not rejected (at login: admitted) and committed, also while its verification is deferred; otherwise it is in no row, no queue and not acknowledged |
| RefreshRaces.RejectedGrantIsLost | src/bancaemdia/auth/identity_service.py:356-391 | a concrete run after which a granted credential is in no row, no queue and not acknowledged |
| RefreshRaces.LostGrants | src/bancaemdia/auth/identity_service.py:342-416 | concrete runs that lose the grant without a rejection: a lost commit, and an answer that arrives unusable; the row keeps the credential it had |
| RefreshRaces.LoginLosesGrant | src/bancaemdia/auth/identity_service.py:112-158 | a login whose identity is not verified, or whose commit is lost, leaves the tables as if the issuer had granted nothing |
| RefreshRaces.DeadStaysDead | src/bancaemdia/auth/identity_service.py:248-253 | a session that is revoked, expired or idle too long is never accepted again |
| RefreshRaces.OldBearerNeverAccepted | src/bancaemdia/auth/identity_service.py:272-302 | a bearer of an earlier generation, or of a session that is not current, is never accepted again |
| RefreshRaces.RevocationQueuesTheCredential | src/bancaemdia/auth/identity_service.py:434-445 | the step that revokes a session queues exactly the credential its row held |
| RefreshRaces.QueueLeftOnlyByAcknowledgement | src/bancaemdia/auth/identity_service.py:481-506 | a queued credential leaves the queue exactly in a committed drain that the issuer acknowledged |
| RefreshRaces.NeverDropped | src/bancaemdia/auth/identity_service.py:481-506 | no run drops a queued credential before the issuer acknowledged it |
| RefreshRaces.CustodyChain | src/bancaemdia/auth/identity_service.py:421-506 | from the revoking step on, through every run, the credential of the row is queued and can be opened, or acknowledged |
| RefreshRaces.RevokedCustody | src/bancaemdia/auth/identity_service.py:421-506 | over every run: each revoked session was revoked by some step whose row held a credential, and in every later state that credential is queued or acknowledged |
| RefreshRaces.BothPlacesExactly | src/bancaemdia/auth/identity_service.py:481-506 | a queued credential becomes acknowledged while still queued exactly by an acknowledging drain of a row with the same credential other than a committed one of its own row |
| RefreshRaces.AcknowledgedButQueued | src/bancaemdia/auth/identity_service.py:481-506 | a concrete run that ends with a credential both acknowledged and queued |
| SessionLimits.CookieExactly | src/bancaemdia/auth/identity_service.py:229-256 | a cookie finds a session exactly when it is the current cookie of a row that is not revoked, inside both limits and of an active owner |
| SessionLimits.BearerExactly | src/bancaemdia/auth/identity_service.py:272-302 | a bearer is accepted exactly when its row is good, of its generation and of its user |
| SessionLimits.RenewalExactly | src/bancaemdia/auth/identity_service.py:353-419 | every ending of a committed renewal on a good cookie, with the row it leaves: on success the new cookie, one generation more, idle limit `min(expires_at, now + idle)` and access limit `now + access` |
| SessionLimits.RenewalIsUsable | src/bancaemdia/auth/identity_service.py:389-415 | a successful renewal hands out a cookie and a bearer that are accepted at once |
| SessionLimits.OtherRenewals | src/bancaemdia/auth/identity_service.py:229-256 | a renewal on any other cookie, or one that is not committed, leaves every row alone, and says whether the owner is inactive or no session stands |
| SessionLimits.LookupsExactly | src/bancaemdia/auth/identity_service.py:318-352 | what the retired-cookie lookups and the plain lookup of a call conclude |
| SessionLimits.LoginExactly | src/bancaemdia/auth/identity_service.py:112-158 | the row of an admitted login, limit by limit, at any clock; recovery ends exactly the identity's other sessions; a login that is not admitted changes nothing |
| SessionLimits.LoginIsUsable | src/bancaemdia/auth/identity_service.py:112-158 | an admitted login is accepted at once |
| SessionLimits.LogoutExactly | src/bancaemdia/auth/identity_service.py:448-464 | which sessions are revoked by a logout: the cookie's own, or with `everywhere` all of its identity, and no other |
| SessionLimits.ReuseExactly | src/bancaemdia/auth/identity_service.py:318-352 | a retired cookie ends the one session it belonged to; expiry ends only sessions past a limit |
| SessionLimits.AcceptedUntil | src/bancaemdia/auth/identity_service.py:229-302 | over every run a good cookie and its bearer stay accepted exactly until a renewal, a revocation, a limit of the row, or an inactive owner |
| IdentityStore.Store.Revoke | src/bancaemdia/auth/identity_service.py:421-446 | mark, queue unless queued, empty the row: the revocation of that session and nothing else |
| IdentityStore.Store.RevokeEach | src/bancaemdia/auth/identity_service.py:463-464 | revoking one session after another is revoking the set, in whatever order |
| IdentityStore.Store.Logout | src/bancaemdia/auth/identity_service.py:448-464 | only a valid cookie logs out; its own session is revoked, or with `everywhere` those of its identity, and every other stays |
| IdentityStore.Store.Renew | src/bancaemdia/auth/identity_service.py:353-419 | the committing half of a renewal settles as the race theorems say: rotate, keep a granted response sealed, or revoke; after a rotation the row has the fresh cookie and limits, and no other row moved |
| IdentityStore.Store.DrainRevocations | src/bancaemdia/auth/identity_service.py:481-506 | it tries the first 50 rows due, in order; the rows that leave are those the issuer answered for, and only if the transaction commits; the acknowledgements survive a rollback; rows that failed wait and hold up no other; the whole transaction is a run of single drains |
| IdentityStore.DrainIsRun | src/bancaemdia/auth/identity_service.py:490-506 | a drain over several rows equals the run of its single drains, so the custody theorems hold of it |
| Paging.PageIsNextStretch | src/bancaemdia/cli/replay.py:145-155 | the page above the cursor is the next stretch of keys, whatever the page size: nothing is skipped or seen twice |
| Replay.SecondRunExactly | src/bancaemdia/cli/replay.py:158-204 | after a row was altered, a second run leaves it alone exactly when it is not selected or its stake converts to the same cents |
| Replay.CarriedUnitIsSteady | src/bancaemdia/cli/replay.py:161-169 | a state that carries its unit, or does not blank the date, meets that condition |
| Replay.BlankedDateDrifts | src/bancaemdia/cli/replay.py:162-167 | a concrete history on which the second run alters the row again |
| Replay.DiffersExactly | src/bancaemdia/cli/replay.py:587-602 | the difference check reports a change exactly when writing the values would change the row |
| ReplayMeaning.TreatRaisesExactly | src/bancaemdia/cli/replay.py:520-586 | when a key stops the replay and when the interval passes it over |
| ReplayMeaning.RowsExactly | src/bancaemdia/cli/replay.py:158-204 | what a live replay leaves of each row, column by column: origin, account, dates, unit, stake and face by the history, silent columns from the row; a missing row is rebuilt from its snapshot, and any other stays |
| ReplayMeaning.HistoryExactly | src/bancaemdia/cli/replay.py:491-518 | the history of a key is all of its events, in order of id |
| ReplayMeaning.CountersExactly | src/bancaemdia/cli/replay.py:519-602 | the counters of a live replay are the events seen, keys taken, rows changed and rows created |
| ReplayMeaning.FoldKeepsTable | src/bancaemdia/cli/replay.py:586-602 | a live replay that succeeds keeps the checks and the unique message of the bet table |
| Replay.SilentColumnsStay | src/bancaemdia/cli/replay.py:161-202 | what a history does not say stays: without a unit snapshot the money of the row is kept to the cent, absent columns keep their values, and a freebet stakes nothing |
| Replay.FoldIsPointwise | src/bancaemdia/cli/replay.py:519-602 | every row ends as its own history makes of the row it started as; keys without events keep theirs |
| Replay.DryFoldPredictsExactly | src/bancaemdia/cli/replay.py:519-602 | the live fold succeeds exactly when the dry one does and the bet table takes every intended write, each beside the rows written before it; the counters then agree |
| Replay.NulledMessageFoolsDryRun | src/bancaemdia/cli/replay.py:586-602 | a concrete correction that passes the dry run and violates a check of the bet table live |
| Replay.RowsKeepIdentity | src/bancaemdia/cli/replay.py:593-602 | a live run keeps the id, creation and update timestamps of every existing row |
| Replay.SecondRunIsQuiet | src/bancaemdia/cli/replay.py:586-602 | a second full run alters and recreates nothing when every stake is steady |
| Ledger.VerifiedConserves | src/bancaemdia/cli/replay.py:287-372 | in a verified ledger `movimentos_sem_evento` is the number of legacy rows, and all the money is the non-transfer lines plus those rows |
| Ledger.VerifiedIsBijection | src/bancaemdia/cli/replay.py:310-372 | every line has exactly one row, no two lines share a row, and every other row is legacy |
| LedgerMeaning.VerifyExactly | src/bancaemdia/cli/replay.py:287-372 | verification accepts exactly the ledgers in which every line has one row with its kind, value, account, instant and transfer, transfers are two lines that cancel, and no movement is named twice |
| LedgerMeaning.ConfirmExactly | src/bancaemdia/cli/replay.py:287-436 | the whole verification: that, and every stored response true of its movement column by column |
| LedgerMeaning.RestoredRowsExactly | src/bancaemdia/cli/replay.py:243-282 | each row that a live restore appends has exactly the columns of a line and its event, of a movement that had none |
| LedgerMeaning.EveryLineHasRow | src/bancaemdia/cli/replay.py:243-282 | after a live restore every line has exactly one row, at the instant of its event |
| LedgerMeaning.DryExactly | src/bancaemdia/cli/replay.py:207-284 | a dry restore goes through exactly when every event is complete and every line has its one row or can be restored, and it adds no row |
| Ledger.RestoreAppends | src/bancaemdia/cli/replay.py:243-282 | restoring only appends rows, as many as it counts, each named by a line; dry it appends none |
| Ledger.RestoredLedgerVerifiesExactly | src/bancaemdia/cli/replay.py:243-372 | when a live restore succeeds, the verification accepts its rows exactly under a condition on the rows and events it was given: distinct ids, well-formed events, and every line settled |
| Ledger.SpellingFailsVerification | src/bancaemdia/cli/replay.py:336-342 | concrete events that restore and then fail their own verification |
| Ledger.LedgerDryPredictsLive | src/bancaemdia/cli/replay.py:207-284 | whenever a live restore and its verification commit, the dry restore succeeds with the same count |
| Ledger.DryPredictsExactly | src/bancaemdia/cli/replay.py:243-282 | a successful dry restore predicts the live count exactly when the table takes every missing row and no two lines name the same missing movement; it never predicts too few |
| Ledger.ZeroValueFoolsDryRun | src/bancaemdia/models/movimento.py:20 | a concrete line of zero cents that the dry run counts and no live run inserts |
| Ledger.LedgerDryPredictsExactly | src/bancaemdia/cli/replay.py:207-436 | after a successful dry restore, the live restore and its whole verification go through exactly when the table takes every missing row, the ledger is verifiable and every stored response settles |
| Ledger.RestoredLedgerConfirmsExactly | src/bancaemdia/cli/replay.py:374-436 | when a live restore succeeds, the whole verification accepts exactly if the ledger is verifiable and each line of each stored response names a movement that an event names and that agrees with it after the restore, said of the given rows and events |
| Ledger.StaleResponseFoolsDryRun | src/bancaemdia/cli/replay.py:374-436 | a concrete response that differs from its event: the dry restore counts 1, the live one cannot be verified |
| Ledger.RepeatedIdFoolsDryRun | src/bancaemdia/cli/replay.py:359-371 | a concrete event that the dry run accepts and no live run can commit |
| Ledger.RestoreIsIdempotent | src/bancaemdia/cli/replay.py:255-258 | on a verified ledger a second restore finds every movement and adds none |
| ReplayRun.KeysAreThose | src/bancaemdia/cli/replay.py:145-155 | the keys visited are exactly the nonempty ones that have events |
| ReplayRun.CommitsOnlyComplete | src/bancaemdia/cli/replay.py:466-645 | a replay that ends normally left no bet event without a key and no row without events, and touched nothing but rows and movements |
| ReplayRun.DryRunPredictsLive | src/bancaemdia/cli/replay.py:459-648 | whenever a live replay commits, a dry run on the same state succeeds with the same counters and changes nothing |
| ReplayRun.DryRunPredictsExactly | src/bancaemdia/cli/replay.py:459-648 | a dry run that succeeds predicts a live commit exactly when the relations replay, the tables take every row it would write, the ledger is verifiable and every stored response settles |
| ReplayRun.StaleResponseStopsReplay | src/bancaemdia/cli/replay.py:643-645 | a concrete replay that succeeds dry with one movement restored and that a stale response stops live |
| ReplayRun.CommittedLedgerConserves | src/bancaemdia/cli/replay.py:643-645 | the ledger a live replay leaves is verified, keeps every earlier movement and conserves the money |
| ReplayRun.SecondReplayIsQuiet | src/bancaemdia/cli/replay.py:586-645 | a second live replay alters, recreates and restores nothing and reports the same ledger |
| ReplayRun.Replayer.ReconcilePage | src/bancaemdia/cli/replay.py:491-602 | one page, with rows read before the page, reconciles as if each key were read when its turn comes |
| ReplayRun.Replayer.ReconcileBets | src/bancaemdia/cli/replay.py:485-623 | for every chunk size the paging loop yields the rows and counters of one pass over all keys |
| ReplayRun.Replayer.RestoreLedger | src/bancaemdia/cli/replay.py:207-284 | the paged loop restores what one pass over all lines restores, and a failure keeps nothing |
| ReplayRun.Replayer.VerifyLedger | src/bancaemdia/cli/replay.py:287-436 | the two paged loops, over events and over stored responses, accept exactly the ledgers in which every event and every response holds and no id repeats |
| ReplayRun.Replayer.Rebuild | src/bancaemdia/cli/replay.py:439-648 | the whole transaction: all of its effects or none, dry or live, independent of the chunk size |
| Dashboard.GroupingConserves | alembic/versions/d3f6a8c1e209_008_painel_materialized_views.py:42-62 | whatever a view groups by, if it keeps users apart, the rows of a user add up to the user's ungrouped total |
| Dashboard.MarginalsAgree | alembic/versions/d3f6a8c1e209_008_painel_materialized_views.py:117-360 | every additive column agrees between the summary and the views by house, tipster, market, period and evolution |
| Dashboard.SummaryMeans | alembic/versions/d3f6a8c1e209_008_painel_materialized_views.py:65-125 | each column of the summary is the sum, over the shown bets, of what a bet is worth to it state by state |
| Dashboard.OneBetMore | alembic/versions/d3f6a8c1e209_008_painel_materialized_views.py:65-125 | one bet more adds its worth to its own user's columns; a pending or voided one only to the number of bets and, if pending, to the pending ones |
| Dashboard.NarrowViewsMean | alembic/versions/d3f6a8c1e209_008_painel_materialized_views.py:225-264 | each row of the views by house, tipster and market sums the bets of that house, tipster or market |
| Dashboard.PeriodViewMeans | alembic/versions/d3f6a8c1e209_008_painel_materialized_views.py:265-291 | each row of the view by period sums the bets of its period, house, tipster and market |
| Dashboard.EvolutionViewMeans | alembic/versions/d3f6a8c1e209_008_painel_materialized_views.py:292-360 | each row of the evolution view sums the bets of its day and ids, whatever bank rows stand beside them |
| Dashboard.BanksAddNothing | alembic/versions/d3f6a8c1e209_008_painel_materialized_views.py:225-360 | the bank rows of the evolution view change no total |
| Dashboard.ProfitIdentity | alembic/versions/d3f6a8c1e209_008_painel_materialized_views.py:80-103 | total profit is total return minus turnover plus the turnover of settled bets with unknown return |
| FinancialDashboard.ActivationTakesTheTip | alembic/versions/c110fact2026_aposta_consolidacoes.py:33-57 | activating a relation takes exactly the tip's own contribution out of every summary column of its user, and changes nobody else's |
| FinancialDashboard.TipsterRowMeans | alembic/versions/c110fact2026_aposta_consolidacoes.py:39-57 | a tipster's row sums exactly the facts credited to it: a consolidated pair once, under its relation's tipster where the casa bet names none |
| FinancialDashboard.UnlinkGivesBack | alembic/versions/c110fact2026_aposta_consolidacoes.py:33-57 | unlinking gives exactly the same contribution back |
| ContractClosure.ClosureIsLeast | src/bancaemdia/api/collection_contract.py:46-63 | the walk ends on cyclic schemas, collects the least closed set that covers the paths, and fails exactly when there is none |
| ContractClosure.Collector.References | src/bancaemdia/api/collection_contract.py:49-61 | the recursion that grows `needed` in place collects what the walk collects, and terminates |
| ContractClosure.CollectSchemas | src/bancaemdia/api/collection_contract.py:31-74 | the loop copies exactly the schemas of the least closed set, each with the API's own definition: the last segment of every schema reference among them is defined, and no other schema is included |
| ContractArtifact.ResolvesExactly | src/bancaemdia/api/collection_contract.py:54-74 | which schema references resolve in the artifact: exactly those whose first unescaped token names a listed schema in which the remaining tokens lead somewhere, whatever the last segment is |
| ContractArtifact.SingleNameExactly | src/bancaemdia/api/collection_contract.py:54-74 | a reference by a single name resolves exactly when the unescaped name is listed; for a name free of `/` and `~` that is the name itself |
| ContractArtifact.PlainReferencesResolve | src/bancaemdia/api/collection_contract.py:46-74 | every object at any depth of the paths or the schemas whose reference is the prefix and a plain name resolves in the artifact to that schema's definition |
| ContractArtifact.ArtifactValidates | src/bancaemdia/api/collection_contract.py:46-74 | if paths and schemas are objects that refer locally by plain names only, and the security schemes pass, the whole artifact passes the check that the repository makes of a baseline's references |
| ContractArtifact.NestedReferenceDangles | src/bancaemdia/api/collection_contract.py:54-58 | a concrete reference into a schema: the walk collects another name for it, and the reference resolves to nothing |
| ContractArtifact.SortedIsUnique | src/bancaemdia/api/collection_contract.py:69 | sorted by name, a set of schemas has one listing only, so the document does not depend on the order of collection |
| ContractArtifact.BuildArtifact | src/bancaemdia/api/collection_contract.py:31-74 | the document is built exactly when a closed set exists; it lists the least one, sorted, each schema with the API's own definition |
| Deploy.Platform.Rollout | scripts/deploy_ecs.py:105-123 | it updates in the given order, waits and looks, succeeds only if all four services are found on the requested revisions, and fails only if a call failed or the platform moved a service |
| Deploy.ScriptsAreSafe | scripts/deploy_ecs.py:329-410 | in every script each weight is a split of 100, services turn only to the requested revisions, with all traffic on the canary in a release and none in a rollback |
| Deploy.Platform.SetWeights | scripts/deploy_ecs.py:126-143 | weights change only to a split of 100, and a weight outside 0..100 changes nothing |
| Deploy.Platform.RollbackTo | scripts/deploy_ecs.py:291-296 | a completed rollback restores all prior revisions and 100/0; it sends the traffic back before it turns the services and wants no canary last; it fails only on trouble of its own |
| Deploy.Platform.Run | scripts/deploy_ecs.py:329-410 | every run that succeeds or completes its rollback leaves all four services on one side, with 100/0 and no canary wanted in production modes; a run does its script call by call, with its canary tasks, weights, watches, updates and checks in order, or a beginning of it and then the rollback's script; nothing fails without a cause |
| ConflictRepair.DropConflicts | scripts/prepare_openapi_baseline.py:139-170 | the loop over lines computes the repair that the round trips are about |
| ConflictRepair.DropUndoesInsertion | scripts/prepare_openapi_baseline.py:139-170 | inserting two blocks around any disjoint segments and repairing gives the lines back |
| ConflictRepair.DropAcceptsOnlyInsertions | scripts/prepare_openapi_baseline.py:139-170 | every accepted input is its output with exactly two such blocks inserted |
| ConflictRepair.RepairRoundTrip | scripts/prepare_openapi_baseline.py:139-170 | the same on whole texts, through splitting and joining at newlines |
| ConflictRepair.RepairAcceptsOnlyInsertions | scripts/prepare_openapi_baseline.py:139-170 | and on whole texts every accepted input is its output with exactly two such blocks inserted |
| Text.SplitOfJoin | scripts/prepare_openapi_baseline.py:140-170 | splitting undoes joining for every nonempty list of parts free of the separator |
| Text.JoinOfSplit | scripts/prepare_openapi_baseline.py:140-170 | joining undoes splitting for every text |
| Pointers.UnescapeOfEscape | scripts/prepare_openapi_baseline.py:231-232 | the two replacements, in this order, undo the escaping of section 4 of RFC 6901 for every name |
| Pointers.OrderMatters | scripts/prepare_openapi_baseline.py:231-232 | in the other order they do not |
| Pointers.PointerRoundTrip | scripts/prepare_openapi_baseline.py:227-234 | a pointer written for a place in the document resolves to what is at that place, or fails where nothing is |
| Pointers.VisitFindsEveryReference | scripts/prepare_openapi_baseline.py:224-241 | the check passes exactly when no object at any depth holds a dangling local reference |

## Left out

- Dashboard.MarginalsAgree: the three granularities of the period view are one parameter, so they are compared one at a time, and ratios, balances and name columns are not modelled.
- ReplayRun.DryRunPredictsLive: assumes that replaying the relations raises on a dry run only when it would also raise live, because `services/consolidacao_replay` is an opaque answer here.
- ReplayRun.SecondReplayIsQuiet: covers users whose every key has a row with a steady stake; the exact condition is per row, in `Replay.SecondRunExactly`.
- Deploy.Platform.Run: says nothing about listener weights after a successful staging deployment, because the script does not touch them.
- RefreshRaces.ReachableStates: does not say that an acknowledged credential has left the queue, because a transaction lost after the issuer's answer leaves it queued.
- IdentityStore.Store.DrainRevocations: the count of attempts is not modelled, because nothing reads it; every due row can be locked, so rows that another worker holds are not skipped.
- Progress.EnoughAttemptsComplete: assumes room for one event in the history of every bet to consolidate, because without it the property is false; the exact condition is in `Progress.OwnWorkCommitsExactly`.
- Database mechanics: SQL text, isolation levels, row-level security, advisory and table locks. A transaction is one step and a lock is where the state is read again.
- Digests are taken as collision free and random cookies as fresh; sealing opens only under its own label.
- The matching engine, account attribution, projection fold, units, rounding of a stake and the consolidation service are parameters. The service either refuses or adds one active relation, appends one event to both histories and sets account and tipster of the casa bet.
- Reading sources, normalization, parsing of dates and canonical house names: sources and filters arrive parsed.
- The seal and hash of the report, its CSV view, review rows, index snapshots and the digest chain between journal rows.
- Progress logs and replaying all users.
- Bet keys equal to the empty string: the paging cursor starts there, so a replay never visits them.
- Table constraints beyond those written out (nonzero movement, free movement key, stake, freebet, message of a Telegram bet, unique message) are one answer, `storable`.
- Columns outside the derived ones, and JSON values that Python treats as integers although they are booleans.
- Login begin, provisioning, cookie authentication, status, CSRF and audit rows.
- The origin added by a later migration, and the columns that analytics appends to the metrics view.
- Path selection and serialization of the contract, and the digest-gated repairs of the baseline.
- Health, smoke, metric and integrity checks and task registration are calls that work or fail.
- Cleaning up revoked sessions, refresh of the materialized views, and every script that only reads test results.
