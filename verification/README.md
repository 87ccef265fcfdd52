# A verified model of the staged rollout controller

The controller rolls applications out stage by stage. Almost all of its difficulty lies in state that one reconcile
leaves in a status object for the next one to find: approval stamps, soak deadlines, migration and action ledgers,
handled tokens, frozen budgets. This project models those parts in Dafny and proves what every run of reconciles keeps.

Each module follows one part of the controller. What the controller changes step by step is a method, on a class when
it lives in an object, proved against a function or predicate that says what it computes; the properties of whole runs
are lemmas about those functions. Calls into the cluster, a metric source or an artifact store become arguments, so
every theorem holds for whatever they answer.

| module | what it models |
|---|---|
| `Fleet` | one FleetRollout pass: settle status, soak, gates, halting, and the patches it sends |
| `FleetDecisions` | what that pass decides, read off the members, the stored status and the verdicts |
| `FleetProtocol` | that pass taken apart into steps and interleaved with the passes of all its member StageSets |
| `FleetRegression` | two runs of that protocol: the documented regression and rollback, and a regression that is forgotten |
| `Migrations` | selecting, ordering and anchoring version migrations, and the string-keyed ledgers |
| `MigrationRuns` | failing and retried passes over a pending version transition, until one advances the version |
| `LostStatus` | the same when a pass's status write is lost: exactly when an action can take effect twice |
| `LadderNames` | exactly which migration names keep the ledgers of a ladder apart |
| `MigrationOrder` | the order in which a pass runs its migrations, and what a downgrade runs and forgets |
| `LifetimeLedger` | the completions that outlive a StageSet, their witnesses and the baseline |
| `ActionLedgers` | the Revision, Version and Lifetime ledgers through any run of passes, and the preview that predicts them |
| `ActionRuns` | when an action runs and in which order, read off the stored ledgers, the completions and the pass |
| `Promotion` | the promotion gate: soak, fast track, analysis, restart and event checks, manual gate, promote token |
| `PromoteTokens` | promote tokens across whole passes and through the merge of stage statuses |
| `TokenCache` | the epoch-guarded token cache under any interleaving, and the tenant connections built on it |
| `DependencyCycle` | the breadth-first walk over dependsOn |
| `InetAton` | the loose IPv4 forms of section 3.1.1 of RFC 6943 |
| `Artifact` | the capped stream, the entry names and the extraction loop of an artifact |
| `ErrorBudget` | the freeze with hysteresis, fed with its own recorded state |
| `Conflict` | conflict rules, stamps, and the force token across a history of applies |

`Wrappers` and `Strings` hold an option type and the string operations the keys rest on.

Time is an integer, versions are a total order, tokens and object names are opaque strings, and a
migration's content digest is any twelve hexadecimal digits.

## What turned out not to hold

The code is modelled as it is. Where a promise is stronger than the code, a lemma gives the input that shows it, and
another says when the promise does hold; where that condition is exact, the text says so.

- The migration ledgers are kept to run destructive actions exactly once
  (internal/controller/stageset_controller.go:1202-1206), but they reach the API server only with the pass's status
  write. A prune that fails behind the stage loop returns without one (1349-1371), and so does a pass whose patch
  fails or whose controller dies; the next pass runs the actions again. `FailedPruneRunsTwice` is such a run. On a
  ladder whose names keep apart, at most once and in list order holds however a run continues if and only if no action
  ran in a lost pass since the ledgers were last cleared: `OnceIffNothingLost`. The same goes for a stage's Revision
  and Version actions: `RunsAgainIffLost`, which also shows that a failure before the stage loop, which stamps empty
  ledgers on the first stage (518, 580), makes its actions run again.
- A stored success clears those ledgers even when the version has not moved (1386-1396). An upgrade that fails
  half-way, is given up for one pass at the old version, and is tried again runs everything over with nothing lost:
  `RevertRepeats`, and `RevertRunsTwice` for one action.
- The ledgers find a migration's entries by the part of a key before its first '@', and an action's by the part of an
  entry before its first '/'. The comment there takes names to be free of '@' (internal/controller/migrations.go:533),
  but validation asks for non-empty, unique names and nothing more (internal/migrations/migrations.go:92-125), inline
  or sourced. On the ladder `a@x`, `a`, completing `a` drops what the ledger knows of `a@x`, and a retry at the same
  version runs its destructive action again with every status stored: `CompletionRepeatsAnother`. A set of names is
  safe, for every ladder that uses them and every run of stored passes, if and only if none is another's part before
  the first '@' or '/', and none is followed in another by an '@', twelve hexadecimal digits and a '/':
  `OnceIffNamesApart`. `PrunesExactly` and `PrunesKeyExactly` say which entries a completion drops, `EntriesMeetIff`
  when two entries are the same string.
- A fleet's automatic rollback (docs/content/gating/fleet-rollout.md:145-161) sets a rollback-to annotation on the
  members of the wave that regressed. Members under approvalMode Always hold that transition like any other, and with
  a pinned target no pass ever stamps an approval for it. `DirectedRollbackIsHeld` is the documented case, run to the
  held directive; `PinnedRollbackIsHeld` says that no run gets such a member back, and `DirectedRollbackProceedsIff`
  when the gate would let it through.
- A wave's soak restarts when a pass finds the wave unsettled, but only if that pass stores its status. When it does
  not, the wave passes at the end of the old soak: `LostHaltIsForgotten`. Stored passes always found it settled
  (`PassedWaveStayedSettled`), and all passes did unless one that found it unsettled lost its status
  (`PassedWaveAlwaysSettled`).
- A pass that meets an unreadable check after applying a new revision stores that revision beside the previous
  revision's promotion state, although the comment there says the soak clock stays untouched
  (internal/controller/stageset_controller.go:1018-1038). The new revision may then skip its soak
  (`InterruptSkipsSoak`) or run out the old one's (`InterruptShortensSoak`). `SoakHonouredIff` says exactly when: with
  no such state left behind before, every later promotion of the revision is earned, by a whole soak, a token or the
  fast track, if and only if the recorded state was the revision's own, or had neither a deadline nor a phase after
  the soak, or the gate has a manual step and the state was not Promoted. `InterruptSkipsSoakIff` adds which states
  let the very next evaluation through.
- A promote token is meant to act once, but the status of a stage that failed, or is merely slow to become ready,
  carries no handled token. With the annotation still in place the token fires again, at whatever revision comes next:
  `SlowRolloutRefires` is such a run. It does so exactly when a pass in between dropped the stage's record or the
  status of the pass it fired in was lost: `TokenRefiresIff`.
- The preview disagrees with the next pass in exactly two cases (`PreviewAgreesIff`), announcing a run that will not
  happen: a baseline entry no reconcile has promoted yet (`PreviewMissesBaseline`), and a completion retained for an
  action whose scope is no longer Lifetime, for instance by a StageSet recreated over its old StageLedger
  (`PreviewMissesRetained`).
- A completion whose witness is gone is forgotten so that its action runs again. If that run fails and the baseline
  still names the action, the next pass records it as completed and skips it: `RerunFailsThenSkipped`. Behind such a
  failure the action runs again if and only if the baseline does not name it: `FailedRerunRunsAgainIff`.
- The selector for objects to leave alone compares with the constant "true", unlike the one for objects to recreate,
  whose token is fresh. It also picks an object whose author wrote the annotation (`AuthorsKeepIsTaken`), and picks
  exactly the objects resolved to KeepExisting under the condition of `KeptIffResolved`.
- An outage of the metric source under onSourceError Hold keeps a rollout-wide freeze as recorded, but a stage's own
  freeze is forgotten and its hysteresis with it: `StageForgetsFreeze`.

## Model

| member | source | states |
|---|---|---|
| `Fleet.ComputeWaveStatus` | internal/controller/fleetrollout_controller.go:451-477 | the counts are the numbers of adopted and of healthy members, and the wave is settled exactly when every member is both |
| `Fleet.ComputeEntries` | internal/controller/fleetrollout_controller.go:190-210 | each wave's entry carries its soak deadline, or starts one the moment it first settles, and drops it when unsettled; gate health is carried |
| `Fleet.WalkWaves` | internal/controller/fleetrollout_controller.go:212-246 | reports a halt exactly when some wave regressed or fails its gate, and then the first such wave; otherwise the first wave not yet passed; gate health is updated exactly where a gate was asked |
| `Fleet.CollectApprovals` | internal/controller/fleetrollout_controller.go:248-260 | sends exactly the changing approvals of members of waves all of whose predecessors have passed |
| `Fleet.FleetRollout.CollectRollbacks` | internal/controller/fleetrollout_controller.go:319-349 | directs exactly the given members back whose directive would change |
| `Fleet.FleetRollout.Reconcile` | internal/controller/fleetrollout_controller.go:121-275 | one pass: an unusable spec and refused membership change nothing; a halt anywhere sends only rollbacks of the first halting wave and no approval at all; otherwise exactly the approvals of open waves; phase and current wave follow, and a failing patch leaves them as they were |
| `FleetDecisions.WaveDecidedIff` | internal/controller/fleetrollout_controller.go:212-246 | the walk takes a wave for passed exactly when all its members are at the target, ready, observed and hold nothing back, its soak is over and its gate, if any, answered Passing; it halts exactly when such a wave was lost or its gate answered Failing |
| `FleetDecisions.ApprovedIff` | internal/controller/fleetrollout_controller.go:248-260 | the approvals a pass plans, in those terms and in both directions |
| `FleetDecisions.DirectedIff` | internal/controller/fleetrollout_controller.go:319-349 | the rollbacks it plans, in both directions: for the members of the first wave that stops it |
| `FleetDecisions.ApprovalNeedsHealthyWaves` | internal/controller/fleetrollout_controller.go:212-260 | an approval says of every wave before the member's first one that its gate passes and that each of its members has the target version, or without a target awaits none, is ready, observed and holds no revision back |
| `FleetDecisions.UnknownGateHolds` | internal/controller/fleetrollout_controller.go:230-246 | behind a gate that cannot be read no member of later waves only is approved, and that wave halts the rollout only by an unsettled member |
| `FleetDecisions.PhaseIs` | internal/controller/fleetrollout_controller.go:248-275 | the phase stored is Halted exactly when some wave stops the pass and Completed exactly when all are cleared; in progress, the current wave is the first not cleared |
| `FleetDecisions.CountsAre` | internal/controller/fleetrollout_controller.go:451-477 | the stored counts are the sizes of the sets of members that are at the target, and that are ready, observed and hold nothing back |
| `FleetProtocol.ApprovalReleases` | internal/controller/fleetrollout_controller.go:212-260 | an approval is only ever sent by a pass in which no wave halted and every wave before the member's first one had passed |
| `FleetProtocol.AdvanceNeedsEarlierWaves` | internal/controller/stageset_controller.go:545-570 | in every interleaving of fleet and member passes, a member at a version it was neither deployed at nor approved for beforehand was released by an earlier fleet pass that found all waves before its first one settled, soaked, and gate-free or gate-passing |
| `FleetProtocol.PassedWaveStayedSettled` | internal/controller/fleetrollout_controller.go:190-246 | a wave counts as passed only if a pass at least its soak ago found it settled and so did every stored pass since |
| `FleetProtocol.PassedWaveAlwaysSettled` | internal/controller/fleetrollout_controller.go:190-275 | every pass since, stored or lost, found it settled, unless one that found it unsettled lost its status |
| `FleetRegression.LostHaltIsForgotten` | internal/controller/fleetrollout_controller.go:212-275 | a run of the protocol in which a wave with a soak of 60 passes although within it a pass found it unsettled; that pass lost its status |
| `FleetProtocol.PinnedRollbackIsHeld` | internal/controller/fleetrollout_controller.go:314-349 | with a pinned target and approvalMode Always, once a member has left previousVersion and its approval names another version, no later state of any run has it at, approved for, or on its way to previousVersion |
| `FleetRegression.DirectedRollbackIsHeld` | internal/controller/fleetrollout_controller.go:314-349 | a run of the protocol in which a member deployed at previousVersion reaches the target, its wave settles and regresses, the fleet directs it back, and its approval gate holds the directive |
| `FleetProtocol.DirectedRollbackProceedsIff` | internal/controller/migration_approval.go:33-68 | a directed rollback passes the approval gate exactly when the approval annotation already names its version |
| `FleetProtocol.GateHoldsIff` | internal/controller/migration_approval.go:33-68 | a member pass is held exactly when the version it wants is not the approved one and changes the deployed one under Always, or crosses migrations under OnMigrations; it wants a lower version a rollback-to annotation names, else what its source offers |
| `FleetProtocol.FinishedIsAt` | internal/controller/stageset_controller.go:1378-1396 | a completed member pass leaves the member at the version it rolled out, ready and observed; any other leaves the version |
| `Migrations.PendingIsStableSelection` | internal/migrations/migrations.go:192-279 | the pending list ascends by target for an upgrade and descends for a downgrade, and at every target version it is exactly the ladder's own sequence of crossed migrations |
| `Migrations.PendingIff` | internal/migrations/migrations.go:192-279 | a migration of the ladder is pending exactly when an upgrade crosses its target, in (current, desired], and all comparisons of one of its alternatives hold of the current version, or a downgrade does, in (desired, current] |
| `Migrations.AnchorStage` | internal/controller/migrations.go:96-114 | an anchor names a stage by role first, then by name; empty means the first stage; what it returns exists |
| `Migrations.AnchorPicks` | internal/controller/migrations.go:96-114 | an anchor picks the first stage that declares it as its role, without one the stage of that name, and none otherwise; the empty anchor picks the first stage |
| `Migrations.ResolveAnchors` | internal/controller/migrations.go:119-130 | fails closed exactly when some anchor resolves to no stage; otherwise each stage's bucket is its pending migrations in pending order |
| `Migrations.AnchorsPartition` | internal/controller/migrations.go:87-130 | with all anchors resolved and unique stage names, the stage loop visits each pending migration exactly as often as it is pending |
| `Migrations.ActionsDoneFor` | internal/controller/migrations.go:544-553 | reads back exactly the action names recorded under a key |
| `Migrations.EntriesMeetIff` | internal/controller/migrations.go:499-501 | whatever the names hold, two action entries are one string exactly when they agree in name, digest and what follows, or one name begins with the other's key and a '/' and the entries go on alike |
| `Migrations.LedgerRoundTrip` | internal/controller/migrations.go:544-622 | reading the flat ledger by key finds exactly the actions recorded for that content in that direction, and besides them only an up action whose name starts with "down/" read as a down action, or the other way round, or what a record whose name is nested in this one's entries, or nests it, reads as |
| `Migrations.DropSupersededLedger` | internal/controller/migrations.go:516-531 | the loop keeps, in order, exactly the entries that are not superseded |
| `Migrations.PrunesExactly` | internal/controller/migrations.go:508-540 | completing a migration drops another's action entry exactly when its own name holds no '@' and no '/', and the other is older content of the same name, or has a name that goes on behind this name with an '@' or a '/', though not with this one's own key and a '/' |
| `Migrations.PrunesKeyExactly` | internal/controller/migrations.go:508-540 | it drops another's key exactly when its own name holds no '@', and the other is older content of the same name or has a name that goes on behind this name with an '@' |
| `MigrationRuns.Exec` | internal/actions/actions.go:126-158 | retries only transient failures and within the budget; succeeds exactly when some attempt within it succeeds with nothing but transient failures before |
| `MigrationRuns.StageSetStatus.RunActions` | internal/actions/actions.go:107-123 | of the migration's actions, for a downgrade its reverse actions, runs exactly those not done, in order, recording each before the next, up to the first failure |
| `MigrationRuns.StageSetStatus.RunStageMigrations` | internal/controller/migrations.go:563-637 | a stage's migrations in order, skipping those executed, with the ledgers a failure leaves behind |
| `MigrationRuns.StageSetStatus.Reconcile` | internal/controller/stageset_controller.go:686-845 | one pass: unresolved anchors change nothing; a failure or hold before or after any stage's migrations keeps the version and stores partial ledgers; a loop without error records the desired version and clears the ledgers; a lost status write leaves version and ledgers as they were |
| `MigrationRuns.ClosedKeepsEntries` | internal/controller/migrations.go:508-531 | on a fixed validated ladder in which no name shadows another, completing a migration drops no key and no action entry of another one |
| `MigrationRuns.ActionsRunAtMostOnceInOrder` | internal/controller/migrations.go:563-599 | on a validated ladder in which no name shadows another (`OnceIffNamesApart`), over any run of passes, stored or lost, since the ledgers were last cleared: what stored passes ran is a prefix of each migration's actions, or of its reverse actions where its target is not above the recorded version, one the ledger calls executed ran all of it, nothing ran for a migration that no version asked for crosses, and while no action ran in a lost pass everything took effect at most once and in list order |
| `MigrationRuns.AdvanceCompletes` | internal/controller/stageset_controller.go:1386-1396 | on such a ladder, when a pass records a higher version every pending migration has run exactly its actions, and when it records a lower one exactly its reverse actions; and no other migration of the ladder has run any, provided no other version was asked for since the ledgers were last cleared |
| `LostStatus.OnceIffNothingLost` | internal/controller/stageset_controller.go:1307-1371 | on such a ladder, behind any run, at most once and in list order holds in every continuation by stored passes if and only if no action ran in a lost pass since the ledgers were last cleared |
| `LostStatus.FailedPruneRunsTwice` | internal/controller/stageset_controller.go:1349-1371 | a failed prune behind the stage loop makes the next pass run the migration's action a second time |
| `LostStatus.RevertRepeats` | internal/controller/stageset_controller.go:1386-1396 | a failed attempt at an upgrade, one stored success at the old version, and the same attempt again leave exactly what the attempt alone leaves: all it ran runs again |
| `LostStatus.RevertRunsTwice` | internal/controller/stageset_controller.go:1386-1396 | such a run of three stored passes in which a migration's one action takes effect in the first and in the third |
| `LadderNames.OnceIffNamesApart` | internal/controller/migrations.go:508-553 | for any set of non-empty names: every validated ladder that uses them runs each action at most once and in list order, on any stages and over every run of stored passes since the ledgers were last cleared, if and only if no name of the set is another's part before the first '@' or '/', nor followed in another by an '@', twelve hexadecimal digits and a '/' |
| `LadderNames.CompletionRepeatsAnother` | internal/controller/migrations.go:563-599 | a run of two stored passes at one version in which completing a migration makes the action of one whose name goes on with an '@' run a second time |
| `MigrationOrder.PassFollowsOrder` | internal/controller/migrations.go:563-637 | what a pass runs comes in blocks, one a migration, in the order of the stages and within a stage of the pending list |
| `MigrationOrder.ClosedForgets` | internal/controller/migrations.go:508-637 | completing a downgrade forgets no entry, completing an upgrade exactly the superseded ones |
| `MigrationOrder.DowngradeRunsDown` | internal/controller/migrations.go:602-637 | a downgrade of two passes, the first failing behind the migration, that runs the migration's reverse action and not its action |
| `Promotion.PromotedIff` | internal/controller/promotion.go:104-246 | a gated stage is promoted exactly when it already is at this revision, or a fresh token says so, or there is no crashloop, no event, no failing analysis outside a dry run, no running soak and no manual step |
| `Promotion.BlockedIff` | internal/controller/promotion.go:124-192 | otherwise it is blocked exactly by a crashloop, an event or an analysis over its limit, and rolled back as the first of these in that order says; a block keeps the running deadline and dates from its first evaluation |
| `Promotion.HeldAs` | internal/controller/promotion.go:194-246 | with none of those it is Soaking while its soak runs, then Analyzing under a failing analysis, then AwaitingManual under a manual step; failing evaluations count up in a dry run too, and any other starts the count over |
| `Promotion.BreachNeverPromotes` | internal/controller/promotion.go:124-151 | over any run from a state other than Promoted, a stage that every evaluation finds crashlooping or hit by an event is promoted by none, without a token |
| `Promotion.DeadlineKept` | internal/controller/promotion.go:341-346 | over any run of evaluations, unread checks and passes that do not reach the stage, a recorded soak deadline stands, through every hold and block, until a phase after the soak is recorded |
| `Promotion.PromotionIsEarned` | internal/controller/promotion.go:104-246 | over any run without reverts and with harmless interruptions, a promoted stage, since it last came to its revision with its record unbroken, had a fresh token or the fast track, or an evaluation at least a full soak after one that recorded Soaking |
| `Promotion.AnalysisBlockNeedsStreak` | internal/controller/promotion.go:153-192 | an evaluation blocks on its analysis only behind more than failureLimit failing evaluations in a row at its revision, never in a dry run |
| `Promotion.SoakHonouredIff` | internal/controller/stageset_controller.go:1018-1038 | behind any run whose interruptions were harmless, every later promotion at the interrupted revision, however the stage goes on at it, is earned if and only if this interruption found the revision's own state, or none, or one with neither a deadline nor a phase after the soak, or the gate is manual and the state not Promoted |
| `Promotion.InterruptSkipsSoakIff` | internal/controller/stageset_controller.go:1018-1038 | after an interruption at a new revision the next evaluation skips the soak, whatever other gates there are, exactly when the old state is past its soak or its deadline has gone by, and promotes when the soak is the only gate; without it the soak would have begun |
| `Promotion.InterruptSkipsSoak` | internal/controller/stageset_controller.go:1018-1038 | a concrete run promoted without a soak that way |
| `Promotion.InterruptShortensSoak` | internal/controller/stageset_controller.go:1018-1038 | a run in which a revision that began to soak 29 of 60 before is promoted at the old revision's deadline |
| `PromoteTokens.MergeStageStatuses` | internal/controller/stageset_controller.go:1825-1840 | the merged list answers, for every name, the entry made this pass, else the stored one, and nothing for a stage no longer in the spec; it is in spec order |
| `PromoteTokens.PassHandles` | internal/controller/stageset_controller.go:1135-1174 | through a whole stored pass and the merge, a stage's handled token moves only to a token that fires in it, and does when one fires; a dropped stage's is forgotten |
| `PromoteTokens.TokenFiresAtMostOnce` | internal/controller/promotion.go:119-125 | over any run of passes, a never-reused promote token advances its stage again only behind a pass that dropped the stage's record, or when the status of the pass it fired in was lost |
| `PromoteTokens.TokenRefiresIff` | internal/controller/stageset_controller.go:1709-1735 | with its annotation in place and the stage judged again at a revision not yet promoted, the token fires again by then exactly if some pass in between failed the stage or held it for progress, or the firing pass's status was lost |
| `PromoteTokens.SlowRolloutRefires` | internal/controller/stageset_controller.go:974-979 | a run in which a rollout slow to become ready makes the token of the previous revision promote the next one without a soak |
| `PromoteTokens.FiringPromotes` | internal/controller/promotion.go:118-125 | a token that fires promotes its stage at the judged revision, whatever else stands against it |
| `PromoteTokens.GoesOnIff` | internal/controller/stageset_controller.go:686-1135 | a stage goes on exactly when it is judged, not held back from an aborted revision, and its gate promotes it; an interruption changes only the recorded revision, a budget hold nothing |
| `PromoteTokens.ReachesIff` | internal/controller/stageset_controller.go:686-1135 | a pass reaches a stage exactly when every stage before it goes on |
| `PromoteTokens.RevertRecords` | internal/controller/stageset_controller.go:1094-1135 | a rollback that restores a revision records it beside a Blocked state that names the revision left; one that cannot records the failing revision and aborts nothing |
| `PromoteTokens.RevertedStays` | internal/controller/analysis.go:142-165 | through any sequence of passes at the aborted revision without a fresh token a reverted stage keeps its record and holds the rollout, while some gate may roll it back; a fresh token promotes it at once |
| `TokenCache.Cache.Lookup` | internal/controller/token.go:168-179 | hits only on a token with strictly more than the refresh margin left |
| `TokenCache.Cache.Write` | internal/controller/token.go:149-153 | the write is dropped when the key's epoch moved since it was captured |
| `TokenCache.Cache.Forget` | internal/controller/token.go:186-195 | evicts the key and advances its epoch |
| `TokenCache.Cache.Token` | internal/controller/token.go:113-164 | undisturbed, a call returns the cached token or the one it mints and caches; a failed mint changes nothing |
| `TokenCache.HitIsNeverEvicted` | internal/controller/token.go:113-195 | under any interleaving of Token and Forget calls, a hit returns what a mint for that very key returned, begun after the key's latest Forget, with more than the margin left |
| `TokenCache.MintIsKeptIff` | internal/controller/token.go:130-158 | a minted token enters the cache exactly when no Forget of its key came since the epoch was captured |
| `TokenCache.KeptTokenHits` | internal/controller/token.go:113-158 | a lookup right behind a kept mint finds its token exactly while more than the refresh margin is left |
| `TokenCache.OnlyItsKey` | internal/controller/token.go:113-195 | forgetting or writing one key leaves what is found under every other |
| `TokenCache.TenantKeysDistinct` | internal/controller/tenant.go:191-207 | distinct namespace and account pairs never share a credential key or a connection key |
| `TokenCache.Tenants.ResolveLocal` | internal/controller/tenant.go:309-346 | the client returned bears the token just obtained; a cached one is reused exactly when its token is that one |
| `TokenCache.Tenants.ForgetTenant` | internal/controller/tenant.go:199-207 | removes the tenant's connection and evicts its credential |
| `DependencyCycle.DependencyKeysAre` | internal/controller/stageset_controller.go:2366-2375 | a dependency without a namespace names a StageSet in the depending one's |
| `DependencyCycle.OwnNamespaceDecides` | internal/controller/stageset_controller.go:2335-2383 | two StageSets that name each other without a namespace form a cycle exactly when they share one |
| `DependencyCycle.HasDependencyCycle` | internal/controller/stageset_controller.go:2335-2383 | terminates on every graph and, unless it meets a StageSet it cannot read, reports a cycle exactly when a non-empty chain leads from the StageSet back to itself; missing StageSets are leaves |
| `InetAton.CNumberIff` | internal/artifact/guard.go:121-133 | a number parses to v exactly when it renders v in decimal, octal or hex and v fits 64 bits |
| `InetAton.CaseIsIgnored` | internal/artifact/guard.go:121-133 | numbers that differ only in letter case parse alike |
| `InetAton.HexZero` | internal/artifact/guard.go:121-133 | a further leading zero does not change a hexadecimal number |
| `InetAton.OctalZero` | internal/artifact/guard.go:121-133 | nor an octal one |
| `InetAton.ParseParts` | internal/artifact/guard.go:91-97 | succeeds exactly when every part is a number, and then holds their values in order |
| `InetAton.OrDisjoint` | internal/artifact/guard.go:99-115 | or-ing a part into the empty low bits adds it |
| `InetAton.Assemble` | internal/artifact/guard.go:99-115 | accepts exactly part values that fit, and yields the sum of the parts at their byte positions |
| `InetAton.ParseInetAtonIPv4` | internal/artifact/guard.go:80-119 | accepts exactly the hosts whose parts decode and returns the octets of their address, below 2^32 |
| `InetAton.EveryRenderingDecodes` | internal/artifact/guard.go:80-133 | every 32-bit address in one to four parts, each in any radix with leading zeros and either letter case, decodes to that address and nothing else |
| `InetAton.CanonicalRenderingDecodes` | internal/artifact/guard.go:80-133 | the canonical rendering of every address in every choice of radices is among those |
| `Artifact.CappedReader.Read` | internal/artifact/guard.go:172-197 | delivers the next bytes of the stream, never more than remain; spent, it tells the end of the stream from a further byte |
| `Artifact.CappedReader.ReadAll` | internal/artifact/guard.go:172-197 | with any read sizes, a stream within the cap arrives whole with its own end; a longer one is cut at the cap and ends in the cap error |
| `Artifact.AcceptedNamesAreSafe` | internal/artifact/fetcher.go:251-279 | an accepted entry name is a relative path of non-empty, non-hidden segments of safe bytes, whatever the raw name and prefix |
| `Artifact.SafeNamesAreAccepted` | internal/artifact/fetcher.go:251-279 | conversely a safe name is accepted unchanged, and below a safe prefix keeps exactly the part behind it |
| `Artifact.AcceptedIff` | internal/artifact/fetcher.go:251-279 | an entry is accepted under a name exactly when its raw name is relative, holds no NUL and no backslash, and cleans to a safe name that is the prefix, a slash and that name, or without a prefix that name |
| `Artifact.SafeNameIff` | internal/artifact/fetcher.go:251-290 | a name is safe exactly when it is made of letters, digits and ._-/ and neither it nor anything behind a slash is empty or begins with a dot or a slash |
| `Artifact.DotSegmentsVanish` | internal/artifact/fetcher.go:258 | cleaning drops "." and empty segments wherever they stand |
| `Artifact.ParentsCancel` | internal/artifact/fetcher.go:258 | cleaning cancels a segment and the ".." behind it |
| `Artifact.CheckEntry` | internal/artifact/fetcher.go:208-241 | passes an entry exactly when its name is new and its declared and actual size fit both bounds, and otherwise names the earliest failure |
| `Artifact.Extract` | internal/artifact/fetcher.go:165-245 | succeeds exactly when the archive is complete and every entry admissible; the files are then exactly the accepted entries, one per name, within both bounds; a failure is that of the first inadmissible entry, else of the archive's end |
| `Artifact.ExtractedNamesAreSafe` | internal/artifact/fetcher.go:165-279 | every extracted file of any archive has a safe name, is within the entry bound, and is the content of a regular entry whose name is accepted as that name |
| `ErrorBudget.BudgetStatus.GateErrorBudget` | internal/controller/errorbudget.go:140-206 | the freeze the rollout-wide gate records for each reading, outage or ungated pass, and whether it defers |
| `ErrorBudget.ParseThresholds` | internal/controller/errorbudget.go:294-310 | accepted exactly when both parse and the resume point, if set, is not below the freeze point; without one there is no hysteresis |
| `ErrorBudget.FrozenIff` | internal/controller/errorbudget.go:85-119 | fed its own record over any sequence of passes, it is frozen exactly when some reading was below the freeze point and all since stayed below the resume point (or were outages that keep it), and Since is when that stretch began |
| `ErrorBudget.DefersIff` | internal/controller/errorbudget.go:140-244 | a pass is held back exactly by a reading that leaves it frozen, outside a dry run, or by an outage under Hold |
| `ErrorBudget.StageForgetsFreeze` | internal/controller/errorbudget.go:223-244 | one outage under Hold keeps a rollout-wide freeze and loses a stage's own |
| `Conflict.ActionFor` | internal/apply/conflict.go:103-139 | an object's own annotation decides, else the first matching rule, else the default |
| `Conflict.RecreatedIff` | internal/apply/conflict.go:69-139 | an object is recreated exactly when its author forces it, or else its first matching rule says so, or it has none and the policy's default does, or there is no default and the stage forces |
| `Conflict.RefusedIff` | internal/apply/conflict.go:69-160 | a stage is refused exactly for a v1 PersistentVolumeClaim or PersistentVolume that its author does not force and whose first matching rule recreates without allowing data loss |
| `Conflict.ResolveConflictHandling` | internal/apply/conflict.go:69-98 | refuses exactly when a rule without allowDataLoss would recreate stored data; otherwise stamps every object and sets each selector exactly when some object carries its marker |
| `Conflict.LiveIsStale` | internal/apply/conflict.go:25-68 | across any history of applies with fresh tokens, no live annotation carries the token of an apply still to come |
| `Conflict.ForcedIffRecreated` | internal/apply/conflict.go:50-98 | across such a history, the force selector selects an object, by its desired or leftover annotation, exactly when this apply resolved it to Recreate |
| `Conflict.ConstantTokenForcesStale` | internal/apply/conflict.go:25-68 | with one constant token an object recreated once would be forced again under a Fail policy |
| `Conflict.KeptIffResolved` | internal/apply/conflict.go:69-98 | the selector with the constant value picks exactly the objects resolved to KeepExisting if and only if no other object carries the constant, or nothing is resolved to KeepExisting |
| `Conflict.AuthorsKeepIsTaken` | internal/apply/conflict.go:69-98 | an object resolved to Fail whose author wrote the annotation is picked once another object is kept |
| `LifetimeLedger.StageLedger.Has` | api/v1/stageledger_types.go:159-167 | finds a completion exactly when one is recorded for the stage and action |
| `LifetimeLedger.StageLedger.PromoteBaseline` | internal/controller/lifetimeledger.go:114-147 | adds the resolvable baseline entries not yet recorded and returns exactly the unresolvable ones; fails, storing nothing, exactly when there was something to store and the update is not taken |
| `LifetimeLedger.StageLedger.RecordCompletion` | internal/controller/lifetimeledger.go:195-224 | appends one completion, with its witness's reference and UID, unless there is one; fails, storing nothing, exactly when an anchored action's witness cannot be read or the update is not taken |
| `LifetimeLedger.StageLedger.EvaluateGate` | internal/actionplan/actionplan.go:101-127 | classifies every completion of a stage against its witness |
| `LifetimeLedger.StageLedger.DropCompletions` | internal/controller/anchor.go:32-51 | removes exactly a stage's named completions, keeping order, and says whether there were any |
| `LifetimeLedger.StageLedger.EnterStage` | internal/controller/stageset_controller.go:799-814 | entering a stage keeps exactly the completions of other stages and those that need no witness, cannot read it or find it as recorded, and the latter are done; fails, keeping all, exactly when one is to be forgotten and the update is not taken |
| `LifetimeLedger.GateReads` | internal/actionplan/actionplan.go:42-127 | done are the actions with a completion that needs no witness, cannot read it or finds it as recorded; invalidated exactly those with one whose witness is absent or has another UID; unreadable those with one it cannot read |
| `LifetimeLedger.DroppedIsInvalidated` | internal/controller/anchor.go:32-51 | with unique completions, dropping the invalidated names drops exactly the completions that are gone |
| `LifetimeLedger.PromoteOnlyAdds` | internal/controller/lifetimeledger.go:114-147 | baselining removes and downgrades nothing, keeps completions unique, and completes exactly the resolvable missing entries |
| `LifetimeLedger.AlwaysUnique` | internal/controller/lifetimeledger.go:195-224 | under every sequence of promotions, recordings and invalidations there is at most one completion per stage and action |
| `LifetimeLedger.WitnessedCompletionStays` | internal/controller/anchor.go:32-51 | under every such sequence, a completion that is unanchored or whose witness is at every entry unreadable or the recorded object stays as it is |
| `ActionLedgers.ActionLedger.DoneSet` | internal/controller/actionledger.go:34-46 | the union by name of the three ledgers |
| `ActionLedgers.ActionLedger.Record` | internal/controller/actionledger.go:52-61 | a completed action enters exactly the ledger its scope selects |
| `ActionLedgers.RunsOncePerStretch` | internal/controller/stageset_controller.go:715-853 | over any run of passes, whatever fails in each, an action runs at most once in a pass; one that ran in a stored pass runs in no later pass of a stretch at one revision, or for a Version action at one version however revisions change, until a failure before the stage loop wipes the ledgers |
| `ActionLedgers.RunsAgainIffLost` | internal/controller/stageset_controller.go:1307-1384 | an action that ran in a pass can run again in a next one at the same key exactly when that pass's status was lost; behind a pass that wipes the ledgers it always can |
| `ActionLedgers.LifetimeRunsOnceWhileWitnessed` | internal/actionplan/actionplan.go:101-127 | over any run of passes, a Lifetime action with a completion that is unanchored, or whose witness every pass that gets to the stage finds unreadable or as recorded, is never run again |
| `ActionRuns.RunsIff` | internal/controller/stageset_controller.go:715-853 | from any scope-consistent state some pass with a given plan, baseline and world runs an action exactly when none counts it done: no completion of it stands, and a Revision action is not in the ledger under this revision, a Version action not under this version nor on a StageSet without one, a Lifetime action without completion not in the baseline |
| `ActionRuns.VersionActionRunsOnUpgrade` | internal/controller/stageset_controller.go:728-737 | a Version action not held at the desired version is announced and runs on a StageSet that has a version, and counts as done, and is announced so, on one that has none |
| `ActionRuns.LifetimeRunsAgainIff` | internal/controller/stageset_controller.go:799-830 | once a Lifetime action has run and was recorded, it runs again exactly when it is anchored and a pass finds its witness absent or with another UID, whatever revision, version or baseline |
| `ActionRuns.EndsEarly` | internal/controller/stageset_controller.go:495-814 | what a pass leaves that runs nothing: emptied ledgers, or the ledgers as they were and the baseline promoted, or the ledgers carried and the completions that do not stand forgotten, or kept |
| `ActionRuns.PassRunsInOrder` | internal/controller/stageset_controller.go:836-1000 | a pass runs the pre-actions not done in list order up to the first failure, behind all of them and the apply the post-actions likewise, and the onFailure actions exactly when the apply or a post-action fails |
| `ActionRuns.CleanPassRunsAll` | internal/controller/stageset_controller.go:836-1000 | with nothing done and nothing failing that is every pre-action and then every post-action |
| `ActionRuns.VerdictIs` | internal/actionplan/verdict.go:65-139 | what the preview says of an action, in the same terms as what runs |
| `ActionLedgers.UncompletedRunsIff` | internal/controller/stageset_controller.go:628-830 | in every scope-consistent state without a completion of a Lifetime action, some pass under a baseline runs it if and only if the baseline does not name it, and every pass under it counts the action as done if and only if it does |
| `ActionLedgers.FailedRerunRunsAgainIff` | internal/controller/stageset_controller.go:628-830 | so it is behind any pass that left the action without a completion, as one does that forgets it and whose rerun fails |
| `ActionLedgers.RerunFailsThenSkipped` | internal/controller/lifetimeledger.go:114-147 | a run of two passes: the first forgets a completion whose witness is gone and its rerun fails, the second records the action as completed from the baseline and does not run it |
| `ActionLedgers.PassKeepsConsistent` | internal/controller/actionledger.go:34-61 | every pass, however it ends and whatever completions it finds, keeps each ledger to the names its scope routes there, and completions unique |
| `ActionLedgers.ActionVerdicts` | internal/actionplan/verdict.go:65-139 | the preview's own walk gives each pre and post action, in order, its phase, its scope, the state its stored ledgers and witnesses call for, and a reason that fits |
| `ActionLedgers.PreviewAgreesIff` | internal/actionplan/verdict.go:65-139 | in every scope-consistent state the preview says Skip exactly when the next pass counts the action done, except for a baseline entry awaiting promotion and a completion retained for an action no longer Lifetime-scoped; there it says the action will run |
| `ActionLedgers.PreviewMissesBaseline` | internal/actionplan/verdict.go:65-139 | the first exception, at a stage of one action before its first reconcile |
| `ActionLedgers.PreviewMissesRetained` | internal/actionplan/verdict.go:65-139 | the second one, at such a stage over a retained StageLedger |
| `ActionLedgers.PreviewAgreesInEveryRun` | internal/controller/stageset_controller.go:715-740 | every state a run reaches from a stage without status, over any ledger of unique completions, is scope-consistent, so that equivalence holds there |

## Left out

- HTTP, tar and gzip decoding, the Kubernetes client, server-side apply, readiness waits, CEL, SOPS, Sigstore: foreign calls, whose outcomes are arbitrary arguments.
- Command line, diff rendering, flags, logging, metrics, events, certificates: presentation and I/O.
- Stored timestamps lose their fraction of a second; the model's times do not.
- The exits on budget thresholds that do not parse, rollout-wide and per stage: validation refuses such a spec earlier in the same pass (internal/controller/webhook.go:189-231).
- Lost status writes in Promotion and ErrorBudget: such a pass leaves the record as a pass that does not reach the stage does.
- Budget values and thresholds are reals: rounding and not-a-number values are not modelled.
- Counters are unbounded integers; the source's are 32 or 64 bits wide and stay far below.
- Semantic-version parsing: versions are a total order, and constraints come as alternatives of conjunctions of comparisons; pre-release rules are not modelled.
- Downgrade permission, the coverage requirement, and source verification and pinning of a ladder: checks before the migrations run, each one branch.
- FleetProtocol.AdvanceNeedsEarlierWaves: members carry approvalMode Always and a deployed version, and only this fleet stamps approvals; a member changing its mode or approved by hand is outside it.
- Fleet selectors and the membership contest: a wave's selector is the set it selects, and the contested members are an argument.
- MigrationRuns.ActionsRunAtMostOnceInOrder: counts from the last clearing of the ledgers, which every successful pass does, since that is as far back as the ledgers reach; the ladder is fixed, and no name in it shadows another, which validation does not ask for and LadderNames.OnceIffNamesApart shows to be needed. An action counts as taking effect when it succeeds; a failed attempt may have had some effect too.
- MigrationRuns.AdvanceCompletes: on the same ladders only.
- LostStatus.OnceIffNothingLost: on the same ladders only.
- LadderNames.OnceIffNamesApart: digests are free, not hashes; the part of the condition about twelve digits matters only where content has the very digest that a name embeds.
- Stale reads: the controller reads a StageSet through a cached client, and a pass that reads an old status acts like one behind a lost status write.
- Whether the server-side-apply library compares a selector with the live object as well is not part of this model: the leftover annotations it reads are an argument.
- ActionLedgers.RunsOncePerStretch: force-reconcile and reset-scope tokens, which clear ledgers on purpose, are not modelled.
- Promotion.PromotionIsEarned: runs with reverts are outside it, because a revert stores the failing revision's state beside the restored revision; PromoteTokens does include reverts.
- Promotion checks (metric analysis, restart and event counting, fast-track burn rate): their verdicts are arguments.
- TokenCache.HitIsNeverEvicted: callers that join a mint in flight receive its token even when a Forget has come since; the guarantee is about what the cache holds. Remote kubeconfig connections are not modelled.
- The dirty-halt counters, failure reasons, timeout ladders, requeue intervals, update windows, budget overrides and the restart baseline: single branches with nothing to carry between passes.
- The address denylist behind the IPv4 parser, and the random source of force tokens: tokens are taken to be distinct.
- The pruning of inventories and the rollback snapshot store.
