# Samurai Sushi: verified model

A Dafny model of the parts of Samurai Sushi on which everything else leans: the evening service a player runs, the
sessions and claims that tie progress to a player, the executor that applies each command once, the JSON forms that
are hashed and signed, the content compiler behind every menu, and the on-chain receipt contract.
`dafny verify dfyconfig.toml` checks the whole project.

## How it is organised

- **Evening service** (`Evening*.dfy`, `Text.dfy`).  The reducer, the decoder with its invariants, the projector, the
  component ledger and the claim rebase, for any authored definition: any number of rice beats, orders, steps and
  choices.  A script of stages says where a checkpoint stands; the reducer is proved to follow it.  The shipped
  three-order evening is one instance (`EveningPinned.dfy`).
- **Player sessions** (`Session*.dfy`).  `SessionVault` says what the tables mean between transactions and what each
  transaction does; `SessionOutcomes`, `SessionWrites` and `SessionRetention` say the same a second time, as relations
  on rows, and prove the two equal; `SessionSafety`, `SessionEffects`, `SessionRotation`, `SessionRetry`, `SessionLogout`
  and `SessionPurge` prove properties of every run; the class in `SessionStore` does the work row by row and is proved
  to do exactly those steps.
- **Claiming a guest** (`ClaimRows.dfy`, `ClaimSafety.dfy`, `ClaimOutcomes.dfy`, `ClaimLaws.dfy`).  Every check of the
  claim, the player's new rows, ownership of the guest's rows, challenges, tombstones and the final delete of the guest
  session; what a claim leaves, table by table; what it rules out for every later claim.
- **Commands** (`CommandExecutor.dfy`, `CommandRuns.dfy`, `CommandProgress.dfy`, `CommandBounds.dfy`,
  `CommandTrees.dfy`).  Idempotent execution against five tables, the checkpoints it hands from call to call, and the
  structural limits on an unauthenticated command.
- **JSON** (`Json*.dfy`, `StrictJson.dfy`, `CanonicalJson.dfy`).  A recursive-descent parser over one shared position
  and one node counter, the canonical printer, and RFC 8259 as an independent relation between texts and values
  (`JsonGrammar.dfy`), with its own tables, that the parser is proved to decide in both directions and against which the
  printer is measured (`JsonPrinted.dfy`).
- **Claim protocol** (`Preflight.dfy`, `PreflightTrees.dfy`, `ClaimFraming.dfy`, `ClaimBase64.dfy`, `ClaimBytes.dfy`).  The
  structural check with an explicit stack, byte framing, identifiers and canonical bytes.
- **Content** (`Content*.dfy`, `SubstitutionGraph.dfy`, `Calendar.dfy`, `Gregorian.dfy`, `Seasonality.dfy`).
  Indexes, derived allergen facts, recipes, variants, cycle detection, dates and season windows.
- **Receipts** (`ReceiptContract.dfy`, `ReceiptRuns.dfy`, `ReceiptAuthorship.dfy`).  The contract's entry points, all
  runs of them, and who signed what they recorded.

Code that changes state step by step is a class or a method with loops, each proved against a specification function;
what the repository promises is then proved about that function, for all inputs and all runs.  The specification
functions follow the code's branches, so the main ones are each matched by a relation that does not call them and names
the resulting fields, numbers and texts outright, and the two are proved equal.  Hashes, MACs and packing are free
constructors, so equal results mean equal inputs; signature verification, the rotation's key
derivation, the command handler and the finiteness of a non-integer number are arbitrary functions; the clock, random
secrets and wallet proofs are parameters.

## What the proofs brought out

- The decoder's invariants admit a first order plated with no presentation chosen, and such a checkpoint is stuck:
  serving it fails.  The proofs use the stronger invariant under which the reducer keeps every reachable checkpoint,
  and say exactly which valid checkpoints fail (`UnsteadyRefusesServe`, `UnsteadyExists`).
- Abandoning is refused exactly between choosing the presentation and serving the first order (`AbandonOutcome`), and
  plays from the untouched service do get there (`PendingIsReached`).
- Recovery deletes two digest rows and buries one; an outgoing digest of a lost hand-over is forgotten rather than
  tombstoned (`RecoveryForgetsPredecessor`).
- The printer's surrogate scan compares with a missing code unit, so it passes a string ending in an unpaired high
  surrogate, whose text the strict parser refuses (`LoneSurrogate`); apart from that the two agree exactly
  (`AcceptedRoundTrip`).  An own `__proto__` key vanishes in printing (`ProtoIsLost`).
- A claim that passes every check before its first insert, and takes no unique key, can still fail in one way: guest and
  existing player used the same idempotency key, which the receipts' primary key does not allow (`ClaimFailsExactly`,
  `SharedKeyBlocks`).  Claims that create their player cannot (`NewPlayersNeverCollide`).
- The structural check's limit of 256 array items cannot be reached, and its set of active objects changes no verdict
  (`ArrayLimit`, `ActiveSetIsRedundant`).
- Dates of the years 1 to 99 are refused because `Date.UTC` reads them as 1901 to 1999 (`AcceptedDates`).

## Model

| member | source | states |
|---|---|---|
| `EveningCheckpoint.AccumulateComponent` | packages/domain/src/evening-service.ts:285-300 | the loop over the orders accumulates exactly the recursive ledger row of one component: total, placed, served, discarded and what is left available |
| `EveningCheckpoint.ConservedComponents` | packages/domain/src/evening-service.ts:284-301 | the ledger computed by the loops is the conserved ledger the decoder compares against, one row per component in order |
| `EveningScript.SteadyStandsAtStage` | packages/domain/src/evening-service.ts:377-426 | every running checkpoint that passes the decoder and has a presentation once its first order is plated is exactly one stage of the authored script plus free bookkeeping |
| `EveningScript.StageIsSteady` | packages/domain/src/evening-service.ts:323-426 | conversely, anything standing at a stage with its bookkeeping in order passes the decoder, and is at that stage only |
| `EveningTheorems.AcceptsExactlyWhatIsOffered` | packages/domain/src/evening-service.ts:454-565 | for any authored definition: a command other than abandon is accepted if and only if the projection of the checkpoint offers it; accepted, every field of the next checkpoint is the script's, and any other answer leaves the checkpoint unchanged |
| `EveningTheorems.OnlyRefusals` | packages/domain/src/evening-service.ts:403-426 | a well-formed addressed command is refused if and only if it abandons while a chosen presentation is unserved, or starts a new shift with the generation spent; every answer is a correction or a steady checkpoint one revision on |
| `EveningTheorems.NeverStuck` | packages/domain/src/evening-service.ts:454-635 | from every steady checkpoint that is not settled and has room for another revision the offered command is accepted and moves the service one stage on |
| `EveningTheorems.AbandonOutcome` | packages/domain/src/evening-service.ts:556-561 | abandoning an open or closing service fails if and only if a presentation is chosen and its order unserved; otherwise it discards the open work and nothing else |
| `EveningMoves.AcceptedMoves` | packages/domain/src/evening-service.ts:465-560 | for each of the eleven commands, written out field by field: what it needs, its exact payload, which fields of the checkpoint it writes and with what, and the feedback it answers with |
| `EveningMoves.CorrectionCues` | packages/domain/src/evening-service.ts:445-565 | a correction leaves the checkpoint as it is, announces nothing, and its cue says that the service is over or what the command at hand would have needed, each cue written out (for definitions whose orders have steps) |
| `EveningAbandoned.AbandonedExactly` | packages/domain/src/evening-service.ts:377-426 | the valid abandoned checkpoints are exactly those an abandonment can leave, field by field |
| `EveningReached.PendingIsReached` | packages/domain/src/evening-service.ts:556-561 | the refusal is real: for every authored definition a play of offered commands from the untouched service leads to an open checkpoint whose chosen presentation is unserved, and there abandoning fails |
| `EveningReached.ReachNext` | packages/domain/src/evening-service.ts:454-565 | sending what is offered takes a play from any stage it reached to the next one |
| `EveningTheorems.UnsteadyRefusesServe` | packages/domain/src/evening-service.ts:409-422 | the stored invariants alone do not suffice: a valid checkpoint refuses the serving of its first order, where the reducer fails, if and only if it is plated without a presentation |
| `EveningTheorems.UnsteadyExists` | packages/domain/src/evening-service.ts:377-426 | for every authored definition such a valid but stuck checkpoint exists |
| `EveningRuns.RankStep` | packages/domain/src/evening-service.ts:454-565 | each move along the script raises the rank by exactly one |
| `EveningRuns.AcceptedStep` | packages/domain/src/evening-service.ts:454-565 | an accepted command is the offered move of the script or an abandonment of an open or closing service, and leaves a steady checkpoint |
| `EveningRuns.PlayKeepsCount` | packages/domain/src/evening-service.ts:449-565 | over any commands at all the revision grows by the number accepted and the rank equals the number accepted in this generation |
| `EveningRuns.SettlesAfterAuthoredWork` | packages/domain/src/evening-service.ts:449-565 | from the untouched service, whatever is sent: revision counts accepted commands, and a generation that settles accepted exactly rice beats + sum of (steps + 3) + 4 of them |
| `EveningRuns.PlayRemembers` | packages/domain/src/evening-service.ts:382-405 | over any commands story flags only extend, unlocks only grow, the generation never falls, and a settled service never changes again |
| `EveningRuns.StagesCarryFlags` | packages/domain/src/evening-service.ts:382-399 | story flags are an authored prefix that covers every served order |
| `EveningRuns.RebaseOutcome` | packages/domain/src/evening-service.ts:366-375 | a claim rebase of valid checkpoints fails if and only if the revision is unsafe or an open guest is sent to revision 0; otherwise only revision and unlocks change, unlocks become the union, and all invariants hold |
| `EveningRuns.MergedUnlocksAreUnion` | packages/domain/src/evening-service.ts:366-375 | the merged unlocks are exactly those of either side, each once |
| `EveningLedger.CommandFlows` | packages/domain/src/evening-service.ts:449-560 | each accepted command moves every component as authored: a step places exactly its own unit, serving hands over the order's units, a new shift restocks, abandoning discards what was placed, anything else moves nothing |
| `EveningLedger.StockIsConserved` | packages/domain/src/evening-service.ts:284-301 | in every valid checkpoint the four parts of each component are non-negative and add up to its authored total |
| `EveningLedger.StageLedger` | packages/domain/src/evening-service.ts:284-301 | at each stage served is what the finished orders use, placed what is in hand, and the rest is available |
| `EveningLedger.UsesMeans` | packages/domain/src/evening-service.ts:284-301 | what an order uses of a component is the number of its steps that consume it |
| `EveningAnnouncements.RepliesTell` | packages/domain/src/evening-service.ts:434-560 | every reply announces exactly what it changed: the settlement when the service settles, precisely the unlocks it added, and the outcome and feedback of the order it served |
| `EveningAnnouncements.EverythingIsAnnouncedOnce` | packages/domain/src/evening-service.ts:434-560 | over any commands: the settlement is announced once if the service settled and never otherwise, the unlocks announced are exactly those held and none twice, and the outcomes announced since the shift began are those of the served orders in authored order |
| `EveningAnnouncements.CueNamesWhatIsExpected` | packages/domain/src/evening-service.ts:486-533 | a wrong choice for the command at hand is answered with the cue authored for the move that was expected |
| `EveningViews.Project` | packages/domain/src/evening-service.ts:583-652 | the projector's branch chain succeeds exactly on valid checkpoints, lists exactly the served orders, and on steady ones shows the stage's prompt, choices and command |
| `EveningMoves.StageShows` | packages/domain/src/evening-service.ts:583-635 | each stage shows its own prompt, the choices on the table and the command that plays it, each named by what the checkpoint still lacks |
| `EveningMoves.StepAnswersItsPrompt` | packages/domain/src/evening-service.ts:516-521 | a performed step is answered with the prompt that asked for it |
| `EveningMoves.LinesAreStored` | packages/domain/src/evening-service.ts:636-650 | the line shown for a served order holds the feedback and the flag the checkpoint stores for it, and the outcome and consequence authored for it |
| `EveningViews.ServedBeforeActive` | packages/domain/src/evening-service.ts:384-399 | in a valid checkpoint the served orders are exactly those before the active one, each in its authored served form |
| `EveningViews.PromptDeterminesBoard` | apps/web/app/service-browser.ts:330-343 | with distinct prompts, two steady checkpoints that are not abandoned and show the same prompt agree on phase, rice index, active order, every order row and the component ledger |
| `EveningPinned.PinnedIsAuthored` | packages/domain/src/evening-service.ts:215-280 | the shipped three-order definition meets every authoring assumption of the general theorems |
| `EveningPinned.PinnedWork` | packages/domain/src/evening-service.ts:215-280 | its authored work is 29 commands |
| `EveningPinned.PinnedPromptsAreDistinct` | packages/domain/src/evening-service.ts:215-280 | its prompts are pairwise distinct over all stages, so the prompt theorem applies to it |
| `Text.SortedUniqueIsCanonical` | packages/domain/src/evening-service.ts:366-375 | sorting without repeats keeps exactly the members, in strictly rising order |
| `Text.LessMeans` | packages/content/src/seasonality.ts:25 | the order of strings is that of code units: the smaller at the first difference first, a prefix before what it begins |
| `SessionSafety.RunIsSafe` | packages/persistence/src/account-claim.ts:931-1902 | over every interleaving of claim, recover, acknowledge, authenticate, rotate, logout, deletion, clean-up, key change and passing time: no digest is live in two slots or in two sessions, and none is both live and tombstoned |
| `SessionSafety.ExecIsSafe` | packages/persistence/src/account-claim.ts:931-1902 | every single transaction, whatever its arguments and outcome, keeps those facts |
| `SessionRetention.ExecExactly` | packages/persistence/src/account-claim.ts:541-2069 | every transaction on a safe vault leads exactly where fifteen relations, written out row by row without the step functions, say: who is let in, what is issued, stamped, buried, ended or removed, and when nothing happens |
| `SessionOutcomes.UnlocksExactly` | packages/persistence/src/account-claim.ts:931-1006 | a secret opens a slot if and only if the first key of the ring that finds any session finds this one, its player and state are right, it is neither expired nor idle for a week, some key verifies the slot, the current slot comes first, an outgoing one is in its grace minute, and what the slot holds is not tombstoned |
| `SessionOutcomes.DeliveredOpens` | packages/persistence/src/account-claim.ts:931-1006 | the current secret of a live session opens it when the ring's first key made its digest |
| `SessionWrites.IssuesExactly` | packages/persistence/src/account-claim.ts:1304-1355 | a secret is issued if and only if the active key is ready and one of the first four offers is fresh, and then it is the first such |
| `SessionWrites.ClaimExactly` | packages/persistence/src/account-claim.ts:541-683 | a claim's session is undelivered, of generation one, lasts thirty days and is due for rotation in seven, and this and its player and merge row are all that changes |
| `SessionWrites.RecoverExactly` | packages/persistence/src/account-claim.ts:749-836 | a recovery succeeds exactly for a proven, live session, gives it a fresh digest, one more generation and an undelivered state, and buries the digest it had |
| `SessionWrites.AcknowledgeExactly` | packages/persistence/src/account-claim.ts:838-893 | an acknowledgement succeeds exactly with the current secret and the latest generation, and makes the session active and seen |
| `SessionWrites.AuthenticateExactly` | packages/persistence/src/account-claim.ts:1008-1027 | an authentication stamps the one active session its secret unlocks and changes nothing else |
| `SessionWrites.RotateExactly` | packages/persistence/src/account-claim.ts:1058-1176 | a rotation succeeds exactly as a first hand-over or as the repetition of one, with the tables written out |
| `SessionWrites.LogoutExactly` | packages/persistence/src/account-claim.ts:1192-1253 | a log-out answers already-logged-out and changes nothing, or ends exactly the session its secret unlocks |
| `SessionRetention.ExpireExactly` | packages/persistence/src/account-claim.ts:1780-1841 | an expiry ends exactly a lapsed or idle session: its digests buried, both slots empty, the session revoked, or gone if no merge receipt keeps it |
| `SessionRetention.ExpirePredecessorExactly` | packages/persistence/src/account-claim.ts:1843-1902 | an outgoing digest past its grace is buried and its slot emptied, and nothing else changes |
| `SessionRetention.PurgeExactly` | packages/persistence/src/account-claim.ts:1973-2069 | a digest whose key is gone is buried and removed, losing the current one revokes the session, and nothing else changes |
| `SessionRetention.DeleteExactly` | packages/persistence/src/account-claim.ts:1517-1586 | a deletion succeeds exactly for the current secret of a live session and removes exactly its player's rows |
| `SessionRetention.DeletePlayerExactly` | packages/persistence/src/account-claim.ts:1588-1735 | every digest of the player's sessions is buried, all its rows go, and nobody else's change |
| `SessionSafety.BuriedStaysOut` | packages/persistence/src/account-claim.ts:1304-1416 | while a digest's tombstone lasts no run makes it live again and no secret authenticates through it |
| `SessionSafety.RunKeepsGraves` | packages/persistence/src/account-claim.ts:2510-2537 | tombstones that have not lapsed are never removed or shortened by any run |
| `SessionSafety.UnlockedIsLive` | packages/persistence/src/account-claim.ts:985-1000 | a secret opens only a slot that holds its own digest, and only when that digest is not tombstoned |
| `SessionSafety.AtMostTwoSecrets` | packages/persistence/src/account-claim.ts:985-999 | at any time only two secrets can open a session: that of the current digest, and that of the predecessor before its end of validity |
| `SessionSafety.IssuedIsFree` | packages/persistence/src/account-claim.ts:1304-1355 | an issued secret's digest is neither live nor tombstoned |
| `SessionSafety.RunRaisesGeneration` | packages/persistence/src/account-claim.ts:1159-1165 | a session's delivery generation never falls, and a new current digest comes with a strictly higher one |
| `SessionRotation.OnlyLatestIsAcknowledged` | packages/persistence/src/account-claim.ts:870-876 | an older delivery generation can never be acknowledged, at any later point of any run |
| `SessionRotation.RotationHandsOver` | packages/persistence/src/account-claim.ts:1106-1175 | a rotation derives the new secret from the old, installs its digest, makes the old one the predecessor for at most a minute, raises the generation by one and buries a lapsed predecessor |
| `SessionEffects.OpEffect` | packages/persistence/src/account-claim.ts:541-1902 | whatever the transaction and its outcome: slots keep what they held, pass the current digest to the predecessor, or take one digest of which nothing verifiable was live or buried; and whatever is newly buried was given up by the session that held it |
| `SessionEffects.OutgoingStops` | packages/persistence/src/lifecycle.ts:15 | in every run, one minute after any moment it was outgoing a digest opens nothing, unless a claim, a recovery or a rotation of the run issued that very digest again |
| `SessionRotation.OutgoingStaysBuried` | packages/persistence/src/account-claim.ts:1129-1142 | in every run that does not recover that session, an outgoing digest stays out from one minute on for as long as a tombstone lasts |
| `SessionLogout.LogoutEnds` | packages/persistence/src/account-claim.ts:1237-1250 | a log-out that is no repetition ends one session, one of whose digests is the secret's: revoked, both slots empty, every digest it held buried and marked as logged out for at least thirty days |
| `SessionLogout.LoggedOutOpensNothing` | packages/persistence/src/account-claim.ts:1192-1253 | for thirty days after a log-out, over every run, no digest the session held is live and no secret opens anything through it |
| `SessionLogout.LogoutRepeats` | packages/persistence/src/account-claim.ts:1274-1298 | over every run in that time, while the ring keeps its keys and none is retired, logging out again with the secret is recognised and changes nothing |
| `SessionLogout.OverStaysOver` | packages/persistence/src/account-claim.ts:541-2069 | an ended, empty session never comes back, unless its identifier is claimed anew after it is gone |
| `SessionLogout.CurrentKeepsOpening` | packages/persistence/src/account-claim.ts:931-1006 | the current secret goes on opening its session over every run that does not recover, rotate, log out or delete it or change the keys, until it expires, lies idle for a week, or its key stops verifying |
| `SessionLogout.ClaimDelivers` | packages/persistence/src/account-claim.ts:541-683 | the secret issued by a claim acknowledges the session and then authenticates it |
| `SessionLogout.RecoveryDelivers` | packages/persistence/src/account-claim.ts:749-836 | so does the secret issued by a recovery, at the next generation |
| `SessionLogout.RotationDelivers` | packages/persistence/src/account-claim.ts:1058-1176 | and the secret returned by a rotation |
| `SessionRetry.OpSpares` | packages/persistence/src/account-claim.ts:931-1902 | while a hand-over awaits delivery in its grace window, no transaction but an acknowledgement, recovery, logout or deletion of that session, or a change of keys, touches its slots, state or generation |
| `SessionRetry.RetryReturnsSame` | packages/persistence/src/account-claim.ts:1076-1105 | over every run after a rotation that does not deliver, recover, log out or delete that session and leaves the keys alone, inside the grace window: rotating again with the outgoing secret returns the same secret and generation and changes no digest row and no tombstone |
| `SessionRotation.RecoveryForgetsPredecessor` | packages/persistence/src/account-claim.ts:800-826 | recovery deletes both digest rows but tombstones only the current one: the outgoing digest ends up neither live nor buried |
| `SessionStore.Store.FindLive` | packages/persistence/src/account-claim.ts:944-958 | the digest lookup finds a session if and only if the digest is live, and then one that holds it |
| `SessionStore.Store.ResolveSecret` | packages/persistence/src/account-claim.ts:937-958 | trying the key ring's candidates in order finds the session the specification resolves |
| `SessionStore.Store.MatchSlot` | packages/persistence/src/account-claim.ts:985-999 | the walk over a session's digest rows finds the slot the specification opens |
| `SessionStore.Store.IssueFresh` | packages/persistence/src/account-claim.ts:1304-1355 | of at most four generated secrets the loop issues the first that is fresh under every verifying key, or none |
| `SessionStore.Store.IsDerivedClear` | packages/persistence/src/account-claim.ts:1376-1396 | the collision loop passes exactly when every verifying key's digest of the derived secret is unburied and live at most as the allowed current row |
| `SessionStore.Store.LockAuthenticated` | packages/persistence/src/account-claim.ts:931-1006 | the guarded lookup returns what the specification unlocks, stamps only that session as seen, and changes nothing on refusal |
| `SessionStore.Store.Authenticate` | packages/persistence/src/account-claim.ts:1008-1027 | authenticating refines the specification's step on the assembled tables (exact by `AuthenticateExactly`), and reports rotation due exactly when the current slot's key is not the ring's first or its time has come |
| `SessionStore.Store.Claim` | packages/persistence/src/account-claim.ts:648-661 | a successful claim opens a session awaiting delivery whose digest was not live before, and refines the claim step |
| `SessionStore.Store.Recover` | packages/persistence/src/account-claim.ts:749-836 | recovery by table updates refines the recovery step and returns the new secret and generation |
| `SessionStore.Store.Acknowledge` | packages/persistence/src/account-claim.ts:838-893 | acknowledging refines its step: current secret and latest generation only |
| `SessionStore.Store.CheckRotate` | packages/persistence/src/account-claim.ts:1065-1128 | the checks of a rotation decide exactly as the specification, including the deferred and the repeated case |
| `SessionStore.Store.HandOver` | packages/persistence/src/account-claim.ts:1129-1165 | the slot updates of a rotation, row by row, amount to one hand-over |
| `SessionStore.Store.Rotate` | packages/persistence/src/account-claim.ts:1058-1176 | rotation refines its step; a refusal rolls every table back |
| `SessionStore.Store.Logout` | packages/persistence/src/account-claim.ts:1192-1253 | logout refines its step, which ends the session (`LogoutEnds`, `LogoutExactly`), and answers already-logged-out exactly for a logged-out secret |
| `SessionStore.Store.BuryHeld` | packages/persistence/src/account-claim.ts:1237-1242 | the loop over digest rows buries exactly what the session holds, and under logout keys too when logging out |
| `SessionStore.Store.ExpireSession` | packages/persistence/src/account-claim.ts:1797-1838 | one candidate of the retention sweep refines its step and is reported exactly when something changed |
| `SessionStore.Store.ExpireSessions` | packages/persistence/src/account-claim.ts:1780-1841 | the sweep over any candidate list is the run of its steps, and `cleaned` counts exactly the sessions changed |
| `SessionStore.Store.ExpirePredecessors` | packages/persistence/src/account-claim.ts:1843-1902 | the same for outgoing digests past their end of validity |
| `SessionStore.Store.DropReceipt` | packages/persistence/src/account-claim.ts:1958-1966 | removing a merge receipt takes a revoked session without digests along |
| `SessionStore.Store.PurgeDigest` | packages/persistence/src/account-claim.ts:2010-2045 | a digest row whose key can no longer verify is buried and removed, losing the current one revokes the session, and nothing else is touched |
| `SessionStore.Store.PurgeUnavailable` | packages/persistence/src/account-claim.ts:1973-2051 | the paged walk with a cursor is the run of its purges up to the cursor, counts exactly those that did something, never exceeds the limit, and stops early only at the limit |
| `SessionPurge.PurgeIsComplete` | packages/persistence/src/account-claim.ts:1973-2069 | a purge that reaches the end of the rows leaves no digest whose key is gone and introduces none |
| `SessionStore.Store.BuryPlayer` | packages/persistence/src/account-claim.ts:1588-1735 | deleting a player first buries the digest of every session it owns, one row at a time |
| `SessionStore.Store.RemovePlayer` | packages/persistence/src/account-claim.ts:1588-1735 | deletion refines its step: all digests buried, all rows of the player gone, nobody else's touched |
| `SessionStore.Store.Delete` | packages/persistence/src/account-claim.ts:1517-1586 | deletion by session needs that session's current secret and refines its step |
| `JsonReads.ParseIff` | packages/account-http-runtime/src/strict-json.ts:17-122 | the parser returns a value if and only if the text is an RFC 8259 text of that value (sections 2 to 7, as a relation with its own tables of escapes, digits, white space and words) and the value keeps the limits |
| `JsonPrinted.StrictParseIff` | packages/account-http-runtime/src/strict-json.ts:1-122 | with the limits in plain numbers: accepted are exactly the RFC 8259 texts of values of at most 4096 nodes and 32 levels, strings of at most 16384 units with paired surrogates, 256 entries, unreserved keys, and integers in the safe range |
| `JsonReads.RefusedIff` | packages/account-http-runtime/src/strict-json.ts:17-122 | it refuses a text if and only if the text is the text of no value within the limits |
| `JsonReads.TextDenotesOne` | packages/account-http-runtime/src/strict-json.ts:17-122 | no text denotes two values within the limits |
| `JsonReads.WrittenReads` | packages/account-http-runtime/src/strict-json.ts:63-116 | any grammatical text of a fitting value, in any white space, escapes and member order, is read as that value and stops where it ends |
| `JsonAccepts.ValueIsWritten` | packages/account-http-runtime/src/strict-json.ts:63-116 | what the value reader consumes is white space and then a grammatical text of the value it returns |
| `JsonAccepts.MembersAreWritten` | packages/account-http-runtime/src/strict-json.ts:75-88 | the member loop reads each key once, and its result has exactly the keys and values written |
| `JsonGrammar.QuotedReads` | packages/account-http-runtime/src/strict-json.ts:32-62 | every quoted spelling of a well-formed short string is read as that string, by a table of escapes that is not the decoder's |
| `JsonGrammar.ReadIsQuoted` | packages/account-http-runtime/src/strict-json.ts:32-62 | and only such spellings are read |
| `JsonGrammar.NumberReads` | packages/account-http-runtime/src/strict-json.ts:109-115 | a number text is read whole, as what it denotes, when nothing after it can belong to it |
| `JsonGrammar.ReadIsNumber` | packages/account-http-runtime/src/strict-json.ts:1 | what the number pattern matches is a number of the grammar |
| `StrictJson.Parser.SkipWhitespace` | packages/account-http-runtime/src/strict-json.ts:25-31 | the loop advances the shared position past exactly the leading white space |
| `StrictJson.Parser.ReadString` | packages/account-http-runtime/src/strict-json.ts:32-62 | the string reader on the shared position computes its specification, position included, which reads exactly the spellings of RFC 8259 (`QuotedReads`, `ReadIsQuoted`) |
| `StrictJson.Parser.ReadValue` | packages/account-http-runtime/src/strict-json.ts:63-116 | the recursive reader on the shared position and node counter computes its specification |
| `StrictJson.Parser.ReadMembers` | packages/account-http-runtime/src/strict-json.ts:75-89 | the member loop, filling result and key set in place, computes its specification |
| `StrictJson.Parser.ReadItems` | packages/account-http-runtime/src/strict-json.ts:96-104 | the item loop computes its specification |
| `StrictJson.ParseStrictJson` | packages/account-http-runtime/src/strict-json.ts:117-121 | the imperative parser computes the specified parse of every text, the one `StrictParseIff` states outright |
| `JsonRoundTrip.RoundTrip` | packages/account-http-runtime/src/strict-json.ts:17-122 | for every value of integers: parsing its canonical text gives it back if and only if it keeps the parser's limits |
| `JsonRoundTrip.PrintIsInjective` | packages/domain/src/canonical-json.ts:66-68 | two such values print alike only if equal |
| `JsonNumbers.PrintedParseIsStable` | packages/account-http-runtime/src/strict-json.ts:17-122 | printing a parsed text and parsing it again gives the same value, for every accepted text whose numbers are exactly safe integers, fractions and exponents included |
| `JsonNumbers.OnePointZero` | packages/account-http-runtime/src/strict-json.ts:109-115 | `1.0` is read as the integer one |
| `JsonNumbers.OneHundred` | packages/account-http-runtime/src/strict-json.ts:109-115 | `1e2` is read as the integer one hundred |
| `JsonNumbers.ExactMeans` | packages/account-http-runtime/src/strict-json.ts:109-115 | the integer read from a number text is the one its digits, point and exponent denote exactly, and negative zero is none |
| `JsonNumbers.ExactOfCut` | packages/account-http-runtime/src/strict-json.ts:109-115 | the same by the places of the digits: wherever the grammar cuts a number text into whole part, fraction and exponent, the integer read is the one the places denote |
| `JsonRoundTrip.ParsedFits` | packages/account-http-runtime/src/strict-json.ts:63-65 | whatever is accepted keeps every limit, and the node counter is exactly the number of nodes |
| `JsonText.EscapeUndone` | packages/domain/src/canonical-json.ts:66-68 | unescaping undoes the printer's escaping for every string of code units |
| `JsonPrinted.EscapesAre` | packages/domain/src/canonical-json.ts:66-68 | what must be escaped is escaped by its two-character form where RFC 8259 has one, else by four lower-case digits, and nothing else is escaped |
| `JsonPrinted.EscapeIsShortest` | packages/domain/src/canonical-json.ts:66-68 | no spelling of a string is shorter than the printed one |
| `JsonPrinted.PrintedIsJson` | packages/domain/src/canonical-json.ts:66-68 | the printed text is an RFC 8259 text of the value printed |
| `JsonPrinted.PrintIsShortest` | packages/domain/src/canonical-json.ts:21-64 | no text of a value is shorter than its canonical one, in any order of members: no white space, no needless escape, no long numeral |
| `JsonPrinted.WellFormedMeans` | packages/account-http-runtime/src/strict-json.ts:42-49 | the surrogate scan accepts exactly the strings in which each high surrogate has its low one behind it and each low one its high one before it |
| `JsonPrinted.ReservedMeans` | packages/account-http-runtime/src/strict-json.ts:83 | the refused keys are exactly `__proto__`, `constructor` and `prototype` |
| `JsonPrinted.LessMeans` | packages/domain/src/canonical-json.ts:54 | keys are compared unit by unit: the smaller at the first difference first, a prefix before what it begins |
| `JsonPrinted.IndexMeans` | packages/domain/src/canonical-json.ts:54-60 | array-index keys are the shortest decimal numerals below 2^32 - 1 |
| `JsonText.DecimalUndone` | packages/account-http-runtime/src/strict-json.ts:109-115 | every printed safe integer is read back whole |
| `JsonText.LooseEnds` | packages/domain/src/canonical-json.ts:8-19 | the printer's surrogate scan lets through exactly the well-formed strings and those ending in one unpaired high surrogate |
| `JsonText.CheckSurrogates` | packages/account-http-runtime/src/strict-json.ts:42-49 | the parser's surrogate loop accepts exactly the well-formed strings |
| `JsonText.AssertValidUnicode` | packages/domain/src/canonical-json.ts:8-19 | the printer's surrogate loop, comparisons with a missing unit included, accepts exactly what its definition says |
| `JsonValue.OrderIsUnique` | packages/domain/src/canonical-json.ts:52-61 | one set of keys has one enumeration order |
| `JsonValue.SortedInsertionOrder` | packages/domain/src/canonical-json.ts:54-60 | assigning keys in code-unit order leaves array-index keys first in numeric order and the others in code-unit order, whatever order they came in |
| `CanonicalJson.FitsIff` | packages/domain/src/canonical-json.ts:21-64 | fitting the parser is being sized, accepted by the printer, and free of strings ending in a high surrogate |
| `CanonicalJson.AcceptedRoundTrip` | packages/domain/src/canonical-json.ts:8-19 | what the printer accepts within the parser's sizes comes back from the parser if and only if no string and no key ends in a high surrogate |
| `CanonicalJson.LoneSurrogate` | packages/domain/src/canonical-json.ts:8-19 | such a string exists: it is accepted and printed, and the parser refuses the text |
| `CanonicalJson.ProtoIsLost` | packages/domain/src/canonical-json.ts:60 | an own `__proto__` entry leaves no trace in the text |
| `CanonicalJson.SortKeys` | packages/domain/src/canonical-json.ts:54 | sorting lists exactly the keys in code-unit order |
| `CanonicalJson.CanonicalEntries` | packages/domain/src/canonical-json.ts:52-63 | the loop over the sorted keys succeeds exactly on acceptable objects and leaves the canonical key order with each value's canonical text |
| `CanonicalJson.CanonicalText` | packages/domain/src/canonical-json.ts:66-68 | printing succeeds exactly on acceptable values and yields the canonical text, which is a legal and shortest text of the value (`PrintedIsJson`, `PrintIsShortest`) |
| `CommandBounds.AssertBounded` | packages/persistence/src/command-executor.ts:320-348 | the explicit stack without any memory of ancestors accepts exactly the values whose recursive unfolding keeps every limit, and halts on cyclic values |
| `CommandBounds.BoundedIsAcyclic` | packages/persistence/src/command-executor.ts:320-348 | an accepted command has no object below itself and at most 33 nested objects, although the check never looks for a cycle |
| `CommandTrees.BoundedExactly` | packages/persistence/src/command-executor.ts:320-348 | a command passes if and only if it can be written out as one finite tree of plain values, shared parts repeated, with at most 2048 nodes, 32 levels, 16 KiB a string and 256 KiB of strings and names |
| `CommandTrees.Utf8LengthMeans` | packages/persistence/src/command-executor.ts:320-348 | the bytes counted for a text are those of its UTF-8 form, lone surrogates as the replacement character |
| `CommandExecutor.GuestCommandExecutor.Run` | packages/persistence/src/command-executor.ts:160-303 | the row-by-row transaction computes the specified outcome, whose rows `CommitWrites` states field by field, and a fault leaves every table as it was |
| `CommandRuns.ExactlyOnce` | packages/persistence/src/command-executor.ts:160-303 | for any run of attempts with duplicates and retries and any handler, the tables are those left by one handler call per first commit, each for a key not used before; which rows those are is `CommitWrites`, and which checkpoints `CallsContinue` |
| `CommandProgress.CommitsExactlyWhen` | packages/persistence/src/command-executor.ts:131-275 | an attempt commits if and only if both credential checks pass, its key is new, the stored revision is the expected one, the handler decides, and the new event's identifier and revision are free and safe |
| `CommandProgress.CommitWrites` | packages/persistence/src/command-executor.ts:233-303 | a commit stores the decision's checkpoint and schema at the next revision for this guest and changes no other guest's; its event, outbox row and receipt hold the decision's event, response and response hash, the receipt for thirty days; and the answer is that response |
| `CommandProgress.ReplayIsSound` | packages/persistence/src/command-executor.ts:168-191 | what is answered again was asked before with the same contents, is unexpired, still has its hash, and changes nothing |
| `CommandProgress.CallsContinue` | packages/persistence/src/command-executor.ts:192-249 | over every run each handler call of a guest gets the checkpoint its previous call decided on, at the next revision, and its first call the initial one |
| `CommandProgress.LastDecisionIsStored` | packages/persistence/src/command-executor.ts:233-249 | over every run a guest's final progress is the decision of its last call, and the initial one if it had none |
| `CommandProgress.AnswerIsLogged` | packages/persistence/src/command-executor.ts:277-303 | each commit is answered with the response of the very decision that is stored |
| `CommandRuns.CountsAgree` | packages/persistence/src/command-executor.ts:232-296 | receipts, events and outbox rows grow by exactly the number of first commits |
| `CommandRuns.RevisionCounts` | packages/persistence/src/command-executor.ts:233-249 | a guest's revision grows by one for each of its first commits and by nothing else |
| `CommandRuns.LoggedReceipts` | packages/persistence/src/command-executor.ts:277-296 | exactly the committed keys gain receipts, one each |
| `CommandRuns.LoggedEvents` | packages/persistence/src/command-executor.ts:256-275 | exactly the committed event identifiers gain events, one each |
| `CommandRuns.EntryStands` | packages/persistence/src/command-executor.ts:256-296 | each commit's receipt, event and outbox row are in the final tables as written |
| `CommandRuns.ReceiptsLast` | packages/persistence/src/command-executor.ts:160-191 | a receipt once present is present unchanged at the end of any run |
| `CommandRuns.CommitLeavesReceipt` | packages/persistence/src/command-executor.ts:277-303 | after a commit the receipt behind its answer is there for every later attempt |
| `CommandRuns.RepliesAgree` | packages/persistence/src/command-executor.ts:160-190 | a key commits at most once in a run, and a later answer for it repeats the first one as a replay |
| `CommandRuns.RetryIsAnswered` | packages/persistence/src/command-executor.ts:168-190 | an authenticated retry of a committed command is answered while its receipt lasts, refused as expired after, and refused as a mismatch for any other command under the key |
| `CommandRuns.OnlyIdsCollide` | packages/persistence/src/command-executor.ts:256-275 | on tables whose events lie within their guests' revisions, an insert can fail only for a reused event identifier or at the largest safe revision |
| `ClaimRows.ClaimStore.CheckClaim` | packages/persistence/src/account-claim.ts:541-612 | the checks, made one after the other on the tables, refuse with the first that fails |
| `ClaimRows.ClaimStore.Settle` | packages/persistence/src/account-claim.ts:618-675 | the inserts and updates for the player: its row and wallet when new, progress at the next revision, the session and the merge receipt, as `ClaimMovesEverything` and `ClaimExactly` write them out |
| `ClaimRows.ClaimStore.RewriteGuestRows` | packages/persistence/src/account-claim.ts:2453-2463 | one update per transferring table gives the player exactly the guest's rows of those tables |
| `ClaimRows.ClaimStore.ClaimGuest` | packages/persistence/src/account-claim.ts:541-682 | the whole transaction computes the specified claim, exact by `ClaimOutcomes.ClaimExactly`, and any failure leaves every table as it was |
| `ClaimRows.RowWorkLeavesNoReference` | packages/persistence/src/account-claim.ts:2465-2508 | after the rewrite and the revocations nothing restricts deleting the guest session |
| `ClaimSafety.ClaimMovesEverything` | packages/persistence/src/account-claim.ts:603-681 | a successful claim gives the player every receipt and event of the guest unchanged but for the owner, removes every other row of the guest, touches no row or challenge of anyone else, links the wallet to a player it creates and no wallet otherwise, and stores the merged progress at the next revision with one new session and one merge receipt |
| `ClaimOutcomes.ClaimExactly` | packages/persistence/src/account-claim.ts:541-683 | a claim succeeds exactly under these conditions and leads exactly there, table by table and without the step functions: rows moved, challenges closed, tombstones for claim, key, rows and challenges, the player's rows |
| `ClaimOutcomes.ConsumeExactly` | packages/persistence/src/account-claim.ts:2238-2258 | a challenge is consumed exactly while open, for its purpose, claim and hash and before its expiry, and then only it is marked, its hash and nonce buried for thirty days |
| `ClaimLaws.OnePlayerPerWallet` | packages/persistence/src/account-claim.ts:623-629 | over every run that leaves the wallet's row alone, after a claim that made its player no claim makes another for that wallet or reuses the claim's name, and a claim into that player fits its wallet if and only if the proof key is the one linked |
| `ClaimLaws.SpentStaysBuried` | packages/persistence/src/account-claim.ts:2465-2508 | for thirty days after a claim, whatever runs, everything it spent stays tombstoned |
| `ClaimLaws.NothingClaimedTwice` | packages/persistence/src/account-claim.ts:541-612 | so in that time no other claim succeeds with its name, its idempotency key, a challenge the guest had open or a capability digest the guest held |
| `ClaimSafety.ClaimFailsExactly` | packages/persistence/src/account-claim.ts:541-681 | a claim succeeds if and only if it passes the listed checks on proof, guest, target, challenge, tombstones, wallet link, revisions, capability, wallet, merge and unique keys, and guest and player share no idempotency key; past the checks the shared key is the only failure |
| `ClaimSafety.CollisionIsTheKey` | packages/persistence/migrations/0003_account_claim_persistence.sql:222-235 | on receipts that meet their primary key, moving the guest's to the player keeps the key if and only if the two share no idempotency key |
| `ClaimSafety.ClaimKeepsKeys` | packages/persistence/migrations/0003_account_claim_persistence.sql:222-235 | every successful claim leaves the receipts' primary key intact |
| `ClaimSafety.NewPlayersNeverCollide` | packages/persistence/migrations/0003_account_claim_persistence.sql:222-235 | a claim that creates its player never fails for a shared key |
| `ClaimSafety.SharedKeyBlocks` | packages/persistence/migrations/0003_account_claim_persistence.sql:222-235 | a concrete claim into an existing player that passes every check and fails because both used one idempotency key |
| `ClaimSafety.SpentOnce` | packages/persistence/src/account-claim.ts:2238-2258 | over every run a challenge is spent at most once, and only between its issue and its expiry |
| `Preflight.Preflight` | packages/domain/src/claim-protocol.ts:115-179 | the explicit stack with entry and exit frames accepts exactly the graphs a recursive definition accepts (no object below itself, shared objects allowed, nodes, depth, sizes and bytes in bounds), and always halts |
| `Preflight.EnterValue` | packages/domain/src/claim-protocol.ts:129-177 | one iteration keeps the active set equal to the ancestors of the frame on top and moves the right weight from the stack to the counters |
| `Preflight.ActiveSetIsRedundant` | packages/domain/src/claim-protocol.ts:117-149 | with its depth limit the check would accept exactly the same graphs without the active set |
| `Preflight.AcceptedIsAcyclic` | packages/domain/src/claim-protocol.ts:115-179 | an accepted graph is acyclic along every path, and no path holds more than 33 objects |
| `PreflightTrees.AcceptableExactly` | packages/domain/src/claim-protocol.ts:115-179 | a value passes if and only if it can be written out as one finite tree of sound parts, shared objects repeated, with at most 1024 nodes, 32 levels and 48 KiB of strings and names |
| `Preflight.ArrayLimit` | packages/domain/src/claim-protocol.ts:155-157 | because `length` is an own property, arrays stop at 127 items, not at the 256 of the array limit |
| `ClaimFraming.PreimagesDiffer` | packages/domain/src/claim-protocol.ts:411-466 | hash preimages made for different purposes or from different bytes are different |
| `ClaimFraming.EnvelopesDiffer` | packages/domain/src/claim-protocol.ts:395-403 | what a wallet signs for one challenge is never the beginning of what it signs for another |
| `ClaimFraming.ConcatDomain` | packages/domain/src/claim-protocol.ts:411-417 | the buffer is the domain's bytes followed by the message's |
| `ClaimFraming.WalletSigningBytes` | packages/domain/src/claim-protocol.ts:395-403 | the buffer is the tag, the big-endian length and the challenge bytes |
| `ClaimFraming.EnvelopeMeans` | packages/domain/src/claim-protocol.ts:395-403 | byte by byte: 05 01, the length as four digits to the base 256, the challenge |
| `ClaimFraming.PreimageMeans` | packages/domain/src/claim-protocol.ts:3-6 | byte by byte: the purpose's own line of text, and the message |
| `ClaimBase64.Base64Url32` | packages/domain/src/claim-protocol.ts:233-247 | a value passes if and only if it is the unpadded base64url encoding of 32 bytes |
| `ClaimBase64.IdempotencyKey` | packages/domain/src/claim-protocol.ts:206-226 | a key passes if and only if it is a version 4 UUID, or the encoding of 16 to 96 bytes that is not shaped like a UUID |
| `ClaimBase64.CanonicalIff` | packages/domain/src/claim-protocol.ts:233-247 | the texts that survive decoding and encoding are exactly the encodings, exactly those with no bits left over, and no two byte strings share one |
| `ClaimBase64.EncodeMeans` | packages/domain/src/claim-protocol.ts:233-247 | each character is the letter of its six bits: three bytes at a time read as one number, whose digits to the base 64 index the base64url alphabet of RFC 4648 |
| `ClaimBase64.UuidsExactly` | packages/domain/src/claim-protocol.ts:8-9 | the two UUID patterns, place by place |
| `ClaimBase64.UuidSpellsBytes` | packages/domain/src/claim-protocol.ts:206-211 | every UUID text is itself the encoding of 27 bytes, so only the shape test keeps the two kinds of key apart |
| `ClaimBytes.CanonicalBytesIff` | packages/domain/src/claim-protocol.ts:486-502 | a text is accepted for a message if and only if its parser keeps the message and the text is the one canonical text written for it |
| `ClaimBytes.CanonicalBytesRoundTrip` | packages/domain/src/claim-protocol.ts:372-392 | what is written for a message is read back as that message |
| `ClaimBytes.CanonicalExactly` | packages/domain/src/claim-protocol.ts:372-376 | canonical bytes exist if and only if the parser keeps a printable value whose text takes at most 65536 bytes |
| `SubstitutionGraph.Search.Visit` | packages/content/src/compile.ts:403-413 | one visit keeps the two colours sound, restores the path, and finishes the node when nothing was reported |
| `SubstitutionGraph.ReportsCycle` | packages/content/src/compile.ts:401-414 | the depth-first search reports an issue if and only if the graph has a cycle |
| `SubstitutionGraph.OrderedIsAcyclic` | packages/content/src/compile.ts:401-414 | a finishing order in which every edge leads backward rules out cycles |
| `ContentVariants.CompileVariants` | packages/content/src/compile.ts:369-414 | the pass over the variants finds nothing if and only if each variant is sound, no two expand alike and no chain of substitutions closes |
| `ContentSnapshots.VariantExactly` | packages/content/src/compile.ts:369-400 | a variant is sound if and only if it replaces, once per source, inputs of its base recipe by other known components, and its dish is made slot for slot of the inputs so replaced |
| `ContentVariants.WalkSubstitutions` | packages/content/src/compile.ts:377-391 | the loop over a variant's substitutions fills the source set, the replacement table and the graph exactly |
| `ContentVariants.EdgesAreOffers` | packages/content/src/compile.ts:386-388 | the graph has an edge for exactly the substitutions some variant offers |
| `ContentVariants.SubstitutionsNeverReturn` | packages/content/src/compile.ts:401-414 | in a compiled bundle, substituting along any variants in any combination never comes back to a component |
| `ContentVariants.VariantDish` | packages/content/src/compile.ts:392-396 | a variant's dish is, as a multiset of roles and components, the base recipe's inputs after substitution |
| `ContentVariants.SubstituteIsDeclared` | packages/content/src/compile.ts:292-396 | every allergen and cross-contact tag of a substitute's ingredients is on the variant's dish |
| `ContentBundle.CreateIndex` | packages/content/src/compile.ts:68-78 | the index maps each key to its first row and reports nothing exactly when keys are distinct |
| `ContentBundle.ContainsOrderedSteps` | packages/content/src/compile.ts:122-132 | the greedy one-cursor scan succeeds if and only if the required steps embed in order |
| `ContentCompiler.SignaturesAgree` | packages/content/src/compile.ts:107-109 | sorted signature lists agree if and only if the parts are the same multiset |
| `ContentCompiler.SignatureIsInjective` | packages/content/src/compile.ts:107-109 | a signature determines role and component |
| `ContentCompiler.GatheredIncludes` | packages/content/src/compile.ts:98-105 | derived facts hold every tag of every component |
| `ContentCompiler.GatheredOnly` | packages/content/src/compile.ts:98-105 | and no tag that is not some component's |
| `ContentGuarantees.CheckComponent` | packages/content/src/compile.ts:242-289 | the loops over a component's ingredients report nothing if and only if its references resolve, it repeats no ingredient, declares its notice by treatment and carries every ingredient's tags |
| `ContentGuarantees.CheckDish` | packages/content/src/compile.ts:292-318 | resolving the slots one by one and deriving the facts reports nothing if and only if the dish's facts are exactly those of its components |
| `ContentGuarantees.Compile` | packages/content/src/compile.ts:242-367 | the pass over components, dishes and recipes reports nothing if and only if the bundle is clean |
| `ContentClean.CleanExactly` | packages/content/src/compile.ts:242-367 | a bundle is clean if and only if no key repeats and, written out row by row: each component carries all tags of all its ingredients and the notice its treatment needs, each dish has in rising lists exactly the tags and the notice of its components, and each recipe makes its own dish from its parts in an order holding their steps |
| `ContentGuarantees.IngredientReachesDish` | packages/content/src/compile.ts:242-315 | in a clean bundle every allergen and cross-contact tag of every primary or preparation ingredient is on every dish using it |
| `ContentGuarantees.DishTagHasSource` | packages/content/src/compile.ts:299-314 | no tag of a dish is invented: each comes from one of its components |
| `ContentGuarantees.RawNoticeIsExact` | packages/content/src/compile.ts:275-318 | a dish carries the raw notice if and only if some component was treated in a way that requires one |
| `ContentGuarantees.RecipeMatchesDish` | packages/content/src/compile.ts:343-366 | recipe inputs and dish slots are the same multiset, and each component's steps occur in order in the recipe |
| `ContentGuarantees.RecipeTagsReachDish` | packages/content/src/compile.ts:242-366 | whatever goes into a recipe, its tags are on the dish the recipe makes |
| `ContentGuarantees.SnapshotNeverMisses` | packages/content/src/compile.ts:496-533 | taking a recipe's snapshot of a clean bundle fails if and only if the recipe is unknown |
| `ContentSnapshots.SnapshotExactly` | packages/content/src/compile.ts:496-533 | a snapshot is taken exactly when the recipe and everything it refers to has a row, and holds the recipe, its dish, and for each amount the component, ingredient and preparation rows of those very keys, in order |
| `ContentSnapshots.CanonicalMeans` | packages/content/src/compile.ts:52-57 | a list of tags is canonical if and only if it rises strictly |
| `ContentSnapshots.SampleCompiles` | packages/content/src/compile.ts:242-367 | clean bundles exist, with a snapshot to take |
| `Calendar.AcceptedDates` | packages/content/src/compile.ts:111-120 | the accepted dates are exactly the Gregorian ones from year 100 on; earlier years are read as the twentieth century and refused |
| `Calendar.CalendarOrder` | packages/content/src/compile.ts:111-120 | an earlier year, month and day is an earlier day number, and conversely |
| `Calendar.StringOrderIsDateOrder` | packages/content/src/seasonality.ts:25 | on accepted dates the order of the strings is the order of the days |
| `Gregorian.AcceptedExactly` | packages/content/src/compile.ts:111-120 | a string is accepted if and only if it is written YYYY-MM-DD and names a day of the Gregorian calendar from year 100 on, by the leap rule and the twelve month lengths; and its ordinal is that day's |
| `Gregorian.DayAfter` | packages/content/src/compile.ts:111-120 | the day after each date has the next number, across the ends of months and years |
| `Gregorian.EveryDayHasADate` | packages/content/src/compile.ts:111-120 | with 1970-01-01 as day zero every day number has a date |
| `Gregorian.OneDatePerDay` | packages/content/src/compile.ts:111-120 | and only one |
| `Seasonality.CountIssues` | packages/content/src/compile.ts:438-455 | the two checks on each window report nothing if and only if windows are positive, sorted by start, and overlapping ones agree |
| `Seasonality.EvaluationMeans` | packages/content/src/seasonality.ts:16-28 | on an accepted date evaluation fails if and only if two windows in force disagree, and otherwise says what they say |
| `Seasonality.EvaluationExactly` | packages/content/src/seasonality.ts:16-28 | the answer for every input: invalid date, no rule, windows that disagree, the availability shared by those from whose start on and before whose end the date lies, or unavailable |
| `Seasonality.CompiledRuleAnswers` | packages/content/src/seasonality.ts:16-28 | a rule that compiles never contradicts itself: on every accepted date it gives the availability of any window covering the day, and unavailable if none does |
| `ReceiptContract.ReceiptAuthority.SubmitReceipt` | contracts/receipt/samurai_sushi_receipt.py:207-281 | the assertions in order accept exactly the acceptable permits, those `GrantsExactly` writes out with their signature, and the three maps and the event change as specified or not at all |
| `ReceiptAuthorship.GrantsExactly` | contracts/receipt/samurai_sushi_receipt.py:207-255 | a permit is acceptable if and only if every assertion of the entry point holds, written out against the receipts instead of the two maps of used keys |
| `ReceiptAuthorship.StepExactly` | contracts/receipt/samurai_sushi_receipt.py:207-296 | every call leads exactly where its entry point writes: the receipt, nonce, pair and event of a granted permit, the pause flag, the revocation, or nothing |
| `ReceiptAuthorship.AddedWasSigned` | contracts/receipt/samurai_sushi_receipt.py:207-281 | over every run: a call that adds a receipt submitted a permit whose signature checks under the key its issuer had from the start, for the very hash filed; unpaused, unrevoked, with the policy version named, the sender as owner and source, this contract as destination, the pinned chain, content and manifest, and in time |
| `ReceiptAuthorship.ReceiptWasAdded` | contracts/receipt/samurai_sushi_receipt.py:207-281 | and every receipt not there at the start was added by one such call |
| `ReceiptAuthorship.OnlyAuthorities` | contracts/receipt/samurai_sushi_receipt.py:284-296 | only the pause controller pauses and resumes, and only the administrator revokes, only the issuer named and only once |
| `ReceiptRuns.RunKeepsOneToOne` | contracts/receipt/samurai_sushi_receipt.py:207-296 | over every run, receipts, used nonces, used owner-commitment pairs and events stay in one-to-one correspondence |
| `ReceiptRuns.RunExtends` | contracts/receipt/samurai_sushi_receipt.py:207-296 | no receipt, nonce, pair or event is ever altered or removed, and policies change by revocation only |
| `ReceiptRuns.OriginatedIsOneToOne` | contracts/receipt/samurai_sushi_receipt.py:174-204 | a contract just originated starts in that correspondence |
| `ReceiptRuns.RevocationIsFinal` | contracts/receipt/samurai_sushi_receipt.py:290-296 | a revoked issuer stays revoked, and no receipt under its key is ever added again |
| `ReceiptRuns.AcceptedInTime` | contracts/receipt/samurai_sushi_receipt.py:235-245 | every acceptance falls in [issued at - skew, issued at + maximum lifetime) and before the issuer's end of verification |
| `ReceiptRuns.AcceptedOnce` | contracts/receipt/samurai_sushi_receipt.py:251-272 | no nonce and no owner-commitment pair is accepted twice in a run |

## Left out

- Evening service: the legacy schema-1 checkpoint form, event payload fields, `assertBoundedJson`, and the envelope
  checks shared by all commands.
- EveningViews.Project: leaves out display references and the check that every reference shown is in the content manifest.
- EveningReached.PendingIsReached: for definitions whose first order is plated before the revision leaves the safe
  integers, which every JavaScript array allows.
- Sessions: each transaction takes one sample of the database clock, where the code takes several while it waits for
  locks; key-ring construction rules, public error codes and lock scopes are not modelled.
- SessionSafety.RunKeepsGraves: assumes that the keys of tombstones can still be recomputed for as long as the
  tombstones last.
- SessionRotation.OutgoingStaysBuried: excludes runs that recover the session itself, because recovery forgets the
  outgoing digest without burying it (`RecoveryForgetsPredecessor`); `OutgoingStops` covers every run.
- SessionRetry.RetryReturnsSame: assumes that a lapsed predecessor of the session is not itself a digest of the secret
  being rotated.
- SessionLogout.LogoutRepeats: assumes that the keys of the ring stay in it and are not retired; the code recognises a
  repetition under those keys only.
- SessionLogout.CurrentKeepsOpening: for secrets digested under the ring's first key; under a later key another session
  might be found first.
- SessionLogout.RotationDelivers: for rotations with the current secret; a repetition with the outgoing one returns the
  same secret (`RetryReturnsSame`).
- SessionStore.Store.Recover: the wallet proof and the recovery challenge arrive as one outcome.
- SessionStore.Store.ExpireSessions: takes the candidates of its query as an argument, in any order and number.
- SessionStore.Store.ExpirePredecessors: takes the candidates of its query as an argument, in any order and number.
- SessionStore.Store.DropReceipt: leaves out the merge receipt's own expiry and the tombstones of its identifiers.
- SessionStore.Store.PurgeUnavailable: takes the listing of digest rows in key order as its argument, because rows
  behind the cursor are the only ones the purge removes.
- SessionStore.Store.RemovePlayer: models the session rows and digests of the deletion; wallet, merge, command and
  challenge tombstones of a deleted player are not part of this model.
- ClaimRows.ClaimStore.ClaimGuest: the wallet proof, the guest's resume secret, the issue of the session secret and the
  recomputed capability digest arrive as outcomes; the random salt of the origin commitment is taken to be unused.
- ClaimLaws.OnePlayerPerWallet: assumes that the rest of the service leaves the wallet's row, which only the deletion of
  its player removes.
- ClaimSafety.SpentOnce: the answer given again for a claim already merged is not modelled, only the challenge.
- Commands: the retention of expired receipts is not modelled.
- CommandExecutor.GuestCommandExecutor.Run: the credential checks are one outcome on entry and one before the writes,
  and the two clock readings are one time.
- JSON: UTF-8, prototypes, accessors and array holes; a value is a tree.
- CanonicalJson.CanonicalText: restricted to integers and to trees, so the printer's cycle test never fires.
- JsonRoundTrip.RoundTrip: restricted to integers, because the text of other numbers is the platform's; the parser
  keeps such numbers as their lexemes.
- JsonNumbers.PrintedParseIsStable: number texts that only round to an integer are not counted as integers.
- ClaimBytes.CanonicalBytesIff: takes the platform's JSON reader as any function that agrees with the strict parser
  wherever that one accepts, and message parsers as any functions that accept what they return.
- ClaimBytes.CanonicalBytesRoundTrip: under the same assumptions on the reader and the message parsers.
- Claim protocol: the field patterns of the four messages, and hashing.
- Content: species, families, cut compatibility, art, review references, pack membership, content hashes, identity
  patterns and wildcards, preparation signatures, the seasoning rule and recipe quantities.
- ContentVariants.CompileVariants: compares expansions as values rather than by the text joined from their keys, and
  leaves out wildcard and review checks.
- ContentGuarantees.Compile: reports nothing exactly on clean bundles for the checks listed here; the code refuses
  more, so its accepted bundles are clean.
- Seasonality: subjects, time zones and review dates of a rule.
- Receipts: gas, storage costs and the views of a wallet.
- ReceiptContract.ReceiptAuthority.SubmitReceipt: says which permits are accepted, not which of several failing
  assertions is reported first.
- Locks, isolation levels, HTTP, cookies, React components, portable saves, scripts and deployment.
