# Evidence gate: a verified model

The program decides when a change proposed by a model may move forward. This
project models the parts of it that are state, order and bookkeeping, in Dafny,
and proves what they guarantee over all inputs and all runs.

| file | what it models |
|---|---|
| `JsonText.dfy`, `JsonLayout.dfy`, `CanonicalJson.dfy` | canonical JSON: the text format of RFC 8259 with a parser, what its layout is, and the canonicaliser over object graphs with cycle detection |
| `EventChain.dfy`, `LogMeaning.dfy`, `LogContract.dfy` | the hash-chained tournament log: the accepting automaton, its meaning, also by the names of types and members, tamper evidence, replay |
| `EventStore.dfy` | the log file: lines, splitting, the serialised append |
| `TournamentRunner.dfy` | the local tournament as a protocol that writes such a log |
| `Approvals.dfy`, `ValidationSession.dfy` | approvals, and the validation session with its twenty states |
| `SessionContract.dfy` | every transition written out: exactly when it is taken and which fields it sets |
| `SessionSafety.dfy`, `SessionRuns.dfy` | what every transition keeps, and what whole runs guarantee |
| `SessionReach.dfy`, `SessionWitness.dfy` | what sessions can become: readiness, repairs, unclean repairs, with closed instances |
| `SessionRefresh.dfy` | the freshness check of ready sessions, which writes them outside the transitions |
| `RunIdentifiers.dfy`, `Deliveries.dfy`, `LiveWorkflow.dfy` | the live driver: run identifiers, concurrent sandbox responses, restarts |
| `CaptureTiming.dfy` | the timing of a recorded run and the checks it passes |
| `RowDelta.dfy`, `RowPatch.dfy` | the row difference of two database states, used as a patch; snapshots |
| `GateFacts.dfy`, `References.dfy`, `DeltaContract.dfy` | the figures the hard gates judge by, and difference and figures by the names of tables and columns |
| `TrialRun.dfy` | the trial of a change plan in a transaction with a savepoint |
| `DatabaseApprovals.dfy`, `DatabaseSession.dfy` | the database session service |
| `RateLimiter.dfy` | the fixed-window limiter on database mutations |
| `Scorers.dfy`, `Selection.dfy` | the eight scorers with six-decimal rounding, and the selection of a winner |
| `Options.dfy`, `Order.dfy`, `Sorting.dfy`, `Decimal.dfy` | an option type, the order of strings, sorting, decimal numerals |

Code that computes by expressions is modelled by functions; code that updates
variables or objects by methods and classes, each proved equal to a function whose
properties are then proved as lemmas. Every throw is an explicit outcome (`None`,
`Refused`, …), never a precondition. Hashing is an arbitrary function on strings: what
depends on it holds unless two texts named in the statement differ and hash alike
(`EventChain.Clash`), or supposes a digest that tells the values compared apart
(`RowDeltas.TellsApart`); no digest is supposed injective. Case folding, patterns,
URLs, date parsing and `localeCompare` are parameters; of `localeCompare` it is
supposed that it orders the identifiers in use strictly and totally. Clocks, random
identifiers and server answers are arguments.

## Results worth knowing

- "No unclean attempt reaches publication" holds with a condition. A response that is
  not clean bars its session from publication, review and the repair loop for good
  exactly when it is no review repair, or the session has failed, or the response
  reuses an identity (`SessionRuns.UncleanResponseBarsExactly`). The other case does
  occur: a failed review repair leaves a live session in revalidation over an unclean
  history (`SessionWitness.UncleanTournamentRevalidates`); no publication follows from
  there either (`SessionRuns.UncleanNeverPublishes`), and all its unclean attempts are
  review repairs (`SessionRuns.UncleanIsRepair`).
- "A session is what its transitions make it" does not hold of the live driver. The
  freshness check of a ready session (`SessionRefresh.AfterRefresh`) writes it directly.
  A revoked session is one no transitions lead to (`SessionRefresh.RevokedIsUnreachable`);
  it accepts no event and its approval is valid for nothing
  (`SessionRefresh.RevokedIsFinal`). A refreshed session is one they lead to exactly when
  they would have accepted the new review and it passes
  (`SessionRefresh.RefreshedIsReachable`). The driver does not ask that: what it leaves
  unchecked is `SessionRefresh.UncheckedConditions`, and
  `SessionWitness.RefreshedTournamentMayBlock` is a ready session with a blocking finding.
- Appending does not check the event's own date. A log stays readable after an append
  exactly when that date parses (`EventStore.JsonlEventStore.Append`); once it does not,
  every later append is refused (`EventStore.UndatedEventShutsTheLog`), and the start of
  a tournament can be such an event (`TournamentRunner.UndatedStartIsStored`).
- The 0.95 gate on unit tests compares a rate rounded to six decimals. It is the exact
  gate below 100,000 tests and lets a lower rate pass from some count on; the exact
  condition is `Scorers.UnitGateExact`, and `Scorers.UnitGateRoundsUp` is an instance.
- In a closed interval of one minute twelve mutations can be admitted, not six; twelve
  is reached (`RateLimiter.TwelveIsReached`), and without the last instant of the
  interval the bound is eleven.
- A review by manual attestation names who attests, in a text that is not blank, exactly
  when it carries a name at all (`SessionRuns.ManualReviewNamesAttester`): the code only
  refuses a blank one. A session does become ready on a review that names nobody
  (`SessionWitness.UnnamedAttestationBecomesReady`); the client that builds such
  receipts always puts a name in.

## Model

| member | source | states |
|---|---|---|
| `CanonicalJson.NormalizeJson` | packages/domain/src/evidence.ts:5-53 | the recursion with the mutable `seen` set terminates on every finite graph, returns the normalised value or throws as the specification does, and leaves `seen` as it found it on a normal exit |
| `CanonicalJson.NormalizeArray` | packages/domain/src/evidence.ts:17-30 | items are normalised in order and the first failing one decides; `seen` is restored |
| `CanonicalJson.NormalizeObject` | packages/domain/src/evidence.ts:32-50 | members are taken in ascending key order, undefined ones skipped; `seen` is restored |
| `CanonicalJson.NormalizeGivesNormal` | packages/domain/src/evidence.ts:5-53 | what comes out lists every object's keys once, in ascending order, and holds only JSON numerals |
| `CanonicalJson.NormalizeDenotes` | packages/domain/src/evidence.ts:5-53 | what comes out is the JSON value the graph denotes, shared sub-objects included |
| `CanonicalJson.DenotedNormalizes` | packages/domain/src/evidence.ts:5-53 | a graph that denotes a normal JSON value is never refused and normalises to that value |
| `CanonicalJson.NormalizesExactly` | packages/domain/src/evidence.ts:5-53 | normalisation succeeds exactly on the graphs, of whatever shape, that denote a normal JSON value |
| `CanonicalJson.DenotesOne` | packages/domain/src/evidence.ts:5-53 | a graph denotes at most one JSON value |
| `CanonicalJson.KeyOrderIgnored` | packages/domain/src/evidence.ts:40-50 | neither key order nor undefined members matter |
| `CanonicalJson.ThrowsExactlyOnCycles` | packages/domain/src/evidence.ts:17-53 | on graphs whose leaves are JSON values it throws exactly when a path from the root comes back to an object already on it |
| `CanonicalJson.CanonicalReadsBack` | packages/domain/src/evidence.ts:55-57 | parsing the canonical text gives the normalised value back |
| `CanonicalJson.CanonicalInjective` | packages/domain/src/evidence.ts:55-57 | equal canonical texts come from graphs that denote the same value |
| `CanonicalJson.CanonicalIsIdempotent` | packages/domain/src/evidence.ts:55-57 | canonicalising again, from any graph that denotes the value the canonical text parses to, gives the same text |
| `JsonText.RoundTrip` | packages/domain/src/evidence.ts:55-57 | the printed text of a normal value parses, per RFC 8259, to that value |
| `JsonText.PrintInjective` | packages/domain/src/evidence.ts:55-57 | different normal values print differently |
| `JsonText.PrintHasNoControl` | packages/domain/src/evidence.ts:55-57 | the text holds no character below space, so no raw newline |
| `JsonText.CanonicalTextIsFixed` | packages/domain/src/evidence.ts:55-57 | any text that parses, in whatever layout, prints to a text of the same value |
| `JsonLayout.PrintIsShortest` | packages/domain/src/evidence.ts:55-57 | no text that parses to a value is shorter than the printed one: there is no white space outside strings and every character has its shortest escape |
| `JsonLayout.CanonicalIsShortest` | packages/domain/src/evidence.ts:55-57 | so is canonical text among all texts that parse to its value |
| `JsonLayout.PrintIsWellEscaped` | packages/domain/src/evidence.ts:55-57 | a backslash is followed by one of the short escapes or by `u00` and two lower-case hexadecimal digits |
| `JsonLayout.NumeralExactly` | packages/domain/src/evidence.ts:5-16 | numerals are exactly those of the JSON grammar: an optional minus, an integer without leading zeros, an optional fraction and an optional exponent |
| `Order.LessExactly` | packages/domain/src/evidence.ts:42 | of two different keys the one that is a prefix of the other, or smaller in the first character that differs, comes first |
| `EventChain.VerifyEventChain` | apps/orchestrator/src/event-store.ts:102-269 | the loop over mutable maps, sets and flags accepts exactly what the automaton accepts |
| `LogMeaning.AcceptedMeans` | apps/orchestrator/src/event-store.ts:102-269 | a log is accepted exactly when each event may follow the events before it, by a condition on those events alone |
| `LogMeaning.VerifierRecords` | apps/orchestrator/src/event-store.ts:103-109 | the verifier's maps and flags are exactly what the log contains |
| `LogContract.AcceptedExactly` | apps/orchestrator/src/event-store.ts:102-269 | the same by names: event types, payload members and provenance are written out, and every type has its own condition on the events before |
| `LogContract.ReadingsSpelled` | apps/orchestrator/src/event-store.ts:54-66 | a required field is the payload member of that name, a string that trimming does not empty |
| `LogContract.HashedTextReads` | apps/orchestrator/src/event-store.ts:46-48 | the text an event hash is taken of reads back as an object with exactly the eight members the hash covers, and the stored line has the hash as a ninth |
| `EventChain.AcceptedShape` | apps/orchestrator/src/event-store.ts:102-175 | acceptance is prefix-closed and an accepted log that is not empty opens with its only start event |
| `EventChain.AcceptedIsSound` | apps/orchestrator/src/event-store.ts:102-269 | sequence numbers, links and session are contiguous, a terminal event is last, sandboxes are distinct |
| `EventChain.PrefixAccepted` | apps/orchestrator/src/event-store.ts:102-269 | every prefix of an accepted log is accepted |
| `EventChain.HashCommits` | apps/orchestrator/src/event-store.ts:46-48 | an event hash identifies the event, or the two hashed texts clash |
| `EventChain.LastHashCommits` | apps/orchestrator/src/event-store.ts:134-148 | two accepted logs with the same last hash are the same log, or an event of one and an event of the other were hashed from texts that clash |
| `EventChain.ReplayAgrees` | apps/orchestrator/src/event-store.ts:342-427 | the replayed status, session, winner and candidates agree with the verifier's state after every accepted log |
| `EventChain.CompletedReplay` | apps/orchestrator/src/event-store.ts:376-427 | a completed replay holds exactly the three started candidates in distinct sandboxes and an eligible winner |
| `EventChain.ReplayedIsReported` | apps/orchestrator/src/event-store.ts:389-412 | every replayed candidate is, field by field, what its completion event reports |
| `EventChain.ReplayNeverOverwrites` | apps/orchestrator/src/event-store.ts:389-412 | no replayed candidate is ever overwritten |
| `LogContract.ReplayCarries` | apps/orchestrator/src/event-store.ts:376-388 | a replay of a log that is not empty has the session and the provenance of its first event |
| `LogContract.ReplayedWinnerIsNamed` | apps/orchestrator/src/event-store.ts:413-421 | a completed replay has the winner its last event names |
| `EventStore.LineReadsBack` | apps/orchestrator/src/event-store.ts:68-100 | a written line parses to its event exactly when the event passes the schema check, which is written out |
| `EventStore.ParseAll` | apps/orchestrator/src/event-store.ts:289-292 | parsing the lines stops at the first that fails |
| `EventStore.FileReadsBack` | apps/orchestrator/src/event-store.ts:276-296 | splitting the file on newlines recovers exactly the appended events |
| `EventStore.FileTextAppend` | apps/orchestrator/src/event-store.ts:331 | appending a line to the file is appending an event to the log |
| `EventStore.StampedExactly` | apps/orchestrator/src/event-store.ts:307-325 | the appended event has the fields of the input, the next number, the last hash and, unless the input says otherwise, the provenance of local test evidence |
| `EventStore.AppendsExtend` | apps/orchestrator/src/event-store.ts:298-339 | appends are served one after the other, and a refused one changes nothing |
| `EventStore.JsonlEventStore.ReadAll` | apps/orchestrator/src/event-store.ts:276-296 | everything appended is read back, and nothing else |
| `EventStore.JsonlEventStore.Append` | apps/orchestrator/src/event-store.ts:298-339 | an append succeeds exactly when the stamped event keeps the log accepted; a rejected one leaves file and store as they were |
| `EventStore.UndatedEventShutsTheLog` | apps/orchestrator/src/event-store.ts:298-339 | once an event is stored whose own date does not parse, the log can never be read back and every later append is refused |
| `TournamentRunner.RunIsAccepted` | apps/orchestrator/src/local-tournament.ts:764-940 | whatever the interleaving of the three candidates, the log of a run is accepted and the verifier's state is the runner's |
| `TournamentRunner.RunEndsOnce` | apps/orchestrator/src/local-tournament.ts:827-939 | every prefix is accepted and a finished run has exactly one terminal event, its last |
| `TournamentRunner.EmissionFollows` | apps/orchestrator/src/local-tournament.ts:549-690 | each emitted event is accepted, except a decision that names no winner |
| `TournamentRunner.DecideFollows` | apps/orchestrator/src/local-tournament.ts:903-912 | a decision is accepted exactly when it names an eligible candidate |
| `TournamentRunner.AbortIsAccepted` | apps/orchestrator/src/local-tournament.ts:929-939 | a run that is not over can always log its failure, also after a rejected decision |
| `TournamentRunner.RunLocalTournament` | apps/orchestrator/src/local-tournament.ts:764-940 | run against the store, exactly the decisions without a winner are refused and the file stays readable |
| `TournamentRunner.FullRun` | apps/orchestrator/src/local-tournament.ts:801-900 | a run that begins, runs and concludes all three candidates is one the runner takes, whatever the verdicts |
| `TournamentRunner.DecidesExactly` | apps/orchestrator/src/local-tournament.ts:903-939 | then it decides for each eligible candidate and for nobody exactly when there is none, may still give up, and does nothing after that |
| `TournamentRunner.UndatedStartShutsTheLog` | apps/orchestrator/src/event-store.ts:298-339 | any start that opens a tournament is stored without a look at its date; if that does not parse, the store is shut |
| `TournamentRunner.UndatedStartIsStored` | apps/orchestrator/src/event-store.ts:298-339 | such a start exists, whatever the hash |
| `Approvals.CreatedApprovalBinds` | packages/domain/src/approval.ts:29-89 | a new approval is valid exactly for an approving decision on the binding it was made for, or on one with another target when the texts of the two targets clash and those of the two bindings do |
| `Approvals.ValidForOneBinding` | packages/domain/src/approval.ts:67-89 | an approval is valid for at most one binding, unless the texts of two targets clash |
| `Approvals.InvalidationIsFinal` | packages/domain/src/approval.ts:91-111 | invalidation keeps what is valid, ends what is not for good, and keeps the first time |
| `Approvals.TargetDigestCommits` | packages/domain/src/approval.ts:86-87 | the target digest identifies the target or its absence, or the two texts clash |
| `Approvals.TextsRead` | packages/domain/src/approval.ts:25-27 | the digested texts read back as objects that hold each bound field under its own name; a missing target is null on its own and no member of a binding |
| `SessionSafety.StepKeeps` | packages/domain/src/state-machine.ts:642-1002 | every transition keeps the whole invariant |
| `SessionSafety.RunKeeps` | packages/domain/src/state-machine.ts:145-182 | every session reachable from a created one satisfies it |
| `SessionSafety.CreatedIsFresh` | packages/domain/src/state-machine.ts:145-182 | a session as created is a start the run theorems apply to |
| `SessionSafety.RecordKeeps` | packages/domain/src/state-machine.ts:670-741 | recording a response keeps it, whether the response is new, reuses an identity or reaches a failed session |
| `SessionSafety.SelectKeeps` | packages/domain/src/state-machine.ts:845-882 | selection binds candidate, patch, evidence, commit and tree to an accepted receipt |
| `SessionSafety.PullRequestKeeps` | packages/domain/src/state-machine.ts:883-916 | a pull request on record is the accepted one at the approved head |
| `SessionSafety.FindingsKeep` | packages/domain/src/state-machine.ts:433-483 | the review on record is bound to that head, and passes exactly without blocking findings |
| `SessionSafety.RepairKeeps` | packages/domain/src/state-machine.ts:919-959 | starting a repair keeps the approval tied to the evidence it was given for |
| `SessionSafety.RevalidateKeeps` | packages/domain/src/state-machine.ts:960-989 | a passed revalidation rebinds the session to the receipt |
| `SessionSafety.RepairAttemptFound` | packages/domain/src/state-machine.ts:315-346 | an accepted repair receipt has its completed review-repair attempt in the history |
| `SessionContract.CandidatesTaken` | packages/domain/src/state-machine.ts:794-807 | candidates are taken exactly while they are generated, without repeats, one or for a tournament three at least |
| `SessionContract.SandboxesTaken` | packages/domain/src/state-machine.ts:808-838 | sandboxes are taken exactly when every candidate has one of its own with a non-blank name and, in a live session, a completed first attempt ran in it |
| `SessionContract.ResponseTaken` | packages/domain/src/state-machine.ts:670-741 | which responses are taken, and state, history, marks and failure after each, written out |
| `SessionContract.SelectionReceiptTaken` | packages/domain/src/state-machine.ts:574-624 | a selection receipt is accepted exactly when its session, policy, candidate, digests, commit, run and sandbox are those of the selection and one completed attempt, and its six gates each passed |
| `SessionContract.SelectionTaken` | packages/domain/src/state-machine.ts:845-882 | a selection is taken exactly in the selecting state for a known candidate with well-formed digests and, live, such a receipt; all fields it sets |
| `SessionContract.ApprovalTaken` | packages/domain/src/state-machine.ts:743-757 | an approval is taken exactly while one is awaited, of this session and the selected candidate |
| `SessionContract.RequestTaken` | packages/domain/src/state-machine.ts:758-767 | publication is requested exactly with a target, a clean history and a standing approval of what the session binds |
| `SessionContract.PullRequestTaken` | packages/domain/src/state-machine.ts:883-916 | a pull request is taken exactly when it is open, canonical, for the target and the selected candidate, on the ingested base, at the approved commit and tree |
| `SessionContract.ReviewFitsExactly` | packages/domain/src/state-machine.ts:433-483 | every condition on a review receipt and its findings, each written out |
| `SessionContract.ReviewTaken` | packages/domain/src/state-machine.ts:768-786 | a review that fits is taken exactly while it is awaited, and leads to the state its verdict says |
| `SessionContract.RepairTaken` | packages/domain/src/state-machine.ts:919-959 | a generated repair is taken exactly while findings are repaired; it drops commit and tree and holds the approval against the new binding |
| `SessionContract.RepairReceiptTaken` | packages/domain/src/state-machine.ts:485-572 | a repair receipt is accepted exactly when candidate, patch, evidence, commit, tree, run and sandbox are as required, new where they must be, and its six gates each passed |
| `SessionContract.RevalidationTaken` | packages/domain/src/state-machine.ts:960-989 | such a receipt is taken exactly while revalidating, counts a round and rebinds the session |
| `SessionContract.FailedGateIsRefused` | packages/domain/src/state-machine.ts:488-496 | a receipt with any of the six gates failed is refused, at selection in a live session and at revalidation |
| `SessionContract.ReadyTaken` | packages/domain/src/state-machine.ts:250-305 | a session is marked ready exactly when each condition of the last gate holds, written out |
| `SessionContract.PlainStepTaken` | packages/domain/src/state-machine.ts:787-1002 | the eight steps without conditions, each from its one state to its one state |
| `SessionContract.EndTaken` | packages/domain/src/state-machine.ts:645-662 | failing and cancelling are possible exactly until the session has ended, and what they record |
| `SessionContract.InvalidationSpelled` | packages/domain/src/approval.ts:91-111 | an approval held against a binding stays exactly when it is absent, stale already, or an approving one whose digests and five bound fields are those of the binding |
| `SessionContract.CreatedFields` | packages/domain/src/state-machine.ts:145-182 | every field of a session as created |
| `SessionRuns.ReviewPassedIsReady` | packages/domain/src/state-machine.ts:250-305 | in a reachable session that passed review every condition of the last gate holds, so marking it ready is never refused |
| `SessionRuns.ReadyIsEarned` | packages/domain/src/state-machine.ts:883-1002 | a ready or completed session carries a standing approval of what it binds, an open pull request at that commit on the ingested base, a passing review of that head and no unresolved high or critical finding; a live one also a receipt with six passed gates, its tree and sandbox, one completed attempt of its candidate, run and sandbox, and no attempt whose sandbox was left behind |
| `SessionRuns.BlockedIsWarranted` | packages/domain/src/state-machine.ts:433-483 | a review blocks only on an unresolved finding of high or critical severity |
| `SessionRuns.ManualReviewNamesAttester` | packages/domain/src/state-machine.ts:440-444 | an accepted review by manual attestation names a non-blank attester exactly when it carries a name |
| `SessionRuns.ReadyApprovalIsExact` | packages/domain/src/approval.ts:67-89 | with digests of the canonical text that approval is bound to exactly the current binding, or the texts of the two targets clash |
| `SessionRuns.RevalidationSpendsApproval` | packages/domain/src/state-machine.ts:960-989 | after a passed revalidation the carried-over approval is invalidated, also when the patch digest is unchanged, and evidence and head commit are new |
| `SessionRuns.RequestFollowsApproval` | packages/domain/src/state-machine.ts:743-767 | without a usable approval, only approvals can precede the next request, and the last of them is valid for the current binding |
| `SessionRuns.RepairNeedsNewApproval` | packages/domain/src/state-machine.ts:743-767 | in every run a new approval of the revalidated evidence, patch and commit lies between a passed revalidation and the next request to publish |
| `SessionRuns.SelectionNeedsApproval` | packages/domain/src/state-machine.ts:743-767 | the same between the selection and the first request |
| `SessionRuns.HistoryStaysUnique` | packages/domain/src/state-machine.ts:670-741 | the history only grows, by one entry for each response; outside failure all attempts are reserved with pairwise distinct sandboxes and runs |
| `SessionRuns.MarksNameTheReuse` | packages/domain/src/state-machine.ts:699-728 | each mark says exactly which identity an earlier attempt had, and only a failed attempt whose sandbox is gone is retryable |
| `SessionRuns.FailureIsFinal` | packages/domain/src/state-machine.ts:645-662 | a failed session stays failed, keeps its first failure and takes only further responses |
| `SessionRuns.RoundsAreDistinctAttempts` | packages/domain/src/state-machine.ts:528-532 | passed repair rounds are counted, inject into distinct completed review-repair attempts, and none ran in a sandbox of the selection |
| `SessionRuns.ResponsesFitTheirStage` | packages/domain/src/state-machine.ts:670-683 | a response is taken only from a live session, for a known candidate, while the stage of its purpose runs or once the session failed in it |
| `SessionRuns.RepairsComeLast` | packages/domain/src/state-machine.ts:670-741 | in every run the attempts of the selection all come before those of repairs |
| `SessionRuns.UncleanNeverPublishes` | packages/domain/src/state-machine.ts:234-248 | once a live history holds an unclean attempt no later state is one of publication, review or readiness |
| `SessionRuns.UncleanIsRepair` | packages/domain/src/state-machine.ts:670-683 | in every run the attempts that are not clean, while a live session repairs or revalidates, were all made by review repairs |
| `SessionRuns.UncleanBarsExactly` | packages/domain/src/state-machine.ts:234-248 | a session with an unclean live history can never again be in a state from publication on, repair loop included, exactly when it is not in the repair loop already |
| `SessionRuns.UncleanResponseBarsExactly` | packages/domain/src/state-machine.ts:670-741 | an accepted response that is not clean has that effect exactly when it is no review repair, or the session has failed, or it reuses an identity |
| `SessionRuns.RepairMayHoldUnclean` | packages/domain/src/state-machine.ts:737-740 | a failed review repair in a sandbox of its own leaves the repair loop running over an unclean history |
| `SessionRuns.StepExtends` | packages/domain/src/state-machine.ts:633-640 | no transition changes what the session is about |
| `SessionRuns.RunExtends` | packages/domain/src/state-machine.ts:670-741 | the history counts the recorded responses and the rounds the passed revalidations |
| `SessionReach.ReviewIsReachable` | packages/domain/src/state-machine.ts:787-918 | with suitable inputs every new session, live or not, with one candidate or several, gets the review of its first change |
| `SessionReach.ReadyIsReachable` | packages/domain/src/state-machine.ts:787-1002 | with suitable inputs and a passing review every new session, live or not, becomes ready to merge without a repair |
| `SessionReach.RepairIsReachable` | packages/domain/src/state-machine.ts:919-1002 | every reachable blocked live session becomes ready, at the repaired commit and tree, with a suitable repair: a recorded attempt, a passed revalidation, a new approval and a second pull request |
| `SessionReach.UncleanRepairIsReachable` | packages/domain/src/state-machine.ts:670-741 | every reachable blocked live session can come to revalidate over an unclean history |
| `SessionWitness.LiveTournamentBecomesReady` | packages/domain/src/state-machine.ts:787-1002 | a live tournament does become ready after its first review |
| `SessionWitness.RepairedTournamentBecomesReady` | packages/domain/src/state-machine.ts:919-1002 | a live tournament does become ready after exactly one passed revalidation |
| `SessionWitness.UncleanTournamentRevalidates` | packages/domain/src/state-machine.ts:737-740 | a live tournament does come to revalidate over an unclean history |
| `SessionWitness.UnnamedAttestationBecomesReady` | packages/domain/src/state-machine.ts:440-444 | a live tournament does become ready on a manual attestation that names nobody |
| `SessionRefresh.RefreshedIsReachable` | apps/orchestrator/src/live-workflow.ts:2565-2580 | a ready session with another review written in is one that transitions lead to exactly when they would accept that review and it passes |
| `SessionRefresh.UncheckedConditions` | packages/integrations/src/coderabbit.ts:151-198 | of a confirming inspection the driver leaves unchecked exactly that it is of the pull request and base on record, that its evidence identifiers, link and time are well formed, and that its findings are bound to it and do not block |
| `SessionRefresh.CheckedExactly` | apps/orchestrator/src/live-workflow.ts:2494-2594 | which answer a check gives on which inspection, and every field it writes |
| `SessionRefresh.RevokedIsUnreachable` | apps/orchestrator/src/live-workflow.ts:2525-2555 | no run of transitions leads to a revoked session |
| `SessionRefresh.RevokedIsFinal` | apps/orchestrator/src/live-workflow.ts:2525-2555 | a revoked session accepts no event, and its approval is valid for no binding |
| `SessionRefresh.DrivenStep` | packages/domain/src/state-machine.ts:642-1002 | transitions lead from what the driver's sessions can be to what they can be |
| `SessionRefresh.DrivenRefresh` | apps/orchestrator/src/live-workflow.ts:2494-2594 | so do freshness checks, whatever the inspection reports, and they leave history and identity alone |
| `SessionRefresh.DrivenReadyExactly` | apps/orchestrator/src/live-workflow.ts:2565-2580 | a ready or completed session of the driver is one that transitions lead to exactly when they would accept the review on its record and it passes |
| `SessionRefresh.DrivenPublicationIsEarned` | apps/orchestrator/src/live-workflow.ts:2494-2594 | whatever checks came before, its approval, pull request and live evidence are earned |
| `SessionWitness.RefreshedTournamentMayBlock` | apps/orchestrator/src/live-workflow.ts:2565-2580 | a check can leave a live tournament ready over a finding that blocks, a session no transitions lead to |
| `SessionWitness.RefreshedTournamentMayBeRevoked` | apps/orchestrator/src/live-workflow.ts:2525-2555 | a check does revoke a live tournament when the head moved |
| `RunIdentifiers.RunNumberOfRunId` | apps/orchestrator/src/live-workflow.ts:690-708 | reading the zero-padded number of an issued name back gives the number |
| `RunIdentifiers.RunIdInjective` | apps/orchestrator/src/live-workflow.ts:707 | no two sessions and no two numbers share a name |
| `RunIdentifiers.RunIdText` | apps/orchestrator/src/live-workflow.ts:707 | a name is the session, the mark and the number in at least six digits |
| `RunIdentifiers.RunNumberExactly` | apps/orchestrator/src/live-workflow.ts:695-697 | a number is read exactly from names that end in the mark and digits |
| `LiveWorkflows.LiveWorkflow.NextDaytonaRunId` | apps/orchestrator/src/live-workflow.ts:690-708 | the name has the number after the highest recorded or issued for the session, and is new among all issued ones and among those recorded for any session, restarts included |
| `LiveWorkflows.HighestRunBounds` | apps/orchestrator/src/live-workflow.ts:691-699 | the floor is at least every recorded number |
| `LiveWorkflows.HighestRunIsRecorded` | apps/orchestrator/src/live-workflow.ts:691-699 | and it is one of them, or none is above zero |
| `LiveWorkflows.LiveWorkflow.AppendDaytonaAttempt` | apps/orchestrator/src/live-workflow.ts:641-688 | diverged histories are refused, and a recorded response goes into the session and the persisted history together |
| `LiveWorkflows.LiveWorkflow.Reserve` | apps/orchestrator/src/live-workflow.ts:560-639 | a reply bound to its call is recorded and an unconfirmed deletion fails the session; for an aligned session the divergence error does not arise |
| `LiveWorkflows.LiveWorkflow.Settle` | apps/orchestrator/src/live-workflow.ts:1161-1207 | handling one reply to a call under an issued name leaves every session one that transitions and freshness checks lead to from a fresh session, with the persisted history as its own and every recorded run issued |
| `LiveWorkflows.AcceptedExactly` | apps/orchestrator/src/live-workflow.ts:1161-1207 | a reply is used exactly when it is recordable, the session has not failed, and its sandbox and run are new to the history |
| `LiveWorkflows.LiveWorkflow.SettleAll` | apps/orchestrator/src/live-workflow.ts:1145-1262 | so does handling the replies of concurrent calls in any order of completion |
| `LiveWorkflows.LiveWorkflow.StartTournament` | apps/orchestrator/src/live-workflow.ts:933-1060 | a start succeeds exactly when no such session exists and every earlier attempt is clean, and begins a session over those attempts |
| `LiveWorkflows.LiveWorkflow.Apply` | apps/orchestrator/src/live-workflow.ts:1061-1075 | other transitions leave the histories equal |
| `LiveWorkflows.LiveWorkflow.Abandon` | apps/orchestrator/src/live-workflow.ts:976-987 | a start that throws drops its session and keeps the attempts it recorded |
| `LiveWorkflows.LiveWorkflow.RefreshReadyToMerge` | apps/orchestrator/src/live-workflow.ts:2494-2594 | the check gives its answer exactly, rewrites or revokes the ready session, and keeps all histories equal and all names new |
| `LiveWorkflows.DrivenReadyIsEarned` | apps/orchestrator/src/live-workflow.ts:1061-1075 | a ready or completed session of the driver has earned its approval, pull request and live evidence; its review too exactly when transitions would accept the review on record and it passes |
| `LiveWorkflows.RestartIsFresh` | apps/orchestrator/src/live-workflow.ts:938-975 | a restart over clean attempts is a session all run theorems apply to |
| `Deliveries.EachRecordedOnce` | apps/orchestrator/src/live-workflow.ts:1145-1262 | in every order of completion the recordable replies, and no others, are recorded, each once |
| `Deliveries.RecordableExactly` | apps/orchestrator/src/live-workflow.ts:560-623 | a reply is recordable exactly when it is bound to its call and its fields are valid; a failed attempt also when its sandbox was not deleted |
| `Deliveries.FailsExactly` | apps/orchestrator/src/live-workflow.ts:592-639 | the session fails exactly when a deletion stays unconfirmed or an identity repeats |
| `Deliveries.FailsOnDisposition` | apps/orchestrator/src/live-workflow.ts:622-636 | replies fail a session exactly when a recorded response reports a failed cleanup or a retained sandbox, or an identity repeats |
| `Deliveries.FirstFailureIsRecorded` | apps/orchestrator/src/live-workflow.ts:625-635 | the failure on record is that of the first such reply, with its reason, retry action and stage, whatever replies follow |
| `Deliveries.ResponseSpelled` | apps/orchestrator/src/live-workflow.ts:560-621 | the response on record is for the call's candidate, run and purpose, and only a failed attempt whose sandbox is gone may be retried |
| `Deliveries.OrderDoesNotMatter` | apps/orchestrator/src/live-workflow.ts:1145-1262 | neither which responses are recorded nor whether the session fails depends on the order of completion |
| `Deliveries.MarksAreExact` | packages/domain/src/state-machine.ts:699-728 | no attempt is marked exactly when all identities are distinct |
| `CaptureTiming.BuildEvents` | apps/orchestrator/src/live-workflow.ts:2318-2338 | for any progress instants, in order or not, the events tile the run |
| `CaptureTiming.CaptureRun` | apps/orchestrator/src/live-workflow.ts:2148-2176 | a capture throws exactly on an instant that is no date, and otherwise passes every timing check |
| `CaptureTiming.SpanContains` | apps/orchestrator/src/live-workflow.ts:2148-2173 | the run spans every instant and provider duration it reads, so it never ends before it starts |
| `CaptureTiming.SpanIsTight` | apps/orchestrator/src/live-workflow.ts:2148-2167 | it begins with the first of the instants it can begin with and ends with the last of those it can end with |
| `CaptureTiming.OffsetIsGreatest` | apps/orchestrator/src/live-workflow.ts:2318-2322 | an offset is the greatest distance from the start so far, and never negative |
| `CaptureTiming.TilingSums` | apps/orchestrator/src/live-workflow.ts:2318-2338 | the first offset and all durations add up to the run |
| `CaptureTiming.TilingIsAccepted` | packages/domain/src/recorded-live.ts:482-521 | a tiling always passes the checker |
| `CaptureTiming.AssertEventSequence` | packages/domain/src/recorded-live.ts:482-521 | the loop with the previous offset decides the sequence condition |
| `CaptureTiming.ValidateTiming` | packages/domain/src/recorded-live.ts:523-555 | the timing checks accept exactly captures whose providers, cleanups and events lie within the run |
| `CaptureTiming.TimingExactly` | packages/domain/src/recorded-live.ts:482-555 | what those checks ask of providers, events and resources, written out |
| `RowDeltas.ComputeRowDelta` | apps/orchestrator/src/row-delta.ts:40-85 | the nested loops compute the difference and throw exactly on a row without identifier |
| `RowDeltas.MapRows` | apps/orchestrator/src/row-delta.ts:51-56 | a later row of the same identifier replaces an earlier one |
| `RowDeltas.DeltaIsExact` | apps/orchestrator/src/row-delta.ts:40-85 | the difference lists exactly the rows that differ, strictly ordered by table and identifier |
| `DeltaContract.EntryExactly` | apps/orchestrator/src/row-delta.ts:40-85 | an entry is in the difference exactly when it shows the last rows of its identifier before and after, these differ, and its kind says which of them exist |
| `RowPatches.DeltaTakesBeforeToAfter` | apps/orchestrator/src/row-delta.ts:40-85 | applied as a patch, which checks each old row, it takes the state before to the state after |
| `RowPatches.DeltaInverts` | apps/orchestrator/src/row-delta.ts:40-85 | the difference in the other direction is its exact inverse and undoes it |
| `RowPatches.ApplyChangesTouched` | apps/orchestrator/src/row-delta.ts:61-81 | a patch changes just the rows it names |
| `RowPatches.CreateDatabaseStateSnapshot` | apps/orchestrator/src/row-delta.ts:25-38 | the loop sorts every table, and throws exactly when a table of two rows or more holds one without identifier |
| `RowPatches.SnapshotIgnoresRowOrder` | apps/orchestrator/src/row-delta.ts:25-38 | a snapshot does not depend on the order in which rows were read |
| `RowPatches.EmptyDeltaIffSameDigest` | apps/orchestrator/src/row-delta.ts:25-85 | for the same table names the difference is empty exactly when the digests agree, if the digest tells the two snapshots apart |
| `GateFacts.InventoryUnitsAgree` | apps/orchestrator/src/mysql-runner.ts:377-384 | the units gained are the quantity changes the difference lists |
| `DeltaContract.InventoryByName` | apps/orchestrator/src/mysql-runner.ts:377-384 | the same for the `quantity` columns of `inventory_item` |
| `DeltaContract.ColumnsSpelled` | apps/orchestrator/src/mysql-runner.ts:128-139 | which number a column holds and what it prints as, case by case |
| `GateFacts.SumIsTotal` | apps/orchestrator/src/mysql-runner.ts:141-143 | a column sum that does not throw is the total of the quantities |
| `GateFacts.ProtectedOrdersAgree` | apps/orchestrator/src/mysql-runner.ts:327-344 | the changed protected orders are the updated and deleted orders of the difference whose old state is protected |
| `DeltaContract.ProtectedByName` | apps/orchestrator/src/mysql-runner.ts:327-344 | the same for updated and deleted rows of `order_header` by their old `status` |
| `GateFacts.OverAllocatedRows` | apps/orchestrator/src/mysql-runner.ts:310-325 | the count is the number of items whose grouped allocations exceed the stock, which is -1 for an absent item |
| `DeltaContract.OverAllocatedSpelled` | apps/orchestrator/src/mysql-runner.ts:310-325 | an item counts exactly when an allocation names it as `inventory_item_id` and its total exceeds its stock |
| `DeltaContract.GroupTotalGrows` | apps/orchestrator/src/mysql-runner.ts:317-321 | the total of an item is nothing at first and grows by the `quantity` of each allocation of it |
| `DeltaContract.StockSpelled` | apps/orchestrator/src/mysql-runner.ts:311-316 | the stock is the `quantity` of the last row with that `id`, and -1 without one |
| `GateFacts.GroupAllocations` | apps/orchestrator/src/mysql-runner.ts:317-321 | the grouping loop totals every item's allocations |
| `GateFacts.InventoryQuantities` | apps/orchestrator/src/mysql-runner.ts:311-316 | the last row of an identifier gives its stock |
| `GateFacts.NoneOverAllocated` | apps/orchestrator/src/mysql-runner.ts:322-325 | the count is zero exactly when every item's allocations fit its stock |
| `GateFacts.LotsAndSerialsAgree` | apps/orchestrator/src/mysql-runner.ts:389-398 | nothing is lost exactly when the difference touches neither lots nor serial numbers |
| `DeltaContract.LotsByName` | apps/orchestrator/src/mysql-runner.ts:389-398 | the same by the names `lot` and `serial_number` |
| `GateFacts.TouchedScopes` | apps/orchestrator/src/mysql-runner.ts:355-366 | the loops collect exactly the warehouses and tenants the difference names |
| `GateFacts.ScopeTouched` | apps/orchestrator/src/mysql-runner.ts:355-366 | a scope is touched exactly when a row that differs names it before or after |
| `DeltaContract.ScopesSpelled` | apps/orchestrator/src/mysql-runner.ts:355-366 | an entry touches a scope exactly when its row before or after holds it as text |
| `References.CountReferentialViolations` | apps/orchestrator/src/mysql-runner.ts:237-308 | the counting loops count the rows of the logistics tables that break a check, and count none exactly when every reference resolves |
| `References.NoViolations` | apps/orchestrator/src/mysql-runner.ts:237-308 | for any list of checks the count is zero exactly when every row satisfies every check |
| `References.NoLogisticsViolations` | apps/orchestrator/src/mysql-runner.ts:237-308 | for the logistics tables that is when each of their twenty-one columns names a row of its target, or is null where that is allowed |
| `DeltaContract.ViolationsCounted` | apps/orchestrator/src/mysql-runner.ts:237-308 | each row counts once per check, exactly when one of the check's columns does not refer |
| `DeltaContract.ResolvesSpelled` | apps/orchestrator/src/mysql-runner.ts:233-243 | a column refers exactly when some row of the target has what it prints as `id`, or it may be null and is |
| `DeltaContract.ChecksSpelled` | apps/orchestrator/src/mysql-runner.ts:237-308 | the ten checks by table and number of columns |
| `TrialRuns.ExecuteStatements` | apps/orchestrator/src/mysql-runner.ts:196-231 | statements run in order and the loop gives up exactly on a failed call, on returned rows or above a row limit, with nothing durable changed |
| `TrialRuns.PlanExactly` | apps/orchestrator/src/mysql-runner.ts:196-231 | a plan ends in a state with certain row counts exactly when its statements lead there one after the other, each changing rows within its own limit |
| `TrialRuns.Attempt` | apps/orchestrator/src/mysql-runner.ts:454-524 | a trial completes exactly when no call fails and baseline, preconditions, both runs, the rollback plan and the computing of its evidence allow it; it has then observed one run, a second run and, from the restored once-applied state, the rollback plan |
| `TrialRuns.RunLocalMysqlCandidate` | apps/orchestrator/src/mysql-runner.ts:416-531 | whatever fails and wherever, the durable contents stay and no transaction stays open; the trial completes exactly then, and on a server whose calls all go through no call fails |
| `TrialRuns.GatesGiveRepeatableRollback` | apps/orchestrator/src/mysql-runner.ts:408-412 | when both gates pass, any number of runs ends where one does and the rollback plan restores the baseline from there |
| `TrialRuns.GatesAreExact` | apps/orchestrator/src/mysql-runner.ts:408-412 | they pass only then |
| `DatabaseApprovals.ValidForOwnBinding` | packages/domain/src/database-approval.ts:31-55 | an approval is valid exactly for an approving decision on its own binding, or on one whose text clashes with its own |
| `DatabaseApprovals.BindingDigestCommits` | packages/domain/src/database-approval.ts:25-29 | the binding digest identifies the binding, or the two texts clash |
| `DatabaseApprovals.BindingTextReads` | packages/domain/src/database-approval.ts:25-29 | the digested text reads back as an object of ten members, each bound field under its own name |
| `DatabaseApprovals.EvidenceTextsRead` | apps/web/server/database-session-service.ts:409-412 | so do the texts of the first and the later evidence digests |
| `DatabaseApprovals.RevisionsDiffer` | apps/web/server/database-session-service.ts:494-498 | the evidence of two revisions is hashed from different texts, whatever else they hold |
| `DatabaseApprovals.FirstDiffers` | apps/web/server/database-session-service.ts:409-412 | no revision's evidence is hashed from the text of the start |
| `DatabaseSessions.EvidenceTextsDiffer` | apps/web/server/database-session-service.ts:481-498 | all evidence digests a session ever has are hashes of different texts |
| `DatabaseSessions.EvidenceNeverRepeats` | apps/web/server/database-session-service.ts:481-498 | they are pairwise distinct exactly when no two of those texts clash |
| `DatabaseSessions.AuditGrows` | apps/web/server/database-session-service.ts:59-81 | audit events stay contiguous and hash-linked |
| `DatabaseSessions.OpenedKept` | apps/web/server/database-session-service.ts:375-428 | a new session satisfies the invariant |
| `DatabaseSessions.DecidedKept` | apps/web/server/database-session-service.ts:445-478 | a decision keeps it |
| `DatabaseSessions.RevalidatedKept` | apps/web/server/database-session-service.ts:492-542 | a revalidation keeps it and, unless texts the session hashed clash, moves to evidence never seen before and ends the approval on record |
| `DatabaseSessions.SafeToCommitIsApproved` | apps/web/server/database-session-service.ts:459-478 | a session safe to commit has an eligible winner and a standing approval of its plan and current evidence |
| `DatabaseSessions.OldApprovalNeverValid` | packages/domain/src/database-approval.ts:45-55 | an approval of other evidence is valid for a binding to the current evidence exactly when it approves and the texts of the two bindings clash |
| `DatabaseSessions.DatabaseSessionService.Create` | apps/web/server/database-session-service.ts:342-429 | the new record field by field, blocked exactly without a winner, its audit event written out, with every other record unchanged |
| `DatabaseSessions.DatabaseSessionService.Decide` | apps/web/server/database-session-service.ts:431-479 | a decision is taken exactly in a known waiting session whose named winner is eligible; it makes the session safe to commit exactly when it approves and blocks it otherwise, and approval, view, binding and audit event are written out; otherwise which refusal and no change |
| `DatabaseSessions.DatabaseSessionService.Revalidate` | apps/web/server/database-session-service.ts:481-543 | a revalidation is done exactly in a known session with an eligible winner; the session then waits on new evidence with the approval ended unless it ended before or is bound to that evidence; otherwise which refusal and no change |
| `RateLimiter.AlwaysBounded` | apps/web/server/database-auth.ts:75-84 | what can have been admitted in an interval, by where the current window began |
| `RateLimiter.AtMostTwelve` | apps/web/server/database-auth.ts:75-95 | at most twelve mutations of a key in any closed minute, and at most eleven without its last instant |
| `RateLimiter.WindowCounts` | apps/web/server/database-auth.ts:75-84 | a window's counter is what was admitted in it, up to six |
| `RateLimiter.AdmittedIsPlaces` | apps/web/server/database-auth.ts:75-84 | what is counted is the number of places in the log where a mutation of the key was admitted in the interval |
| `RateLimiter.RefusedExactly` | apps/web/server/database-auth.ts:78-95 | a request is refused exactly while its window is open and six were admitted in it |
| `RateLimiter.TwelveIsReached` | apps/web/server/database-auth.ts:78-84 | twelve in a closed minute does occur |
| `RateLimiter.MutationLimiter.AuthorizeDatabaseMutation` | apps/web/server/database-auth.ts:18-96 | which verdict each request gets: only requests that pass the other checks are counted, and one is limited exactly while six were counted in an open window |
| `Scorers.ScoresInUnit` | packages/evals/src/scorers.ts:238-265 | exactly well-formed evidence is scored, and all eight scores are in [0, 1] |
| `Scorers.ScoredExactly` | packages/evals/src/scorers.ts:49-60 | evidence is scored exactly when each tally has two safe integers, no more passed than counted, and each patch count is a safe integer |
| `Scorers.ScoresSpelled` | packages/evals/src/scorers.ts:104-265 | which evidence gives which score |
| `Scorers.MinimalitySpelled` | packages/evals/src/scorers.ts:164-201 | minimality is what is left of one after 0.4 of the share of files, 0.6 of the share of lines and 0.25 for each of up to two dependencies, and zero outside the limits or with a binary file |
| `Scorers.RoundIsNearest` | packages/evals/src/scorers.ts:73 | rounding moves a value by at most half a millionth, upwards on a tie |
| `Scorers.MinimalityScored` | packages/evals/src/scorers.ts:164-201 | minimality throws exactly on an invalid count and is otherwise in [0, 1] |
| `Scorers.SmallerScoresNoLower` | packages/evals/src/scorers.ts:164-201 | a smaller patch never scores lower, and one outside its limits scores zero |
| `Scorers.LinesWeighMore` | packages/evals/src/scorers.ts:191-196 | a share of changed lines weighs more than the same share of changed files |
| `Scorers.RateScored` | packages/evals/src/scorers.ts:55-60 | a rate throws exactly on an invalid tally and is otherwise in [0, 1] |
| `Scorers.UnitGateExact` | packages/domain/src/selector.ts:48-49 | the rounded 0.95 gate holds exactly when 100000 (19 total - 20 passed) is at most total |
| `Scorers.UnitGateBelowHundredThousand` | packages/domain/src/selector.ts:48-49 | below 100,000 tests it is the exact gate |
| `Scorers.UnitGateRoundsUp` | packages/domain/src/selector.ts:48-49 | an instance above that passes below 95% |
| `Selection.EvaluateEligibility` | packages/domain/src/selector.ts:34-51 | which gates are listed as failed, and that it throws exactly on a value outside [0, 1] |
| `Selection.EligibleExactly` | packages/domain/src/selector.ts:34-51 | a candidate is eligible exactly when its evidence shows a passing build, all safety tests, an intact patch and the rounded unit gate |
| `Selection.WeightedInUnit` | packages/domain/src/selector.ts:53-70 | the weighted score is in [0, 1] |
| `Selection.WeightedRespectsScores` | packages/domain/src/selector.ts:53-70 | it never falls when a score rises, and its weights add up to one |
| `Selection.WeightsRank` | packages/domain/src/selector.ts:20-26 | whatever the scores, the same gain counts most in regression protection, then in unit tests, minimality, grounding and reproducibility |
| `Selection.OneRespectAlone` | packages/domain/src/selector.ts:20-26 | any score in one respect alone weighs its share, rounded |
| `Selection.RankCandidates` | packages/domain/src/selector.ts:72-99 | ranking throws exactly on a repeated identifier or an invalid score; otherwise each ranking is that of exactly one candidate, with its identifier, digest, eligibility by the four gates and rounded weighted sum, and all are in order |
| `Selection.SelectCandidate` | packages/domain/src/selector.ts:101-126 | selection throws only then or on an empty list; there is no winner exactly when no candidate passes the four gates, and a winner comes before every other that does |
| `Selection.WinnerIsBest` | packages/domain/src/selector.ts:90-110 | the winner beats every other eligible candidate, and there is none exactly when none is eligible |
| `Selection.WinnerIgnoresTheRest` | packages/domain/src/selector.ts:90-110 | it depends neither on the order of the input nor on the ineligible candidates |
| `Selection.WinnerOfCandidates` | packages/domain/src/selector.ts:101-126 | that holds of the specification on any input that can be ranked |
| `Selection.WinnerIsSound` | packages/domain/src/selector.ts:34-126 | for values scored from evidence, there is no winner exactly when no evidence is sound, and the winner's is |
| `Selection.SortRanks` | packages/domain/src/selector.ts:90-99 | sorted rankings are a permutation in rank order: eligible first, then by score, digest and identifier |
| `Selection.ScoredIsRankable` | packages/domain/src/selector.ts:28-32 | scores of well-formed evidence never make the selector throw |
| `Selection.RankDatabaseCandidates` | apps/orchestrator/src/database-tournament.ts:88-116 | database plans are ranked by the same comparison, throwing exactly on a repeated identifier |
| `Selection.QualityIsScored` | apps/orchestrator/src/database-tournament.ts:71-167 | the quality scores of any plan are in [0, 1], so its weighted score never throws |
| `Selection.QualitySpelled` | apps/orchestrator/src/database-tournament.ts:118-167 | which figures give which quality, reproducibility needing both gates |
| `Selection.OneQualityAlone` | apps/orchestrator/src/database-tournament.ts:60-86 | a quality in one respect alone weighs its share of the six fixed weights, rounded |
| `Selection.GroundedExactly` | apps/orchestrator/src/database-tournament.ts:135-154 | the grounding is 1 exactly when some gate failed and the risks, in lower case, name every one that did, 0.75 exactly when none failed, and 0.5 otherwise |
| `Selection.IncludesExactly` | apps/orchestrator/src/database-tournament.ts:149-154 | a text names a term exactly when the term occurs somewhere in it |
| `Selection.JoinedExactly` | apps/orchestrator/src/database-tournament.ts:135 | the risks are joined by single spaces |

## Left out

- Strings are sequences of Unicode scalar values: lone surrogates, and the difference between UTF-16 and code-point order of keys outside the basic plane, are not modelled.
- Object keys keep the one ascending order the canonicaliser sorts them in: the enumeration of integer-like keys ahead of others, the `__proto__` key and accessors are not modelled.
- Holes of sparse arrays: mapping skips them, so they are neither normalised nor refused, and they print as `null`; an array with a hole and one with `null` there share a text.
- Numbers in JSON are the numerals that print them: IEEE values, negative zero and the printing of numbers are not modelled, and a numeral is not brought to a shortest form.
- A stored event has exactly the members of the schema: extra members, which the hash would cover, and a provenance without a notice are not modelled.
- Reading and writing files, partial writes, and the promise queue itself: appends are the atomic steps that queue runs one after another.
- The commands of a local tournament, their evidence and the digest over it: an event's further payload members are arbitrary in the model.
- `SessionSafety.StepKeeps`: of the structural receipt checks only the non-blank candidate is written out; the rest, like URL and pattern checks, is an arbitrary predicate.
- Identity fields of the session that nothing decides on (incident, policy limits, source version, creation time) and the texts of errors.
- Fields with one possible value in the source's types (provider of a pull request, mode and providers of a receipt) are not repeated in the model.
- `LiveWorkflows.LiveWorkflow.NextDaytonaRunId`: numbers are unbounded; the loss of precision of `parseInt` above 2^53 is not modelled.
- The bounded loop that replaces candidates until the evaluation shows two eligible contenders and a rejected control (apps/orchestrator/src/live-workflow.ts:1285-1530): its replies are deliveries of purpose `ProfileReplacement`, but how many there are and which profile comes next is not modelled.
- When a ready claim is checked, the caching of the view and the hiding of a claim that could not be checked (apps/web/server/live-session-service.ts), and the last inspection kept for the recorded artifact.
- Progress events, traces, repair checkpoints and the exclusive-operation guard of the live workflow; calls to providers; the two clock readings around a failed deletion are one.
- Recorded-live validation beyond timing: resources, bindings, signatures and the cap of one day.
- SQL itself: a statement is a function on the captured contents, so statements that commit implicitly, other connections and tables outside the snapshot are not modelled.
- `TrialRuns.Attempt`: capturing the ten tables is one call, the version check and the isolation level before the transaction are not calls of the model, and whether gates and evidence can be computed from what was observed is a parameter.
- The hard-gate evaluator, plan integrity and patch integrity, which judge the figures modelled here.
- `RowPatches.DeltaTakesBeforeToAfter`: it compares states as rows by table and identifier, so a table that exists without rows is not told from an absent one.
- `GateFacts.InventoryUnitsAgree`: numbers are exact reals; floating-point error of sums is not modelled.
- `Scorers.UnitGateExact`: rates are exact rationals; the error of a floating-point division or product before rounding is not modelled.
- The key of the limiter is given: the 32-bit hash that derives it from the token, which may map two tokens to one key, is not modelled.
- Views, routes, schemas of requests and user interface; the three fixed mock candidates.
