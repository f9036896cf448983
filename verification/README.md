# Verification models for mailwatch and the Migadu password sync

The project models the parts of the repository that carry a guarantee and proves the guarantee,
or the exact condition under which the code gives it.

* **Spam score** (`RealFacts`, `IncompleteGamma`, `GammaTail`, `ChiSquared`, `ScoreDirection`,
  `Trainer`, `TrainerRuns`): the incomplete gamma function with its two loops, the stable sort and cut around it,
  and the token counts and probabilities that feed it.
* **Mail moving over IMAP** (`Mailbox`, `Redirection`, `RedirectionSafety`, `RedirectionCounts`, `RedirectionProgress`):
  folders with rising UIDs and a folder-wide EXPUNGE. Every server call may fail before or after
  its effect, and other clients act before every call.
* **Training** (`Training`, `TrainingRuns`, `BiasGuard`): one reconciliation, runs of them, and
  the interleaving of pipeline, idler, user and gateway.
* **Account locks and backoff** (`AccountLocks`, `Backoff`): the threads around one lock per
  account, and the reconnect schedule.
* **Fast forms against simple ones** (`MinHash`, `Similarity`, `Utf7`, `SieveScript`, `SieveReader`, `AutoBlock`).
* **Password sync** (`Migadu`, `MigaduSafety`, `Listener`, `ListenerRuns`): create-or-update and
  delete over an API that loses requests and answers, and the two-event capture before a deletion.

Code that changes things in place is a class or a method with the source's loops. Its `ensures`
ties the new state to a function of the old one, and the lemmas about runs are stated about that
function. What the environment decides (a server's answer, a lost reply, a clock reading, a random
draw, the next step of another client) is an explicit argument, so every result is for all of them.

## Where the code does less than its own words

* `training.py:15` says that each message trains at most once per label and source. Only the
  feedback row is unique (`TrainingRuns.FeedbackRowsUnique`); a listing that fails reads as an
  empty folder and makes the next scan train again (`TrainingRuns.FailedListingTrainsTwice`).
  `TrainingRuns.SpamReportsAreEntries` counts the reports exactly.
* `training.py:274` relies on a UID fallback for messages without a Message-ID. It compares Junk UIDs
  with recorded INBOX UIDs, so it both misses daemon moves (`BiasGuard.MoveWithoutMessageIdIsTrained`)
  and skips foreign arrivals (`BiasGuard.UnrelatedArrivalIsSkipped`). The pipeline decodes encoded
  words in the Message-ID (`parser.py:64`) and the idler does not (`client.py:651`), so the Message-ID
  match misses such moves too (`BiasGuard.EncodedMessageIdIsTrained`). `BiasGuard.GuardRecognises` and
  `BiasGuard.OwnMovesExactly` are the exact conditions.
* `sieve_block.py:122` speaks of hits within the last days. The count is a lifetime count and the row
  has just been touched, so the window decides nothing (`AutoBlock.BlockedExactly`). A script upload
  that fails is made up for only by the next block of the account (`AutoBlock.ServerCurrent`,
  `AutoBlock.RefusalIsMendedByAnotherBlock`).
* `sieve_block.py:27` escapes the reject message but not the tested domain; `SieveReader.ReadBack` is
  the exact condition under which the script says what was meant. And `sieve_block.py:37` speaks of
  any address at `example.com`, where `:contains` also rejects every domain that merely contains it
  (`SieveReader.RejectsExactly`, `SieveReader.OtherDomainRejected`).
* `client.py:79` claims section 5.1.3 of RFC 3501, whose base64 writes "," where the decoder's library
  expects "/"; `Utf7.RoundTrip` is the exact condition.
* The redirector's removal ends in a folder-wide EXPUNGE, which loses what other clients have flagged
  deleted (`RedirectionSafety.ExpungeLosesExactly`, `RedirectionCounts.ForeignFlagIsLost`); all other mail
  is safe (`RedirectionSafety.NothingLost`). The "ok" audit event is also written when the removal
  answered false.
* `spam_detect.py:384-403`: from five observations on a report moves a token's probability the
  right way; with fewer it may not (`Trainer.SeededMoves`, `Trainer.UnseededMoves`). One unreadable token file
  makes the next report overwrite every account (`Trainer.FailedLoadForgets`). All accounts share the
  file and only reports of the same account exclude each other, so a report can erase another account's
  (`TrainerRuns.OverlapLosesReport`, `TrainerRuns.CountsAreHistory`).
* `MigaduProvider.php:21` accepts 500 as a successful deletion, so an outage can be taken for one
  (`MigaduSafety.RemoveExactly`, `MigaduSafety.OutageReadsAsDeleted`). A creation whose answer is lost
  fails although the mailbox now exists (`MigaduSafety.SyncExactly`).
* `spam_similarity.py:31` says "> N" where the code tests `>=`; the model follows the code.

## Model

| member | source | states |
|---|---|---|
| IncompleteGamma.PrefactorIsWeight | mailwatch/src/mailwatch/email/filters/spam_detect.py:224 | the factor exp(-x + a log x - lgamma a) is exp(-x) times x^a/(a-1)! for integer a |
| IncompleteGamma.GammaInc | mailwatch/src/mailwatch/email/filters/spam_detect.py:195-244 | the branching code with its two loops, clamps and early exits computes the specification P for every integer shape and real x, zero outside the domain |
| IncompleteGamma.LentzRound | mailwatch/src/mailwatch/email/filters/spam_detect.py:232-241 | one round with its two clamps, in the order of the code, is LentzStep |
| IncompleteGamma.SeriesClosed | mailwatch/src/mailwatch/email/filters/spam_detect.py:215-223 | after n rounds the sum times x^a/(a-1)! is exactly terms a to a+n of the exponential series, and at an early exit the last term is below 1e-15 of that slice |
| IncompleteGamma.SeriesStops | mailwatch/src/mailwatch/email/filters/spam_detect.py:217-223 | for shapes up to 147 the loop ends by its test within a+51 rounds, never by running out |
| IncompleteGamma.SliceIsLong | mailwatch/src/mailwatch/email/filters/spam_detect.py:220-223 | everything the truncated series leaves out, however far continued, is at most 1e-15(a+1) of what it keeps |
| IncompleteGamma.SeriesIsSlice | mailwatch/src/mailwatch/email/filters/spam_detect.py:213-224 | below a+1 the result is exp(-x) times that slice |
| IncompleteGamma.DenIsPower | mailwatch/src/mailwatch/email/filters/spam_detect.py:226-243 | the last denominator of the three-term recurrence is x^a |
| IncompleteGamma.NumIsHead | mailwatch/src/mailwatch/email/filters/spam_detect.py:226-243 | the last numerator is the head of the exponential series, scaled |
| IncompleteGamma.LentzRoundKeeps | mailwatch/src/mailwatch/email/filters/spam_detect.py:232-241 | for x >= a+1 every round keeps c and d positive ratios of neighbouring numerators and denominators and h their quotient, and neither 1e-30 clamp can act |
| IncompleteGamma.LastRoundStops | mailwatch/src/mailwatch/email/filters/spam_detect.py:233-243 | in round a the correction factor is exactly 1 |
| IncompleteGamma.FractionIsConvergent | mailwatch/src/mailwatch/email/filters/spam_detect.py:226-243 | the loop runs at most a rounds and returns a convergent, the a-th one or one within 1e-15 of its predecessor |
| IncompleteGamma.LaterWithin | mailwatch/src/mailwatch/email/filters/spam_detect.py:232-243 | two neighbouring convergents enclose every later one |
| IncompleteGamma.LastNumerator | mailwatch/src/mailwatch/email/filters/spam_detect.py:229-231 | the 1e-30 seed of c moves the last convergent up by at most 1e-30 |
| IncompleteGamma.FractionIsHead | mailwatch/src/mailwatch/email/filters/spam_detect.py:226-244 | for x >= a+1, h times x^a/(a-1)! is the sum of the first a terms of the series up to the stated slack, after at most a rounds |
| IncompleteGamma.FractionAccurate | mailwatch/src/mailwatch/email/filters/spam_detect.py:244 | from a+1 on the result is 1 minus exp(-x) times the first a terms, up to that slack |
| IncompleteGamma.PIsProbability | mailwatch/src/mailwatch/email/filters/spam_detect.py:195-244 | the result lies in [0, 1] on both branches |
| GammaTail.GammaIsTail | mailwatch/src/mailwatch/email/filters/spam_detect.py:195-244 | main result: whichever branch runs, for shapes 1 to 147 and x >= 0 the value is 1 minus exp(-x) times the sum of x^j/j! for j below a, up to (a+1)/10^15 |
| GammaTail.GammaAccurate | mailwatch/src/mailwatch/email/filters/spam_detect.py:195-244 | at the shapes the score uses, 1 to 15, the value is within 16e-15 of that tail, whatever the loops' own tolerance |
| GammaTail.BinomialTheorem | mailwatch/src/mailwatch/email/filters/spam_detect.py:195-244 | a term of the exponential series at a sum is the binomial sum of products of terms, the step behind monotonicity |
| GammaTail.BelowFalls | mailwatch/src/mailwatch/email/filters/spam_detect.py:195-244 | the reference tail rises with x |
| GammaTail.NearlyRises | mailwatch/src/mailwatch/email/filters/spam_detect.py:195-244 | the computed value rises with x over both branches, up to 2(a+1)/10^15 |
| ChiSquared.SortPermutes | mailwatch/src/mailwatch/email/filters/spam_detect.py:167-175 | sorting by extremity is a permutation in descending order |
| ChiSquared.SortIsStable | mailwatch/src/mailwatch/email/filters/spam_detect.py:167-175 | probabilities of equal extremity keep their order |
| ChiSquared.KeepsMostExtreme | mailwatch/src/mailwatch/email/filters/spam_detect.py:167-175 | at most 15 tokens are kept, all if there are fewer, and none that is dropped is farther from one half than one that is kept |
| ChiSquared.ScoreIsProbability | mailwatch/src/mailwatch/email/filters/spam_detect.py:152-189 | the score lies in [0, 1] |
| ChiSquared.ComplementSymmetry | mailwatch/src/mailwatch/email/filters/spam_detect.py:152-189 | replacing every p by 1-p turns the score s into 1-s |
| ChiSquared.SelectionOrderFree | mailwatch/src/mailwatch/email/filters/spam_detect.py:167-175 | the order of the tokens cannot change which probabilities are kept if and only if no two different ones of equal extremity straddle the cut |
| ChiSquared.Straddled | mailwatch/src/mailwatch/email/filters/spam_detect.py:167-175 | when two do, a permutation that keeps other probabilities is constructed |
| ChiSquared.ScoreOrderFree | mailwatch/src/mailwatch/email/filters/spam_detect.py:152-189 | without a straddle every permutation of the tokens has the same score |
| ScoreDirection.ScoreRises | mailwatch/src/mailwatch/email/filters/spam_detect.py:152-189 | raising the kept probabilities never lowers the score by more than 32e-15 |
| ScoreDirection.ScoreLeans | mailwatch/src/mailwatch/email/filters/spam_detect.py:182-189 | kept probabilities on one side of one half put the score on that side, up to 16e-15: the polarity of the formula |
| ScoreDirection.ScoreIsTails | mailwatch/src/mailwatch/email/filters/spam_detect.py:152-189 | what the score is: with h and s the sums of -log of the kept probabilities and of their opposites, each raised to 1e-200, it is within 16e-15 of (Below(n, h) - Below(n, s) + 1) / 2, without tokens 0.5 |
| ScoreDirection.ScoreFromLogs | mailwatch/src/mailwatch/email/filters/spam_detect.py:152-189 | the same with the logarithms themselves when no kept probability is within 1e-200 of 0 or 1 |
| ScoreDirection.ScoreOfOne | mailwatch/src/mailwatch/email/filters/spam_detect.py:152-189 | a single token of probability p scores p, up to 16e-15 |
| Trainer.SpamTrainer.Learn | mailwatch/src/mailwatch/email/filters/spam_detect.py:370-403 | an uninterrupted report leaves the file that Reported describes, an unreadable file counts as empty, and a failed write changes nothing and is raised |
| Trainer.SpamTrainer.LoadAndCount | mailwatch/src/mailwatch/email/filters/spam_detect.py:389-401 | the first part, up to the write: the loop over the distinct tokens raises exactly their counts for the account in what was loaded |
| Trainer.SpamTrainer.SaveAll | mailwatch/src/mailwatch/email/filters/spam_detect.py:403 | the second part: the whole file is replaced, or nothing and the failure raised |
| Trainer.FailedLoadForgets | mailwatch/src/mailwatch/email/filters/spam_detect.py:78-88 | one failed load drops all accounts' counts but those of the new report |
| TrainerRuns.CountsAreHistory | mailwatch/src/mailwatch/email/filters/spam_detect.py:384-403 | over every interleaving of the loads and saves of different accounts, failed ones and restarts among them, stored counts are those of the reports in the lineage of the file, and those of all saved reports if and only if along the lineage none was saved between a load and its save nor before a failed load |
| TrainerRuns.CountsAreKept | mailwatch/src/mailwatch/email/filters/spam_detect.py:384-403 | the counts half of it: the lineage alone decides what is on file |
| TrainerRuns.LossExactly | mailwatch/src/mailwatch/email/filters/spam_detect.py:384-403 | the lineage half: never more than was saved, and exactly when less |
| TrainerRuns.OverlapLosesReport | mailwatch/src/mailwatch/email/filters/spam_detect.py:384-403 | two accounts that both load before either saves: the report saved first is gone |
| TrainerRuns.OverlapOffLineageIsHarmless | mailwatch/src/mailwatch/email/filters/spam_detect.py:384-403 | an overlap alone does not decide: a report saved within another's window survives when a third had loaded it and saves last |
| TrainerRuns.IsolatedCounts | mailwatch/src/mailwatch/email/filters/spam_detect.py:71-102 | when nothing that touches the token is saved between a load and its save, counts are those of the reports saved since a load last failed: one failed load forgets every account |
| TrainerRuns.HistoryMoves | mailwatch/src/mailwatch/email/filters/spam_detect.py:384-403 | in any run a report raises the counts it had loaded by one and moves the probability from five observations on; relative to the counts on file if and only if these are still the loaded ones, as for isolated reports |
| Trainer.ProbabilityBounds | mailwatch/src/mailwatch/email/filters/spam_detect.py:312-348 | token probabilities lie in [0, 1], and only a token without seed and counts has none |
| Trainer.ProbabilityExactly | mailwatch/src/mailwatch/email/filters/spam_detect.py:312-348 | what the probability is, for the q with odds q : 1-q equal to spam+1 : ham+1: q from five counts on; below five, 0.5 without a seed and with one the mixture of q and the seed, weighted with the n counts and 5-n; a seed alone is the probability itself |
| Trainer.ReportMoves | mailwatch/src/mailwatch/email/filters/spam_detect.py:330-341 | from five observations a spam report strictly raises and a ham report strictly lowers the probability |
| Trainer.UnseededMoves | mailwatch/src/mailwatch/email/filters/spam_detect.py:330-336 | below five and without seed, exactly when a report moves the probability the right way |
| Trainer.SeededMoves | mailwatch/src/mailwatch/email/filters/spam_detect.py:338-346 | below five and with a seed, exactly when: the seed is on the right side of a balance point |
| Trainer.SpamReportCanLower | mailwatch/src/mailwatch/email/filters/spam_detect.py:338-346 | with seed 0.99 the fifth spam report lowers the probability |
| Mailbox.Server.Fetch | mailwatch/src/mailwatch/email/imap/client.py:487-522 | fetch_raw as a step on the folders, with its three kinds of result |
| Mailbox.Server.Append | mailwatch/src/mailwatch/email/imap/client.py:435-485 | append_message as a step: an append may take effect and still be reported failed |
| Mailbox.Server.SetFlags | mailwatch/src/mailwatch/email/imap/client.py:396-433 | set_flags of the deleted flag as a step, which errors raise and which return false |
| Mailbox.Server.Move | mailwatch/src/mailwatch/email/imap/client.py:370-394 | move_message as a step: UID MOVE, else COPY, STORE and folder-wide EXPUNGE |
| Redirection.Redirector.Remove | mailwatch/src/mailwatch/redirector.py:208-222 | _remove_source by archive move or by flag and expunge equals RemoveSource |
| Redirection.Redirector.RedirectAccount | mailwatch/src/mailwatch/redirector.py:62-185 | the loop over the listed UIDs changes the folders, the audit log and the count as Run describes |
| RedirectionSafety.NothingLost | mailwatch/src/mailwatch/redirector.py:62-222 | over every run of passes with any failures and whatever other clients deliver, take, flag and unflag, each message that nobody else flagged is in the source folder, was taken by another client, or has a verbatim copy; flagged ones among them have been appended; histories only grow |
| RedirectionSafety.ExpungeLosesExactly | mailwatch/src/mailwatch/redirector.py:219-222 | an EXPUNGE that takes effect loses a message if and only if it is in the folder, flagged and without a verbatim copy; then another client flagged it |
| RedirectionSafety.RedirectKeeps | mailwatch/src/mailwatch/redirector.py:113-178 | one loop round keeps that invariant, wherever it stops |
| RedirectionSafety.ExpungeSafe | mailwatch/src/mailwatch/redirector.py:219-222 | the folder-wide EXPUNGE removes only messages that have been appended or that others flagged |
| RedirectionSafety.AppendKeeps | mailwatch/src/mailwatch/redirector.py:138-150 | an append of the fetched bytes keeps the invariant and, if it took effect, makes the message safe to remove |
| RedirectionCounts.RemoveClean | mailwatch/src/mailwatch/redirector.py:208-222 | a removal whose calls all answered OK, with nobody clearing the flag before the EXPUNGE, has removed the message |
| RedirectionCounts.CopiesBounded | mailwatch/src/mailwatch/redirector.py:113-180 | copies in the destination are at most one plus the number of passes whose append took effect but was reported failed, or whose removal failed or was undone by another client clearing the flag |
| RedirectionCounts.CountMeans | mailwatch/src/mailwatch/redirector.py:113-185 | the returned count is the number of "ok" events and of appends reported successful; a pass that raises has at most one such append without event |
| RedirectionCounts.DryRunChangesNothing | mailwatch/src/mailwatch/redirector.py:126-136 | a dry run changes no folder and returns 0 |
| RedirectionCounts.QuietPassDelivers | mailwatch/src/mailwatch/redirector.py:113-180 | a pass without faults appends every listed message once, in order and verbatim, and empties them from the source folder |
| RedirectionProgress.RoundExactly | mailwatch/src/mailwatch/redirector.py:113-178 | exactly when the round of one message ends the pass, what it adds to the count and what to the audit log, by the answers alone: a message that cannot be fetched or appended only ends its own round |
| RedirectionProgress.CalmCompletes | mailwatch/src/mailwatch/redirector.py:113-180 | a pass none of whose answers is an error that is raised reaches its last message, whatever else fails |
| RedirectionProgress.DeliveredDespiteOthers | mailwatch/src/mailwatch/redirector.py:113-178 | in such a pass every message that can be fetched and appended reaches the destination verbatim, and leaves the source if its own removal is clean, whatever becomes of the others |
| RedirectionCounts.ForeignFlagIsLost | mailwatch/src/mailwatch/redirector.py:219-222 | from a sound state, a message that another client flags during a pass is lost when another one is removed |
| Training.TrainingIdler.Reconcile | mailwatch/src/mailwatch/training.py:83-121 | the two loops over the listings leave the rows, reports and summary of Reconciled, and the Junk listing as the stored snapshot |
| Training.TrainingIdler.TrainSpam | mailwatch/src/mailwatch/training.py:125-157 | one spam report, made before the duplicate check, and at most one new row |
| Training.TrainingIdler.TrainHam | mailwatch/src/mailwatch/training.py:159-189 | one ham report of the INBOX message, and at most one new row |
| Training.TrainingIdler.Log | mailwatch/src/mailwatch/training.py:215-242 | a row is added unless there is one of the same message and source |
| Training.SnapshotRoundTrips | mailwatch/src/mailwatch/training.py:244-266 | the JSON snapshot with decimal keys is read back as it was written |
| TrainingRuns.PassTrainsExactly | mailwatch/src/mailwatch/training.py:91-118 | told by the listings alone: the reports are, as spam, each new Junk entry without a recorded move that can be fetched, and as ham, each snapshot entry absent from Junk, under the last INBOX UID of its non-empty Message-ID, if that can be fetched |
| TrainingRuns.IndexMeans | mailwatch/src/mailwatch/training.py:105-110 | the INBOX index holds the last UID of each non-empty Message-ID |
| TrainingRuns.PassCounts | mailwatch/src/mailwatch/training.py:91-118 | exactly one spam report of a UID whose entry is such a new one and one ham report of a UID whose entry has so returned, none otherwise; so at most one of each and only on entering or leaving Junk |
| TrainingRuns.SummaryCounts | mailwatch/src/mailwatch/training.py:83-121 | the summary counts the reports of either kind and the new entries that the daemon moved |
| TrainingRuns.AtMostOncePerStay | mailwatch/src/mailwatch/training.py:83-121 | over every run of scans with truthful listings each Junk UID yields at most one spam and one ham report |
| TrainingRuns.SpamReportsAreEntries | mailwatch/src/mailwatch/training.py:83-121 | whatever the listings say, spam reports of a UID are at most the scans that find it new, and exactly those if it can be trained |
| TrainingRuns.FailedListingTrainsTwice | mailwatch/src/mailwatch/training.py:83-121 | one failed listing makes the same message train twice |
| TrainingRuns.FeedbackRowsUnique | mailwatch/src/mailwatch/training.py:215-242 | never more than one feedback row per message and source |
| TrainingRuns.RowsExactly | mailwatch/src/mailwatch/training.py:125-242 | after a pass the feedback table holds what it held and one row for each thing trained, under its Message-ID or else its UID, and nothing else |
| BiasGuard.NeverTrainsItsOwnMoves | mailwatch/src/mailwatch/training.py:94-101 | over every interleaving of pipeline, user, gateway, idler and restarts, no spam report concerns the Message-ID of a message that the daemon had moved to Junk before, if the pipeline's and the idler's reading of its header agree and are not empty |
| BiasGuard.OwnMovesExactly | mailwatch/src/mailwatch/training.py:94-101 | the daemon trains on its own move of a message in some run if and only if the two readings of its header differ or are empty |
| BiasGuard.ScanReconciles | mailwatch/src/mailwatch/training.py:83-121 | the steps of an uninterrupted scan report exactly what the reconciliation reports as spam, in its order, and keep its snapshot |
| BiasGuard.RecordKeeps | mailwatch/src/mailwatch/pipeline.py:413-422 | recording a move, which replaces a row of the same INBOX UID, keeps every earlier Message-ID recorded |
| BiasGuard.MoveKeeps | mailwatch/src/mailwatch/pipeline.py:320-323 | a move that takes effect, whole or as a copy, concerns a message recorded before |
| BiasGuard.GuardRecognises | mailwatch/src/mailwatch/training.py:268-288 | over every interleaving, of the messages the daemon placed exactly those are recognised whose raw Message-ID is not empty and one under which some recorded INBOX message was read, or whose Junk UID is among the recorded INBOX UIDs |
| BiasGuard.MoveWithoutMessageIdIsTrained | mailwatch/src/mailwatch/training.py:284-288 | a concrete run in which the daemon trains on its own move of a message without Message-ID |
| BiasGuard.EncodedMessageIdIsTrained | mailwatch/src/mailwatch/email/imap/parser.py:64-66 | a concrete run in which it does so for a Message-ID with an encoded word, which the pipeline decodes and the idler does not |
| BiasGuard.UnrelatedArrivalIsSkipped | mailwatch/src/mailwatch/training.py:284-288 | a concrete run in which a gateway delivery is taken for a daemon move |
| AccountLocks.RunKeeps | mailwatch/src/mailwatch/pipeline.py:44-70 | after every interleaving exactly the owners told by the trace are between acquire and release, and exactly their locks are taken |
| AccountLocks.MutualExclusion | mailwatch/src/mailwatch/pipeline.py:51-70 | at most one thread is between acquire and release for an account |
| AccountLocks.ReleaseIsOwn | mailwatch/src/mailwatch/pipeline.py:63-70 | whoever releases took that very lock and still holds it: a timed-out acquire never leads to a release, and the RuntimeError branch is unreachable |
| AccountLocks.NothingLeaks | mailwatch/src/mailwatch/watcher.py:251-326 | a thread outside its try block, or ended by an exception, holds no lock, and a lock without owner is free |
| AccountLocks.SectionsDoNotInterleave | mailwatch/src/mailwatch/watcher.py:358-421 | between work of one thread and later work of another on the same account lie a release by the first and a later take by the second |
| AccountLocks.TakeExactly | mailwatch/src/mailwatch/pipeline.py:51-61 | a waiting thread can take the lock if and only if no thread is between acquire and release for the account |
| AccountLocks.OwnerComesOut | mailwatch/src/mailwatch/pipeline.py:63-70 | the owner frees the account by at most three steps of its own, with no help of the others |
| AccountLocks.ThreadStands | mailwatch/src/mailwatch/watcher.py:251-326 | a thread stands where its own last step has put it; after a timeout it is outside, without the lock |
| Backoff.ConnectionBackoff.RecordFailure | mailwatch/src/mailwatch/backoff.py:66-78 | the failure step and the delay it returns |
| Backoff.ConnectionBackoff.RecordSuccess | mailwatch/src/mailwatch/backoff.py:60-64 | the success step forgets the account |
| Backoff.ConnectionBackoff.Due | mailwatch/src/mailwatch/backoff.py:55-58 | the gate is open from the due time on |
| Backoff.DueBounds | mailwatch/src/mailwatch/backoff.py:55-78 | after any run the counter is the number of failures since the last success, and the due time lies between (1-jitter) and (1+jitter) times the capped delay after the latest failure |
| Backoff.GateExactly | mailwatch/src/mailwatch/backoff.py:55-78 | after any run the gate opens exactly at the latest failure plus its delay plus its draw, or at 0 without a failure since the last success |
| Backoff.LoopIsSlow | mailwatch/src/mailwatch/watcher.py:358-421 | in an outage the n-th failing attempt of a scheduler loop comes no sooner than the sum of the first n-1 shortest delays, whatever other threads do to the account |
| Backoff.ShortestGrows | mailwatch/src/mailwatch/backoff.py:68-72 | a longer streak never shortens the delay |
| Backoff.DelaySchedule | mailwatch/src/mailwatch/backoff.py:68-75 | the delays start at the base and grow by the factor from failure to failure, each capped at the maximum; the spread is the jitter's share of it |
| Backoff.AccountsIndependent | mailwatch/src/mailwatch/backoff.py:49-78 | an account's counter and due time are those of a run of its own events alone |
| MinHash.MixInjective | mailwatch/src/mailwatch/email/filters/spam_similarity.py:125 | each masked xor with a multiple of the golden ratio is injective on 32-bit hashes |
| MinHash.MixIsXor | mailwatch/src/mailwatch/email/filters/spam_similarity.py:125 | the i-th order compares the hashes after an xor with the low 32 bits of (i+1) times 0x9E3779B9 |
| MinHash.OrdersDiffer | mailwatch/src/mailwatch/email/filters/spam_similarity.py:121-127 | no two of the 128 orders are the same: some two hashes are ordered differently |
| MinHash.MinhashSignature | mailwatch/src/mailwatch/email/filters/spam_similarity.py:104-128 | the nested loops compute the little-endian bytes of the list of minima, zeros for no shingles |
| MinHash.UnpackPacked | mailwatch/src/mailwatch/email/filters/spam_similarity.py:128-142 | little-endian packing of 32-bit words is undone by unpacking |
| MinHash.LittleEndian | mailwatch/src/mailwatch/email/filters/spam_similarity.py:128 | the least significant byte comes first |
| MinHash.AgreeAtExactly | mailwatch/src/mailwatch/email/filters/spam_similarity.py:118-128 | signatures agree at a position exactly when the first element of the union in that order lies in both hash sets |
| MinHash.FirstOfUnionExists | mailwatch/src/mailwatch/email/filters/spam_similarity.py:118-128 | there is such a first element |
| MinHash.JaccardIsShare | mailwatch/src/mailwatch/email/filters/spam_similarity.py:104-146 | the score is the share of the 128 orders whose first hash of the union is common to both texts |
| MinHash.SignatureOfSet | mailwatch/src/mailwatch/email/filters/spam_similarity.py:118-128 | order and repetition of shingles do not change the signature |
| MinHash.JaccardFromBytes | mailwatch/src/mailwatch/email/filters/spam_similarity.py:131-146 | the loop counts the equal positions of the unpacked signatures |
| MinHash.JaccardExtremes | mailwatch/src/mailwatch/email/filters/spam_similarity.py:104-146 | equal hash sets score 1, non-empty disjoint ones 0 |
| MinHash.TokenlessTextsMatch | mailwatch/src/mailwatch/email/filters/spam_similarity.py:118-119 | two texts without tokens score 1 |
| Similarity.Detector.AddSpam | mailwatch/src/mailwatch/email/filters/spam_similarity.py:165-234 | both tables stay those of the history, one report longer |
| Similarity.Detector.CheckSimilarity | mailwatch/src/mailwatch/email/filters/spam_similarity.py:247-321 | over the rows that take part (of the account, or all, with fewer than limit such rows newer): near if and only if one reaches 0.7, similar if and only if one reaches 0.4; the answer is the newest near row, else the newest of maximal score, despite the early exit |
| Similarity.RecentAt | mailwatch/src/mailwatch/email/filters/spam_similarity.py:284-295 | a row is compared with, at the place its newer matching rows leave it, if it matches and fewer than limit of them are newer |
| Similarity.RecentFrom | mailwatch/src/mailwatch/email/filters/spam_similarity.py:284-295 | and only then |
| Similarity.ScanAnswers | mailwatch/src/mailwatch/email/filters/spam_similarity.py:297-321 | what the scan finds among the selected rows is the answer over the whole table |
| Similarity.Detector.CheckRepeated | mailwatch/src/mailwatch/email/filters/spam_similarity.py:323-407 | the verdict, count and number of senders are those of the history of reports |
| Similarity.Detector.RemoveMessage | mailwatch/src/mailwatch/email/filters/spam_similarity.py:236-245 | only the signature of that message goes; the content counts stay |
| Similarity.SelectedCounted | mailwatch/src/mailwatch/email/filters/spam_similarity.py:211-234 | the rows of one text hold each sender domain once, with the number of its reports, and nothing else |
| Similarity.SignaturesAreLatest | mailwatch/src/mailwatch/email/filters/spam_similarity.py:199-206 | the table holds exactly the signature of each message's latest non-blank report |
| Similarity.LearntIsFound | mailwatch/src/mailwatch/email/filters/spam_similarity.py:165-321 | a text learnt under a uuid is found near as long as fewer than limit other uuids of the account were reported later; the last one learnt with score 1 under its own uuid |
| Similarity.OfAccountIgnores | mailwatch/src/mailwatch/email/filters/spam_similarity.py:284-295 | a new message of another account does not change what an account is compared with |
| Utf7.DecodeImapUtf7 | mailwatch/src/mailwatch/email/imap/client.py:78-122 | the index loop ends on every input and computes the recursive decoding |
| Utf7.Base64RoundTrip | mailwatch/src/mailwatch/email/imap/client.py:107-117 | with the padding added, an unpadded run decodes to its bytes, or is rejected exactly when it contains a comma |
| Utf7.Utf16RoundTrip | mailwatch/src/mailwatch/email/imap/client.py:117 | UTF-16BE with surrogate pairs decodes back to the name |
| Utf7.RoundTrip | mailwatch/src/mailwatch/email/imap/client.py:78-122 | decoding the encoding of section 5.1.3 of RFC 3501 gives any name back if and only if no encoded run contains a comma |
| Utf7.CommaIsKept | mailwatch/src/mailwatch/email/imap/client.py:118-120 | the name U+03FF is not given back |
| Utf7.OddRunRejected | mailwatch/src/mailwatch/email/imap/client.py:111-120 | a run of length 4n+1 is never base64, so it is kept verbatim |
| Utf7.AcceptsExactly | mailwatch/src/mailwatch/email/imap/client.py:107-116 | a padded run is accepted if and only if it is whole quads of the base64 alphabet with padding only at the end |
| Utf7.GarbledIsKept | mailwatch/src/mailwatch/email/imap/client.py:118-121 | a run that is not is kept verbatim with its "&" and "-", and decoding goes on behind it |
| Utf7.UnclosedIsKept | mailwatch/src/mailwatch/email/imap/client.py:96-101 | a name without "-" is unchanged |
| Utf7.Utf16Faithful | mailwatch/src/mailwatch/email/imap/client.py:117 | what is decoded holds no surrogates, and encodes back to the same bytes unless something was replaced |
| Utf7.PlainNames | mailwatch/src/mailwatch/email/imap/client.py:90-95 | names without "&" are unchanged |
| SieveScript.ScanQuoted | mailwatch/src/mailwatch/sieve_block.py:26-28 | reading the two-pass escape by section 2.4.2 of RFC 5228 is the identity for every string, whatever follows |
| SieveScript.GenerateBlockScript | mailwatch/src/mailwatch/sieve_block.py:31-56 | the loop builds Script from the sorted distinct domains |
| SieveScript.SortedSetFacts | mailwatch/src/mailwatch/sieve_block.py:49 | the domains are strictly increasing and the same set |
| SieveScript.LessMeans | mailwatch/src/mailwatch/sieve_block.py:49 | the order is that of a dictionary |
| SieveScript.ScriptOfSet | mailwatch/src/mailwatch/sieve_block.py:44-56 | the script depends on the set of domains alone |
| SieveScript.ScanUnclean | mailwatch/src/mailwatch/sieve_block.py:50-54 | an unescaped domain with a quote or backslash is always read as a different string |
| SieveReader.ReadBack | mailwatch/src/mailwatch/sieve_block.py:31-56 | a reader of RFC 5228 written without the generator's texts reads, from the script, one rule per sorted distinct domain (the domain part of the From address contains it: reject, with the reason naming it) if and only if all domains are free of quotes and backslashes |
| SieveReader.RejectsExactly | mailwatch/src/mailwatch/sieve_block.py:50-54 | the rules so read reject a message if and only if its domain contains a blocked one anywhere |
| SieveReader.OtherDomainRejected | mailwatch/src/mailwatch/sieve_block.py:37-38 | so a block of "b.c" rejects "ab.cd" as well |
| AutoBlock.Blocker.MaybeRegisterOffender | mailwatch/src/mailwatch/pipeline.py:360-409 | one spam message changes table, audit log and server script as Registered describes |
| AutoBlock.Blocker.RegisterHit | mailwatch/src/mailwatch/sieve_block.py:82-108 | a row is inserted or its count raised, and the new count returned |
| AutoBlock.Blocker.RecordBlock | mailwatch/src/mailwatch/sieve_block.py:110-117 | the row becomes blocked |
| AutoBlock.Blocker.PushBlockScript | mailwatch/src/mailwatch/sieve_block.py:133-178 | an accepted upload replaces the account's script by that of its blocked domains; an empty script is not uploaded |
| AutoBlock.ListedIsBlocked | mailwatch/src/mailwatch/sieve_block.py:73-80 | the list holds exactly the blocked domains of the account |
| AutoBlock.BlockedExactly | mailwatch/src/mailwatch/pipeline.py:376-396 | from an empty table a domain is blocked if and only if its hits have reached the threshold, and then the block is recorded exactly once and the row has that many hits |
| AutoBlock.RunSettles | mailwatch/src/mailwatch/pipeline.py:376-396 | the same whatever the clocks say: blocked exactly once some hit at or beyond the threshold was counted within the window |
| AutoBlock.BlocksExactly | mailwatch/src/mailwatch/pipeline.py:376-389 | whatever the clocks say, a spam message records a block if and only if auto-blocking is on, it has a domain and a Sieve host, its domain is not blocked yet and its hits reach the threshold, read within the window |
| SieveScript.ScriptLengthens | mailwatch/src/mailwatch/sieve_block.py:44-56 | the script of one more domain is strictly longer, so it is a different one |
| AutoBlock.ServerCurrent | mailwatch/src/mailwatch/pipeline.py:398-409 | the server's script is that of the blocked domains if and only if the upload of the last block recorded for the account was accepted, or none was recorded |
| AutoBlock.ServerRejectsOffenders | mailwatch/src/mailwatch/pipeline.py:376-409 | then, for clean domains, the rules read out of the script on the server are those of exactly the domains whose hits have reached the threshold |
| AutoBlock.BlockedDomainUploadsNothing | mailwatch/src/mailwatch/pipeline.py:385-387 | later hits of a blocked domain change neither the server nor the audit log |
| AutoBlock.RefusalIsMendedByAnotherBlock | mailwatch/src/mailwatch/pipeline.py:385-409 | a refused upload leaves the server behind, its own domain's later hits do not mend it, an accepted block of another domain does |
| Migadu.Provider.RequestOnce | webmail/nc-migadu-password-sync/lib/Service/MigaduProvider.php:278-314 | one exchange: served, lost before or after its effect, or no handle |
| Migadu.Provider.RequestWithRetry | webmail/nc-migadu-password-sync/lib/Service/MigaduProvider.php:235-270 | the loop of three attempts and its sleeps equal the recursive specification |
| Migadu.Provider.SyncMailbox | webmail/nc-migadu-password-sync/lib/Service/MigaduProvider.php:138-197 | lookup, then create or update, equal Sync |
| Migadu.Provider.DeleteMailbox | webmail/nc-migadu-password-sync/lib/Service/MigaduProvider.php:103-131 | the deletion with its switch and its four accepted codes equals Remove |
| MigaduSafety.RetryReaches | webmail/nc-migadu-password-sync/lib/Service/MigaduProvider.php:235-270 | whatever is lost, a retried request has taken effect once or not at all, and only that request was sent |
| MigaduSafety.RetryTells | webmail/nc-migadu-password-sync/lib/Service/MigaduProvider.php:250-252 | a successful answer that no fault can forge was given by the API, and the mailboxes are as it left them |
| MigaduSafety.SyncKeeps | webmail/nc-migadu-password-sync/lib/Service/MigaduProvider.php:138-197 | under any faults at most 6 requests and 6 seconds, no other mailbox touched, this one untouched or with the new password; a normal return means the new password |
| MigaduSafety.SyncExactly | webmail/nc-migadu-password-sync/lib/Service/MigaduProvider.php:138-197 | exactly which faults a synchronisation survives |
| MigaduSafety.SyncConverges | webmail/nc-migadu-password-sync/lib/Service/MigaduProvider.php:138-197 | one fault-free call converges from any state with one lookup and one update, or creation if there was no mailbox, and no sleep |
| MigaduSafety.SyncHolds | webmail/nc-migadu-password-sync/lib/Service/MigaduProvider.php:138-197 | exactly when the mailbox holds the password after a call, under any faults and whatever it returns |
| MigaduSafety.SleepsExactly | webmail/nc-migadu-password-sync/lib/Service/MigaduProvider.php:235-270 | one second passes before the second attempt and two more before the third |
| MigaduSafety.RunKeeps | webmail/nc-migadu-password-sync/lib/Service/MigaduProvider.php:138-197 | over runs the mailbox never holds a password older than the last successful change |
| MigaduSafety.RemoveExactly | webmail/nc-migadu-password-sync/lib/Service/MigaduProvider.php:103-131 | a normal return leaves the mailbox in place if and only if deletions are off or a lost request read as an accepted code; at most 3 requests and 3 seconds |
| MigaduSafety.RemoveGone | webmail/nc-migadu-password-sync/lib/Service/MigaduProvider.php:103-131 | exactly when the mailbox is gone after a deletion, under any faults and whatever it returns |
| MigaduSafety.OutageReadsAsDeleted | webmail/nc-migadu-password-sync/lib/Service/MigaduProvider.php:52-53 | an outage answered with 500 returns normally and deletes nothing |
| Listener.ResolveExactly | webmail/nc-migadu-password-sync/lib/Service/MigaduProvider.php:70-101 | a user has mailbox local@domain if and only if not excluded and the normalised address is exactly that on the configured domain; only "@domain" is malformed |
| Listener.TrimMeans | webmail/nc-migadu-password-sync/lib/Service/MigaduProvider.php:78 | trim keeps what stands between the first and the last character that is not blank |
| Listener.LowerMeans | webmail/nc-migadu-password-sync/lib/Service/MigaduProvider.php:78 | strtolower replaces each of the 26 capitals by its small letter and nothing else |
| Listener.ExplodeJoined | webmail/nc-migadu-password-sync/lib/Service/MigaduProvider.php:204 | explode undoes joining pieces without the separator |
| Listener.ExcludedMeans | webmail/nc-migadu-password-sync/lib/Service/MigaduProvider.php:202-211 | the excluded users are the trimmed, non-empty items of the setting |
| Listener.PasswordSyncListener.Handle | webmail/nc-migadu-password-sync/lib/Listener/PasswordSyncListener.php:52-84 | each event changes captures and mailboxes as Handled describes, and no failure escapes |
| Listener.PasswordSyncListener.CaptureMailboxForDeletion | webmail/nc-migadu-password-sync/lib/Listener/PasswordSyncListener.php:104-117 | the user's mailbox, or none, is captured under the uid |
| Listener.PasswordSyncListener.DeleteCapturedMailbox | webmail/nc-migadu-password-sync/lib/Listener/PasswordSyncListener.php:119-150 | the capture is consumed before the deletion is tried |
| ListenerRuns.PendingIsCaptured | webmail/nc-migadu-password-sync/lib/Listener/PasswordSyncListener.php:104-130 | after any events the pending entries are exactly the captures without a later deletion |
| ListenerRuns.PasswordArrives | webmail/nc-migadu-password-sync/lib/Listener/PasswordSyncListener.php:52-84 | over any run and under any faults: after the last event that concerns a mailbox, a new password of its user, the mailbox holds that password in the end if and only if it did before or the requests of that event arrive |
| ListenerRuns.CapturedIsDeleted | webmail/nc-migadu-password-sync/lib/Listener/PasswordSyncListener.php:104-150 | likewise after the deletion of a user whose mailbox was captured: gone in the end if and only if it was gone before or a DELETE arrived |
| ListenerRuns.LastTouchDecides | webmail/nc-migadu-password-sync/lib/Listener/PasswordSyncListener.php:52-150 | so without faults the last event that concerns a mailbox decides: it holds that password, or is gone |
| ListenerRuns.RequestsExplained | webmail/nc-migadu-password-sync/lib/Listener/PasswordSyncListener.php:52-150 | over any run, each request is sent during an event that justifies it: a DELETE during a deletion whose open capture is that mailbox, any other during a new password of a qualifying user |
| ListenerRuns.DeletesBounded | webmail/nc-migadu-password-sync/lib/Listener/PasswordSyncListener.php:119-150 | over any run at most three DELETE requests per capture of a mailbox |
| ListenerRuns.OthersUntouched | webmail/nc-migadu-password-sync/lib/Listener/PasswordSyncListener.php:52-150 | a mailbox of no qualifying user, excluded ones among them, is never changed |

## Left out

- Floating point: all arithmetic is over the reals, so rounding of the score, of the similarity and of the backoff delay is not modelled, nor is the overflow of `factor ** (count - 1)` after about a thousand consecutive failures.
- exp, log and lgamma: the results about values rest on the facts in `Elementary.Lawful` (addition law, inverse, factorials, and the partial sums of the series staying below exp) and, for `GammaTail` and `ScoreDirection`, in `Complete` (exp is the least bound of those sums); they are assumptions of the lemmas that name them. The fallback score 0.5 after an exception is not modelled: over the reals nothing raises.
- IncompleteGamma.SeriesStops: the shape is bounded by 147, the limit of this proof's bound of a+51 rounds, not a shape at which the 199 rounds are shown to run out; the caller never exceeds 15. The same bound stands in the results that rest on it.
- IncompleteGamma.FractionIsHead: shapes from 199 on are not covered: the proof ends the loop by round a, which is then beyond the last one.
- classify: the tokens come from a set, so their order is arbitrary; which probabilities are kept then depends on it exactly in the straddling case of `ChiSquared.SelectionOrderFree`. Tokenising and seed loading are not modelled.
- Digests: MD5 and SHA-256 values are arbitrary inputs, and so are shingle texts; the chance that a MinHash position agrees is not modelled, only which positions do.
- Similarity.Detector.AddSpam: rows are ordered by insertion, which assumes rising timestamps; histories with removals in between are not related to the reports. A negative limit, which SQLite reads as none, is not modelled.
- `_imap_quote_folder`: the same two-pass escape as in the Sieve script, whose inverse is `SieveScript.ScanQuoted`.
- Utf7: the base64 and UTF-16 codecs follow their documentation; the standard's encoder is not part of the repository and is written out as the reference.
- Redirection: UIDVALIDITY does not change, source, archive and destination are different folders, and a crash falls between two calls. The listing of source UIDs and the connection set-up are inputs.
- RedirectionCounts.CountMeans: for a pass that raises, one append may lack its "ok" event, so the count is then only bounded.
- TrainerRuns: the write of the file is one step, so two writers of the same temporary file at the same moment are not modelled.
- Training.SnapshotRoundTrips: stored keys are decimal numbers as the daemon writes them; other forms that `int()` would accept are read as bad keys.
- TrainingRuns: runs are of completed scans; a scan stopped halfway keeps the old snapshot and may train again (BiasGuard includes such stops).
- BiasGuard: how a header is decoded is not modelled, each message has the two readings as arbitrary strings; there is one account; the verdict of the classification is an arbitrary choice of messages.
- AccountLocks: threads are modelled on values, not as a class, because their steps interleave; the duration of a timeout is not modelled, only that it may happen.
- Backoff: only the failures that `_on_connection_failure` and `_on_auth_failure` record are events; a negative jitter or a factor below one is not covered by the lemmas.
- AutoBlock.BlockedExactly: the two clock readings of one call lie within one window of each other.
- SieveReader.ReadBack: the reader knows the lexical rules of RFC 5228 and the commands that a block script needs (require, if with the address test, reject); it is not a whole Sieve parser, and its `:contains` compares letters as they are, without the case folding of the default comparator. ManageSieve itself is a step that is accepted or refused.
- Migadu: nobody else changes the mailbox during a synchronisation, and a served request is answered by the documented codes; a refused creation never reads as 200.
- SQLite, sockets, TLS, IDLE polling, keyring, curl and file I/O: each call is one step that may fail; tables are sequences or maps of rows.
- Phishing rules, MIME parsing, configuration, the portal, sidecars and patches: short case splits or plumbing.
