# A verified model of the Geass operator's protocols

This project models the parts of Geass, a Kubernetes operator with a command line, where several parties share one object
or where something has to survive failures, and proves what those parts promise, for every run and every input.

`ApiServer.dfy` is the common ground: one object of the API server with its version, a create that fails when the object
exists, an update that fails when the object has moved on, and the three things that can become of any request (carried
out and answered, refused, carried out with the answer lost). The reconcilers are steps over it. What a pass read may be as
old as the run, others act between any two steps, and a pass may stop anywhere; where a result needs a fresh read, it says so.

| module | what it models |
|---|---|
| `ClusterIssuer` | which of several GeassClusters decides what the one cluster-wide ClusterIssuer says |
| `Webhooks` | claiming a deploy's outcome before it is sent to the project's webhooks |
| `Alerting`, `AlertingOrder`, `AlertingKeys`, `AlertingSpec`, `AlertingRules`, `AlertingEvaluation` | what is wrong in a cluster, as seven loops over nine lists find it, against a declarative reading of each rule |
| `EtcdSnapshots` | the Secret with the snapshot settings, the status, and when to look in the bucket |
| `AbuseWindow`, `AbuseDetector`, `AbuseRuns`, `AbuseFindings`, `AbuseReconciler` | runs of CPU use, the sampler that keeps them, what it keeps and finds over any run of samples, and saying what was found |
| `Logins`, `DeviceLogin` | the logins the command line saves and uses, and the polling loop of section 3.5 of RFC 8628 |
| `ComputeFactory`, `ServerCache` | two caches and the simple things they stand for |
| `CredentialCopies` | the copy of an external store's credentials beside the add-on that uses it |

Code that changes an object step by step is a class or a method over `Api`, with `modifies` and a contract that ties the
new state to a function of the old one (`ensures (State(), answer) == Pass(old(State()), input)`); the properties are then
proved of that function, over whole runs.

## Where the code and its promises differ

- A webhook outcome is not sent "once per outcome": the mark remembers only the last outcome, so outcomes that alternate
  are each sent again (`Webhooks.AlternatingOutcomesAreSentAgain`). What does hold is that a repeat needs another outcome
  or a new announcement in between (`Webhooks.RepeatNeedsAnotherOutcome`, `Webhooks.SameOutcomeNeedsANewAnnouncement`), and
  `Webhooks.RepeatsExactlyWhen` says which passes repeat one.
- The instant an etcd destination was set is reported to the nanosecond by the pass that sets it and cut to the second
  from then on (`EtcdSnapshots.FirstInstantIsCutToTheSecond`). So is the time of a look, and two looks may be up to a
  second less than a minute apart (`EtcdSnapshots.NextLookMayComeAFractionEarly`). They are a full minute apart if and only
  if the first was recorded on a whole second, or the wait is not for a first copy, or the destination is then fifteen
  minutes old (`EtcdSnapshots.FullMinuteExactlyWhen`).
- On a stale copy a suspicion can be announced twice (`AbuseReconciler.StaleCopyMayWarnAgain`), a review that was renewed
  after the copy was read is removed with the one that ended (`AbuseReconciler.RunningReviewIsRemovedOnAStaleCopy`), and a
  change whose status write was not answered is never announced (`AbuseReconciler.WarningsNumberTheChanges`).
- Only two thousand runs are stored, and what is cut is exactly runs that begin at that very sample behind two thousand
  others (`AbuseRuns.CutRunsBeginNow`). A run that is stored and goes on is therefore never cut
  (`AbuseRuns.FindingIsRecordedOrKept`), but a use can be missed for good: while two thousand stored runs go on whose
  suspicions cannot be written, a service beyond them is never stored and never suspected (`AbuseRuns.CrowdedOutForGood`).
- A pass that still sees an etcd Secret of another type deletes whatever is there by then, makes the right Secret again
  since the present, and looks in the bucket at once (`EtcdSnapshots.StaleSightResetsSince`); that is the only way the instant
  is lost while the destination stays (`EtcdSnapshots.EnsureKeepsSince`). A pass that is given the cluster as it was before a
  look was recorded looks again at once, however short a time ago that was (`EtcdSnapshots.StaleStatusLooksAgain`). A
  withdrawal acts on what it saw: it takes a foreign Secret away when it saw Geass's, and leaves Geass's when it saw none
  (`EtcdSnapshots.WithdrawnForgets`).
- A configuration file that holds a login under the empty name gives that login to addresses it was not made for
  (`Logins.EmptyNameIsAnsweredForOtherAddresses`). No command saves one (`Logins.RunIsByTheBook`).
- A Secret that has the name of a credentials copy and is someone else's is left alone by removing and taken over by
  placing; a removal that saw an older copy can delete it (`CredentialCopies.ForeignSecretIsTakenOver`). A pass that saw an
  older copy can also answer without an error and leave the copy out of step
  (`CredentialCopies.PassOfARunPutsInStep` says exactly when).
- Keys of problems are told apart without names being free of slashes: the parts in front of a name hold none
  (`AlertingSpec.SameKeySameProblem`).

## Model

| member | source | states |
|---|---|---|
| `ApiServer.VersionNamesContent` | internal/controller/cluster_issuer.go:232-236 | in any history of an object, a copy and the object with the same version are the same, which is what the version check of every write rests on |
| `ClusterIssuer.MergeClusterIssuerSpec` | pkg/platform/clusterissuer.go:115-126 | the loop over the managed fields writes exactly those and leaves every other field; it fails exactly when spec.acme is no map |
| `ClusterIssuer.Merged` | pkg/platform/clusterissuer.go:102-126 | a merged spec is current |
| `ClusterIssuer.OtherOwnerOf` | internal/controller/cluster_issuer.go:202-215 | there is no other owner if and only if the issuer is not Geass's, names none or this cluster, or its owner was looked up and not found; an owner that cannot be looked up stays the owner |
| `ClusterIssuer.EnsureClusterIssuer` | internal/controller/cluster_issuer.go:121-197 | the pass, imperative, carries out its plan against the server as it is by then: every branch, its outcome and its one write |
| `ClusterIssuer.WriteSawThePresent` | internal/controller/cluster_issuer.go:133-197 | a write that lands found the issuer exactly as the pass had read it, however long ago |
| `ClusterIssuer.LandedWriteByField` | pkg/platform/clusterissuer.go:45-64 | after any pass of any run whose write lands, the issuer has the trimmed address, the server, the account key and the solver each in its own field, the mark and the cluster's name as its labels, and every other field as the pass read it |
| `ClusterIssuer.ForeignIssuerIsLeftAlone` | internal/controller/cluster_issuer.go:154-160 | in every run an issuer without Geass's mark is never changed by a pass, even if it appeared or lost its mark after the read |
| `ClusterIssuer.LostRaceIsUnknown` | internal/controller/cluster_issuer.go:232-236 | a lost race changes nothing, reports unknown and is tried again |
| `ClusterIssuer.TakeoverNeedsAVanishedOwner` | internal/controller/cluster_issuer.go:151-187 | the owner changes only if the lookup, asked between read and write, did not find the old owner, and only to the passing cluster, which has an email |
| `ClusterIssuer.WriteSettles` | internal/controller/cluster_issuer.go:170-197 | with clusters held still, any write leaves the issuer as its living owner wants it, field by field |
| `ClusterIssuer.SettledStays` | internal/controller/cluster_issuer.go:133-187 | from there no pass of any cluster writes, and cert-manager's reports change nothing about that |
| `ClusterIssuer.AtMostOneWrite` | internal/controller/cluster_issuer.go:121-215 | from any issuer, in every interleaving of any number of passes of any number of clusters, at most one write lands |
| `ClusterIssuer.UndisturbedPassSettles` | internal/controller/cluster_issuer.go:121-197 | one undisturbed pass of a cluster that may have the issuer is enough to settle it |
| `ClusterIssuer.ReportsReadyExactlyWhen` | internal/controller/cluster_issuer.go:253-273 | a pass reports that certificates can be issued if and only if cert-manager is up and says that the issuer works, and the pass left it in place or got its write through |
| `ClusterIssuer.ReadyReportSaysWhose` | internal/controller/cluster_issuer.go:153-197 | such a report says whose the issuer is, and asks for a look soon only after a write |
| `ClusterIssuer.ReportsWhyNot` | internal/controller/cluster_issuer.go:121-247 | what each other cause is reported as, and how soon it is tried again |
| `Webhooks.NotifyDeployOutcome` | internal/controller/geassapp_webhooks.go:20-45 | sends exactly when the service was announced, its mark names something else, and the claim was answered |
| `Webhooks.EveryOutcomeSentWasClaimed` | internal/controller/geassapp_webhooks.go:20-45 | in every run with stale copies, races, lost answers and crashes, the outcomes sent are, with multiplicity, among the claims committed |
| `Webhooks.MarkNamesItsRevision` | internal/controller/geassapp_webhooks.go:24-30 | a mark begins with a time stamp and a colon only if that is its own revision |
| `Webhooks.SameOutcomeNeedsANewAnnouncement` | internal/controller/geassapp_webhooks.go:24-45 | two claims in a row for one revision name the same outcome only if its deploy was announced again between them |
| `Webhooks.ClaimsFollowTheirAnnouncement` | internal/controller/geassapp_webhooks.go:24-30 | back from any claim there are only claims of its revision, up to its announcement |
| `Webhooks.OnlyAnnouncedDeploysAreReported` | internal/controller/geassapp_webhooks.go:24-45 | what was sent is of a deploy that was announced |
| `Webhooks.AlternatingOutcomesAreSentAgain` | internal/controller/geassapp_webhooks.go:13-45 | from any service with a recorded outcome, two alternating passes both claim, so an outcome can be sent twice for one announcement |
| `Webhooks.RepeatNeedsAnotherOutcome` | internal/controller/geassapp_webhooks.go:31-45 | an outcome is claimed twice for one announcement only with another outcome between |
| `Webhooks.RepeatsExactlyWhen` | internal/controller/geassapp_webhooks.go:20-45 | in any run, a pass on the service as it is claims and sends again an outcome claimed since the announcement if and only if the service is deployed and its mark names another; else it changes nothing |
| `AlertingEvaluation.EvaluateProblems` | internal/controller/alerting_rules.go:67-93 | the answer is strictly sorted by key and holds, when names are unique, exactly the problems that the rules call for by the fields of the resources alone |
| `AlertingRules.RulesAgree` | internal/controller/alerting_rules.go:105-370 | each of the seven rules, written out from conditions, phases and labels with its key, severity, path and names, calls for exactly what the evaluation's own helpers do |
| `AlertingEvaluation.Sorted` | internal/controller/alerting_rules.go:86-92 | one problem for each key of the map, in order, and no other |
| `AlertingEvaluation.ProblemEvaluation.Builds` | internal/controller/alerting_rules.go:124-141 | the loop adds the failed builds in order |
| `AlertingEvaluation.ProblemEvaluation.Deploys` | internal/controller/alerting_rules.go:146-196 | the loops over the four lists and over what they hold add the failed deploys |
| `AlertingEvaluation.ProblemEvaluation.ServicesDown` | internal/controller/alerting_rules.go:208-248 | the loop adds the services that are down and then drops those said already |
| `AlertingEvaluation.ProblemEvaluation.Backups` | internal/controller/alerting_rules.go:250-263 | the loop adds the databases at risk |
| `AlertingEvaluation.ProblemEvaluation.Nodes` | internal/controller/alerting_rules.go:268-299 | the loops add the nodes that failed or do not answer, but for those being upgraded |
| `AlertingEvaluation.ProblemEvaluation.Clusters` | internal/controller/alerting_rules.go:301-335 | the loop and its five checks add every issue of every cluster |
| `AlertingEvaluation.ProblemEvaluation.Abuse` | internal/controller/alerting_rules.go:340-358 | the loop adds the suspected services |
| `AlertingSpec.AdditionsExact` | internal/controller/alerting_rules.go:124-358 | what the loops add is what is wrong, rule by rule, both ways |
| `AlertingSpec.SameKeySameProblem` | internal/controller/alerting_rules.go:360-362 | two problems with one key are one problem, whatever characters names hold |
| `AlertingSpec.FoundIsWhatIsWrong` | internal/controller/alerting_rules.go:67-102 | sound and complete: the map holds a problem under its key if and only if it is wrong |
| `AlertingOrder.SortedOnce` | internal/controller/alerting_rules.go:86-92 | there is one way to write a set of problems in order |
| `Text.LessIsByTheFirstDifference` | internal/controller/alerting_rules.go:91 | the order of keys is that of dictionaries |
| `AlertingSpec.OrderDoesNotMatter` | internal/controller/alerting_rules.go:67-102 | every permutation of the input lists gives the same answer |
| `AlertingSpec.CleanupDropsNothing` | internal/controller/alerting_rules.go:236-247 | with unique names the cleanup after the down check removes nothing |
| `AlertingSpec.NeverBothDownAndFailed` | internal/controller/alerting_rules.go:174-248 | no service is reported both down and failed to deploy, unique names or not |
| `AlertingSpec.LookRemembers` | internal/controller/alerting_rules.go:174-196 | one look: a deploy is reported if it gave up now, or was reported before and is still not Ready |
| `AlertingSpec.FailedDeployIsALatch` | internal/controller/alerting_rules.go:146-196 | over any sequence of looks a key is found at look n if and only if some look m up to n saw it give up and in every look from m to n it was deployed, not quiet, and had a Ready condition other than True |
| `AlertingRules.FailedDeployIsALatchOfFields` | internal/controller/alerting_rules.go:146-196 | the same latch by the fields, for each of the five kinds that are deployed |
| `EtcdSnapshots.EnsureEtcdSnapshotsSecret` | internal/controller/etcd_snapshots.go:217-266 | the Secret after the pass and the instant it reports, for any copy it saw and every fate of its read, delete and write |
| `EtcdSnapshots.Reconciler.SetCondition` | internal/controller/etcd_snapshots.go:293-321 | the status after an assessment keeps what was last seen unless something was seen |
| `EtcdSnapshots.Reconciler.ReconcileEtcdSnapshots` | internal/controller/etcd_snapshots.go:107-185 | one pass, imperative, on whatever Secret and cluster it saw, is the step that the run lemmas are about |
| `EtcdSnapshots.PassTellsK3s` | pkg/platform/etcd_snapshots.go:121-138 | after a pass that saw the present Secret and got through, the Secret is of K3s's type, and has the bucket, folder, access key and secret key each under its own flag, an endpoint, region and insecure exactly when the spec sets them, and nothing else |
| `EtcdSnapshots.SettingsReachK3s` | internal/controller/etcd_snapshots.go:217-266 | over any run that stays so, however old what the passes see and whatever fails, until the settings change or a pass clears |
| `EtcdSnapshots.AssessedExactly` | pkg/platform/etcd_snapshots.go:158-188 | current, stale, waiting or none, by whether a copy is there, one is of the last 25 hours, and 13 hours have passed |
| `EtcdSnapshots.SeenExactly` | internal/controller/etcd_snapshots.go:309-318 | what is recorded is the copy written last, by second and name, and how many there are |
| `EtcdSnapshots.LookSays` | internal/controller/etcd_snapshots.go:166-212 | a look records what it found and when, and how long it says to wait is how long the next pass waits, but for a bucket that could not be read |
| `EtcdSnapshots.FailuresAreSaid` | internal/controller/etcd_snapshots.go:136-153 | missing keys and settings that could not be written are said, and tried again in a minute |
| `EtcdSnapshots.SinceIsKeptOrNow` | internal/controller/etcd_snapshots.go:217-266 | the instant reported is that of the Secret the pass saw if and only if that is of the type, for this destination and readable; else the present |
| `EtcdSnapshots.EnsureKeepsSince` | internal/controller/etcd_snapshots.go:217-266 | however old what it saw and whatever fails, a pass keeps the instant, unless it saw a Secret of another type and its delete was carried out; then the Secret is gone or set since the present |
| `EtcdSnapshots.SinceSurvives` | internal/controller/etcd_snapshots.go:217-282 | through any number of key rotations, failed requests and stale sights the instant stays on the Secret, until a pass clears it |
| `EtcdSnapshots.SinceIsReported` | internal/controller/etcd_snapshots.go:217-266 | every pass for the destination that gets through, and saw the Secret since it was set, reports that instant |
| `EtcdSnapshots.StaleSightResetsSince` | internal/controller/etcd_snapshots.go:228-266 | two passes that both see a Secret of another type: the second takes away what the first made, and resets the instant |
| `EtcdSnapshots.FirstInstantIsCutToTheSecond` | internal/controller/etcd_snapshots.go:240-266 | what the setting pass reports is what later ones do if and only if the clock stood on a second |
| `EtcdSnapshots.WithdrawnForgets` | internal/controller/etcd_snapshots.go:107-125 | exactly what a withdrawal without an error leaves, for any sight: the Secret goes if and only if the pass saw one of Geass's, the status if and only if its write was sent |
| `EtcdSnapshots.FreshWithdrawalTakesOnlyOurs` | internal/controller/etcd_snapshots.go:269-282 | with a fresh sight exactly Geass's Secret is taken away |
| `EtcdSnapshots.AdmittedHoldsNoBar` | api/v1alpha1/geasscluster_types.go:241-267 | what the API admits holds no separator |
| `EtcdSnapshots.DestinationsAreToldApart` | internal/controller/etcd_snapshots.go:323-329 | two admitted specs have one hash if and only if they name one destination, given that the hash tells texts apart |
| `EtcdSnapshots.OneInstantForADestination` | internal/controller/etcd_snapshots.go:217-266 | over any run, passes whose specs agree on the five destination fields report one instant, and the first that names another destination reports the present, until a pass clears the Secret |
| `EtcdSnapshots.LastCopyIsWhatWasLastSeen` | internal/controller/etcd_snapshots.go:136-177 | over any run with the spec set, the recorded copy is what the last look that found one found, and is never blanked |
| `EtcdSnapshots.OnlyALookReplacesLastCopy` | internal/controller/etcd_snapshots.go:293-320 | a failed look, missing credentials or a failed Secret write leave it |
| `EtcdSnapshots.LooksExactlyWhen` | internal/controller/etcd_snapshots.go:155-166 | a pass looks if and only if it wrote the settings, or the cluster it was given knows of no look, or the wait that it knows of is over; else it returns exactly the rest |
| `EtcdSnapshots.StaleStatusLooksAgain` | internal/controller/etcd_snapshots.go:155-166 | a pass given the cluster from before a look was recorded looks again at that very instant |
| `EtcdSnapshots.WakeUpAfterLook` | internal/controller/etcd_snapshots.go:155-166 | a pass on what a look left either changes nothing and returns exactly the rest of the wait, or looks |
| `EtcdSnapshots.EarlyWakeUpsChangeNothing` | internal/controller/etcd_snapshots.go:155-177 | any number of early wake-ups leave everything as the look left it, whichever of the states since they saw |
| `EtcdSnapshots.WakeUpsReturnTheRest` | internal/controller/etcd_snapshots.go:155-212 | while requests land, each wake-up returns exactly the rest of the interval since the recorded second, and the next look comes if and only if it is over |
| `EtcdSnapshots.LooksAreSpaced` | internal/controller/etcd_snapshots.go:107-212 | with settings and keys still, a look that was given the cluster from any time after an earlier look was recorded comes a minute after it, but for the fraction the record is cut by, whatever fails and goes missing between them and however old the Secrets that were seen, unless a pass clears the Secret |
| `EtcdSnapshots.FullMinuteExactlyWhen` | internal/controller/etcd_snapshots.go:155-212 | the next look can come only a full minute later if and only if the record is on a whole second, or the wait is not for a first copy, or the destination is then fifteen minutes old |
| `EtcdSnapshots.IntervalLengthensOnce` | internal/controller/etcd_snapshots.go:189-212 | the interval changes only from one minute to five, when the destination turns fifteen minutes old before its first copy |
| `EtcdSnapshots.NextLookMayComeAFractionEarly` | internal/controller/etcd_snapshots.go:155-212 | the cut second lets a look come that fraction early |
| `AbuseWindow.ShareIsTheLargest` | pkg/abuse/window.go:29-34 | the share is the largest whole number of thousandths of what is allowed that was used, and zero when nothing is allowed |
| `AbuseWindow.ReadingCounts` | pkg/abuse/window.go:76-116 | a reading counts if and only if it is measured, its use is at the percentage of what it is allowed, the blind one where the requests asked for are unknown, and it is quiet where that is asked |
| `AbuseWindow.RunIsTheLongestUnbroken` | pkg/abuse/window.go:93-116 | folding Observe over any history sums up exactly the longest unbroken string of counting samples that ends it |
| `AbuseWindow.EvidenceOfRun` | pkg/abuse/window.go:36-58 | the run's count, sum and beginning are that string's, and its least share is a lower bound that one of its samples reaches |
| `AbuseWindow.SuspectedWhenTheWindowHasLasted` | pkg/abuse/window.go:61-116 | a suspicion is raised if and only if that string has lasted its window, the blind one if any of it was blind |
| `AbuseDetector.RecordSuspect` | internal/controller/abuse_detector.go:241-266 | a service without a suspicion gets the run's when the write is carried out; no service appears or goes, and nothing else changes |
| `AbuseDetector.KeepFirst` | pkg/abuse/state.go:97-110 | the sort and the cut keep exactly the runs with fewer than MaxRuns before them, by beginning and then name, and as many as there are up to MaxRuns |
| `AbuseDetector.AtMostMaxRuns` | pkg/abuse/state.go:64-68 | no more than MaxRuns runs are ever stored |
| `AbuseDetector.Detector.Sample` | internal/controller/abuse_detector.go:93-166 | one sample, imperative, is the step that the run lemmas are about, for every failure, and it answers an error exactly when a read, a measurement or the write of the state failed |
| `AbuseRuns.WalkOfTarget` | internal/controller/abuse_detector.go:130-166 | exactly what each target of a sample that is not cut short comes to, in runs and suspicions, whichever targets come before and after it |
| `AbuseRuns.SamplesDoNotInterleave` | pkg/abuse/state.go:64-89 | a sample whose runs another operator has written since leaves those whole and answers an error; any other comes to what it would alone |
| `AbuseRuns.SuspicionsAreNeverRewritten` | internal/controller/abuse_detector.go:241-266 | over any run of samples of any operators a suspicion stays as it was recorded |
| `AbuseRuns.StoredRunsStayPlausible` | pkg/abuse/state.go:64-89 | over any run of samples at most MaxRuns runs are stored, each begun no later than it was last seen |
| `AbuseRuns.CutRunsBeginNow` | pkg/abuse/state.go:97-110 | a run is cut if and only if it begins at this sample behind MaxRuns others |
| `AbuseRuns.FindingIsRecordedOrKept` | internal/controller/abuse_detector.go:93-166 | a stored run that reaches its window is on the service or still stored after the sample, whatever fails and however many other runs there are |
| `AbuseDetector.FewRunsAreAllKept` | pkg/abuse/state.go:97-110 | up to MaxRuns runs are all kept |
| `AbuseRuns.NothingIsLostOverARun` | internal/controller/abuse_detector.go:93-166 | over any run of samples of any operators a stored use that goes on is never lost, whatever of metrics, measurements and writes fails |
| `AbuseRuns.KeptExactlyWhen` | internal/controller/abuse_detector.go:130-166 | after a sample that completes, a target's run is stored if and only if it is in use, its suspicion was not recorded, and fewer than MaxRuns runs of the sample come before it |
| `AbuseRuns.UseIsKeptFromItsStart` | internal/controller/abuse_detector.go:93-166 | a use that begins with fewer than MaxRuns runs before it, and goes on, is never lost from then on |
| `AbuseRuns.CrowdedOutForGood` | pkg/abuse/state.go:97-110 | while MaxRuns stored runs go on and none of their suspicions is recorded, no other service is ever stored or suspected |
| `AbuseFindings.StoredRunIsTheFold` | internal/controller/abuse_detector.go:130-166 | over any run of samples with settings that stay, a service's stored run is the fold of exactly its readings since it was last dropped, while it is not cut |
| `AbuseFindings.SuspectedExactlyWhen` | internal/controller/abuse_detector.go:130-166 | a sample leaves a suspicion if and only if the longest unbroken use of the service, by its own readings, has lasted its window and the write is carried out, and the suspicion says when that use began and how many readings it has |
| `AbuseFindings.AnswersExactlyWhen` | internal/controller/abuse_detector.go:93-166 | a sample has no error if and only if settings, runs, targets, their use once metrics answer, and the write were all answered |
| `AbuseFindings.TurnedOffForgets` | internal/controller/abuse_detector.go:98-105 | with the setting taken away the stored runs go and no service is touched |
| `AbuseReconciler.RepeatedPassIsSilent` | internal/controller/abuse.go:94-152 | a pass repeated at once changes nothing and records no event |
| `AbuseReconciler.TurnedOffLeavesNothing` | internal/controller/abuse.go:94-152 | turned off, both annotations and the condition go, without an event |
| `AbuseReconciler.TurnedOnSaysWhatIsThere` | internal/controller/abuse.go:94-152 | turned on, the suspicion and a running review stay and the condition says what they do |
| `AbuseReconciler.EventsByWhatWasThere` | internal/controller/abuse.go:156-173 | which of the warnings and notes a pass records, by what the service carried |
| `AbuseReconciler.StepWarnsOfItsChange` | internal/controller/abuse.go:156-173 | a pass warns exactly when the condition becomes True and the write is answered |
| `AbuseReconciler.WarningsNumberTheChanges` | internal/controller/abuse.go:94-173 | over any life of a service, warnings and unanswered changes together number the changes into True |
| `AbuseReconciler.StaleCopyMayWarnAgain` | internal/controller/abuse.go:130-173 | exactly which stale copies warn of what was announced |
| `AbuseReconciler.RunningReviewIsRemovedOnAStaleCopy` | internal/controller/abuse.go:94-125 | exactly which stale copies remove a running review |
| `AbuseReconciler.Reconciler.Reconcile` | internal/controller/abuse.go:51-91 | for any copies and any fates of the writes: what each service is left as, which events are recorded, that the project's condition is wanted True if and only if the setting is on and a copy in hand is suspected, when its write is sent, the requeue, and where a pass that fails stops |
| `AbuseReconciler.FreshPassSeesTheServices` | internal/controller/abuse.go:51-91 | on fresh reads that is True if and only if the setting is on and a service not being deleted is suspected, and the requeue is zero without a running review, else the larger of a second and the least time left |
| `AbuseReconciler.SuspicionsOutliveThePass` | internal/controller/abuse.go:94-118 | and after the pass the same services are suspected |
| `AbuseReconciler.Reconciler.ReconcileServices` | internal/controller/abuse.go:66-85 | the loop, its two accumulators and its early return, over any number of services and any fates of their writes |
| `Logins.FirstSetIsFirst` | internal/cli/config.go:196-203 | the value that is set and has none set before it |
| `Logins.NameIsTheHost` | internal/cli/config.go:101-111 | a login is named after the host of its address, whatever scheme is before it and whatever path or query after it, and "default" without one |
| `Logins.ContextNames` | internal/cli/config.go:91-98 | the names of the saved logins, each once, sorted |
| `Logins.ContextForAddress` | internal/cli/config.go:154-166 | the loop answers the one login for the address, none when there are several, whatever order the map gives |
| `Logins.Resolve` | internal/cli/config.go:132-150 | which login a command runs with, and how flags, environment and login combine |
| `Logins.SavedLoginBelongsToItsAddress` | internal/cli/config.go:132-173 | a login is used only for its address, one chosen by name is never swapped, and one found by address is the only one |
| `Logins.RightLoginIsUsed` | internal/cli/config.go:132-166 | the chosen login is used if and only if it is for the address, else the current one if it is, else the only one that is |
| `Logins.EmptyNameIsAnsweredForOtherAddresses` | internal/cli/config.go:154-166 | exactly when the search answers a login of another address |
| `Logins.Cli.Login` | internal/cli/login.go:50-93 | saving a login, keeping a project and an environment only for the same address |
| `Logins.Cli.Logout` | internal/cli/login.go:225-235 | forgetting a token leaves the address and its defaults |
| `Logins.Cli.SetContext` | internal/cli/login.go:390-405 | setting the defaults that were given |
| `Logins.LogoutForgets` | internal/cli/login.go:225-235 | token, user, role and expiry of the one login go; its address and defaults, every other login and the current name stay |
| `Logins.RunIsByTheBook` | internal/cli/login.go:80-93 | after any run of commands the file says exactly what the last commands about each name set or cleared, each value was saved for its login's address, and no login has an empty name |
| `Logins.NothingGoesToAnotherAddress` | internal/cli/config.go:113-150 | after any run, a command runs with exactly what was given for it, a flag before the environment, or what the last commands saved under the login it uses, and that was saved for the very address it runs against |
| `Logins.LoggedOutHasNoToken` | internal/cli/login.go:214-240 | over any run, a command that uses a login which was logged out, and not in again, has a token only if one was given for it |
| `DeviceLogin.DeviceLogin` | internal/cli/login.go:130-158 | before each poll it sleeps max(interval, 1) seconds and five for each slow_down so far; it ends with the first final answer or when time is up, with what that poll said; it always ends |
| `DeviceLogin.VerdictSays` | internal/cli/login.go:136-153 | each way to end comes from exactly the answers that mean it |
| `DeviceLogin.OneWayToEnd` | internal/cli/login.go:133-158 | the number of polls depends only on the answers and the clock |
| `DeviceLogin.PausesAddUp` | internal/cli/login.go:130-145 | k polls take at least k intervals and what each slow_down adds to every later pause |
| `DeviceLogin.PollsFitInTheLifetime` | internal/cli/login.go:130-158 | at most max(expires_in, 60) polls are made, fewer with a longer interval or slow_downs |
| `ComputeFactory.ConnectionComputeFactory.Provider` | internal/controller/compute_factory.go:63-100 | answer and cache after a call, in every branch; a failed build is not kept |
| `ComputeFactory.BuiltFromItsOwn` | internal/controller/compute_factory.go:63-93 | when a connection can make machines, by its fields, and that its provider, credentials and region are each passed in their place |
| `ComputeFactory.RefusedBecause` | internal/controller/compute_factory.go:65-83 | what is said when it cannot |
| `ComputeFactory.CredentialsOf` | internal/controller/compute_factory.go:103-110 | the data with stringData over it |
| `ComputeFactory.VersionsAreToldApart` | internal/controller/compute_factory.go:85 | two version texts are equal only if all four parts are |
| `ComputeFactory.CacheIsNotSeen` | internal/controller/compute_factory.go:63-100 | in every interleaving, whatever a caller read and however late it gets the lock, it is answered as if there were no cache |
| `ComputeFactory.ProviderIsKept` | internal/controller/compute_factory.go:46-49 | a provider is not built again until another version is asked for under its name |
| `ServerCache.ServerCache.Get` | internal/cli/mcp.go:149-158 | answer and entries after a read |
| `ServerCache.ServerCache.Put` | internal/cli/mcp.go:160-170 | the purging loop removes exactly what has expired |
| `ServerCache.CacheIsTheLog` | internal/cli/mcp.go:149-170 | at any time a token is answered with the last server put for it that has not expired |
| `ServerCache.PutLeavesTheLiving` | internal/cli/mcp.go:160-170 | a put leaves exactly the tokens that would still be answered |
| `ServerCache.NeverAnOlderServer` | internal/cli/mcp.go:149-170 | whatever the times, an answer is the last server put for the token |
| `CredentialCopies.CopyReadsBack` | pkg/observability/observability.go:154-208 | the data of the copy read back as the credentials they came from |
| `CredentialCopies.CredentialsExactly` | pkg/observability/observability.go:192-208 | which Secrets say how to sign in, how, and with which data |
| `CredentialCopies.PlaceCredentialsCopy` | internal/controller/external_observability.go:145-164 | the Secret and the version answered, for every failure |
| `CredentialCopies.RemoveCredentialsCopy` | internal/controller/external_observability.go:167-176 | only what was seen to be Geass's is deleted |
| `CredentialCopies.ExternalSink` | internal/controller/external_observability.go:79-140 | every branch of the setting comes to placing or removing what it asks for |
| `CredentialCopies.MissingIsNotUnreadable` | internal/controller/external_observability.go:120-140 | no credentials named, credentials missing or unusable, and credentials that cannot be read: what each comes to |
| `CredentialCopies.PlacingKeepsTheRest` | internal/controller/external_observability.go:145-164 | placing writes the credentials and the mark, and leaves the rest of the Secret |
| `CredentialCopies.PassPutsInStep` | internal/controller/external_observability.go:120-176 | after a pass without an error the copy is what the setting asks for, and the sink names it, at its version, if and only if credentials are asked for |
| `CredentialCopies.StalePassPutsInStep` | internal/controller/external_observability.go:120-176 | exactly when a pass without an error that saw an older copy leaves the copy as the setting asks |
| `CredentialCopies.PassOfARunPutsInStep` | internal/controller/external_observability.go:120-176 | the same of every pass of every run, however old what it saw and whoever else writes the Secret |
| `CredentialCopies.InStepStays` | internal/controller/external_observability.go:145-176 | a further pass writes nothing |
| `CredentialCopies.NamedVersionHeldTheCredentials` | internal/controller/external_observability.go:133-140 | the version a sink names is one at which the copy held exactly the credentials asked for |
| `CredentialCopies.SameVersionSameCredentials` | internal/controller/external_observability.go:47-63 | in every run, two sinks that name one version are for the same credentials, so new credentials start new pods |
| `CredentialCopies.ForeignSecretIsTakenOver` | internal/controller/external_observability.go:145-176 | exactly when a pass changes a Secret that is not Geass's |

## Left out

- Texts of messages, events and logs, and the YAML and shipper configuration built from a sink: strings for people and other programs. Only the reasons, keys, versions and names that decisions rest on are modelled.
- startClusterIssuerWatch, setClusterIssuerCondition and the watches, predicates and manager setup: framework plumbing around the passes.
- ProblemExporter.Sweep and the metrics it sets: it feeds each answer's keys back as what was open, which `AlertingSpec.Looks` states.
- Whitespace is ASCII whitespace; instants are nanoseconds without Go's special zero time, and integers do not overflow.
- How an address is written one way (normalizeAddress) is a parameter that writes the empty address as nothing.
- The hash of a destination is a parameter that tells texts apart; the source keeps the first eight bytes of SHA-256, which does so but for collisions.
- compute.New, metrics, buckets and measurements are parameters: what they answer is given to a pass.
- The detector's choice of targets, its availability note, and stored state that cannot be parsed.
- AbuseReconciler.Reconciler.Reconcile: services that were made or went since the list was read are not in it.
- AbuseReconciler.WarningsNumberTheChanges: is stated for passes on fresh reads; StaleCopyMayWarnAgain says what older ones do.
- AbuseRuns.FindingIsRecordedOrKept: starts from stored runs as samples write them (StoredRunsStayPlausible), not from a state that someone edited by hand.
- AbuseDetector.Detector.Sample: writes the state at every sample; the source leaves out the write when two samples of one second come to the same text.
- EtcdSnapshots.SinceSurvives: is about runs in which only these passes write the Secret; the lemmas about one pass hold whoever wrote it.
- ComputeFactory.CacheIsNotSeen: rests on what the API server promises, that a UID with a generation stands for one spec and a UID with a resourceVersion for one content, and that UIDs hold no slash.
- CredentialCopies.PassPutsInStep: is stated for a pass that saw the copy as it is; StalePassPutsInStep and PassOfARunPutsInStep are about older ones. Tenant headers and checks of addresses are not modelled.
- Reading and writing the configuration file, the browser, prompts and everything else the command line prints.
- The capacity gate (which adds up what pods ask of nodes), build isolation, backup archives, the note a killed container leaves, the console and network log controllers, the dashboard, the installer and the API types: single guards, copies of fields and user interface.
