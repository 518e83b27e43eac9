# Verification of the FinSec analysis and authentication cores

FinSec Hunt derives business-logic hypotheses from captured traffic, ranks them for a researcher, and
keeps per-actor authentication so that approved plans can be replayed. This project models five parts
of it in Dafny and proves what they promise for every input, every run and every document.

* **Hypothesis queue** (`Ordering`, `Domain`, `Supports`, `Clustering`, `ClusteringLoop`,
  `ClusteringProperties`, `ClusterGrades`, `Ranking`, `RankingLoop`, `RankingProperties`, `RankingOrder`,
  `Backlog`). Candidates are
  graded, grouped by fingerprint, merged with their independent supports, and ranked by a round-robin
  over mutation families; the backlog gets one unsuppressed draft per visible cluster. The loops that
  the program writes are methods here, each proved to compute a function whose laws (fairness of every
  prefix, greedy choice, order independence, provenance) are lemmas. `RankingOrder` and `ClusterGrades`
  say in plain numbers which cluster comes first, which evidence leads to which tier, and what every
  field of a reported cluster says about its candidates.
* **Actor authentication** (`SecretStore`, `Authentication`, `AuthService`, `AuthRuns`, `AuthApprovals`,
  `AuthFacts`, `AuthLimits`, `AuthClearing`, `AuthExamples`, `AuthOutcomes`, `RefreshOutcomes`,
  `Recommendation`). `Authentication` gives
  each operation as a transition on the persisted state; the classes `SecretStores.SecretStore` and
  `AuthServices.AuthService` update fields in place and are proved to perform exactly those
  transitions. `AuthRuns` reasons about arbitrary runs, over any number of actors, with the clock,
  network replies and token claims as free inputs of each step. `AuthOutcomes` and `RefreshOutcomes`
  say for each operation, from statuses, times and document contents alone, which branch is taken and
  what is recorded; the transitions are not named on that side.
* **Selectors and templates** (`Json`, `Text`, `JsonPointer`, `Identity`, `RefreshTemplate`). RFC 6901
  pointers evaluated with a two-pass unescape, and the dotted path language of the refresh template.
* **Workflow benchmark** (`Journeys`, `JourneyMetrics`, `TopKGate`, `TopKCounts`). A work list that
  derives journeys as connected components, fragment and pair counting, the complete top-K label gate,
  and what its selections, counts and rates mean.
* **Corpus metrics and token debris** (`CorpusMetrics`, `Utf8Fragments`). Micro-averaging, and the
  recognition of hexadecimal tokens that spell a UTF-8 sequence.

Hashes are taken to be injective, so a fingerprint is represented by the payload it hashes. Code that
is not shown in the core files (host coverage, token decoding, slugs, case folding, evidence and
hygiene predicates) enters as an arbitrary function. A source exception is a `None`, an error value
or an error constructor, never a precondition.

## Where the code keeps less than one might expect

Each of these is shown by a lemma about concrete or freely chosen values and proved together with the
exact condition under which the property does hold.

* *Array indices are not unique.* `str.isdigit` accepts digits outside ASCII, so a foreign digit for 1
  selects element 1 although it is not the RFC 6901 pointer of any node (`ForeignDigitsAlias`). An
  accepted index token is canonical if and only if it is ASCII (`IndexTokenIsCanonicalIffAscii`), and a
  pointer is the rendering of a path to a value if and only if it resolves to the value without such
  a token on the way (`ResolvesIffRendered`).
* *Resolution can raise.* A digit that is not a decimal, such as a superscript, passes the digit test
  and is refused by `int`, an error nothing catches (`SuperscriptRaises`). `RaisesIff` says exactly
  when, and `EvaluatorRaisesIff` carries it to the identity assertion. A check that raises this way
  records nothing: it counts as no failure, and an actor that was ready for execution stays ready
  (`RaisedCheckDecidesNothing`).
* *The refresh template confuses dotted keys.* In a body with the members `a.refresh_token` and `a` with
  `refresh_token` inside, the path listed for the first leads to the second: the first credential
  stays in clear text in the stored template and the body that is sent is not the observed one
  (`DottedKeyExample`, through the store in `DottedFlowExample` and `DottedFlowRun`). A listed path means its own leaf
  if and only if the leaf is reached by keys without `.` and `[` (`ListedPathIsSettable`), and the
  secret is hidden exactly then (`SecretIsHiddenIff`); keys elsewhere do not matter.
* *A marker in the body is replaced too* (`MarkedBodyExample`). For any body, path and secret, the round
  trip succeeds if and only if the path reads that secret and the body has no marker of its own
  (`TemplateRoundTrip`, through the store in `RefreshSendsObservedBody`).
* *Configuring a refresh flow can replace a checked secret.* The flow writes two fixed references, and a
  captured header named `refresh-token` already owns one of them. `ClobberingRun` stores such a
  capture, confirms it with a check and configures a flow: the actor is ready for execution, and no
  check of the run has seen the secret it replays. One configuration keeps the credential if and
  only if what it writes under a replayed reference was there before (`ConfigureKeepsCredentialIff`).
  Over a whole run, a ready actor always rests on a confirming check, and it replays what that check
  saw if and only if the last configuration since that wrote under a replayed reference wrote what
  was checked (`ExecutionRestsOnConfirmedCheck`).
* *A token without a subject separates record and credential.* If tenant or roles confirm continuity, the
  whole identity is replaced and a later token may name anybody (`SubjectlessTokenUnbinds`, two
  refreshes); if nothing can be compared, the record keeps a subject that the stored token no longer
  has (`HintlessTokenSplitsRecord`). An accepted refresh keeps both in agreement if and only if its
  token names a subject (`RenewalKeepsSubjectIffNamed`).
* *Clearing can leave a secret.* Storing under other component names or dropping the refresh component
  orphans references that a clear does not list (`ClearingLeavesSecret`); `ClearLeavesNothingIff` is
  the exact condition. Over runs only the actor's own stores and configurations can do that
  (`ClearAfterRunLeavesNothing`).
* *Planning preflight can hide a blocking status.* A short remaining lifetime overrides the stored
  status (`PlanningHidesExample`). `PlanningHidesStatusIff` says exactly when, for every planning
  request; `ExecutionNeverHidesStatus` says that execution is not affected.
* *Calibration fails on stale candidates.* A candidate that already carries semantics but whose invariant
  or workflow family is gone is grouped without a context, and the lookup fails (`StaleExample`).
  This is the only way it fails (`CalibrationFailsIffStale`).
* *Micro-averages count shared keys twice* (`SharedTagCountsTwice`), which a repeated journey id makes
  possible. Sums and unions agree if and only if nothing is shared
  (`MicroAverageIsUnionClassification`).
* *Hexadecimal debris is over-reported.* Overlong forms, surrogates and values beyond U+10FFFF are
  reported too (`OverlongExample`); `FragmentIsCharacterIff` separates them from real encodings.

## Model

| member | source | states |
|---|---|---|
| RankingLoop.RankHypothesisClusters | finsec/behavior/hypothesis_precision.py:1401-1442 | the loop over bucket lists that are re-sorted and popped in place terminates and returns the round-robin queue `Ranked`; the lemmas below say what it holds, which cluster opens it and how each place is filled, in plain numbers |
| RankingLoop.VisitFamilies | finsec/behavior/hypothesis_precision.py:1427-1441 | one round of the inner loop performs exactly one visit per family of the round's order, in that order |
| RankingLoop.FillBuckets | finsec/behavior/hypothesis_precision.py:1415-1419 | after grouping, every family of the input has its own clusters in base-key order |
| RankingLoop.OrderFamilies | finsec/behavior/hypothesis_precision.py:1423-1426 | the family order of a round does not depend on how the dictionary is enumerated |
| RankingProperties.RoundRobinIsFair | finsec/behavior/hypothesis_precision.py:1401-1442 | no family monopolizes the queue: in every prefix, while family g has clusters left, any f was shown at most once more than g |
| RankingProperties.RankedIsPermutation | finsec/behavior/hypothesis_precision.py:1409-1442 | exactly the selected clusters come out, each as often as it went in |
| RankingProperties.EveryPlaceIsGreedy | finsec/behavior/hypothesis_precision.py:1431-1439 | each place goes to the least-shown subject its family still has, ties by base key; clusters sharing family and subject appear in base-key order |
| RankingProperties.FirstIsBest | finsec/behavior/hypothesis_precision.py:1391-1398 | the queue opens with the least base key of all selected clusters; `QueueOpensWithBest` says in plain numbers which cluster that is |
| RankingProperties.RankedForgetsInputOrder | finsec/behavior/hypothesis_precision.py:1409-1442 | every permutation of clusters that do not tie gives the same queue |
| RankingProperties.DistinctIdsNeverTie | finsec/behavior/hypothesis_precision.py:1391-1398 | distinct ids are enough for clusters never to tie, because the id closes the base key |
| RankingProperties.RankedIsIdempotent | finsec/behavior/hypothesis_precision.py:1401-1442 | ranking a ranked queue again changes nothing |
| RankingOrder.QueueHoldsWhatWasAsked | finsec/behavior/hypothesis_precision.py:1383-1388 | a cluster is in the queue, as often as given, if and only if it is not a suppressed or RESEARCH_LOW one that was not asked for |
| RankingOrder.QueueOpensWithBest | finsec/behavior/hypothesis_precision.py:1391-1398 | no cluster asked for has a greater promotion than the first; among equals the greater research score, then more supports, then the higher score, then the lesser id decides |
| RankingOrder.FamiliesAreInPreferredOrder | finsec/behavior/hypothesis_precision.py:1431-1439 | of two places of a family the earlier one had the less shown subject or, equally shown, precedes in those numbers; clusters sharing family and subject appear in that order |
| RankingOrder.FirstRoundFollowsBest | finsec/behavior/hypothesis_precision.py:1423-1426 | the first round shows each family once, and for whatever a later family has, an earlier one has a cluster that precedes it |
| RankingOrder.PromotionOrder | finsec/behavior/hypothesis_precision.py:1391-1398 | the six tiers ascend from SUPPRESSED to TEST_READY |
| Supports.SupportUnits | finsec/behavior/hypothesis_precision.py:538-650 | the dictionary loop computes the merge of one sighting per related workflow instance, and the single fallback unit exactly when there is no sighting |
| Supports.AggregateSupports | finsec/behavior/hypothesis_precision.py:1137-1161 | the nested loop computes the declarative merge of the set of all units, whatever their order, grouping or repetition |
| Supports.AggregationIsASetUnion | finsec/behavior/hypothesis_precision.py:1137-1161 | two families of support lists that supply the same units have the same merge |
| Supports.MergingIsIdempotent | finsec/behavior/hypothesis_precision.py:1137-1161 | merging in stages equals merging at once, so merging a merge changes nothing |
| Supports.CountIsDistinctSignatures | finsec/behavior/hypothesis_precision.py:573-607 | the support count is the number of distinct (captures, actors, resources, path) signatures, and every observation id is kept |
| Supports.ReobservationKeepsCount | finsec/behavior/hypothesis_precision.py:584-604 | seeing a known signature again, in another workflow instance, never raises the count; a new signature raises it by one |
| Supports.RelatedStepsMean | finsec/behavior/hypothesis_precision.py:546-551 | the related steps are exactly the steps with evidence or the affected action, in workflow order |
| Supports.SightingMeans | finsec/behavior/hypothesis_precision.py:553-604 | a sighting is signed by captures, resources, controlled actors and the actions of its related steps, in order, and keeps their observations |
| Supports.FallbackMeans | finsec/behavior/hypothesis_precision.py:606-650 | the fallback is signed by captures and known actors of the stored evidence, with the action and its endpoints, and names no workflow instance |
| ClusteringLoop.CalibrateHypotheses | finsec/behavior/hypothesis_precision.py:1315-1380 | the loops over candidates and groups compute the calibration, and fail exactly when a grouped member has no context; `AssessmentMeans`, `CalibratedListMeans` and `ReportedClustersMean` say what its candidates and clusters are |
| ClusteringLoop.FillTables | finsec/behavior/hypothesis_precision.py:1325-1355 | the three tables filled in id order hold every assessed candidate, a context per known one and a support list per id |
| ClusteringLoop.GroupByFingerprint | finsec/behavior/hypothesis_precision.py:1357-1361 | the groups are exactly the fingerprint classes, in candidate order |
| ClusteringLoop.BuildClusters | finsec/behavior/hypothesis_precision.py:1362-1364 | one cluster per fingerprint in sorted order, or a failure exactly when some context is missing |
| ClusteringLoop.BuildCluster | finsec/behavior/hypothesis_precision.py:1181-1311 | a cluster is built from the merge of its members' supports, and fails exactly when a member has no context |
| ClusteringProperties.SuppressedIffAllMembersAre | finsec/behavior/hypothesis_precision.py:1189-1235 | a cluster is suppressed if and only if every member is |
| ClusteringProperties.PromotionBounds | finsec/behavior/hypothesis_precision.py:1228-1252 | a cluster never ranks below a visible member, and exceeds all of them only through two supports, to RESEARCH_MEDIUM, or to RESEARCH_HIGH with a high-confidence visible member |
| ClusteringProperties.ReadinessIsUnanimous | finsec/behavior/hypothesis_precision.py:1164-1178 | readiness is TEST_READY if and only if a member is visible and all visible members are ready and unblocked |
| ClusteringProperties.TestReadyPromotionHasAReadyMember | finsec/behavior/hypothesis_precision.py:1329-1330 | a TEST_READY promotion rests on a visible member that is ready, unblocked and unsuppressed, because blocked candidates are demoted before grading |
| ClusteringProperties.RepresentativeIsMember | finsec/behavior/hypothesis_precision.py:1195-1208 | the representative is a member, and a visible one whenever there is one |
| ClusteringProperties.ClustersAreGraded | finsec/behavior/hypothesis_precision.py:1164-1278 | suppression, promotion bounds and readiness hold of every reported cluster and the candidates of its fingerprint |
| ClusteringProperties.CalibrationFailsIffStale | finsec/behavior/hypothesis_precision.py:1331-1336 | with unique ids, calibration fails if and only if a candidate brings semantics along but its invariant or family is unknown |
| ClusteringProperties.StaleExample | finsec/behavior/hypothesis_precision.py:1331-1336 | one candidate with semantics and an unknown invariant makes calibration fail |
| ClusteringProperties.CalibrationForgetsOrder | finsec/behavior/hypothesis_precision.py:1328-1380 | calibration does not depend on the order of its candidates |
| ClusteringProperties.ClustersAreFingerprintClasses | finsec/behavior/hypothesis_precision.py:1357-1364 | the reported clusters are exactly one per fingerprint |
| ClusteringProperties.EveryCandidateInExactlyOneCluster | finsec/behavior/hypothesis_precision.py:1315-1364 | every known candidate lands in the cluster of its fingerprint and in no other |
| ClusteringProperties.ClustersKeepProvenance | finsec/behavior/hypothesis_precision.py:1279-1311 | each member is a known candidate kept with its own context, and a cluster's observations are the union of its contexts' |
| ClusteringProperties.ClusterSupportsAreMerged | finsec/behavior/hypothesis_precision.py:1209-1209 | a cluster's supports are the merge of everything its members' evidence supplied |
| ClusterGrades.AssessmentMeans | finsec/behavior/hypothesis_precision.py:1027-1065 | a known candidate gets each of the six tiers if and only if suppression reasons, kind, readiness after demotion, strength and confidence are as that tier says; nothing else of a candidate changes |
| ClusterGrades.CalibratedListMeans | finsec/behavior/hypothesis_precision.py:1365-1380 | the calibrated list holds every candidate as assessed, the most promoted first, then by research score, total score and id |
| ClusterGrades.ReportedClustersMean | finsec/behavior/hypothesis_precision.py:1181-1311 | every reported cluster has exactly the tier, scores, confidence, strength, readiness, blockers, reasons and representative that the candidates of its fingerprint and its supports give it |
| ClusterGrades.LowClustersAreWeak | finsec/behavior/hypothesis_precision.py:1228-1252 | a cluster with fewer than two supports is RESEARCH_LOW if and only if some candidate of it is unsuppressed and none of those is better than WEAK |
| ClusterGrades.RankOrders | finsec/behavior/hypothesis_precision.py:1228-1252 | confidence and strength ascend as their names say |
| Backlog.BacklogDraft | finsec/behavior/analysis.py:1764-1779 | the reassigned disposition is decided by representative, visibility and kind, and a draft carries notes exactly when it is suppressed |
| Backlog.SyncBacklog | finsec/behavior/analysis.py:1869-1880 | one draft per candidate that belongs to a cluster, in order, marked against that cluster's representative |
| Backlog.VisibleMeans | finsec/behavior/hypothesis_precision.py:1383-1388 | a cluster is visible unless it is suppressed, or RESEARCH_LOW and low ones were not asked for |
| Backlog.OneDraftPerCluster | finsec/behavior/analysis.py:1869-1880 | exactly one draft of every cluster is not a suppressed duplicate: the representative's |
| Backlog.UnsuppressedEqualsVisible | finsec/behavior/analysis.py:2083-2083 | as many drafts stay unsuppressed as clusters are counted visible |
| Backlog.CalibratedBacklogMatches | finsec/behavior/analysis.py:1987-2083 | for every candidate list with unique ids, calibration delivers the partition that makes both hold, end to end and with uniqueness |
| Json.UniqueObject | finsec/auth/identity.py:41-47 | an object is built with all its pairs in order, and refused exactly when a key repeats |
| JsonPointer.TwoPassesDecodeOnce | finsec/auth/identity.py:54-57 | on every accepted token, replacing `~1` and then `~0` is the one left-to-right decoding of section 4 of RFC 6901 |
| JsonPointer.DecodeEscape | finsec/auth/identity.py:54-57 | escaping any key gives an accepted token without a slash that decodes to the key |
| JsonPointer.EscapeDecode | finsec/auth/identity.py:54-57 | decoding loses nothing: an accepted token without a slash is the escape of what it decodes to |
| JsonPointer.IndexTokenIsCanonicalIffAscii | finsec/auth/identity.py:72-74 | an accepted index token is the canonical decimal of its value if and only if it is ASCII |
| JsonPointer.ResolveJsonPointer | finsec/auth/identity.py:60-80 | the loop that moves through the document returns the resolution of the pointer, including its missing and conversion-error outcomes |
| JsonPointer.PointerRoundTrip | finsec/auth/identity.py:60-80 | every node of every document is found again by the escaped pointer of its path |
| JsonPointer.ResolvesIffRendered | finsec/auth/identity.py:60-80 | for every document, pointer and value: a path to the value renders as the pointer if and only if the pointer resolves to it without a foreign array index on the way |
| JsonPointer.RenderedPathIsUnique | finsec/auth/identity.py:60-80 | within a document two paths never share a pointer |
| JsonPointer.SlashIsOptional | finsec/auth/identity.py:60-62 | a selector without a leading slash resolves like the pointer with it |
| JsonPointer.ForeignDigitsAlias | finsec/auth/identity.py:72-77 | a foreign decimal digit for 1 selects element 1 although no path renders to that pointer |
| JsonPointer.SuperscriptRaises | finsec/auth/identity.py:72-74 | a digit that is not a decimal raises the conversion error |
| JsonPointer.RaisesIff | finsec/auth/identity.py:62-78 | resolution raises if and only if a resolvable prefix ends in an array and the next token is all digits, without a leading zero, one of them not a decimal |
| JsonPointer.AsciiDigitsNeverRaise | finsec/auth/identity.py:62-78 | no pointer whose digit tokens are ASCII ever raises |
| Identity.ConfirmedIffNodeEqualsExpected | finsec/auth/identity.py:112-159 | for every selector that starts with a slash: a body assertion is confirmed without a foreign index if and only if a success response with the asserted status and no login page carries, at a path the selector renders, the scalar the expectation stands for: its literal, the account id, the subject or the tenant |
| Identity.EvaluatorRaisesIff | finsec/auth/identity.py:123-146 | the evaluator raises if and only if the answer fits, a value is wanted, the body parses and the body selector raises |
| Identity.ConfirmationLeavesReference | finsec/auth/identity.py:147-159 | confirmation, the CONFIRMED status and a confirmation reference always come together |
| Identity.ConfirmedIffHeaderEqualsExpected | finsec/auth/identity.py:100-110 | a header assertion is confirmed if and only if a fitting response has that header exactly once, in whatever letter case, with the wanted text |
| Identity.StatusesMean | finsec/auth/identity.py:112-146 | an assertion that is not confirmed has the status of the first test that failed, each exactly |
| Identity.ReferenceMeans | finsec/auth/identity.py:147-159 | a confirmation refers to this actor, the assertion and its status, with the wanted value only if it is fingerprinted |
| RefreshTemplate.ListedPathIsSettable | finsec/auth/service.py:1124-1160 | a listed path is read back as the node it was listed for if and only if clean keys alone lead there; then it can be set and reads that node, whatever the other keys are |
| RefreshTemplate.ListedIffScalar | finsec/auth/service.py:1124-1134 | the listing holds exactly the scalars of the document, each under the spelling of its place |
| RefreshTemplate.SettableIffReadable | finsec/auth/service.py:1137-1160 | in any document a path can be set if and only if it can be read, and then reads what was set |
| RefreshTemplate.PathReadsIff | finsec/auth/service.py:1137-1145 | a path reads a value if and only if it is a dollar sign and keys that lead there, each after a dot, without an opening bracket |
| RefreshTemplate.TemplateRoundTrip | finsec/auth/service.py:1148-1160 | for any body, path and secret, marking and replacing the marker restores the body if and only if the path reads that secret and the body holds no marker of its own |
| RefreshTemplate.TemplateHidesOnlyTheSecret | finsec/auth/service.py:1269-1287 | in between, the marker stands where the path leads and every node off that path is as observed |
| RefreshTemplate.SecretIsHiddenIff | finsec/auth/service.py:1269-1287 | the secret disappears from the node it was listed for if and only if clean keys alone lead there |
| RefreshTemplate.DottedKeyExample | finsec/auth/service.py:1148-1160 | two members with one spelling: the listed credential stays in the template and the sent body differs |
| RefreshTemplate.MarkedBodyExample | finsec/auth/service.py:1352-1357 | a marker in another member is replaced by the credential as well |
| RefreshTemplate.MarkThenReplaceIff | finsec/auth/service.py:1352-1357 | the same for any key path that leads to the credential |
| RefreshTemplate.ReplaceIsIdentityIff | finsec/auth/service.py:1352-1357 | replacing markers changes nothing if and only if there is none, or the secret is the marker |
| RefreshTemplate.SetKeysFrame | finsec/auth/service.py:1148-1160 | setting one path leaves every node elsewhere as it was |
| SecretStores.SecretStore.constructor | finsec/auth/store.py:21-59 | a store opens with what its file holds |
| SecretStores.SecretStore.Put | finsec/auth/store.py:79-89 | one valid secret is bound to its actor; an invalid reference or empty value changes nothing |
| SecretStores.SecretStore.PutMany | finsec/auth/store.py:91-100 | a batch is written entirely, later entries winning, or not at all, exactly when every item is valid |
| SecretStores.SecretStore.Resolve | finsec/auth/store.py:102-113 | a secret is resolved if and only if it is bound to this actor and not empty, and then with the stored value |
| SecretStores.SecretStore.Contains | finsec/auth/store.py:115-120 | a reference is contained if and only if it is bound to this actor and not empty |
| SecretStores.SecretStore.Remove | finsec/auth/store.py:122-132 | exactly the actor's own records among the references disappear |
| SecretStores.PutAllHolds | finsec/auth/store.py:91-100 | after a batch every written reference holds the last entry for it, and all other references are untouched |
| SecretStores.ResolveIsActorBound | finsec/auth/store.py:102-113 | after any batch, a reference written for others only never resolves for this actor |
| SecretStores.RemoveUndoesPut | finsec/auth/store.py:122-132 | removing what was just stored under new references restores the store |
| AuthOutcomes.ReferencePatternMeans | finsec/auth/store.py:79-100 | a reference is valid if and only if it is a lower-case letter or digit and 2 to 127 lower-case letters, digits or dashes |
| AuthServices.AuthService.constructor | finsec/auth/store.py:21-59 | a service starts on whatever accounts, plans and secrets its files hold |
| AuthServices.AuthService.InvalidateApprovals | finsec/auth/service.py:414-433 | the loop revokes every approved plan in place and leaves the others as they are |
| AuthServices.AuthService.CandidateComponents | finsec/auth/service.py:487-511 | components and secrets are paired by reference, with repeated names numbered by how often their base was used |
| AuthServices.AuthService.StoreCandidate | finsec/auth/service.py:514-597 | the whole state after a store, on every branch, is that of the transition the run and agreement lemmas are about |
| AuthServices.AuthService.ClearAuthentication | finsec/auth/service.py:724-739 | the secrets of the profile go, the profile becomes the missing or anonymous one, and every approval is revoked |
| AuthFacts.MarkingTouchesOnlyFacts | finsec/auth/service.py:742-776 | marking touches the recorded facts of one profile only: a fact not given stays, hints and every other field stay, and a reference stays only next to a confirmation |
| AuthServices.AuthService.MissingReferences | finsec/auth/service.py:1020-1025 | exactly the replayed references that do not resolve for the actor are collected, so none exactly when all resolve |
| AuthServices.AuthService.ActorPreflight | finsec/auth/service.py:920-1095 | the preflight that collects missing components and reassigns the status gives the verdict the preflight lemmas are about, on every branch |
| AuthServices.AuthService.ValidateActorBaseline | finsec/auth/service.py:812-917 | every refusal leaves the state unchanged, and each answered check records exactly its outcome; `CheckMeans` and `CheckCompletesIff` say which outcome that is |
| AuthServices.AuthService.ConfigureRefreshFlow | finsec/auth/service.py:1255-1349 | template and credential are stored together and the refresh component is replaced; a bad port still leaves the secrets written |
| AuthServices.AuthService.RefreshActorAuthentication | finsec/auth/service.py:1360-1491 | the whole state after a refresh, on every failure and success branch; `RefreshedSecretsMean`, `RefreshedProfileMeans` and `RejectedIff` say what it is |
| AuthServices.AuthService.AcceptRefresh | finsec/auth/service.py:1448-1491 | identity continuity is decided before any new secret is written, and access and rotated refresh token are then stored together, as `RefreshedSecretsMean` says |
| AuthFacts.RefreshForgetsAcceptance | finsec/auth/service.py:1466-1484 | an accepted refresh blocks execution at every later instant, keeps what replay depends on, and replaces the identity only when continuity was confirmed, then unconfirmed |
| AuthFacts.RunKeepsReferences | finsec/auth/service.py:768-775 | in every run a confirmed identity, and no other, carries a reference to the assertion of its present baseline, about this actor |
| AuthFacts.RaisedCheckDecidesNothing | finsec/auth/service.py:872-879 | a check on which the evaluator raises leaves the state and every preflight verdict as they were and is no failed check |
| AuthOutcomes.ContinuityMeans | finsec/auth/service.py:178-193 | identities conflict if and only if subject, tenant or roles are known on both sides and differ, and are confirmed if and only if none conflicts and one agrees; the order of the two does not matter |
| AuthOutcomes.ExpirationMeans | finsec/auth/service.py:471-484 | EXPIRED from the instant on, EXPIRING_SOON up to the threshold before it, otherwise the given status |
| AuthOutcomes.RevocationMeans | finsec/auth/service.py:414-433 | after a revocation no plan is approved, and plans that were not are as they were |
| AuthOutcomes.ComponentsMean | finsec/auth/service.py:487-511 | every captured component is stored for the actor under its own reference, numbered by the earlier uses of its base, and is replayed unless it is a refresh token |
| AuthOutcomes.StoreRefusals | finsec/auth/service.py:514-552 | exactly when a store is refused, for each reason |
| AuthOutcomes.StoredProfileMeans | finsec/auth/service.py:553-588 | a stored capture counts as accepted and in scope if and only if it shows a success status; the other fields come from the capture, the scope and the previous refresh flow |
| AuthOutcomes.StoreLeaves | finsec/auth/service.py:553-597 | a store writes the secrets of the capture and the fresh profile, gives the actor a type if it had none, and leaves every other account as it was |
| AuthOutcomes.StoredStatusMeans | finsec/auth/service.py:553-597 | the stored status: changed if and only if a configured identity cannot be compared and it is no renewal, else decided by lifetime and success; approvals end if and only if marked or the context differs |
| AuthOutcomes.ClearMeans | finsec/auth/service.py:724-739 | after a clear the actor has nothing to replay and no refresh flow, no plan is approved, and other accounts are as they were |
| AuthOutcomes.ListedMeans | finsec/auth/service.py:724-739 | a clear removes the references of all components and of the template, if there is one |
| AuthOutcomes.PreflightMeans | finsec/auth/service.py:920-1095 | exactly when an authenticated actor may execute and when a plan may be made: binding, secrets, whole seconds of lifetime against the threshold and ten seconds per request, stored status and recorded facts |
| AuthOutcomes.PreflightStatusMeans | finsec/auth/service.py:920-1095 | the reported status and availability in every case, anonymous and missing profiles included |
| AuthOutcomes.MarkMeans | finsec/auth/service.py:742-776 | every given fact is recorded as given |
| AuthOutcomes.CheckMeans | finsec/auth/service.py:872-917 | a completed check matches if and only if there is no login page, the status is 200 to 299 and equals the observed one if there is one; what is stored for login page, match and mismatch |
| AuthOutcomes.CheckCompletesIff | finsec/auth/service.py:812-879 | exactly when a check is completed; any other leaves the state as it was |
| AuthRuns.StepKeeps | finsec/auth/service.py:514-597 | any step but a confirming check: an actor that is verified after it was verified before, the step was neither a failed check nor a new credential, and what it still replays is what it replayed before or what this step configured under that reference |
| AuthRuns.ReadyMeansVerified | finsec/auth/service.py:1033-1080 | an execution verdict means accepted, confirmed, in scope, everything resolvable and no blocking stored status |
| AuthRuns.LastConfirmingCheck | finsec/auth/service.py:812-917 | in every run from an unverified profile, a verified state has a confirming check behind it with no failure and no new credential since; it replays the same references, and each that resolves holds what the last configuration since wrote there, or what it held at the check |
| AuthRuns.ExecutionRestsOnConfirmedCheck | finsec/auth/service.py:1020-1095 | in every run of store, refresh, check, clear and configure steps on any actors, READY_FOR_EXECUTION of an actor unverified at the start rests on a matching, confirming check with no failure and no replacement since; the replayed secrets are those of that check if and only if configurations since wrote what was checked, in particular if none overwrote a replayed secret |
| AuthOutcomes.ConfirmsMeans | finsec/auth/service.py:892-907 | a confirming check was answered without a login page, with the observed success status and with the asserted identity |
| AuthOutcomes.ExecutionRestsOnAnswer | finsec/auth/service.py:812-1095 | in every run, READY_FOR_EXECUTION of an actor unverified at the start rests on a check so answered |
| AuthApprovals.StepOnlyRevokes | finsec/auth/service.py:414-433 | no operation ever approves a plan: each step leaves the plans alone or revokes every approval |
| AuthApprovals.StepApproval | finsec/auth/service.py:538-546 | while an approval survives a step, a configured actor keeps its context and is not newly marked AUTH_CONTEXT_CHANGED, unless a confirmed renewal replaced the context |
| AuthApprovals.ApprovalOutlivesNoChange | finsec/auth/service.py:589-596 | over every run, a plan approved at the end was approved at the start, every configured actor is still configured and unmarked, and its context is the one right after its last confirmed renewal, or the initial one |
| AuthLimits.PlanningHidesStatusIff | finsec/auth/service.py:969-1063 | for every planning request, the verdict is ready in spite of a blocking stored status if and only if profile, context and hosts fit and the credential is available and within the expiry margin |
| AuthExamples.PlanningHidesExample | finsec/auth/service.py:1048-1063 | a credential with a minute left and a changed identity: planning is ready, execution is blocked |
| AuthLimits.ExecutionNeverHidesStatus | finsec/auth/service.py:1056-1066 | execution is refused for every stored blocking status |
| AuthLimits.RefreshKeepsSubject | finsec/auth/service.py:1448-1465 | one refresh whose token names a subject keeps recorded subject and stored credential in agreement |
| AuthLimits.RefreshesKeepSubject | finsec/auth/service.py:1448-1484 | over any sequence of such refreshes the stored access credential decodes to the subject first bound |
| AuthLimits.RenewalKeepsSubjectIffNamed | finsec/auth/service.py:1448-1484 | an accepted refresh keeps the recorded subject and that of the stored credential if and only if its token names a subject |
| AuthLimits.ConfirmedRefreshBinds | finsec/auth/service.py:1471-1475 | a refresh that confirms the identity and whose token names a subject binds record and credential to it |
| AuthExamples.SubjectlessTokenUnbinds | finsec/auth/service.py:1360-1491 | two accepted refreshes, the first without a subject, move record and credential to another subject; the second alone is refused |
| AuthExamples.HintlessTokenSplitsRecord | finsec/auth/service.py:1449-1484 | a token without hints is accepted: the record keeps its subject and the stored credential no longer has it |
| AuthLimits.ForeignTokenOnlyMarks | finsec/auth/service.py:1450-1454 | a renewal refused for another identity leaves secrets and identity untouched, sets the status, and leaves no plan approved |
| AuthLimits.ForeignSubjectIsRefused | finsec/auth/service.py:1448-1454 | a usable answer whose token names another subject is always refused that way |
| RefreshOutcomes.AcceptedAnswer | finsec/auth/service.py:1401-1454 | an accepted answer has the recorded status, the right type, a non-empty access token at the recorded path and no conflicting identity |
| RefreshOutcomes.RejectedIff | finsec/auth/service.py:1401-1447 | exactly which answers mark the profile REFRESH_FAILED |
| RefreshOutcomes.RefreshedSecretsMean | finsec/auth/service.py:1455-1465 | after an accepted refresh the access reference holds the new token, the refresh reference the rotated one if the answer carries it and else what it held, and every other reference what it held |
| RefreshOutcomes.RefreshedProfileMeans | finsec/auth/service.py:1466-1491 | the profile after an accepted refresh, with and without confirmed continuity |
| RefreshOutcomes.FailedRefreshMeans | finsec/auth/service.py:1360-1454 | a rejected answer changes the status only, and a refresh that is not sent changes nothing |
| RefreshOutcomes.NextRefreshSendsRotated | finsec/auth/service.py:1383-1385 | the body of the next accepted refresh is the stored template with the rotated token where the marker stands |
| RefreshOutcomes.FirstWithPurposeMeans | finsec/auth/service.py:1377-1447 | the component used is the first one with the purpose |
| RefreshOutcomes.ConfiguredMeans | finsec/auth/service.py:1287-1349 | every field of a configured flow, its one new component, and that nothing else of the profile changes |
| RefreshOutcomes.ConfiguredSecretsMean | finsec/auth/service.py:1269-1301 | after configuring, also when it fails on the port, the template reference holds the observed body with the marker in place of the credential, the other one the credential, and every other reference what it held |
| RefreshOutcomes.ConfigureRefusals | finsec/auth/service.py:1205-1286 | exactly when configuring is refused, for each reason |
| RefreshOutcomes.FirstNamedMeans | finsec/auth/service.py:1208-1239 | a credential is the first leaf with one of the names that is a non-empty text |
| RefreshOutcomes.LastPartMeans | finsec/auth/service.py:1206-1234 | the name of a leaf is what follows the last dot of its path |
| AuthLimits.RefreshSendsObservedBody | finsec/auth/service.py:1269-1301 | through the store and back, the body a refresh sends is the observed one if and only if the credential path reads the credential and the body held no marker of its own |
| AuthLimits.DottedFlowExample | finsec/auth/service.py:1269-1301 | with a dotted key, what a configured refresh sends is never what was observed |
| AuthExamples.DottedFlowRun | finsec/auth/service.py:1163-1349 | on concrete values: a dotted-key flow is configured and what is then sent is not what was observed |
| AuthLimits.ConfigureKeepsCredentialIff | finsec/auth/service.py:1289-1325 | configuring, also when it fails on the port, keeps every replayed secret if and only if what it writes under a replayed reference was there before; every other failure changes nothing |
| AuthLimits.ClobberedActorStaysReady | finsec/auth/service.py:1302-1313 | an overwritten replayed secret does not cost the actor its execution verdict |
| AuthExamples.ClobberingRun | finsec/auth/service.py:514-1349 | a run of store, confirming check and configure from an unverified actor ends ready for execution with a replayed secret that no check of the run has seen |
| AuthLimits.ClearLeavesNothingIff | finsec/auth/service.py:724-739 | a clear leaves the actor without secrets if and only if all of them are under references its present profile, if any, lists |
| AuthClearing.StepLists | finsec/auth/service.py:514-1491 | refreshes, checks, clears and everything other actors do keep all of an actor's secrets listed; its own store and configuration do unless they orphan one |
| AuthClearing.ClearAfterRunLeavesNothing | finsec/auth/service.py:724-739 | after every run on any actors in which no store or configuration of the actor orphaned a secret, a clear leaves the actor without any |
| AuthExamples.ClearingLeavesSecret | finsec/auth/service.py:514-739 | two captures with different header names and a clear: the first secret still resolves |
| Recommendation.Recommend | finsec/auth/service.py:200-375 | the loop assesses every candidate, flags none if and only if none is eligible, and otherwise flags the first greatest score among the eligible |
| Recommendation.BestIsUniqueMaximum | finsec/auth/service.py:328-356 | with distinct source indices the flagged candidate strictly beats every other eligible one |
| Recommendation.EligibleStoresCleanly | finsec/auth/service.py:525-597 | storing an eligible candidate as an observed renewal under the same target and clock is never refused for scope or identity and never ends EXPIRED or AUTH_CONTEXT_CHANGED |
| Recommendation.PlainStoreIsMarkedIff | finsec/auth/service.py:589-597 | without the renewal flag it is marked AUTH_CONTEXT_CHANGED if and only if a configured identity cannot be compared |
| Recommendation.EligibleMeans | finsec/auth/service.py:200-327 | a candidate is eligible if and only if it comes from a known host in scope, is valid now and, next to a stored credential, does not conflict, has all its replayed components and is newer or cannot be compared |
| Recommendation.BetterMeans | finsec/auth/service.py:328-356 | of two eligible candidates the score prefers a matching identity, then equal component names, equal type, a successful baseline, later expiry, later capture, more primary components and the later entry |
| Recommendation.RecommendedIsBetter | finsec/auth/service.py:328-356 | no eligible candidate is better in these terms than the recommended one, and it is better than every earlier one |
| Journeys.ExpectedJourneys | finsec/behavior/benchmark.py:736-760 | reviewed journeys are returned as they are; otherwise the result is exactly the components of at least two steps of the same-workflow graph |
| Journeys.DeriveJourneys | finsec/behavior/benchmark.py:743-760 | the outer loop lists every component of two or more vertices once, sorted inside and by least vertex |
| Journeys.Explore | finsec/behavior/benchmark.py:748-755 | the work list terminates and collects exactly the vertices reachable from its start |
| Journeys.GraphMeaning | finsec/behavior/benchmark.py:739-742 | the graph has the labelled pairs as edges in both directions and nothing else |
| Journeys.StepsReachEachOther | finsec/behavior/benchmark.py:748-759 | any two steps of a derived journey are connected |
| Journeys.JourneysAreApart | finsec/behavior/benchmark.py:744-759 | no path joins two derived journeys and no step is in both |
| Journeys.LeftOutIffAlone | finsec/behavior/benchmark.py:757-759 | a vertex is in no journey if and only if it is paired with itself only |
| Journeys.KeySpellsSteps | finsec/behavior/benchmark.py:757-760 | the key of a derived journey spells its steps in order, and one fragment is allowed |
| JourneyMetrics.PlaceObservations | finsec/behavior/benchmark.py:768-773 | every observation is placed in the instance and at the position where it was seen last, and no other is placed |
| JourneyMetrics.CountPairs | finsec/behavior/benchmark.py:802-809 | the nested loop counts n(n-1)/2 known pairs, the retained ones among them, and the rest as under-merged |
| JourneyMetrics.MeasureJourney | finsec/behavior/benchmark.py:782-809 | the counters of one journey after the loop body, from its fragments, order and pairs |
| JourneyMetrics.MeasureJourneys | finsec/behavior/benchmark.py:775-809 | the running totals are the sums of the journeys' contributions |
| JourneyMetrics.RetainedBound | finsec/behavior/benchmark.py:785-809 | with n steps in k fragments at most (n-k)(n-k+1)/2 pairs are retained |
| JourneyMetrics.AllRetainedIffWhole | finsec/behavior/benchmark.py:785-809 | all pairs of a journey are retained if and only if it is in one fragment |
| JourneyMetrics.JourneyTotals | finsec/behavior/benchmark.py:775-833 | retained and under-merged pairs make up all known pairs, whole journeys are retained or out of order, and component recall is 1 if and only if every journey is whole |
| JourneyMetrics.RetainedPairsMean | finsec/behavior/benchmark.py:802-809 | retained pairs are exactly the pairs of steps that stand in the same instance |
| JourneyMetrics.FragmentsMean | finsec/behavior/benchmark.py:782-788 | fragments are the distinct instances that hold a step and one more for every step not found |
| JourneyMetrics.WholeMeans | finsec/behavior/benchmark.py:782-792 | a journey is whole if and only if all its steps stand in one instance |
| JourneyMetrics.ContributionMeans | finsec/behavior/benchmark.py:782-809 | exactly when a journey counts as retained, out of order or fragmented, and how many pairs it has |
| TopKGate.HypothesisMetrics | finsec/behavior/benchmark.py:561-685 | evaluation succeeds if and only if no item is ambiguous and, under the complete policy, the largest selection passes the gate; the counts for each K are those of a best selection of K items: none left out has a greater total, or an equal one and a lesser id, and inside totals do not rise |
| TopKGate.SelectionIsTopK | finsec/behavior/benchmark.py:578-590 | the selection for K has min(K, all) of the items, the best ones by total and then id, in that order |
| TopKCounts.MatchesMeans | finsec/behavior/benchmark.py:532-543 | with a semantic key only the key decides; otherwise family, action and, if the label names evidence, one common observation |
| TopKCounts.AmbiguousMeans | finsec/behavior/benchmark.py:596-615 | an item is ambiguous if and only if two of all the labels match it |
| TopKCounts.ClassMeans | finsec/behavior/benchmark.py:616-620 | otherwise it is expected or forbidden by the side that matches, and unlabeled if neither does |
| TopKCounts.CountsMean | finsec/behavior/benchmark.py:629-661 | the counts are the numbers of places that match an expected label, a forbidden one or neither, and of expected keys found |
| TopKCounts.RatesMean | finsec/behavior/benchmark.py:636-652 | every rate times what it is a share of gives the counted part, with the stated values when there is nothing to share |
| TopKCounts.ValidateStaticLabels | finsec/behavior/benchmark.py:273-329 | labels are accepted if and only if they name known evidence, no two share key or selector, and none is unknown under the complete policy |
| TopKGate.CountSelected | finsec/behavior/benchmark.py:629-661 | the counts of one selection by class, with the labels found in it |
| TopKGate.CheckClasses | finsec/behavior/benchmark.py:612-615 | the label error is raised if and only if some item matches more than one label |
| TopKGate.RunGate | finsec/behavior/benchmark.py:663-685 | the three gate loops together decide the gate predicate |
| TopKGate.DoubleCounting | finsec/behavior/benchmark.py:669-681 | counting matches by label or by output gives the same number |
| TopKGate.GateForcesBijection | finsec/behavior/benchmark.py:663-685 | passing the gate puts reviewed labels and emitted outputs in bijection |
| TopKGate.GatedCounts | finsec/behavior/benchmark.py:629-661 | at the gated selection the class counts are the label counts, nothing is unknown and every expected label is found |
| TopKGate.GatedMetrics | finsec/behavior/benchmark.py:637-652 | at the gated selection coverage and recall are 1, the unknown rate is 0, and labeled precision equals its lower bound, the share of expected labels |
| TopKGate.GateCoversSmallerK | finsec/behavior/benchmark.py:664-685 | the gate covers every smaller K: nothing unknown, full coverage, precision equal to its lower bound |
| TopKGate.CompleteEvaluationIsGated | finsec/behavior/benchmark.py:561-685 | a complete evaluation that succeeds: its largest selection is in bijection with the reviewed labels with perfect coverage and recall, and no evaluated K emits anything unknown |
| CorpusMetrics.CountsAddUp | finsec/behavior/corpus_evaluator.py:63-66 | true and false positives make up the actual set, true positives and false negatives the expected set |
| CorpusMetrics.RatesMean | finsec/behavior/corpus_evaluator.py:67-69 | precision is the share of the actual and recall that of the expected that is right, with the stated values when there is none; F1 is their harmonic mean |
| CorpusMetrics.ClassificationMeans | finsec/behavior/corpus_evaluator.py:63-80 | the counts of a classification are the keys on both sides, on the actual side only and on the expected side only |
| CorpusMetrics.F1Between | finsec/behavior/corpus_evaluator.py:69-69 | F1 lies between the smaller and the larger of precision and recall |
| CorpusMetrics.F1IsDice | finsec/behavior/corpus_evaluator.py:67-69 | F1 is 2tp / (expected + actual) whenever that is defined |
| CorpusMetrics.MicroAverageIsUnionClassification | finsec/behavior/corpus_evaluator.py:82-100 | for all journeys, summing their classifications equals classifying the unions of their key sets if and only if expected sets, actual sets and cross pairs share nothing |
| CorpusMetrics.DistinctTagsSuffice | finsec/behavior/corpus_evaluator.py:393-436 | keys tagged with distinct journey ids share nothing |
| CorpusMetrics.SharedTagCountsTwice | finsec/behavior/corpus_evaluator.py:609-614 | the tags are needed: two journeys sharing an id and a key count it twice |
| Utf8Fragments.Utf8ByteFragment | finsec/behavior/hypothesis_precision.py:189-203 | the scan reports a fragment if and only if some position holds a lead byte with all its continuation bytes after it |
| Utf8Fragments.EveryEncodingIsDetected | finsec/behavior/hypothesis_precision.py:189-203 | the hexadecimal spelling of the UTF-8 encoding (section 3 of RFC 3629) of every scalar from U+0080 is detected at any position, in either letter case |
| Utf8Fragments.ShapeIsEncodingIff | finsec/behavior/hypothesis_precision.py:189-203 | a reported byte shape is an encoding if and only if it joins to a scalar value that needs that many bytes |
| Utf8Fragments.FragmentIsCharacterIff | finsec/behavior/hypothesis_precision.py:189-203 | the same for a reported position in the tokens |
| Utf8Fragments.OverlongExample | finsec/behavior/hypothesis_precision.py:189-203 | the tokens E0, 80, 80 are reported and spell no character |

## Left out

- Command line, web interface, reports and rendering: text output.
- File formats, atomic file replacement and file modes: a store or target file that cannot be read or written is not a step here.
- HTTP, TLS, DNS and destination checks: a reply is an input of the step; a request that cannot be built, sent or read is `None`, `Unroutable` or `Dropped`.
- Header assembly (`resolve_profile_headers`) and the read-only test of the baseline method: part of the reply that cannot be obtained.
- Hashing: fingerprints are injective payloads, and the truncation of support ids to sixteen characters is not modelled; lists the program orders by such an id are maps here.
- Token decoding, host coverage, slugs, lower-casing and trimming: given functions, arbitrary in every lemma.
- Timestamps such as `confirmed_at`, plan notes, reasons and titles: recorded text without effect on decisions.
- Selection of the HAR entry of a refresh flow: the selected pair of bodies is an input.
- Migration of legacy environment credentials, and the marks the request runner makes during execution: not steps of `AuthRuns.Run`.
- A newly captured or decoded identity is taken to be unconfirmed, as the capture module builds it.
- Uniqueness of generated credential references: `RefreshesKeepSubject` asks that access and refresh component have references of their own.
- RefreshTemplate.SetKeysFrame: the nested dictionary is a value and setting gives a new one; the program's dictionary is freshly parsed and has no other owner.
- JsonPointer.PointerRoundTrip: the empty path is not covered, because the evaluator reads the empty pointer as the key "", where RFC 6901 means the whole document; `int` on more than 4300 digits is not modelled.
- Evidence predicates, quality grades and semantic labels of a candidate: a given function of the candidate, whose result goes through the promotion ladder.
- Merging drafts into the stored backlog, rewriting of stale records, and `finalize_hypothesis_store`: the merge module is not part of this model.
- Backlog.BacklogDraft: the fields copied from the candidate are left out.
- JourneyMetrics.MeasureJourneys: the per-journey fragment dictionary, over-merge pairs and singleton counts are left out as simple counts.
- Prerequisite, state-transition and edge keys of the corpus: only their journey tag matters for the sums.
- Floating point: rates are exact reals, and an unknown instant ranks below every known one as minus infinity does.
