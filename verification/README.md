# Spinoza, modelled and proved

Spinoza is a dashboard for Kubernetes clusters. Around its clients and its screens it has a
number of small state machines and transformations that everything else leans on. This project
models them in Dafny and proves what they promise, over every input, every run and every
interleaving of their atomic steps.

| file | models |
|---|---|
| `logoutlimits.dfy`, `acceptance.dfy`, `thresholds.dfy` | the budget for verifying back-channel logout tokens: concurrency caps, sliding-window rates, a cooldown, and eviction from a bounded table of histories; exactly when a claim is accepted; and the exact conditions on the limits under which the rates hold |
| `session.dfy`, `revoke.dfy`, `flowlimits.dfy`, `auth.dfy` | session cookies and their renewal, the list of ended sessions with the store behind it, single use of login states, and the requests that put them together |
| `userrules.dfy` | the static check that decides whether a rule written in the Common Expression Language reads more of an object than a finding may carry, over an evaluator for that language |
| `charts.dfy`, `chartanswers.dfy` | the chart version cache: single flight, remembered results and failures, bounded eviction; and what callers get and what is kept, told from the run alone |
| `cluster.dfy`, `clusterid.dfy` | the set of open clusters that racing connections install, replace, retire and cancel, and the id an address stands for |
| `drift.dfy`, `compare.dfy`, `stripped.dfy`, `kinds.dfy`, `objects.dfy` | drift of a live object from its last applied configuration, stripping an object to what somebody wrote, and verdicts over all objects of a kind |
| `helm.dfy`, `findings.dfy`, `base64.dfy` | listing stored revisions in bounded pages, paging through history, and paging through findings behind cursors |
| `access.dfy`, `slots.dfy` | batched access reviews with a cache, their flattening and splitting, and the slots their asks compete for |
| `baseline.dfy` | baselines as token streams, written and read under limits |
| `corpus.dfy`, `buffer.dfy` | counting mentions of names across kinds scanned at once, and bounded output buffers |
| `options.dfy`, `order.dfy`, `sizes.dfy` | what these share |

Concurrent components appear twice: as a transition relation over their atomic steps, about
whose runs the theorems speak, and as a class whose methods are proved to take exactly those
steps; where one call is several atomic steps, each is a method of its own. Loops over Go maps pick their keys in any order, so what is proved holds for every order.

What the model takes as given:

- Clocks are parameters and never run backwards; each reading a request makes is one of its own.
- Source names are not empty; `callbackSource` never returns the empty name (internal/auth/flowlimits.go:79-88).
- The chart cache is seeded from disk for index repositories only, and an OCI fetch answers for its own chart.
- Sealing is unforgeable and reversible, so a cookie is the claims it carries.
- Strings are the bytes Go keeps in them, so a length is a number of bytes; where strings are compared their order is the order of those bytes.
- The limits on logout tokens are no negative numbers.
- Clusters, servers, providers, YAML and JSON encoders are functions or replies handed in.

Where the code does not do quite what one would expect of it, the model follows the code, and
says exactly when it does:

- Evicting logout histories lets a source past its own rate exactly when the global rate exceeds the source rate by more than one plus the sources the table has beyond the global cap (`LogoutThresholds.SourceRateHoldsIff`); the conditions for forgetting nothing and for refusing nobody are exact too, and the shipped limits meet all three (`LogoutLimits.ShippedLimits`).
- A cookie that dies between being read and being looked up is let in although its session was ended (`Revocations.DyingCookieSlipsThrough`); exactly who is let in is `Revocations.LetInIffRevokedLongAgo` and, at any moment after a restart, `Revocations.LetInIffAfterRestart`.
- Two revocations of one session may reach the store in the other order, and then a restart forgets the later one (`Revocations.RacingWritesForget`).
- A callback that stalls until its cookie is dead can use its login state a second time (`FlowLimits.StalledCallbackIsLetThrough`); exactly when a callback gets through is `FlowLimits.ConsumedIff`.
- A batch of access reviews may find checks turned away though there was room when it began; others can do that to every batch (`ReviewSlots.OthersTakeTheRoom`), and a batch on its own is turned away nothing exactly when there is room for as many checks as run at once (`ReviewSlots.NoneRefusedIff`). Which checks are turned away is exact (`Access.RefusedIffNoRoom`).
- A baseline with text that is not UTF-8 does not load back as it was saved (`Baseline.SaveAndLoad`, `Baseline.LoneByteIsReplaced`).
- The check on rules flags paths that go on past an allowed one, although they are harmless (`UserRules.PathIsSafeIff`, `UserRules.PastTheKindIsFlagged`).
- What was last applied does show in a stripped object whose annotations were an empty object, or held a null or something that is not text (`Compare.LastAppliedShowsIff`, `Compare.LastAppliedShows`).
- An object drifts from itself when a named list has a name twice and the later entry does not cover the earlier one (`Drift.CoversItselfIff`, `Drift.SameNameTwiceDrifts`).
- Findings with equal keys on either side of a page boundary are skipped (`Findings.PagesYieldEverything`, `Findings.SecondOfAKeyIsSkipped`).
- Two texts with the same lines in another order differ with no changed lines (`Kinds.DistanceZeroIff`, `Kinds.SwappedLinesCountNothing`).

## Model

| member | source | states |
|---|---|---|
| `LogoutLimits.RatesHoldOverEveryRun` | internal/auth/logoutlimits.go:54-136 | On every run of claims, releases and failures, while the global rate is at most the source rate plus one more than the table can spare, every window of the given length holds at most the global rate of accepted claims, and at most the source rate for each source, although idle histories are evicted |
| `LogoutThresholds.SourceRateHoldsIff` | internal/auth/logoutlimits.go:54-136 | The exact condition on the limits: every source keeps its rate on every run just when the global rate is at most the source rate plus one plus the sources a table has beyond the global cap (or the limits let nobody in, or keep no window); where it fails there is a run in which a source is forgotten and gets past its rate |
| `LogoutThresholds.NothingIsForgottenIff` | internal/auth/logoutlimits.go:104-125 | No source with a claim inside the window ever leaves the table, exactly when the global rate is at most one plus the sources a table has beyond the global cap |
| `LogoutThresholds.RoomForEverybodyIff` | internal/auth/logoutlimits.go:104-125 | No claim is ever refused for want of room in the table, exactly when the table is no smaller than the global cap |
| `LogoutLimits.GlobalRateHoldsOverEveryRun` | internal/auth/logoutlimits.go:54-82 | The global rate holds on every run whatever the size of the table |
| `LogoutAcceptance.AcceptedIff` | internal/auth/logoutlimits.go:54-96 | Exactly when a claim is accepted, in every run and in numbers of the run alone: no failure lies less than a cooldown back, fewer claims are open than the global cap and, of its source, than the cap of a source, and fewer were accepted inside the window than the global rate and, of its source, than the rate of a source; for tables that never forget inside the window nor crowd |
| `LogoutAcceptance.AcceptedOnlyWithRoom` | internal/auth/logoutlimits.go:54-96 | Acceptance implies all five wherever the rates hold at all, whatever the table forgets |
| `LogoutLimits.OpenClaimsAreAccountedFor` | internal/auth/logoutlimits.go:54-96 | For limits of any size: the global counter is the number of claims not yet released, each source counter is the number of that source, and both caps hold; a busy source is always in the table |
| `LogoutLimits.RefusedOnlyByLimits` | internal/auth/logoutlimits.go:54-96 | With a table no smaller than the global cap, a claim is never refused for want of room in the table, only by what the state says of the cooldown, the caps and the rates |
| `LogoutLimits.NothingAcceptedWhileCooling` | internal/auth/logoutlimits.go:98-102 | After a failure nothing is accepted until the cooldown is over |
| `LogoutLimits.EvictionForgetsNothing` | internal/auth/logoutlimits.go:104-125 | While the global rate is at most one plus the sources a table can spare, the idle source that has to make room has left the window and has no open claim |
| `LogoutLimits.ShippedLimits` | internal/auth/logoutlimits.go:10-24 | The limits the program ships meet all three conditions |
| `LogoutLimits.RecentLogoutEvents` | internal/auth/logoutlimits.go:127-136 | The loop keeps exactly the events after the cutoff, in order |
| `LogoutLimits.LogoutVerificationBudget.EvictLogoutSource` | internal/auth/logoutlimits.go:104-125 | Room is made by dropping one idle source none of the other idle ones is older than, or the table is full of busy sources and left alone |
| `LogoutLimits.LogoutVerificationBudget.Claim` | internal/auth/logoutlimits.go:54-96 | One atomic claim step of the run model, whose verdict over runs is `LogoutAcceptance.AcceptedIff`: whether it is accepted, the whole new state, and an open release when it is |
| `LogoutLimits.LogoutVerificationBudget.Failed` | internal/auth/logoutlimits.go:98-102 | One atomic failure step: only the end of the cooldown moves |
| `LogoutLimits.LogoutRelease.Call` | internal/auth/logoutlimits.go:84-95 | The first call gives the slot back as one release step; any later call changes nothing |
| `Sessions.DecodeEncode` | internal/auth/session.go:110-159 | A cookie reads back as the identity and sign-in it was written from, for exactly as long as the earlier of its lifetime and the age cap, both cut to seconds |
| `Sessions.RenewalNeverOutlivesTheCap` | internal/auth/session.go:126-200 | No chain of renewals changes who is signed in or when, nor outlives the age cap counted from the sign-in |
| `Sessions.CookieLivesUntil` | internal/auth/session.go:110-159 | A cookie reads, for whoever has a name, until the earliest of its lifetime from the moment it was written, the age cap from the sign-in, both cut to seconds, and the age cap from the second of the sign-in |
| `Sessions.RenewedIff` | internal/auth/session.go:193-199 | A cookie is renewed exactly when less than half its lifetime is left and the sign-in is younger than the age cap; the new one lives its full lifetime from then on, or up to the cap |
| `Sessions.RenewalExtends` | internal/auth/session.go:126-133 | Short of the cap a renewed cookie outlives the old one by more than half a lifetime, less a second |
| `Revocations.RevokedStaysOut` | internal/auth/revoke.go:28-84 | The main safety result: in every run of sign-ins, renewals, look-ups, revocations, writes to the store in any order and restarts, whatever the age cap, a cookie that goes back to a sign-in no later than a revocation the list still owes is let in only if it dies while the request is being judged |
| `Revocations.LetInIff` | internal/auth/revoke.go:28-84 | Exactly who is let in, in every run: whoever carries a cookie that reads and for whose session nothing is owed any more; forgetting by the clock makes no difference to anybody |
| `Revocations.LetInIffRevokedLongAgo` | internal/auth/revoke.go:40-84 | Exactly who is let in while the process runs: whoever carries a cookie that reads and whose session was last revoked an age cap ago or longer |
| `Revocations.LetInIffAfterRestart` | internal/store/revocations.go:9-41 | Exactly who is let in at any moment after a restart: whoever carries a cookie that reads, whose session was not revoked within an age cap since, and is not kept out by the last write of it to the store, its horizon cut to milliseconds, where the restart could read the store |
| `Revocations.CookiesDieByTheHorizon` | internal/store/revocations.go:17-41 | Whatever the age cap, every cookie of every run is dead by the horizon the store keeps for a revocation no earlier than its sign-in, cut to milliseconds as it is |
| `Revocations.RacingWritesForget` | internal/auth/revoke.go:40-58 | The order of the writes matters: a run in which two revocations of one session reach the store the other way round and, after a restart, a cookie the later one ended is let in |
| `Revocations.DyingCookieSlipsThrough` | internal/auth/auth.go:187-202 | The exception is real: a run in which a cookie read just before it dies, and looked up just after, is let in |
| `Revocations.OnlyRevokedAreRefused` | internal/auth/revoke.go:60-75 | An entry in force goes back to a revocation of that session less than the age cap ago |
| `Revocations.NextKeepsInv` | internal/auth/revoke.go:28-84 | After every step the list and the store say of every session, from then on, exactly what lists that never forget would say, and what those hold goes back to revocations |
| `Revocations.Revocations.Keep` | internal/auth/revoke.go:28-38 | As a process starts, exactly the sessions the store still holds are out, each for as long as the store says, and nobody when the store cannot be read |
| `Revocations.Start` | internal/auth/revoke.go:24-38 | A process that starts takes exactly the restart step of the run model |
| `Revocations.Store.Revoke` | internal/store/revocations.go:17-41 | What has run out is deleted row by row and the session written with its horizon cut to milliseconds, the last write standing; nothing changes where the database fails |
| `Revocations.Revocations.Revoke` | internal/auth/revoke.go:40-58 | The whole new list after a revocation, and what is to be written to the store |
| `Revocations.Revocations.Revoked` | internal/auth/revoke.go:60-75 | Whether a session has ended, and that only its own run-out entry is dropped |
| `Revocations.Revocations.Sweep` | internal/auth/revoke.go:77-84 | Exactly the run-out entries are dropped |
| `FlowLimits.StatesAreSingleUse` | internal/auth/flowlimits.go:23-40 | So in every run a login state that was consumed is consumed again only by a callback that reaches the registry after its cookie, cut to seconds, has expired |
| `FlowLimits.ConsumedIff` | internal/auth/flowlimits.go:23-40 | Exactly when a callback gets through, in every run: when every earlier consumption of its state has run out by the clock it is judged by, and the registry has room |
| `FlowLimits.StalledCallbackIsLetThrough` | internal/auth/auth.go:226-245 | The condition is needed: a callback that stalls past its cookie between reading it and consuming its state does get through a second time |
| `FlowLimits.RegistryIsBounded` | internal/auth/flowlimits.go:23-40 | The registry never outgrows its capacity |
| `FlowLimits.FirstUseSucceeds` | internal/auth/flowlimits.go:23-40 | A state not used before is refused only because the registry is full |
| `FlowLimits.EntriesComeFromUse` | internal/auth/flowlimits.go:23-40 | Every entry goes back to a successful consumption of its state and lasts exactly as long as that one said |
| `FlowLimits.LiveIff` | internal/auth/flowlimits.go:23-40 | The registry holds a state at a moment exactly when a consumption of it has not run out |
| `FlowLimits.ConsumedFlows.Consume` | internal/auth/flowlimits.go:23-40 | The verdict on a state and the whole registry afterwards, run-out entries dropped |
| `Auth.Authenticator.FromSession` | internal/auth/auth.go:187-202 | A cookie signs in exactly when it reads and its session has not ended; a renewal goes back to the same sign-in and is given exactly when the cookie is half spent, still renewable, and the new one fits |
| `Auth.Authenticator.Identify` | internal/auth/auth.go:132-141 | Who a request is, in each of the three modes |
| `Auth.Authenticator.StillValid` | internal/auth/auth.go:143-168 | A long connection may stay exactly while its cookie would still be let in as the very same identity |
| `Auth.Authenticator.Logout` | internal/auth/auth.go:310-317 | Whoever is let in by a session cookie has that session ended, and it reads as ended for the whole age cap |
| `Auth.Authenticator.Callback` | internal/auth/auth.go:226-275 | A login completes exactly when its state was unused, it carries a code, a slot was free, the provider named somebody and the sealed cookie fits; the state is used up in any case |
| `Auth.Authenticator.BackchannelLogout` | internal/auth/auth.go:333-380 | In the wrong mode, with too large a body or without a fitting token nothing changes; otherwise a session is ended only within a verification slot the limits allow, the slot is given back, and a token that does not verify starts the cooldown |
| `UserRules.PassingCannotTell` | internal/checks/userrules.go:168-243 | Noninterference: if no node of an expression, comprehensions with one or two variables included, reads past the four metadata fields, evaluating it on any two objects that agree on them gives the same value, whatever the functions of the library do |
| `UserRules.SilencerJudgesTheObject` | internal/checks/refs.go:699-705 | A silencer without fault judges the stub exactly as it would judge the full object |
| `UserRules.PathIsSafeIff` | internal/checks/userrules.go:214-243 | For a plain path: it depends on nothing but the four fields exactly when it begins with an allowed one, the check lets pass exactly the allowed ones, so nothing unsafe passes, and what is flagged although safe is exactly what goes on past an allowed path |
| `UserRules.StepsPassIff` | internal/checks/userrules.go:168-243 | An expression that takes steps into the object, fields, tests for fields and literal indexes in any mix, and nothing else, passes exactly when the names of its steps are one of the four allowed paths |
| `UserRules.PassesIff` | internal/checks/userrules.go:168-243 | Any expression reads past the metadata exactly when somewhere in it such steps are taken, to their end, whose names are none of the four allowed paths |
| `UserRules.PathIff` | internal/checks/userrules.go:214-243 | A path into the object is what such steps build, and nothing else |
| `UserRules.PastTheKindIsFlagged` | internal/checks/userrules.go:214-243 | Whatever is read of the kind is flagged, and harmless |
| `UserRules.ReadsPastMetadata` | internal/checks/userrules.go:168-195 | The loop over the nodes flags an expression exactly when some node of it is built of steps into the object that end there and lead past the four fields |
| `UserRules.Faults` | internal/checks/userrules.go:126-158 | A rule is without fault exactly when it has an id, a short expression that compiles, and, where it silences a check, a known check, a reason, and for the checks that carry stubs no read past the four fields |
| `Charts.OneFlightPerUnit` | internal/charts/charts.go:478-516 | Under any interleaving each unit has at most one flight whose leader is out, and it is the one in the table |
| `Charts.FollowersGetTheLeadersError` | internal/charts/charts.go:410-430 | A flight somebody follows is closed once, and from then on reads the error its leader met |
| `Charts.NobodyWaitsForNobody` | internal/charts/charts.go:410-430 | Between being handed out and being closed a flight always has its leader |
| `Charts.OciIsBounded` | internal/charts/charts.go:500-529 | The OCI charts kept are at most the capacity after every step, and none of their lists outlives its fetch entry |
| `Charts.NoFetchWhileRemembered` | internal/charts/charts.go:478-516 | From the completion of the fetch its leader began, a result or failure is answered from memory until it runs out, failures with the very error: for an index unless it is seeded from disk, for an OCI chart unless it is dropped |
| `ChartAnswers.BeginIff` | internal/charts/charts.go:478-498 | Exactly what a caller gets, told from the actions of the run and the clock: what is known while the last success or seeding that was not dropped is less than the time to live old; else the error of the last failure while that is recent; else a place behind the leader that is out; and the lead where nobody is |
| `ChartAnswers.FetchedIff` | internal/charts/charts.go:500-516 | A unit counts as fetched as of a moment exactly when it was last learnt then and not dropped since |
| `ChartAnswers.ListsHoldWhatWasFound` | internal/charts/charts.go:432-439 | The versions of a chart that came in last, with a fetch or from disk, are what is kept of it until it is dropped |
| `ChartAnswers.CatalogHoldsWhatWasFound` | internal/charts/charts.go:432-439 | And the charts of an index that came in last are its catalog |
| `Charts.NextKeepsInv` | internal/charts/charts.go:432-516 | Every begin, completion and seed keeps the table of flights, the lists and the bound in order |
| `Charts.Cache.Begin` | internal/charts/charts.go:478-498 | Which of the four answers a caller gets, and the whole new state |
| `Charts.Cache.Complete` | internal/charts/charts.go:500-516 | The whole state after a completion: what was learnt, less exactly the oldest OCI charts over the capacity |
| `Charts.Cache.Keep` | internal/charts/charts.go:432-439 | Names an index lists are overwritten, and names it no longer lists keep what they had |
| `Charts.Cache.EvictOCI` | internal/charts/charts.go:518-529 | As many of the oldest OCI charts are dropped as the capacity asks for, and no more |
| `Charts.Cache.OciAccessTimes` | internal/charts/charts.go:531-544 | The OCI charts that were fetched or failed, each under the time of its failure where there is one, otherwise of its fetch |
| `Charts.OldestChartKey` | internal/charts/charts.go:546-559 | A chart none other was touched before |
| `Cluster.NoConnectionIsLost` | internal/cluster/cluster.go:242-318 | Once nobody is between dialling and cancelling, every connection ever dialled is open, under its own id and no other, or was cancelled exactly once, never both |
| `Cluster.NothingOpenIsCancelled` | internal/cluster/cluster.go:242-318 | At every moment nothing open was ever cancelled or is about to be, and nothing is cancelled twice |
| `Cluster.ActiveIsAlwaysOpen` | internal/cluster/cluster.go:303-341 | While anything is open the active cluster is one of the open ones, and when nothing is there is none |
| `Cluster.NoActiveMeansNothingOpen` | internal/cluster/cluster.go:303-330 | No active cluster means nothing is open, where no host normalises to nothing |
| `Cluster.InstalledIsTheLatest` | internal/cluster/cluster.go:242-270 | The installed ticket is never older than that of any finished use |
| `Cluster.LatestUseWins` | internal/cluster/cluster.go:242-270 | In whatever order uses finish, the connection of the latest-started one stays open unless that cluster is closed |
| `Cluster.TicketsAreSpent` | internal/cluster/cluster.go:401-406 | A ticket serves one use |
| `Cluster.LateUseChangesNothing` | internal/cluster/cluster.go:249-254 | A use overtaken by a later one installs nothing |
| `Cluster.OpenIff` | internal/cluster/cluster.go:242-318 | Exactly which connections are open at any moment: those some use that was not overtaken, or some open of a cluster not open already, brought in, and no close and no later use has taken out since |
| `Cluster.LastSteeredIsActive` | internal/cluster/cluster.go:242-341 | Whichever cluster was last used, opened or activated while open is the active one until it is closed |
| `Cluster.NextKeepsInv` | internal/cluster/cluster.go:242-341 | Every step keeps each connection in exactly one place, each entry under its own id, and the active cluster open |
| `Cluster.Cluster.Claim` | internal/cluster/cluster.go:401-406 | The next ticket |
| `Cluster.Cluster.Install` | internal/cluster/cluster.go:248-270 | The whole state after a use, and the connections to cancel |
| `Cluster.Cluster.Retire` | internal/cluster/cluster.go:272-282 | Everything but one id is taken out and handed back, each once |
| `Cluster.Cluster.Open` | internal/cluster/cluster.go:289-301 | The whole state after an open; a second connection to an open cluster is turned away |
| `Cluster.Cluster.Close` | internal/cluster/cluster.go:303-318 | The whole state after a close, the next active cluster being the first id in order |
| `Cluster.Cluster.FirstOpen` | internal/cluster/cluster.go:320-330 | The least open id, or nothing |
| `Cluster.Cluster.Activate` | internal/cluster/cluster.go:332-341 | Only an open cluster becomes active |
| `ClusterId.NormalizeTwice` | internal/clusterid/clusterid.go:8-51 | The id of an id is the id itself, for every plain text |
| `ClusterId.SameIdIff` | internal/clusterid/clusterid.go:8-51 | Two addresses that name a host under a scheme share an id exactly when they are alike but for the case of scheme and host, the port the scheme has anyway and slashes at the end |
| `ClusterId.PortsShareIff` | internal/clusterid/clusterid.go:24-49 | A host without a port shares its id with port 443 under https and with port 80 under http, in any case of letters, and two ports otherwise only when they are equal |
| `ClusterId.ReadsBack` | internal/clusterid/clusterid.go:20-36 | An address with a scheme and a host or a port reads back from what is written |
| `Drift.CoveredIffNoDrift` | internal/gitops/drift.go:60-167 | No drift is reported anywhere exactly when live covers declared under the recursive relation: ignored paths skipped, maps by key, named lists by name, other lists by length and position, the rest by text |
| `Drift.ReportsExactlyWhatDiffers` | internal/gitops/drift.go:60-91 | Wherever in the declaration an object stands against a live one: of two whole numbers, two texts or two truth values under one key that is not ignored a drift is reported exactly when they differ |
| `Drift.DecimalReadsBack` | internal/gitops/drift.go:184-185 | A number is written so that it reads back, digit by digit, without a leading zero |
| `Drift.TextsTellApart` | internal/gitops/drift.go:176-195 | Two values of one kind are written alike only when they are the same, and a text says what the value is |
| `Drift.ReportTellsAbsence` | internal/gitops/drift.go:60-73 | What was declared and is not there is reported as not set, at its own path |
| `Drift.ReportIgnores` | internal/gitops/drift.go:60-69 | Nothing is reported of an ignored path, nor of a key nobody declared |
| `Drift.EntriesTell` | internal/gitops/drift.go:169-174 | The text that counts entries says how many there are |
| `Drift.LastNamedIff` | internal/gitops/drift.go:144-152 | The last live object that bears a name stands for it |
| `Drift.Compare` | internal/gitops/drift.go:60-91 | The comparison appends each drift there is exactly once, each with the one place in the declaration it belongs to, and touches nothing appended before; two numbers, texts or truth values under a key are reported exactly when they differ, at their path and in texts that say what they are |
| `Drift.CompareLists` | internal/gitops/drift.go:93-105 | The same for lists: named ones by name, others by length and position |
| `Drift.CompareByName` | internal/gitops/drift.go:144-167 | The same for named lists, the last live entry of a name standing for it |
| `Drift.CompareEntry` | internal/gitops/drift.go:107-118 | The same for one entry; a list inside a list goes by its text |
| `Drift.ByName` | internal/gitops/drift.go:145-152 | The map of live entries holds the last of each name |
| `Drift.AllDrift` | internal/gitops/drift.go:36-39 | All drift by path, each once; none exactly when live covers what was declared |
| `Drift.Drift` | internal/gitops/drift.go:31-58 | The first twenty by path and the number of the rest, which together are all drift; none exactly when live covers what was last applied |
| `Drift.CoversItselfIff` | internal/gitops/drift.go:60-167 | Exactly when an object shows no drift against itself: in every named list each entry is covered by the last of its name |
| `Drift.NoDriftFromItself` | internal/gitops/drift.go:60-167 | In particular where no named list has a name twice |
| `Drift.SameNameTwiceDrifts` | internal/gitops/drift.go:144-167 | With a name twice an object does drift from itself |
| `Drift.ExtraKeysNeverDrift` | internal/gitops/drift.go:60-91 | Keys and named entries nobody declared change no report, at any place |
| `Compare.StripTwice` | internal/compare/compare.go:47-201 | A second pass changes nothing and reports nothing |
| `Compare.SameWhenWrittenAlike` | internal/compare/compare.go:57-66 | Two objects come out the same exactly when they differ at most in status, in what the server assigns, in the uids of owners, and in what was last applied |
| `Compare.LastAppliedShowsIff` | internal/compare/compare.go:168-183 | Exactly when writing a last applied configuration shows in the result: where the annotations were an empty object, or held a null or something not text |
| `Compare.LastAppliedShows` | internal/compare/compare.go:168-183 | It does show in an object whose annotations are an empty object |
| `Compare.ReportsWhatItStrips` | internal/compare/compare.go:68-89 | Nothing is reported exactly when there was nothing to strip |
| `Compare.KeepsTheRest` | internal/compare/compare.go:68-166 | Every path that leads elsewhere keeps its value |
| `Stripping.AuthoredFields` | internal/compare/compare.go:57-66 | Field by field: of the top only the status goes, and of the metadata exactly the six assigned fields, the uids of owners and what was last applied |
| `Stripping.AddressGoesUnlessHeadless` | internal/compare/compare.go:91-99 | A service loses its cluster address exactly when it has one that is not "None" |
| `Stripping.AddressesGoUnlessHeadless` | internal/compare/compare.go:101-110 | And its addresses exactly when they are all texts and none is "None" |
| `Stripping.PortsLoseNodePorts` | internal/compare/compare.go:112-136 | Its ports stay, each as it was less its node port |
| `Stripping.HooksLoseBundles` | internal/compare/compare.go:138-166 | The hooks of a webhook configuration stay, each as it was less the bundle of its client |
| `Stripping.AllocationsGo` | internal/compare/compare.go:68-76 | The allocated paths of volumes, claims, services and definitions are gone |
| `Stripping.NothingElseGoes` | internal/compare/compare.go:68-166 | Every path apart from those keeps its value, in an object of any kind |
| `Stripping.ServiceReportsTrue` | internal/compare/compare.go:78-83 | A service is reported to lose its addresses, or its node ports, exactly when it does |
| `Compare.AuthoredTwice` | internal/compare/compare.go:57-66 | Taking out what the server wrote is idempotent |
| `Compare.Draft.DropLastApplied` | internal/compare/compare.go:168-183 | In place: the annotations less the last applied configuration, rewritten or removed as the code does |
| `Compare.Draft.DropOwnerUIDs` | internal/compare/compare.go:185-201 | In place: every owner reference without its uid |
| `Compare.Draft.DropClusterIPs` | internal/compare/compare.go:91-110 | In place: allocated cluster addresses go, those of headless services stay |
| `Compare.Draft.DropNodePorts` | internal/compare/compare.go:112-136 | In place: every port without its node port, and whether there was one |
| `Compare.Draft.DropCABundles` | internal/compare/compare.go:138-166 | In place: every webhook without its bundle, and whether there was one |
| `Compare.Draft.DropAllocations` | internal/compare/compare.go:68-89 | In place: everything allocated goes, and what went is named once each, in order |
| `Compare.DraftOf` | internal/compare/compare.go:57-66 | The steps on a copy give exactly what somebody wrote |
| `Compare.Strip` | internal/compare/compare.go:52-55 | The stripped object, with exactly what was stripped from it in order |
| `Compare.Union` | internal/compare/compare.go:254-263 | Everything on either side, once, in order |
| `Kinds.ChangedLines` | internal/compare/kinds.go:83-100 | The loop over counted lines gives the lines of the left the right lacks plus those of the right the left lacks, as multisets |
| `Kinds.DistanceIsSymmetric` | internal/compare/kinds.go:83-100 | That number does not depend on the side |
| `Kinds.DistanceZeroIff` | internal/compare/kinds.go:83-100 | It is zero exactly when both have the same lines equally often |
| `Kinds.SwappedLinesCountNothing` | internal/compare/kinds.go:83-100 | So any two different lines, written the other way round, make another text with no changed lines |
| `Kinds.LinesJoin` | internal/compare/kinds.go:85-89 | The lines of a text determine it |
| `Kinds.SameMeansWrittenAlike` | internal/compare/kinds.go:36-72 | Where writing out tells the two sides apart, stripped and as somebody wrote them, an object is the same with nothing hidden exactly when somebody wrote both sides alike |
| `Kinds.VerdictIff` | internal/compare/kinds.go:36-63 | The verdict on a pair, told from how both are written out, whole or stripped: the same exactly when both can be written and alike |
| `Kinds.SameKeyIff` | internal/compare/kinds.go:110-115 | Two objects are compared with each other exactly when they agree in name and, unless they go by name only, in namespace |
| `Kinds.Compared` | internal/compare/kinds.go:36-63 | The verdict, the changed lines and the hidden differences of two objects |
| `Kinds.Index` | internal/compare/kinds.go:102-108 | The last object under each key |
| `Kinds.Kinds` | internal/compare/kinds.go:12-34 | Exactly one verdict for every key on either side, each the right one, in order |
| `Kinds.Tally` | internal/compare/kinds.go:124-139 | The four counts, which add up to all verdicts |
| `Order.BelowIff` | internal/compare/kinds.go:117-122 | One text is below another exactly when it ends where they differ first, or is less there |
| `Helm.FollowingYieldsTheHistory` | internal/helm/history.go:120-156 | Following next from nothing to the end yields every positive revision the release had at the first call exactly once, newest first, at most ten to a page with next falling, whatever newer revisions are stored between the calls |
| `Helm.WalkEnds` | internal/helm/history.go:120-156 | The pages end, after at most one for every ten revisions and one more |
| `Helm.NextTakesUp` | internal/helm/history.go:137-156 | The next page begins with exactly what this one left out |
| `Helm.OneRef` | internal/helm/history.go:90-102 | In place the slice is sorted; the one newest revision comes back, or none is stored, or it is stored twice |
| `Helm.SelectHistoryRefs` | internal/helm/history.go:120-156 | A page comes back exactly when the release is there and no positive revision is stored twice, and it is the page of the sorted refs |
| `Helm.Repeated` | internal/helm/history.go:129-137 | Comparing neighbours finds a repeated positive revision exactly when there is one |
| `Helm.CutPage` | internal/helm/history.go:141-155 | The loop that stops early gives the same page as filtering everything |
| `Helm.SortedFalls` | internal/helm/history.go:80-97 | Sorting puts newer revisions first and keeps exactly the refs |
| `Helm.ListRefsLimited` | internal/helm/refs.go:135-174 | For any finite server the paging loop gives the closed form over the whole chain of pages: all items, the first of them up to the limit, or the error that ends the chain |
| `Helm.UntruncatedIsComplete` | internal/helm/refs.go:135-174 | A listing is a prefix within the limit; not truncated means complete, truncated means full, and a chain below the limit is never truncated |
| `Helm.Paging.Advance` | internal/helm/pagination.go:11-21 | A token handed out before ends the listing with an error, and a new one is remembered |
| `Helm.StoredRefs` | internal/helm/history.go:37-78 | Without an error every match of both drivers comes back, and that happens exactly when both can be read and there are no more than the limit |
| `Helm.EachNamespace` | internal/helm/refs.go:94-123 | Namespace by namespace, a listing that claims to be complete holds everything of all namespaces that allowed it, and never more than the limit comes back |
| `Helm.NewestPerRelease` | internal/helm/refs.go:219-237 | Exactly one ref for each named release, its newest and the first of them |
| `Helm.KeysTellReleasesApart` | internal/helm/refs.go:225 | The key of namespace and name tells releases apart |
| `Base64.DecodeEncode` | internal/checks/checks.go:199-215 | A cursor reads back as the key it was written from (section 5 of RFC 4648, without padding) |
| `Base64.EncodesUrlSafe` | internal/checks/checks.go:199-204 | A cursor holds only letters, digits, hyphens and underscores, four for every three bytes |
| `Base64.Vectors` | internal/checks/checks.go:199-204 | The vectors of section 10 of RFC 4648, without padding, and the last two digits of the alphabet |
| `Findings.PagesYieldEverything` | internal/checks/checks.go:288-314 | For ranked findings, the pages fetched with each returned cursor concatenate to exactly the findings just when no page boundary falls between two of the same key |
| `Findings.PagesYieldTheRest` | internal/checks/checks.go:288-314 | The same from any cursor on, and never more than the rest |
| `Findings.DistinctKeysSuffice` | internal/checks/checks.go:195-197 | Findings whose keys all differ meet that condition |
| `Findings.SameKeyIff` | internal/checks/checks.go:195-197 | Two findings share a key exactly when they agree in severity, object and container |
| `Findings.MoreSevereFirst` | internal/checks/blast.go:72-84 | What is more severe comes first |
| `Findings.SecondOfAKeyIsSkipped` | internal/checks/checks.go:288-314 | Where it fails a finding is lost: of two that differ in their detail only, pages of one show just the first |
| `Findings.CursorSaysWhetherMore` | internal/checks/checks.go:288-314 | The cursor is empty exactly when the page shows all that is left |
| `Findings.CursorReadsBack` | internal/checks/checks.go:199-215 | The next request starts behind the very key the page ended with |
| `Findings.Page` | internal/checks/checks.go:288-314 | The loop shows the first findings behind the key up to the limit, each pointing at its own object, and the cursor of the last |
| `Findings.SameObjectIff` | internal/checks/checks.go:77-100 | Two findings point at one object exactly when its kind, namespace and name agree |
| `Findings.Objects.Ref` | internal/checks/checks.go:77-100 | An object is listed once and always found at the same place |
| `Access.Review` | internal/access/access.go:98-126 | Up to eight asks run at once among those of others, in any order. At every place stands what asking that check alone would give, except exactly where the check was not remembered at that place and its own claim was turned away in the course the asks took, which leads from the slots before to the slots after; there it says that there was no room. What is answered from memory, and that every other check is asked once, is exact too |
| `Access.AnswersSay` | internal/access/access.go:180-215 | What stands at each place, told from the reply of the cluster alone: allowed exactly where the reply to its own check allows it, answered exactly where it allows or denies without an evaluation error, with the reason or error of that reply; and where the claim was turned away neither, with its own reason |
| `Access.RefusedIffNoRoom` | internal/access/access.go:184-187 | A check of a batch is turned away exactly when its own claim found every global slot taken, or its identity at its limit, at some move of the course |
| `Access.AloneWithRoom` | internal/access/access.go:98-126 | While nobody else moves and there is room for as many distinct checks as run at once, nothing of a batch is turned away |
| `Access.AskAll` | internal/access/access.go:110-124 | The asks of one review, step by step among those of others, all end, each with the answer of the cluster or turned away, by a course of atomic steps from the slots before to the slots after; every answer given is remembered |
| `ReviewSlots.NoneRefusedIff` | internal/access/access.go:98-126 | The exact condition for a review that has the slots to itself: no order of the steps of its asks gets one turned away, just when there is room for as many as can run at once, for everybody and for the identity |
| `ReviewSlots.OthersTakeTheRoom` | internal/access/access.go:258-272 | With others about, room at the start promises nothing, whatever the limits: they can get an ask of every batch turned away, but for a batch without asks |
| `ReviewSlots.RefusedIffTurnedAway` | internal/access/access.go:180-187 | Along every course, among whatever steps of others, an ask stands refused exactly when its own claim found no global slot or none of its identity |
| `ReviewSlots.RunStaysOurs` | internal/access/access.go:98-126 | Along every run of a review on its own, the slots taken since the start are exactly those of the asks that are running |
| `ReviewSlots.MovedKeepsInv` | internal/access/access.go:98-126 | Every step of an ask, or of somebody else, keeps each running ask with its own claim in its own phase, and at most eight of them |
| `ReviewSlots.SlotsAddUp` | internal/access/access.go:258-287 | Under any interleaving of the two steps of taking and of giving back, neither limit is passed, and at rest the global slots are the in-flight counts added up |
| `ReviewSlots.SlotsAreThereToGiveBack` | internal/access/access.go:274-286 | Whoever holds or returns a slot finds one to give back |
| `ReviewSlots.Pool.TakeGlobal` | internal/access/access.go:258-263 | The first step of a claim: a global slot exactly when there is one |
| `ReviewSlots.Pool.TakeIdentity` | internal/access/access.go:264-275 | The second step, under the lock: an identity slot exactly when there is one |
| `ReviewSlots.Pool.BackOff` | internal/access/access.go:269-273 | Turned away, the claim gives its global slot back |
| `ReviewSlots.Pool.LeaveIdentity` | internal/access/access.go:279-284 | The first step of a release: the identity slot goes back and an empty counter is removed |
| `ReviewSlots.Pool.LeaveGlobal` | internal/access/access.go:285 | The second step: the global slot goes back |
| `ReviewSlots.Advance` | internal/access/access.go:180-215 | An ask takes exactly its next step of the interleaving model |
| `Access.Service.Recall` | internal/access/access.go:217-229 | An answer is recalled only if it was really given and is no older than the limit |
| `Access.Service.Remember` | internal/access/access.go:231-256 | The cache stays bounded; what is left is fresh and as it was, all of it unless the cache was full, and then only the oldest went |
| `Access.SlicesAnswerTheirGroups` | internal/access/capabilities.go:173-217 | The slice of a flattened batch that belongs to a group answers that group, place by place, for groups of any lengths and with places turned away carried through |
| `Access.ReviewEach` | internal/access/capabilities.go:193-217 | The refused rows are exactly those with a check of their own that is not allowed, each with its first refusal; every row holds what asking its checks alone would give, except exactly where a claim of the batch was turned away |
| `Access.RefusalsIff` | internal/access/capabilities.go:204-236 | A row is stopped exactly at its first check that is not allowed |
| `Access.FirstRefusal` | internal/access/capabilities.go:228-236 | The first check that is not allowed |
| `Access.Decide` | internal/access/scope.go:165-180 | One refusal decides, and without any one missing answer, or no check at all, leaves it open |
| `Access.Where` | internal/access/scope.go:129-156 | A name is readable exactly when it has checks and the reply of the cluster to each allows it, none turned away; it is undecided exactly when it is neither that nor denied any by a reply |
| `Baseline.WrittenReadsBack` | internal/baseline/store.go:131-261 | A baseline the limits accept reads back from what is written, its nil maps empty, exactly when all its text is UTF-8, in whatever order the maps are written |
| `Baseline.WireKeepsIff` | internal/baseline/store.go:142-154 | The encoder leaves a text as it is exactly when it is UTF-8 (section 4 of RFC 3629); any other byte becomes the replacement character |
| `Baseline.LoneByteIsReplaced` | internal/baseline/store.go:142-154 | A lone byte above the ASCII range comes out changed |
| `Baseline.SaveAndLoad` | internal/baseline/store.go:79-113 | What is saved loads back as it was exactly when all its text is UTF-8 |
| `Baseline.ReadingKeepsTheLimits` | internal/baseline/store.go:179-340 | Whatever the tokens, what the streaming reader returns keeps every limit, duplicate keys included |
| `Baseline.TrailingIsRefused` | internal/baseline/store.go:203-212 | A baseline with anything behind it is refused |
| `Baseline.UnknownIsRefused` | internal/baseline/store.go:216-235 | A field nobody knows is refused wherever it comes |
| `Baseline.NullReads` | internal/baseline/store.go:216-235 | A null leaves a text or a number as it was, makes counts and keys empty, and is no list of checks |
| `Baseline.Validate` | internal/baseline/store.go:361-382 | Accepts exactly what keeps the limits and names its checks and its day, though it stops adding up early |
| `Baseline.Encode` | internal/baseline/store.go:142-154 | Accepts within the limits and the size, and writes out everything |
| `Baseline.Decode` | internal/baseline/store.go:156-177 | Accepts exactly what is small enough, reads, and names its checks and its day; whatever comes back can be stored again |
| `Baseline.Decoder.DecodeStored` | internal/baseline/store.go:179-214 | The streaming reader reads what the specification reads |
| `Baseline.Decoder.DecodeStoredField` | internal/baseline/store.go:216-235 | The same for one field |
| `Baseline.Decoder.DecodeChecks` | internal/baseline/store.go:237-261 | The same for the list of checks |
| `Baseline.Decoder.DecodeCounts` | internal/baseline/store.go:263-298 | The same for the counts |
| `Baseline.Decoder.DecodeKeys` | internal/baseline/store.go:300-340 | The same for the keys and their bytes |
| `CommandBuffer.KeptInPieces` | internal/commandbuffer/buffer.go:40-76 | Keeping the first or last bytes chunk by chunk is keeping them of the whole stream |
| `CommandBuffer.KeptIs` | internal/commandbuffer/buffer.go:40-76 | What is kept is the beginning, or the end, of the stream, as long as the limit and the stream allow |
| `CommandBuffer.Buffer.Write` | internal/commandbuffer/buffer.go:28-38 | After any writes the buffer holds the first, or the last, bytes of everything written up to the limit, and says exceeded exactly when there was more |
| `CommandBuffer.Buffer.WriteHead` | internal/commandbuffer/buffer.go:40-54 | The head case in place |
| `CommandBuffer.Buffer.WriteTail` | internal/commandbuffer/buffer.go:56-76 | The tail case in place, the overflow moved out |
| `Corpus.GatherStrings` | internal/checks/corpus.go:96-111 | Exactly the texts at any depth are gathered, not the keys |
| `Corpus.HasLeafIff` | internal/checks/corpus.go:96-111 | A name is held exactly when some way down the tree, through fields and items to any depth, ends at just that text |
| `Corpus.CountMentions` | internal/checks/corpus.go:82-94 | Every name is counted once for each object that holds it and does not bear it |
| `Corpus.ScanMentions` | internal/checks/subject.go:285-322 | In whatever order the kinds finish, the counts are those of all objects that could be read, and exactly the failed kinds are refused |
| `Corpus.Scanned.Finish` | internal/checks/subject.go:303-318 | One kind is added under the lock |
| `Corpus.Mentioned` | internal/checks/corpus.go:42-45 | Listed and scanned kinds together count every object read |
| `Corpus.SplitDoesNotMatter` | internal/checks/corpus.go:42-45 | Any split of the kinds between listing and scanning counts alike |
| `Corpus.NoneMentions` | internal/checks/corpus.go:113-115 | A count of zero means that no object of another name holds the name; objects that bear it are never counted, of whatever kind |
| `Corpus.OrphansOf` | internal/checks/refs.go:616-629 | Exactly the objects whose name no object of another name holds are orphans |

## Left out

- Revocations.RevokedStaysOut: speaks of what the list still owes; after a restart that is what the store was told last, and nothing when the store cannot be read, since the code then knows no more.
- FlowLimits.StatesAreSingleUse: one direction; the exact condition is `FlowLimits.ConsumedIff`.
- Access.Review: the cluster is taken to give one answer to one question throughout a batch and as long as an answer is remembered, and nobody else touches the cache while a batch looks its checks up.
- Drift.Compare: the texts of floats and of whole trees are functions handed in, so two different trees may share a text here just as far as the encoder lets them.
- Helm.OneRef: the library's sort is taken to be an insertion sort; refs that agree in revision, driver and object keep their order, where the original may put them either way.
- Baseline.Decode: a body is its tokens, so broken syntax shows as a stream that ends early or has the wrong token; reader errors are not modelled, nor the replacing of broken text on the way in, which finds none in what was saved.
- UserRules.PassingCannotTell: cost limits and the clock of the expression language are not modelled; its library is any function of values.
- UserRules.Faults: the wording of a fault and the name it goes under are not modelled.
- Findings.Page: whether a finding is muted, new or baselined is carried by other code and not part of a page here.
- ClusterId.NormalizeTwice: addresses are plain text; escapes, user names, queries, fragments, bracketed hosts and surrounding spaces are not modelled.
- Cluster.Cluster.Activate: ids are taken as already normal, as `ClusterId.NormalizeTwice` makes them.
- The scope slot of a request (internal/access/scope.go:61-102): another single flight, simpler than that of the charts.
- The budget for login exchanges (internal/auth/flowlimits.go:42-77): two counters without rates or eviction; a callback takes a free slot as an input.
- The start-up error, dial timeouts and the listing of open clusters.
- Ranking by blast radius, owners of pods and the sorting of chart versions: short arithmetic or loops over one list.
- Signing, HTTP, TLS, the identity provider, informers, helm and kubectl processes, and all screens.
