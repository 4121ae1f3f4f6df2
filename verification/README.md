# Verified models of the alerting and configuration services

Dafny models of the parts of the network monitor whose correctness is hardest to see by reading:
the alert suppression map, the alert lifecycle engine with its user actions and housekeeping, the
one-shot TFTP sender used for rollbacks, the NETCONF commit-confirmed deploy, the configuration
backup history, the OSPF neighbour writer and the incremental BGP baseline.  `dafny verify
dfyconfig.toml` checks everything.

Code that the services run as loops over state is written as methods and classes; each is proved
to compute a function (or to meet a declarative specification), and the theorems are about that
specification.

- **Suppression.**  `Cascade.dfy` defines what Rule 2, the topology cascade, means: a core device is
  a down device with no surviving neighbour that Rule 0 has not claimed, and it is explained by the
  earliest failure that can have reached it through core devices.  `OutageRows.dfy` says the
  same of the rows it is loaded from, `CascadeSearch.dfy` holds the invariants of the breadth-first
  search, `Suppression.dfy` the loops of Rules 0 to 2, and `PeerCorrelation.dfy` Rule 4.
- **Alert lifecycle.**  `Lifecycle.dfy` states a pass of one rule, a pass that is aborted at any point
  (the savepoint takes back the table and the pending notifications but not the clocks), a cycle that
  is rolled back, the user actions and housekeeping as functions.  `Engine.dfy` and
  `Housekeeping.dfy` prove that the engine's loops compute them; `Outcomes.dfy` and
  `AutoResolution.dfy` say what a step and a pass make of each alert, clock and notification.  What
  every run of them, in any order and with restarts, keeps is in `Invariants.dfy`, `Sweeping.dfy` and
  `Runs.dfy`; then, property by property, `DurationGate.dfy`, `Escalation.dfy`, `Notifications.dfy`
  with `LostResolve.dfy`, `Pointers.dfy` and `ManualResolve.dfy`.  `Passes.dfy` builds passes that
  exist, and `Witnesses.dfy` runs from the initial state in which a promise fails.
- **TFTP.**  `Tftp.dfy` has the blocks, packets and the transfer loop; `TftpTrace.dfy` tells a
  transfer byte by byte, and `TftpSession.dfy` composes the sender with an RFC 1350 section 2 client
  over a channel that loses, duplicates and reorders.
- **NETCONF.**  `NetconfChannel.dfy` has the end-of-message framing of RFC 6242 section 4.3, the reads,
  the request loop and the textual verdict; `NetconfDevice.dfy` a device that follows RFC 6241
  sections 7.5, 8.3 and 8.4; `NetconfWire.dfy` the stream it sends.  `NetconfVerdict.dfy` proves what a
  reported success shows about the device, `NetconfForgery.dfy` lays out sessions read by read, and
  `NetconfTrust.dfy` puts the two together.
- **Configuration history.**  `ConfigHistory.dfy` stores, links and prunes the backups of one device;
  `ConfigStore.dfy` has the tables of all devices and their runs.
- **OSPF writer.**  `OspfWriter.dfy` proves the writer equal to "polled, else down".
- **Baselines.**  `Baselines.dfy` proves Welford's update equal to the batch mean and variance over
  exact reals, and says which samples a stored row stands for.

## Where the code and its promises part

The models follow the code.  Where a promise made in comments or documentation does not hold of it,
the project proves exactly when it does, and gives a run in which it fails:

- A manually resolved alert must stay quiet until its condition clears
  (`api/backend/alerting/engine.py:793-799`).  The hold is either in memory or in the table, as the
  newest resolution.  `GuardStep` says for every step whether it survives: a pass of any rule ends a
  hold that is in memory unless the fingerprint breaches in that very pass, because the release loop
  walks the fingerprints of all rules; housekeeping ends it if it forgets the one in memory and
  retention deletes the row; a restart leaves only the one in the table.
  `RetentionUndoesResolution` (with the platform defaults of `api/backend/routers/platform.py:44-46`)
  and `SecondRuleUndoesResolution` are runs.  Conversely a clear that a pass sees while the hold is in
  the table alone is not noticed.
- Orphan recovery should leave no stranded child (`api/backend/alerting/engine.py:321-328`).  If that
  stage fails and retention still runs, a suppressed alert whose parent retention deletes loses its
  pointer, and recovery never looks at it again (`SweepStrands`, `RecoveryFailureStrands`).
- Notifications are dispatched after the commit (`api/backend/alerting/engine.py:224-226`), and also
  after a commit that failed.  If the failed cycle resolved an alert, it comes back and can be notified
  about again (`GrammarSurvivesExactly`, `FailedCommitBreaksGrammar`).
- The TFTP sender wraps its block number.  "Served" means that the client has the whole configuration
  for exactly the configurations of at most 65536 blocks (`SafeExactlyUpToWrap`).
- The NETCONF sequence is sent to its end whatever the replies say.  A rejected load is committed all
  the same, and so are another session's edits in a candidate whose lock was refused (`OldOrNew`,
  `ForeignEditsCommitted`).
- A NETCONF read that a timeout cuts off can shift the replies, so that a failed deploy is reported as
  a success.  `SuccessIsGenuineExactly` says for which cut-off reads: for the hello or the lock's reply,
  a rejected load can go unnoticed; for two reads, a refused confirming commit.  End of file never does
  this (`EofNeverSucceeds`).
- The prefix baseline should gather samples towards a threshold
  (`api/backend/alerting/baselines.py:449-454`).  Its conflict key has no peer, so it does exactly on
  devices with one peer (`CountGrowsExactly`, `CountIsBounded`).

## Model

| member | source | states |
|---|---|---|
| `Cascade.RootIsRoot` | `api/backend/alerting/suppression.py:154-189` | no attribution rests on a device that is itself attributed or held by Rule 0, and a root failed no later than what it explains |
| `Cascade.FeedersAreComponentAndBorder` | `api/backend/alerting/suppression.py:171-189` | the failures that can have reached a core device are exactly its connected component of core devices and the down devices bordering it |
| `Cascade.ComponentAttribution` | `api/backend/alerting/suppression.py:154-189` | a whole component is attributed to the earliest failure among its members and its border; that device alone is spared |
| `OutageRows.CoreFromRows` | `api/backend/alerting/suppression.py:173-189` | a core device is one with a row, not held, all of whose linked devices have rows |
| `OutageRows.AttributedFromRows` | `api/backend/alerting/suppression.py:154-189` | Rule 2 explains a device by a row if and only if that is the first row from whose device a failure spread to it, and not its own |
| `CascadeSearch.UnvisitedFailedLater` | `api/backend/alerting/suppression.py:178-180` | an unvisited down neighbour never failed before the root being searched from, so the time guard never rejects one |
| `Suppression.BuildAdjacency` | `api/backend/alerting/suppression.py:149-152` | the adjacency is exactly the undirected graph of the links |
| `Suppression.SuppressionMap.ApplyCollectorOffline` | `api/backend/alerting/suppression.py:428-437` | both maps attribute a device to the last offline-collector alert whose collector manages it, and nothing else |
| `Suppression.SuppressionMap.ApplyCascade` | `api/backend/alerting/suppression.py:164-189` | the queue-and-visited loop computes the declarative attribution over both maps, whatever the neighbour order, and the time guard never fires |
| `Suppression.SuppressionMap.Compute` | `api/backend/alerting/suppression.py:87-189` | from the rows alone: the devices Rule 0 holds have their last offline collector's alert; of the others exactly those are attributed to which another device's failure spread first along links, through devices without a surviving neighbour, and the parent is that device's first row; an attributed device has no surviving neighbour, and one without a surviving neighbour is attributed if a neighbour failed strictly before it |
| `Suppression.ParentIsRoot` | `api/backend/alerting/suppression.py:104-189` | attribution is a depth-one forest: a parent is another down device's own alert, failed no later, and is not itself attributed |
| `Suppression.MapsAgree` | `api/backend/alerting/suppression.py:136-139` | the two maps agree on every attributed device, Rule 0 is never overridden, and an unattributed down device explains its own other alerts |
| `Suppression.WhatSuppresses` | `api/backend/alerting/suppression.py:70-86` | a held or attributed device's alerts all have the same parent; those of another down device have its outage, which itself has none; only the session alerts of a device that is up have a peer's |
| `PeerCorrelation.BuildIndex` | `api/backend/alerting/suppression.py:316-336` | in any row order a name resolves to a device exactly when that device alone claims it |
| `PeerCorrelation.CorrelateMetric` | `api/backend/alerting/suppression.py:353-381` | a device that is down gets no entry; one that is up gets one if and only if a row of it gives a name that a down device alone answers to, and then the one the last such row blames: the first address's owner, else the second's, else the hostname's |
| `PeerCorrelation.CorrelateSessions` | `api/backend/alerting/suppression.py:392-397` | the same for BGP, by device and peer address |
| `PeerCorrelation.PeerParentIsDown` | `api/backend/alerting/suppression.py:338-397` | every Rule 4 parent is the alert of a down device other than the reporter, which alone answers to a name the row gives |
| `Engine.AlertsTable.AcknowledgeAlert` | `api/backend/routers/alerts.py:205-217` | exactly an open alert is acknowledged and stamped, anything else is refused with its status or not found and changes nothing; no other row changes and the table invariant is kept |
| `Engine.AlertsTable.ResolveAlert` | `api/backend/routers/alerts.py:238-251` | exactly an alert not yet resolved becomes resolved, stamped with time and user; no other row changes and the table invariant is kept |
| `Engine.AlertsTable.BulkAlertAction` | `api/backend/routers/alerts.py:275-299` | of the selected alerts of the tenant, acknowledging takes exactly the open ones and resolving the open and acknowledged ones, stamped; nothing else changes, and the count returned is the number of rows that changed |
| `Engine.AlertEngine.EvaluateRule` | `api/backend/alerting/engine.py:734-1080` | the three loops together compute the pass, up to the point at which an exception is raised if one is; a complete pass resolves an active alert if and only if it is the rule's, at most ninety days old, not breaching, and its clear clock has run for both stable_for and 60 seconds |
| `Engine.AlertEngine.EvaluateGuarded` | `api/backend/alerting/engine.py:501-516` | under the savepoint an exception takes back table and notifications and leaves the clocks; every invariant, one active alert per fingerprint, and the stability gate hold afterwards |
| `Engine.AlertEngine.EvaluateCycle` | `api/backend/alerting/engine.py:199-226` | a cycle over all rules, each pass aborted or not, computes the specified state; if the final commit fails the rows go back while clocks and notifications stay, and every invariant holds either way |
| `Outcomes.GateMeans` | `api/backend/alerting/engine.py:736-773` | the gate, fingerprint by fingerprint: what has to wait fires once its breach clock has run for the duration, a breach stops the clear clock, and a hold outlives the pass only if its fingerprint breaches |
| `Outcomes.FireMeans` | `api/backend/alerting/engine.py:777-952` | a firing breach raises exactly one alert if none is active and no user's resolution holds; else the active one is suppressed if and only if another alert explains the breach |
| `Outcomes.TurnMeans` | `api/backend/alerting/engine.py:994-1078` | one alert of the auto-resolve loop stays, notified about again when due, or is resolved, its suppressed children coming back as they were |
| `AutoResolution.PassResolvesExactly` | `api/backend/alerting/engine.py:980-1041` | over a whole pass exactly the active alerts of the rule, at most ninety days old, not breaching, and clear for both stable_for and 60 seconds are resolved; the clear clock of any other that is clear runs on or starts |
| `Escalation.EscalationExact` | `api/backend/alerting/engine.py:955-978` | the escalation loop raises exactly the alerts that are open, not yet escalated, breaching and old enough, with one fire each, in whatever order they come |
| `Escalation.PassEscalates` | `api/backend/alerting/engine.py:735-1080` | over a whole pass an alert's severity changes only by escalation, and exactly if it is due once the breaches have been dealt with |
| `Runs.StepKeeps` | `api/backend/alerting/engine.py:199-520` | evaluation, aborted evaluation, cycles that are rolled back, user actions, housekeeping with or without recovery, and restart each keep every invariant |
| `Runs.Reachable` | `api/backend/alerting/engine.py:788-952` | in every reachable state, whatever failed on the way: one active alert per fingerprint; no alert is its own parent, open or acknowledged means no parent; everything in the clocks has a last-seen time |
| `Runs.LookupFindsAtMostOne` | `api/backend/alerting/engine.py:788-790` | at any point of any pass of any cycle, also one that is rolled back later, the one-or-none lookup has at most one candidate |
| `Runs.AcknowledgedNeverReopens` | `api/backend/alerting/engine.py:914-946` | between housekeeping passes an acknowledged alert never returns to open and a resolved alert never changes |
| `Runs.ResolvedIsAbsorbing` | `api/backend/alerting/engine.py:1033-1041` | over any run a resolved alert stays resolved until deleted, and its id is never given to another |
| `Runs.StabilityGate` | `api/backend/alerting/engine.py:1018-1041` | over whole runs, aborted passes, failed commits, user actions, pruning and restarts included, an alert is auto-resolved only if every sighting of its breach is at least max(stable_for, 60) seconds old |
| `DurationGate.DurationIsWaited` | `api/backend/alerting/engine.py:746-761` | over whole runs a rule with a duration raises an alert only for a condition some pass saw at least that long ago |
| `Notifications.StepLogs` | `api/backend/alerting/engine.py:896-1078` | a step keeps the notification log in order if and only if it is not a failed commit after a cycle that resolved an alert that existed before the cycle |
| `Notifications.NotificationGrammar` | `api/backend/alerting/engine.py:896-1078` | over any run without such a failed commit, each alert's notifications are fire*, or fire+ and one resolve with nothing after it |
| `LostResolve.GrammarSurvivesExactly` | `api/backend/alerting/engine.py:208-226` | after a commit fails, the notification grammar holds in every later run if and only if the failed cycle resolved no alert that the rollback brought back |
| `Witnesses.FailedCommitBreaksGrammar` | `api/backend/alerting/engine.py:208-226` | a run from the initial state in which a failed commit leads to a notification after an alert's resolve |
| `ManualResolve.GuardStep` | `api/backend/alerting/engine.py:237-952` | whatever step follows, a fingerprint held back after a user's resolution gets no new alert in that step, and it stays held back if and only if: the pass sees it breaching or its hold is not in memory; the sweep spares the hold in memory or the newest resolution retention leaves is a user's; the restart finds the hold in the table |
| `ManualResolve.ManualResolveSafety` | `api/backend/alerting/engine.py:792-811` | after a user resolves an alert its fingerprint is held back throughout a run if and only if every step of the run keeps the hold by that condition, and then no alert with it is created |
| `ManualResolve.RaisesExactlyUnheld` | `api/backend/alerting/engine.py:792-811` | a pass in which a fingerprint without an active alert fires raises one if and only if memory does not hold it and the newest resolution is not a user's, or not newer than the last clear |
| `ManualResolve.Lapses` | `api/backend/alerting/engine.py:768-811` | if some step of a run does not keep the hold, there is a point in the run at which no alert is active and nothing holds it, so that the next firing pass raises it |
| `Witnesses.RetentionUndoesResolution` | `api/backend/alerting/engine.py:399-414` | a run from the initial state, with the default settings, in which a user's resolution is undone although no pass of the rule saw the condition clear |
| `Witnesses.SecondRuleUndoesResolution` | `api/backend/alerting/engine.py:768-773` | a run from the initial state in which a pass of another rule undoes a user's resolution |
| `Sweeping.SweptAreParented` | `api/backend/alerting/engine.py:262-414` | after a housekeeping pass whose recovery succeeds every suppressed alert has a live parent in its tenant, though auto-close resolves parents without reviving children |
| `Sweeping.SweepStrands` | `api/backend/alerting/engine.py:262-414` | a sweep leaves a suppressed alert without a pointer if and only if recovery fails and retention deletes the parent of a suppressed alert it keeps, stated on the table before the sweep |
| `Pointers.SuppressedHasParent` | `api/backend/alerting/engine.py:321-414` | over any run in which no sweep strands an alert, suppressed means a parent other than itself, and a live one in its tenant after a sweep whose recovery succeeds |
| `Witnesses.RecoveryFailureStrands` | `api/backend/alerting/engine.py:329-416` | a run from the initial state after which an alert is suppressed under nobody and recovery does not look at it |
| `Sweeping.MemoryBound` | `api/backend/alerting/engine.py:423-450` | of what was seen within four hours nothing is forgotten unless that is more than 50000 fingerprints; then 40000 stay, none seen earlier than one that went; everything older is forgotten |
| `Sweeping.SweepMeans` | `api/backend/alerting/engine.py:262-416` | for each alert before a sweep: closed if and only if open or acknowledged and past its tenant's auto-close limit; reopened if and only if recovery runs and its parent is gone, another tenant's or no longer open; deleted if and only if not open then and past the retention limit; otherwise unchanged but for a deleted parent |
| `Sweeping.ForgottenEverywhere` | `api/backend/alerting/engine.py:423-450` | a forgotten fingerprint is forgotten by all five structures, and every other one keeps its clocks |
| `Housekeeping.EvictOverCap` | `api/backend/alerting/engine.py:437-447` | sorting by age and dropping the oldest evicts a set the cap allows, from all five structures |
| `Housekeeping.PurgeOld` | `api/backend/alerting/engine.py:396-414` | the per-tenant deletions, each nulling pointers to what it deletes, amount to one purge over all tenants |
| `Housekeeping.RunHousekeeping` | `api/backend/alerting/engine.py:237-450` | the stages in order, recovery failing or not, compute the housekeeping step and treat every alert as `SweepMeans` says; every invariant holds, memory is within its cap, and with recovery every suppressed alert has a live parent |
| `Tftp.Transfer` | `api/backend/configmgmt/rollback.py:340-353` | the transfer loop is the sender's state machine played to its end |
| `TftpTrace.Serve` | `api/backend/configmgmt/rollback.py:290-353` | byte by byte: block after block as DATA packets of up to 512 bytes, each sent again until its acknowledgement arrives; the transfer is served exactly if it ends with that of the last block, and is else given up after five attempts without one |
| `TftpSession.AckMeansDelivered` | `api/backend/configmgmt/rollback.py:302-306` | up to 65536 blocks, an acknowledgement the sender accepts means the client has the block, however stale the datagram |
| `TftpSession.EndToEnd` | `api/backend/configmgmt/rollback.py:341-353` | in every run with at most 65536 blocks the client's bytes are a prefix of the configuration, and all of it once served |
| `TftpSession.WrapDefeatsDelivery` | `api/backend/configmgmt/rollback.py:344` | beyond 65536 blocks some run reports served while the client is still waiting |
| `TftpSession.SafeExactlyUpToWrap` | `api/backend/configmgmt/rollback.py:343-353` | every run is safe if and only if there are at most 65536 blocks |
| `NetconfChannel.Channel.ReadUntilEom` | `api/backend/configmgmt/netconf.py:208-223` | the receive loop computes that read and leaves the channel behind it |
| `NetconfChannel.ReadReturns` | `api/backend/configmgmt/netconf.py:208-223` | whatever the chunk boundaries, a read is the text before the first `]]>]]>`, and drops what follows it in the same chunk; without one it is all that arrived before end of file or timeout |
| `NetconfChannel.RpcOkMeans` | `api/backend/configmgmt/netconf.py:77-98` | a reply is good if and only if no error-severity element holds "error", in any case and spacing, and one of the four signs of success occurs, in any case |
| `NetconfChannel.WarningsAreRoutine` | `api/backend/configmgmt/netconf.py:77-98` | a reply whose error-severity elements all hold "warning" is good if it shows a sign of success |
| `NetconfChannel.ErrorsAreFatal` | `api/backend/configmgmt/netconf.py:77-90` | a reply with an error-severity element that holds "error" is never good |
| `NetconfChannel.Execute` | `api/backend/configmgmt/netconf.py:180-251` | the request loop, reading through the channel, collects exactly the texts read before the first send or read that raises |
| `NetconfChannel.Interpret` | `api/backend/configmgmt/netconf.py:139-160` | success is reported if and only if there was no transport error, all six replies are there, and those to the load and the two commits are good as texts |
| `NetconfChannel.Deploy` | `api/backend/configmgmt/netconf.py:139-251` | the whole deploy succeeds if and only if every read returns something, no send fails, and the replies to the load and the two commits, as read, are good |
| `NetconfWire.EomOnlyAtEnds` | `api/backend/configmgmt/netconf.py:208-220` | in the stream of a device's messages the marker occurs at the ends of messages and nowhere else, also across their borders |
| `NetconfDevice.FinalForm` | `api/backend/configmgmt/netconf.py:101-128` | with the session broken anywhere and the timer firing anywhere, the device ends with the old configuration unless the confirming commit is accepted, and then with what the load left of the candidate |
| `NetconfDevice.OldOrNew` | `api/backend/configmgmt/netconf.py:101-128` | the device always ends with the old or the new configuration if and only if a rejected load leaves one of them in the candidate and, if the candidate was dirty, so does an accepted load on top of it |
| `NetconfDevice.ForeignEditsCommitted` | `api/backend/configmgmt/netconf.py:101-128` | with a dirty candidate the lock is refused, the sequence goes on, and another session's uncommitted edits are committed with the deploy's |
| `NetconfVerdict.EofNeverSucceeds` | `api/backend/configmgmt/netconf.py:208-223` | end of file in the hello or any of the first four replies never leads to a reported success |
| `NetconfVerdict.LoadAccepted` | `api/backend/configmgmt/netconf.py:139-160` | a reported success means the load was accepted if neither the hello's read nor the lock's was cut off by a timeout |
| `NetconfVerdict.CommitAccepted` | `api/backend/configmgmt/netconf.py:139-160` | a reported success means the confirming commit was accepted unless two of the first five reads were cut off, the later of them behind the lock's reply |
| `NetconfTrust.SuccessIsGenuineExactly` | `api/backend/configmgmt/netconf.py:77-160` | for a given device, job and set of reads that timeouts may cut off, every reported success means the new configuration if and only if `Trusted` holds of them; each way it can fail has a session whose replies a device can send |
| `ConfigStores.ConfigStore.StoreConfigBackup` | `api/backend/configmgmt/collector.py:513-602` | an unknown device or unchanged text writes nothing; otherwise the flag moves, the backup is added and a diff links it to its predecessor |
| `ConfigStores.ConfigStore.PruneBackups` | `api/backend/housekeeping.py:82-95` | the prune acts on every device separately |
| `ConfigHistory.PruneKeeps` | `api/backend/housekeeping.py:82-95` | a prune keeps exactly the newest min(keep, n) backups, the latest among them, and the chain of diffs between them |
| `ConfigHistory.CascadeLeavesChain` | `api/backend/models/config.py:32-33` | deleting the oldest backups leaves, through the foreign keys, exactly the chain of the survivors |
| `ConfigStores.HistoryIsKept` | `api/backend/configmgmt/collector.py:543-602` | over any sequence of collections over all devices and prunes, each device's rows are the newest part of its whole history, linked by exactly their diffs |
| `ConfigStores.OneLatestAndLinked` | `api/backend/housekeeping.py:82-95` | after any such run exactly one backup of a device is latest, neighbours differ in text and time, and every survivor but the first ever keeps its diff, naming its predecessor if that survives |
| `ConfigStores.LatestIsLastCollected` | `api/backend/configmgmt/collector.py:543-602` | whatever was stored, skipped or pruned in between, a device's latest backup is the configuration last collected of it |
| `OspfWriter.NeighbourTable.WriteOspf` | `api/backend/configmgmt/rest_state.py:392-460` | upserts then orphan marking leave, for every key, the row the specification gives |
| `OspfWriter.PolledElseDown` | `api/backend/configmgmt/rest_state.py:404-458` | after a non-empty poll each row has its polled state, else down; no row disappears and an unpolled down row is untouched |
| `OspfWriter.StampMovesWithState` | `api/backend/configmgmt/rest_state.py:426-429` | a set change stamp moves exactly when the state does |
| `OspfWriter.RowsFollowThePoll` | `api/backend/configmgmt/rest_state.py:406-458` | a reported row has state, address and area of the last report, an omitted one keeps address and area; a stamp that moves is the poll's time |
| `OspfWriter.RepeatedPoll` | `api/backend/configmgmt/rest_state.py:426-458` | repeating a poll changes no state and no stamp that was set, and fills in exactly the missing stamps of polled rows |
| `Baselines.ClampIsIdle` | `api/backend/alerting/baselines.py:485-486` | the clamp at zero never changes the new variance |
| `Baselines.WelfordIsBatch` | `api/backend/alerting/baselines.py:448-494` | after any samples of any peers the device's row belongs to the first peer and is the batch mean and population variance of the samples since another peer was last stored |
| `Baselines.CountGrowsExactly` | `api/backend/alerting/baselines.py:448-494` | the sample count equals the number of samples if and only if all of them are of one peer |
| `Baselines.CountIsBounded` | `api/backend/alerting/baselines.py:107-109` | with a sample of another peer among every n in a row, the count never exceeds n |
| `Baselines.BaselineTable.ComputeBgpPrefixCount` | `api/backend/alerting/baselines.py:455-494` | one hourly run over any sessions leaves each device's row as its samples in order make it, and returns the number of sessions with a prefix count |
| `Baselines.SamplesMean` | `api/backend/alerting/baselines.py:455-468` | the samples of a device are its sessions with a prefix count, each once and in order |

## Left out

- Rule 3 (`api/backend/alerting/suppression.py:198-278`): it can make both ends of one failed link suppress each other, so the forest theorems are stated for the map after Rules 0 to 2.
- Storm protection (`api/backend/alerting/engine.py:822-871` and its clean-up at 287-319): off by default; its alerts carry no rule fingerprint.
- Metric evaluators, maintenance windows, overrides and exclusions: a pass receives an arbitrary sequence of breaches.
- A continuous breach is not claimed by the duration gate: the breach clock is not stopped when a breach ends before it has fired.
- A breach is taken as seen by a pass when it reaches the gate, so a pass that raises while evaluators run has seen nothing.
- User requests that interleave with the statements of one pass: steps are atomic, and no step falls between the passes of a cycle that is rolled back.
- A user acknowledgement or resolution that fails to commit: it is as if it had not happened.
- Exceptions inside the escalation loop: they leave the same state as one raised after the last breach, because that loop touches no clock.
- A failing auto-close or retention statement for one tenant: it acts as if that tenant's setting were off, and the sweep's settings are arbitrary.
- Timestamps are assumed not to go backwards; the time of a user's resolution is assumed later than the previous step's.
- Device status updates, correlation ids, alert titles, messages and contexts, websocket pushes, roles and audit entries.
- Hashes and UUIDs: fingerprints keep their parts, configurations keep their text, ids are fresh numbers.
- Each evaluation's suppression map is only assumed to name existing or past alerts: maps of the current and of earlier cycles are both covered.
- Hostname lower-casing and the five-minute freshness of neighbour rows in Rule 4 are taken as already applied.
- The HTTP and SFTP one-shot servers and the vendor recipes of `api/backend/configmgmt/rollback.py`.
- The client of the TFTP session follows RFC 1350; errors and option negotiation (RFC 2347) are not part of this model. Only safety is claimed: a channel may lose everything.
- RPC bodies and XML escaping: the load is an arbitrary function of the candidate, and a rejected load may leave anything.
- Edits by another session during the deploy after its lock was refused, and a foreign confirmed commit still pending when it starts.
- NETCONF bytes are read as characters, and letter case is folded for ASCII only; the confirm timer is taken to have run out, or been cancelled, by the end.
- Replies of a NETCONF device are assumed well-formed: an opening bracket first, no end-of-message marker within, no `]]>` at the end, and no success marker in the hello, the sanity reply or the reply to a refused RPC.
- `_write_bgp` and `_write_routes`: the OSPF writer is the reconciler with the most cases.
- Normalisation of configuration text, diff texts and the change alert that follows a store; the prune's statement acts per device, its foreign keys within one device's rows.
- Baselines other than the BGP one, manual edits of stored baselines, and floating-point rounding: the square root is any exact one.
