# Loglight, verified

Loglight is an event pipeline: it decodes flow exports and log lines into events, runs windowed
detectors over them, correlates what they report into kill-chain incidents, keeps the findings that
result through their life, and tells people about them in batches. This project models those
machines in Dafny and proves what they keep over every run.

Each component is written twice. A specification gives, as functions on values, what one step does;
the code itself follows in the shape it has in Go: classes whose methods update maps, buffers and
arrays, with their loops, proved equal to the specification. The theorems are about the
specification over whole runs, most of them against a second description that looks at the history
alone. `dafny verify dfyconfig.toml` checks everything.

| component | modules |
|---|---|
| NetFlow v5, v9 and IPFIX decoding (RFC 3954, RFC 7011) | `Wire`, `NetFlow`, `NetFlowFields`, `NetFlowDecoder`, `NetFlowRoundTrip`, `NetFlowBounds` |
| findings and their lifecycle | `Findings`, `Lifecycle`, `LifecycleContents`, `Reconciler`, `LifecycleRuns`, `LifecycleHistory` |
| the two write paths | `LogStore`, `Collector`, `Worlds`, `Pipeline`, `TwoPaths`, `TwoPathsLive` |
| detectors | `Events`, `Detections`, `Windows`, `Buffers`, `ValueWindows`, `Tracks`, `Detectors`, `DetectorHistory`, `RawDetectors`, `Egress`, `Beacon`, `NewServices`, `Alerts`, `Engine` |
| kill-chain correlator | `Correlator`, `CorrelatorHistory`, `Incidents` |
| traffic graph | `Sums`, `Traffic`, `TrafficMap` |
| notification | `SeveritySort`, `Dispatcher`, `DispatcherService` |
| identifiers | `Text`, `Ulid` |
| evidence sanitiser | `Sanitizer`, `SanitizerContents` |
| syslog printer and parser (RFC 3164, RFC 5424) | `LineText`, `SyslogPrinter`, `SyslogFields`, `SyslogParser`, `SyslogRoundTrip`, `SyslogModern` |

What comes from outside is a parameter: clocks, ids and entropy, the outcome of a send, the text of
a time stamp and what a time parser makes of it, which addresses are private, the /24 group of an
address, the parse rate of a source, the fields of an event and of a sister product's message, and
the prose of a finding. Times are integers in nanoseconds with zero for Go's zero time, so
differences neither saturate nor wrap. A table is a map and every write to it succeeds; calls are
sequential.

## What the code does that its documentation does not say

- A suppressed finding stays suppressed only through `Reconcile`. The pipeline writes every firing as
  open, so the next firing undoes the user's choice (`TwoPaths.SuppressedUntilFiredIff`).
- Fingerprints join their parts with a bar, and source names may hold bars. Two sources can be confused
  when one name goes on, after a bar, with a check that the code writes and the word that begins its keys,
  and only then (`Collector.SharedIff`); then a scan announces what is open (`TwoPaths.SharingMisannounces`).
- `Reconcile` looks only at the records it read at the start: a new fingerprint reported twice in one scan
  is announced twice. Announcements alternate exactly when scans and user changes avoid that and two
  similar cases (`LifecycleRuns.AlternationIff`).
- A sliding window prunes from the front and stops at the first entry in the window, so out of order it
  counts too much; and an event stamped ahead discards what a later one would still have counted, so it
  can miss as well (`DetectorHistory.DisorderMisses`). `Buffers.WindowExactIff` and
  `ValueWindows.DistinctExactIff` give the orders in which the windows are right, and no others.
- The start of a login incident can be a scan too old to be one of its members
  (`CorrelatorHistory.IntrusionStartsEarliestIff`).
- The template cache is emptied when it holds more than 4096 entries, so it holds at most
  4097 (`NetFlowBounds.CacheBounded`); the traffic buffer likewise holds at most its limit and one edge more.
- A host that has been reached on more than 4096 service ports has ports that are not remembered, and a flow
  to one of those is flagged whenever its key has rested (`NewServices.FlagsIff`, `NewServices.RememberedIff`);
  up to then the cooldown of the new-service detector never decides (`NewServices.NewPortsOnly`).
- Identifiers sort by time through the year 10889, whose milliseconds exceed 48 bits (`Ulid.TimeOrderIff`).
- The sanitiser is idempotent except for a `[]string` at depth three or deeper: the first pass turns it into
  a list, which the second pass omits (`Sanitizer.IdempotentIff`).
- RFC 5424 structured data is removed by counting brackets, quoted ones included, so the message comes back
  exactly when they come out even at the end of the data and not before (`SyslogModern.MessageComesBackIff`):
  of several plain elements only the first is removed (`SyslogModern.PlainElementsIff`), and a quoted bracket
  breaks a single one (`SyslogModern.QuotedBrackets`). A syslog facility above 23 or below 0 makes
  every frame of a channel unreadable (`SyslogRoundTrip.FindingReadBackIff`).

## Model

| member | source | states |
|---|---|---|
| NetFlowDecoder.TemplateCache.Store | netflow/netflow.go:57-64 | a template replaces what is filed under its exporter, domain and id; a cache that already holds more than 4096 entries is emptied first |
| NetFlowDecoder.TemplateCache.Lookup | netflow/netflow.go:66-69 | the template of exporter, domain and id, if there is one |
| NetFlowDecoder.ReadUintN | netflow/netflow.go:378-387 | the low eight octets at most, read big-endian by a shifting loop, are the 64-bit number the specification gives |
| NetFlowDecoder.DecodeFixed | netflow/netflow.go:287-302 | of any octets whatever, the offset loop makes the flow that the record's values say, each the next slice of its field's length; none without both addresses |
| NetFlowDecoder.DecodeVar | netflow/netflow.go:307-341 | the same with variable lengths and their one- and three-octet length prefixes, the octets consumed, and failure when a value runs out of the record |
| NetFlowDecoder.Measure | netflow/netflow.go:248-261 | whether the template has a variable-length field, and otherwise its record length |
| NetFlowDecoder.DecodeRecords | netflow/netflow.go:262-281 | the loop over a data set stops on fewer than four octets left or a record that does not fit, and skips records without an address |
| NetFlowDecoder.DecodeData | netflow/netflow.go:242-283 | a set whose template is unknown counts as dropped; the rest decode by either branch |
| NetFlowDecoder.ReadFields | netflow/netflow.go:214-237 | exactly the announced number of field specifiers, with the enterprise number skipped where its bit is set |
| NetFlowDecoder.ParseTemplates | netflow/netflow.go:209-239 | the template loop learns what the specification says and stops where the set is malformed |
| NetFlowDecoder.ParseSets | netflow/netflow.go:155-174 | the loop over the sets of a message: flows in order and the cache threaded through |
| NetFlowDecoder.ParseV5 | netflow/netflow.go:108-144 | v5 records up to the announced count or the end of the datagram |
| NetFlowDecoder.ParseDatagram | netflow/netflow.go:91-105 | for every octet string and cache, flows and new cache are those of the functional specification |
| NetFlowFields.AppliedIs | netflow/netflow.go:345-375 | one value changes the field that its element number names, and no other, whatever the record |
| NetFlowFields.FinishedIsFlowOf | netflow/netflow.go:287-375 | a record is the flow whose source, destination, ports, protocol, octets and packets are each the last value of elements 8 and 27, 12 and 28, 7, 11, 4, 1 and 2 that is not enterprise-specific and has their length; no address no flow, and no packets count as one |
| NetFlowFields.SlicesAt | netflow/netflow.go:287-295 | value i of a fixed record begins where the lengths before it end |
| NetFlowFields.NumberReadBack | netflow/netflow.go:378-387 | a number reads back from any width that holds it, and of a longer value the last eight octets count |
| NetFlowRoundTrip.FieldsRoundTrip | netflow/netflow.go:214-237 | encoded field specifiers (RFC 7011 section 3.2) read back, and only they are consumed |
| NetFlowRoundTrip.TemplatesRoundTrip | netflow/netflow.go:209-239 | a template set with 0-3 padding octets (RFC 7011 section 3.4, RFC 3954 section 5.2) leaves exactly its templates learnt, in order, over any cache |
| NetFlowRoundTrip.RecordRoundTrip | netflow/netflow.go:307-341 | the values of one record of any mix of fixed, enterprise and variable-length fields (RFC 7011 section 7) are cut from its octets again, and only those consumed |
| NetFlowRoundTrip.RecordSays | netflow/netflow.go:262-341 | and either decoder makes of it the flow that those values say, by their element numbers |
| NetFlowRoundTrip.RecordsRoundTrip | netflow/netflow.go:242-283 | a data set of records of at least four octets each, with padding, reads back as one flow a record minus those lacking an address |
| NetFlowRoundTrip.SetsRoundTrip | netflow/netflow.go:155-174 | any sequence of template and data sets reads back, later sets against what earlier ones taught |
| NetFlowRoundTrip.IpfixRoundTrip | netflow/netflow.go:177-206 | a whole IPFIX message, whatever trails it, decodes to the flows that its values say, by their element numbers, and the templates it teaches |
| NetFlowRoundTrip.V9RoundTrip | netflow/netflow.go:148-174 | so does a whole v9 packet, whatever count its header claims |
| NetFlowRoundTrip.V5RoundTrip | netflow/netflow.go:108-144 | a whole v5 packet of 48-octet records decodes to what they say, as many as it announces of those that are there; times count from when the exporter booted |
| NetFlowRoundTrip.IpfixTemplateThenData | netflow/netflow.go:177-283 | a message that teaches a template and then uses it yields exactly the flows of its records, over any cache |
| NetFlowBounds.DatagramBound | netflow/netflow.go:91-341 | no datagram of any kind yields more than one flow for every eight octets |
| NetFlowBounds.CacheBounded | netflow/netflow.go:57-64 | after any run of datagrams the cache holds at most 4097 templates, each of 1 to 128 fields |
| NetFlowBounds.CacheIsHistory | netflow/netflow.go:57-69 | the cache holds exactly the last template filed under each key since it was last emptied, which happens when one is filed on top of more than 4096 keys |
| NetFlowBounds.KeysApart | netflow/netflow.go:53-55 | a template is used by no other exporter, domain or id |
| NetFlowBounds.DecodersAgree | netflow/netflow.go:287-341 | without a variable-length field both record decoders read the same flow, or none, and consume the same octets |
| Findings.FindingStore.Put | store/memory.go:32-37 | the in-memory overwrite, or the conflict rule of SQLite |
| Findings.FindingStore.Get | store/memory.go:39-44 | the record of module and fingerprint, if there is one |
| Findings.FindingStore.ListByTarget | store/memory.go:20-30 | every record of one module and target, each once |
| Findings.BackendsAgreeIff | store/sqlite.go:112-141 | one write leaves both stores equal exactly when it does not change id, target, check or first_seen of a row that is there |
| Reconciler.Engine.IngestOne | store/reconcile.go:38-86 | one reported finding is rejected with its reason, inserted as open, refreshed, or reopened, and announced if it is news |
| Reconciler.Engine.IngestAll | store/reconcile.go:38-86 | the first loop is the fold of that step, and seen holds the accepted fingerprints |
| Reconciler.Engine.AgeExisting | store/reconcile.go:88-108 | the second loop writes one aged record for every listed, unreported, unsettled one |
| Reconciler.Engine.Reconcile | store/reconcile.go:23-111 | the two loops compute the scan function on the store and announce every resolution once, in whatever order the store lists |
| Reconciler.AgeFirstAll | store/reconcile.go:88-108 | the order in which the store lists the records does not matter to the result |
| Reconciler.ResolvedAreRecords | store/reconcile.go:98-105 | every resolution announced is a record of before, as it was but for status and time of resolution |
| LifecycleContents.ScanStoresReport | store/reconcile.go:38-86 | after a scan a validly reported finding has title, severity, remediation and evidence of its last valid report, evidence replaced by a marker exactly above 65536 bytes or when it does not serialise; a listed one keeps id, target, check, group and first time, a new one has its report's or, in SQLite, what the row had first |
| LifecycleContents.ScanKeepsOthers | store/reconcile.go:88-108 | without a valid report a record keeps everything but status, streak and time of resolution, and those change only as it ages or is resolved now |
| LifecycleContents.NewsIsReported | store/reconcile.go:56-86 | the openings announced are those reports that are news, in order, each with what it reports and the identity it has or is given |
| LifecycleContents.RejectedIff | core/finding.go:98-118 | a finding is rejected exactly for an empty field or an unknown severity, by the first of them |
| LifecycleContents.RejectedAre | store/reconcile.go:39-43 | the rejections are the invalid reports, in order and with their reasons |
| LifecycleRuns.ScanSays | store/reconcile.go:38-108 | what one scan announces about a fingerprint and whether it is unresolved afterwards, by how often it was reported |
| LifecycleRuns.StepTruthfulIff | store/reconcile.go:46-108 | one operation keeps the announcements truthful exactly when it is clean: no duplicate news in a scan, no open fingerprint under another target, no user change of a resolved finding |
| LifecycleRuns.AlternationIff | store/reconcile.go:46-108 | over any run of scans and user changes announcements strictly alternate from an opening, and the last one tells whether the finding is unresolved - if and only if every operation was clean |
| LifecycleHistory.DisciplinedIsClean | store/reconcile.go:38-65 | a collector that reports each fingerprint once, and one target for each, is always clean |
| LifecycleHistory.StoreIsHistory | store/reconcile.go:38-108 | the stored record is a function of the scans alone: first and last report, absences since, and when it was given up |
| LifecycleHistory.ClosesOnThreshold | store/reconcile.go:98-104 | a reported finding is resolved on exactly its ResolveAfter-th consecutive absence |
| LifecycleHistory.ResolvedNotBeforeLastSeen | store/reconcile.go:98-108 | under a monotone clock resolved means ResolvedAt is set and not before LastSeen, and open means the absence count is below the threshold |
| LifecycleHistory.SuppressedKeptIff | store/reconcile.go:89-97 | a scan leaves a suppressed finding suppressed exactly when it does not take it for a new one of another target |
| LifecycleHistory.ScanAgrees | store/sqlite.go:125-141 | one scan leaves both stores with equal records wherever every report refreshes a listed record or is the first of its fingerprint |
| LifecycleHistory.StoresAgree | store/sqlite.go:125-141 | over any run of disciplined scans and user changes the two stores hold equal records |
| LogStore.Store.PutSource | loglight/memstore.go:21-26 | the source is there afterwards, and the detections are as they were |
| LogStore.Store.UpsertDetection | loglight/memstore.go:55-67 | a recurrence keeps the earliest FirstAt; SQLite also keeps the columns its conflict rule does not list |
| LogStore.Store.ListDetections | loglight/memstore.go:69-80 | every detection of one source, or of all for the empty name, each once |
| LogStore.Store.DeleteSource | loglight/sqlite.go:95-101 | SQLite deletes the detections with the source, memory keeps them |
| LogStore.Store.PruneDetections | loglight/memstore.go:82-91 | exactly the detections last seen before the cutoff go |
| Collector.Collector.Collect | loglight/loglight.go:122-155 | all detections of the source within the active window, the parse-rate finding below one half, and nothing for a deleted source; nothing at all when cancelled on the way |
| Collector.AcceptedIff | loglight/loglight.go:162-193 | what path A writes is accepted by path B exactly when source, check and title are not empty |
| Collector.ReportShown | loglight/loglight.go:136-193 | a scan reports, in order, every detection seen within thirty minutes under its source, check and fingerprint, with its title, evidence, its own severity if that is one of the five and medium otherwise, and its fix unless that is blank; and a low finding when under one half parses |
| Worlds.WriteStores | loglight/pipeline.go:76-98 | a firing is stored open with all that, seen first and last when it was, under the id drawn; SQLite keeps id, target, check and first time of a row that is there; nothing else is touched |
| Pipeline.FiringRecorded | loglight/pipeline.go:48-57 | the record of a detection has its source, key, title, severity, ends, count and times, and the check of its kind |
| Pipeline.IncidentRecorded | loglight/pipeline.go:59-72 | the record of an incident likewise, under the check of kill chains |
| Collector.SharedIff | core/finding.go:135-138 | over the ten checks that are written and the words that begin their keys, two sources can share a fingerprint exactly when they are one, or one name goes on, after a bar, with such a check and its word |
| Collector.OwnerIs | core/finding.go:135-138 | among names no two of which share, a fingerprint tells its source |
| Pipeline.Pipeline.PersistAndEmit | loglight/pipeline.go:76-98 | the detection is kept, the finding is written as open whatever it was, and announced; both show the detection field by field |
| Pipeline.Pipeline.HandleDetection | loglight/pipeline.go:32-39 | a detection feeds the correlator and is written before the incident it may close |
| Pipeline.Pipeline.Handle | loglight/pipeline.go:30-46 | everything one event writes and announces, in order, whatever was fired on it, and what the correlator remembers afterwards |
| TwoPathsLive.EmittedIsGenuine | loglight/pipeline.go:48-74 | everything an event writes has a check and key that the code writes and a title, so path B accepts it under any source with a name |
| TwoPathsLive.EventIsRun | loglight/pipeline.go:30-98 | what an event writes is a run of the firings that the theorems below quantify over |
| TwoPathsLive.EngineEventIsRun | detect/detect.go:163-176 | so is whatever the engine fires on any event after any events, with no condition on what was fired |
| TwoPathsLive.RealFiringSurvivesIff | loglight/pipeline.go:76-98 | a finding written by a firing of the code is open after the next scan exactly when its source exists and it is active, and resolved otherwise |
| TwoPaths.StepKeeps | loglight/loglight.go:162-193 | every operation keeps: records filed under their source, streaks not negative, and a finding behind every active detection |
| TwoPaths.CollectedIs | loglight/loglight.go:122-155 | a scan reports exactly the active, titled detections and the parse rate, each fingerprint once and under its own source |
| TwoPaths.PathsAgree | store/reconcile.go:38-108 | over any set of source names no two of which share a fingerprint: after any run of firings, scans, user changes, pruning and source changes, one more scan leaves what its source emits as open as it was and everything else of it resolved or suppressed, touches no other source, announces only what was not open, and makes no finding of its own but the parse rate |
| TwoPaths.SharingMisannounces | core/finding.go:135-138 | and that condition is needed: two names one of which goes on with a check and its word have a run after which the next scan announces as opened what is open |
| TwoPaths.FiredSurvivesIff | loglight/pipeline.go:76-98 | a finding just written is still open after the next scan exactly when its source exists, it is active and its title is not empty, and resolved otherwise; that scan never announces it |
| TwoPaths.SuppressedUntilFiredIff | loglight/pipeline.go:84-91 | left alone by the user, a suppressed finding stays suppressed over a run exactly until path A writes it again |
| TwoPaths.SlotIsHistory | loglight/memstore.go:55-67 | what is stored of a detection is its own firings since it was last forgotten: latest fields, earliest FirstAt |
| TwoPaths.PruningUnseen | cmd/loglight/main.go:257-269 | pruning what is no longer active changes nothing that a scan reports |
| TwoPathsLive.Poll | loglight/loglight.go:122-155 | Collect and Reconcile together are one such scan |
| Windows.SlidingCounter.Add | detect/window.go:17-29 | append, prune to the first entry in the window, count |
| Windows.DistinctWindow.Add | detect/window.go:45-59 | exactly the values seen in the window remain |
| Windows.Cooldown.Firable | detect/window.go:108-114 | fires when the key has rested, and only then starts a new rest |
| Windows.PruneExactIff | detect/window.go:20-26 | stopping at the first entry in the window is exact for one pruning if and only if no entry behind it is out of it; otherwise it keeps too much, never too little |
| Buffers.WindowExactIff | detect/window.go:17-29 | over a whole run the counter holds the window of the history at every event if and only if what is in the window of a time is followed there by everything up to it, and what has left an earlier window is in no later one |
| ValueWindows.DistinctExactIff | detect/window.go:45-59 | the distinct window, which overwrites the time of a value, holds the values of the history in the window at every event if and only if its sightings keep the corresponding order |
| Detectors.BruteForceDetector.Observe | detect/detectors.go:35-66 | the detector says of an event what the history of its actor says |
| Detectors.ScanDetector.Observe | detect/detectors.go:81-106 | the same for distinct ports per source address |
| Detectors.SpikeDetector.Observe | detect/detectors.go:214-246 | the same for failures and distinct sources per service |
| Tracks.FollowTracks | detect/window.go:17-59 | in any order that those two conditions allow, nondecreasing times among them, the bounded buffers are the events since the last firing that are in the window |
| Tracks.ReadyIsFires | detect/window.go:17-59 | in such an order the buffers are full enough exactly when counting over the whole history is, with the same counts |
| DetectorHistory.EmitIff | detect/detectors.go:35-106 | in such an order a detector reports exactly when the events since its last report, counted over the whole history, reach the threshold and the key has rested; the report carries that count, the first of them and their first lines |
| RawDetectors.BruteForceIff | detect/detectors.go:35-66 | by the fields of raw events, in a steady order: a brute force is reported at an event exactly when it is a failure and the failures by the same address, else user, else host, since their last report and within the window, reach the threshold after a rest; the report names them, their number, first and last time and first lines |
| RawDetectors.PortScanIff | detect/detectors.go:81-106 | the same for the different ports tried from one address, neither empty |
| RawDetectors.SpikeIff | detect/detectors.go:214-246 | the same for the failures at one service from at least three different sources |
| RawDetectors.ServicesApart | detect/detectors.go:218 | a service is one host and app unless a host name holds a slash |
| DetectorHistory.KeysDoNotInterfere | detect/detectors.go:35-106 | the reports for a key are those of the run restricted to that key |
| DetectorHistory.ReportsApart | detect/window.go:108-114 | in any order of arrival, any two reports for one key are at least the cooldown apart |
| DetectorHistory.DisorderMisses | detect/window.go:17-29 | in another order it can fail to fire: an event stamped ahead discards what a later event, stamped earlier, would still have counted |
| Egress.SumWindow.Add | detect/window.go:79-95 | append, prune, and the sum of what remains |
| Egress.ExfilDetector.Observe | detect/detectors.go:123-158 | one event changes the meter of its host alone, and reports exactly on a sum above floor and baseline after a rest |
| Egress.ReportIff | detect/detectors.go:128-146 | in any order that keeps the window exact the sum compared is the sum over the whole history of the host in the window |
| Egress.BaselineBetween | detect/detectors.go:129-140 | there is a baseline exactly after the first sample, unless the window is negative, and it lies between the smallest and the largest total before |
| Egress.BaselineIsAverage | detect/detectors.go:129-135 | the baseline is the first total times 0.8 for every sample since, plus a fifth of each later total likewise faded |
| Egress.SteadyIsSilentSurgeIsNot | detect/detectors.go:136-146 | no report on the first sample or below the factor times every earlier total, whatever the sign of factor and window; at or above it for each of them a report exactly when the host has rested |
| Beacon.BeaconDetector.Observe | detect/traffic_detectors.go:39-96 | one flow changes the beats of its pair alone and reports exactly on the stated statistics |
| Beacon.BeaconDetector.Statistics | detect/traffic_detectors.go:60-75 | the loops compute the mean interval and the summed squared deviation |
| Beacon.BeatsBounded | detect/traffic_detectors.go:47-56 | in any order of arrival the kept beats are a second apart and at most twice BeaconMin |
| Beacon.FiringStatistics | detect/traffic_detectors.go:57-82 | on firing the mean is (last - first) / n, in range, and every interval g has (g - mean)^2 <= n CV^2 mean^2 |
| Beacon.FiresIff | detect/traffic_detectors.go:39-82 | by the times of the beats alone: a beacon is reported exactly when n intervals have minGap n <= span <= maxGap n and n times the sum of their squares less span^2 is at most CV^2 span^2, or there is one beat, after a second and a rest |
| Beacon.RegularStream | detect/traffic_detectors.go:39-96 | beats exactly g apart first fire at beat BeaconMin, if and only if g is in range and the pair has rested since its last report, if it had one |
| NewServices.NewServiceDetector.Observe | detect/traffic_detectors.go:121-160 | the early returns, the bounded port set, the learning window and the cooldown, as one step |
| NewServices.RememberedIff | detect/traffic_detectors.go:138-143 | a port is remembered exactly when it was reached while its host had been reached on at most 4096 ports, itself included |
| NewServices.FlagsIff | detect/traffic_detectors.go:131-150 | over every history: a flow is flagged exactly when it concerns the detector, its port is not remembered in that sense, its host has settled, and the key has rested since it was last flagged |
| NewServices.NewPortsOnly | detect/traffic_detectors.go:131-150 | up to 4096 ports a host that is: exactly when the port is new to the whole history and the host has settled; the cooldown never decides |
| NewServices.NewPortAlwaysFlagged | detect/traffic_detectors.go:138-150 | beyond that a new port of a settled host is still always flagged |
| NewServices.FlaggedOnce | detect/traffic_detectors.go:138-143 | no port of a host is flagged twice within that bound |
| Alerts.NewAdminDetector.Observe | detect/detectors.go:169-190 | a new account is reported as its history says |
| Alerts.CreatedIff | detect/detectors.go:169-190 | that is: exactly when the last report for its host and user, if any, is a cooldown ago, with who, where and when |
| Alerts.SentinelDetector.Observe | detect/detectors.go:302-343 | a sister product's finding is relayed as its history says, with the first lines of all relayed of the address |
| Alerts.TrippedIff | detect/detectors.go:302-343 | that is: exactly when it is open, high or critical, names an address, and the last one of its product and address, if any, is a cooldown ago, with its severity and check |
| Engine.Engine.Observe | detect/detect.go:163-176 | all eight detectors in their order: what is fired is what each of their histories says |
| Engine.FiredIsKeyed | detect/detectors.go:35-343 | whatever is fired has a title, and a key that begins with the word of its kind |
| Correlator.Correlator.ObserveDetection | correlate/correlate.go:82-100 | a scan or brute force replaces what was remembered of its actor |
| Correlator.Correlator.ObserveSentinelFinding | correlate/correlate.go:112-168 | an incident from a deception: stages, members, first and last time, cooldown and consumption |
| Correlator.Correlator.ObserveSuccess | correlate/correlate.go:184-232 | an incident from a login: severity by whether a scan led to the brute force, and consumption |
| CorrelatorHistory.Remembers | correlate/correlate.go:70-100 | in every reachable state an actor's record is its last scan, last brute force and last target since its last incident |
| CorrelatorHistory.RaisesIff | correlate/correlate.go:112-232 | an incident is raised exactly when a specification over the history alone says so |
| CorrelatorHistory.TimelineIsMembers | correlate/correlate.go:139-156 | whenever an incident is raised, its members are operations of the history and stand at their times, and it ends at the operation that raised it |
| CorrelatorHistory.IncidentTells | correlate/correlate.go:112-232 | by the history alone: a deception is always critical and a login exactly when the last scan, if it has a time, lies within the window before the brute force; every stage and line is of the operation in its place, with its title; the target is the host it names or the last one named |
| CorrelatorHistory.LoginStart | correlate/correlate.go:200-208 | a login's incident starts with the brute force, or with the last scan if that came before |
| CorrelatorHistory.MembersDisjoint | correlate/correlate.go:166-167 | no operation is a member of two incidents |
| CorrelatorHistory.IncidentsApart | correlate/correlate.go:125-127 | incidents of one actor are at least the cooldown apart, in any order of arrival |
| CorrelatorHistory.DeceptionStartsEarliest | correlate/correlate.go:143-155 | FirstAt of a deception incident is its earliest member |
| CorrelatorHistory.IntrusionStartsEarliestIff | correlate/correlate.go:204-208 | FirstAt of a login incident is its earliest member exactly when no scan too old to be a member is remembered |
| CorrelatorHistory.ActorsDoNotInterfere | correlate/correlate.go:70-232 | the incidents of an actor are those of the run restricted to that actor |
| Incidents.Remembers | correlate/correlate.go:70-232 | with the detectors in front of it, the correlator remembers of an actor what its raw events since its last incident call for |
| Incidents.IncidentIff | loglight/pipeline.go:30-46 | after any run of raw events an event raises an incident exactly when it closes a chain - an alarm after a scan or brute force, or a login after a brute force, since the actor's last incident and within the window, a cooldown after it; severity, timeline, stages and target are those that the raw events call for |
| Incidents.FiringIff | detect/detectors.go:35-106 | and the scans and brute forces it rests on are counted over the fields of the raw events |
| Incidents.HandledIsHistory | loglight/pipeline.go:30-46 | what the pipeline writes for an event is the detections in order and that incident, once, after the alarm or at the end |
| Incidents.Ingest | loglight/pipeline.go:30-46 | engine, correlator, stores and dispatcher together do this for every event, and stay in the state their raw events call for |
| Traffic.Graph.Observe | traffic/graph.go:66-96 | a flow is added to its edge, flushing first when the buffer is full; flows without a source or destination do not count |
| Traffic.Graph.Flush | traffic/graph.go:99-128 | the buffer is merged into the table edge by edge and emptied |
| Traffic.Graph.Prune | traffic/graph.go:132-136 | exactly the edges last active before the cutoff go, and nothing buffered |
| Traffic.NothingLost | traffic/graph.go:66-136 | after any run of flows, flushes and prunings, table, buffer and what prunings took together are the sums and the latest time of all flows of every edge |
| Traffic.ActiveIsHeld | traffic/graph.go:132-136 | an edge active at or after every cutoff is still held, with its latest time |
| Traffic.LatestIsAFlow | traffic/graph.go:85-93 | the latest time of an edge is the end of a flow on it, and none on it is later |
| Traffic.FirstsStay | traffic/graph.go:80-128 | the first time of a row is the earliest end it had in the buffer when first flushed, and stays |
| Traffic.BufferStaysBounded | traffic/graph.go:78-84 | the buffer never holds more than its limit and one edge more |
| TrafficMap.Snapshot | traffic/graph.go:190-304 | flushes, and one pass over the rows active since then gives the nodes, links, ports and groups, and collapses exactly when there are too many externals; the nodes' bytes come to twice those of the rows |
| TrafficMap.MapIsHistory | traffic/graph.go:66-273 | after any run of flows, flushes and prunings before then, the map shows exactly the edges with a flow since then, and its nodes' bytes come to twice the bytes of their flows, less what prunings took |
| TrafficMap.BytesConserved | traffic/graph.go:227-273 | node bytes sum to twice the edge bytes, link bytes to those of edges whose ends differ after naming, collapsed or not |
| TrafficMap.NodeSays | traffic/graph.go:227-253 | there is a node for exactly the names that occur, of the kind of the first address that goes by it, with the bytes and flows of every edge end there |
| TrafficMap.LinkSays | traffic/graph.go:260-271 | a link for exactly the pairs of different names with an edge from one to the other, with all their bytes and flows |
| TrafficMap.PortSays | traffic/graph.go:272 | and the bytes of each of its ports |
| TrafficMap.PortsConserved | traffic/graph.go:263-273 | the ports of a link sum to its bytes |
| TrafficMap.MembersConserved | traffic/graph.go:227-259 | when collapsed, every distinct external is a member of its own group and no other, so the member counts sum to the number of distinct externals |
| TrafficMap.TopPort | traffic/graph.go:286-296 | the top port is a maximum whenever some port carried no negative count, and port 0 otherwise |
| SeveritySort.SortBySeverity | notify/notify.go:243-250 | the in-place insertion sort yields the findings by rank, each rank in its given order |
| SeveritySort.SortIsPermutation | notify/notify.go:243-250 | that is a permutation, most severe first |
| SeveritySort.MostUrgentFirst | notify/notify.go:228-241 | nothing sorted comes before something more urgent: critical, high, medium, low, the rest |
| SeveritySort.SortedOf | notify/notify.go:243-250 | and the only stable one |
| DispatcherService.Service.Enqueue | notify/notify.go:113-141 | severity filter, dedup, the timer, and the early flush at MaxBatch |
| DispatcherService.Service.FlushLocked | notify/notify.go:168-206 | one batch for each module with something pending, in whatever order, and nothing left |
| DispatcherService.Service.Close | notify/notify.go:151-157 | a last flush, and closed |
| DispatcherService.SendWithRetry | notify/notify.go:208-224 | delivered exactly when one of the first Retries attempts succeeds, and no attempt after that |
| Dispatcher.RunInv | notify/notify.go:113-206 | in every run: fewer than MaxBatch pending, the seen set is the pending keys, a timer armed exactly when something is pending, nothing pending twice |
| Dispatcher.AcceptsIff | notify/notify.go:113-127 | in every run an event is accepted exactly when it is a resolution or not below the severity asked for, the dispatcher is not closed, and the same news of the same finding is not pending |
| Dispatcher.NewsApart | notify/notify.go:121 | the same news is that of one kind, module and fingerprint, unless a module's name holds a bar |
| Dispatcher.ExactlyOnce | notify/notify.go:113-206 | every accepted event is, as often as it was accepted, either pending or in a delivered batch of its module |
| Dispatcher.DigestKeepsEvents | notify/notify.go:184-198 | a digest holds the events of its batch, openings and resolutions apart, none lost or doubled |
| Dispatcher.ClosedForGood | notify/notify.go:151-157 | after Close nothing is pending or accepted, whatever is called |
| Ulid.EncodeCrockford | store/ulid.go:35-49 | the shifting loop over two words writes the base-32 digits of the 128-bit number |
| Ulid.NewULID | store/ulid.go:18-32 | six octets of time, then the entropy, encoded |
| Ulid.ShiftPair | store/ulid.go:44-46 | shifting a pair of words by five is dividing the 128-bit number by 32, without loss |
| Ulid.DecodeEncoding | store/ulid.go:35-49 | the 26 symbols read in base 32 are the 128-bit input |
| Ulid.AlphabetIsCrockfords | store/ulid.go:15 | the symbols are the digits and capitals without I, L, O and U, in character order |
| Ulid.IdentifierReads | store/ulid.go:18-32 | time and entropy can be read off an identifier: its upper 48 bits and its lower 80 |
| Ulid.OrderEmbedding | store/ulid.go:35-49 | string order is octet order, and the encoding is injective |
| Ulid.TimeOrderIff | store/ulid.go:18-32 | an identifier sorts first whatever the entropy exactly when its time is earlier in its low 48 bits |
| Sanitizer.SanitizeEvidence | internal/aiclient/evidence.go:46-48 | the copy that the specification gives |
| Sanitizer.SanitizeMap | internal/aiclient/evidence.go:50-73 | collecting, sorting and cutting the keys keeps exactly the first 24 that are not secret-like |
| Sanitizer.SanitizeValue | internal/aiclient/evidence.go:75-126 | every value by its kind and depth, through the JSON fallback |
| Sanitizer.KeptIsFirst | internal/aiclient/evidence.go:54-64 | as many keys are kept as may be, and no kept key has a dropped shareable one before it |
| SanitizerContents.SecretIff | internal/aiclient/evidence.go:22-31 | a key is secret exactly when in lower case it holds one of the seventeen words |
| SanitizerContents.EvidenceShows | internal/aiclient/evidence.go:46-143 | at every path into the evidence the copy has something exactly when every key on it is one of the first 24 that are not secret and every index below 12, at most three levels down; and then the value itself, its first 400 characters, or the note for what is too deep or cannot be read |
| Sanitizer.EvidenceIsBounded | internal/aiclient/evidence.go:46-126 | for every input: no secret-like key at any depth, at most 24 keys, 12 items and 401 characters each, and at most 24*24*24*12 values |
| Sanitizer.FixedIffTidy | internal/aiclient/evidence.go:75-126 | a value is left alone exactly when it is within the limits as a reader would state them |
| Sanitizer.IdempotentIff | internal/aiclient/evidence.go:82-109 | sanitising twice is sanitising once exactly when no []string sits at depth three or deeper among what is kept |
| Sanitizer.JsonEvidenceIsSettled | internal/aiclient/evidence.go:46-126 | so for JSON-shaped evidence it always is |
| Sanitizer.DeepStringsExample | internal/aiclient/evidence.go:100-109 | and here it is not |
| SyslogPrinter.Lines | notify/channels.go:226-263 | one frame for each opened and then each resolved finding, in order |
| SyslogPrinter.MessageFits | notify/channels.go:327-339 | a message holds no newline, return or zero and at most 1600 bytes and the ellipsis |
| SyslogFields.MessageIsSentence | notify/channels.go:265-288 | before that it is the title, marked if resolved, and the fields product, severity, check, target, status and, if known, source |
| SyslogFields.LineKept | notify/channels.go:327-339 | what would end a frame is a space, all else is kept, up to the last character that 1600 bytes hold |
| SyslogFields.MessageReadBack | notify/channels.go:265-288 | while it fits and no field holds a space, every field can be read off the message again, in order |
| SyslogParser.ParseSyslog | logingest/syslog.go:14-34 | priority, then RFC 5424, then RFC 3164, then the bare line |
| SyslogParser.StripStructuredData | logingest/syslog.go:120-143 | the depth loop removes up to the first bracket that closes as many as were opened |
| SyslogRoundTrip.PriorityReadBackIff | logingest/syslog.go:38-51 | a printed priority is read back exactly from 0 to 191 |
| SyslogRoundTrip.FieldsComeBackIff | logingest/syslog.go:87-106 | host, tag and message all come back exactly when host and tag are readable: no space in the host, no colon or bracket in the tag, neither starting in white space, tag and process id below 64 bytes |
| SyslogRoundTrip.FindingReadBackIff | notify/channels.go:226-281 | a frame of a digest (RFC 3164 section 4.1) says to the parser 2 to 6 by its severity or 5 when resolved, the host that is set or the system's or a dash, the tag that is set or the module, and the message, exactly when the facility, local0 unless set, is one of 0 to 23 and the fields are readable |
| SyslogRoundTrip.SingleLineIff | notify/channels.go:327-339 | a frame is one line exactly when neither host nor tag breaks it, whatever the finding says |
| SyslogRoundTrip.BareLine | logingest/syslog.go:14-34 | a line without a priority is its own message |
| SyslogRoundTrip.UnframedLine | logingest/syslog.go:14-34 | with a priority but in neither format, all that follows is the message |
| SyslogModern.HeaderReadBack | logingest/syslog.go:54-72 | every field of an RFC 5424 line comes back |
| SyslogModern.MessageComesBackIff | logingest/syslog.go:120-143 | for any list of elements with quoted, escaped values (RFC 5424 section 6.3) the message comes back exactly when the brackets of the whole data, quoted ones included, come out even at its last character and not before |
| SyslogModern.PlainElementsIff | logingest/syslog.go:128-141 | without brackets in ids, names and values that is: exactly when there is one element |
| SyslogModern.QuotedBrackets | logingest/syslog.go:128-141 | a quoted opening bracket is never closed and a quoted closing one closes early, so the message does not come back; one of each in two elements cancel and it does |
| SyslogModern.NilValueStripped | logingest/syslog.go:120-125 | without structured data the message comes back but for trailing space |
| SyslogModern.LineReadBackIff | logingest/syslog.go:54-143 | a whole line with its header: the message comes back exactly on that condition |

## Left out

- Time arithmetic of Go: `Sub` saturates and `Add` wraps at the ends of its range; the model uses integers.
- int64 sums of bytes, packets and flows wrap in Go; the model's sums do not. The conversion of a 64-bit counter to int64 in the flow decoder is modelled.
- Failed writes, failed id generation and failed sends beyond the retry loop: a failing newID makes path A write nothing and `Reconcile` return early.
- Concurrency: locks, goroutines, timers firing while another call runs, and the unlocked moment around the forced flush of the traffic graph.
- The textual form of an address and the joined cache and slot keys (exporter, domain and id; source and key around a zero byte): tuples are used, which assumes that the texts are injective.
- SHA-256: a fingerprint is the text that is hashed, which assumes that the hash is injective.
- Evidence of findings is opaque apart from its size; `sourceOf` stands for the address lookup in evidence.
- The order of listings sorted by a library, and of nodes and links of the map: any order is allowed.
- The severity overlay of the map.
- TwoPaths.PathsAgree: no two source names share a fingerprint, because otherwise it is false, as `TwoPaths.SharingMisannounces` shows; `Collector.SharedIff` says exactly when two do, taking any text for the rest of a key.
- LifecycleHistory.StoresAgree: covers `Reconcile` and user changes; a firing draws a new id, which the in-memory store takes over and SQLite does not, as `Findings.BackendsAgreeIff` says.
- Beacon.BeaconDetector.Observe: BeaconMin is at least one, because below that the code cuts its ring out of range, and squares are compared over the reals, because a floating-point mean rounds.
- Egress.ExfilDetector.Observe: the moving average is over the reals, not in floating point, because rounding is not the point there.
- CorrelatorHistory.IntrusionStartsEarliestIff: FirstAt is not the earliest member in general, because the code takes a stale scan; the exact condition is stated.
- SyslogPrinter.MessageFits: a cut in the middle of a multi-byte character drops the partial character, where the code keeps its first bytes; strings are taken to be valid UTF-8.
- SyslogRoundTrip.FindingReadBackIff: the time stamp is only required to be one the parser accepts, because time.Parse is a library; the year it adds is part of that.
- SyslogModern.HeaderReadBack: covers header fields without spaces, as RFC 5424 section 6 requires of them.
- Sanitizer.SanitizeValue: an emptied map is an empty map, where the code returns a nil one; lower-casing is exact as far as the ASCII markers can tell.
- Field extraction by regular expression, vendor JSON, and the guard: events arrive with their fields filled, and the tail of a sister product's message is a function of its text.
- The detail text of a detection, which only the evidence of its finding shows, and in titles the text of a size or an interval.
- Egress.ReportIff: an order that makes the window exact is sufficient, not necessary, because sums of different samples can be equal.
- The scheduler, listeners, file tailing, HTTP handlers, the other channels, licensing and the AI client.
