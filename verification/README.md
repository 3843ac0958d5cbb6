# A verified model of tunnel-client

tunnel-client connects a private MCP server to a hosted control plane. This project models the parts of it
whose correctness is hard to see from the code, and proves what they promise: the local control plane and its
response channels, the Codex app-server bridge, the capability header, the rewriting of the Codex configuration,
the ordering of installed plugin versions, shell quoting and the two argv scanners, the transport cache, the
health observations, the ring buffers, the vendor archive and its digest, and the registry of runtimes.

`dafny verify dfyconfig.toml` checks everything (Dafny 4.11). Nothing is assumed.

## How the model is built

- **Strings** are sequences of bytes, one `char` per byte. Integers are unbounded; where a width matters
  (counters, durations, `strconv.Atoi`) it is written out.
- **Concurrent code** is a deterministic step function over explicit events; one event is one critical section,
  one channel operation or one act of the outside world. An event that is not enabled leaves the state alone, so
  a theorem over `Run(events)` for every list of events covers every interleaving. A channel that is closed and
  replaced is a number that grows.
- **Code that works in place** is also given as a class or an array method, each proved against the value-level
  function: `LocalServer.Server`, `BridgeServer.Server`, the three rings, the health components, the state files.
- **The outside world** (child processes, the network, the clock, the file system, saves that fail) appears as
  parameters and events.

| file | models |
|---|---|
| LocalQueue, ResponseChannel, LocalControlPlane, LostResponse, IdlePolling, LocalEffects, LocalServer | pkg/localproxy/localproxy.go |
| Bridge, BridgeProgress, BridgeEffects, BridgeServer | pkg/codexappserver/bridge.go |
| ClientCapabilities, SortedText | pkg/clientcapabilities/client_capabilities.go |
| CodexConfig, ConfigContent, ConfigText, EnabledPlugins, PluginVersions, SemverNames, MaxScan | pkg/codexplugin/codexplugin.go |
| ShellWords, ShellGrammar, ShellRoundTrip, EditorRoundTrip | pkg/codexplugin/manager.go, cmd/client/stdio_preflight.go, cmd/client/profile_editor.go |
| TransportCache, TransportProgress, TransportErrors | pkg/mcpclient/channel_transport_factory.go |
| Health, Float64, FloatReport | pkg/controlplane/health.go |
| Rings | pkg/adminui/log_buffer.go, pkg/harpoon/call_buffer.go, pkg/codexappserver/bridge.go |
| VendorTree, VendorArchive, TreeDigest | scripts/extract_sbom_vendor.py |
| Registry, RegistryEffects, RegistryRaces, RegistryOrder, RegistryCommands | pkg/codexplugin/manager.go |
| Text, Wrappers | the string functions and the option type they share |

## What turned out not to hold, and when it does

- **A final response can be lost.** The sends of `handleResponse` happen after the lock is released. With posts
  for one request that overlap, the final response can be dropped, exactly when buffered messages and other
  posters still sending outnumber the sixteen slots (`ResponseChannel.FinalCanBeLostIff`); a run of the whole
  control plane does it (`LostResponse.FinalLostInSomeRun`). With posts one at a time it never is.
- **Two idle pollers spin.** Every round of the poll loop signals before it parks, so two pollers on an empty queue
  keep waking each other, for as many rounds as one likes (`IdlePolling.PollersSpin`). The parked pollers fall silent
  exactly when there is at most one of them (`IdlePolling.IdlePollingIsQuietIff`).
- **Version names of mixed kinds can have no maximum.** Semver-like and other names are compared by modification time,
  which can make a cycle. The directory listing is sorted by name, and the scan returns a candidate that another one
  beats exactly when the newest other name is newer than the highest version and older than some version
  (`PluginVersions.ChoiceIsBestIff`): of `1.0.0`, `2.0.0` and `new`, last changed in the order `2.0.0`, `new`, `1.0.0`,
  it returns `new`, which `1.0.0` beats (`SemverNames.BeatenChoice`).
- **Numbers beyond 64 bits** leave section 11 of Semantic Versioning 2.0.0. A name with such a number in its core is
  not read as a version, and the modification times, then bytes, decide: `99999999999999999999.0.0` comes before a
  newer `1.0.0` (`SemverNames.HugeCoreIsMisordered`). In a prerelease such a number is compared bytewise, with others
  and with words, so that `1.0.0-99999999999999999999` comes after `1.0.0-100000000000000000000` and after `1.0.0-1a`
  (`SemverNames.HugePrereleasesAreMisordered`). Two names are ordered as section 11 says exactly when all core numbers
  fit and, with equal cores, the first prerelease identifier that differs is not such a number or bytes happen to
  agree; or some core number does not fit and dates, then bytes, happen to agree (`SemverNames.NamesFollowSemverIff`).
- **A section name with a line break** is never found again, so every update adds it once more
  (`ConfigContent.UpdateTwiceIff`).
- **Placeholders break the round trip of shell quoting.** A part with both `<` and `>` is not quoted. A list is read
  back exactly when it is not empty, no part is empty, every placeholder is free of characters that the scanner
  interprets, and the joined text has no white space around it (`ShellRoundTrip.ArgvUndoesJoinIff`; for the other
  scanner `EditorRoundTrip.EditorUndoesJoinIff`).
- **Reported backpressure can fall, by rounding and by overflow.** The two durations become float64 seconds before
  they are added: 100 ms accumulated and 200 ms running are reported as 0.30000000000000004, and as 0.3 once pressure
  ends (`FloatReport.FloatFalls`). This happens only when pressure ends, exactly when the seconds of the sum are
  fewer than the rounded sum of the seconds (`FloatReport.FloatFallsIff`), and by at most ten parts in 2^53
  (`FloatReport.FloatFallIsTiny`); with whole seconds only by overflow (`FloatReport.WholeSecondsFallIff`).
  The exact sum in nanoseconds falls only when it passes the 63-bit bound (`Backpressure.NanosDropIff`, with a run in `Backpressure.NanosDrop`).
- **References to admin profiles can dangle when commands run in parallel.** Set, Activate, Delete, Status and
  ListRuntimes load and save the profile file without the state lock. No reference ever dangles exactly when every
  save covers the profiles needed at that moment and every new record's profile is still saved
  (`RegistryRaces.NeverDanglesIff`). A Set that started before a Create, a Delete inside one, and one inside a Delete
  are three runs in which it does (`RegistryRaces.LostUpdateDangles`, `RegistryRaces.DeleteInsideCreateDangles`,
  `RegistryRaces.RecordInsideDeleteDangles`). It never does if nobody else saves the profile file between a command's
  load and its save, no record is saved between the load and the save of a Delete, and no Delete saves between a
  resolution and its record (`RegistryOrder.OrderlyNeverDangles`), nor with commands one at a time
  (`Registry.RunKeepsInv`).
- **Cleanup removes an alias that was created but never connected**, and nothing else
  (`Registry.CleanupRemovesOnlyUnconnected`).
- **A watcher that takes its snapshot first** can miss an observation (`ChangeNotification.SnapshotFirstCanMiss`).

## Model

| member | source | states |
|---|---|---|
| LocalControlPlane.EveryRequestInOnePlace | pkg/localproxy/localproxy.go:1255-1367 | in every run a request was enqueued exactly when it is pending, in flight, finished or cancelled, and it is never two of these |
| LocalControlPlane.DeliveryOrder | pkg/localproxy/localproxy.go:1317-1367 | in every run no request is handed to two polls, and all poll batches followed by the pending requests are the enqueued ones in order minus those cancelled while pending |
| LocalControlPlane.NoLostWakeup | pkg/localproxy/localproxy.go:989-1082 | in every run a parked poller facing a non-empty queue, and a parked WaitForPoll caller after a poll, hold a closed channel; at most one parked poller holds an open one |
| IdlePolling.PollersSpin | pkg/localproxy/localproxy.go:1055-1082 | from every run with an empty queue and two parked pollers, any number of further rounds in which each one wakes the other and nothing is delivered |
| IdlePolling.IdlePollingIsQuietIff | pkg/localproxy/localproxy.go:1055-1082 | after every run with an empty queue, the parked pollers signal at most once more exactly when there is at most one of them |
| IdlePolling.TwoPollersSpin | pkg/localproxy/localproxy.go:1055-1082 | such a run from the start: two polls before the first request |
| LocalControlPlane.ResponsesReachTheCaller | pkg/localproxy/localproxy.go:1103-1252 | in every run only notifications are evicted, the final response is lost only after overlapping posts, and otherwise the caller gets a subsequence of the posts in order with the final one last |
| LocalEffects.PollHandsOut | pkg/localproxy/localproxy.go:1055-1070 | in every run a poll round takes requests from the front, as many as asked for (at least one) or all there are, makes them in flight, and parks exactly when there are none |
| LocalEffects.WaitReturnsIff | pkg/localproxy/localproxy.go:989-1010 | in every run a WaitForPoll caller that looks returns exactly when some poll has come |
| LocalEffects.RequestsAreNumbered | pkg/localproxy/localproxy.go:1255-1315 | in every run requests carry the number and the command of their draw, and every number drawn is appended or about to be |
| LocalEffects.AppendedIsLast | pkg/localproxy/localproxy.go:1255-1315 | in every run an appended request is last in the queue, with a fresh channel |
| LocalEffects.PostIsAdmitted | pkg/localproxy/localproxy.go:1103-1114 | in every run a response to a request in flight is admitted to its channel |
| LocalEffects.PostRetiresIff | pkg/localproxy/localproxy.go:1103-1114 | in every run it retires the request exactly if it is final, and a response to any other request changes nothing |
| LocalEffects.ReceiveTakesOldest | pkg/localproxy/localproxy.go:1236-1247 | in every run a receive hands the oldest buffered message to the caller |
| LocalEffects.NothingVanishes | pkg/localproxy/localproxy.go:1115-1136 | in every run everything admitted is buffered, received, evicted, dropped or still being sent, and without an eviction the caller has got exactly what has left the buffer |
| LocalEffects.OnlyFullBuffersLose | pkg/localproxy/localproxy.go:1115-1136 | in every run a message is dropped only when the buffer is full, and evicted only for the final response |
| LocalEffects.ResponseArrives | pkg/localproxy/localproxy.go:1115-1136 | in every run with posts one at a time, a response posted while there is room enters the buffer next and is received, evicted or still there |
| LocalEffects.CancelledIsGone | pkg/localproxy/localproxy.go:1341-1367 | in every run a cancelled request is neither pending nor in flight, and no other is touched |
| LocalEffects.LeaversAreGone | pkg/localproxy/localproxy.go:1071-1080 | a poller whose context ends is gone, and nothing else changes |
| LostResponse.LossIsReachable | pkg/localproxy/localproxy.go:1103-1136 | in every run, once the final response is admitted among more messages than slots, some continuation loses it |
| LostResponse.FinalLostInSomeRun | pkg/localproxy/localproxy.go:1103-1136 | a run from the empty control plane in which the one final response of a request is lost |
| LocalControlPlane.RunKeepsInv | pkg/localproxy/localproxy.go:1045-1376 | the invariant behind these results holds after every run |
| LocalQueue.RemoveFirstIsKeep | pkg/localproxy/localproxy.go:1341-1367 | removing the first request with an id is filtering that id out, when ids are distinct |
| LocalQueue.AddAllContents | pkg/localproxy/localproxy.go:1317-1339 | a dequeued batch enters the in-flight table completely, each request under its id, and disturbs no other entry |
| LocalServer.CopyDown | pkg/localproxy/localproxy.go:1317-1367 | the overlapping copy moves every slot down by the gap and leaves the others |
| LocalServer.ShiftSlots | pkg/localproxy/localproxy.go:1317-1367 | shifting in place and clearing the tail cuts the gap out of the slice and keeps no stale pointer |
| LocalServer.Server.EnqueueRequest | pkg/localproxy/localproxy.go:1255-1315 | appending, in place or into a larger copy, appends to the abstract queue and signals |
| LocalServer.TakeBatch | pkg/localproxy/localproxy.go:1317-1332 | the dequeue loop files exactly the first requests and collects their commands in order |
| LocalServer.Server.DequeueLocked | pkg/localproxy/localproxy.go:1317-1339 | the in-place dequeue refines dropping the first requests, returns their commands in order and files them as in flight |
| LocalServer.Server.CancelLocked | pkg/localproxy/localproxy.go:1341-1367 | the in-place removal refines removing the request from the table and the queue |
| LocalServer.Server.PollLocked | pkg/localproxy/localproxy.go:1055-1064 | one round of the poll loop records the poll, signals and dequeues |
| LocalServer.Server.RespondLocked | pkg/localproxy/localproxy.go:1103-1113 | only a final response to a known request retires it; unknown requests are reported |
| ResponseChannel.InOrder | pkg/localproxy/localproxy.go:1115-1136 | with posts one at a time, received plus buffered messages are posts in their order |
| ResponseChannel.StepKeepsValid | pkg/localproxy/localproxy.go:1115-1136 | every send step keeps the channel's invariant: bounded buffer, only notifications evicted, at most one final response |
| ResponseChannel.FinalCanBeLostIff | pkg/localproxy/localproxy.go:1115-1131 | some continuation drops the admitted final response exactly when buffered messages and other senders outnumber the slots |
| ResponseChannel.FullChannelExists | pkg/localproxy/localproxy.go:1131-1136 | sixteen unread notifications fill the buffer, so the next result is not vacuous |
| ResponseChannel.OverlapLosesFinal | pkg/localproxy/localproxy.go:1115-1131 | a full buffer and one delayed notification suffice to lose the final response |
| Bridge.Lifecycle | pkg/codexappserver/bridge.go:754-857 | in every run at most one child is live, ready implies running and not starting, running implies ready, starting or shutting down, and the stale-command branch is never taken |
| Bridge.NoChildAfterStop | pkg/codexappserver/bridge.go:355-361 | in every run no child starts after the critical section of Stop |
| Bridge.StartupWaitersAreReleased | pkg/codexappserver/bridge.go:304-353 | in every run a caller blocked in EnsureStarted waits on a closed channel or on one whose startup goroutine is still there |
| BridgeProgress.StartupEndsInEightMoves | pkg/codexappserver/bridge.go:754-857 | in every run, whatever else happens, eight steps of a startup goroutine, of the killed child it waits for or of that child's exit watcher close its channel, and until then such a step is always possible |
| BridgeProgress.NeverFartherAway | pkg/codexappserver/bridge.go:754-857 | no event of anyone sets a startup goroutine back, and it ends only by closing its channel |
| BridgeEffects.EnsureRound | pkg/codexappserver/bridge.go:304-353 | in every run a round of EnsureStarted returns when ready or shutting down, joins the startup under way, and otherwise, with its delay over, begins one and waits for it |
| BridgeEffects.EnsureWaits | pkg/codexappserver/bridge.go:304-353 | in every run a caller whose channel is open or whose delay is not over changes nothing |
| BridgeEffects.LaunchStarts | pkg/codexappserver/bridge.go:800-845 | in every run a startup that may launch starts a new child, which becomes the command |
| BridgeEffects.LaunchFails | pkg/codexappserver/bridge.go:800-834 | in every run a launch that fails or comes after Stop starts nothing |
| BridgeEffects.HandshakeDecides | pkg/codexappserver/bridge.go:847-857 | in every run the handshake decides whether a startup finishes or waits for its killed child |
| BridgeEffects.RecordEndsStartup | pkg/codexappserver/bridge.go:754-798 | in every run a startup makes the bridge ready exactly if its handshake is done, its child still runs and nobody stops; starting ends either way |
| BridgeEffects.ReadyMeansInitialized | pkg/codexappserver/bridge.go:754-857 | in every run a ready bridge has the child with which the handshake succeeded |
| BridgeEffects.BridgeGetsReady | pkg/codexappserver/bridge.go:304-353 | a run that makes the bridge ready and lets its first caller return |
| Bridge.Correlation | pkg/codexappserver/bridge.go:946-991 | in every run and across restarts ids are not reused, a caller's channel gets at most one envelope and the right one, no caller is forgotten, and without stdin the table is empty |
| BridgeEffects.EnvelopesHaveCauses | pkg/codexappserver/bridge.go:1051-1058 | in every run a reply in a caller's channel was read for that call, with that body, while it was pending; an exit error means that the child exited while it was |
| BridgeEffects.ReplyIsDelivered | pkg/codexappserver/bridge.go:1051-1058 | in every run a reply to a pending call reaches its channel, alone and unchanged, whatever happens between the reading and the send |
| BridgeEffects.AnswersStay | pkg/codexappserver/bridge.go:946-991 | in every run an answered call keeps its answer |
| BridgeEffects.ExitAnswersAll | pkg/codexappserver/bridge.go:1144-1181 | in every run the exit of the child answers every pending call with the exit error and no other, and leaves no command, stdin or readiness |
| BridgeEffects.RegisterIff | pkg/codexappserver/bridge.go:946-970 | in every run a call with a number drawn is registered exactly if stdin is open |
| BridgeEffects.IdsAreConsecutive | pkg/codexappserver/bridge.go:946-948 | in every run calls are numbered from one without a gap |
| BridgeEffects.CallersLeave | pkg/codexappserver/bridge.go:971-991 | in every run a caller that gives up leaves the table, and one with an answer returns |
| BridgeEffects.NobodyLeaks | pkg/codexappserver/bridge.go:971-991 | in every run the table holds no caller that has left |
| Bridge.RunKeepsInv | pkg/codexappserver/bridge.go:1144-1181 | the invariant behind these results holds after every run |
| BridgeServer.Server.StartProcess | pkg/codexappserver/bridge.go:800-849 | the section takes the launch step, and a child starts only when none is live and no stop has begun |
| BridgeServer.Server.RecordStart | pkg/codexappserver/bridge.go:754-798 | recording the outcome of a startup takes the corresponding step |
| BridgeServer.Server.Register | pkg/codexappserver/bridge.go:962-970 | a drawn id is new to the table and to every channel; it is registered only while stdin is open |
| BridgeServer.Server.MatchReply | pkg/codexappserver/bridge.go:1051-1061 | a reply is matched exactly when its id is pending, and its channel then still has room |
| BridgeServer.FailPending | pkg/codexappserver/bridge.go:1157-1160 | the loop empties the table, answers exactly the pending callers, and never sends to a channel that holds something |
| BridgeServer.Server.WaitForExit | pkg/codexappserver/bridge.go:1144-1181 | the exit section always finds its own command, answers every pending caller with the exit error and clears the table |
| ClientCapabilities.ValidName | pkg/clientcapabilities/client_capabilities.go:96-113 | accepts exactly the tokens of section 5.6.2 of RFC 9110 up to the length limit |
| ClientCapabilities.WithinSize | pkg/clientcapabilities/client_capabilities.go:42-51 | the running total refuses exactly the lists whose combined value is too long |
| ClientCapabilities.AddMembers | pkg/clientcapabilities/client_capabilities.go:55-66 | one field value adds exactly its non-empty members, or is refused for a bad or excess member |
| ClientCapabilities.Parse | pkg/clientcapabilities/client_capabilities.go:41-68 | the result is what the single comma-joined value advertises |
| ClientCapabilities.FieldLinesDoNotMatter | pkg/clientcapabilities/client_capabilities.go:41-68 | reading line by line, reading the combined value and reading that value as one line give the same names, every limit included; an invalid member voids everything |
| ClientCapabilities.Format | pkg/clientcapabilities/client_capabilities.go:72-88 | exactly when each error occurs, and otherwise the text of the sorted distinct names |
| ClientCapabilities.FormatIsCanonical | pkg/clientcapabilities/client_capabilities.go:82-84 | lists of the same names in any order and repetition give the same text |
| ClientCapabilities.RoundTrip | pkg/clientcapabilities/client_capabilities.go:41-88 | parsing what Format printed gives exactly the set of names |
| ClientCapabilities.ParsedNamesFormat | pkg/clientcapabilities/client_capabilities.go:41-88 | the distinct names of any parse result are within every limit of Format |
| ClientCapabilities.NameIff | pkg/clientcapabilities/client_capabilities.go:93-113 | a name has 1 to 128 characters, all visible and none a delimiter of section 5.6.2 of RFC 9110 |
| ClientCapabilities.PaddingDoesNotMatter | pkg/clientcapabilities/client_capabilities.go:36-67 | however names are padded and mixed with empty members, the advertisement means exactly these names within the limits and none beyond |
| CodexConfig.SplitSections | pkg/codexplugin/codexplugin.go:527-540 | the loop splits the text at header lines, keeping all lines |
| CodexConfig.RemoveSection | pkg/codexplugin/codexplugin.go:556-565 | the loop keeps exactly the sections with another name, in order |
| CodexConfig.RenderSections | pkg/codexplugin/codexplugin.go:593-602 | the loop joins the non-blank sections with one blank line between them |
| CodexConfig.UpdateConfig | pkg/codexplugin/codexplugin.go:508-525 | the new text is the other sections followed by the enabled plugin section |
| CodexConfig.RemoveConfigSection | pkg/codexplugin/codexplugin.go:577-591 | the text changes exactly when the section was there |
| CodexConfig.NormalizeIdempotent | pkg/codexplugin/codexplugin.go:527-602 | rendering what was split is a normal form |
| CodexConfig.UpdateShows | pkg/codexplugin/codexplugin.go:508-525 | after an update all other sections are there as before and in order, and the plugin section exactly once, last |
| CodexConfig.UpdateTwice | pkg/codexplugin/codexplugin.go:508-525 | updating twice equals updating once |
| CodexConfig.RemoveUndoesUpdate | pkg/codexplugin/codexplugin.go:577-591 | removing after updating gives the normal form of the original without the section |
| ConfigContent.NormalizeKeepsInk | pkg/codexplugin/codexplugin.go:527-602 | splitting and rendering keeps every byte that is not a line break, in order |
| ConfigContent.BrokenNameGrows | pkg/codexplugin/codexplugin.go:508-525 | a section name with a line break makes every update longer |
| ConfigContent.UpdateTwiceIff | pkg/codexplugin/codexplugin.go:508-525 | updating twice equals once exactly when the name has no line break |
| ConfigText.HeaderIff | pkg/codexplugin/codexplugin.go:527-540 | a line opens a section exactly when it is a name in brackets |
| ConfigText.SectionsMean | pkg/codexplugin/codexplugin.go:527-540 | the sections hold all lines of the text in order: a nameless one up to the first header, then one per header, named by it |
| ConfigText.UpdatedText | pkg/codexplugin/codexplugin.go:592-601 | an update writes the other sections with one blank line between two of them, then the plugin's, enabled |
| EnabledPlugins.EnabledPluginConfigKeys | pkg/codexplugin/codexplugin.go:256-281 | the nested loops return the keys of the plugin's enabled sections in order |
| EnabledPlugins.UpdateEnables | pkg/codexplugin/codexplugin.go:256-281 | for every plugin name: the updated key moves to the end of the keys it belongs to, which with an at sign in a name may be more than one list, and every other key stays |
| MaxScan.OrderIndependentIff | pkg/codexplugin/codexplugin.go:352-362 | a maximum scan is independent of the order exactly when some element beats all others |
| PluginVersions.VersionAntisymmetric | pkg/codexplugin/codexplugin.go:448-468 | swapping the arguments reverses the sign |
| PluginVersions.VersionTransitive | pkg/codexplugin/codexplugin.go:448-495 | the comparison is transitive, strictly if one step is strict |
| PluginVersions.IdentifierIsSemverIff | pkg/codexplugin/codexplugin.go:432-495 | for all identifiers, exactly when the code orders them as section 11 of Semantic Versioning 2.0.0 does |
| PluginVersions.VersionIsSemverIff | pkg/codexplugin/codexplugin.go:448-495 | for all versions that were read, exactly when the code orders them as section 11 of Semantic Versioning 2.0.0 does, and never equal when it does not |
| SemverNames.NamesFollowSemverIff | pkg/codexplugin/codexplugin.go:364-495 | for all candidates with version names, numbers of any size included, exactly when the comparison has the sign of section 11; names of equal precedence are told apart by dates, then bytes |
| SemverNames.ValidNameMeans | pkg/codexplugin/codexplugin.go:403-446 | every name of the grammar of Semantic Versioning 2.0.0 is read as what it stands for, apart from the width of its numbers |
| SemverNames.HugeCoreIsMisordered | pkg/codexplugin/codexplugin.go:364-446 | two names, one with a core number beyond 64 bits, that are ordered by date against section 11 |
| SemverNames.HugePrereleasesAreMisordered | pkg/codexplugin/codexplugin.go:364-495 | names with prerelease numbers beyond 64 bits that are ordered against section 11, whatever their dates |
| PluginVersions.NumericBelowWordIff | pkg/codexplugin/codexplugin.go:470-495 | versions that agree up to a number against a word: the number is lower exactly when it fits an int or bytes say so |
| PluginVersions.LongerPrereleaseIsHigher | pkg/codexplugin/codexplugin.go:470-480 | adding identifiers to a prerelease raises the version |
| PluginVersions.HugeNumberAboveWord | pkg/codexplugin/codexplugin.go:482-495 | a number beyond 64 bits that the code puts above a word |
| PluginVersions.HugeNumbersAreMisordered | pkg/codexplugin/codexplugin.go:432-495 | two identifiers beyond 64 bits that the code orders the wrong way round |
| PluginVersions.CandidateTransitive | pkg/codexplugin/codexplugin.go:364-394 | on candidates of one kind the full comparator is transitive |
| PluginVersions.BestVersion | pkg/codexplugin/codexplugin.go:352-362 | the loop returns the result of the maximum scan, none for an empty directory |
| PluginVersions.ScanReturnsMaximum | pkg/codexplugin/codexplugin.go:352-375 | with candidates of one kind the scan returns the unique maximum, and would in any order |
| PluginVersions.DirectoryOrderIff | pkg/codexplugin/codexplugin.go:352-375 | for any mix of names the result does not depend on their order exactly when one candidate beats all others |
| PluginVersions.ChoiceIsBestIff | pkg/codexplugin/codexplugin.go:327-375 | for every sorted listing, the returned candidate beats all others unless the newest other name is newer than the highest version and older than some version; then every candidate is beaten |
| PluginVersions.MixedNamesCycle | pkg/codexplugin/codexplugin.go:364-375 | two semver names and a third name dated between them form a cycle |
| SemverNames.BeatenChoice | pkg/codexplugin/codexplugin.go:327-375 | a sorted listing of three names whose chosen candidate another one beats |
| ShellWords.ShellSafe | pkg/codexplugin/manager.go:1498-1510 | accepts exactly the strings made of safe bytes only |
| ShellWords.ShellJoin | pkg/codexplugin/manager.go:1477-1496 | the loop joins the quoted parts with spaces |
| ShellGrammar.QuoteIff | pkg/codexplugin/manager.go:1485-1510 | a part is left as it is exactly when it is a placeholder, or not empty, visible and free of shell metacharacters; any other part is put between single quotes |
| ShellWords.ParseStdioCommandArgv | cmd/client/stdio_preflight.go:381-450 | the byte loop computes the scanner's fold and its errors |
| ShellWords.SplitProfileEditor | cmd/client/profile_editor.go:101-158 | the index loop computes the scanner's fold and its errors, with the Windows escape rule |
| ShellWords.ArgvUndoesJoin | cmd/client/stdio_preflight.go:381-450 | scanning a joined list of non-empty parts without placeholders gives the list back |
| ShellRoundTrip.ArgvUndoesJoinIff | cmd/client/stdio_preflight.go:381-450 | for all lists, exactly which ones survive joining and scanning |
| ShellRoundTrip.UnreadableIsLost | cmd/client/stdio_preflight.go:394-440 | a placeholder with a character that the scanner interprets is never read back, whatever follows it |
| EditorRoundTrip.EditorUndoesJoinIff | cmd/client/profile_editor.go:101-158 | for all lists and platforms, exactly which ones survive joining and this scanner |
| EditorRoundTrip.EditorUndoesJoin | cmd/client/profile_editor.go:101-158 | in particular every list without placeholders and control characters whose first part is not empty, empty later parts included |
| ShellWords.ScannersAgree | cmd/client/profile_editor.go:101-158 | whenever the editor scanner succeeds on trimmed text, the other returns its result without empty arguments |
| ShellWords.TrailingEscapeDiffers | cmd/client/stdio_preflight.go:381-450 | with an escaped trailing space the two scanners differ |
| ShellGrammar.StdioReads | cmd/client/stdio_preflight.go:381-450 | every command is spelt by blanks, bare and escaped characters and quoted text; the scanner returns the words that mean something, or says which token is not finished, or that there is no word |
| ShellGrammar.EditorReads | cmd/client/profile_editor.go:101-158 | the same for the other scanner on every platform: control characters are refused, and words written as empty quotes are kept |
| ShellGrammar.EveryTextReads | cmd/client/stdio_preflight.go:394-440 | every text is spelt by tokens of the grammar and at most one unfinished token |
| TransportCache.OneTransportPerChannel | pkg/mcpclient/channel_transport_factory.go:151-211 | in every run at most one build succeeds per channel and per client name, and every successful call, nested ones included, returns that value |
| TransportCache.TransportsUseCachedClients | pkg/mcpclient/channel_transport_factory.go:170-200 | in every run every transport was built with the one client cached under the name it uses |
| TransportCache.CacheOnlyGrows | pkg/mcpclient/channel_transport_factory.go:151-259 | in every run a cached transport or client stays, and only storing a successful build changes the caches |
| TransportCache.MutexNeverHeldAcrossFlight | pkg/mcpclient/channel_transport_factory.go:151-259 | in every run the one mutex is held only inside the short sections of both caches, never across a flight or a nested call |
| TransportCache.WaitingIsOrdered | pkg/mcpclient/channel_transport_factory.go:151-259 | whoever a call waits for is unfinished and lower in the order transport follower, transport leader, client follower, client leader |
| TransportCache.NoDeadlock | pkg/mcpclient/channel_transport_factory.go:151-259 | in every run, while a call is unfinished some call can move, although transport flights wait for client flights and both for one mutex |
| TransportProgress.StepsAreBounded | pkg/mcpclient/channel_transport_factory.go:151-259 | in every run the steps that had an effect and the steps that remain are at most twenty per call begun, nested calls included |
| TransportProgress.StoppedIffAllDone | pkg/mcpclient/channel_transport_factory.go:151-259 | in every run nothing can move any more exactly when every call has returned |
| TransportProgress.CallsReturn | pkg/mcpclient/channel_transport_factory.go:151-259 | from every run, steps of the calls alone, no more than remain, let every call return |
| TransportErrors.ErrorsHaveCauses | pkg/mcpclient/channel_transport_factory.go:151-259 | in every run a call that returns an error was given an empty name or took part in a flight in which a step failed, a transport call also if the flight of its client failed |
| TransportErrors.NothingFailsByItself | pkg/mcpclient/channel_transport_factory.go:151-259 | in every run without a failing step and without an empty name no call and no flight fails |
| TransportErrors.BeginIsRecorded | pkg/mcpclient/channel_transport_factory.go:151-167 | in every run a call under a new number begins with its look at the cache, unless its name is empty |
| TransportErrors.CallsSucceed | pkg/mcpclient/channel_transport_factory.go:151-259 | in every run in which nothing fails, a call that begins can be completed and then returns the cached value |
| TransportErrors.BuiltAsBegun | pkg/mcpclient/channel_transport_factory.go:82-97 | in every run a transport is built with its own client if its channel is streamable, otherwise with the default one |
| TransportErrors.CachedIsReturned | pkg/mcpclient/channel_transport_factory.go:160-165 | in every run a call that finds its value cached returns it at once, without a flight |
| ChangeNotification.Changed.Changes | pkg/controlplane/health.go:129-136 | the returned channel is open, made only if there was none |
| ChangeNotification.Changed.Signal | pkg/controlplane/health.go:137-142 | every channel handed out so far is closed |
| ChangeNotification.RunKeepsInv | pkg/controlplane/health.go:128-142 | in every run a held channel is closed exactly when something was observed since it was asked for |
| ChangeNotification.ChangesThenSnapshot | pkg/controlplane/health.go:128-142 | a watcher that asks before its snapshot has seen every observation or holds a closed channel, and is never woken for nothing |
| ChangeNotification.MissesIff | pkg/controlplane/health.go:128-142 | an observation is missed exactly when the snapshot precedes one that precedes the call of Changes |
| ChangeNotification.SnapshotFirstCanMiss | pkg/controlplane/health.go:128-142 | the run in which the other order misses an observation |
| ChangeNotification.SnapshotKeepsChannel | pkg/controlplane/health.go:128-142 | a snapshot shows all observations so far, and a watcher that holds a channel keeps it |
| DeliveryCounters.DeliveryHealth.Attempt | pkg/controlplane/health.go:165-176 | takes the counting step and signals |
| DeliveryCounters.DeliveryHealth.Finish | pkg/controlplane/health.go:187-210 | takes the finishing step for every disposition and signals |
| DeliveryCounters.CountersCount | pkg/controlplane/health.go:156-210 | after every run each counter is the number of its events, cut at the 64-bit bound |
| DeliveryCounters.CountersAreOrdered | pkg/controlplane/health.go:156-210 | accepted never exceeds completed and retries never exceed attempts, saturation included |
| DeliveryCounters.LatestIsShown | pkg/controlplane/health.go:177-210 | after every run each time stamp is that of the last event of its kind, the disposition that of the last finish, category and status those of the last outcome |
| DeliveryCounters.InProgressIff | pkg/controlplane/health.go:156-195 | inProgress is begins minus finishes throughout a run exactly when that difference stays a uint64 |
| Backpressure.QueueHealth.Backpressure | pkg/controlplane/health.go:282-306 | takes the observation step and signals |
| Backpressure.TotalNeverFalls | pkg/controlplane/health.go:282-306 | whatever the clock does, an observation never takes back accumulated time |
| Backpressure.NanosAreActiveTime | pkg/controlplane/health.go:282-310 | with a clock that does not go back, the sum in nanoseconds, before the conversion to seconds, is the time under pressure below the 63-bit bound; above it, what saturation leaves |
| Backpressure.NanosNeverDecrease | pkg/controlplane/health.go:282-310 | a later sum in nanoseconds is never smaller, whatever was observed in between, below the bound |
| Backpressure.NanosDropIff | pkg/controlplane/health.go:282-310 | an observation makes the sum in nanoseconds fall exactly when it ends pressure and the sum passes the bound |
| Backpressure.NanosNeverDropByWaiting | pkg/controlplane/health.go:307-310 | without an observation the sum never falls, not even past the bound |
| Backpressure.NanosDrop | pkg/controlplane/health.go:282-310 | a run in which it does |
| Float64.Float64Rounds | pkg/controlplane/health.go:24-29 | rounding to 53 bits with ties to even is monotone, idempotent, exact at 0 and 1, and off by at most one part in 2^53 |
| FloatReport.FloatFallsIff | pkg/controlplane/health.go:282-310 | an observation makes the float64 report fall exactly when it ends pressure and the seconds of the sum are fewer than the rounded sum of the seconds, which takes two stretches |
| FloatReport.WholeSecondsFallIff | pkg/controlplane/health.go:282-310 | with whole seconds accumulated and running, the float64 report falls exactly when pressure ends and the sum passes the bound |
| FloatReport.FloatNeverFallsByWaiting | pkg/controlplane/health.go:307-310 | without an observation the float64 report never falls |
| FloatReport.FloatNearActiveTime | pkg/controlplane/health.go:307-310 | the float64 report is the time under pressure up to five parts in 2^53, below the bound |
| FloatReport.FloatFallIsTiny | pkg/controlplane/health.go:282-310 | a later float64 report is smaller by at most ten parts in 2^53, whatever was observed in between |
| FloatReport.FloatFalls | pkg/controlplane/health.go:282-310 | a run with a good clock, far below the bound, whose float64 report falls while the nanoseconds do not |
| Rings.Wrap | pkg/adminui/log_buffer.go:215-220 | the modulus brings an index back by one turn |
| Rings.HoldsPush | pkg/adminui/log_buffer.go:208-221 | writing behind the window, in any of the encodings, extends it by the new item and drops the oldest when full |
| Rings.LogBuffer.AppendLocked | pkg/adminui/log_buffer.go:208-221 | the ring holds the last capacity events after the append |
| Rings.LogBuffer.Recent | pkg/adminui/log_buffer.go:126-157 | the suffix of everything appended, of the clamped length |
| Rings.LogBuffer.Since | pkg/adminui/log_buffer.go:159-175 | the events of that suffix that are not older, in order |
| Rings.CallBuffer.RecordCall | pkg/harpoon/call_buffer.go:45-57 | the ring holds the last entries after the call |
| Rings.CallBuffer.Snapshot | pkg/harpoon/call_buffer.go:60-92 | the newest entries with the trimmed label, newest first, cut at the clamped limit |
| Rings.SnapshotMeans | pkg/harpoon/call_buffer.go:60-92 | only entries with the label, at most as many as asked for; without a label the newest ones, newest first, as many as asked for or all there are |
| Rings.ScanIsCut | pkg/harpoon/call_buffer.go:80-91 | stopping early yields the first matches of the whole window |
| Rings.EventRing.PublishLocked | pkg/codexappserver/bridge.go:1372-1385 | the event gets the next number and a time, and the ring holds the last events |
| Rings.EventRing.RecentEvents | pkg/codexappserver/bridge.go:428-441 | the suffix of the clamped length, numbered consecutively up to the newest |
| VendorTree.TreeAt | scripts/extract_sbom_vendor.py:122-134 | the tree holds exactly the entries and all their proper ancestors, entries with their own node and all else directories |
| VendorTree.FittingEntriesExtract | scripts/extract_sbom_vendor.py:122-134 | entries that fit together extract into a fresh root without a collision and add exactly their tree |
| VendorTree.ExtractionIsSafe | scripts/extract_sbom_vendor.py:122-134 | an extracted entry never overwrites anything, stands in its place, and everything stays inside directories |
| VendorArchive.SafePathStaysInside | scripts/extract_sbom_vendor.py:75-82 | an accepted path lies under vendor and has no empty, dot or dot-dot part |
| VendorArchive.SafePathIsRead | scripts/extract_sbom_vendor.py:75-82 | a path under vendor without empty or dot parts is accepted as written, and with a trailing slash |
| VendorArchive.SafePathIff | scripts/extract_sbom_vendor.py:75-82 | refused are exactly absolute names, names with a dot part, and names whose first part is not vendor |
| VendorArchive.ConvertIff | scripts/extract_sbom_vendor.py:97-111 | accepted are exactly directories and files with a safe path, the root only as a directory; a file keeps its content and the low nine bits of its mode |
| VendorArchive.CollectEntries | scripts/extract_sbom_vendor.py:97-111 | the first loop succeeds exactly when every member is acceptable and no path repeats |
| VendorArchive.NoConflicts | scripts/extract_sbom_vendor.py:113-120 | the nested loops accept exactly the sets without a file above another member |
| VendorArchive.ValidateArchive | scripts/extract_sbom_vendor.py:92-120 | the checks accept exactly the non-empty archives whose entries fit together |
| VendorArchive.ExtractArchive | scripts/extract_sbom_vendor.py:85-134 | extraction succeeds exactly for valid archives into a root without vendor, and adds exactly the tree of the members |
| VendorArchive.MemberOrderDoesNotMatter | scripts/extract_sbom_vendor.py:85-134 | a rearranged archive is valid exactly when the original is, and leaves the same tree |
| VendorArchive.MembersAreExtracted | scripts/extract_sbom_vendor.py:122-134 | in the tree of a valid archive every member stands at its path with its content and mode |
| TreeDigest.TreeStream | scripts/extract_sbom_vendor.py:137-160 | the loop refuses exactly trees without modules.txt or with links or special files, and else feeds the frames of the sorted files |
| TreeDigest.FrameBytes | scripts/extract_sbom_vendor.py:155-159 | the bytes of the frame of one file, one by one |
| TreeDigest.TraversalDoesNotMatter | scripts/extract_sbom_vendor.py:145-148 | any two traversals of one tree feed the same stream |
| TreeDigest.StreamDeterminesFiles | scripts/extract_sbom_vendor.py:145-159 | two trees feed the same stream exactly when they hold the same files with the same content digests |
| Registry.RunKeepsInv | pkg/codexplugin/manager.go:154-899 | after every run of commands, with saves failing anywhere, the active profile is empty or saved, and the profile of every alias and of every live process is saved |
| Registry.ResolveKeepsInv | pkg/codexplugin/manager.go:855-899 | resolving a profile only adds profiles, leaves both tables alone and returns a saved one |
| Registry.DeleteIff | pkg/codexplugin/manager.go:237-281 | after every run a profile can be deleted exactly when no alias and no live process uses it, and the active profile falls back on the first one left |
| Registry.ConnectOutcome | pkg/codexplugin/manager.go:341-497 | after every run, whatever fails on the way, connect touches no other entry, and a process it records agrees with the alias on tunnel, profile file and saved admin profile |
| Registry.RemoveIff | pkg/codexplugin/manager.go:774-849 | after every run an entry leaves both tables exactly when its process is not running, and no other entry changes |
| Registry.StopThenRemove | pkg/codexplugin/manager.go:679-849 | after every run, stop and then remove takes the alias out of both tables and leaves the others as they were |
| Registry.CleanupRemovesOnlyUnconnected | pkg/codexplugin/manager.go:550-623 | after every run cleanup removes exactly the stale aliases, all created but never connected, and no process record |
| RegistryEffects.SetSaves | pkg/codexplugin/manager.go:154-201 | after every run Set saves the fields asked for and fills the others from the saved profile, the environment and the defaults; it activates if wanted or if none was active; a bad key or failed save changes nothing |
| RegistryEffects.ActivateIff | pkg/codexplugin/manager.go:203-235 | after every run Activate makes exactly a known profile active |
| RegistryEffects.DeleteTouchesOne | pkg/codexplugin/manager.go:237-281 | after every run Delete touches no other profile and no table |
| RegistryEffects.ResolveSaves | pkg/codexplugin/manager.go:855-899 | resolving takes the requested name, else the recorded one, else the environment's, and saves and activates the filled profile unless it is saved just so |
| RegistryEffects.ConnectRecords | pkg/codexplugin/manager.go:341-497 | after every run, when the profile resolves and saves and launch succeed, alias and process carry the given tunnel, or the one the control plane knows, found or created, or the previous one, with the resolved profile, the profile file and the mode; without a tunnel no process is recorded |
| RegistryEffects.CreateRecords | pkg/codexplugin/manager.go:283-339 | after every run Create records the tunnel known, found or created with the resolved profile, and starts nothing |
| RegistryEffects.StopIff | pkg/codexplugin/manager.go:679-772 | after every run Stop marks the process stopped exactly if the runtime could be stopped or was already, and touches nothing else |
| RegistryEffects.RemoveNeedsFiles | pkg/codexplugin/manager.go:774-849 | Remove changes nothing if files could not be removed or the first save failed, and never touches profiles |
| RegistryEffects.FirstIsFirst | pkg/codexplugin/manager.go:1949-1956 | the first value that is not blank, trimmed, or none |
| RegistryRaces.EventIsSafeIff | pkg/codexplugin/manager.go:154-899 | one event of any interleaving keeps the invariant exactly when it is safe: a save of the profile file covers the profiles needed by now, a new record's profile is still saved |
| RegistryRaces.NeverDanglesIff | pkg/codexplugin/manager.go:154-899 | in every interleaving of loads and saves, no reference ever dangles exactly when every event is safe |
| RegistryRaces.FreshIsSafe | pkg/codexplugin/manager.go:154-281 | a command whose loaded copy still has every saved profile saves safely, unless it deletes one put to use since |
| RegistryRaces.CreateIsFiveEvents | pkg/codexplugin/manager.go:283-339 | undisturbed, the events of a Create for a new alias have the effect of the sequential Create |
| RegistryCommands.CommandsAreEvents | pkg/codexplugin/manager.go:154-899 | undisturbed, every command is a run of loads and saves with the effect of the sequential command, and leaves the lock free |
| RegistryRaces.LostUpdateDangles | pkg/codexplugin/manager.go:154-201 | a run in which a Set that loaded before a Create saved leaves the finished alias without its profile |
| RegistryRaces.DeleteInsideCreateDangles | pkg/codexplugin/manager.go:237-339 | a run in which a Delete between the two saves of one Create leaves its alias without a profile |
| RegistryRaces.RecordInsideDeleteDangles | pkg/codexplugin/manager.go:237-339 | a run in which a Create saves its alias while a Delete that saw no reference is on its way to save |
| RegistryOrder.OrderlyNeverDangles | pkg/codexplugin/manager.go:154-899 | in every interleaving in which nobody else saves the profile file between a load and its save, no record falls inside a Delete and no Delete between a resolution and its record, no reference ever dangles |
| Registry.Files.DeleteAdminProfile | pkg/codexplugin/manager.go:237-281 | refuses exactly the unknown and the referenced profiles, and otherwise deletes and falls back |
| Registry.UsedByAlias | pkg/codexplugin/manager.go:254-258 | the first loop finds a reference from an alias exactly when there is one, in any map order |
| Registry.UsedByProcess | pkg/codexplugin/manager.go:263-267 | the second loop finds a reference from a live runtime exactly when there is one, in any map order |
| Registry.FirstProfileName | pkg/codexplugin/manager.go:1512-1522 | the least name in sorted order, or none |
| Registry.Sweep | pkg/codexplugin/manager.go:581-609 | the loop removes exactly the stale names among the given ones from both maps |
| Registry.Files.CleanupInventory | pkg/codexplugin/manager.go:550-623 | exactly the stale entries leave both tables, and the list of removed names is theirs |

## Left out

- HTTP handlers, Fx wiring, Cobra commands, status printing, the admin UI and its assets: input/output and presentation.
- Real processes, pipes, signals, tmux, sockets and file permissions: events and parameters stand for their outcomes.
- JSON, YAML, regular expressions and URLs, hence the redaction in pkg/adminui and pkg/log.
- Header filtering, path extraction and response rendering in pkg/localproxy: one-pass filters.
- Timers and context cancellation in pkg/localproxy: they appear as the cancel and leave events.
- Subscribers of the log buffer and of the bridge: best-effort sends that drop when the channel is full.
- PollHealth's own fields and the enqueue and dequeue counts of QueueHealth: assignments; their notifications are those of ChangeNotification.
- SHA-256 itself: a file is represented by its 32-byte digest, so the results are about the bytes that are hashed.
- Panics inside a singleflight call, and the shallow copy of the client with its redirect policy.
- TransportCache: the maps are values of the state machine, because what matters there is the interleaving; update in place is not captured.
- Bridge: the retry delay is a choice of the environment, so nothing is claimed about how long a caller waits between two startups; stderr lines and thread state are not modelled.
- LocalControlPlane.ResponsesReachTheCaller: order and delivery are stated for posts that do not overlap, because the code does not give more.
- PluginVersions.ScanReturnsMaximum: stated for candidates of one kind; PluginVersions.ChoiceIsBestIff covers every mix.
- Rings.LogBuffer.AppendLocked: ring order is append order; the sequence number of a log event is drawn before the lock and need not follow it.
- Rings.EventRing.PublishLocked: does not model the wrap-around of the 64-bit sequence number.
- ShellWords.ScannersAgree: stated off Windows; on Windows a backslash is an ordinary byte for the editor scanner.
- Registry.RunKeepsInv: commands run one at a time, RegistryRaces.NeverDanglesIff and RegistryOrder.OrderlyNeverDangles cover the rest; NormalizeAlias enters as an arbitrary rewriting followed by its check for the empty result, and hand-edited state files are not modelled.
- RegistryCommands.CommandsAreEvents: stated for a Connect that falls back on the recorded tunnel only after the control plane was asked, which is when the code does.
- Float64: numbers outside the range of the report (negative, beyond 2^65, subnormal, infinite) are not modelled.
- Unicode case folding, and white space other than the UTF-8 spaces that strings.TrimSpace knows.
