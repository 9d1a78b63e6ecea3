# PCPanel: power events, panel registry and MQTT state, modelled in Dafny

PCPanel drives USB lighting and control panels. This project models four pieces of its
sequential decision logic and proves what they promise:

- **LinuxSystemEventService** detects suspend and resume on Linux. It reads the lines that
  `dbus-monitor` prints for systemd-logind's `PrepareForSleep` signal, using a two-state
  parser: a signal header arms it, and the next `boolean` line publishes `goingToSuspend` or
  `resumedFromSuspend`. If that helper cannot be started, or its output fails with an
  `IOException` while the service is still running, it switches to a `journalctl` follower
  and classifies each line on its own. `cleanup` stops both loops.
  The helpers' output is given as lines and how they end. The concurrent cleanup is given as
  the number of lines read before it runs (module `LinuxEvents`, class
  `LinuxSystemEventService`).
- **DeviceScanner** keeps the map from serial number to device handler. The map is fed by HID
  attach, detach and failure notifications and by a rescan after resume. The scanner
  classifies a device by the first known type whose vendor and product id match (module
  `Hid`, class `DeviceScanner`).
- **SleepDetector** dispatches power events. Suspend switches every panel to all-off; on
  process shutdown it also polls each panel's command queue, at most 20 times, and then
  closes the scanner. Resume waits, rescans, waits again and restores every panel's lighting.
  What it does is an action log, and queue emptiness is an oracle (module `Sleep`, class
  `SleepDetector`).
- **MqttService** is a small state machine over the remembered settings and the current
  client, driven by `saveChanged`. It also covers the immediate or debounced publish of a
  payload, `remove` (a retained empty publish to one topic), and `removeAll`. `removeAll`
  collects the retained topics it receives, then clears those that match the filter as
  `topicToRegex` translates it (modules `Mqtt` and `TopicFilter`).

The model does not use a regex engine. Instead, the translated filter is a matcher over
characters (`TopicFilter.Matches`). In it, `#` stands for `.*` without line terminators,
`+` stands for `[^/]+`, and every other character matches itself. The lemma
`TopicFilter.DepartsFromMqttWildcards` records where this departs from the wildcards of
section 4.7.1 of the MQTT Version 5.0 OASIS Standard.

Behaviours of the code that the model keeps:

- `startMonitoring` switches to the fallback only on an `IOException`, which means the helper
  could not start or a read threw. If `readLine` returns null, `startMonitoring` just returns,
  with no fallback (`LinuxEvents.FallsBack`).
- On shutdown, `waitUntilEmptyPrioQueue` dereferences the handler lookup
  (`Hid.DeviceScanner.GetConnectedDevice`, `getConnectedDevice` at DeviceScanner.java:35-37)
  without a null check. If a device in the holder has no registered handler, the shutdown work ends there,
  after that device's all-off command and before the scanner is closed (`Sleep.Aborts`).
- A failed connect in `saveChanged` propagates before `connectedSettings` is assigned. The
  old settings stay remembered, next to the new unconnected client
  (`Mqtt.StaleSettingsAfterFailedConnect`).

Each class keeps the source's fields, and its methods change those fields. Every method is
proved equal to a pure function of the old state (`State()` in `Hid`, `Mqtt`). The
properties are lemmas about those functions.

Files: `basics.dfy` (`Min`, sequence associativity), `wrappers.dfy` (Option), `strings.dfy` (`startsWith`, `contains`, `trim`),
`power_events.dfy`, `linux_events.dfy`, `device_scanner.dfy`, `sleep_detector.dfy`,
`topic_filter.dfy`, `mqtt_service.dfy`.

## Model

| member | source | states |
|---|---|---|
| Strings.TrimStart | src/main/java/com/getpcpanel/sleepdetection/LinuxSystemEventService.java:84 | the result is the suffix of the line left after the longest run of leading characters up to U+0020, and does not start with such a character |
| Strings.TrimEnd | src/main/java/com/getpcpanel/sleepdetection/LinuxSystemEventService.java:84 | the result is the prefix left after the longest run of trailing characters up to U+0020, and does not end with such a character |
| LinuxEvents.RunAppend | src/main/java/com/getpcpanel/sleepdetection/LinuxSystemEventService.java:74-96 | reading lines `a` and then `b` leaves the parser as reading `a + b` does |
| LinuxEvents.ArgumentWhileArmed | src/main/java/com/getpcpanel/sleepdetection/LinuxSystemEventService.java:78-95 | while armed, or on a line that is itself a header (the arming test runs first), a line whose trimmed text starts with `boolean` publishes exactly one event and disarms; the event is a suspend iff the line contains `true`, and a resume otherwise |
| LinuxEvents.IgnoredLine | src/main/java/com/getpcpanel/sleepdetection/LinuxSystemEventService.java:74-96 | a line that is not a header leaves state and events unchanged, unless the parser is armed and the line is an argument; a `boolean` line while idle publishes nothing |
| LinuxEvents.HeadersArm | src/main/java/com/getpcpanel/sleepdetection/LinuxSystemEventService.java:78-80 | any non-empty run of header lines leaves one armed flag and publishes nothing |
| LinuxEvents.ArmedWaitsForArgument | src/main/java/com/getpcpanel/sleepdetection/LinuxSystemEventService.java:84 | while armed, lines that are not arguments leave the parser unchanged |
| LinuxEvents.SignalThenArgument | src/main/java/com/getpcpanel/sleepdetection/LinuxSystemEventService.java:74-96 | a header, any non-argument lines, then an argument: exactly the one event the argument announces, and the parser is idle again |
| LinuxEvents.EventsBoundedByHeaders | src/main/java/com/getpcpanel/sleepdetection/LinuxSystemEventService.java:78-86 | published events are never taken back; events, plus one for a pending arm, never exceed the header lines read (plus one if already armed) |
| LinuxEvents.PrimaryEventsBounded | src/main/java/com/getpcpanel/sleepdetection/LinuxSystemEventService.java:74-96 | from idle, at most one event per header line, so at most one per line |
| LinuxEvents.PrimaryEventsGrow | src/main/java/com/getpcpanel/sleepdetection/LinuxSystemEventService.java:74-96 | the events for a prefix of the lines are a prefix of the events for a longer prefix |
| LinuxEvents.FallbackEventsCount | src/main/java/com/getpcpanel/sleepdetection/LinuxSystemEventService.java:128-142 | the fallback publishes one event per classified line, so at most one per line, and reading more lines only appends |
| LinuxEvents.StartTakesPrecedence | src/main/java/com/getpcpanel/sleepdetection/LinuxSystemEventService.java:131-141 | a fallback line that is both a start and a finish line publishes only `goingToSuspend` |
| LinuxEvents.MonitorEventsBounded | src/main/java/com/getpcpanel/sleepdetection/LinuxSystemEventService.java:55-151 | the monitor publishes at most as many events as lines read before cleanup, and at most as many as both helpers printed; without a fallback, at most as many as the primary lines read |
| LinuxEvents.MonitorEventsGrow | src/main/java/com/getpcpanel/sleepdetection/LinuxSystemEventService.java:74-142 | a later cleanup never publishes fewer events: the events with cleanup after `k` lines are a prefix of those after `k + 1` |
| LinuxEvents.LinuxSystemEventService.constructor | src/main/java/com/getpcpanel/sleepdetection/LinuxSystemEventService.java:31-39 | a new service is running, has no process and has published nothing |
| LinuxEvents.LinuxSystemEventService.Cleanup | src/main/java/com/getpcpanel/sleepdetection/LinuxSystemEventService.java:47-53 | `running` becomes false, a started helper is destroyed, the executor is shut down, nothing is published |
| LinuxEvents.LinuxSystemEventService.PublishEvent | src/main/java/com/getpcpanel/sleepdetection/LinuxSystemEventService.java:153-160 | appends exactly the given event to what was published |
| LinuxEvents.LinuxSystemEventService.ParseLine | src/main/java/com/getpcpanel/sleepdetection/LinuxSystemEventService.java:77-95 | one loop pass is one parser step: the new flag and the published events are those of `Step` |
| LinuxEvents.LinuxSystemEventService.ReadPrimary | src/main/java/com/getpcpanel/sleepdetection/LinuxSystemEventService.java:74-96 | the loop reads `min(budget, lines)` lines while running and none otherwise; it publishes exactly the parser's events for them; running stays true iff the output ends first; cleanup ran iff the budget was reached |
| LinuxEvents.LinuxSystemEventService.ClassifyLine | src/main/java/com/getpcpanel/sleepdetection/LinuxSystemEventService.java:131-141 | one fallback pass publishes exactly the line's classified event, if any |
| LinuxEvents.LinuxSystemEventService.ReadFallback | src/main/java/com/getpcpanel/sleepdetection/LinuxSystemEventService.java:128-142 | the journal loop publishes exactly the classified events of the lines read before cleanup, and none when no longer running |
| LinuxEvents.LinuxSystemEventService.StartFallbackMonitoring | src/main/java/com/getpcpanel/sleepdetection/LinuxSystemEventService.java:108-151 | starts `journalctl` and reads it as above; a start failure publishes nothing and keeps the old process |
| LinuxEvents.LinuxSystemEventService.ReadMonitorOutput | src/main/java/com/getpcpanel/sleepdetection/LinuxSystemEventService.java:66-102 | after `dbus-monitor` starts: the fallback runs iff the output fails while still running; the published events are the primary's then the fallback's; the state records cleanup and the last helper started |
| LinuxEvents.LinuxSystemEventService.StartMonitoring | src/main/java/com/getpcpanel/sleepdetection/LinuxSystemEventService.java:55-106 | the whole monitor: the fallback is entered only on an `IOException` (start or read failure) while running; events are `MonitorEvents`; running, executor and process are as cleanup left them |
| Hid.ClassifyIsFirstMatch | src/main/java/com/getpcpanel/hid/DeviceScanner.java:130-136 | no type iff none of the types matches vid/pid; otherwise the type returned matches and no earlier type does |
| Hid.ClassifyIgnoresSerial | src/main/java/com/getpcpanel/hid/DeviceScanner.java:132 | the serial number plays no part in classification |
| Hid.AddedReplaces | src/main/java/com/getpcpanel/hid/DeviceScanner.java:58-68 | after an add, the key maps to a newly built handler for the device (kept even if `open()` failed), replacing any earlier one; other keys unchanged; exactly one connected event; invariant kept |
| Hid.RemovedSpec | src/main/java/com/getpcpanel/hid/DeviceScanner.java:70-75 | after a remove the key is absent; a disconnected event is appended iff it was present; all other keys unchanged; invariant kept |
| Hid.RescanStepOnlyAdds | src/main/java/com/getpcpanel/hid/DeviceScanner.java:115-123 | one iteration never removes or replaces an entry, adds no key other than the serial of a registrable device, and leaves every registrable device registered |
| Hid.RescanOnlyAdds | src/main/java/com/getpcpanel/hid/DeviceScanner.java:110-128 | the rescan never removes or replaces an entry; every key it adds is the serial of a registrable attached device; each event it publishes is a connected event for a serial not registered before, one per new entry; afterwards every registrable attached device is registered |
| Hid.RescanFixedPoint | src/main/java/com/getpcpanel/hid/DeviceScanner.java:115-124 | a rescan in which no device changes the registry changes nothing |
| Hid.RescanIdempotent | src/main/java/com/getpcpanel/hid/DeviceScanner.java:110-128 | a second rescan over the same attached devices adds nothing and publishes nothing |
| Hid.DeviceScanner.constructor | src/main/java/com/getpcpanel/hid/DeviceScanner.java:29-33 | an empty map, no events, no services yet; the registry invariant holds |
| Hid.DeviceScanner.Init | src/main/java/com/getpcpanel/hid/DeviceScanner.java:40-46 | the HID services are created and started |
| Hid.DeviceScanner.DetermineDeviceType | src/main/java/com/getpcpanel/hid/DeviceScanner.java:130-136 | the first-match loop returns the first type whose vid/pid match, or none |
| Hid.DeviceScanner.DeviceAdded | src/main/java/com/getpcpanel/hid/DeviceScanner.java:58-68 | a null key or device throws and changes nothing; otherwise the registry becomes `Added`, and a failing handler build throws before the insert; the registry invariant (`Valid`: each key is its handler's serial, and every handler id is below the build counter) is kept |
| Hid.DeviceScanner.DeviceRemoved | src/main/java/com/getpcpanel/hid/DeviceScanner.java:70-75 | a null key or device throws `IllegalArgumentException` and changes nothing; otherwise the registry becomes `Removed`; the registry invariant (`Valid`: each key is its handler's serial, and every handler id is below the build counter) is kept |
| Hid.DeviceScanner.FoundPCPanel | src/main/java/com/getpcpanel/hid/DeviceScanner.java:77-84 | adds the device under its serial; the exception of a null serial or failed build is caught, changing nothing; the registry invariant (`Valid`: each key is its handler's serial, and every handler id is below the build counter) is kept |
| Hid.DeviceScanner.LostPCPanel | src/main/java/com/getpcpanel/hid/DeviceScanner.java:86-93 | removes the device's serial; the exception of a null serial is caught, changing nothing; the registry invariant (`Valid`: each key is its handler's serial, and every handler id is below the build counter) is kept |
| Hid.DeviceScanner.HidDeviceAttached | src/main/java/com/getpcpanel/hid/DeviceScanner.java:95-98 | an unclassified device changes nothing; a classified one is added under its serial; the registry invariant (`Valid`: each key is its handler's serial, and every handler id is below the build counter) is kept |
| Hid.DeviceScanner.HidDeviceDetached | src/main/java/com/getpcpanel/hid/DeviceScanner.java:100-103 | an unclassified device changes nothing; a classified one is removed; the registry invariant (`Valid`: each key is its handler's serial, and every handler id is below the build counter) is kept |
| Hid.DeviceScanner.HidFailure | src/main/java/com/getpcpanel/hid/DeviceScanner.java:105-108 | handled exactly as a detach; the registry invariant (`Valid`: each key is its handler's serial, and every handler id is below the build counter) is kept |
| Hid.DeviceScanner.TriggerDeviceRescan | src/main/java/com/getpcpanel/hid/DeviceScanner.java:110-128 | the loop leaves the registry as `Rescan` over the attached devices; before `init`, the caught null dereference leaves it unchanged; the registry invariant (`Valid`: each key is its handler's serial, and every handler id is below the build counter) is kept |
| Hid.DeviceScanner.Close | src/main/java/com/getpcpanel/hid/DeviceScanner.java:138-144 | started services are shut down; before `init` the caught failure changes nothing |
| Sleep.PollBounded | src/main/java/com/getpcpanel/sleepdetection/SleepDetector.java:62-73 | the poll makes `min(busy + 1, left)` checks and `min(busy, left)` pauses of 100 ms of this queue only, and stops at the first check that finds it empty, which is then the last action |
| Sleep.WaitBounded | src/main/java/com/getpcpanel/sleepdetection/SleepDetector.java:64-72 | at most 20 checks, and at most 2000 ms of pauses |
| Sleep.PollSendsNothing | src/main/java/com/getpcpanel/sleepdetection/SleepDetector.java:62-73 | the queue wait sends no lighting command and does not close the scanner |
| Sleep.SuspendSendsAllOffOnce | src/main/java/com/getpcpanel/sleepdetection/SleepDetector.java:40-52 | unless a shutdown aborts, `ALL_OFF` with `immediate` goes exactly once to each device, in order, with no other lighting command; the scanner is closed once, last, iff it is a shutdown |
| Sleep.SuspendLoopSends | src/main/java/com/getpcpanel/sleepdetection/SleepDetector.java:42-49 | the device loop's lighting commands are `ALL_OFF` per device in order, and it never closes the scanner |
| Sleep.RestoreEachDevice | src/main/java/com/getpcpanel/sleepdetection/SleepDetector.java:96-99 | one restore per device present, the i-th sending the i-th device's own lighting with `immediate` |
| Sleep.AllOffEachDevice | src/main/java/com/getpcpanel/sleepdetection/SleepDetector.java:42-44 | one all-off command per device, the i-th to the i-th device |
| Sleep.SuspendLoopAfterAbort | src/main/java/com/getpcpanel/sleepdetection/SleepDetector.java:46-48 | once the queue wait has thrown, the remaining devices add no action |
| Sleep.SuspendLoopAbortAt | src/main/java/com/getpcpanel/sleepdetection/SleepDetector.java:43-47 | the suspend loop stopped by an unregistered device ends with that device's `ALL_OFF` |
| Sleep.NoShutdownOnlyAllOff | src/main/java/com/getpcpanel/sleepdetection/SleepDetector.java:42-51 | without shutdown the suspend work is exactly one all-off command per device, in order, with no queue wait and no close |
| Sleep.ShutdownDrainsEach | src/main/java/com/getpcpanel/sleepdetection/SleepDetector.java:42-51 | on a shutdown that does not abort, each device's all-off command is followed at once by its queue wait, and the scanner is closed last |
| Sleep.SleepDetector.constructor | src/main/java/com/getpcpanel/sleepdetection/SleepDetector.java:21-25 | no actions, no deferred work, no hook yet |
| Sleep.SleepDetector.Init | src/main/java/com/getpcpanel/sleepdetection/SleepDetector.java:27-30 | the shutdown hook is installed |
| Sleep.SleepDetector.OnEvent | src/main/java/com/getpcpanel/sleepdetection/SleepDetector.java:32-38 | exactly the task `TaskFor(e)` is deferred and nothing is done yet |
| Sleep.SleepDetector.OnSuspended | src/main/java/com/getpcpanel/sleepdetection/SleepDetector.java:40-60 | on shutdown the suspend work runs inline (`SuspendActions`, closing the scanner iff it completes); otherwise it is deferred and nothing else changes |
| Sleep.SleepDetector.OnResumed | src/main/java/com/getpcpanel/sleepdetection/SleepDetector.java:75-101 | the resume work is deferred |
| Sleep.SleepDetector.RunShutdownHook | src/main/java/com/getpcpanel/sleepdetection/SleepDetector.java:29 | the hook runs the shutdown suspend work inline |
| Sleep.SleepDetector.WaitUntilEmptyPrioQueue | src/main/java/com/getpcpanel/sleepdetection/SleepDetector.java:62-73 | fails iff the device has no registered handler; otherwise logs exactly the poll of `WaitActions` |
| Sleep.SleepDetector.PollQueue | src/main/java/com/getpcpanel/sleepdetection/SleepDetector.java:64-72 | the counter loop with its early `break` logs exactly `WaitActions` |
| Sleep.SleepDetector.SuspendDevice | src/main/java/com/getpcpanel/sleepdetection/SleepDetector.java:43-48 | sends `ALL_OFF`, then on shutdown waits on the queue; fails iff on shutdown the device is unregistered |
| Sleep.SleepDetector.RunSuspendLoop | src/main/java/com/getpcpanel/sleepdetection/SleepDetector.java:42-49 | the device loop logs exactly `SuspendLoop` and completes iff it does not abort |
| Sleep.SleepDetector.SuspendWork | src/main/java/com/getpcpanel/sleepdetection/SleepDetector.java:41-52 | logs exactly `SuspendActions`; the scanner is closed iff it is a shutdown that completes |
| Sleep.SleepDetector.ResumeWork | src/main/java/com/getpcpanel/sleepdetection/SleepDetector.java:76-100 | logs the settle delay, the rescan, the second delay, then the restores, in that order; the registry becomes the rescan's |
| Sleep.SleepDetector.RunNextTask | src/main/java/com/getpcpanel/sleepdetection/SleepDetector.java:54-58 | the oldest deferred task runs, as the non-shutdown suspend work or the resume work, and leaves the queue |
| Sleep.SleepDetector.OnEventThenRun | src/main/java/com/getpcpanel/sleepdetection/SleepDetector.java:32-101 | an event followed by running its task: suspend or lock appends exactly the all-off commands (`SuspendActions` without shutdown) and leaves the registry alone; resume or unlock appends `ResumeActions` and rescans |
| TopicFilter.TopicToRegex | src/main/java/com/getpcpanel/mqtt/MqttService.java:116-122 | one token per filter character: `#` becomes any run, `+` a level run, and everything else a literal |
| TopicFilter.LiteralPrefix | src/main/java/com/getpcpanel/mqtt/MqttService.java:116-121 | a wildcard-free part of the filter matches exactly its own characters, then hands over |
| TopicFilter.AnyRunSplits | src/main/java/com/getpcpanel/mqtt/MqttService.java:119 | `#` matches any, possibly empty, run without line terminators |
| TopicFilter.LevelRunSplits | src/main/java/com/getpcpanel/mqtt/MqttService.java:120 | `+` matches any non-empty run without `/` |
| TopicFilter.PlainMatchesOnlyItself | src/main/java/com/getpcpanel/mqtt/MqttService.java:116-121 | a filter without wildcards matches only the identical topic |
| TopicFilter.PrefixThenHash | src/main/java/com/getpcpanel/mqtt/MqttService.java:119 | `p#` matches exactly the topics starting with `p` whose rest has no line terminator |
| TopicFilter.LoneLevelRun | src/main/java/com/getpcpanel/mqtt/MqttService.java:120 | `+` matches exactly the non-empty topics without `/` |
| TopicFilter.TranslateAppend | src/main/java/com/getpcpanel/mqtt/MqttService.java:116-121 | translating a concatenation concatenates the translations |
| TopicFilter.DepartsFromMqttWildcards | src/main/java/com/getpcpanel/mqtt/MqttService.java:116-121 | `a/#` matches `a/b/c` but not `a`; `a/+` does not match `a/`; `+` does not match `a/b` |
| TopicFilter.MatchingSpec | src/main/java/com/getpcpanel/mqtt/MqttService.java:113 | the filtered topics are exactly the collected topics the filter matches, never more than were collected |
| TopicFilter.MatchingAppend | src/main/java/com/getpcpanel/mqtt/MqttService.java:113 | filtering a concatenation concatenates the filtered parts, so order and repeats are kept |
| TopicFilter.MatchingSingle | src/main/java/com/getpcpanel/mqtt/MqttService.java:113 | a single topic is kept iff the filter matches it |
| Mqtt.DisabledResets | src/main/java/com/getpcpanel/mqtt/MqttService.java:129-133 | null or disabled settings disconnect any client, leave none, remember `DEFAULT` and report `false`, every time |
| Mqtt.DisabledThenEnabledConnects | src/main/java/com/getpcpanel/mqtt/MqttService.java:129-142 | after a disable, enabled settings never short-circuit and lead to a fresh connect |
| Mqtt.SameSettingsNoOp | src/main/java/com/getpcpanel/mqtt/MqttService.java:135-137 | enabled settings equal to the remembered ones change nothing and report nothing |
| Mqtt.NewSettingsConnect | src/main/java/com/getpcpanel/mqtt/MqttService.java:139-162 | new enabled settings build one fresh client, connect it, send retained `online` to the availability topic, then remember the settings and report `true` |
| Mqtt.FailedConnect | src/main/java/com/getpcpanel/mqtt/MqttService.java:140-159 | a failing connect propagates before the settings are remembered or a status is reported; the fresh client stays, unconnected |
| Mqtt.SaveTwiceConnectsOnce | src/main/java/com/getpcpanel/mqtt/MqttService.java:135-143 | applying the same enabled settings twice connects only once |
| Mqtt.SaveChangedKeepsSettings | src/main/java/com/getpcpanel/mqtt/MqttService.java:127-143 | every `saveChanged` that does not fail keeps the remembered enabled settings those of the current client |
| Mqtt.StaleSettingsAfterFailedConnect | src/main/java/com/getpcpanel/mqtt/MqttService.java:135-159 | after a failed connect the old settings remain remembered, so re-applying them short-circuits and the unconnected client stays |
| Mqtt.SendBytesSpec | src/main/java/com/getpcpanel/mqtt/MqttService.java:62-79 | an immediate send publishes once, retained, through the current client (null: the exception escapes, nothing sent); otherwise it goes to the debouncer under `TopicKey(topic)` with a 250 ms window |
| Mqtt.SendSpec | src/main/java/com/getpcpanel/mqtt/MqttService.java:50-60 | a null payload throws; a string is sent as its bytes; an object is sent serialized, and a failure there is caught and sends nothing |
| Mqtt.RemoveSpec | src/main/java/com/getpcpanel/mqtt/MqttService.java:81-88 | one retained empty-payload publish to exactly the topic; none and an exception without a client |
| Mqtt.CollectedSpec | src/main/java/com/getpcpanel/mqtt/MqttService.java:97-107 | the collected topics are those of the receipts before the first empty or interrupted receive, in order |
| Mqtt.ClearAllSpec | src/main/java/com/getpcpanel/mqtt/MqttService.java:113 | one clearing publish per topic, the i-th for the i-th topic |
| Mqtt.ClearAllClears | src/main/java/com/getpcpanel/mqtt/MqttService.java:113 | a topic is cleared iff it is in the list, and every publish is a retained empty one through the same client |
| Mqtt.RemoveAllClearsMatching | src/main/java/com/getpcpanel/mqtt/MqttService.java:90-114 | subscribe and unsubscribe once each, then one clearing publish per matching collected topic, in order of receipt and with repeats; a topic is cleared iff it was collected and the filter matches it |
| Mqtt.RemoveAllWithoutClient | src/main/java/com/getpcpanel/mqtt/MqttService.java:92 | without a client, `removeAll` throws before subscribing and changes nothing |
| Mqtt.OperationsKeepIds | src/main/java/com/getpcpanel/mqtt/MqttService.java:145-162 | every operation names only clients built before, so identifiers are never reused |
| Mqtt.MqttService.constructor | src/main/java/com/getpcpanel/mqtt/MqttService.java:36-44 | no remembered settings, no client, nothing sent |
| Mqtt.MqttService.SendBytes | src/main/java/com/getpcpanel/mqtt/MqttService.java:62-79 | the new state and outcome are `SentBytes` of the old state |
| Mqtt.MqttService.Send | src/main/java/com/getpcpanel/mqtt/MqttService.java:50-60 | the new state and outcome are `Sent` of the old state |
| Mqtt.MqttService.Remove | src/main/java/com/getpcpanel/mqtt/MqttService.java:81-88 | the new state and outcome are `Removed` of the old state |
| Mqtt.MqttService.RemoveAll | src/main/java/com/getpcpanel/mqtt/MqttService.java:90-114 | the new state and outcome are `RemovedAll` of the old state |
| Mqtt.MqttService.CollectTopics | src/main/java/com/getpcpanel/mqtt/MqttService.java:97-107 | the `do`/`while` receive loop returns exactly `Collected(inbox)` |
| Mqtt.MqttService.RemoveMatching | src/main/java/com/getpcpanel/mqtt/MqttService.java:112-113 | the stream removes exactly the matching topics, in order of receipt |
| Mqtt.MqttService.Disconnect | src/main/java/com/getpcpanel/mqtt/MqttService.java:164-170 | without a client nothing happens; otherwise it is disconnected and dropped |
| Mqtt.MqttService.Connect | src/main/java/com/getpcpanel/mqtt/MqttService.java:145-162 | the new state and outcome are `Connected` of the old state |
| Mqtt.MqttService.SaveChanged | src/main/java/com/getpcpanel/mqtt/MqttService.java:124-143 | the new state and outcome are `Saved` of the old state |

## Left out

- Processes and I/O: starting `dbus-monitor` and `journalctl`, the process streams and `BufferedReader` are not modelled. Each helper's output is a given sequence of lines plus how it ends.
- Threads: the executor of `LinuxSystemEventService.init`, the shutdown-hook thread and `ConcurrentHashMap` thread safety are not modelled. A concurrent `cleanup` is represented by the number of lines read before it runs, and it is observed at the loop tests.
- Unexpected exceptions in `startMonitoring` and `startFallbackMonitoring` (the `catch (Exception e)` branches) are not modelled, and neither is a failure of `publishEvent`, which is caught and logged.
- Timing: `Platform.runLater` is the queue of pending tasks. `Thread.sleep` becomes a `Wait` action naming its duration. The `Debouncer` is modelled only as the log of what it is handed (key, topic, payload, window), not when it fires.
- TopicFilter.TopicToRegex: only `/`, `#` and `+` are translated, as the source does. Every other character is taken literally, whereas to `Pattern.compile` a `.`, `*`, `[` or `(` in a filter would be a metacharacter. `java.util.regex` itself is not used; the matcher is written out directly.
- The HiveMQ client: its builder, TLS, authentication and the will message are not modelled, and neither is `subscribe` with its callbacks, which is not among the modelled operations. A disconnect is assumed to succeed, and a connect either succeeds or throws.
- Jackson serialization is symbolic. A payload object is given with its serialized text and whether serializing it succeeds, and bytes are kept as the string they encode.
- MqttSettings.java is not part of this model. `MqttSettings.DEFAULT` is modelled as disabled settings, which is the only property the code relies on.
- Client identifiers: the random UUID becomes a counter, which makes the identifiers distinct by construction.
- The HID library: `DeviceType.ALL` is a parameter of the scanner. An attached device is a record with vid, pid, a nullable serial, and flags for "already open", "open succeeds" and "handler build fails". Handler internals and `start()` are not modelled, nor is the scan specification.
- A null `deviceType` passed to `deviceAdded` is not modelled, because the callers always pass a classified type.
- The device holder's contents and the queues' emptiness are given to `SleepDetector` at the moment they are read, and `OutputInterpreter` is the action log.
- Spring: event publishing is a log, and dependency injection and logging are not modelled.
