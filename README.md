# iDRS: DRS status tracker and poll loop

iDRS is a small Windows application that watches an iRacing telemetry session.
It beeps as the car's drag-reduction system (DRS) moves through its phases
`NotAvailable (0) → Approaching (1) → Enabled (2) → On (3)`. A background loop
polls the simulator. While connected, it reads the raw `DRS_Status` code every
15 ms, casts it to the `DrsStatus` enumeration and runs a forward-only rule over
it. A status is accepted only as the next step along the sequence, and each
accepted step plays its beep: a double beep for Approaching, a long beep for
Enabled, a short beep for On. `NotAvailable` is always accepted, as a reset,
and plays nothing. Everything else is ignored. While disconnected, the loop
does not read telemetry and waits 1000 ms. On every iteration it assigns
"Connected" or "Disconnected" to the window's `ConnectionStatus` property.
That setter raises a change notification only when the value actually changes.

The model has two modules:

- `DrsTracker` (`tracker.dfy`) is the pure side. It holds the `DrsStatus`
  enumeration and its integer codes, the unchecked cast (`FromRaw`), and the
  switch as a function (`Advance`). It gives the meaning of a finite run of
  samples (`Replay`), the trace of statuses a run passes through (`Trace`), and
  a reference for which cues a trace calls for (`EdgeCues`). It also holds the
  setter's effect (`Publish`, `PublishRun`), the delays of a run (`Cadences`) and the lemmas about all of these.
- `IDrs` (`main_window.dfy`) is the stateful side. Class `MainWindow` has the
  fields the source updates in place: the tracked `drsStatus`, the
  `connectionStatus` property, a log of change notifications and a log of cues.
  `SetConnectionStatus` is the property setter. `Tick` is one iteration of the
  loop and returns the delay. `Run` is the loop over a finite sequence of
  `(connected, raw)` samples, standing in for the endless `while (true)`.

Modelling choices:

- Playing a beep means appending its `Cue` to `cues`. Raising `PropertyChanged`
  means appending the property name to `notifications`.
- The constructor plays a double beep at start-up, before the loop starts, so
  the cue log starts as `[DoubleBeep]`. `Replay` and `Run` talk about the cues
  a run adds after that.
- The backing field `_connectionStatus` starts as `null`. It is modelled as
  `Option<string>` starting at `None`, so the first assignment always notifies.
- The cast `(DrsStatus)raw` is unchecked in C#. A code outside 0..3 gives a
  value that matches no `case` of the switch, so the tracked status and the cue
  log are unchanged. The tick still publishes "Connected", which can raise a
  notification. `FromRaw` returns `None` for such codes.
- The `NotAvailable` case assigns only when the status differs. That is the
  same as always assigning. `Advance` always assigns; `MainWindow.Tick` keeps
  the source's guard.
- The sleep is modelled as the delay value a tick returns (`Cadence`: 15 or
  1000), not as waiting.

## Model

| member | source | states |
|---|---|---|
| DrsTracker.Code | iDRS/MainWindow.xaml.cs:11-17 | every member's underlying value lies in 0..3, so the tracked status can only ever hold one of the four named codes |
| DrsTracker.FromRaw | iDRS/MainWindow.xaml.cs:98-100 | a raw code reaches a case of the switch exactly when it is in 0..3, and then it is the member with that code |
| DrsTracker.EntryCue | iDRS/MainWindow.xaml.cs:108-128 | the cue played on entering a status announces that status (`AnnouncedStatus` inverts it): a double beep for Approaching, a long beep for Enabled, a short beep for On, so distinct statuses get distinct cues |
| DrsTracker.CodeRoundTrip | iDRS/MainWindow.xaml.cs:11-17 | casting a member's code back gives that member |
| DrsTracker.Advance | iDRS/MainWindow.xaml.cs:100-129 | a cue plays exactly when the raw code is in 0..3 and one above the current code; then the status entered has that code and the cue is the one bound to it; with no cue, code 0 resets to NotAvailable and anything else leaves the status unchanged |
| DrsTracker.ResetFromAnyStatus | iDRS/MainWindow.xaml.cs:102-107 | observing NotAvailable sets NotAvailable from every status and plays nothing |
| DrsTracker.ForwardEdgesPlayTheirCue | iDRS/MainWindow.xaml.cs:108-128 | NotAvailable→Approaching plays a double beep, Approaching→Enabled a long beep, Enabled→On a short beep |
| DrsTracker.OutOfOrderIgnored | iDRS/MainWindow.xaml.cs:108-128 | a named nonzero status that is not the next step (repeat, skip such as NotAvailable→Enabled, or step back) leaves the status unchanged and plays nothing |
| DrsTracker.UnknownCodeIgnored | iDRS/MainWindow.xaml.cs:98-129 | a raw code outside 0..3 leaves the status unchanged and plays nothing |
| DrsTracker.RepeatIsNoop | iDRS/MainWindow.xaml.cs:100-129 | observing the current status again is a no-op |
| DrsTracker.ForwardOnly | iDRS/MainWindow.xaml.cs:100-129 | the tracked status either stays, resets to NotAvailable, or moves exactly one step forward |
| DrsTracker.CueIffForwardEdge | iDRS/MainWindow.xaml.cs:100-129 | a cue plays if and only if the step taken is a forward edge |
| DrsTracker.ObserveStep | iDRS/MainWindow.xaml.cs:92-129 | one iteration of the loop on the tracker (`Observe`): the cues already played are kept and at most one is added; one is added exactly when the iteration is connected and the status takes a forward edge, and it is the cue of the status entered; a disconnected iteration changes nothing; otherwise the status stays, resets or moves one step forward |
| DrsTracker.Replay | iDRS/MainWindow.xaml.cs:90-137 | a run of samples plays at most one cue per iteration |
| DrsTracker.CuesFollowForwardEdges | iDRS/MainWindow.xaml.cs:90-137 | over any run, the cues played are exactly one per forward edge the tracked status takes, the cue bound to the status entered, in order; so the number of beeps equals the number of accepted forward edges |
| DrsTracker.DisconnectedSampleInvisible | iDRS/MainWindow.xaml.cs:92-96 | inserting a disconnected iteration anywhere in a run changes neither the final status nor the cues, so a reconnect resumes from the last tracked status without a reset |
| DrsTracker.DisconnectedRunIsNoop | iDRS/MainWindow.xaml.cs:133-136 | a run that is never connected leaves the status as it was and plays nothing |
| DrsTracker.FullCycleScenario | iDRS/MainWindow.xaml.cs:100-129 | statuses 0,1,1,2,3,0 while connected play DoubleBeep, LongBeep, ShortBeep and end in NotAvailable |
| DrsTracker.Cadence | iDRS/MainWindow.xaml.cs:131-135 | the delay before the next iteration is 15 ms exactly when connected and 1000 ms exactly when not; it is always positive and at most 1000 ms |
| DrsTracker.Cadences | iDRS/MainWindow.xaml.cs:90-137 | a run sleeps one delay per iteration, each the cadence of that iteration's connectivity |
| DrsTracker.StatusText | iDRS/MainWindow.xaml.cs:94 | the text assigned is "Connected" or "Disconnected", and it is "Connected" exactly when the simulator is connected |
| DrsTracker.PublishStep | iDRS/MainWindow.xaml.cs:29-35 | an assignment of the property (`Publish`) leaves it holding the value, keeps the notifications raised before, and adds one naming ConnectionStatus exactly when the value differs from the one held |
| DrsTracker.PublishIdempotent | iDRS/MainWindow.xaml.cs:29-35 | assigning the same connection status twice is the same as assigning it once, and the property then holds the value |
| DrsTracker.PublishRun | iDRS/MainWindow.xaml.cs:94 | over a run, every notification names ConnectionStatus, there is at most one per iteration, and the property ends as the last iteration's "Connected"/"Disconnected" text (their exact number is given by NotificationsCountChanges) |
| DrsTracker.NotificationsCountChanges | iDRS/MainWindow.xaml.cs:29-35 | over any run, the number of notifications equals the number of iterations whose "Connected"/"Disconnected" text differs from the property's value just before them (the previous iteration's text, or the initial value for the first) |
| DrsTracker.SteadyConnectionNotifiesAtMostOnce | iDRS/MainWindow.xaml.cs:29-35 | while connectivity does not change, the property is notified once if it did not already hold that text and not at all if it did |
| IDrs.MainWindow.constructor | iDRS/MainWindow.xaml.cs:49-62 | the tracked status starts at NotAvailable, the property unset with no notifications, and the cue log holds the start-up double beep |
| IDrs.MainWindow.SetConnectionStatus | iDRS/MainWindow.xaml.cs:26-36 | an equal value changes nothing and raises no notification; a different value is stored and raises exactly one ConnectionStatus notification; nothing else changes |
| IDrs.MainWindow.Tick | iDRS/MainWindow.xaml.cs:90-137 | one iteration: it publishes "Connected" or "Disconnected" and returns delay 15 when connected, 1000 when not; a connected tick applies Advance and appends its cue; a disconnected tick leaves the status and cue log untouched |
| IDrs.MainWindow.Run | iDRS/MainWindow.xaml.cs:88-138 | the loop over a finite run: the status and the cue log end as Replay says, the property and its notifications as PublishRun says, and the delays as Cadences says |
| IDrs.FullCycleFromStartUp | iDRS/MainWindow.xaml.cs:51-62 | from start-up, statuses 0,1,1,2,3,0 while connected leave the cue log [DoubleBeep, DoubleBeep, LongBeep, ShortBeep], end in NotAvailable, raise one notification and poll at 15 ms throughout |

## Left out

- Audio playback (`PlayShortBeep`, `PlayLongBeep`, `PlayDoubleBeep` and the `On*PlaybackStopped` callbacks). These manage NAudio output devices and audio file readers, with float volumes. Each is modelled as appending one cue to the cue log. In the source a `Play*` call can throw (a missing asset file, no output device). Nothing in `Loop` catches it, so the background task faults and polling stops silently. In the model, appending a cue never fails.
- The iRacing SDK (`IsConnected`, `GetData("DRS_Status")`). It is an external telemetry library. Its answers are the `(connected, raw)` samples given to `Tick` and `Run`. A failing read is not modelled.
- Threading and timing (`Task.Run`, `Thread.Sleep`, the `Console.ReadLine` keep-alive). Only the delay value is kept, as data.
- WPF plumbing (`InitializeComponent`, `DataContext`, dispatch of the `PropertyChanged` event to handlers). A notification is the property name appended to a log, whether or not a handler is attached.
- IDrs.MainWindow.Run: models a finite prefix of the endless loop, so it says nothing about non-termination.
- The getter of `ConnectionStatus` is plain field access and has no member of its own.
