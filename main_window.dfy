/** The window that owns the tracked DRS status, runs the poll loop and
    publishes the connection status to its display binding. Cues are appended to
    a log instead of being played, and change notifications are appended to a
    log by property name instead of being dispatched. */
module IDrs {
  import opened DrsTracker

  class MainWindow {
    var connectionStatus: Option<string>
    var notifications: seq<string>
    var drsStatus: DrsStatus
    var cues: seq<Cue>

    /** The tracked status starts at NotAvailable, the connection status unset; the
        start-up double beep is the first entry of the cue log. */
    constructor ()
      ensures drsStatus == NotAvailable && cues == [DoubleBeep]
      ensures connectionStatus == None && notifications == []
    {
      drsStatus := NotAvailable;
      connectionStatus := None;
      notifications := [];
      cues := [DoubleBeep];
    }

    /** The connection-status setter: an equal value changes nothing and raises no
        notification; a different one is stored and raises exactly one. */
    method SetConnectionStatus(value: string)
      modifies this`connectionStatus, this`notifications
      ensures Published(connectionStatus, notifications)
              == Publish(Published(old(connectionStatus), old(notifications)), value)
      ensures old(connectionStatus) == Some(value) ==>
                connectionStatus == old(connectionStatus) && notifications == old(notifications)
      ensures old(connectionStatus) != Some(value) ==>
                connectionStatus == Some(value) && notifications == old(notifications) + ["ConnectionStatus"]
    {
      if connectionStatus == Some(value) {
        return;
      }
      connectionStatus := Some(value);
      notifications := notifications + ["ConnectionStatus"];
    }

    /** One iteration of the poll loop. The raw code is only consulted when
        connected; a disconnected iteration leaves the tracker and the cue log as
        they were. Returns the delay before the next iteration. */
    method Tick(connected: bool, raw: int) returns (delay: int)
      modifies this
      ensures delay == Cadence(connected)
      ensures Published(connectionStatus, notifications)
              == Publish(Published(old(connectionStatus), old(notifications)), StatusText(connected))
      ensures Outcome(drsStatus, cues) == Observe(Outcome(old(drsStatus), old(cues)), Sample(connected, raw))
      ensures !connected ==> drsStatus == old(drsStatus) && cues == old(cues)
      ensures connected ==> drsStatus == Advance(old(drsStatus), raw).next
      ensures connected ==> cues == old(cues) + CueList(Advance(old(drsStatus), raw).cue)
    {
      SetConnectionStatus(StatusText(connected));
      if connected {
        var newStatus := FromRaw(raw);
        match newStatus {
          case None =>
          case Some(NotAvailable) =>
            if drsStatus != NotAvailable {
              drsStatus := NotAvailable;
            }
          case Some(Approaching) =>
            if drsStatus == NotAvailable {
              drsStatus := Approaching;
              cues := cues + [DoubleBeep];
            }
          case Some(Enabled) =>
            if drsStatus == Approaching {
              drsStatus := Enabled;
              cues := cues + [LongBeep];
            }
          case Some(On) =>
            if drsStatus == Enabled {
              drsStatus := On;
              cues := cues + [ShortBeep];
            }
        }
        delay := 15;
      } else {
        delay := 1000;
      }
    }

    /** The poll loop over a finite run of samples: the tracker and the cue log end
        as Replay says, the connection status as PublishRun says, and the delays
        as Cadences says: one per iteration, following its connectivity. */
    method Run(samples: seq<Sample>) returns (delays: seq<int>)
      modifies this
      ensures drsStatus == Replay(old(drsStatus), samples).state
      ensures cues == old(cues) + Replay(old(drsStatus), samples).cues
      ensures connectionStatus == PublishRun(old(connectionStatus), samples).current
      ensures notifications == old(notifications) + PublishRun(old(connectionStatus), samples).notifications
      ensures delays == Cadences(samples)
    {
      ghost var start, cues0 := drsStatus, cues;
      ghost var prev, notes0 := connectionStatus, notifications;
      delays := [];
      var i := 0;
      while i < |samples|
        invariant 0 <= i <= |samples|
        invariant drsStatus == Replay(start, samples[..i]).state
        invariant cues == cues0 + Replay(start, samples[..i]).cues
        invariant connectionStatus == PublishRun(prev, samples[..i]).current
        invariant notifications == notes0 + PublishRun(prev, samples[..i]).notifications
        invariant delays == Cadences(samples[..i])
      {
        ReplayExtend(start, samples, i);
        PublishRunExtend(prev, samples, i);
        CadencesExtend(samples, i);
        ObserveAppends(Replay(start, samples[..i]), cues0, samples[i]);
        PublishAppends(PublishRun(prev, samples[..i]), notes0, StatusText(samples[i].connected));
        var d := Tick(samples[i].connected, samples[i].raw);
        delays := delays + [d];
        i := i + 1;
      }
      assert samples[..i] == samples;
    }
  }

  /** From start-up, the status sequence NotAvailable, Approaching, Approaching,
      Enabled, On, NotAvailable fed while connected leaves the start-up double beep
      followed by one cue per forward edge in the cue log, ends in NotAvailable,
      raises one connection-status notification and polls at the connected cadence. */
  method FullCycleFromStartUp() returns (cues: seq<Cue>, status: DrsStatus, notifications: seq<string>, delays: seq<int>)
    ensures cues == [DoubleBeep, DoubleBeep, LongBeep, ShortBeep]
    ensures status == NotAvailable
    ensures notifications == ["ConnectionStatus"]
    ensures delays == [15, 15, 15, 15, 15, 15]
  {
    var window := new MainWindow();
    var samples := [Sample(true, 0), Sample(true, 1), Sample(true, 1),
                    Sample(true, 2), Sample(true, 3), Sample(true, 0)];
    delays := window.Run(samples);
    FullCycleScenario();
    SteadyConnectionNotifiesAtMostOnce(None, samples, true);
    cues, status, notifications := window.cues, window.drsStatus, window.notifications;
  }
}
