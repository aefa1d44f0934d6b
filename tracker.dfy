/** The DRS status tracker: the enumeration the telemetry feed is cast to, the
    forward-only transition rule that the poll loop applies to each sample, and
    the connection-status text that the loop publishes on every iteration. */
module DrsTracker {

  datatype Option<+T> = None | Some(value: T)

  /** The four DRS phases, in the order in which they legitimately follow each other. */
  datatype DrsStatus = NotAvailable | Approaching | Enabled | On

  /** The three audio alerts. */
  datatype Cue = ShortBeep | LongBeep | DoubleBeep

  /** The outcome of one observation: the status the tracker holds next and the
      cue (if any) that accepting it plays. */
  datatype Step = Step(next: DrsStatus, cue: Option<Cue>)

  /** One iteration of the poll loop as seen from outside: whether the
      simulator was connected and, if so, the raw DRS code it reported. */
  datatype Sample = Sample(connected: bool, raw: int)

  /** What a run of samples does to the tracker: the status it ends in and the
      cues it plays, in order. */
  datatype Outcome = Outcome(state: DrsStatus, cues: seq<Cue>)

  /** The connection-status property and the change notifications it has raised
      (by property name). The property starts unset. */
  datatype Published = Published(current: Option<string>, notifications: seq<string>)

  /** The underlying integer of each member. */
  function Code(s: DrsStatus): (c: int)
    ensures 0 <= c <= 3
  {
    match s
    case NotAvailable => 0
    case Approaching => 1
    case Enabled => 2
    case On => 3
  }

  /** The unchecked cast of a raw code to the enumeration, as the switch sees it:
      a code names a member exactly when it is one of the four underlying values;
      any other code reaches no case. */
  function FromRaw(raw: int): (r: Option<DrsStatus>)
    ensures r.Some? <==> 0 <= raw <= 3
    ensures r.Some? ==> Code(r.value) == raw
  {
    if raw == 0 then Some(NotAvailable)
    else if raw == 1 then Some(Approaching)
    else if raw == 2 then Some(Enabled)
    else if raw == 3 then Some(On)
    else None
  }

  lemma CodeRoundTrip(s: DrsStatus)
    ensures FromRaw(Code(s)) == Some(s)
  {
  }

  /** The status whose entry a cue announces. */
  function AnnouncedStatus(c: Cue): DrsStatus {
    match c
    case DoubleBeep => Approaching
    case LongBeep => Enabled
    case ShortBeep => On
  }

  /** The cue bound to entering a status; entering NotAvailable plays nothing.
      Each cue announces exactly one status, so distinct statuses have distinct cues. */
  function EntryCue(s: DrsStatus): (c: Cue)
    requires s != NotAvailable
    ensures AnnouncedStatus(c) == s
  {
    match s
    case Approaching => DoubleBeep
    case Enabled => LongBeep
    case On => ShortBeep
  }

  /** One step along NotAvailable -> Approaching -> Enabled -> On. */
  predicate IsForwardEdge(from: DrsStatus, to: DrsStatus) {
    Code(to) == Code(from) + 1
  }

  /** The switch in the poll loop, given the tracked status and the raw code read.
      Its contract characterises the rule by the codes alone: a cue plays exactly
      when the raw code is one above the current status's code, and then it is the
      cue of the status entered; otherwise code 0 resets and everything else is
      ignored. */
  function Advance(current: DrsStatus, raw: int): (r: Step)
    ensures r.cue.Some? <==> 0 <= raw <= 3 && raw == Code(current) + 1
    ensures r.cue.Some? ==> r.next != NotAvailable && Code(r.next) == raw && r.cue.value == EntryCue(r.next)
    ensures r.cue.None? ==> r.next == if raw == 0 then NotAvailable else current
  {
    match FromRaw(raw)
    case None => Step(current, None)
    case Some(NotAvailable) => Step(NotAvailable, None)
    case Some(Approaching) =>
      if current == NotAvailable then Step(Approaching, Some(DoubleBeep)) else Step(current, None)
    case Some(Enabled) =>
      if current == Approaching then Step(Enabled, Some(LongBeep)) else Step(current, None)
    case Some(On) =>
      if current == Enabled then Step(On, Some(ShortBeep)) else Step(current, None)
  }

  /** Code 0 resets from any status and plays nothing. */
  lemma ResetFromAnyStatus(current: DrsStatus)
    ensures Advance(current, 0) == Step(NotAvailable, None)
  {
  }

  /** The three accepted forward edges, each with its one cue. */
  lemma ForwardEdgesPlayTheirCue()
    ensures Advance(NotAvailable, 1) == Step(Approaching, Some(DoubleBeep))
    ensures Advance(Approaching, 2) == Step(Enabled, Some(LongBeep))
    ensures Advance(Enabled, 3) == Step(On, Some(ShortBeep))
  {
  }

  /** A named nonzero status that is not the next one along the sequence (a repeat,
      a skip or a step backwards) changes nothing. */
  lemma OutOfOrderIgnored(current: DrsStatus, raw: int)
    requires 1 <= raw <= 3 && raw != Code(current) + 1
    ensures Advance(current, raw) == Step(current, None)
  {
  }

  /** A raw code outside the enumeration matches no case and changes nothing. */
  lemma UnknownCodeIgnored(current: DrsStatus, raw: int)
    requires raw < 0 || 3 < raw
    ensures Advance(current, raw) == Step(current, None)
  {
  }

  /** Observing the current status again is a no-op. */
  lemma RepeatIsNoop(current: DrsStatus)
    ensures Advance(current, Code(current)) == Step(current, None)
  {
  }

  /** The tracked status only moves forward one step at a time, or resets. */
  lemma ForwardOnly(current: DrsStatus, raw: int)
    ensures var r := Advance(current, raw);
            r.next == current || r.next == NotAvailable || IsForwardEdge(current, r.next)
  {
  }

  /** A cue plays exactly when the step taken is a forward edge. */
  lemma CueIffForwardEdge(current: DrsStatus, raw: int)
    ensures var r := Advance(current, raw);
            r.cue.Some? <==> IsForwardEdge(current, r.next)
  {
  }

  function CueList(c: Option<Cue>): seq<Cue> {
    if c.Some? then [c.value] else []
  }

  /** One poll-loop iteration on the tracker: a disconnected sample is not read;
      a connected one goes through Advance and its cue is appended. */
  function Observe(o: Outcome, s: Sample): Outcome {
    if !s.connected then o
    else
      var step := Advance(o.state, s.raw);
      Outcome(step.next, o.cues + CueList(step.cue))
  }

  /** One iteration keeps the cues already played and adds at most one: one exactly
      when it is connected and the status takes a forward edge, and then the cue
      of the status entered. A disconnected iteration changes nothing, and the
      status otherwise stays, resets or moves one step forward. */
  lemma ObserveStep(o: Outcome, s: Sample)
    ensures var r := Observe(o, s);
            |o.cues| <= |r.cues| <= |o.cues| + 1 && r.cues[..|o.cues|] == o.cues
    ensures var r := Observe(o, s);
            |r.cues| == |o.cues| + 1 <==> s.connected && IsForwardEdge(o.state, r.state)
    ensures var r := Observe(o, s);
            |r.cues| == |o.cues| + 1 ==> r.state != NotAvailable && r.cues[|o.cues|] == EntryCue(r.state)
    ensures !s.connected ==> Observe(o, s) == o
    ensures var r := Observe(o, s);
            r.state == o.state || r.state == NotAvailable || IsForwardEdge(o.state, r.state)
  {
    if s.connected {
      CueIffForwardEdge(o.state, s.raw);
    }
  }

  /** Observe only appends to the cues already played. */
  lemma ObserveAppends(o: Outcome, played: seq<Cue>, s: Sample)
    ensures Observe(Outcome(o.state, played + o.cues), s)
            == Outcome(Observe(o, s).state, played + Observe(o, s).cues)
  {
  }

  /** The tracker after a finite run of samples, starting from status `start`;
      `cues` holds only the cues the run plays. At most one cue per sample. */
  function Replay(start: DrsStatus, samples: seq<Sample>): (r: Outcome)
    ensures |r.cues| <= |samples|
    decreases |samples|
  {
    if samples == [] then Outcome(start, [])
    else Observe(Replay(start, samples[..|samples| - 1]), samples[|samples| - 1])
  }

  /** Replaying one more sample of a run is one more Observe. */
  lemma ReplayExtend(start: DrsStatus, samples: seq<Sample>, i: nat)
    requires i < |samples|
    ensures Replay(start, samples[..i + 1]) == Observe(Replay(start, samples[..i]), samples[i])
  {
    assert samples[..i + 1][..i] == samples[..i];
  }

  /** The tracked status before the run and after each of its samples. */
  function Trace(start: DrsStatus, samples: seq<Sample>): (t: seq<DrsStatus>)
    ensures |t| == |samples| + 1
  {
    seq(|samples| + 1, i requires 0 <= i <= |samples| => Replay(start, samples[..i]).state)
  }

  /** The cues a trace of statuses calls for: one per forward edge in it, the cue
      of the status entered, in order. */
  function EdgeCues(t: seq<DrsStatus>): seq<Cue>
    decreases |t|
  {
    if |t| < 2 then []
    else
      var a, b := t[|t| - 2], t[|t| - 1];
      EdgeCues(t[..|t| - 1]) + (if IsForwardEdge(a, b) then [EntryCue(b)] else [])
  }

  /** Over any run, the cues played are exactly one per forward edge that the
      tracked status takes, in the order the edges are taken. */
  lemma {:induction false} CuesFollowForwardEdges(start: DrsStatus, samples: seq<Sample>)
    ensures Replay(start, samples).cues == EdgeCues(Trace(start, samples))
    decreases |samples|
  {
    if samples != [] {
      var n := |samples|;
      var prefix := samples[..n - 1];
      CuesFollowForwardEdges(start, prefix);
      var t := Trace(start, samples);
      assert t[..n] == Trace(start, prefix) by {
        forall i | 0 <= i <= n - 1
          ensures t[i] == Trace(start, prefix)[i]
        {
          assert samples[..i] == prefix[..i];
        }
      }
      assert samples[..n] == samples;
      var before := Replay(start, prefix).state;
      assert t[n - 1] == before;
      assert t[n] == Replay(start, samples).state;
      var last := samples[n - 1];
      if last.connected {
        CueIffForwardEdge(before, last.raw);
      }
    }
  }

  /** A disconnected iteration is invisible to the tracker: inserting one anywhere
      in a run changes neither the final status nor the cues. In particular a
      reconnect resumes from the last tracked status, without a reset. */
  lemma {:induction false} DisconnectedSampleInvisible(start: DrsStatus, before: seq<Sample>, raw: int, after: seq<Sample>)
    ensures Replay(start, before + [Sample(false, raw)] + after) == Replay(start, before + after)
    decreases |after|
  {
    var d := Sample(false, raw);
    if after == [] {
      assert (before + [d])[..|before|] == before;
      assert before + [d] + after == before + [d];
      assert before + after == before;
    } else {
      var m := |after|;
      var shorter := after[..m - 1];
      DisconnectedSampleInvisible(start, before, raw, shorter);
      var full := before + [d] + after;
      assert full[..|full| - 1] == before + [d] + shorter;
      assert full[|full| - 1] == after[m - 1];
      var joined := before + after;
      assert joined[..|joined| - 1] == before + shorter;
      assert joined[|joined| - 1] == after[m - 1];
    }
  }

  /** A run in which the simulator is never connected leaves the tracker as it was. */
  lemma {:induction false} DisconnectedRunIsNoop(start: DrsStatus, samples: seq<Sample>)
    requires forall i :: 0 <= i < |samples| ==> !samples[i].connected
    ensures Replay(start, samples) == Outcome(start, [])
    decreases |samples|
  {
    if samples != [] {
      DisconnectedRunIsNoop(start, samples[..|samples| - 1]);
    }
  }

  /** The status sequence NotAvailable, Approaching, Approaching, Enabled, On,
      NotAvailable fed while connected plays the three cues once each and ends in
      NotAvailable. */
  lemma FullCycleScenario()
    ensures Replay(NotAvailable, [Sample(true, 0), Sample(true, 1), Sample(true, 1),
                                  Sample(true, 2), Sample(true, 3), Sample(true, 0)])
            == Outcome(NotAvailable, [DoubleBeep, LongBeep, ShortBeep])
  {
    var s := [Sample(true, 0), Sample(true, 1), Sample(true, 1),
              Sample(true, 2), Sample(true, 3), Sample(true, 0)];
    assert s[..0] == [];
    ReplayExtend(NotAvailable, s, 0);
    assert Replay(NotAvailable, s[..1]) == Outcome(NotAvailable, []);
    ReplayExtend(NotAvailable, s, 1);
    assert Replay(NotAvailable, s[..2]) == Outcome(Approaching, [DoubleBeep]);
    ReplayExtend(NotAvailable, s, 2);
    assert Replay(NotAvailable, s[..3]) == Outcome(Approaching, [DoubleBeep]);
    ReplayExtend(NotAvailable, s, 3);
    assert Replay(NotAvailable, s[..4]) == Outcome(Enabled, [DoubleBeep, LongBeep]);
    ReplayExtend(NotAvailable, s, 4);
    assert Replay(NotAvailable, s[..5]) == Outcome(On, [DoubleBeep, LongBeep, ShortBeep]);
    ReplayExtend(NotAvailable, s, 5);
    assert s[..6] == s;
  }

  /** The delay before the next iteration, in milliseconds: the fine 15 ms
      cadence while connected, the coarse 1000 ms one while not. */
  function Cadence(connected: bool): (d: int)
    ensures 0 < d <= 1000
    ensures connected <==> d == 15
    ensures !connected <==> d == 1000
  {
    if connected then 15 else 1000
  }

  /** The delays a run sleeps, one per iteration, each following that iteration's
      connectivity. */
  function Cadences(samples: seq<Sample>): (r: seq<int>)
    ensures |r| == |samples|
    ensures forall i :: 0 <= i < |samples| ==> r[i] == Cadence(samples[i].connected)
    decreases |samples|
  {
    if samples == [] then []
    else Cadences(samples[..|samples| - 1]) + [Cadence(samples[|samples| - 1].connected)]
  }

  /** One more iteration of a run sleeps one more delay. */
  lemma CadencesExtend(samples: seq<Sample>, i: nat)
    requires i < |samples|
    ensures Cadences(samples[..i + 1]) == Cadences(samples[..i]) + [Cadence(samples[i].connected)]
  {
    assert samples[..i + 1][..i] == samples[..i];
  }

  /** The text the loop assigns to the connection-status property; the two
      connectivity states are told apart by it. */
  function StatusText(connected: bool): (t: string)
    ensures t == "Connected" || t == "Disconnected"
    ensures connected <==> t == "Connected"
  {
    if connected then "Connected" else "Disconnected"
  }

  /** Assigning the connection-status property: an equal value is dropped without
      a notification; a different one is stored and raises one notification. */
  function Publish(p: Published, value: string): Published {
    if p.current == Some(value) then p
    else Published(Some(value), p.notifications + ["ConnectionStatus"])
  }

  /** After an assignment the property holds the value; the notifications raised
      before are kept, and one more, naming the property, is raised exactly when
      the value differs from the one held. */
  lemma PublishStep(p: Published, value: string)
    ensures Publish(p, value).current == Some(value)
    ensures var r := Publish(p, value);
            |r.notifications| == |p.notifications| + (if p.current == Some(value) then 0 else 1)
            && r.notifications[..|p.notifications|] == p.notifications
    ensures var r := Publish(p, value);
            forall i :: |p.notifications| <= i < |r.notifications| ==> r.notifications[i] == "ConnectionStatus"
  {
  }

  /** Publish only appends to the notifications already raised. */
  lemma PublishAppends(p: Published, raised: seq<string>, value: string)
    ensures Publish(Published(p.current, raised + p.notifications), value)
            == Published(Publish(p, value).current, raised + Publish(p, value).notifications)
  {
  }

  /** Assigning the same value twice is the same as assigning it once. */
  lemma PublishIdempotent(p: Published, value: string)
    ensures Publish(Publish(p, value), value) == Publish(p, value)
    ensures Publish(p, value).current == Some(value)
  {
  }

  /** The connection-status property over a run, starting from `prev` and with no
      notifications; every notification names the property, there is at most one
      per iteration, and the property ends as the last iteration's text. */
  function PublishRun(prev: Option<string>, samples: seq<Sample>): (r: Published)
    ensures |r.notifications| <= |samples|
    ensures forall i :: 0 <= i < |r.notifications| ==> r.notifications[i] == "ConnectionStatus"
    ensures samples != [] ==> r.current == Some(StatusText(samples[|samples| - 1].connected))
    ensures samples == [] ==> r.current == prev
    decreases |samples|
  {
    if samples == [] then Published(prev, [])
    else Publish(PublishRun(prev, samples[..|samples| - 1]), StatusText(samples[|samples| - 1].connected))
  }

  /** Publishing one more sample of a run is one more assignment of the property. */
  lemma PublishRunExtend(prev: Option<string>, samples: seq<Sample>, i: nat)
    requires i < |samples|
    ensures PublishRun(prev, samples[..i + 1]) == Publish(PublishRun(prev, samples[..i]), StatusText(samples[i].connected))
  {
    assert samples[..i + 1][..i] == samples[..i];
  }

  /** The property's value just before iteration `i` of a run: `prev` before the
      first one, otherwise the text published by the one before. */
  function ValueBefore(prev: Option<string>, samples: seq<Sample>, i: nat): Option<string>
    requires i < |samples|
  {
    if i == 0 then prev else Some(StatusText(samples[i - 1].connected))
  }

  /** The number of iterations of a run whose text differs from the property's
      value just before them. */
  function Changes(prev: Option<string>, samples: seq<Sample>): nat
    decreases |samples|
  {
    if samples == [] then 0
    else
      var n := |samples|;
      Changes(prev, samples[..n - 1])
        + (if ValueBefore(prev, samples, n - 1) != Some(StatusText(samples[n - 1].connected)) then 1 else 0)
  }

  /** Over any run, one notification is raised per iteration whose text differs
      from the property's value just before it, and none for the others. */
  lemma {:induction false} NotificationsCountChanges(prev: Option<string>, samples: seq<Sample>)
    ensures |PublishRun(prev, samples).notifications| == Changes(prev, samples)
    decreases |samples|
  {
    var n := |samples|;
    if n > 0 {
      var prefix := samples[..n - 1];
      NotificationsCountChanges(prev, prefix);
      if n > 1 {
        assert prefix[|prefix| - 1] == samples[n - 2];
      }
    }
  }

  /** While connectivity does not change, the property is notified at most once:
      once if it did not already hold that text, not at all if it did. */
  lemma {:induction false} SteadyConnectionNotifiesAtMostOnce(prev: Option<string>, samples: seq<Sample>, connected: bool)
    requires samples != []
    requires forall i :: 0 <= i < |samples| ==> samples[i].connected == connected
    ensures PublishRun(prev, samples).notifications
            == if prev == Some(StatusText(connected)) then [] else ["ConnectionStatus"]
    decreases |samples|
  {
    var n := |samples|;
    if n > 1 {
      SteadyConnectionNotifiesAtMostOnce(prev, samples[..n - 1], connected);
    } else {
      assert samples[..0] == [];
    }
  }
}
