/** The debounce rule of the processing loop: a detection fires only when the
    target confidence is strictly above the threshold AND strictly more than
    the cooldown has passed since the last detection. Times are
    seconds on the clock `time.time()` reads, as reals. */
module Debounce {
  import opened Wrappers

  /** A `time.time()` reading, or a duration, in seconds. */
  type Time = real

  /** A fired detection: the triggering confidence and the clock reading. */
  datatype Event = Event(confidence: real, time: Time)

  /** One target-class confidence together with the clock reading taken
      right after it was scored. */
  datatype Reading = Reading(confidence: real, time: Time)

  /** `threshold`, `detection_cooldown` and `last_detection_time`. */
  datatype Detector = Detector(threshold: real, cooldown: Time, lastDetection: Time)

  /** The detector after one check, and the event that check fired, if any. */
  datatype Observation = Observation(detector: Detector, event: Option<Event>)

  /** The detector after a sequence of checks, and the events fired, in order. */
  datatype History = History(detector: Detector, events: seq<Event>)

  /** The detector of a freshly constructed spotter: no detection yet,
      `last_detection_time = 0`. */
  function InitialDetector(threshold: real, cooldown: Time): (d: Detector)
    ensures d.threshold == threshold && d.cooldown == cooldown
    ensures d.lastDetection == 0.0
  {
    Detector(threshold, cooldown, 0.0)
  }

  /** One check of the rule. It fires iff both strict inequalities hold; firing
      records the clock reading, and not firing leaves the detector unchanged. */
  function Observe(d: Detector, r: Reading): (out: Observation)
    ensures out.event.Some? <==> r.confidence > d.threshold && r.time - d.lastDetection > d.cooldown
    ensures out.event.Some? ==> && out.event.value == Event(r.confidence, r.time)
                                && out.detector == d.(lastDetection := r.time)
    ensures out.event.None? ==> out.detector == d
  {
    if r.confidence > d.threshold && r.time - d.lastDetection > d.cooldown then
      Observation(d.(lastDetection := r.time), Some(Event(r.confidence, r.time)))
    else
      Observation(d, None)
  }

  /** The detector after a sequence of readings, and the events fired, in order. */
  function Replay(d: Detector, readings: seq<Reading>): (out: History)
    ensures |out.events| <= |readings|
    ensures out.detector.threshold == d.threshold && out.detector.cooldown == d.cooldown
    decreases |readings|
  {
    if |readings| == 0 then History(d, [])
    else
      var prev := Replay(d, readings[..|readings| - 1]);
      var step := Observe(prev.detector, readings[|readings| - 1]);
      History(step.detector, prev.events + (if step.event.Some? then [step.event.value] else []))
  }

  /** Consecutive events are more than `cooldown` apart, and the first is more
      than `cooldown` after `start`. */
  ghost predicate ChainSpaced(events: seq<Event>, start: Time, cooldown: Time) {
    && (|events| > 0 ==> events[0].time - start > cooldown)
    && forall i :: 0 < i < |events| ==> events[i].time - events[i - 1].time > cooldown
  }

  /** Any two events are more than `cooldown` apart. */
  ghost predicate Spaced(events: seq<Event>, cooldown: Time) {
    forall i, j :: 0 <= i < j < |events| ==> events[j].time - events[i].time > cooldown
  }

  /** The recorded last detection is the time of the last event, or the
      starting value when nothing fired; and the events are chained. */
  lemma {:induction false} ReplayChain(d: Detector, readings: seq<Reading>)
    ensures var out := Replay(d, readings);
      && out.detector.lastDetection == (if |out.events| == 0 then d.lastDetection else out.events[|out.events| - 1].time)
      && ChainSpaced(out.events, d.lastDetection, d.cooldown)
    decreases |readings|
  {
    if |readings| > 0 {
      var prev := Replay(d, readings[..|readings| - 1]);
      ReplayChain(d, readings[..|readings| - 1]);
      var step := Observe(prev.detector, readings[|readings| - 1]);
      if step.event.Some? {
        var events := prev.events + [step.event.value];
        assert Replay(d, readings) == History(step.detector, events);
        assert step.event.value.time - prev.detector.lastDetection > d.cooldown;
        forall i | 0 < i < |events|
          ensures events[i].time - events[i - 1].time > d.cooldown
        {
          if i < |prev.events| {
            assert events[i] == prev.events[i] && events[i - 1] == prev.events[i - 1];
          }
        }
      } else {
        assert Replay(d, readings) == History(prev.detector, prev.events + []);
        assert prev.events + [] == prev.events;
      }
    }
  }

  /** With a non-negative cooldown, chained spacing gives spacing of every pair:
      the gaps add up. */
  lemma {:induction false} ChainIsSpaced(events: seq<Event>, start: Time, cooldown: Time)
    requires cooldown >= 0.0
    requires ChainSpaced(events, start, cooldown)
    ensures Spaced(events, cooldown)
  {
    forall i, j | 0 <= i < j < |events|
      ensures events[j].time - events[i].time > cooldown
    {
      GapGrows(events, start, cooldown, i, j);
    }
  }

  lemma {:induction false} GapGrows(events: seq<Event>, start: Time, cooldown: Time, i: nat, j: nat)
    requires cooldown >= 0.0
    requires ChainSpaced(events, start, cooldown)
    requires i < j < |events|
    ensures events[j].time - events[i].time > cooldown
    decreases j - i
  {
    if j > i + 1 {
      GapGrows(events, start, cooldown, i, j - 1);
      assert events[j].time - events[j - 1].time > cooldown;
    }
  }

  /** No two detections are ever `cooldown` or less apart, whatever the
      confidences and clock readings, and the first comes more than `cooldown`
      after the starting `last_detection_time`. */
  lemma ReplaySpaced(d: Detector, readings: seq<Reading>)
    requires d.cooldown >= 0.0
    ensures Spaced(Replay(d, readings).events, d.cooldown)
    ensures |Replay(d, readings).events| > 0 ==> Replay(d, readings).events[0].time - d.lastDetection > d.cooldown
  {
    ReplayChain(d, readings);
    ChainIsSpaced(Replay(d, readings).events, d.lastDetection, d.cooldown);
  }

  /** Every event carries a confidence strictly above the threshold, and is one
      of the readings. */
  lemma {:induction false} ReplayEventsFromReadings(d: Detector, readings: seq<Reading>)
    ensures forall e :: e in Replay(d, readings).events ==>
      e.confidence > d.threshold && Reading(e.confidence, e.time) in readings
    decreases |readings|
  {
    if |readings| > 0 {
      var init := readings[..|readings| - 1];
      ReplayEventsFromReadings(d, init);
      forall e | e in Replay(d, init).events
        ensures Reading(e.confidence, e.time) in readings
      {
        assert Reading(e.confidence, e.time) in init;
      }
    }
  }

  /** A stream that never rises above the threshold never fires. */
  lemma QuietStreamNeverFires(d: Detector, readings: seq<Reading>)
    requires forall i :: 0 <= i < |readings| ==> readings[i].confidence <= d.threshold
    ensures Replay(d, readings).events == []
  {
  }

  /** Confidences 0.9, 0.8 and 0.95 arriving 0 s, 0.5 s and 1.2 s after a
      wall-clock instant `t0`, with threshold 0.7 and a 1.0 s cooldown: the
      first and the third fire, the second is suppressed. */
  lemma ScenarioWallClock(t0: Time)
    requires t0 > 1.0
    ensures Replay(InitialDetector(0.7, 1.0),
                   [Reading(0.9, t0), Reading(0.8, t0 + 0.5), Reading(0.95, t0 + 1.2)]).events
            == [Event(0.9, t0), Event(0.95, t0 + 1.2)]
  {
    var d0 := InitialDetector(0.7, 1.0);
    var rs := [Reading(0.9, t0), Reading(0.8, t0 + 0.5), Reading(0.95, t0 + 1.2)];
    assert rs[..1][..0] == [] && rs[..1][0] == rs[0];
    assert Replay(d0, rs[..1][..0]) == History(d0, []);
    assert Observe(d0, rs[0]) == Observation(d0.(lastDetection := t0), Some(Event(0.9, t0)));
    assert [] + [Event(0.9, t0)] == [Event(0.9, t0)];
    assert Replay(d0, rs[..1]) == History(d0.(lastDetection := t0), [Event(0.9, t0)]);
    assert rs[..2][..1] == rs[..1] && rs[..2][1] == rs[1];
    assert Observe(d0.(lastDetection := t0), rs[1]).event == None;
    assert [Event(0.9, t0)] + [] == [Event(0.9, t0)];
    assert Replay(d0, rs[..2]) == History(d0.(lastDetection := t0), [Event(0.9, t0)]);
    assert rs[..3][..2] == rs[..2] && rs[..3] == rs;
  }

  /** Because `last_detection_time` starts at 0 rather than "never", a clock
      that itself starts at 0 suppresses everything in the first cooldown: the
      same confidences at 0 s, 0.5 s and 1.2 s fire only once, at 1.2 s. */
  lemma ScenarioClockFromZero()
    ensures Replay(InitialDetector(0.7, 1.0),
                   [Reading(0.9, 0.0), Reading(0.8, 0.5), Reading(0.95, 1.2)]).events
            == [Event(0.95, 1.2)]
  {
    var d0 := InitialDetector(0.7, 1.0);
    var rs := [Reading(0.9, 0.0), Reading(0.8, 0.5), Reading(0.95, 1.2)];
    assert rs[..1][..0] == [];
    assert Replay(d0, rs[..1]) == History(d0, []);
    assert rs[..2][..1] == rs[..1];
    assert Replay(d0, rs[..2]) == History(d0, []);
    assert rs[..3][..2] == rs[..2] && rs[..3] == rs;
  }

  /** The gap is compared as `time.time()` gives it, below a millisecond:
      readings 1.0004 s apart are more than the 1.0 s cooldown apart, and the
      second fires. */
  lemma SubMillisecondGap()
    ensures Observe(Detector(0.7, 1.0, 0.0004), Reading(0.9, 1.0008)).event == Some(Event(0.9, 1.0008))
  {
  }
}
