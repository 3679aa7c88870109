/** The processing loop run over a whole sequence of queue outcomes, and what
    it guarantees over every such sequence. */
module Worker {
  import opened Wrappers
  import opened RollingBuffer
  import opened Window
  import opened Debounce
  import opened Spotter

  /** The state after the loop's passes, and one report per pass. */
  datatype Trace = Trace(spotter: Spotter, reports: seq<Report>)

  /** The loop's passes over `inputs`, in order. */
  function Run(sp0: Spotter, score: Classifier, inputs: seq<Input>): (t: Trace)
    requires Valid(sp0)
    ensures Valid(t.spotter) && t.spotter.cfg == sp0.cfg && t.spotter.classId == sp0.classId
    ensures |t.reports| == |inputs|
    decreases |inputs|
  {
    if |inputs| == 0 then Trace(sp0, [])
    else
      var prev := Run(sp0, score, inputs[..|inputs| - 1]);
      var step := Step(prev.spotter, score, inputs[|inputs| - 1]);
      Trace(step.spotter, prev.reports + [step.report])
  }

  /** All captured samples, in capture order: the chunks' concatenation. */
  function Stream(inputs: seq<Input>): (s: seq<Sample>)
    decreases |inputs|
  {
    if |inputs| == 0 then []
    else Stream(inputs[..|inputs| - 1]) + SamplesOf(inputs[|inputs| - 1])
  }

  function SamplesOf(input: Input): seq<Sample> {
    if input.Frame? then input.samples else []
  }

  /** The target readings the loop obtained, in order. */
  function Readings(reports: seq<Report>): seq<Reading>
    decreases |reports|
  {
    if |reports| == 0 then []
    else
      var last := reports[|reports| - 1];
      Readings(reports[..|reports| - 1]) + (if last.reading.Some? then [last.reading.value] else [])
  }

  /** The events the loop fired, in order. */
  function Events(reports: seq<Report>): seq<Event>
    decreases |reports|
  {
    if |reports| == 0 then []
    else
      var last := reports[|reports| - 1];
      Events(reports[..|reports| - 1]) + (if last.event.Some? then [last.event.value] else [])
  }

  /** A shorter run is a prefix of a longer one: later input never changes
      what was already reported. */
  lemma {:induction false} RunPrefix(sp0: Spotter, score: Classifier, inputs: seq<Input>, k: nat)
    requires Valid(sp0)
    requires k <= |inputs|
    ensures Run(sp0, score, inputs[..k]).reports == Run(sp0, score, inputs).reports[..k]
    decreases |inputs|
  {
    if k < |inputs| {
      var init := inputs[..|inputs| - 1];
      RunPrefix(sp0, score, init, k);
      assert init[..k] == inputs[..k];
      assert Run(sp0, score, inputs).reports[..|inputs| - 1] == Run(sp0, score, init).reports;
    } else {
      assert inputs[..k] == inputs;
    }
  }

  /** The buffer only ever holds the newest samples of what was captured,
      starting from what it held before the run. */
  lemma {:induction false} BufferIsSuffixOfStream(sp0: Spotter, score: Classifier, inputs: seq<Input>)
    requires Valid(sp0)
    ensures IsSuffix(Run(sp0, score, inputs).spotter.buffer, sp0.buffer + Stream(inputs))
    decreases |inputs|
  {
    if |inputs| == 0 {
      assert sp0.buffer + Stream(inputs) == sp0.buffer;
    } else {
      var init := inputs[..|inputs| - 1];
      var input := inputs[|inputs| - 1];
      var prev := Run(sp0, score, init).spotter;
      var next := Step(prev, score, input).spotter;
      assert Run(sp0, score, inputs).spotter == next;
      BufferIsSuffixOfStream(sp0, score, init);
      SuffixAppend(prev.buffer, sp0.buffer + Stream(init), SamplesOf(input));
      assert Stream(inputs) == Stream(init) + SamplesOf(input);
      AppendAssociative(sp0.buffer, Stream(init), SamplesOf(input));
      if input.Frame? {
        SuffixTransitive(next.buffer, prev.buffer + input.samples, sp0.buffer + Stream(inputs));
      } else {
        assert prev.buffer + SamplesOf(input) == prev.buffer;
      }
    }
  }

  /** The window of the last pass, when it took one, is exactly the newest
      `chunkSize` samples of everything captured so far. */
  lemma LastWindowIsNewestOfStream(sp0: Spotter, score: Classifier, inputs: seq<Input>)
    requires Valid(sp0)
    requires |inputs| > 0
    ensures var w := Run(sp0, score, inputs).reports[|inputs| - 1].window;
            w.Some? ==> |w.value| == sp0.cfg.chunkSize
                        && w.value == Newest(sp0.buffer + Stream(inputs), sp0.cfg.chunkSize)
  {
    var init := inputs[..|inputs| - 1];
    var input := inputs[|inputs| - 1];
    var prev := Run(sp0, score, init).spotter;
    var step := Step(prev, score, input);
    var w := step.report.window;
    assert Run(sp0, score, inputs).reports[|inputs| - 1] == step.report;
    if w.Some? {
      var u := prev.buffer + input.samples;
      assert w.value == Newest(u, sp0.cfg.chunkSize) && |u| >= sp0.cfg.chunkSize;
      BufferIsSuffixOfStream(sp0, score, init);
      SuffixAppend(prev.buffer, sp0.buffer + Stream(init), input.samples);
      assert Stream(inputs) == Stream(init) + input.samples;
      AppendAssociative(sp0.buffer, Stream(init), input.samples);
      NewestOfLongSuffix(u, sp0.buffer + Stream(inputs), sp0.cfg.chunkSize);
    }
  }

  /** Every window the loop scores is exactly `chunkSize` long and is the
      newest `chunkSize` samples captured up to that pass. */
  lemma WindowsAreNewestOfStream(sp0: Spotter, score: Classifier, inputs: seq<Input>, i: nat)
    requires Valid(sp0)
    requires i < |inputs|
    ensures var w := Run(sp0, score, inputs).reports[i].window;
            w.Some? ==> |w.value| == sp0.cfg.chunkSize
                        && w.value == Newest(sp0.buffer + Stream(inputs[..i + 1]), sp0.cfg.chunkSize)
  {
    RunPrefix(sp0, score, inputs, i + 1);
    LastWindowIsNewestOfStream(sp0, score, inputs[..i + 1]);
  }

  /** From a state whose buffer holds at most `overlapSize` samples (a fresh
      spotter, or any spotter right after a pass that scored a window without
      faulting), no window is scored before at least `chunkSize - overlapSize`
      new samples have arrived: after such a pass, the next window advances by
      at least that step. */
  lemma WindowsAdvanceByStep(sp0: Spotter, score: Classifier, inputs: seq<Input>)
    requires Valid(sp0)
    requires |sp0.buffer| <= sp0.cfg.overlapSize
    requires |inputs| > 0
    requires Run(sp0, score, inputs).reports[|inputs| - 1].window.Some?
    ensures |Stream(inputs)| >= sp0.cfg.chunkSize - sp0.cfg.overlapSize
  {
    var init := inputs[..|inputs| - 1];
    var input := inputs[|inputs| - 1];
    var prev := Run(sp0, score, init).spotter;
    BufferIsSuffixOfStream(sp0, score, init);
    assert |Stream(inputs)| == |Stream(init)| + |input.samples|;
    assert |prev.buffer + input.samples| >= sp0.cfg.chunkSize;
  }

  /** The loop's events are exactly what the debounce rule fires on its
      successful readings, starting from the spotter's `last_detection_time`;
      and the final `last_detection_time` is the debouncer's. */
  lemma {:induction false} RunDebounces(sp0: Spotter, score: Classifier, inputs: seq<Input>)
    requires Valid(sp0)
    ensures var t := Run(sp0, score, inputs);
            var replay := Replay(DetectorOf(sp0), Readings(t.reports));
            Events(t.reports) == replay.events && DetectorOf(t.spotter) == replay.detector
    decreases |inputs|
  {
    if |inputs| > 0 {
      var init := inputs[..|inputs| - 1];
      var prev := Run(sp0, score, init);
      RunDebounces(sp0, score, init);
      var step := Step(prev.spotter, score, inputs[|inputs| - 1]);
      var t := Run(sp0, score, inputs);
      assert t == Trace(step.spotter, prev.reports + [step.report]);
      assert t.reports[..|t.reports| - 1] == prev.reports;
      var d0 := DetectorOf(sp0);
      var rs := Readings(prev.reports);
      var before := Replay(d0, rs);
      if step.report.reading.Some? {
        var rs' := rs + [step.report.reading.value];
        assert Readings(t.reports) == rs';
        assert rs'[..|rs'| - 1] == rs;
        var observed := Observe(before.detector, step.report.reading.value);
        assert Replay(d0, rs') == History(observed.detector, before.events + (if observed.event.Some? then [observed.event.value] else []));
        assert Observation(DetectorOf(step.spotter), step.report.event) == observed;
      } else {
        assert Readings(t.reports) == rs;
        assert step.report.event.None? && DetectorOf(step.spotter) == DetectorOf(prev.spotter);
      }
    }
  }

  /** Whatever the audio, the classifier and the clock readings, any two
      events of a run are more than the cooldown apart, and each carries a
      confidence strictly above the threshold. */
  lemma EventsAreDebounced(sp0: Spotter, score: Classifier, inputs: seq<Input>)
    requires Valid(sp0)
    ensures var evs := Events(Run(sp0, score, inputs).reports);
            && Spaced(evs, sp0.cfg.cooldown)
            && (|evs| > 0 ==> evs[0].time - sp0.lastDetection > sp0.cfg.cooldown)
            && forall e :: e in evs ==> e.confidence > sp0.cfg.threshold
  {
    var t := Run(sp0, score, inputs);
    RunDebounces(sp0, score, inputs);
    ReplaySpaced(DetectorOf(sp0), Readings(t.reports));
    ReplayEventsFromReadings(DetectorOf(sp0), Readings(t.reports));
  }

  /** While fewer than `chunkSize` samples are available, every pass is idle
      and the buffer is the old contents followed by every captured sample:
      nothing is lost and nothing is scored. */
  lemma {:induction false} ShortStreamTakesNoWindow(sp0: Spotter, score: Classifier, inputs: seq<Input>)
    requires Valid(sp0)
    requires |sp0.buffer| + |Stream(inputs)| < sp0.cfg.chunkSize
    ensures forall i :: 0 <= i < |inputs| ==> Run(sp0, score, inputs).reports[i] == Idle
    ensures Run(sp0, score, inputs).spotter == sp0.(buffer := sp0.buffer + Stream(inputs))
    decreases |inputs|
  {
    if |inputs| == 0 {
      assert sp0.buffer + Stream(inputs) == sp0.buffer;
    } else {
      var init := inputs[..|inputs| - 1];
      var input := inputs[|inputs| - 1];
      assert |Stream(inputs)| == |Stream(init)| + |SamplesOf(input)|;
      ShortStreamTakesNoWindow(sp0, score, init);
      AppendAssociative(sp0.buffer, Stream(init), SamplesOf(input));
      var prev := Run(sp0, score, init);
      var step := Step(prev.spotter, score, input);
      assert Run(sp0, score, inputs).reports == prev.reports + [step.report];
      if input.Frame? {
        assert step.report.window.None?;
      }
    }
  }

  /** The length of what `k` frames of `n` samples each deliver. */
  lemma {:induction false} UniformStreamLength(inputs: seq<Input>, n: nat)
    requires forall i :: 0 <= i < |inputs| ==> inputs[i].Frame? && |inputs[i].samples| == n
    ensures |Stream(inputs)| == n * |inputs|
    decreases |inputs|
  {
    if |inputs| > 0 {
      UniformStreamLength(inputs[..|inputs| - 1], n);
    }
  }

  /** After a processed window `w`, the next windows continue from its newest
      `overlapSize` samples: a later window is the newest `chunkSize` samples of
      that tail followed by what arrived since, at least
      `chunkSize - overlapSize` new samples have arrived, and when exactly that
      many arrived the window is the tail of `w` followed by the new samples. */
  lemma WindowsOverlap(sp: Spotter, score: Classifier, input: Input, inputs: seq<Input>)
    requires Valid(sp)
    requires Step(sp, score, input).report.window.Some? && !Step(sp, score, input).report.faulted
    requires |inputs| > 0
    requires Run(Step(sp, score, input).spotter, score, inputs).reports[|inputs| - 1].window.Some?
    ensures var n := sp.cfg.chunkSize;
            var m := sp.cfg.overlapSize;
            var w := Step(sp, score, input).report.window.value;
            var next := Run(Step(sp, score, input).spotter, score, inputs).reports[|inputs| - 1].window.value;
            && |Stream(inputs)| >= n - m
            && next == Newest(w[n - m..] + Stream(inputs), n)
            && (|Stream(inputs)| == n - m ==> next == w[n - m..] + Stream(inputs))
  {
    var sp1 := Step(sp, score, input).spotter;
    var w := Step(sp, score, input).report.window.value;
    assert sp1.buffer == w[sp.cfg.chunkSize - sp.cfg.overlapSize..];
    WindowsAdvanceByStep(sp1, score, inputs);
    LastWindowIsNewestOfStream(sp1, score, inputs);
  }

  /** With both scripts' constants and the 1024-sample blocks the audio
      callback delivers, the loop does not advance by the nominal 8000 samples:
      from a buffer trimmed to 8000 samples, seven blocks take no window and
      the eighth does, so consecutive windows start 8192 samples apart and the
      new window keeps only the newest 7808 samples of the old overlap. */
  lemma ScriptCadence(sp: Spotter, score: Classifier, inputs: seq<Input>)
    requires Valid(sp) && sp.cfg == ScriptConfig(sp.cfg.keyword)
    requires |sp.buffer| == 8000
    requires |inputs| == 8
    requires forall i :: 0 <= i < 8 ==> inputs[i].Frame? && |inputs[i].samples| == 1024
    ensures forall i :: 0 <= i < 7 ==> Run(sp, score, inputs).reports[i].window.None?
    ensures Run(sp, score, inputs).reports[7].window == Some(sp.buffer[192..] + Stream(inputs))
  {
    var init := inputs[..7];
    UniformStreamLength(init, 1024);
    UniformStreamLength(inputs, 1024);
    ShortStreamTakesNoWindow(sp, score, init);
    RunPrefix(sp, score, inputs, 7);
    var prev := Run(sp, score, init);
    assert prev.spotter.buffer == sp.buffer + Stream(init);
    assert |prev.spotter.buffer + inputs[7].samples| == 16192;
    LastWindowIsNewestOfStream(sp, score, inputs);
    var all := sp.buffer + Stream(inputs);
    assert Newest(all, 16000) == all[192..];
    DropAppend(sp.buffer, Stream(inputs), 192);
  }
}
