/** The `RealTimeKeywordSpotter` processing loop shared by the "yes" and "go"
    scripts: each chunk taken from the queue is appended to the rolling buffer;
    once the buffer holds a full chunk the newest `chunkSize` samples are scored,
    the target confidence goes through the debounce rule, and the buffer is
    trimmed to its newest `overlapSize` samples. */
module Spotter {
  import opened Wrappers
  import opened RollingBuffer
  import opened Window
  import opened Debounce
  import opened Labels

  /** What `__init__` fixes: the keyword, the window and overlap lengths in
      samples, the detection threshold and the cooldown in seconds. */
  datatype Config = Config(keyword: string, chunkSize: nat, overlapSize: nat, threshold: real, cooldown: Time)

  /** Configurations the loop is meant for; both scripts' constants are such. */
  predicate ValidConfig(c: Config) {
    0 < c.chunkSize && c.overlapSize < c.chunkSize && c.cooldown >= 0.0
  }

  /** `sample_rate = 16000`. */
  const SampleRate: nat := 16000

  /** The constants of both scripts: `chunk_size = int(16000 * 1.0)`,
      `overlap_size = int(16000 * 0.5)`, threshold 0.7, cooldown 1.0 s. */
  function ScriptConfig(keyword: string): (c: Config)
    ensures ValidConfig(c)
    ensures c.chunkSize == 16000 && c.overlapSize == 8000 && c.threshold == 0.7 && c.cooldown == 1.0
  {
    Config(keyword, SampleRate, SampleRate / 2, 0.7, 1.0)
  }

  /** `deque(maxlen=chunk_size * 2)`: room for two windows, so a full window
      always fits in the buffer. */
  function Capacity(c: Config): (cap: nat)
    ensures cap == 2 * c.chunkSize && c.chunkSize <= cap
  {
    2 * c.chunkSize
  }

  /** The state the processing loop owns: configuration, resolved target class,
      rolling buffer contents and `last_detection_time`. */
  datatype Spotter = Spotter(cfg: Config, classId: nat, buffer: seq<Sample>, lastDetection: Time)

  /** The deque never exceeds its `maxlen`. */
  predicate Valid(sp: Spotter) {
    ValidConfig(sp.cfg) && |sp.buffer| <= Capacity(sp.cfg)
  }

  /** The debounce view of the state. */
  function DetectorOf(sp: Spotter): Detector {
    Detector(sp.cfg.threshold, sp.cfg.cooldown, sp.lastDetection)
  }

  /** Construction: the target class is resolved from the model's labels (a
      missing keyword is the `ValueError` of `_load_model`); the buffer starts
      empty and `last_detection_time` at 0. */
  function Create(cfg: Config, id2label: seq<Label>): (r: Result<Spotter, LookupError>)
    requires ValidConfig(cfg)
    ensures r.Err? <==> forall i :: 0 <= i < |id2label| ==> !Matches(id2label[i], cfg.keyword)
    ensures r.Err? ==> r.error == ClassNotFound(cfg.keyword)
    ensures r.Ok? ==> && Valid(r.value) && r.value.cfg == cfg
                      && r.value.buffer == [] && r.value.lastDetection == 0.0
                      && exists i :: 0 <= i < |id2label| && IsFirstMatch(id2label, cfg.keyword, i)
                                     && id2label[i].id == r.value.classId
  {
    match Resolve(id2label, cfg.keyword)
    case Err(e) => Err(e)
    case Ok(id) => Ok(Spotter(cfg, id, [], InitialDetector(cfg.threshold, cfg.cooldown).lastDetection))
  }

  /** One outcome of `audio_queue.get(timeout=0.1)` as the loop sees it: the
      timeout, or a chunk together with the `time.time()` reading the loop
      would take after scoring it. */
  datatype Input = Timeout | Frame(samples: seq<Sample>, now: Time)

  /** What one pass of the loop did: the window it scored, the target reading
      it obtained, the event it fired, and whether the pass raised inside the
      loop's outer `try` (a class id beyond the classifier's output). */
  datatype Report = Report(window: Option<seq<Sample>>, reading: Option<Reading>, event: Option<Event>, faulted: bool)

  /** The state after one pass, and what the pass did. */
  datatype Pass = Pass(spotter: Spotter, report: Report)

  /** A pass that took no window. */
  const Idle: Report := Report(None, None, None, false)

  /** One pass of `_processing_worker`'s loop. */
  function Step(sp: Spotter, score: Classifier, input: Input): (out: Pass)
    requires Valid(sp)
    ensures Valid(out.spotter) && out.spotter.cfg == sp.cfg && out.spotter.classId == sp.classId
    // a timeout just loops again
    ensures input.Timeout? ==> out == Pass(sp, Idle)
    // the buffer only ever keeps recent samples
    ensures input.Frame? ==> IsSuffix(out.spotter.buffer, sp.buffer + input.samples)
    // a window is taken iff a full chunk is available, and it is the newest chunk
    ensures input.Frame? ==> (out.report.window.Some? <==> |sp.buffer + input.samples| >= sp.cfg.chunkSize)
    ensures out.report.window.Some? ==>
              && input.Frame?
              && |out.report.window.value| == sp.cfg.chunkSize
              && out.report.window.value == Newest(sp.buffer + input.samples, sp.cfg.chunkSize)
    // below a full chunk nothing is dropped and nothing else happens
    ensures input.Frame? && out.report.window.None? ==>
              out.report == Idle && out.spotter == sp.(buffer := sp.buffer + input.samples)
    // after a scored window, failed prediction or not, the buffer is the window's newest overlap
    ensures out.report.window.Some? && !out.report.faulted ==>
              out.spotter.buffer == Newest(out.report.window.value, sp.cfg.overlapSize)
    // the classifier sees exactly the window
    ensures out.report.window.Some? ==>
              (out.report.reading.Some? || out.report.faulted <==> score(out.report.window.value).Some?)
    ensures out.report.reading.Some? ==>
              && score(out.report.window.value).Some?
              && sp.classId < |score(out.report.window.value).value|
              && out.report.reading.value == Reading(score(out.report.window.value).value[sp.classId], input.now)
    // a class id beyond the classifier's output raises: no trim, no reading
    ensures out.report.faulted ==>
              && out.report.window.Some? && out.report.reading.None? && out.report.event.None?
              && score(out.report.window.value).Some?
              && sp.classId >= |score(out.report.window.value).value|
              && out.spotter.buffer == Newest(sp.buffer + input.samples, Capacity(sp.cfg))
    // the debounce rule decides on the reading, and alone moves last_detection_time
    ensures out.report.reading.Some? ==>
              Observation(DetectorOf(out.spotter), out.report.event) == Observe(DetectorOf(sp), out.report.reading.value)
    ensures out.report.reading.None? ==> out.report.event.None? && out.spotter.lastDetection == sp.lastDetection
  {
    match input
    case Timeout => Pass(sp, Idle)
    case Frame(samples, now) =>
      var buf := Extend(sp.buffer, samples, Capacity(sp.cfg));
      match TakeWindow(buf, sp.cfg.chunkSize)
      case None =>
        assert |sp.buffer + samples| < sp.cfg.chunkSize;
        Pass(sp.(buffer := buf), Idle)
      case Some(window) =>
        NewestOfLongSuffix(buf, sp.buffer + samples, sp.cfg.chunkSize);
        NewestOfLongSuffix(window, buf, sp.cfg.overlapSize);
        WindowReachesClassifierUnchanged(buf, sp.cfg.chunkSize, score);
        match PredictAudio(window, sp.cfg.chunkSize, score)
        case None =>
          Pass(sp.(buffer := Trim(buf, sp.cfg.overlapSize)), Report(Some(window), None, None, false))
        case Some(probs) =>
          if sp.classId < |probs| then
            var reading := Reading(probs[sp.classId], now);
            var observed := Observe(DetectorOf(sp), reading);
            Pass(sp.(buffer := Trim(buf, sp.cfg.overlapSize), lastDetection := observed.detector.lastDetection),
                 Report(Some(window), Some(reading), observed.event, false))
          else
            Pass(sp.(buffer := buf), Report(Some(window), None, None, true))
  }
}
