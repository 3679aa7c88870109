# Real-time keyword spotter: streaming core in Dafny

This project models the streaming core of the two real-time keyword-spotting
scripts, `_extra/ml/7_realtime_yes_detection.py` ("yes") and
`_extra/ml/8_realtime_go_detection_and_action.py` ("go"). Each script defines its
own `RealTimeKeywordSpotter`. The two processing loops are identical except for
the target word and the action, so one model, parameterised by a `Config`,
covers both. The core is:

- the rolling sample buffer, a `deque(maxlen=2*chunk_size)` that is filled with
  `extend` and trimmed with `popleft` (module `RollingBuffer`);
- the inference window, which is the newest `chunk_size` samples of the buffer,
  and the pad-or-truncate step of `_predict_audio` (module `Window`);
- the debounce rule on the target confidence and `last_detection_time`
  (module `Debounce`);
- the target-label lookup in `_load_model` (module `Labels`);
- the FIFO queue between the audio callback and the worker (module `FrameQueue`);
- one pass of `_processing_worker` (module `Spotter`), and the loop run over a
  whole sequence of queue outcomes, with its stream-level guarantees
  (module `Worker`).

Modelling choices:

- Samples are integers. The model never inspects a sample, so an integer
  stands for the float32 amplitude, and `0` is the padding value.
- Times are `real` seconds, as `time.time()` returns them, and the cooldown
  is `1.0`. The strict comparison of the gap with the cooldown is therefore
  decided exactly as the code decides it, below a millisecond too
  (`Debounce.SubMillisecondGap`).
- Confidences are `real`.
- The classifier (feature extractor, wav2vec2, softmax) is a parameter
  `score: seq<Sample> -> Option<seq<real>>`. `None` means that scoring raised
  and `_predict_audio` caught the exception.
- The clock reading taken after scoring is part of each queue outcome
  (`Input.Frame(samples, now)`). A queue timeout is `Input.Timeout`.

How the code behaves at its edges:

- No window is taken before the buffer holds `chunk_size` samples, so there
  is never a left-padded start-up window. `_predict_audio` pads on the
  right, and in the loop it only ever receives full windows
  (`Window.WindowReachesClassifierUnchanged`).
- `last_detection_time` starts at `0`, not at "never". With a wall clock this
  makes no difference. A clock that starts at 0 would suppress detections in
  the first cooldown (`Debounce.ScenarioClockFromZero`).
- The queue is an unbounded `queue.Queue()`, so nothing is dropped, whatever
  the interleaving of `put` and `get` (`FrameQueue.FifoFromEmpty`).
- Windows are taken only when a whole 1024-sample block has arrived. With both
  scripts' constants, consecutive windows therefore start 8192 samples apart,
  not 8000, and they share 7808 samples (`Worker.ScriptCadence`). After a window
  whose pass did not fault, the next window comes at least `chunk_size - overlap_size`
  samples later (`Worker.WindowsAdvanceByStep`), and exactly that many later
  only when the blocks add up to it (`Worker.WindowsOverlap`). After a faulted
  pass the buffer is not trimmed, so the next frame takes a window at once.
- A class id beyond the classifier's output raises `IndexError` inside the
  loop's outer `try`. The trim is then skipped and the buffer keeps its
  contents (`Report.faulted`).

The two scripts have the same line numbers up to line 11. After that, every
cited line of the "yes" script is one less than the matching line of the "go"
script (for example, `extend` is at 8:149 and 7:148).

## Model

| member | source | states |
|---|---|---|
| RollingBuffer.Append | _extra/ml/8_realtime_go_detection_and_action.py:30 | appending to a deque bounded by `maxlen` keeps it within `maxlen`; the result is the newest `maxlen` samples of the old contents followed by the new sample, so the oldest sample is dropped first |
| RollingBuffer.Extend | _extra/ml/8_realtime_go_detection_and_action.py:149 | `extend` (append one sample at a time) never lets the buffer exceed `2*chunk_size`; what it keeps is exactly the newest `2*chunk_size` samples of the old buffer followed by the chunk |
| RollingBuffer.PopLeft | _extra/ml/7_realtime_yes_detection.py:186-187 | `k` calls to `popleft` leave a suffix of the buffer that is `k` samples shorter |
| RollingBuffer.Trim | _extra/ml/7_realtime_yes_detection.py:184-187 | the trim keeps exactly the newest `overlap_size` samples; a buffer of at most `overlap_size` samples is left unchanged |
| Window.TakeWindow | _extra/ml/7_realtime_yes_detection.py:151-153 | a window exists iff the buffer holds at least `chunk_size` samples; it is exactly `chunk_size` long and is the buffer's tail |
| Window.Zeros | _extra/ml/8_realtime_go_detection_and_action.py:109 | `np.zeros(chunk_size)`: exactly the requested number of samples, all zero |
| Window.FitLength | _extra/ml/8_realtime_go_detection_and_action.py:106-114 | the fitted audio is always `chunk_size` long; its prefix is the input (up to `chunk_size` samples) and the rest is zeros, so padding is on the right and truncation keeps the first samples |
| Window.PredictAudio | _extra/ml/8_realtime_go_detection_and_action.py:101-134 | empty input gives no prediction; any other input is scored after fitting to `chunk_size`, and a failed scoring gives no prediction |
| Window.FitLengthIdentity | _extra/ml/8_realtime_go_detection_and_action.py:107-114 | fitting leaves the input unchanged iff it already has length `chunk_size` |
| Window.FitLengthIdempotent | _extra/ml/8_realtime_go_detection_and_action.py:107-114 | fitting twice is the same as fitting once |
| Window.PadRoundTrip | _extra/ml/7_realtime_yes_detection.py:106-110 | cutting the padding off a padded short input gives back the input, and the part cut off is all zeros |
| Window.TruncateKeepsPrefix | _extra/ml/7_realtime_yes_detection.py:111-113 | a long input is its truncation followed by the dropped samples |
| Window.WindowReachesClassifierUnchanged | _extra/ml/8_realtime_go_detection_and_action.py:154-157 | the window the loop takes reaches the classifier unpadded and untruncated |
| Debounce.InitialDetector | _extra/ml/8_realtime_go_detection_and_action.py:24-27 | a fresh detector keeps the script's threshold and cooldown and starts with `last_detection_time = 0` |
| Debounce.Observe | _extra/ml/8_realtime_go_detection_and_action.py:175-180 | an event fires iff confidence > threshold and now − last > cooldown, both strict; firing records `now` as the last detection, and not firing changes nothing |
| Debounce.Replay | _extra/ml/8_realtime_go_detection_and_action.py:174-183 | over a sequence of readings, at most one event per reading, and the threshold and cooldown never change |
| Debounce.ReplayChain | _extra/ml/8_realtime_go_detection_and_action.py:176-180 | after any readings, `last_detection_time` is the time of the last event, or its starting value if nothing fired; each event is more than the cooldown after the previous one |
| Debounce.ReplaySpaced | _extra/ml/7_realtime_yes_detection.py:174-181 | any two events are more than the cooldown apart, and the first is more than the cooldown after the starting `last_detection_time` |
| Debounce.ReplayEventsFromReadings | _extra/ml/8_realtime_go_detection_and_action.py:176-180 | every event has a confidence strictly above the threshold, and its confidence and time are one of the readings |
| Debounce.QuietStreamNeverFires | _extra/ml/7_realtime_yes_detection.py:175 | readings that never exceed the threshold produce no event |
| Debounce.ScenarioWallClock | _extra/ml/8_realtime_go_detection_and_action.py:24-27 | threshold 0.7, cooldown 1 s, confidences 0.9/0.8/0.95 at +0/+0.5/+1.2 s on a wall clock: events at +0 s and +1.2 s only |
| Debounce.ScenarioClockFromZero | _extra/ml/8_realtime_go_detection_and_action.py:27 | with `last_detection_time = 0` and a clock starting at 0, the same readings fire only at 1.2 s |
| Debounce.SubMillisecondGap | _extra/ml/8_realtime_go_detection_and_action.py:175-177 | the gap between `time.time()` readings is compared with the cooldown in full precision: readings 1.0004 s apart, with a 1.0 s cooldown and confidence above the threshold, fire |
| Labels.LowerChar | _extra/ml/8_realtime_go_detection_and_action.py:66 | the model's ASCII lower-casing of one character, as used for `label.lower()`: the result is never an upper-case ASCII letter; `A`-`Z` map to the matching `a`-`z` and every other character is left unchanged |
| Labels.Lower | _extra/ml/8_realtime_go_detection_and_action.py:66 | the model's ASCII lower-casing of a label, as used for `label.lower()`: it keeps the length and lower-cases each character on its own with `LowerChar` |
| Labels.Resolve | _extra/ml/8_realtime_go_detection_and_action.py:62-71 | the lookup fails with `ClassNotFound` iff no lower-cased label equals the keyword; otherwise it returns the id of the first matching entry |
| Labels.ResolveIgnoresCase | _extra/ml/8_realtime_go_detection_and_action.py:66 | label tables that differ only in letter case resolve to the same result |
| Labels.UpperCaseKeywordNeverResolves | _extra/ml/7_realtime_yes_detection.py:65 | only the label side is lowered, so a keyword containing an upper-case letter never matches |
| Labels.FirstMatchWins | _extra/ml/7_realtime_yes_detection.py:64-67 | with "GO" at id 4 and "go" at id 9, the lookup for "go" gives 4: the first match wins, whatever its case |
| FrameQueue.Put | _extra/ml/8_realtime_go_detection_and_action.py:82 | `put` adds the chunk at the tail and keeps everything already queued |
| FrameQueue.Get | _extra/ml/8_realtime_go_detection_and_action.py:143-146 | `get` reports `Empty` iff the queue is empty; otherwise it returns the oldest chunk and the rest of the queue |
| FrameQueue.Fifo | _extra/ml/8_realtime_go_detection_and_action.py:31 | chunks are taken in exactly the order they were put, after whatever was already waiting |
| FrameQueue.FifoInterleaved | _extra/ml/8_realtime_go_detection_and_action.py:143-146 | under any interleaving of `put` and `get(timeout)` calls, the chunks taken followed by those still queued are the chunks that were waiting followed by every chunk put, in put order |
| FrameQueue.FifoFromEmpty | _extra/ml/8_realtime_go_detection_and_action.py:31 | from the empty queue the script starts with, the chunks taken followed by those still queued are exactly the chunks put; nothing is lost, duplicated or reordered |
| Spotter.ScriptConfig | _extra/ml/8_realtime_go_detection_and_action.py:16-27 | both scripts use 16000-sample windows, an 8000-sample overlap, threshold 0.7 and a 1.0 s cooldown, and these satisfy the loop's assumptions |
| Spotter.Capacity | _extra/ml/8_realtime_go_detection_and_action.py:30 | the buffer's bound is exactly `2*chunk_size`, which is at least `chunk_size`, so a full window always fits |
| Spotter.Create | _extra/ml/7_realtime_yes_detection.py:61-70 | construction fails with `ClassNotFound` iff no label matches; otherwise the class id is that of the first match, the buffer is empty and `last_detection_time` is 0 |
| Spotter.Step | _extra/ml/8_realtime_go_detection_and_action.py:140-188 | a timeout changes nothing; a window is taken iff a full chunk is available and it is the newest chunk of old buffer + frame; below a chunk nothing is dropped; after a window the buffer is the window's newest `overlap_size` samples, whether or not prediction succeeded; an out-of-range class id skips the trim; only the debounce rule moves `last_detection_time` |
| Worker.Run | _extra/ml/8_realtime_go_detection_and_action.py:140-149 | over any sequence of queue outcomes, one report per pass, and the buffer stays within `2*chunk_size` |
| Worker.RunPrefix | _extra/ml/8_realtime_go_detection_and_action.py:140-146 | later queue outcomes never change what earlier passes reported |
| Worker.BufferIsSuffixOfStream | _extra/ml/8_realtime_go_detection_and_action.py:149 | the buffer always holds the most recently captured samples, in capture order |
| Worker.LastWindowIsNewestOfStream | _extra/ml/8_realtime_go_detection_and_action.py:152-154 | the window of the latest pass is exactly the newest `chunk_size` samples of everything captured |
| Worker.WindowsAreNewestOfStream | _extra/ml/7_realtime_yes_detection.py:151-153 | every scored window is exactly `chunk_size` long and equals the newest `chunk_size` samples captured up to that pass |
| Worker.WindowsAdvanceByStep | _extra/ml/8_realtime_go_detection_and_action.py:185-188 | starting from a buffer of at most `overlap_size` samples, no window is scored before at least `chunk_size − overlap_size` new samples have arrived |
| Worker.RunDebounces | _extra/ml/8_realtime_go_detection_and_action.py:174-183 | the loop's events are exactly what the debounce rule fires on its successful readings, and the final `last_detection_time` is the debouncer's |
| Worker.EventsAreDebounced | _extra/ml/7_realtime_yes_detection.py:173-182 | for any audio, classifier and clock, any two events of a run are more than the cooldown apart and each has confidence above the threshold |
| Worker.ShortStreamTakesNoWindow | _extra/ml/8_realtime_go_detection_and_action.py:151-152 | until `chunk_size` samples are available every pass is idle and the buffer is the old contents followed by all captured samples |
| Worker.WindowsOverlap | _extra/ml/8_realtime_go_detection_and_action.py:20-22 | after a window whose pass did not fault, a later window is the newest `chunk_size` samples of that window's `overlap_size` tail followed by the new samples; it comes at least `chunk_size − overlap_size` samples later, and exactly that many later means the windows overlap by exactly `overlap_size` |
| Worker.ScriptCadence | _extra/ml/8_realtime_go_detection_and_action.py:93 | with the scripts' constants and 1024-sample blocks, from a trimmed buffer the eighth block takes the next window, 8192 samples on, which keeps only the newest 7808 samples of the old overlap |

## Left out

- The wav2vec2 model, feature extractor, softmax and torch device handling. These are foreign numeric code and are replaced by the opaque `Classifier` parameter.
- Audio capture (`_recording_worker`, `_audio_callback` and its mono conversion, sounddevice). These are device I/O. The 1024-sample block size appears only as an assumption of `Worker.ScriptCadence`.
- The threads, `stop_event`, `start`, `stop` and the `join` timeouts. These are concurrency and lifecycle. `Worker.Run` models any finite run of the loop, and the cancellation check between passes is not modelled.
- `time.sleep(0.1)` after a caught exception. This is timing only.
- All `print` status output, including the arg-max "current" line and its `id2label.get(str(...))` lookup. This is diagnostic text only.
- The actions: `_on_go_detected` (its `subprocess` calls and their fallbacks) and the empty `_on_yes_detected`. An event is modelled up to the point where it is handed to the action. An exception raised inside the action's `CalledProcessError` handler (the fallback `subprocess.run` at 8:210, or a `print` there) escapes to the loop's outer `try` and skips the trim; that path falls under the line below on other exceptions in the loop's outer `try`.
- The dependency checks and device listing in `main`. These are process bootstrap.
- Exceptions in the loop's outer `try` other than the out-of-range class id, including one escaping the action. The model has no other operation that can raise.
- Debounce.Observe: times are exact reals. `time.time()` returns a binary float, and the subtraction `current_time - last_detection_time` rounds, so a gap within rounding distance of the cooldown can be decided differently. Floating-point rounding is not modelled.
- Labels.LowerChar: lowers ASCII letters only. Python's `str.lower` also lowers non-ASCII upper-case letters (`Ä` becomes `ä`); the model leaves them unchanged, because the model's `id2label` labels are ASCII words.
- Labels.Lower: works one character at a time and keeps the length. Python's `str.lower` can lengthen a string (`İ` becomes `i` followed by U+0307) and lowers `Σ` to `ς` or `σ` depending on its position in the word; the model does neither, because the labels are ASCII words.
- Labels.Resolve: lower-cases ASCII letters only. Python's `str.lower` also lowers non-ASCII letters, and this model does not.
- Spotter.Create: class ids are natural numbers. A negative id would index from the end in Python, and that case is not modelled.
- Window.TakeWindow: requires a positive `chunk_size`. Python's `[-0:]` would return the whole list, and both scripts use 16000.
- Worker.WindowsAdvanceByStep: states the step from a trimmed buffer. The composition of the step lemma with a preceding pass is stated only through `Worker.WindowsOverlap`.
