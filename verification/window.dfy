/** Inference windows: the slice of the rolling buffer handed to the
    classifier, and the length normalisation `_predict_audio` applies to it. */
module Window {
  import opened Wrappers
  import opened RollingBuffer

  /** The classifier: scores one window into per-class probabilities, or
      gives `None` when scoring raised (the source catches that exception and
      returns `None`). */
  type Classifier = seq<Sample> -> Option<seq<real>>

  /** The window taken from the buffer, `list(buffer)[-chunkSize:]`, once the
      buffer holds at least `chunkSize` samples; nothing before that.
      Python's `[-0:]` would mean the whole list, so `chunkSize` is positive. */
  function TakeWindow(buf: seq<Sample>, chunkSize: nat): (r: Option<seq<Sample>>)
    requires chunkSize > 0
    ensures r.Some? <==> |buf| >= chunkSize
    ensures r.Some? ==> |r.value| == chunkSize && IsSuffix(r.value, buf)
  {
    if |buf| >= chunkSize then Some(buf[|buf| - chunkSize..]) else None
  }

  /** `k` zero samples, `np.zeros(k)`. */
  function Zeros(k: nat): (r: seq<Sample>)
    ensures |r| == k
    ensures forall i :: 0 <= i < k ==> r[i] == 0
  {
    seq(k, _ => 0)
  }

  /** The pad-or-truncate step of `_predict_audio`: a short input is copied into
      a zero array of length `n` (so padding is on the right), a long input is
      cut to its first `n` samples, and an input of length `n` passes as is. */
  function FitLength(audio: seq<Sample>, n: nat): (r: seq<Sample>)
    ensures |r| == n
    ensures forall i :: 0 <= i < n && i < |audio| ==> r[i] == audio[i]
    ensures forall i :: |audio| <= i < n ==> r[i] == 0
  {
    if |audio| < n then audio + Zeros(n - |audio|)
    else if |audio| > n then audio[..n]
    else audio
  }

  /** `_predict_audio`: no prediction for an empty input; otherwise the
      classifier is applied to the input fitted to `chunkSize`. */
  function PredictAudio(audio: seq<Sample>, chunkSize: nat, score: Classifier): (r: Option<seq<real>>)
    ensures |audio| == 0 ==> r == None
    ensures |audio| > 0 ==> r == score(FitLength(audio, chunkSize))
  {
    if |audio| == 0 then None else score(FitLength(audio, chunkSize))
  }

  /** Fitting is the identity exactly on inputs that already have the length. */
  lemma FitLengthIdentity(audio: seq<Sample>, n: nat)
    ensures FitLength(audio, n) == audio <==> |audio| == n
  {
  }

  /** Fitting twice is fitting once. */
  lemma FitLengthIdempotent(audio: seq<Sample>, n: nat)
    ensures FitLength(FitLength(audio, n), n) == FitLength(audio, n)
  {
  }

  /** A short input is recovered from its padded form by cutting the padding,
      and the cut-off part is all zeros: the padding is on the right. */
  lemma PadRoundTrip(audio: seq<Sample>, n: nat)
    requires |audio| <= n
    ensures FitLength(audio, n)[..|audio|] == audio
    ensures FitLength(audio, n)[|audio|..] == Zeros(n - |audio|)
  {
  }

  /** A long input keeps its prefix: the samples after the first `n` are dropped. */
  lemma TruncateKeepsPrefix(audio: seq<Sample>, n: nat)
    requires |audio| >= n
    ensures audio == FitLength(audio, n) + audio[n..]
  {
  }

  /** The window the worker takes always reaches the classifier unchanged:
      it is non-empty and already of length `chunkSize`. */
  lemma WindowReachesClassifierUnchanged(buf: seq<Sample>, chunkSize: nat, score: Classifier)
    requires chunkSize > 0
    requires TakeWindow(buf, chunkSize).Some?
    ensures PredictAudio(TakeWindow(buf, chunkSize).value, chunkSize, score)
            == score(TakeWindow(buf, chunkSize).value)
  {
  }
}
