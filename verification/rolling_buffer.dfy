/** The rolling sample buffer: a `collections.deque` with a `maxlen`,
    filled from the tail with `extend` and emptied from the head with `popleft`. */
module RollingBuffer {

  /** One audio amplitude. The model never looks inside a sample, so an
      integer stands for the source's 32-bit float. */
  type Sample = int

  /** `a` is a suffix of `b`: `b` ends with `a`. */
  predicate IsSuffix<T(==)>(a: seq<T>, b: seq<T>) {
    |a| <= |b| && b[|b| - |a|..] == a
  }

  /** The newest `n` elements of `s`, or all of `s` when it holds fewer. */
  function Newest<T(==)>(s: seq<T>, n: nat): (r: seq<T>)
    ensures |r| == if |s| <= n then |s| else n
    ensures IsSuffix(r, s)
  {
    if |s| <= n then s else s[|s| - n..]
  }

  /** Taking the newest `n` of a suffix that is itself at least `n` long,
      or that is the whole sequence, is taking the newest `n` of the whole. */
  lemma NewestOfLongSuffix<T>(u: seq<T>, s: seq<T>, n: nat)
    requires IsSuffix(u, s)
    requires |u| >= n || |u| == |s|
    ensures Newest(u, n) == Newest(s, n)
  {
  }

  /** Regrouping concatenations, stated once so proofs about appending chunk
      after chunk do not have to rediscover it. */
  lemma AppendAssociative<T>(a: seq<T>, b: seq<T>, c: seq<T>)
    ensures a + (b + c) == (a + b) + c
  {
  }

  /** Dropping from the front of a concatenation only touches its first part
      when that part is long enough. */
  lemma DropAppend<T>(a: seq<T>, b: seq<T>, k: nat)
    requires k <= |a|
    ensures (a + b)[k..] == a[k..] + b
  {
  }

  /** Being a suffix is transitive. */
  lemma SuffixTransitive<T>(a: seq<T>, b: seq<T>, c: seq<T>)
    requires IsSuffix(a, b) && IsSuffix(b, c)
    ensures IsSuffix(a, c)
  {
  }

  /** Appending the same tail keeps a suffix a suffix. */
  lemma SuffixAppend<T>(a: seq<T>, b: seq<T>, t: seq<T>)
    requires IsSuffix(a, b)
    ensures IsSuffix(a + t, b + t)
  {
  }

  /** `deque.append(x)` on a deque bounded by `cap`: `x` enters at the tail and,
      when the deque was already full, the head sample is discarded. */
  function Append(buf: seq<Sample>, x: Sample, cap: nat): (r: seq<Sample>)
    requires |buf| <= cap
    ensures |r| <= cap
    ensures r == Newest(buf + [x], cap)
  {
    if |buf| < cap then buf + [x] else (buf + [x])[1..]
  }

  /** `deque.extend(chunk)`: the chunk's samples appended one at a time, oldest
      first. The buffer never grows past `cap`, and what it keeps is exactly
      the newest `cap` samples of the old contents followed by the chunk. */
  function Extend(buf: seq<Sample>, chunk: seq<Sample>, cap: nat): (r: seq<Sample>)
    requires |buf| <= cap
    ensures |r| <= cap
    ensures r == Newest(buf + chunk, cap)
    decreases |chunk|
  {
    if |chunk| == 0 then
      assert buf + chunk == buf;
      buf
    else
      var next := Append(buf, chunk[0], cap);
      var r := Extend(next, chunk[1..], cap);
      ExtendStep(buf, chunk, cap);
      r
  }

  /** One element of an `extend` moved into the buffer changes nothing about
      which samples are the newest `cap` ones. */
  lemma ExtendStep(buf: seq<Sample>, chunk: seq<Sample>, cap: nat)
    requires |buf| <= cap && |chunk| > 0
    ensures Newest(Newest(buf + [chunk[0]], cap) + chunk[1..], cap) == Newest(buf + chunk, cap)
  {
    var u := Newest(buf + [chunk[0]], cap) + chunk[1..];
    assert buf + chunk == (buf + [chunk[0]]) + chunk[1..];
    SuffixAppend(Newest(buf + [chunk[0]], cap), buf + [chunk[0]], chunk[1..]);
    NewestOfLongSuffix(u, buf + chunk, cap);
  }

  /** `popleft()` called `k` times. */
  function PopLeft(buf: seq<Sample>, k: nat): (r: seq<Sample>)
    requires k <= |buf|
    ensures |r| == |buf| - k
    ensures IsSuffix(r, buf)
  {
    if k == 0 then buf else PopLeft(buf[1..], k - 1)
  }

  /** The sliding-window trim after a window is processed: when the buffer holds
      more than `overlap` samples, the surplus is popped from the head.
      What is kept is exactly the newest `overlap` samples, and a buffer that is
      already at most `overlap` long is left as it is. */
  function Trim(buf: seq<Sample>, overlap: nat): (r: seq<Sample>)
    ensures r == Newest(buf, overlap)
    ensures |buf| <= overlap ==> r == buf
  {
    if |buf| > overlap then PopLeft(buf, |buf| - overlap) else buf
  }
}
