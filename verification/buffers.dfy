/**
  Bounded FIFO buffers (Python's `deque(maxlen=...)`) and Python's negative
  slice `s[-n:]`, shared by the statistical detector, the drift monitor, the
  regime detector and the alert log.
 */
module Buffers {

  /** The last `min(k, |s|)` elements of `s`, in their original order. */
  function LastN<T>(s: seq<T>, k: nat): seq<T>
  {
    if k < |s| then s[|s| - k..] else s
  }

  /**
    `deque.append` on a deque whose `maxlen` is `cap`: when the deque is full
    the oldest element is discarded first; with `cap == 0` nothing is kept.
   */
  function Push<T>(buf: seq<T>, cap: nat, x: T): (r: seq<T>)
    requires |buf| <= cap
    ensures |r| == if |buf| < cap then |buf| + 1 else cap
    ensures r == LastN(buf + [x], cap)
    ensures cap > 0 ==> r[|r| - 1] == x
  {
    if |buf| < cap then buf + [x] else (buf + [x])[1..]
  }

  /** Keeping the newest `cap` elements and then appending is the same as appending first. */
  lemma PushLastN<T>(s: seq<T>, cap: nat, x: T)
    ensures |LastN(s, cap)| <= cap
    ensures Push(LastN(s, cap), cap, x) == LastN(s + [x], cap)
  {
    if cap < |s| {
      assert LastN(s, cap) + [x] == (s + [x])[|s| - cap..];
    }
  }

  /**
    Python's `s[-n:]` for an integer `n`: the last `n` elements when `n > 0`,
    the whole sequence when `n == 0` (because `-0 == 0`), and everything
    after the first `-n` elements when `n < 0`.
   */
  function PySuffix<T>(s: seq<T>, n: int): (r: seq<T>)
    ensures |r| <= |s| && r == s[|s| - |r|..]
    ensures n > 0 ==> r == LastN(s, n)
    ensures n == 0 ==> r == s
    ensures n < 0 ==> |r| == if -n < |s| then |s| + n else 0
  {
    if n > 0 then
      (if n < |s| then s[|s| - n..] else s)
    else if n == 0 then
      s
    else
      (if -n < |s| then s[-n..] else [])
  }
}
