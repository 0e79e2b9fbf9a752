/** The admission policies both services apply to their fixed-capacity queues
    (the writer's frame queue and the capture's audio queue), stated on the
    queue contents, front first. */
module BoundedQueue {

  function Min(a: int, b: int): (r: int)
  {
    if a <= b then a else b
  }

  /** The newest `n` elements of `s`, or all of `s` when it is shorter: what a
      drop-oldest queue of capacity `n` retains when `s` was pushed in order. */
  function Newest<T>(s: seq<T>, n: nat): (r: seq<T>)
    ensures |r| == Min(|s|, n)
  {
    s[|s| - Min(|s|, n)..]
  }

  /** A non-blocking put whose "queue full" failure the caller swallows:
      `x` is admitted exactly when there is room, and nothing else moves. */
  function TryPut<T>(q: seq<T>, x: T, cap: nat): (r: seq<T>)
    requires |q| <= cap
    ensures |r| <= cap
    ensures r == q + [x] || r == q
    ensures r == q + [x] <==> |q| < cap
  {
    if |q| < cap then q + [x] else q
  }

  /** Drop-oldest admission: a non-blocking put, and on "queue full" one
      non-blocking get followed by the put again. The queue keeps the newest
      `cap` of everything it held plus `x`. */
  function Admit<T>(q: seq<T>, x: T, cap: nat): (r: seq<T>)
    requires 0 < cap && |q| <= cap
    ensures r == Newest(q + [x], cap)
  {
    if |q| < cap then q + [x] else q[1..] + [x]
  }

  /** The queue after admitting each of `xs`, in order. */
  function PushAll<T>(q: seq<T>, xs: seq<T>, cap: nat): (r: seq<T>)
    requires 0 < cap && |q| <= cap
    ensures |r| == Min(|q| + |xs|, cap)
    decreases |xs|
  {
    if xs == [] then q else PushAll(Admit(q, xs[0], cap), xs[1..], cap)
  }

  /** Admitting one more element after a run of admissions is the run
      extended by that element. */
  lemma {:induction false} PushAllSnoc<T>(q: seq<T>, xs: seq<T>, x: T, cap: nat)
    requires 0 < cap && |q| <= cap
    ensures PushAll(q, xs + [x], cap) == Admit(PushAll(q, xs, cap), x, cap)
    decreases |xs|
  {
    if xs == [] {
      assert xs + [x] == [x];
    } else {
      assert (xs + [x])[1..] == xs[1..] + [x];
      PushAllSnoc(Admit(q, xs[0], cap), xs[1..], x, cap);
    }
  }

  /** The same fact for successive prefixes of one run of pushes. */
  lemma PushAllPrefix<T>(q: seq<T>, xs: seq<T>, i: nat, cap: nat)
    requires 0 < cap && |q| <= cap && i < |xs|
    ensures PushAll(q, xs[..i + 1], cap) == Admit(PushAll(q, xs[..i], cap), xs[i], cap)
  {
    assert xs[..i + 1] == xs[..i] + [xs[i]];
    PushAllSnoc(q, xs[..i], xs[i], cap);
  }

  /** Keeping the newest `n`, then appending, then keeping the newest `n`
      again is the same as appending first. */
  lemma NewestAbsorbs<T>(s: seq<T>, ys: seq<T>, n: nat)
    ensures Newest(Newest(s, n) + ys, n) == Newest(s + ys, n)
  {
    var k := |s| - Min(|s|, n);
    assert Newest(s, n) + ys == (s + ys)[k..];
  }

  /** A run of drop-oldest admissions retains exactly the newest `cap`
      elements of the old contents followed by the pushes, in push order. */
  lemma {:induction false} PushAllKeepsNewest<T>(q: seq<T>, xs: seq<T>, cap: nat)
    requires 0 < cap && |q| <= cap
    ensures PushAll(q, xs, cap) == Newest(q + xs, cap)
    decreases |xs|
  {
    if xs == [] {
      assert q + xs == q;
    } else {
      var x := xs[0];
      calc {
        PushAll(q, xs, cap);
        PushAll(Admit(q, x, cap), xs[1..], cap);
        { PushAllKeepsNewest(Admit(q, x, cap), xs[1..], cap); }
        Newest(Admit(q, x, cap) + xs[1..], cap);
        Newest(Newest(q + [x], cap) + xs[1..], cap);
        { NewestAbsorbs(q + [x], xs[1..], cap); }
        Newest((q + [x]) + xs[1..], cap);
        { assert (q + [x]) + xs[1..] == q + xs; }
        Newest(q + xs, cap);
      }
    }
  }

  /** `s` is what was dropped from it followed by its newest `n`. */
  lemma NewestSplits<T>(s: seq<T>, n: nat)
    ensures s == s[..|s| - Min(|s|, n)] + Newest(s, n)
  {
    var k := |s| - Min(|s|, n);
    assert s == s[..k] + s[k..];
  }

  /** Pushing `xs` into an empty queue leaves the last min(|xs|, cap) of them,
      in push order; the ones lost are exactly the oldest. */
  lemma PushIntoEmpty<T>(xs: seq<T>, cap: nat)
    requires 0 < cap
    ensures PushAll([], xs, cap) == xs[|xs| - Min(|xs|, cap)..]
    ensures xs == xs[..|xs| - Min(|xs|, cap)] + PushAll([], xs, cap)
  {
    PushAllKeepsNewest([], xs, cap);
    assert [] + xs == xs;
    NewestSplits(xs, cap);
  }
}
