/** The supervisor's per-job retry loop: a sliding window of failures and a capped
    exponential backoff. */
module Supervisor {

  /** Durations are whole nanoseconds. */
  datatype Policy = Policy(initial: int, max: int, multiplier: real, tries: int, window: int)

  const SECOND: int := 1_000_000_000

  /** The policy after zero fields are filled in. */
  predicate Sound(p: Policy) { p.initial > 0 && p.max > 0 && p.multiplier > 1.0 && p.tries > 0 && p.window > 0 }

  function WithDefaults(b: Policy): (p: Policy)
    ensures Sound(p) && (Sound(b) ==> p == b)
    ensures b.initial > 0 ==> p.initial == b.initial
    ensures b.max > 0 ==> p.max == b.max
    ensures b.multiplier > 1.0 ==> p.multiplier == b.multiplier
    ensures b.tries > 0 ==> p.tries == b.tries
    ensures b.window > 0 ==> p.window == b.window
  {
    Policy(if b.initial <= 0 then SECOND else b.initial,
           if b.max <= 0 then 30 * SECOND else b.max,
           if b.multiplier <= 1.0 then 2.0 else b.multiplier,
           if b.tries <= 0 then 3 else b.tries,
           if b.window <= 0 then 60 * SECOND else b.window)
  }

  /** What is filled in: a second, half a minute, doubling, three tries, a minute. */
  lemma DefaultsMean(b: Policy)
    ensures b.initial <= 0 ==> WithDefaults(b).initial == 1_000_000_000
    ensures b.max <= 0 ==> WithDefaults(b).max == 30_000_000_000
    ensures b.multiplier <= 1.0 ==> WithDefaults(b).multiplier == 2.0
    ensures b.tries <= 0 ==> WithDefaults(b).tries == 3
    ensures b.window <= 0 ==> WithDefaults(b).window == 60_000_000_000
  {
  }

  // ---- The k-th sleep ----

  function Scale(m: real): real -> real { x => x * m }

  /** Truncated to a whole duration and then capped. */
  function Capped(max: int, grown: real): int { if grown.Floor > max then max else grown.Floor }

  function Next(p: Policy, sleep: int): int { Capped(p.max, Scale(p.multiplier)(sleep as real)) }

  /** The sleep before restart number `k`, as a loop that grows by `f` updates it. */
  function SleepBy(f: real -> real, initial: int, max: int, k: nat): int {
    if k == 0 then initial else Capped(max, f(SleepBy(f, initial, max, k - 1) as real))
  }

  function SleepAt(p: Policy, k: nat): int { SleepBy(Scale(p.multiplier), p.initial, p.max, k) }

  /** The sleep without truncation and cap. */
  ghost function IdealBy(f: real -> real, initial: int, k: nat): real {
    if k == 0 then initial as real else f(IdealBy(f, initial, k - 1))
  }

  ghost function Ideal(p: Policy, k: nat): real { IdealBy(Scale(p.multiplier), p.initial, k) }

  predicate Whole(x: real) { x == x.Floor as real }

  function Min(a: real, b: real): real { if a <= b then a else b }

  ghost predicate Growing(f: real -> real) {
    (forall x :: x > 0.0 ==> f(x) > x) && (forall x, y :: 0.0 < x <= y ==> f(x) <= f(y))
  }

  lemma ScaleGrows(m: real)
    requires m > 1.0
    ensures Growing(Scale(m))
  {
    forall x | x > 0.0 ensures Scale(m)(x) > x {
      assert Scale(m)(x) == x * m;
      Grows(x, m);
    }
    forall x, y | 0.0 < x <= y ensures Scale(m)(x) <= Scale(m)(y) {
      ScaleMonotone(x, y, m);
    }
  }

  lemma ScaleMonotone(x: real, y: real, m: real)
    requires x <= y && m > 0.0
    ensures Scale(m)(x) <= Scale(m)(y)
  {
    var a, b := x * m, y * m;
    assert Scale(m)(x) == a && Scale(m)(y) == b;
    assert a <= b by {
      Monotone(x, y, m);
    }
  }

  lemma Grows(x: real, m: real)
    requires x > 0.0 && m > 1.0
    ensures x * m > x
  {
    assert x * (m - 1.0) > 0.0;
  }

  lemma Monotone(x: real, y: real, m: real)
    requires x <= y && m > 0.0
    ensures x * m <= y * m
  {
    assert (y - x) * m >= 0.0;
  }

  ghost function Pow(m: real, k: nat): real { if k == 0 then 1.0 else Pow(m, k - 1) * m }

  /** The ideal sleep is Initial * Multiplier^k. */
  lemma {:induction false} IdealIsExponential(p: Policy, k: nat)
    ensures Ideal(p, k) == p.initial as real * Pow(p.multiplier, k)
  {
    if k == 0 {
    } else {
      IdealIsExponential(p, k - 1);
      Reassociates(p.initial as real, Pow(p.multiplier, k - 1), p.multiplier);
    }
  }

  lemma Reassociates(a: real, b: real, m: real)
    ensures (a * b) * m == a * (b * m)
  {
  }

  lemma CappedIsExact(max: int, grown: real)
    requires grown < max as real ==> Whole(grown)
    ensures Capped(max, grown) as real == Min(grown, max as real)
  {
  }

  lemma CappedIsBounded(max: int, grown: real, low: int)
    requires low as real <= grown
    ensures Capped(max, grown) as real <= grown && Capped(max, grown) <= max
    ensures low <= Capped(max, grown) || Capped(max, grown) == max
  {
  }

  lemma {:induction false} IdealGrows(f: real -> real, initial: int, k: nat)
    requires Growing(f) && initial > 0
    ensures IdealBy(f, initial, k) > 0.0
  {
    if k == 0 {
    } else {
      IdealGrows(f, initial, k - 1);
    }
  }

  lemma {:induction false} BoundedBy(f: real -> real, initial: int, max: int, k: nat)
    requires Growing(f) && initial > 0 && max > 0
    ensures var sleep := SleepBy(f, initial, max, k);
            0 < sleep && sleep as real <= IdealBy(f, initial, k) && (k > 0 ==> sleep <= max)
  {
    if k == 0 {
    } else {
      BoundedBy(f, initial, max, k - 1);
      var before := SleepBy(f, initial, max, k - 1);
      CappedIsBounded(max, f(before as real), before);
    }
  }

  /** Every sleep is positive, and from the second on at most the exponential and at most the cap. */
  lemma SleepIsBounded(p: Policy, k: nat)
    requires Sound(p)
    ensures 0 < SleepAt(p, k) && SleepAt(p, k) as real <= Ideal(p, k) && (k > 0 ==> SleepAt(p, k) <= p.max)
  {
    ScaleGrows(p.multiplier);
    BoundedBy(Scale(p.multiplier), p.initial, p.max, k);
  }

  /** The ideal sleep, if below the cap, has no fraction to be truncated. */
  ghost predicate WholeAt(f: real -> real, initial: int, max: int, k: nat) {
    IdealBy(f, initial, k) < max as real ==> Whole(IdealBy(f, initial, k))
  }

  ghost predicate NoTruncation(p: Policy, k: nat) { WholeAt(Scale(p.multiplier), p.initial, p.max, k) }

  lemma {:induction false} ClosedFormBy(f: real -> real, initial: int, max: int, k: nat)
    requires Growing(f) && initial > 0 && max > 0
    requires forall j: nat :: j <= k ==> WholeAt(f, initial, max, j)
    ensures SleepBy(f, initial, max, k) as real ==
            if k == 0 then initial as real else Min(IdealBy(f, initial, k), max as real)
  {
    if k == 0 {
    } else {
      ClosedFormBy(f, initial, max, k - 1);
      IdealGrows(f, initial, k - 1);
      assert WholeAt(f, initial, max, k);
      NextCaps(f, max, SleepBy(f, initial, max, k - 1), IdealBy(f, initial, k - 1));
    }
  }

  /** One more sleep, from the closed form of the one before. */
  lemma NextCaps(f: real -> real, max: int, sleep: int, ideal: real)
    requires Growing(f) && max > 0 && ideal > 0.0
    requires sleep as real == ideal || (sleep == max && max as real < ideal)
    requires f(ideal) < max as real ==> Whole(f(ideal))
    ensures Capped(max, f(sleep as real)) as real == Min(f(ideal), max as real)
  {
    CappedIsExact(max, f(sleep as real));
  }

  /** Closed form of the backoff, until truncation sets in: exponential from the initial sleep, capped
      after the first. */
  lemma SleepClosedForm(p: Policy, k: nat)
    requires Sound(p) && forall j: nat :: j <= k ==> NoTruncation(p, j)
    ensures SleepAt(p, k) as real == if k == 0 then p.initial as real else Min(Ideal(p, k), p.max as real)
  {
    ScaleGrows(p.multiplier);
    forall j: nat | j <= k ensures WholeAt(Scale(p.multiplier), p.initial, p.max, j) {
      assert NoTruncation(p, j);
    }
    ClosedFormBy(Scale(p.multiplier), p.initial, p.max, k);
  }

  /** Every sleep is the smaller of the exponential and the cap exactly when the initial sleep does
      not exceed the cap and no exponential below the cap has a fraction to be truncated. */
  lemma SleepIsCappedExponential(p: Policy)
    requires Sound(p)
    ensures (p.initial <= p.max && forall k :: NoTruncation(p, k)) <==>
            forall k: nat :: SleepAt(p, k) as real == Min(Ideal(p, k), p.max as real)
  {
    assert Ideal(p, 0) == SleepAt(p, 0) as real == p.initial as real;
    if p.initial <= p.max && forall k :: NoTruncation(p, k) {
      forall k: nat ensures SleepAt(p, k) as real == Min(Ideal(p, k), p.max as real) {
        SleepClosedForm(p, k);
      }
    }
    if forall k: nat :: SleepAt(p, k) as real == Min(Ideal(p, k), p.max as real) {
      forall k ensures NoTruncation(p, k) {
        assert SleepAt(p, k) as real == Min(Ideal(p, k), p.max as real);
      }
    }
  }

  // ---- The window ----

  predicate Sorted(ts: seq<int>) { forall i, j :: 0 <= i < j < |ts| ==> ts[i] <= ts[j] }

  /** The failures no older than `cutoff`, in order. */
  function Since(ts: seq<int>, cutoff: int): seq<int> {
    if ts == [] then []
    else (if ts[0] >= cutoff then [ts[0]] else []) + Since(ts[1..], cutoff)
  }

  /** The failures within the window of the latest one. */
  function Recent(fails: seq<int>, window: int): seq<int>
    requires fails != []
  {
    Since(fails, fails[|fails| - 1] - window)
  }

  /** How many of the first `k` failures lie within the window of the `k`-th. */
  function CountAt(fails: seq<int>, k: nat, window: int): nat
    requires 0 < k <= |fails|
  {
    |Recent(fails[..k], window)|
  }

  lemma {:induction false} SinceIsSuffix(ts: seq<int>, cutoff: int, lo: nat)
    requires lo <= |ts|
    requires forall i :: 0 <= i < lo ==> ts[i] < cutoff
    requires forall i :: lo <= i < |ts| ==> ts[i] >= cutoff
    ensures Since(ts, cutoff) == ts[lo..]
    decreases |ts|
  {
    if ts == [] {
    } else {
      SinceIsSuffix(ts[1..], cutoff, if lo == 0 then 0 else lo - 1);
      if lo == 0 {
        assert ts[1..][0..] == ts[1..] && ts == [ts[0]] + ts[1..];
      } else {
        assert ts[1..][lo - 1..] == ts[lo..];
      }
    }
  }

  // ---- The loop ----

  /** What every prefix of a run that was followed by a restart satisfies. */
  ghost predicate RestartedWithin(fails: seq<int>, restarts: nat, p: Policy)
    requires restarts <= |fails|
  {
    forall k :: 0 < k <= restarts ==> CountAt(fails, k, p.window) <= p.tries
  }

  /** How one invocation ended: cleanly, with an error at a time, or by cancellation. */
  datatype Attempt = Clean | Failed(at: int) | Cancelled

  datatype Verdict = Finished | Stopped | GaveUp | Propagated | Waiting

  /** Failures are dated by one monotonic clock. */
  predicate Monotonic(script: seq<Attempt>) {
    forall i, j :: 0 <= i < j < |script| && script[i].Failed? && script[j].Failed? ==> script[i].at <= script[j].at
  }

  /** The first `n` attempts failed, at `fails`, and each was followed by a restart. */
  ghost predicate Reached(p: Policy, script: seq<Attempt>, n: nat, fails: seq<int>) {
    && |fails| == n <= |script|
    && (forall i :: 0 <= i < n ==> script[i] == Failed(fails[i]))
    && RestartedWithin(fails, n, p)
  }

  /** The run ends at attempt `n` with this verdict: the attempt came back clean, was cancelled,
      or failed once too often; or the script ends before the job does. */
  ghost predicate Ends(p: Policy, critical: bool, script: seq<Attempt>, n: nat, fails: seq<int>, verdict: Verdict) {
    if verdict.GaveUp? || verdict.Propagated? then
      && n < |script| && |fails| == n + 1 && Reached(p, script, n, fails[..n])
      && script[n] == Failed(fails[n]) && CountAt(fails, n + 1, p.window) > p.tries
      && (verdict.Propagated? <==> critical)
    else
      && Reached(p, script, n, fails)
      && (verdict.Waiting? <==> n == |script|)
      && (verdict.Finished? ==> script[n].Clean?)
      && (verdict.Stopped? ==> script[n].Cancelled?)
  }

  /** A script and a policy leave one way for the run to end. */
  lemma EndingIsUnique(p: Policy, critical: bool, script: seq<Attempt>,
                       m: nat, xs: seq<int>, v: Verdict, n: nat, ys: seq<int>, w: Verdict)
    requires Ends(p, critical, script, m, xs, v) && Ends(p, critical, script, n, ys, w) && m <= n
    ensures m == n && xs == ys && v == w
  {
    if v.GaveUp? || v.Propagated? {
      if m < n {
        var restarted := if |ys| == n then ys else ys[..n];
        RestartedAnyway(p, script, n, restarted, m, xs);
      }
    }
  }

  /** A failure that was followed by a restart was not one too many. */
  lemma RestartedAnyway(p: Policy, script: seq<Attempt>, n: nat, fails: seq<int>, m: nat, xs: seq<int>)
    requires Reached(p, script, n, fails) && m < n
    requires |xs| == m + 1 && forall i :: 0 <= i <= m ==> script[i] == Failed(xs[i])
    ensures CountAt(xs, m + 1, p.window) <= p.tries
  {
    assert forall i :: 0 <= i <= m ==> script[i] == Failed(fails[i]) && xs[i] == fails[i];
    assert xs[..m + 1] == fails[..m + 1];
    assert CountAt(fails, m + 1, p.window) <= p.tries;
  }

  lemma CountsExtend(before: seq<int>, fails: seq<int>, p: Policy)
    requires before <= fails && RestartedWithin(before, |before|, p)
    ensures RestartedWithin(fails, |before|, p)
    ensures |fails| == |before| + 1 && |Recent(fails, p.window)| <= p.tries ==> RestartedWithin(fails, |fails|, p)
  {
    assert fails[..|fails|] == fails;
    forall k | 0 < k <= |before| ensures CountAt(fails, k, p.window) <= p.tries {
      assert fails[..k] == before[..k] && CountAt(before, k, p.window) <= p.tries;
    }
  }

  /** The trimmed list is exactly the failures within the window of the latest one. */
  ghost predicate Trimmed(fails: seq<int>, kept: seq<int>, window: int) {
    kept == if fails == [] then [] else Recent(fails, window)
  }

  /** On a monotonic clock the recent failures are a suffix. */
  lemma {:induction false} SinceStarts(ts: seq<int>, cutoff: int) returns (lo: nat)
    requires Sorted(ts)
    ensures lo <= |ts| && Since(ts, cutoff) == ts[lo..]
    ensures (forall i :: 0 <= i < lo ==> ts[i] < cutoff) && (forall i :: lo <= i < |ts| ==> ts[i] >= cutoff)
  {
    lo := 0;
    while lo < |ts| && ts[lo] < cutoff
      invariant lo <= |ts| && forall i :: 0 <= i < lo ==> ts[i] < cutoff
    {
      lo := lo + 1;
    }
    SinceIsSuffix(ts, cutoff, lo);
  }

  /** Where the trimmed list starts once a failure is appended. */
  lemma RecordStarts(fails: seq<int>, kept: seq<int>, now: int, window: int) returns (lo: nat)
    requires Trimmed(fails, kept, window) && Sorted(fails + [now])
    ensures lo <= |fails| && kept + [now] == (fails + [now])[lo..]
    ensures forall i :: 0 <= i < lo ==> fails[i] < now - window
  {
    lo := 0;
    if fails != [] {
      var last := fails[|fails| - 1];
      PrefixSorted(fails, now);
      lo := SinceStarts(fails, last - window);
      assert kept + [now] == (fails + [now])[lo..];
    }
  }

  lemma PrefixSorted(fails: seq<int>, now: int)
    requires Sorted(fails + [now]) && fails != []
    ensures Sorted(fails) && fails[|fails| - 1] <= now
  {
    var grown := fails + [now];
    assert forall i :: 0 <= i < |fails| ==> grown[i] == fails[i];
    assert grown[|fails| - 1] <= grown[|fails|];
  }

  /** What dropping old failures from the front leaves. */
  function FromCutoff(ts: seq<int>, cutoff: int): seq<int> {
    if ts == [] || ts[0] >= cutoff then ts else FromCutoff(ts[1..], cutoff)
  }

  /** On a monotonic clock dropping from the front drops all that is old. */
  lemma {:induction false} FrontIsOld(ts: seq<int>, cutoff: int)
    requires Sorted(ts)
    ensures FromCutoff(ts, cutoff) == Since(ts, cutoff)
    decreases |ts|
  {
    if ts == [] {
    } else if ts[0] >= cutoff {
      SinceIsSuffix(ts, cutoff, 0);
    } else {
      FrontIsOld(ts[1..], cutoff);
    }
  }

  lemma {:induction false} SinceSkips(ts: seq<int>, cutoff: int, lo: nat)
    requires lo <= |ts| && forall i :: 0 <= i < lo ==> ts[i] < cutoff
    ensures Since(ts, cutoff) == Since(ts[lo..], cutoff)
    decreases lo
  {
    if lo == 0 {
      assert ts[0..] == ts;
    } else {
      SinceSkips(ts[1..], cutoff, lo - 1);
      assert ts[1..][lo - 1..] == ts[lo..];
    }
  }

  /** Appends a failure and drops from the front those outside its window. */
  method Record(window: int, ghost fails: seq<int>, kept: seq<int>, now: int) returns (trimmed: seq<int>)
    requires Trimmed(fails, kept, window) && Sorted(fails + [now])
    ensures Trimmed(fails + [now], trimmed, window)
  {
    RecordTrims(window, fails, kept, now);
    trimmed := DropOld(kept + [now], now - window);
  }

  lemma RecordTrims(window: int, fails: seq<int>, kept: seq<int>, now: int)
    requires Trimmed(fails, kept, window) && Sorted(fails + [now])
    ensures Trimmed(fails + [now], FromCutoff(kept + [now], now - window), window)
  {
    var lo := RecordStarts(fails, kept, now, window);
    TrimsTo(fails + [now], lo, now - window);
  }

  lemma TrimsTo(grown: seq<int>, lo: nat, cutoff: int)
    requires Sorted(grown) && lo <= |grown| && forall i :: 0 <= i < lo ==> grown[i] < cutoff
    ensures FromCutoff(grown[lo..], cutoff) == Since(grown, cutoff)
  {
    SuffixSorted(grown, lo);
    SinceSkips(grown, cutoff, lo);
    FrontIsOld(grown[lo..], cutoff);
  }

  lemma SuffixSorted(ts: seq<int>, lo: nat)
    requires Sorted(ts) && lo <= |ts|
    ensures Sorted(ts[lo..])
  {
  }

  method DropOld(failures: seq<int>, cutoff: int) returns (trimmed: seq<int>)
    ensures trimmed == FromCutoff(failures, cutoff)
  {
    trimmed := failures;
    while |trimmed| > 0 && trimmed[0] < cutoff
      invariant FromCutoff(trimmed, cutoff) == FromCutoff(failures, cutoff)
    {
      trimmed := trimmed[1..];
    }
  }

  /** One failed attempt: record it and decide whether the job is restarted. */
  method Fail(p: Policy, ghost fails: seq<int>, kept: seq<int>, now: int) returns (trimmed: seq<int>, again: bool)
    requires Trimmed(fails, kept, p.window) && Sorted(fails + [now]) && RestartedWithin(fails, |fails|, p)
    ensures Trimmed(fails + [now], trimmed, p.window) && (again <==> |trimmed| <= p.tries)
    ensures RestartedWithin(fails + [now], if again then |fails| + 1 else |fails|, p)
  {
    trimmed := Record(p.window, fails, kept, now);
    again := |trimmed| <= p.tries;
    CountsExtend(fails, fails + [now], p);
  }

  /** The times stay sorted as a failed attempt is added. */
  lemma FailuresSorted(p: Policy, script: seq<Attempt>, n: nat, fails: seq<int>)
    requires Monotonic(script) && n < |script| && Reached(p, script, n, fails) && script[n].Failed?
    ensures Sorted(fails + [script[n].at])
  {
    var grown := fails + [script[n].at];
    assert forall i :: 0 <= i <= n ==> script[i] == Failed(grown[i]);
  }

  /** Attempt `n` failed: the run goes on, or ends here. */
  method FailAt(p: Policy, critical: bool, script: seq<Attempt>, n: nat, fails: seq<int>, kept: seq<int>)
    returns (grown: seq<int>, trimmed: seq<int>, again: bool)
    requires Monotonic(script) && n < |script| && script[n].Failed? && Reached(p, script, n, fails)
    requires Trimmed(fails, kept, p.window)
    ensures grown == fails + [script[n].at] && Sorted(grown) && Trimmed(grown, trimmed, p.window)
    ensures again ==> Reached(p, script, n + 1, grown)
    ensures !again ==> Ends(p, critical, script, n, grown, if critical then Propagated else GaveUp)
    ensures !again ==> RestartedWithin(grown, n, p)
  {
    FailuresSorted(p, script, n, fails);
    trimmed, again := Fail(p, fails, kept, script[n].at);
    grown := fails + [script[n].at];
    assert grown[..n + 1] == grown && grown[..n] == fails;
  }

  /** Runs the job through a script of attempts. `n` is the attempt the run ended at, `fails`
      the failures seen, `kept` the trimmed list at the end and `sleeps` the pauses, one before
      each restart. */
  method Run(p: Policy, critical: bool, script: seq<Attempt>)
    returns (verdict: Verdict, n: nat, fails: seq<int>, kept: seq<int>, sleeps: seq<int>)
    requires Sound(p) && Monotonic(script)
    ensures Ends(p, critical, script, n, fails, verdict)
    ensures Sorted(fails) && Trimmed(fails, kept, p.window) && RestartedWithin(fails, n, p)
    ensures |sleeps| == n && Sleeps(sleeps, p)
  {
    var sleep := p.initial;
    n, fails, kept, sleeps := 0, [], [], [];
    while n < |script|
      invariant Reached(p, script, n, fails) && Sorted(fails) && Trimmed(fails, kept, p.window)
      invariant |sleeps| == n && Sleeps(sleeps, p) && sleep == SleepAt(p, n)
    {
      if script[n].Clean? {
        return Finished, n, fails, kept, sleeps;
      }
      if script[n].Cancelled? {
        return Stopped, n, fails, kept, sleeps;
      }
      var again;
      fails, kept, again := FailAt(p, critical, script, n, fails, kept);
      if !again {
        return if critical then Propagated else GaveUp, n, fails, kept, sleeps;
      }
      SleepsExtend(sleeps, p);
      sleeps := sleeps + [sleep];
      sleep := Next(p, sleep);
      n := n + 1;
    }
    verdict := Waiting;
  }

  ghost predicate Sleeps(sleeps: seq<int>, p: Policy) {
    forall k :: 0 <= k < |sleeps| ==> sleeps[k] == SleepAt(p, k)
  }

  lemma SleepsExtend(sleeps: seq<int>, p: Policy)
    requires Sleeps(sleeps, p)
    ensures Sleeps(sleeps + [SleepAt(p, |sleeps|)], p)
  {
  }

  lemma {:induction false} SinceHolds(ts: seq<int>, cutoff: int, a: nat)
    requires a <= |ts| && forall i :: a <= i < |ts| ==> ts[i] >= cutoff
    ensures |Since(ts, cutoff)| >= |ts| - a
    decreases |ts|
  {
    if ts == [] {
    } else {
      SinceHolds(ts[1..], cutoff, if a == 0 then 0 else a - 1);
    }
  }

  /** No interval of the window's length ever holds more than Tries + 1 failures. */
  lemma WindowIsBounded(fails: seq<int>, restarts: nat, p: Policy, a: nat, b: nat)
    requires Sorted(fails) && restarts <= |fails| <= restarts + 1 && RestartedWithin(fails, restarts, p)
    requires 0 < p.tries && a <= b < |fails| && fails[b] - fails[a] <= p.window
    ensures b - a + 1 <= p.tries + 1
  {
    var last := if b < restarts then b else b - 1;
    if a <= last {
      var head := fails[..last + 1];
      assert CountAt(fails, last + 1, p.window) <= p.tries;
      assert head[last] == fails[last] && forall i :: a <= i < |head| ==> head[i] >= fails[a];
      SinceHolds(head, head[last] - p.window, a);
    }
  }

  /** Too many failures lie within the window exactly when the latest one and the one `tries`
      before it do. */
  lemma TooManyExactly(fails: seq<int>, k: nat, p: Policy)
    requires Sorted(fails) && 0 < k <= |fails| && 0 < p.tries
    ensures CountAt(fails, k, p.window) > p.tries <==>
            p.tries < k && fails[k - 1] - fails[k - 1 - p.tries] <= p.window
  {
    var head := fails[..k];
    var lo := SinceStarts(head, head[k - 1] - p.window);
    assert CountAt(fails, k, p.window) == k - lo;
  }

  /** When a run gives up, in terms of the times of its failures: at the first one that comes no
      later than the window after the one `tries` before it. */
  lemma GivesUpExactly(p: Policy, critical: bool, script: seq<Attempt>, n: nat, fails: seq<int>, verdict: Verdict)
    requires Sound(p) && Monotonic(script) && Ends(p, critical, script, n, fails, verdict)
    ensures forall i :: 0 <= i < n ==> script[i].Failed?
    ensures forall m :: p.tries <= m < n ==> script[m].at - script[m - p.tries].at > p.window
    ensures (verdict.GaveUp? || verdict.Propagated?) <==>
            n < |script| && script[n].Failed? && p.tries <= n && script[n].at - script[n - p.tries].at <= p.window
    ensures verdict.Propagated? ==> critical
    ensures verdict.GaveUp? ==> !critical
  {
    FailuresAreDated(p, critical, script, n, fails, verdict);
    forall m | p.tries <= m < n ensures script[m].at - script[m - p.tries].at > p.window {
      RestartedLate(p, script, n, fails, verdict, critical, m);
    }
    if verdict.GaveUp? || verdict.Propagated? {
      TooManyExactly(fails, n + 1, p);
    }
  }

  lemma FailuresAreDated(p: Policy, critical: bool, script: seq<Attempt>, n: nat, fails: seq<int>, verdict: Verdict)
    requires Monotonic(script) && Ends(p, critical, script, n, fails, verdict)
    ensures n <= |fails| <= |script| && Sorted(fails)
    ensures forall i :: 0 <= i < |fails| ==> script[i] == Failed(fails[i])
  {
    if verdict.GaveUp? || verdict.Propagated? {
      assert forall i :: 0 <= i < n ==> fails[..n][i] == fails[i];
    }
  }

  lemma RestartedLate(p: Policy, script: seq<Attempt>, n: nat, fails: seq<int>, verdict: Verdict,
                      critical: bool, m: nat)
    requires Sound(p) && Monotonic(script) && Ends(p, critical, script, n, fails, verdict) && p.tries <= m < n
    ensures fails[m] - fails[m - p.tries] > p.window
  {
    FailuresAreDated(p, critical, script, n, fails, verdict);
    var before := if verdict.GaveUp? || verdict.Propagated? then fails[..n] else fails;
    assert Reached(p, script, n, before);
    TooManyExactly(before, m + 1, p);
    assert CountAt(before, m + 1, p.window) <= p.tries;
  }
}
