/**
 * Bring-up of the onboard Kalman estimator, shared by `QualisysCrazyflie.setup_estimator`
 * and the toolkit's free function `setup_estimator`: select and reset the estimator, then
 * read variance samples until the last ten samples of every axis agree to within 0.001.
 * The telemetry stream is a finite sequence of samples; the settle delays are not modelled.
 */
module Estimator {
  import opened Wrappers
  import opened CrazyflieLink

  const WindowSize: nat := 10
  const InitialVariance: real := 1000.0
  const Threshold: real := 0.001

  /** One entry of the 'Kalman Variance' log block: kalman.varPX, varPY, varPZ. */
  datatype Sample = Sample(varPX: real, varPY: real, varPZ: real)

  datatype Axis = X | Y | Z

  function Component(s: Sample, a: Axis): real {
    match a
    case X => s.varPX
    case Y => s.varPY
    case Z => s.varPZ
  }

  /** The values one axis has taken over a stream of samples. */
  function Trace(samples: seq<Sample>, a: Axis): (vs: seq<real>)
    ensures |vs| == |samples|
  {
    seq(|samples|, i requires 0 <= i < |samples| => Component(samples[i], a))
  }

  function Min(s: seq<real>): real
    requires |s| > 0
  {
    if |s| == 1 then s[0]
    else
      var rest := Min(s[1..]);
      if s[0] <= rest then s[0] else rest
  }

  function Max(s: seq<real>): real
    requires |s| > 0
  {
    if |s| == 1 then s[0]
    else
      var rest := Max(s[1..]);
      if s[0] >= rest then s[0] else rest
  }

  /** `min` returns an entry of the window that no entry is below. */
  lemma {:induction false} MinIsLeast(s: seq<real>)
    requires |s| > 0
    ensures Min(s) in s
    ensures forall k :: 0 <= k < |s| ==> Min(s) <= s[k]
  {
    if |s| > 1 {
      MinIsLeast(s[1..]);
      forall k | 1 <= k < |s| ensures Min(s) <= s[k] {
        assert s[k] == s[1..][k - 1];
      }
    }
  }

  /** `max` returns an entry of the window that no entry is above. */
  lemma {:induction false} MaxIsGreatest(s: seq<real>)
    requires |s| > 0
    ensures Max(s) in s
    ensures forall k :: 0 <= k < |s| ==> s[k] <= Max(s)
  {
    if |s| > 1 {
      MaxIsGreatest(s[1..]);
      forall k | 1 <= k < |s| ensures s[k] <= Max(s) {
        assert s[k] == s[1..][k - 1];
      }
    }
  }

  /** max(window) - min(window), the quantity the loop compares with the threshold. */
  function Spread(w: seq<real>): real
    requires |w| > 0
  {
    Max(w) - Min(w)
  }

  /** The spread is below `t` exactly when every two entries of the window differ by less than `t`. */
  lemma SpreadBelow(w: seq<real>, t: real)
    requires |w| > 0
    ensures Spread(w) < t <==> forall i, j :: 0 <= i < |w| && 0 <= j < |w| ==> w[i] - w[j] < t
  {
    MinIsLeast(w);
    MaxIsGreatest(w);
    if forall i, j :: 0 <= i < |w| && 0 <= j < |w| ==> w[i] - w[j] < t {
      var i :| 0 <= i < |w| && w[i] == Max(w);
      var j :| 0 <= j < |w| && w[j] == Min(w);
      assert w[i] - w[j] < t;
    }
  }

  /** Each history starts as ten copies of 1000. */
  function InitialWindow(): (w: seq<real>)
    ensures |w| == WindowSize
    ensures forall k :: 0 <= k < |w| ==> w[k] == InitialVariance
  {
    seq(WindowSize, _ => InitialVariance)
  }

  /** `history.append(v); history.pop(0)`. */
  function Slide(w: seq<real>, v: real): (r: seq<real>)
    requires |w| > 0
    ensures |r| == |w|
    ensures r[..|w| - 1] == w[1..] && r[|w| - 1] == v
  {
    (w + [v])[1..]
  }

  /** The history after the values `vs` have been read, one append-then-pop step per value. */
  function WindowAfter(vs: seq<real>): (w: seq<real>)
    ensures |w| == WindowSize
    decreases |vs|
  {
    if |vs| == 0 then InitialWindow() else Slide(WindowAfter(vs[..|vs| - 1]), vs[|vs| - 1])
  }

  lemma SlideWindowAfter(vs: seq<real>, v: real)
    ensures Slide(WindowAfter(vs), v) == WindowAfter(vs + [v])
  {
    assert (vs + [v])[..|vs|] == vs;
  }

  /** The history always holds the last ten values of ten 1000s followed by the samples so far. */
  lemma {:induction false} WindowAfterIsLastTen(vs: seq<real>)
    ensures WindowAfter(vs) == (InitialWindow() + vs)[|vs|..]
  {
    if |vs| > 0 {
      var front := vs[..|vs| - 1];
      WindowAfterIsLastTen(front);
      assert InitialWindow() + vs == (InitialWindow() + front) + [vs[|vs| - 1]];
    }
  }

  /** Once ten samples have arrived the initial 1000s are gone: the history is the last ten samples. */
  lemma WindowAfterIsLastSamples(vs: seq<real>)
    requires |vs| >= WindowSize
    ensures WindowAfter(vs) == vs[|vs| - WindowSize..]
  {
    WindowAfterIsLastTen(vs);
    var a := InitialWindow() + vs;
    forall k | 0 <= k < WindowSize
      ensures a[|vs|..][k] == vs[|vs| - WindowSize..][k]
    {
    }
  }

  lemma TraceExtend(samples: seq<Sample>, i: nat, a: Axis)
    requires i < |samples|
    ensures Trace(samples[..i + 1], a) == Trace(samples[..i], a) + [Component(samples[i], a)]
  {
  }

  /** One axis's history after the first `n` samples have been read. */
  function HistoryAt(samples: seq<Sample>, n: nat, a: Axis): (w: seq<real>)
    requires n <= |samples|
    ensures |w| == WindowSize
  {
    WindowAfter(Trace(samples[..n], a))
  }

  /** The loop's exit test right after the `n`-th sample. */
  predicate SettledAt(samples: seq<Sample>, n: nat)
    requires n <= |samples|
  {
    Spread(HistoryAt(samples, n, X)) < Threshold &&
    Spread(HistoryAt(samples, n, Y)) < Threshold &&
    Spread(HistoryAt(samples, n, Z)) < Threshold
  }

  /** Reading sample `i` moves one axis's history on by one append-then-pop step. */
  lemma AdvanceHistory(samples: seq<Sample>, i: nat, a: Axis, w: seq<real>)
    requires i < |samples|
    requires w == HistoryAt(samples, i, a)
    ensures (w + [Component(samples[i], a)])[1..] == HistoryAt(samples, i + 1, a)
  {
    TraceExtend(samples, i, a);
    SlideWindowAfter(Trace(samples[..i], a), Component(samples[i], a));
  }

  /** Every axis of a stretch of samples agrees to within the threshold. */
  predicate Calm(stretch: seq<Sample>) {
    |stretch| > 0 &&
    Spread(Trace(stretch, X)) < Threshold &&
    Spread(Trace(stretch, Y)) < Threshold &&
    Spread(Trace(stretch, Z)) < Threshold
  }

  /** The exit test failed after each of the first `n` samples. */
  predicate QuietThrough(samples: seq<Sample>, n: nat)
    requires n <= |samples|
  {
    n == 0 || (!SettledAt(samples, n) && QuietThrough(samples, n - 1))
  }

  lemma {:induction false} QuietThroughEach(samples: seq<Sample>, n: nat, j: nat)
    requires n <= |samples|
    requires QuietThrough(samples, n)
    requires 0 < j <= n
    ensures !SettledAt(samples, j)
    decreases n
  {
    if j < n {
      QuietThroughEach(samples, n - 1, j);
    }
  }

  lemma {:induction false} EachQuietThrough(samples: seq<Sample>, n: nat)
    requires n <= |samples|
    requires forall j :: 0 < j <= n ==> !SettledAt(samples, j)
    ensures QuietThrough(samples, n)
  {
    if n > 0 {
      EachQuietThrough(samples, n - 1);
    }
  }

  lemma QuietThroughMeans(samples: seq<Sample>, n: nat)
    requires n <= |samples|
    ensures QuietThrough(samples, n) <==> forall j :: 0 < j <= n ==> !SettledAt(samples, j)
  {
    if QuietThrough(samples, n) {
      forall j | 0 < j <= n ensures !SettledAt(samples, j) {
        QuietThroughEach(samples, n, j);
      }
    } else if forall j :: 0 < j <= n ==> !SettledAt(samples, j) {
      EachQuietThrough(samples, n);
    }
  }

  /**
   * `steps` is the outcome of waiting on `samples`: Some(k) when the loop leaves right after
   * the k-th sample, the first after which all three spreads are below the threshold; None
   * when no prefix of the stream settles (the source then goes on waiting).
   */
  predicate ConvergesAt(samples: seq<Sample>, steps: Option<nat>) {
    match steps
    case Some(k) => 0 < k <= |samples| && SettledAt(samples, k) && QuietThrough(samples, k - 1)
    case None => QuietThrough(samples, |samples|)
  }

  /** The outcome is determined by the stream: the first settled prefix, or none. */
  lemma ConvergesAtFirst(samples: seq<Sample>, steps: Option<nat>)
    requires ConvergesAt(samples, steps)
    ensures steps.Some? ==> forall j :: 0 < j < steps.value ==> !SettledAt(samples, j)
    ensures steps.None? <==> forall j :: 0 < j <= |samples| ==> !SettledAt(samples, j)
  {
    match steps
    case Some(k) =>
      QuietThroughMeans(samples, k - 1);
      QuietThroughMeans(samples, |samples|);
    case None =>
      QuietThroughMeans(samples, |samples|);
  }

  /** The polling loop: three rolling windows, updated by append and `pop(0)`. */
  method WaitForConvergence(samples: seq<Sample>) returns (steps: Option<nat>)
    ensures ConvergesAt(samples, steps)
  {
    var varXHistory := InitialWindow();
    var varYHistory := InitialWindow();
    var varZHistory := InitialWindow();
    var i := 0;
    while i < |samples|
      invariant 0 <= i <= |samples|
      invariant varXHistory == HistoryAt(samples, i, X)
      invariant varYHistory == HistoryAt(samples, i, Y)
      invariant varZHistory == HistoryAt(samples, i, Z)
      invariant QuietThrough(samples, i)
    {
      var data := samples[i];
      AdvanceHistory(samples, i, X, varXHistory);
      AdvanceHistory(samples, i, Y, varYHistory);
      AdvanceHistory(samples, i, Z, varZHistory);
      varXHistory := varXHistory + [data.varPX];
      varXHistory := varXHistory[1..];
      varYHistory := varYHistory + [data.varPY];
      varYHistory := varYHistory[1..];
      varZHistory := varZHistory + [data.varPZ];
      varZHistory := varZHistory[1..];

      var minX, maxX := Min(varXHistory), Max(varXHistory);
      var minY, maxY := Min(varYHistory), Max(varYHistory);
      var minZ, maxZ := Min(varZHistory), Max(varZHistory);
      i := i + 1;
      if maxX - minX < Threshold && maxY - minY < Threshold && maxZ - minZ < Threshold {
        return Some(i);
      }
    }
    return None;
  }

  /**
   * Ten consecutive samples whose every axis agrees to within the threshold settle the
   * windows: the loop then leaves no later than the tenth of them.
   */
  lemma StableStreamConverges(samples: seq<Sample>, j: nat, steps: Option<nat>)
    requires WindowSize <= j <= |samples|
    requires Calm(samples[j - WindowSize..j])
    requires ConvergesAt(samples, steps)
    ensures steps.Some? && steps.value <= j
  {
    CalmSettles(samples, j, X);
    CalmSettles(samples, j, Y);
    CalmSettles(samples, j, Z);
    assert SettledAt(samples, j);
    ConvergesAtFirst(samples, steps);
  }

  lemma CalmSettles(samples: seq<Sample>, j: nat, a: Axis)
    requires WindowSize <= j <= |samples|
    requires Spread(Trace(samples[j - WindowSize..j], a)) < Threshold
    ensures Spread(HistoryAt(samples, j, a)) < Threshold
  {
    var vs := Trace(samples[..j], a);
    WindowAfterIsLastSamples(vs);
    assert vs[j - WindowSize..] == Trace(samples[j - WindowSize..j], a);
  }

  /** The four parameter writes that select and reset the Kalman estimator, in order. */
  function ResetCommands(): (cs: seq<Command>)
    ensures |cs| == 4
    ensures cs[0] == SetParam("stabilizer.estimator", Text("2"))
    ensures cs[1] == SetParam("locSrv.extQuatStdDev", Real(0.6))
    ensures cs[2] == SetParam("kalman.resetEstimation", Text("1")) && cs[3] == SetParam("kalman.resetEstimation", Text("0"))
  {
    [ SetParam("stabilizer.estimator", Text("2")),
      SetParam("locSrv.extQuatStdDev", Real(0.6)),
      SetParam("kalman.resetEstimation", Text("1")),
      SetParam("kalman.resetEstimation", Text("0")) ]
  }

  /** `setup_estimator`: reset the estimator over `link`, then wait for convergence. */
  method SetupEstimator(link: Link, samples: seq<Sample>) returns (steps: Option<nat>)
    modifies link
    ensures link.log == old(link.log) + ResetCommands()
    ensures ConvergesAt(samples, steps)
  {
    var cmds := ResetCommands();
    link.Send(cmds[0]);
    link.Send(cmds[1]);
    link.Send(cmds[2]);
    link.Send(cmds[3]);
    assert link.log == old(link.log) + [cmds[0], cmds[1], cmds[2], cmds[3]];
    assert cmds == [cmds[0], cmds[1], cmds[2], cmds[3]];
    steps := WaitForConvergence(samples);
  }
}
