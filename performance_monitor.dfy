/**
 * The bookkeeping of the performance monitor: a bounded history of
 * metric samples, the windowed maximum, minimum and average over its
 * most recent entries, and the list of threshold warnings that expire
 * after five minutes. The sampling thread and the system readings are
 * not modelled; samples and clock readings are inputs. Clock readings
 * are integer nanoseconds of the steady clock.
 */
module PerformanceMonitor {
  import opened Detections

  /** `PerformanceMetrics`; the doubles are exact reals. */
  datatype Metrics = Metrics(
    cpuUsage: real, cpuTemperature: real,
    memoryUsedMb: nat, memoryTotalMb: nat, memoryUsage: real,
    fps: real, averageFrameTimeMs: real, detectionTimeMs: real, facesDetected: int,
    diskUsage: real, networkUsage: real,
    timestamp: int)

  /** A default-constructed sample: all zero, stamped with the clock. */
  function DefaultMetrics(now: int): (m: Metrics)
  {
    Metrics(0.0, 0.0, 0, 0, 0.0, 0.0, 0.0, 0.0, 0, 0.0, 0.0, now)
  }

  /** The part of `PerformanceMonitorConfig` the bookkeeping reads. */
  datatype MonitorConfig = MonitorConfig(
    enableCpu: bool, enableMemory: bool, enableTemperature: bool,
    historySize: int,
    cpuThreshold: real, memoryThreshold: real, temperatureThreshold: real)

  function DefaultMonitorConfig(): (c: MonitorConfig)
  {
    MonitorConfig(true, true, false, 60, 80.0, 90.0, 70.0)
  }

  // ---------------------------------------------------------------------
  // History

  /**
   * One `addToHistory` step: append, then drop the oldest entry if the
   * history is longer than the limit. A negative limit, converted to
   * `size_t`, never limits.
   */
  function AddStep(history: seq<Metrics>, m: Metrics, limit: int): (h: seq<Metrics>)
  {
    if limit >= 0 && |history| + 1 > limit then (history + [m])[1..] else history + [m]
  }

  /** The history after a series of additions. */
  function AfterAdds(history: seq<Metrics>, adds: seq<Metrics>, limit: int): (h: seq<Metrics>)
    decreases |adds|
  {
    if adds == [] then history
    else AddStep(AfterAdds(history, adds[..|adds| - 1], limit), adds[|adds| - 1], limit)
  }

  function Min(a: int, b: int): int { if a <= b then a else b }

  /**
   * From an empty history and a fixed limit of zero or more, the history
   * holds exactly the last `limit` samples added, oldest first.
   */
  lemma {:induction false} HistoryKeepsLastAdds(adds: seq<Metrics>, limit: int)
    requires limit >= 0
    ensures AfterAdds([], adds, limit) == adds[|adds| - Min(limit, |adds|)..]
    decreases |adds|
  {
    if adds != [] {
      var init := adds[..|adds| - 1];
      HistoryKeepsLastAdds(init, limit);
      var before := AfterAdds([], init, limit);
      assert before == init[|init| - Min(limit, |init|)..];
      if |before| + 1 > limit {
        assert (before + [adds[|adds| - 1]])[1..] == adds[|adds| - Min(limit, |adds|)..];
      } else {
        assert before + [adds[|adds| - 1]] == adds[|adds| - Min(limit, |adds|)..];
      }
    }
  }

  /** `getHistory(count)`: the last `count` samples, all of them if fewer, none for a count of zero or less. */
  function Window(history: seq<Metrics>, count: int): (w: seq<Metrics>)
    ensures count <= 0 || history == [] ==> w == []
    ensures count > 0 ==> |w| == Min(count, |history|) && w == history[|history| - |w|..]
  {
    if count <= 0 || history == [] then []
    else history[if |history| - count > 0 then |history| - count else 0..]
  }

  /** A window of the history is a window of what was added. */
  lemma WindowOfAdds(adds: seq<Metrics>, limit: int, count: int)
    requires limit >= 0 && count > 0
    ensures Window(AfterAdds([], adds, limit), count) == adds[|adds| - Min(Min(limit, count), |adds|)..]
  {
    HistoryKeepsLastAdds(adds, limit);
  }

  // ---------------------------------------------------------------------
  // Window statistics

  /** The real-valued fields the statistics aggregate. */
  datatype Field = Cpu | Memory | Fps | FrameTime | DetectionTime

  function Get(m: Metrics, f: Field): real
  {
    match f
    case Cpu => m.cpuUsage
    case Memory => m.memoryUsage
    case Fps => m.fps
    case FrameTime => m.averageFrameTimeMs
    case DetectionTime => m.detectionTimeMs
  }

  /** `v` is taken by field `f` somewhere in `w`, and is at least (`top`) or at most every value there. */
  predicate Extreme(w: seq<Metrics>, f: Field, v: real, top: bool)
  {
    (exists j :: 0 <= j < |w| && Get(w[j], f) == v)
    && forall j :: 0 <= j < |w| ==> if top then Get(w[j], f) <= v else v <= Get(w[j], f)
  }

  /** The same for the face count. */
  predicate ExtremeFaces(w: seq<Metrics>, v: int, top: bool)
  {
    (exists j :: 0 <= j < |w| && w[j].facesDetected == v)
    && forall j :: 0 <= j < |w| ==> if top then w[j].facesDetected <= v else v <= w[j].facesDetected
  }

  /**
   * The result of `getMaxMetrics` (`top`) or `getMinMetrics` over the
   * window `w`: the CPU, memory, frame rate, detection time and face
   * count are the window's extremes, and every other field, the frame
   * time among them, is the oldest sample's.
   */
  predicate ExtremeMetrics(w: seq<Metrics>, r: Metrics, top: bool)
  {
    w != []
    && Extreme(w, Cpu, r.cpuUsage, top) && Extreme(w, Memory, r.memoryUsage, top)
    && Extreme(w, Fps, r.fps, top) && Extreme(w, DetectionTime, r.detectionTimeMs, top)
    && ExtremeFaces(w, r.facesDetected, top)
    && r == w[0].(cpuUsage := r.cpuUsage, memoryUsage := r.memoryUsage, fps := r.fps,
                  detectionTimeMs := r.detectionTimeMs, facesDetected := r.facesDetected)
  }

  function Pick(a: real, b: real, top: bool): real
  {
    if top then (if a >= b then a else b) else (if a <= b then a else b)
  }

  function PickInt(a: int, b: int, top: bool): int
  {
    if top then (if a >= b then a else b) else (if a <= b then a else b)
  }

  /** Field `f` of `r` is the extreme of the first `i` samples, taken from one of the first `i + 1`. */
  predicate ExtremeSoFar(w: seq<Metrics>, i: int, f: Field, v: real, top: bool)
  {
    (exists j :: 0 <= j < |w| && j <= i && Get(w[j], f) == v)
    && forall j :: 0 <= j < i && j < |w| ==> if top then Get(w[j], f) <= v else v <= Get(w[j], f)
  }

  /** One step of the extreme loop for a real field. */
  lemma ExtremeStep(w: seq<Metrics>, i: int, f: Field, v: real, top: bool)
    requires 0 <= i < |w| && ExtremeSoFar(w, i, f, v, top)
    ensures ExtremeSoFar(w, i + 1, f, Pick(v, Get(w[i], f), top), top)
  {
    var j :| 0 <= j < |w| && j <= i && Get(w[j], f) == v;
    if Pick(v, Get(w[i], f), top) == v {
      assert 0 <= j < |w| && j <= i + 1 && Get(w[j], f) == v;
    } else {
      assert Get(w[i], f) == Pick(v, Get(w[i], f), top);
    }
  }

  /** The face count so far is the extreme of the first `i` samples, taken from one of the first `i + 1`. */
  predicate ExtremeFacesSoFar(w: seq<Metrics>, i: int, v: int, top: bool)
  {
    (exists j :: 0 <= j < |w| && j <= i && w[j].facesDetected == v)
    && forall j :: 0 <= j < i && j < |w| ==> if top then w[j].facesDetected <= v else v <= w[j].facesDetected
  }

  /** One step of the extreme loop for the face count. */
  lemma ExtremeFacesStep(w: seq<Metrics>, i: int, v: int, top: bool)
    requires 0 <= i < |w| && ExtremeFacesSoFar(w, i, v, top)
    ensures ExtremeFacesSoFar(w, i + 1, PickInt(v, w[i].facesDetected, top), top)
  {
    var j :| 0 <= j < |w| && j <= i && w[j].facesDetected == v;
    if PickInt(v, w[i].facesDetected, top) == v {
      assert 0 <= j < |w| && j <= i + 1 && w[j].facesDetected == v;
    } else {
      assert w[i].facesDetected == PickInt(v, w[i].facesDetected, top);
    }
  }

  /** Having looked at every sample, the extreme so far is the window's. */
  lemma ExtremeAtEnd(w: seq<Metrics>, f: Field, v: real, top: bool)
    requires ExtremeSoFar(w, |w|, f, v, top) && w != []
    ensures Extreme(w, f, v, top)
  {
    var j :| 0 <= j < |w| && j <= |w| && Get(w[j], f) == v;
  }

  lemma ExtremeFacesAtEnd(w: seq<Metrics>, v: int, top: bool)
    requires ExtremeFacesSoFar(w, |w|, v, top) && w != []
    ensures ExtremeFaces(w, v, top)
  {
    var j :| 0 <= j < |w| && j <= |w| && w[j].facesDetected == v;
  }

  /**
   * The loop of `getMaxMetrics` (`top`) and `getMinMetrics`: an empty
   * window gives a default sample, otherwise the window's extremes on
   * top of its oldest sample.
   */
  method ExtremeOfWindow(w: seq<Metrics>, top: bool, now: int) returns (r: Metrics)
    ensures w == [] ==> r == DefaultMetrics(now)
    ensures w != [] ==> ExtremeMetrics(w, r, top)
  {
    if w == [] {
      return DefaultMetrics(now);
    }
    var cpu, memory, fps, detection, faces := w[0].cpuUsage, w[0].memoryUsage, w[0].fps, w[0].detectionTimeMs,
                                              w[0].facesDetected;
    var i := 0;
    while i < |w|
      invariant 0 <= i <= |w|
      invariant ExtremeSoFar(w, i, Cpu, cpu, top) && ExtremeSoFar(w, i, Memory, memory, top)
      invariant ExtremeSoFar(w, i, Fps, fps, top) && ExtremeSoFar(w, i, DetectionTime, detection, top)
      invariant ExtremeFacesSoFar(w, i, faces, top)
    {
      var m := w[i];
      ExtremeStep(w, i, Cpu, cpu, top);
      ExtremeStep(w, i, Memory, memory, top);
      ExtremeStep(w, i, Fps, fps, top);
      ExtremeStep(w, i, DetectionTime, detection, top);
      ExtremeFacesStep(w, i, faces, top);
      cpu := Pick(cpu, m.cpuUsage, top);
      memory := Pick(memory, m.memoryUsage, top);
      fps := Pick(fps, m.fps, top);
      detection := Pick(detection, m.detectionTimeMs, top);
      faces := PickInt(faces, m.facesDetected, top);
      i := i + 1;
    }
    ExtremeAtEnd(w, Cpu, cpu, top);
    ExtremeAtEnd(w, Memory, memory, top);
    ExtremeAtEnd(w, Fps, fps, top);
    ExtremeAtEnd(w, DetectionTime, detection, top);
    ExtremeFacesAtEnd(w, faces, top);
    r := w[0].(cpuUsage := cpu, memoryUsage := memory, fps := fps, detectionTimeMs := detection,
               facesDetected := faces);
  }

  /** The sum of field `f` over `w`. */
  function Sum(w: seq<Metrics>, f: Field): real
  {
    if w == [] then 0.0 else Sum(w[..|w| - 1], f) + Get(w[|w| - 1], f)
  }

  /** The sum of the face counts over `w`. */
  function SumFaces(w: seq<Metrics>): int
  {
    if w == [] then 0 else SumFaces(w[..|w| - 1]) + w[|w| - 1].facesDetected
  }

  /**
   * `faces_detected /= count` with an unsigned `count`: the sum is
   * converted to a 64-bit unsigned value, divided, and the quotient
   * converted back to a 32-bit `int`.
   */
  function AverageFaces(sum: int, count: int): (a: int)
    requires count > 0
    ensures -0x8000_0000 <= a < 0x8000_0000
  {
    var q := (sum % 0x1_0000_0000_0000_0000) / count;
    var low := q % 0x1_0000_0000;
    if low >= 0x8000_0000 then low - 0x1_0000_0000 else low
  }

  /** For a face total that fits in an `int` and is not negative, the average face count is the floor of the mean. */
  lemma AverageFacesIsFloorMean(sum: int, count: int)
    requires count > 0 && 0 <= sum < 0x8000_0000
    ensures AverageFaces(sum, count) == sum / count
  {
    assert sum % 0x1_0000_0000_0000_0000 == sum;
    assert sum / count <= sum;
  }

  /**
   * `getAverageMetrics` over the window `w`: CPU, memory, frame rate,
   * frame time and detection time are the means, the face count the
   * unsigned integer mean, every other field a default sample's.
   */
  predicate AverageMetrics(w: seq<Metrics>, r: Metrics, now: int)
  {
    w != []
    && r == DefaultMetrics(now).(
         cpuUsage := Sum(w, Cpu) / |w| as real,
         memoryUsage := Sum(w, Memory) / |w| as real,
         fps := Sum(w, Fps) / |w| as real,
         averageFrameTimeMs := Sum(w, FrameTime) / |w| as real,
         detectionTimeMs := Sum(w, DetectionTime) / |w| as real,
         facesDetected := AverageFaces(SumFaces(w), |w|))
  }

  /** The loop of `getAverageMetrics`. */
  method AverageOfWindow(w: seq<Metrics>, now: int) returns (r: Metrics)
    ensures w == [] ==> r == DefaultMetrics(now)
    ensures w != [] ==> AverageMetrics(w, r, now)
  {
    if w == [] {
      return DefaultMetrics(now);
    }
    var cpu, memory, fps, frameTime, detectionTime, faces := 0.0, 0.0, 0.0, 0.0, 0.0, 0;
    var i := 0;
    while i < |w|
      invariant 0 <= i <= |w|
      invariant cpu == Sum(w[..i], Cpu) && memory == Sum(w[..i], Memory) && fps == Sum(w[..i], Fps)
      invariant frameTime == Sum(w[..i], FrameTime) && detectionTime == Sum(w[..i], DetectionTime)
      invariant faces == SumFaces(w[..i])
    {
      assert w[..i + 1][..i] == w[..i];
      var m := w[i];
      cpu := cpu + m.cpuUsage;
      memory := memory + m.memoryUsage;
      fps := fps + m.fps;
      frameTime := frameTime + m.averageFrameTimeMs;
      detectionTime := detectionTime + m.detectionTimeMs;
      faces := faces + m.facesDetected;
      i := i + 1;
    }
    assert w[..|w|] == w;
    var n := |w| as real;
    r := DefaultMetrics(now).(cpuUsage := cpu / n, memoryUsage := memory / n, fps := fps / n,
                              averageFrameTimeMs := frameTime / n, detectionTimeMs := detectionTime / n,
                              facesDetected := AverageFaces(faces, |w|));
  }

  /** Bounds on every sample bound the sum. */
  lemma {:induction false} SumBounds(w: seq<Metrics>, f: Field, lo: real, hi: real)
    requires forall j :: 0 <= j < |w| ==> lo <= Get(w[j], f) <= hi
    ensures |w| as real * lo <= Sum(w, f) <= |w| as real * hi
    decreases |w|
  {
    if w != [] {
      SumBounds(w[..|w| - 1], f, lo, hi);
    }
  }

  /** A sum between `n` times two bounds has its mean between them. */
  lemma MeanBetween(sum: real, n: real, lo: real, hi: real)
    requires n > 0.0 && n * lo <= sum <= n * hi
    ensures lo <= sum / n <= hi
  {
    var q := sum / n;
    assert q * n == sum;
    NonNegativeFactor(q - lo, n);
    NonNegativeFactor(hi - q, n);
  }

  lemma NonNegativeFactor(a: real, n: real)
    requires n > 0.0 && a * n >= 0.0
    ensures a >= 0.0
  {
  }

  /** Over the same window, the mean of a field lies between its minimum and its maximum. */
  lemma AverageBetweenExtremes(w: seq<Metrics>, now: int, avg: Metrics, lo: real, hi: real, f: Field)
    requires AverageMetrics(w, avg, now)
    requires Extreme(w, f, lo, false) && Extreme(w, f, hi, true)
    ensures lo <= Get(avg, f) <= hi
  {
    forall j | 0 <= j < |w|
      ensures lo <= Get(w[j], f) <= hi
    {
      assert lo <= Get(w[j], f);
      assert Get(w[j], f) <= hi;
    }
    MeanOfBounded(w, f, lo, hi);
    AverageField(w, now, avg, f);
  }

  /** Bounds on every sample of a non-empty window bound the mean. */
  lemma MeanOfBounded(w: seq<Metrics>, f: Field, lo: real, hi: real)
    requires w != [] && forall j :: 0 <= j < |w| ==> lo <= Get(w[j], f) <= hi
    ensures lo <= Sum(w, f) / |w| as real <= hi
  {
    SumBounds(w, f, lo, hi);
    MeanBetween(Sum(w, f), |w| as real, lo, hi);
  }

  /** Each aggregated field of the average is the field's mean. */
  lemma AverageField(w: seq<Metrics>, now: int, avg: Metrics, f: Field)
    requires AverageMetrics(w, avg, now)
    ensures Get(avg, f) == Sum(w, f) / |w| as real
  {
    match f
    case Cpu =>
    case Memory =>
    case Fps =>
    case FrameTime =>
    case DetectionTime =>
  }

  // ---------------------------------------------------------------------
  // Warnings

  /** `WARNING_EXPIRY_SECONDS`, in clock ticks. */
  const WarningExpiry: int := 300 * 1_000_000_000

  datatype Warning = Warning(kind: string, message: string, value: real, threshold: real, timestamp: int)

  /** Whether a warning survives `clearOldWarnings` at time `now`. */
  predicate Current(w: Warning, now: int)
  {
    now - w.timestamp <= WarningExpiry
  }

  function CurrentRule(now: int): Warning -> bool
  {
    w => Current(w, now)
  }

  /** The warning one check raises: one when it is enabled and the value is strictly over the threshold. */
  function Raised(enabled: bool, kind: string, message: string, value: real, threshold: real, now: int): (ws: seq<Warning>)
  {
    if enabled && value > threshold then [Warning(kind, message, value, threshold, now)] else []
  }

  /** The warnings `checkThresholds` raises for `current`, in the order CPU, memory, temperature. */
  function NewWarnings(c: MonitorConfig, current: Metrics, now: int): (ws: seq<Warning>)
  {
    Raised(c.enableCpu, "CPU", "High CPU usage detected", current.cpuUsage, c.cpuThreshold, now)
    + Raised(c.enableMemory, "Memory", "High memory usage detected", current.memoryUsage, c.memoryThreshold, now)
    + Raised(c.enableTemperature, "Temperature", "High CPU temperature detected", current.cpuTemperature,
             c.temperatureThreshold, now)
  }

  /** A warning of each kind is raised exactly when its check is enabled and the value is strictly over the threshold. */
  lemma NewWarningsExactly(c: MonitorConfig, current: Metrics, now: int)
    ensures (exists w :: w in NewWarnings(c, current, now) && w.kind == "CPU")
            <==> c.enableCpu && current.cpuUsage > c.cpuThreshold
    ensures (exists w :: w in NewWarnings(c, current, now) && w.kind == "Memory")
            <==> c.enableMemory && current.memoryUsage > c.memoryThreshold
    ensures (exists w :: w in NewWarnings(c, current, now) && w.kind == "Temperature")
            <==> c.enableTemperature && current.cpuTemperature > c.temperatureThreshold
    ensures forall w :: w in NewWarnings(c, current, now) ==> w.value > w.threshold && w.timestamp == now
    ensures |NewWarnings(c, current, now)| <= 3
  {
    var cpu: string, memory: string, temperature: string := "CPU", "Memory", "Temperature";
    assert cpu != memory && cpu != temperature && memory != temperature by {
      assert |cpu| == 3 && |memory| == 6 && |temperature| == 11;
    }
    var ws := NewWarnings(c, current, now);
    if c.enableCpu && current.cpuUsage > c.cpuThreshold {
      assert ws[0].kind == cpu;
    }
    if c.enableMemory && current.memoryUsage > c.memoryThreshold {
      assert ws[if c.enableCpu && current.cpuUsage > c.cpuThreshold then 1 else 0].kind == memory;
    }
    if c.enableTemperature && current.cpuTemperature > c.temperatureThreshold {
      assert ws[|ws| - 1].kind == temperature;
    }
  }

  class Monitor {
    var config: MonitorConfig
    var history: seq<Metrics>
    var warnings: seq<Warning>

    constructor(c: MonitorConfig)
      ensures config == c && history == [] && warnings == []
    {
      config := c;
      history := [];
      warnings := [];
    }

    /** `addToHistory`. */
    method AddToHistory(m: Metrics)
      modifies this
      ensures history == AddStep(old(history), m, config.historySize)
      ensures config == old(config) && warnings == old(warnings)
    {
      history := history + [m];
      if config.historySize >= 0 && |history| > config.historySize {
        history := history[1..];
      }
    }

    /** `getHistory(count)`. */
    function GetHistory(count: int): (w: seq<Metrics>)
      reads this
      ensures w == Window(history, count)
    {
      Window(history, count)
    }

    /** `getMaxMetrics(samples)`. */
    method GetMaxMetrics(samples: int, now: int) returns (r: Metrics)
      ensures Window(history, samples) == [] ==> r == DefaultMetrics(now)
      ensures Window(history, samples) != [] ==> ExtremeMetrics(Window(history, samples), r, true)
    {
      r := ExtremeOfWindow(GetHistory(samples), true, now);
    }

    /** `getMinMetrics(samples)`. */
    method GetMinMetrics(samples: int, now: int) returns (r: Metrics)
      ensures Window(history, samples) == [] ==> r == DefaultMetrics(now)
      ensures Window(history, samples) != [] ==> ExtremeMetrics(Window(history, samples), r, false)
    {
      r := ExtremeOfWindow(GetHistory(samples), false, now);
    }

    /** `getAverageMetrics(samples)`. */
    method GetAverageMetrics(samples: int, now: int) returns (r: Metrics)
      ensures Window(history, samples) == [] ==> r == DefaultMetrics(now)
      ensures Window(history, samples) != [] ==> AverageMetrics(Window(history, samples), r, now)
    {
      r := AverageOfWindow(GetHistory(samples), now);
    }

    /** `clearOldWarnings`: the warnings older than the expiry go, the rest stay in order. */
    method ClearOldWarnings(now: int)
      modifies this
      ensures warnings == Filter(old(warnings), CurrentRule(now))
      ensures config == old(config) && history == old(history)
    {
      var kept: seq<Warning> := [];
      var i := 0;
      while i < |warnings|
        invariant i <= |warnings|
        invariant kept == Filter(warnings[..i], CurrentRule(now))
      {
        assert warnings[..i + 1][..i] == warnings[..i];
        if now - warnings[i].timestamp <= WarningExpiry {
          kept := kept + [warnings[i]];
        }
        i := i + 1;
      }
      assert warnings[..|warnings|] == warnings;
      warnings := kept;
    }

    /** `addWarning` behind one threshold check. */
    method CheckOne(enabled: bool, kind: string, message: string, value: real, threshold: real, now: int)
      modifies this
      ensures warnings == old(warnings) + Raised(enabled, kind, message, value, threshold, now)
      ensures config == old(config) && history == old(history)
    {
      if enabled && value > threshold {
        warnings := warnings + [Warning(kind, message, value, threshold, now)];
      }
    }

    /** `checkThresholds`: expired warnings are cleared before the new ones are added. */
    method CheckThresholds(current: Metrics, now: int)
      modifies this
      ensures warnings == Filter(old(warnings), CurrentRule(now)) + NewWarnings(config, current, now)
      ensures config == old(config) && history == old(history)
    {
      ClearOldWarnings(now);
      var c := config;
      CheckOne(c.enableCpu, "CPU", "High CPU usage detected", current.cpuUsage, c.cpuThreshold, now);
      CheckOne(c.enableMemory, "Memory", "High memory usage detected", current.memoryUsage, c.memoryThreshold, now);
      CheckOne(c.enableTemperature, "Temperature", "High CPU temperature detected", current.cpuTemperature,
               c.temperatureThreshold, now);
    }
  }

  /** What survives a clearing: exactly the warnings not older than the expiry, in their order. */
  lemma ClearedWarnings(warnings: seq<Warning>, now: int, w: Warning)
    ensures w in Filter(warnings, CurrentRule(now)) <==> w in warnings && now - w.timestamp <= WarningExpiry
    ensures IsSubsequence(Filter(warnings, CurrentRule(now)), warnings)
  {
    FilterMembers(warnings, CurrentRule(now), w);
    FilterIsSubsequence(warnings, CurrentRule(now));
  }
}
