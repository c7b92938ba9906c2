/**
 * The advanced detector of the example application. Every algorithm is
 * "initialised" at once and detection always runs the Haar cascade;
 * what is modelled is the bookkeeping around it: the current algorithm,
 * the model-status map, the profiling counters, the guards of
 * `detectFaces`, and the size-blind recommendation.
 */
module SensorAdvancedDetector {
  import opened Detections
  import opened Algorithms
  import FaceDetector

  /**
   * `recommendAlgorithm` of this copy: the image size is ignored.
   * Real time without high accuracy gives LFFD, high accuracy RetinaNet,
   * anything else SSD MobileNet.
   */
  function Recommend(imageSize: Size, realTime: bool, highAccuracy: bool): (a: Algorithm)
  {
    if realTime && !highAccuracy then Lffd
    else if highAccuracy then Retinanet
    else SsdMobilenet
  }

  /**
   * The recommendation follows the profile table: a real-time request
   * gets a fastest entry (speed 5), a high-accuracy request a most accurate
   * one (accuracy 5), and the size never matters.
   */
  lemma RecommendationMatchesProfiles(imageSize: Size, other: Size, realTime: bool, highAccuracy: bool)
    ensures Recommend(imageSize, realTime, highAccuracy) == Recommend(other, realTime, highAccuracy)
    ensures var a := Recommend(imageSize, realTime, highAccuracy);
      exists i :: 0 <= i < |BuiltinProfiles| && BuiltinProfiles[i].algorithm == a
        && (realTime && !highAccuracy ==> BuiltinProfiles[i].speedRating == 5)
        && (highAccuracy ==> BuiltinProfiles[i].accuracyRating == 5)
        && (forall j :: 0 <= j < |BuiltinProfiles| ==> BuiltinProfiles[j].speedRating <= 5 && BuiltinProfiles[j].accuracyRating <= 5)
  {
    var a := Recommend(imageSize, realTime, highAccuracy);
    var i := if a == Lffd then 8 else if a == Retinanet then 6 else 4;
    assert BuiltinProfiles[i].algorithm == a;
  }

  /** `updateProfilingResults` when profiling is on: the last time and a call counter per operation. */
  function RecordTiming(results: map<string, real>, operation: string, timeMs: real): (r: map<string, real>)
    ensures r.Keys == results.Keys + {operation + "_time", operation + "_count"}
    ensures r[operation + "_time"] == timeMs
    ensures r[operation + "_count"] == (if operation + "_count" in results then results[operation + "_count"] else 0.0) + 1.0
    ensures forall k :: k in results && k != operation + "_time" && k != operation + "_count" ==> r[k] == results[k]
  {
    var timed := results[operation + "_time" := timeMs];
    var count := operation + "_count";
    assert count != operation + "_time" by {
      assert count[|operation| + 1] == 'c';
      assert (operation + "_time")[|operation| + 1] == 't';
    }
    timed[count := (if count in timed then timed[count] else 0.0) + 1.0]
  }

  /** `n` timings of the same operation from a fresh map count `n` calls. */
  lemma {:induction false} CountsCalls(operation: string, times: seq<real>)
    ensures var r := RecordAll(map[], operation, times);
      times != [] ==> r[operation + "_count"] == |times| as real && r[operation + "_time"] == times[|times| - 1]
    ensures times == [] ==> RecordAll(map[], operation, times) == map[]
    decreases |times|
  {
    if |times| > 1 {
      CountsCalls(operation, times[..|times| - 1]);
    }
  }

  /** Profiling one operation with each of `times`, in order. */
  function RecordAll(results: map<string, real>, operation: string, times: seq<real>): (r: map<string, real>)
    decreases |times|
  {
    if times == [] then results
    else RecordTiming(RecordAll(results, operation, times[..|times| - 1]), operation, times[|times| - 1])
  }

  class Detector {
    var currentAlgorithm: Algorithm
    /** `config_.algorithm`. */
    var configAlgorithm: Algorithm
    var initialized: bool
    var lastError: string
    var modelStatus: map<Algorithm, bool>
    var profilingEnabled: bool
    var profilingResults: map<string, real>

    /** `AdvancedFaceDetector(config)`: current algorithm from the configuration, nothing loaded, profiling off. */
    constructor(algorithm: Algorithm)
      ensures currentAlgorithm == algorithm && configAlgorithm == algorithm
      ensures !initialized && lastError == "" && modelStatus == map[]
      ensures !profilingEnabled && profilingResults == map[]
    {
      currentAlgorithm := algorithm;
      configAlgorithm := algorithm;
      initialized := false;
      lastError := "";
      modelStatus := map[];
      profilingEnabled := false;
      profilingResults := map[];
    }

    predicate IsModelLoaded(a: Algorithm)
      reads this
    {
      ModelLoaded(modelStatus, a)
    }

    /** `initialize(algorithm)`: this copy's `initializeAlgorithm` always succeeds. */
    method Initialize(algorithm: Algorithm) returns (ok: bool)
      modifies this
      ensures ok && initialized
      ensures currentAlgorithm == algorithm && configAlgorithm == algorithm
      ensures lastError == old(lastError) && modelStatus == old(modelStatus)
      ensures profilingEnabled == old(profilingEnabled) && profilingResults == old(profilingResults)
    {
      currentAlgorithm := algorithm;
      configAlgorithm := algorithm;
      initialized := true;
      ok := true;
    }

    /** `setAlgorithm`: re-initialises only when the algorithm changes. */
    method SetAlgorithm(algorithm: Algorithm)
      modifies this
      ensures currentAlgorithm == algorithm
      ensures algorithm == old(currentAlgorithm) ==> configAlgorithm == old(configAlgorithm) && initialized == old(initialized)
      ensures algorithm != old(currentAlgorithm) ==> configAlgorithm == algorithm && initialized
      ensures lastError == old(lastError) && modelStatus == old(modelStatus)
      ensures profilingEnabled == old(profilingEnabled) && profilingResults == old(profilingResults)
    {
      if algorithm != currentAlgorithm {
        var _ := Initialize(algorithm);
      }
    }

    /** `loadModel`: this copy only marks the algorithm as loaded. */
    method LoadModel(algorithm: Algorithm) returns (ok: bool)
      modifies this
      ensures ok && modelStatus == old(modelStatus)[algorithm := true]
      ensures IsModelLoaded(algorithm)
      ensures forall b :: b != algorithm ==> (IsModelLoaded(b) <==> old(IsModelLoaded(b)))
      ensures currentAlgorithm == old(currentAlgorithm) && configAlgorithm == old(configAlgorithm)
      ensures initialized == old(initialized) && lastError == old(lastError)
      ensures profilingEnabled == old(profilingEnabled) && profilingResults == old(profilingResults)
    {
      modelStatus := modelStatus[algorithm := true];
      ok := true;
    }

    /** `unloadModel`: the entry is kept but set to false. */
    method UnloadModel(algorithm: Algorithm)
      modifies this
      ensures modelStatus == old(modelStatus)[algorithm := false]
      ensures !IsModelLoaded(algorithm)
      ensures forall b :: b != algorithm ==> (IsModelLoaded(b) <==> old(IsModelLoaded(b)))
      ensures currentAlgorithm == old(currentAlgorithm) && configAlgorithm == old(configAlgorithm)
      ensures initialized == old(initialized) && lastError == old(lastError)
      ensures profilingEnabled == old(profilingEnabled) && profilingResults == old(profilingResults)
    {
      modelStatus := modelStatus[algorithm := false];
    }

    /** `unloadAllModels`: every algorithm reads as not loaded. */
    method UnloadAllModels()
      modifies this
      ensures modelStatus == map[]
      ensures forall b :: !IsModelLoaded(b)
      ensures currentAlgorithm == old(currentAlgorithm) && configAlgorithm == old(configAlgorithm)
      ensures initialized == old(initialized) && lastError == old(lastError)
      ensures profilingEnabled == old(profilingEnabled) && profilingResults == old(profilingResults)
    {
      modelStatus := map[];
    }

    /** `enableProfiling`: switching off also forgets the results. */
    method EnableProfiling(enable: bool)
      modifies this
      ensures profilingEnabled == enable
      ensures profilingResults == if enable then old(profilingResults) else map[]
      ensures currentAlgorithm == old(currentAlgorithm) && configAlgorithm == old(configAlgorithm)
      ensures initialized == old(initialized) && lastError == old(lastError) && modelStatus == old(modelStatus)
    {
      profilingEnabled := enable;
      if !enable {
        profilingResults := map[];
      }
    }

    /** `resetProfilingResults`. */
    method ResetProfilingResults()
      modifies this
      ensures profilingResults == map[] && profilingEnabled == old(profilingEnabled)
      ensures currentAlgorithm == old(currentAlgorithm) && configAlgorithm == old(configAlgorithm)
      ensures initialized == old(initialized) && lastError == old(lastError) && modelStatus == old(modelStatus)
    {
      profilingResults := map[];
    }

    /** `updateProfilingResults`: records only while profiling is on. */
    method UpdateProfilingResults(operation: string, timeMs: real)
      modifies this
      ensures profilingResults == if profilingEnabled then RecordTiming(old(profilingResults), operation, timeMs) else old(profilingResults)
      ensures profilingEnabled == old(profilingEnabled)
      ensures currentAlgorithm == old(currentAlgorithm) && configAlgorithm == old(configAlgorithm)
      ensures initialized == old(initialized) && lastError == old(lastError) && modelStatus == old(modelStatus)
    {
      if profilingEnabled {
        var count := operation + "_count";
        var current := if count in profilingResults then profilingResults[count] else 0.0;
        profilingResults := profilingResults[operation + "_time" := timeMs];
        assert count != operation + "_time" by {
          assert count[|operation| + 1] == 'c';
          assert (operation + "_time")[|operation| + 1] == 't';
        }
        profilingResults := profilingResults[count := current + 1.0];
      }
    }

    /**
     * `detectFaces`: the two guards, then the Haar cascade whatever the
     * current algorithm. `cascadeFaces` is what the cascade finds, or
     * `None` when its file does not load (no faces, no error); the faces
     * are stamped with confidence 1, the current algorithm and the elapsed
     * whole milliseconds.
     */
    method DetectFaces(image: Size, cascadeFaces: Base.Option<seq<Rect>>, durationMs: int)
      returns (detections: seq<AdvancedDetection>)
      modifies this
      ensures !old(initialized) ==>
        detections == [] && lastError == "Detector not initialized" && profilingResults == old(profilingResults)
      ensures old(initialized) && !FaceDetector.ValidImage(image) ==>
        detections == [] && lastError == "Input image is empty" && profilingResults == old(profilingResults)
      ensures old(initialized) && FaceDetector.ValidImage(image) ==>
        lastError == old(lastError)
        && (cascadeFaces.None? ==> detections == [])
        && (cascadeFaces.Some? ==>
              |detections| == |cascadeFaces.value|
              && forall i :: 0 <= i < |detections| ==>
                   detections[i] == AdvancedDetection(cascadeFaces.value[i], 1.0, currentAlgorithm, durationMs))
        && profilingResults == if profilingEnabled then RecordTiming(old(profilingResults), "detection", durationMs as real) else old(profilingResults)
      ensures currentAlgorithm == old(currentAlgorithm) && configAlgorithm == old(configAlgorithm)
      ensures initialized == old(initialized) && modelStatus == old(modelStatus) && profilingEnabled == old(profilingEnabled)
    {
      if !initialized {
        lastError := "Detector not initialized";
        return [];
      }
      if !FaceDetector.ValidImage(image) {
        lastError := "Input image is empty";
        return [];
      }
      detections := [];
      if cascadeFaces.Some? {
        var faces := cascadeFaces.value;
        var i := 0;
        while i < |faces|
          invariant i <= |faces| && |detections| == i
          invariant forall j :: 0 <= j < i ==> detections[j] == AdvancedDetection(faces[j], 1.0, currentAlgorithm, durationMs)
        {
          detections := detections + [AdvancedDetection(faces[i], 1.0, currentAlgorithm, durationMs)];
          i := i + 1;
        }
      }
      UpdateProfilingResults("detection", durationMs as real);
    }
  }
}
