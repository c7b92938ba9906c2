/**
 * The OpenCV camera wrapper of the demo: the running flag and the frame
 * counters around `VideoCapture`, the property range checks, and the
 * nearest-resolution search. Opening the device, reading a frame and
 * setting a property on the device are inputs of the model.
 */
module CameraCapture {
  import opened Base
  import opened Detections

  // ---------------------------------------------------------------------
  // Properties

  /** The `cv::CAP_PROP_*` identifiers the wrapper treats specially, and all others. */
  datatype Property = Brightness | Contrast | Saturation | Gain | Exposure | AutoFocus | OtherProperty

  /** `validateProperty`. */
  predicate ValidateProperty(p: Property, value: real)
  {
    match p
    case Brightness => 0.0 <= value <= 255.0
    case Contrast => 0.0 <= value <= 255.0
    case Saturation => 0.0 <= value <= 255.0
    case Gain => value >= 0.0
    case AutoFocus => value == 0.0 || value == 1.0
    case _ => true
  }

  function RealMax(a: real, b: real): real { if a >= b then a else b }
  function RealMin(a: real, b: real): real { if a <= b then a else b }

  /** `clampProperty`: into the same ranges, autofocus rounded at one half. */
  function ClampProperty(p: Property, value: real): (c: real)
  {
    match p
    case Brightness => RealMax(0.0, RealMin(255.0, value))
    case Contrast => RealMax(0.0, RealMin(255.0, value))
    case Saturation => RealMax(0.0, RealMin(255.0, value))
    case Gain => RealMax(0.0, value)
    case AutoFocus => if value > 0.5 then 1.0 else 0.0
    case _ => value
  }

  /**
   * Clamping always gives an accepted value, and leaves every accepted
   * value as it is; so after `setProperty`'s validation the clamp changes
   * nothing.
   */
  lemma ClampAgreesWithValidation(p: Property, value: real)
    ensures ValidateProperty(p, ClampProperty(p, value))
    ensures ValidateProperty(p, value) ==> ClampProperty(p, value) == value
    ensures !ValidateProperty(p, value) ==> ClampProperty(p, value) != value
  {
  }

  // ---------------------------------------------------------------------
  // CameraUtils

  function Abs(n: int): nat { if n < 0 then -n else n }

  /** The distance `findBestResolution` minimises. */
  function Distance(desired: Size, r: Size): nat
  {
    Abs(desired.width - r.width) + Abs(desired.height - r.height)
  }

  /** `available[k]` is the first of the closest resolutions. */
  predicate FirstClosest(available: seq<Size>, desired: Size, k: int)
  {
    0 <= k < |available|
    && (forall j :: 0 <= j < |available| ==> Distance(desired, available[k]) <= Distance(desired, available[j]))
    && (forall j :: 0 <= j < k ==> Distance(desired, available[k]) < Distance(desired, available[j]))
  }

  /** The first closest resolution is well defined. */
  lemma FirstClosestUnique(available: seq<Size>, desired: Size, k1: int, k2: int)
    requires FirstClosest(available, desired, k1) && FirstClosest(available, desired, k2)
    ensures k1 == k2
  {
    assert !(k1 < k2) by {
      assert Distance(desired, available[k1]) <= Distance(desired, available[k2]);
    }
    assert !(k2 < k1) by {
      assert Distance(desired, available[k2]) <= Distance(desired, available[k1]);
    }
  }

  /** An available resolution equal to the desired one is always the answer. */
  lemma ExactMatchIsClosest(available: seq<Size>, desired: Size, k: int)
    requires FirstClosest(available, desired, k) && desired in available
    ensures available[k] == desired
  {
    var j :| 0 <= j < |available| && available[j] == desired;
    assert Distance(desired, available[j]) == 0;
  }

  /** `findBestResolution`: `desired` itself when nothing is available, else the first closest entry. */
  method FindBestResolution(available: seq<Size>, desired: Size) returns (best: Size)
    ensures available == [] ==> best == desired
    ensures available != [] ==> exists k :: FirstClosest(available, desired, k) && best == available[k]
  {
    if available == [] {
      return desired;
    }
    best := available[0];
    var bestDiff := Distance(desired, best);
    ghost var k := 0;
    var i := 0;
    while i < |available|
      invariant 0 <= i <= |available| && 0 <= k < |available| && k <= i
      invariant best == available[k] && bestDiff == Distance(desired, best)
      invariant forall j :: 0 <= j < i ==> bestDiff <= Distance(desired, available[j])
      invariant forall j :: 0 <= j < k ==> bestDiff < Distance(desired, available[j])
    {
      var diff := Distance(desired, available[i]);
      if diff < bestDiff {
        best := available[i];
        bestDiff := diff;
        k := i;
      }
      i := i + 1;
    }
    assert FirstClosest(available, desired, k);
  }

  const QVGA := Size(320, 240)
  const VGA := Size(640, 480)
  const HD := Size(1280, 720)
  const FHD := Size(1920, 1080)

  /** `isValidResolution`. */
  predicate IsValidResolution(r: Size)
  {
    0 < r.width <= 4096 && 0 < r.height <= 4096
  }

  /** `isValidFPS`. */
  predicate IsValidFps(fps: real)
  {
    0.0 < fps <= 120.0
  }

  /** The common resolutions and frame rates the utilities offer all pass the checks. */
  lemma CommonSettingsAreValid()
    ensures forall r :: r in [QVGA, VGA, HD, FHD] ==> IsValidResolution(r)
    ensures forall fps :: fps in [15.0, 30.0, 60.0] ==> IsValidFps(fps)
    ensures !IsValidResolution(Size(4097, 1)) && !IsValidFps(0.0) && !IsValidFps(120.5)
  {
  }

  // ---------------------------------------------------------------------
  // The capture object

  /** What `VideoCapture::read` gives: a failure, an empty image, or a frame of some size. */
  datatype FrameRead = ReadFailed | EmptyImage | Image(size: Size)

  /** `CameraFrame` without the pixels and the timestamp. */
  datatype Frame = Frame(frameNumber: int, resolution: Size)

  class Camera {
    var initialized: bool
    var running: bool
    /** Whether the `VideoCapture` is open. */
    var isOpen: bool
    var frameCounter: int
    var framesCaptured: int
    var framesDropped: int
    var lastError: string

    /** The object never runs without having been initialized. */
    predicate Valid()
      reads this
    {
      running ==> initialized
    }

    constructor()
      ensures Valid()
      ensures !initialized && !running && !isOpen
      ensures frameCounter == 0 && framesCaptured == 0 && framesDropped == 0 && lastError == ""
    {
      initialized := false;
      running := false;
      isOpen := false;
      frameCounter := 0;
      framesCaptured := 0;
      framesDropped := 0;
      lastError := "";
    }

    /**
     * `initialize(config)`: opening the device (`openOk`, with its own
     * message on failure), then configuring it, which needs the
     * resolution to be accepted (`resolutionOk`); `settingsError` is the
     * last message the optional settings after that left, if any.
     */
    method Initialize(openOk: bool, openError: string, resolutionOk: bool, settingsError: Option<string>)
      returns (ok: bool)
      requires Valid()
      modifies this
      ensures Valid()
      ensures ok <==> openOk && resolutionOk
      ensures isOpen == openOk
      ensures !openOk ==> lastError == openError
      ensures openOk && !resolutionOk ==> lastError == "Failed to set resolution"
      ensures ok ==> initialized && lastError == (if settingsError.Some? then settingsError.value else old(lastError))
      ensures !ok ==> initialized == old(initialized)
      ensures running == old(running) && frameCounter == old(frameCounter)
      ensures framesCaptured == old(framesCaptured) && framesDropped == old(framesDropped)
    {
      isOpen := openOk;
      if !openOk {
        lastError := openError;
        return false;
      }
      if !resolutionOk {
        lastError := "Failed to set resolution";
        return false;
      }
      if settingsError.Some? {
        lastError := settingsError.value;
      }
      initialized := true;
      return true;
    }

    /** `start`: needs initialization; a running camera is left as it is, otherwise the frame counter restarts. */
    method Start() returns (ok: bool)
      requires Valid()
      modifies this
      ensures Valid()
      ensures ok <==> initialized
      ensures !initialized ==> lastError == "Camera not initialized" && running == old(running)
      ensures initialized ==> lastError == old(lastError) && running
      ensures initialized && !old(running) ==> frameCounter == 0
      ensures old(running) || !initialized ==> frameCounter == old(frameCounter)
      ensures initialized == old(initialized) && isOpen == old(isOpen)
      ensures framesCaptured == old(framesCaptured) && framesDropped == old(framesDropped)
    {
      if !initialized {
        lastError := "Camera not initialized";
        return false;
      }
      if running {
        return true;
      }
      running := true;
      frameCounter := 0;
      return true;
    }

    /** `stop`: always succeeds and clears the running flag. */
    method Stop() returns (ok: bool)
      requires Valid()
      modifies this
      ensures Valid()
      ensures ok && !running
      ensures initialized == old(initialized) && isOpen == old(isOpen) && lastError == old(lastError)
      ensures frameCounter == old(frameCounter) && framesCaptured == old(framesCaptured) && framesDropped == old(framesDropped)
    {
      running := false;
      return true;
    }

    /**
     * `captureFrame`: a running, open camera numbers each good frame with
     * the counter and counts it captured; a failed or empty read counts
     * as dropped.
     */
    method CaptureFrame(read: FrameRead) returns (frame: Option<Frame>)
      requires Valid()
      modifies this
      ensures Valid()
      ensures !old(running) || !old(isOpen) ==>
        frame == None && lastError == "Camera not running or not opened"
        && frameCounter == old(frameCounter) && framesCaptured == old(framesCaptured) && framesDropped == old(framesDropped)
      ensures old(running) && old(isOpen) && read == ReadFailed ==>
        frame == None && lastError == "Failed to read frame from camera"
      ensures old(running) && old(isOpen) && read == EmptyImage ==>
        frame == None && lastError == "Captured frame is empty"
      ensures old(running) && old(isOpen) && !read.Image? ==>
        framesDropped == old(framesDropped) + 1 && frameCounter == old(frameCounter) && framesCaptured == old(framesCaptured)
      ensures old(running) && old(isOpen) && read.Image? ==>
        frame == Some(Frame(old(frameCounter), read.size)) && lastError == old(lastError)
        && frameCounter == old(frameCounter) + 1 && framesCaptured == old(framesCaptured) + 1
        && framesDropped == old(framesDropped)
      ensures initialized == old(initialized) && running == old(running) && isOpen == old(isOpen)
    {
      if !running || !isOpen {
        lastError := "Camera not running or not opened";
        return None;
      }
      match read
      case ReadFailed =>
        lastError := "Failed to read frame from camera";
        framesDropped := framesDropped + 1;
        return None;
      case EmptyImage =>
        lastError := "Captured frame is empty";
        framesDropped := framesDropped + 1;
        return None;
      case Image(size) =>
        frame := Some(Frame(frameCounter, size));
        frameCounter := frameCounter + 1;
        framesCaptured := framesCaptured + 1;
    }

    /**
     * `setProperty`: the camera must be open and the value accepted; the
     * device then gets the clamped value (`sent`) and answers `deviceOk`.
     */
    method SetProperty(p: Property, value: real, deviceOk: bool) returns (ok: bool, sent: Option<real>)
      requires Valid()
      modifies this
      ensures Valid()
      ensures !isOpen ==> !ok && sent == None && lastError == "Camera not opened"
      ensures isOpen && !ValidateProperty(p, value) ==> !ok && sent == None && lastError == "Invalid property value"
      ensures isOpen && ValidateProperty(p, value) ==> ok == deviceOk && sent == Some(value) && lastError == old(lastError)
      ensures initialized == old(initialized) && running == old(running) && isOpen == old(isOpen)
      ensures frameCounter == old(frameCounter) && framesCaptured == old(framesCaptured) && framesDropped == old(framesDropped)
    {
      if !isOpen {
        lastError := "Camera not opened";
        return false, None;
      }
      if !ValidateProperty(p, value) {
        lastError := "Invalid property value";
        return false, None;
      }
      var clamped := ClampProperty(p, value);
      ClampAgreesWithValidation(p, value);
      return deviceOk, Some(clamped);
    }

    /** `resetStatistics`: the counts go back to zero; the frame counter does not. */
    method ResetStatistics()
      requires Valid()
      modifies this
      ensures Valid()
      ensures framesCaptured == 0 && framesDropped == 0
      ensures initialized == old(initialized) && running == old(running) && isOpen == old(isOpen)
      ensures frameCounter == old(frameCounter) && lastError == old(lastError)
    {
      framesCaptured := 0;
      framesDropped := 0;
    }

    /** `cleanup`: stops, releases the device and forgets the initialization. */
    method Cleanup()
      requires Valid()
      modifies this
      ensures Valid()
      ensures !running && !isOpen && !initialized
      ensures frameCounter == old(frameCounter) && framesCaptured == old(framesCaptured)
      ensures framesDropped == old(framesDropped) && lastError == old(lastError)
    {
      var _ := Stop();
      isOpen := false;
      initialized := false;
    }
  }
}
