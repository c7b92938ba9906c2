/**
 * The advanced detector of the top-level application. Unlike the
 * example copy it loads a network per algorithm: `initializeAlgorithm`
 * finds the model file and `loadModel` picks a reader by extension;
 * `detectFaces` dispatches by algorithm family, and each family keeps
 * only boxes that pass its own test. The DNN readers, the file system
 * and the networks' output are inputs of the model.
 */
module AdvancedDetector {
  import opened Base
  import opened Detections
  import opened Algorithms
  import FaceDetector
  import SensorAdvancedDetector

  // ---------------------------------------------------------------------
  // Recommendation

  /**
   * `recommendAlgorithm` of this copy: real time without high accuracy
   * gives LFFD below 640x480 pixels and YOLO v5 from there on.
   */
  function Recommend(imageSize: Size, realTime: bool, highAccuracy: bool): (a: Algorithm)
  {
    if realTime && !highAccuracy then
      if imageSize.width * imageSize.height < 640 * 480 then Lffd else YoloV5
    else if highAccuracy then Retinanet
    else SsdMobilenet
  }

  /**
   * The two copies differ only for real-time requests on images of at
   * least 640x480 pixels, and both then pick an entry of speed 5.
   */
  lemma RecommendCopiesAgree(imageSize: Size, realTime: bool, highAccuracy: bool)
    ensures var large := imageSize.width * imageSize.height >= 640 * 480;
      Recommend(imageSize, realTime, highAccuracy)
      == if realTime && !highAccuracy && large then YoloV5
         else SensorAdvancedDetector.Recommend(imageSize, realTime, highAccuracy)
    ensures realTime && !highAccuracy ==>
      exists i :: 0 <= i < |BuiltinProfiles| && BuiltinProfiles[i].algorithm == Recommend(imageSize, realTime, highAccuracy)
        && BuiltinProfiles[i].speedRating == 5
  {
    if realTime && !highAccuracy {
      var a := Recommend(imageSize, realTime, highAccuracy);
      var i := if a == Lffd then 8 else 3;
      assert BuiltinProfiles[i].algorithm == a;
    }
  }

  // ---------------------------------------------------------------------
  // Dispatch and box filters

  /** The `detectWith*` routine `detectFaces` calls, or none. */
  datatype Family = YoloFamily | SsdFamily | RetinaNetFamily | MtcnnFamily | LffdFamily | NoDetector

  function FamilyOf(a: Algorithm): (f: Family)
  {
    match a
    case YoloV3 => YoloFamily
    case YoloV4 => YoloFamily
    case YoloV5 => YoloFamily
    case YoloFace => YoloFamily
    case SsdMobilenet => SsdFamily
    case SsdResnet => SsdFamily
    case Retinanet => RetinaNetFamily
    case Mtcnn => MtcnnFamily
    case Lffd => LffdFamily
    case _ => NoDetector
  }

  /** Exactly Haar, the three plain DNN variants and SCRFD have no detection routine. */
  lemma UnsupportedAlgorithms(a: Algorithm)
    ensures FamilyOf(a) == NoDetector <==> a == HaarCascade || Unlisted(a)
  {
  }

  /** `mtcnn_min_face_size` of the default configuration. */
  const DefaultMtcnnMinFaceSize: real := 20.0

  /** The MTCNN box test: both sides at least the minimum face size, and inside the image. */
  predicate MtcnnKeeps(b: Rect, image: Size, minFaceSize: real)
  {
    b.width as real >= minFaceSize && b.height as real >= minFaceSize
    && b.x >= 0 && b.y >= 0 && b.x + b.width <= image.width && b.y + b.height <= image.height
  }

  /** The box test of each family; YOLO boxes are not tested. */
  predicate FamilyKeeps(f: Family, b: Rect, image: Size, minFaceSize: real)
  {
    match f
    case SsdFamily => FaceDetector.IsValidBoundingBox(b, image)
    case RetinaNetFamily => FaceDetector.IsValidBoundingBox(b, image)
    case LffdFamily => FaceDetector.IsValidBoundingBox(b, image)
    case MtcnnFamily => MtcnnKeeps(b, image, minFaceSize)
    case _ => true
  }

  /**
   * With a positive minimum face size the MTCNN test is the common test
   * plus the size bound; with a minimum of zero or less it lets through
   * empty boxes that the other families reject.
   */
  lemma MtcnnTestAgainstCommonTest(b: Rect, image: Size, minFaceSize: real)
    ensures minFaceSize > 0.0 ==>
      (MtcnnKeeps(b, image, minFaceSize)
       <==> FaceDetector.IsValidBoundingBox(b, image) && b.width as real >= minFaceSize && b.height as real >= minFaceSize)
    ensures minFaceSize <= 0.0 && image.width >= 0 && image.height >= 0 ==>
      MtcnnKeeps(Rect(0, 0, 0, 0), image, minFaceSize) && !FaceDetector.IsValidBoundingBox(Rect(0, 0, 0, 0), image)
  {
  }

  /** The prefix of the "... model not loaded" message of each routine. */
  function FamilyName(f: Family): (name: string)
  {
    match f
    case YoloFamily => "YOLO"
    case SsdFamily => "SSD"
    case RetinaNetFamily => "RetinaNet"
    case MtcnnFamily => "MTCNN"
    case LffdFamily => "LFFD"
    case NoDetector => ""
  }

  /**
   * Whether a routine keeps a candidate: YOLO candidates are what
   * non-maximum suppression returned and are all kept; the other routines
   * keep a candidate above their confidence threshold whose box passes
   * the family's test.
   */
  predicate Accepts(f: Family, d: Detection, threshold: real, image: Size, minFaceSize: real)
  {
    f == YoloFamily || (d.confidence > threshold && FamilyKeeps(f, d.bbox, image, minFaceSize))
  }

  function AcceptRule(f: Family, threshold: real, image: Size, minFaceSize: real): Detection -> bool
  {
    d => Accepts(f, d, threshold, image, minFaceSize)
  }

  /** The candidate loop of a `detectWith*` routine: the accepted candidates, in order. */
  method KeepCandidates(f: Family, candidates: seq<Detection>, threshold: real, image: Size, minFaceSize: real)
    returns (kept: seq<Detection>)
    ensures kept == Filter(candidates, AcceptRule(f, threshold, image, minFaceSize))
  {
    kept := [];
    var i := 0;
    while i < |candidates|
      invariant i <= |candidates|
      invariant kept == Filter(candidates[..i], AcceptRule(f, threshold, image, minFaceSize))
    {
      assert candidates[..i + 1][..i] == candidates[..i];
      var d := candidates[i];
      if f == YoloFamily || (d.confidence > threshold && FamilyKeeps(f, d.bbox, image, minFaceSize)) {
        kept := kept + [d];
      }
      i := i + 1;
    }
    assert candidates[..|candidates|] == candidates;
  }

  /**
   * What the SSD, RetinaNet, LFFD and MTCNN routines return: exactly the
   * candidates above the threshold whose boxes pass the family's test,
   * in candidate order.
   */
  lemma KeptCandidates(f: Family, candidates: seq<Detection>, threshold: real, image: Size, minFaceSize: real, d: Detection)
    requires f != YoloFamily
    ensures d in Filter(candidates, AcceptRule(f, threshold, image, minFaceSize))
            <==> d in candidates && d.confidence > threshold && FamilyKeeps(f, d.bbox, image, minFaceSize)
    ensures IsSubsequence(Filter(candidates, AcceptRule(f, threshold, image, minFaceSize)), candidates)
  {
    FilterMembers(candidates, AcceptRule(f, threshold, image, minFaceSize), d);
    FilterIsSubsequence(candidates, AcceptRule(f, threshold, image, minFaceSize));
  }

  // ---------------------------------------------------------------------
  // Model files

  /** What a `cv::dnn::readNetFrom*` call gives: a network, an empty one, or a `cv::Exception`. */
  datatype ReadOutcome = NetLoaded | NetEmpty | CvException(what: string)

  /** How `loadModel` treats a path, before any reader is called. */
  datatype ModelVerdict =
    | NoExtension                  // `substr(npos)` throws
    | Readable                     // a reader is called
    | NeedsConfig(ext: string)     // .weights or .caffemodel without a config file
    | UnsupportedFormat(ext: string)

  /** The verdict for an already lower-cased extension, dot included. */
  function VerdictOfExtension(ext: string, configPath: string): (v: ModelVerdict)
  {
    if ext == ".onnx" || ext == ".pb" then Readable
    else if ext == ".weights" || ext == ".caffemodel" then
      if configPath != "" then Readable else NeedsConfig(ext)
    else UnsupportedFormat(ext)
  }

  /** `loadModel`'s choice: the suffix from the last '.', lower-cased. */
  function ClassifyModelPath(path: string, configPath: string): (v: ModelVerdict)
  {
    match FindLastChar(path, '.')
    case None => NoExtension
    case Some(i) => VerdictOfExtension(ToLower(path[i..]), configPath)
  }

  /** Only the text from the last '.' on matters, in any letter case; a path without '.' has no extension. */
  lemma ModelVerdictByLastExtension(stem: string, ext: string, configPath: string)
    requires '.' !in ext
    ensures ClassifyModelPath(stem + "." + ext, configPath) == VerdictOfExtension("." + ToLower(ext), configPath)
    ensures '.' !in stem ==> ClassifyModelPath(stem, configPath) == NoExtension
  {
    var path := stem + "." + ext;
    assert FindLastChar(path, '.') == Some(|stem|) by {
      assert path[|stem|] == '.';
      assert path[|stem| + 1..] == ext;
      LastCharAt(path, '.', |stem|);
    }
    assert ToLower(path[|stem|..]) == "." + ToLower(ext) by {
      assert path[|stem|..] == "." + ext;
      LowerConcat(".", ext);
    }
  }

  /** The classification ignores letter case. */
  lemma ModelVerdictIgnoresCase(path: string, configPath: string)
    ensures ClassifyModelPath(ToLower(path), configPath) == ClassifyModelPath(path, configPath)
  {
    LowerKeepsLastChar(path, '.');
    match FindLastChar(path, '.')
    case None =>
    case Some(i) =>
      LowerSuffix(path, i);
      LowerIdempotent(path[i..]);
  }

  const DefaultModelDir := "models/"

  /** `setupDefaultModelPaths`: Haar and the plain DNN variants and SCRFD have no entry. */
  const DefaultModelPaths: map<Algorithm, string> := map[
    YoloV3 := "yolov3-face.weights", YoloV4 := "yolov4-face.weights", YoloV5 := "yolov5s-face.onnx",
    SsdMobilenet := "ssd_mobilenet_face.pb", SsdResnet := "ssd_resnet_face.pb",
    Retinanet := "retinanet_face.onnx", Mtcnn := "mtcnn_face.onnx", Lffd := "lffd_face.onnx",
    YoloFace := "yolo_face.onnx"]

  /** A name without upper-case letters is its own lower case. */
  lemma LowerOfLower(s: string)
    requires forall i :: 0 <= i < |s| ==> !('A' <= s[i] <= 'Z')
    ensures ToLower(s) == s
  {
  }

  /** A path whose last extension is a known lower-case `ext`. */
  lemma VerdictOfLowerExtension(path: string, stem: string, ext: string, configPath: string)
    requires path == stem + "." + ext && '.' !in ext
    requires forall i :: 0 <= i < |ext| ==> !('A' <= ext[i] <= 'Z')
    ensures ClassifyModelPath(path, configPath) == VerdictOfExtension("." + ext, configPath)
  {
    ModelVerdictByLastExtension(stem, ext, configPath);
    LowerOfLower(ext);
  }

  /** A Darknet weights file given without a config file. */
  lemma WeightsNeedConfig(path: string, stem: string)
    requires path == stem + "." + "weights"
    ensures ClassifyModelPath(path, "") == NeedsConfig(".weights")
  {
    var ext: string := "weights";
    WeightsExtensionText(ext, ".weights");
    VerdictOfLowerExtension(path, stem, ext, "");
  }

  /** A lower-case extension without '.' and its dotted form. */
  lemma WeightsExtensionText(ext: string, dotted: string)
    requires ext == "weights" && dotted == ".weights"
    ensures '.' !in ext && (forall i :: 0 <= i < |ext| ==> !('A' <= ext[i] <= 'Z')) && "." + ext == dotted
  {
  }

  lemma OnnxExtensionText(ext: string, dotted: string)
    requires ext == "onnx" && dotted == ".onnx"
    ensures '.' !in ext && (forall i :: 0 <= i < |ext| ==> !('A' <= ext[i] <= 'Z')) && "." + ext == dotted
  {
  }

  /** The default path of the YOLO v5 model, cut at its last '.'. */
  lemma DefaultOnnxPath(path: string, stem: string, ext: string)
    requires path == DefaultModelDir + DefaultModelPaths[YoloV5]
    requires stem == "models/yolov5s-face" && ext == "onnx"
    ensures path == stem + "." + ext
  {
  }

  /**
   * `initializeAlgorithm` calls `loadModel` without a config file, so the
   * two default YOLO models in Darknet format can never be loaded that
   * way.
   */
  lemma DefaultDarknetModelsNeedConfig(a: Algorithm, path: string)
    requires a == YoloV3 || a == YoloV4
    requires path == DefaultModelDir + DefaultModelPaths[a]
    ensures ClassifyModelPath(path, "") == NeedsConfig(".weights")
  {
    if a == YoloV3 {
      DefaultV3Path(path, "models/yolov3-face");
      WeightsNeedConfig(path, "models/yolov3-face");
    } else {
      DefaultV4Path(path, "models/yolov4-face");
      WeightsNeedConfig(path, "models/yolov4-face");
    }
  }

  lemma DefaultV3Path(path: string, stem: string)
    requires path == DefaultModelDir + DefaultModelPaths[YoloV3] && stem == "models/yolov3-face"
    ensures path == stem + "." + "weights"
  {
  }

  lemma DefaultV4Path(path: string, stem: string)
    requires path == DefaultModelDir + DefaultModelPaths[YoloV4] && stem == "models/yolov4-face"
    ensures path == stem + "." + "weights"
  {
  }

  /** The ONNX default of YOLO v5 reaches a reader. */
  lemma DefaultOnnxModelIsReadable(path: string)
    requires path == DefaultModelDir + DefaultModelPaths[YoloV5]
    ensures ClassifyModelPath(path, "") == Readable
  {
    var stem: string := "models/yolov5s-face";
    var ext: string := "onnx";
    DefaultOnnxPath(path, stem, ext);
    OnnxExtensionText(ext, ".onnx");
    VerdictOfLowerExtension(path, stem, ext, "");
  }

  /** The message `loadModel` leaves when it fails on `path`: the path's verdict, then the reader's outcome. */
  function LoadFailureMessage(path: string, configPath: string, read: ReadOutcome, substrError: string): string
  {
    match ClassifyModelPath(path, configPath)
    case NoExtension => "Error loading model: " + substrError
    case NeedsConfig(ext) => "Config file required for " + ext + " format"
    case UnsupportedFormat(ext) => "Unsupported model format: " + ext
    case Readable =>
      match read
      case NetEmpty => "Failed to load model: " + path
      case CvException(what) => "OpenCV error loading model: " + what
      case NetLoaded => ""
  }

  class Detector {
    var currentAlgorithm: Algorithm
    /** `config_.algorithm`. */
    var configAlgorithm: Algorithm
    var initialized: bool
    var lastError: string
    var modelStatus: map<Algorithm, bool>
    /** The algorithms with an entry in `loaded_models_` (the networks themselves are not modelled). */
    var loadedModels: set<Algorithm>
    var modelDir: string
    /** `config_.model_paths`, which `initializeAlgorithm` reads with `operator[]`. */
    var modelPaths: map<Algorithm, string>

    constructor(algorithm: Algorithm, dir: string, paths: map<Algorithm, string>)
      ensures currentAlgorithm == algorithm && configAlgorithm == algorithm
      ensures !initialized && lastError == ""
      ensures modelStatus == map[] && loadedModels == {}
      ensures modelDir == dir && modelPaths == paths
    {
      currentAlgorithm := algorithm;
      configAlgorithm := algorithm;
      initialized := false;
      lastError := "";
      modelStatus := map[];
      loadedModels := {};
      modelDir := dir;
      modelPaths := paths;
    }

    predicate IsModelLoaded(a: Algorithm)
      reads this
    {
      ModelLoaded(modelStatus, a)
    }

    /** The checks `loadModel` makes on the path before calling a reader: the error message, if any. */
    static method CheckModelPath(path: string, configPath: string, substrError: string) returns (err: Option<string>)
      ensures err.None? <==> ClassifyModelPath(path, configPath) == Readable
      ensures var v := ClassifyModelPath(path, configPath);
        && (v == NoExtension ==> err == Some("Error loading model: " + substrError))
        && (v.NeedsConfig? ==> err == Some("Config file required for " + v.ext + " format"))
        && (v.UnsupportedFormat? ==> err == Some("Unsupported model format: " + v.ext))
    {
      var dot := FindLastChar(path, '.');
      if dot.None? {
        return Some("Error loading model: " + substrError);
      }
      var ext := ToLower(path[dot.value..]);
      if ext == ".weights" || ext == ".caffemodel" {
        if configPath == "" {
          return Some("Config file required for " + ext + " format");
        }
      } else if ext != ".onnx" && ext != ".pb" {
        return Some("Unsupported model format: " + ext);
      }
      return None;
    }

    /**
     * `loadModel`: the verdict on the path decides; a reader is called
     * only for a readable path, and only a non-empty network marks the
     * algorithm loaded. `substrError` is the message of the exception
     * that `substr(npos)` throws for a path without '.'.
     */
    method LoadModel(a: Algorithm, path: string, configPath: string, read: ReadOutcome, substrError: string)
      returns (ok: bool)
      modifies this
      ensures var v := ClassifyModelPath(path, configPath);
        ok <==> v == Readable && read == NetLoaded
      ensures ok ==> modelStatus == old(modelStatus)[a := true] && loadedModels == old(loadedModels) + {a}
                     && lastError == old(lastError)
      ensures !ok ==> modelStatus == old(modelStatus) && loadedModels == old(loadedModels)
      ensures var v := ClassifyModelPath(path, configPath);
        && (v == NoExtension ==> lastError == "Error loading model: " + substrError)
        && (v.NeedsConfig? ==> lastError == "Config file required for " + v.ext + " format")
        && (v.UnsupportedFormat? ==> lastError == "Unsupported model format: " + v.ext)
        && (v == Readable && read == NetEmpty ==> lastError == "Failed to load model: " + path)
        && (v == Readable && read.CvException? ==> lastError == "OpenCV error loading model: " + read.what)
      ensures currentAlgorithm == old(currentAlgorithm) && configAlgorithm == old(configAlgorithm)
      ensures initialized == old(initialized) && modelDir == old(modelDir) && modelPaths == old(modelPaths)
    {
      var err := CheckModelPath(path, configPath, substrError);
      if err.Some? {
        lastError := err.value;
        return false;
      }
      match read
      case NetEmpty =>
        lastError := "Failed to load model: " + path;
        return false;
      case CvException(what) =>
        lastError := "OpenCV error loading model: " + what;
        return false;
      case NetLoaded =>
        loadedModels := loadedModels + {a};
        modelStatus := modelStatus[a := true];
        return true;
    }

    /** The path `initializeAlgorithm` tries: the model directory and the configured file name, empty when none. */
    function ModelPath(a: Algorithm): (path: string)
      reads this
      ensures a in modelPaths ==> path == modelDir + modelPaths[a]
      ensures a !in modelPaths ==> path == modelDir
    {
      modelDir + (if a in modelPaths then modelPaths[a] else "")
    }

    /** Whether `initializeAlgorithm(a)` succeeds from this state, given the file system and the reader. */
    predicate InitSucceeds(a: Algorithm, fileExists: bool, read: ReadOutcome)
      reads this
    {
      IsModelLoaded(a) || a == HaarCascade
      || (fileExists && ClassifyModelPath(ModelPath(a), "") == Readable && read == NetLoaded)
    }

    /** `config_.model_paths` once `operator[]` has looked `a` up: an absent key gets an empty entry. */
    function PathsAfterLookup(a: Algorithm): (paths: map<Algorithm, string>)
      reads this
      ensures a in paths && paths[a] == (if a in modelPaths then modelPaths[a] else "")
      ensures forall b :: b != a ==> (b in paths <==> b in modelPaths)
      ensures forall b :: b != a && b in modelPaths ==> paths[b] == modelPaths[b]
    {
      if a in modelPaths then modelPaths else modelPaths[a := ""]
    }

    /**
     * `initializeAlgorithm`: an algorithm already loaded, or Haar, needs
     * nothing; otherwise the model file must exist (`fileExists`) and is
     * then loaded without a config file. Looking the path up inserts an
     * empty entry for an algorithm without one.
     */
    method InitializeAlgorithm(a: Algorithm, fileExists: bool, read: ReadOutcome, substrError: string)
      returns (ok: bool)
      modifies this
      ensures ok <==> old(InitSucceeds(a, fileExists, read))
      ensures old(IsModelLoaded(a)) ==> modelPaths == old(modelPaths) && lastError == old(lastError)
      ensures !old(IsModelLoaded(a)) ==> modelPaths == old(PathsAfterLookup(a))
      ensures !old(IsModelLoaded(a)) && a == HaarCascade ==> lastError == old(lastError)
      ensures !old(IsModelLoaded(a)) && a != HaarCascade && !fileExists ==>
        lastError == "Model file not found: " + old(ModelPath(a))
      ensures !old(IsModelLoaded(a)) && a != HaarCascade && fileExists && !ok ==>
        lastError == LoadFailureMessage(old(ModelPath(a)), "", read, substrError)
      ensures ok && !old(IsModelLoaded(a)) && a != HaarCascade ==>
        modelStatus == old(modelStatus)[a := true] && loadedModels == old(loadedModels) + {a}
        && lastError == old(lastError)
      ensures ok ==> IsModelLoaded(a) || a == HaarCascade
      ensures old(IsModelLoaded(a)) || a == HaarCascade || !ok ==>
        modelStatus == old(modelStatus) && loadedModels == old(loadedModels)
      ensures currentAlgorithm == old(currentAlgorithm) && configAlgorithm == old(configAlgorithm)
      ensures initialized == old(initialized) && modelDir == old(modelDir)
    {
      if IsModelLoaded(a) {
        return true;
      }
      var path := ModelPath(a);
      modelPaths := PathsAfterLookup(a);
      if a == HaarCascade {
        return true;
      }
      ok := LoadIfPresent(a, path, fileExists, read, substrError);
    }

    /** The part of `initializeAlgorithm` past the early returns: the file must exist, then it is loaded without a config file. */
    method LoadIfPresent(a: Algorithm, path: string, fileExists: bool, read: ReadOutcome, substrError: string)
      returns (ok: bool)
      modifies this
      ensures ok <==> fileExists && ClassifyModelPath(path, "") == Readable && read == NetLoaded
      ensures !fileExists ==> lastError == "Model file not found: " + path
      ensures fileExists && !ok ==> lastError == LoadFailureMessage(path, "", read, substrError)
      ensures ok ==> modelStatus == old(modelStatus)[a := true] && loadedModels == old(loadedModels) + {a}
                     && lastError == old(lastError)
      ensures !ok ==> modelStatus == old(modelStatus) && loadedModels == old(loadedModels)
      ensures currentAlgorithm == old(currentAlgorithm) && configAlgorithm == old(configAlgorithm)
      ensures initialized == old(initialized) && modelDir == old(modelDir) && modelPaths == old(modelPaths)
    {
      if !fileExists {
        lastError := "Model file not found: " + path;
        return false;
      }
      ok := LoadModel(a, path, "", read, substrError);
    }

    /**
     * `initialize(algorithm)`: the algorithm becomes current before the
     * attempt, so it stays current when the attempt fails; a failure
     * replaces any message of the attempt with its own.
     */
    method Initialize(a: Algorithm, fileExists: bool, read: ReadOutcome, substrError: string)
      returns (ok: bool)
      modifies this
      ensures currentAlgorithm == a && configAlgorithm == a
      ensures ok <==> old(InitSucceeds(a, fileExists, read))
      ensures ok ==> initialized && lastError == old(lastError)
      ensures ok && !old(IsModelLoaded(a)) && a != HaarCascade ==>
        modelStatus == old(modelStatus)[a := true] && loadedModels == old(loadedModels) + {a}
      ensures !ok ==>
        initialized == old(initialized) && lastError == "Failed to initialize algorithm: " + AlgorithmToString(a)
      ensures old(IsModelLoaded(a)) || a == HaarCascade || !ok ==>
        modelStatus == old(modelStatus) && loadedModels == old(loadedModels)
      ensures modelPaths == if old(IsModelLoaded(a)) then old(modelPaths) else old(PathsAfterLookup(a))
      ensures modelDir == old(modelDir)
    {
      currentAlgorithm := a;
      configAlgorithm := a;
      ok := InitializeAlgorithm(a, fileExists, read, substrError);
      if !ok {
        lastError := "Failed to initialize algorithm: " + AlgorithmToString(a);
        return;
      }
      initialized := true;
    }

    /** `setAlgorithm`: initializes only when the algorithm changes. */
    method SetAlgorithm(a: Algorithm, fileExists: bool, read: ReadOutcome, substrError: string)
      modifies this
      ensures currentAlgorithm == a
      ensures old(currentAlgorithm) == a ==>
        configAlgorithm == old(configAlgorithm) && initialized == old(initialized) && lastError == old(lastError)
        && modelStatus == old(modelStatus) && loadedModels == old(loadedModels) && modelPaths == old(modelPaths)
      ensures old(currentAlgorithm) != a ==> configAlgorithm == a
      ensures old(currentAlgorithm) != a ==>
        initialized == (old(initialized) || old(InitSucceeds(a, fileExists, read)))
        && lastError == (if old(InitSucceeds(a, fileExists, read)) then old(lastError)
                         else "Failed to initialize algorithm: " + AlgorithmToString(a))
        && modelPaths == (if old(IsModelLoaded(a)) then old(modelPaths) else old(PathsAfterLookup(a)))
      ensures old(currentAlgorithm) != a && old(InitSucceeds(a, fileExists, read))
              && !old(IsModelLoaded(a)) && a != HaarCascade ==>
        modelStatus == old(modelStatus)[a := true] && loadedModels == old(loadedModels) + {a}
      ensures old(currentAlgorithm) != a && (old(IsModelLoaded(a)) || a == HaarCascade || !old(InitSucceeds(a, fileExists, read))) ==>
        modelStatus == old(modelStatus) && loadedModels == old(loadedModels)
      ensures modelDir == old(modelDir)
    {
      if a != currentAlgorithm {
        var _ := Initialize(a, fileExists, read, substrError);
      }
    }

    /** `unloadModel`: the network goes and the status entry becomes false. */
    method UnloadModel(a: Algorithm)
      modifies this
      ensures loadedModels == old(loadedModels) - {a} && modelStatus == old(modelStatus)[a := false]
      ensures !IsModelLoaded(a)
      ensures forall b :: b != a ==> (IsModelLoaded(b) <==> old(IsModelLoaded(b)))
      ensures currentAlgorithm == old(currentAlgorithm) && configAlgorithm == old(configAlgorithm)
      ensures initialized == old(initialized) && lastError == old(lastError)
      ensures modelDir == old(modelDir) && modelPaths == old(modelPaths)
    {
      loadedModels := loadedModels - {a};
      modelStatus := modelStatus[a := false];
    }

    /** `unloadAllModels`: both maps are emptied. */
    method UnloadAllModels()
      modifies this
      ensures loadedModels == {} && modelStatus == map[]
      ensures forall b :: !IsModelLoaded(b)
      ensures currentAlgorithm == old(currentAlgorithm) && configAlgorithm == old(configAlgorithm)
      ensures initialized == old(initialized) && lastError == old(lastError)
      ensures modelDir == old(modelDir) && modelPaths == old(modelPaths)
    {
      loadedModels := {};
      modelStatus := map[];
    }

    /**
     * `detectFaces`: the two guards, then the family's routine, which
     * needs the current algorithm's network and keeps the accepted
     * `candidates`; the faces are stamped with the current algorithm and
     * the elapsed whole milliseconds. Algorithms without a routine fail
     * with "Unsupported algorithm".
     */
    method DetectFaces(image: Size, candidates: seq<Detection>, threshold: real, minFaceSize: real, durationMs: int)
      returns (detections: seq<AdvancedDetection>)
      modifies this
      ensures !old(initialized) ==> detections == [] && lastError == "Detector not initialized"
      ensures old(initialized) && !FaceDetector.ValidImage(image) ==>
        detections == [] && lastError == "Input image is empty"
      ensures old(initialized) && FaceDetector.ValidImage(image) && FamilyOf(currentAlgorithm) == NoDetector ==>
        detections == [] && lastError == "Unsupported algorithm"
      ensures old(initialized) && FaceDetector.ValidImage(image) && FamilyOf(currentAlgorithm) != NoDetector
              && currentAlgorithm !in loadedModels ==>
        detections == [] && lastError == FamilyName(FamilyOf(currentAlgorithm)) + " model not loaded"
      ensures old(initialized) && FaceDetector.ValidImage(image) && FamilyOf(currentAlgorithm) != NoDetector
              && currentAlgorithm in loadedModels ==>
        var kept := Filter(candidates, AcceptRule(FamilyOf(currentAlgorithm), threshold, image, minFaceSize));
        lastError == old(lastError) && |detections| == |kept|
        && forall i :: 0 <= i < |kept| ==>
             detections[i] == AdvancedDetection(kept[i].bbox, kept[i].confidence, currentAlgorithm, durationMs)
      ensures currentAlgorithm == old(currentAlgorithm) && configAlgorithm == old(configAlgorithm)
      ensures initialized == old(initialized) && modelStatus == old(modelStatus) && loadedModels == old(loadedModels)
      ensures modelDir == old(modelDir) && modelPaths == old(modelPaths)
    {
      if !initialized {
        lastError := "Detector not initialized";
        return [];
      }
      if !FaceDetector.ValidImage(image) {
        lastError := "Input image is empty";
        return [];
      }
      var family := FamilyOf(currentAlgorithm);
      if family == NoDetector {
        lastError := "Unsupported algorithm";
        return [];
      }
      if currentAlgorithm !in loadedModels {
        lastError := FamilyName(family) + " model not loaded";
        return [];
      }
      var kept := KeepCandidates(family, candidates, threshold, image, minFaceSize);
      detections := [];
      var i := 0;
      while i < |kept|
        invariant i <= |kept| && |detections| == i
        invariant forall j :: 0 <= j < i ==>
          detections[j] == AdvancedDetection(kept[j].bbox, kept[j].confidence, currentAlgorithm, durationMs)
      {
        detections := detections + [AdvancedDetection(kept[i].bbox, kept[i].confidence, currentAlgorithm, durationMs)];
        i := i + 1;
      }
    }
  }
}
