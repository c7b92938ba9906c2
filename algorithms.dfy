/**
 * The algorithm catalogue shared by both copies of the advanced face
 * detector: the algorithm enumeration, its display names and the
 * case-insensitive name parser, the built-in profile table with its
 * lookups, and `AdvancedDetectorUtils::findBestAlgorithm`.
 */
module Algorithms {
  import opened Base
  import opened Detections

  datatype Algorithm =
    | HaarCascade | DnnCaffe | DnnTensorflow | DnnOnnx
    | YoloV3 | YoloV4 | YoloV5 | SsdMobilenet | SsdResnet
    | Retinanet | Mtcnn | Lffd | Scrfd | YoloFace

  /** `AdvancedFaceDetection`: a face with the algorithm that found it and the time it took (whole milliseconds). */
  datatype AdvancedDetection = AdvancedDetection(bbox: Rect, confidence: real, algorithmUsed: Algorithm, detectionTimeMs: int)

  /** `isModelLoaded` over the status map: loaded only when an entry says so. */
  predicate ModelLoaded(status: map<Algorithm, bool>, a: Algorithm)
  {
    a in status && status[a]
  }

  /** The four algorithms without a built-in profile, whose names do not parse back. */
  predicate Unlisted(a: Algorithm)
  {
    a == DnnCaffe || a == DnnTensorflow || a == DnnOnnx || a == Scrfd
  }

  /** `algorithmToString`: every enumerator has its own name, so the "Unknown" default is never produced. */
  function AlgorithmToString(a: Algorithm): (name: string)
    ensures name != [] && name != "Unknown"
  {
    match a
    case HaarCascade => "Haar Cascade"
    case DnnCaffe => "DNN Caffe"
    case DnnTensorflow => "DNN TensorFlow"
    case DnnOnnx => "DNN ONNX"
    case YoloV3 => "YOLO v3"
    case YoloV4 => "YOLO v4"
    case YoloV5 => "YOLO v5"
    case SsdMobilenet => "SSD MobileNet"
    case SsdResnet => "SSD ResNet"
    case Retinanet => "RetinaNet"
    case Mtcnn => "MTCNN"
    case Lffd => "LFFD"
    case Scrfd => "SCRFD"
    case YoloFace => "YOLO-Face"
  }

  /**
   * `stringToAlgorithm`: lower-cases the name and looks for keywords, the
   * first hit winning; anything unrecognised falls back to Haar.
   */
  function StringToAlgorithm(name: string): (a: Algorithm)
  {
    Classify(ToLower(name))
  }

  /** The keyword tests of `stringToAlgorithm` on the lower-cased name. */
  function Classify(lower: string): (a: Algorithm)
  {
    if Contains(lower, "yolo") then
      if Contains(lower, "v3") then YoloV3
      else if Contains(lower, "v4") then YoloV4
      else if Contains(lower, "v5") then YoloV5
      else if Contains(lower, "face") then YoloFace
      else YoloV5
    else if Contains(lower, "ssd") then
      if Contains(lower, "resnet") then SsdResnet else SsdMobilenet
    else if Contains(lower, "retinanet") then Retinanet
    else if Contains(lower, "mtcnn") then Mtcnn
    else if Contains(lower, "lffd") then Lffd
    else if Contains(lower, "haar") then HaarCascade
    else HaarCascade
  }

  // ---------------------------------------------------------------------
  // Substring facts

  /** A keyword with a letter the text lacks does not occur in it. */
  lemma MissingChar(s: string, sub: string, c: char)
    requires c in sub && c !in s
    ensures !Contains(s, sub)
  {
    var k :| 0 <= k < |sub| && sub[k] == c;
    forall i: nat
      ensures !OccursAt(s, sub, i)
    {
      if i + |sub| <= |s| {
        assert s[i..i + |sub|][k] == s[i + k];
        assert s[i + k] in s;
      }
    }
  }

  /** A keyword whose two letters `sub[k]`, `sub[k + 1]` are never adjacent in the text does not occur in it. */
  lemma MissingPair(s: string, sub: string, k: nat)
    requires k + 1 < |sub|
    requires forall i :: 0 <= i < |s| - 1 ==> !(s[i] == sub[k] && s[i + 1] == sub[k + 1])
    ensures !Contains(s, sub)
  {
    forall i: nat
      ensures !OccursAt(s, sub, i)
    {
      if i + |sub| <= |s| {
        assert s[i..i + |sub|][k] == s[i + k];
        assert s[i..i + |sub|][k + 1] == s[i + k + 1];
      }
    }
  }

  // ---------------------------------------------------------------------
  // Name round trip, one algorithm at a time. The keyword facts about each
  // lower-cased name are proved apart from the step through `Classify`, so
  // that the literal stays out of that step.

  /** None of the keywords `Classify` tests before its Haar fallback. */
  predicate NoKeyword(l: string)
  {
    !Contains(l, "yolo") && !Contains(l, "ssd") && !Contains(l, "retinanet")
    && !Contains(l, "mtcnn") && !Contains(l, "lffd")
  }

  lemma KeywordsHaar(l: string)
    requires l == "haar cascade"
    ensures NoKeyword(l)
  {
    MissingChar(l, "yolo", 'y');
    HaarHasNoSsd(l);
    MissingChar(l, "retinanet", 't');
    MissingChar(l, "mtcnn", 'm');
    MissingChar(l, "lffd", 'l');
  }

  lemma HaarHasNoSsd(l: string)
    requires l == "haar cascade"
    ensures !Contains(l, "ssd")
  {
    forall i | 0 <= i < |l| - 1 ensures !(l[i] == 's' && l[i + 1] == 's') {
      assert i == 0 || i == 1 || i == 2 || i == 3 || i == 4 || i == 5 || i == 6 || i == 7 || i == 8 || i == 9 || i == 10;
    }
    MissingPair(l, "ssd", 0);
  }

  lemma LowerHaar()
    ensures ToLower(AlgorithmToString(HaarCascade)) == "haar cascade"
  {
    LowerByIndexHaar(AlgorithmToString(HaarCascade), "haar cascade");
  }

  lemma LowerByIndexHaar(s: string, t: string)
    requires s == "Haar Cascade" && t == "haar cascade"
    ensures ToLower(s) == t
  {
    forall i | 0 <= i < |s|
      ensures ToLowerChar(s[i]) == t[i]
    {
      if i < 4 { assert i == 0 || i == 1 || i == 2 || i == 3; }
      else if i < 8 { assert i == 4 || i == 5 || i == 6 || i == 7; }
      else { assert i == 8 || i == 9 || i == 10 || i == 11; }
    }
    LowerMatches(s, t);
  }

  lemma ParseHaar(l: string)
    requires l == ToLower(AlgorithmToString(HaarCascade))
    ensures Classify(l) == HaarCascade
  {
    LowerHaar();
    KeywordsHaar(l);
  }

  lemma KeywordsDnnCaffe(l: string)
    requires l == "dnn caffe"
    ensures NoKeyword(l)
  {
    MissingChar(l, "yolo", 'y');
    MissingChar(l, "ssd", 's');
    MissingChar(l, "retinanet", 't');
    MissingChar(l, "mtcnn", 'm');
    MissingChar(l, "lffd", 'l');
  }

  lemma LowerDnnCaffe()
    ensures ToLower(AlgorithmToString(DnnCaffe)) == "dnn caffe"
  {
    LowerByIndexDnnCaffe(AlgorithmToString(DnnCaffe), "dnn caffe");
  }

  lemma LowerByIndexDnnCaffe(s: string, t: string)
    requires s == "DNN Caffe" && t == "dnn caffe"
    ensures ToLower(s) == t
  {
    forall i | 0 <= i < |s|
      ensures ToLowerChar(s[i]) == t[i]
    {
      if i < 4 { assert i == 0 || i == 1 || i == 2 || i == 3; }
      else if i < 8 { assert i == 4 || i == 5 || i == 6 || i == 7; }
      else { assert i == 8; }
    }
    LowerMatches(s, t);
  }

  lemma ParseDnnCaffe()
    ensures StringToAlgorithm(AlgorithmToString(DnnCaffe)) == HaarCascade
  {
    var l := ToLower(AlgorithmToString(DnnCaffe));
    LowerDnnCaffe();
    KeywordsDnnCaffe(l);
  }

  lemma KeywordsDnnTensorflow(l: string)
    requires l == "dnn tensorflow"
    ensures NoKeyword(l)
  {
    MissingChar(l, "yolo", 'y');
    TensorflowHasNoSsd(l);
    MissingChar(l, "retinanet", 'i');
    MissingChar(l, "mtcnn", 'm');
    TensorflowHasNoLffd(l);
  }

  lemma TensorflowHasNoSsd(l: string)
    requires l == "dnn tensorflow"
    ensures !Contains(l, "ssd")
  {
    forall i | 0 <= i < |l| - 1 ensures !(l[i] == 's' && l[i + 1] == 's') {
      assert i == 0 || i == 1 || i == 2 || i == 3 || i == 4 || i == 5 || i == 6 || i == 7 || i == 8 || i == 9 || i == 10 || i == 11 || i == 12;
    }
    MissingPair(l, "ssd", 0);
  }

  lemma TensorflowHasNoLffd(l: string)
    requires l == "dnn tensorflow"
    ensures !Contains(l, "lffd")
  {
    forall i | 0 <= i < |l| - 1 ensures !(l[i] == 'l' && l[i + 1] == 'f') {
      assert i == 0 || i == 1 || i == 2 || i == 3 || i == 4 || i == 5 || i == 6 || i == 7 || i == 8 || i == 9 || i == 10 || i == 11 || i == 12;
    }
    MissingPair(l, "lffd", 0);
  }

  lemma LowerDnnTensorflow()
    ensures ToLower(AlgorithmToString(DnnTensorflow)) == "dnn tensorflow"
  {
    LowerByIndexDnnTensorflow(AlgorithmToString(DnnTensorflow), "dnn tensorflow");
  }

  lemma LowerByIndexDnnTensorflow(s: string, t: string)
    requires s == "DNN TensorFlow" && t == "dnn tensorflow"
    ensures ToLower(s) == t
  {
    forall i | 0 <= i < |s|
      ensures ToLowerChar(s[i]) == t[i]
    {
      if i < 4 { assert i == 0 || i == 1 || i == 2 || i == 3; }
      else if i < 8 { assert i == 4 || i == 5 || i == 6 || i == 7; }
      else if i < 12 { assert i == 8 || i == 9 || i == 10 || i == 11; }
      else { assert i == 12 || i == 13; }
    }
    LowerMatches(s, t);
  }

  lemma ParseDnnTensorflow()
    ensures StringToAlgorithm(AlgorithmToString(DnnTensorflow)) == HaarCascade
  {
    var l := ToLower(AlgorithmToString(DnnTensorflow));
    LowerDnnTensorflow();
    KeywordsDnnTensorflow(l);
  }

  lemma KeywordsDnnOnnx(l: string)
    requires l == "dnn onnx"
    ensures NoKeyword(l)
  {
    MissingChar(l, "yolo", 'y');
    MissingChar(l, "ssd", 's');
    MissingChar(l, "retinanet", 'r');
    MissingChar(l, "mtcnn", 'm');
    MissingChar(l, "lffd", 'l');
  }

  lemma LowerDnnOnnx()
    ensures ToLower(AlgorithmToString(DnnOnnx)) == "dnn onnx"
  {
  }

  lemma ParseDnnOnnx()
    ensures StringToAlgorithm(AlgorithmToString(DnnOnnx)) == HaarCascade
  {
    var l := ToLower(AlgorithmToString(DnnOnnx));
    LowerDnnOnnx();
    KeywordsDnnOnnx(l);
  }

  lemma KeywordsScrfd(l: string)
    requires l == "scrfd"
    ensures NoKeyword(l)
  {
    MissingChar(l, "yolo", 'y');
    assert !Contains(l, "ssd") by {
      forall i | 0 <= i < |l| - 1 ensures !(l[i] == 's' && l[i + 1] == 's') {
        assert i == 0 || i == 1 || i == 2 || i == 3;
      }
      MissingPair(l, "ssd", 0);
    }
    MissingChar(l, "retinanet", 'e');
    MissingChar(l, "mtcnn", 'm');
    MissingChar(l, "lffd", 'l');
  }

  lemma LowerScrfd()
    ensures ToLower(AlgorithmToString(Scrfd)) == "scrfd"
  {
  }

  lemma ParseScrfd()
    ensures StringToAlgorithm(AlgorithmToString(Scrfd)) == HaarCascade
  {
    var l := ToLower(AlgorithmToString(Scrfd));
    LowerScrfd();
    KeywordsScrfd(l);
  }

  lemma KeywordsYoloV3(l: string)
    requires l == "yolo v3"
    ensures Contains(l, "yolo") && Contains(l, "v3")
  {
    assert OccursAt(l, "yolo", 0);
    assert OccursAt(l, "v3", 5);
  }

  lemma LowerYoloV3()
    ensures ToLower(AlgorithmToString(YoloV3)) == "yolo v3"
  {
  }

  lemma ParseYoloV3(l: string)
    requires l == ToLower(AlgorithmToString(YoloV3))
    ensures Classify(l) == YoloV3
  {
    LowerYoloV3();
    KeywordsYoloV3(l);
  }

  lemma KeywordsYoloV4(l: string)
    requires l == "yolo v4"
    ensures Contains(l, "yolo") && !Contains(l, "v3") && Contains(l, "v4")
  {
    assert OccursAt(l, "yolo", 0);
    MissingChar(l, "v3", '3');
    assert OccursAt(l, "v4", 5);
  }

  lemma LowerYoloV4()
    ensures ToLower(AlgorithmToString(YoloV4)) == "yolo v4"
  {
  }

  lemma ParseYoloV4(l: string)
    requires l == ToLower(AlgorithmToString(YoloV4))
    ensures Classify(l) == YoloV4
  {
    LowerYoloV4();
    KeywordsYoloV4(l);
  }

  lemma KeywordsYoloV5(l: string)
    requires l == "yolo v5"
    ensures Contains(l, "yolo") && !Contains(l, "v3") && !Contains(l, "v4") && Contains(l, "v5")
  {
    assert OccursAt(l, "yolo", 0);
    MissingChar(l, "v3", '3');
    MissingChar(l, "v4", '4');
    assert OccursAt(l, "v5", 5);
  }

  lemma LowerYoloV5()
    ensures ToLower(AlgorithmToString(YoloV5)) == "yolo v5"
  {
  }

  lemma ParseYoloV5(l: string)
    requires l == ToLower(AlgorithmToString(YoloV5))
    ensures Classify(l) == YoloV5
  {
    LowerYoloV5();
    KeywordsYoloV5(l);
  }

  lemma KeywordsYoloFace(l: string)
    requires l == "yolo-face"
    ensures Contains(l, "yolo") && !Contains(l, "v3") && !Contains(l, "v4") && !Contains(l, "v5")
           && Contains(l, "face")
  {
    assert OccursAt(l, "yolo", 0);
    MissingChar(l, "v3", 'v');
    MissingChar(l, "v4", 'v');
    MissingChar(l, "v5", 'v');
    assert OccursAt(l, "face", 5);
  }

  lemma LowerYoloFace()
    ensures ToLower(AlgorithmToString(YoloFace)) == "yolo-face"
  {
    LowerByIndexYoloFace(AlgorithmToString(YoloFace), "yolo-face");
  }

  lemma LowerByIndexYoloFace(s: string, t: string)
    requires s == "YOLO-Face" && t == "yolo-face"
    ensures ToLower(s) == t
  {
    forall i | 0 <= i < |s|
      ensures ToLowerChar(s[i]) == t[i]
    {
      if i < 4 { assert i == 0 || i == 1 || i == 2 || i == 3; }
      else if i < 8 { assert i == 4 || i == 5 || i == 6 || i == 7; }
      else { assert i == 8; }
    }
    LowerMatches(s, t);
  }

  lemma ParseYoloFace(l: string)
    requires l == ToLower(AlgorithmToString(YoloFace))
    ensures Classify(l) == YoloFace
  {
    LowerYoloFace();
    KeywordsYoloFace(l);
  }

  lemma KeywordsSsdMobilenet(l: string)
    requires l == "ssd mobilenet"
    ensures !Contains(l, "yolo") && Contains(l, "ssd") && !Contains(l, "resnet")
  {
    MissingChar(l, "yolo", 'y');
    assert OccursAt(l, "ssd", 0);
    MissingChar(l, "resnet", 'r');
  }

  lemma LowerSsdMobilenet()
    ensures ToLower(AlgorithmToString(SsdMobilenet)) == "ssd mobilenet"
  {
    LowerByIndexSsdMobilenet(AlgorithmToString(SsdMobilenet), "ssd mobilenet");
  }

  lemma LowerByIndexSsdMobilenet(s: string, t: string)
    requires s == "SSD MobileNet" && t == "ssd mobilenet"
    ensures ToLower(s) == t
  {
    forall i | 0 <= i < |s|
      ensures ToLowerChar(s[i]) == t[i]
    {
      if i < 4 { assert i == 0 || i == 1 || i == 2 || i == 3; }
      else if i < 8 { assert i == 4 || i == 5 || i == 6 || i == 7; }
      else if i < 12 { assert i == 8 || i == 9 || i == 10 || i == 11; }
      else { assert i == 12; }
    }
    LowerMatches(s, t);
  }

  lemma ParseSsdMobilenet(l: string)
    requires l == ToLower(AlgorithmToString(SsdMobilenet))
    ensures Classify(l) == SsdMobilenet
  {
    LowerSsdMobilenet();
    KeywordsSsdMobilenet(l);
  }

  lemma KeywordsSsdResnet(l: string)
    requires l == "ssd resnet"
    ensures !Contains(l, "yolo") && Contains(l, "ssd") && Contains(l, "resnet")
  {
    MissingChar(l, "yolo", 'y');
    assert OccursAt(l, "ssd", 0);
    assert OccursAt(l, "resnet", 4);
  }

  lemma LowerSsdResnet()
    ensures ToLower(AlgorithmToString(SsdResnet)) == "ssd resnet"
  {
    LowerByIndexSsdResnet(AlgorithmToString(SsdResnet), "ssd resnet");
  }

  lemma LowerByIndexSsdResnet(s: string, t: string)
    requires s == "SSD ResNet" && t == "ssd resnet"
    ensures ToLower(s) == t
  {
    forall i | 0 <= i < |s|
      ensures ToLowerChar(s[i]) == t[i]
    {
      if i < 4 { assert i == 0 || i == 1 || i == 2 || i == 3; }
      else if i < 8 { assert i == 4 || i == 5 || i == 6 || i == 7; }
      else { assert i == 8 || i == 9; }
    }
    LowerMatches(s, t);
  }

  lemma ParseSsdResnet(l: string)
    requires l == ToLower(AlgorithmToString(SsdResnet))
    ensures Classify(l) == SsdResnet
  {
    LowerSsdResnet();
    KeywordsSsdResnet(l);
  }

  lemma KeywordsRetinanet(l: string)
    requires l == "retinanet"
    ensures !Contains(l, "yolo") && !Contains(l, "ssd") && Contains(l, "retinanet")
  {
    MissingChar(l, "yolo", 'y');
    MissingChar(l, "ssd", 's');
    assert OccursAt(l, "retinanet", 0);
  }

  lemma LowerRetinanet()
    ensures ToLower(AlgorithmToString(Retinanet)) == "retinanet"
  {
    LowerByIndexRetinanet(AlgorithmToString(Retinanet), "retinanet");
  }

  lemma LowerByIndexRetinanet(s: string, t: string)
    requires s == "RetinaNet" && t == "retinanet"
    ensures ToLower(s) == t
  {
    forall i | 0 <= i < |s|
      ensures ToLowerChar(s[i]) == t[i]
    {
      if i < 4 { assert i == 0 || i == 1 || i == 2 || i == 3; }
      else if i < 8 { assert i == 4 || i == 5 || i == 6 || i == 7; }
      else { assert i == 8; }
    }
    LowerMatches(s, t);
  }

  lemma ParseRetinanet(l: string)
    requires l == ToLower(AlgorithmToString(Retinanet))
    ensures Classify(l) == Retinanet
  {
    LowerRetinanet();
    KeywordsRetinanet(l);
  }

  lemma KeywordsMtcnn(l: string)
    requires l == "mtcnn"
    ensures !Contains(l, "yolo") && !Contains(l, "ssd") && !Contains(l, "retinanet") && Contains(l, "mtcnn")
  {
    MissingChar(l, "yolo", 'y');
    MissingChar(l, "ssd", 's');
    MissingChar(l, "retinanet", 'r');
    assert OccursAt(l, "mtcnn", 0);
  }

  lemma LowerMtcnn()
    ensures ToLower(AlgorithmToString(Mtcnn)) == "mtcnn"
  {
  }

  lemma ParseMtcnn(l: string)
    requires l == ToLower(AlgorithmToString(Mtcnn))
    ensures Classify(l) == Mtcnn
  {
    LowerMtcnn();
    KeywordsMtcnn(l);
  }

  lemma KeywordsLffd(l: string)
    requires l == "lffd"
    ensures !Contains(l, "yolo") && !Contains(l, "ssd") && !Contains(l, "retinanet") && !Contains(l, "mtcnn")
           && Contains(l, "lffd")
  {
    MissingChar(l, "yolo", 'y');
    MissingChar(l, "ssd", 's');
    MissingChar(l, "retinanet", 'r');
    MissingChar(l, "mtcnn", 'm');
    assert OccursAt(l, "lffd", 0);
  }

  lemma LowerLffd()
    ensures ToLower(AlgorithmToString(Lffd)) == "lffd"
  {
  }

  lemma ParseLffd(l: string)
    requires l == ToLower(AlgorithmToString(Lffd))
    ensures Classify(l) == Lffd
  {
    LowerLffd();
    KeywordsLffd(l);
  }

  lemma RoundTripYolo(a: Algorithm)
    requires a == YoloV3 || a == YoloV4 || a == YoloV5 || a == YoloFace
    ensures StringToAlgorithm(AlgorithmToString(a)) == a
  {
    var l := ToLower(AlgorithmToString(a));
    if a == YoloV3 { ParseYoloV3(l); }
    else if a == YoloV4 { ParseYoloV4(l); }
    else if a == YoloV5 { ParseYoloV5(l); }
    else { ParseYoloFace(l); }
  }

  lemma RoundTripUnlisted(a: Algorithm)
    requires Unlisted(a)
    ensures StringToAlgorithm(AlgorithmToString(a)) == HaarCascade
  {
    match a
    case DnnCaffe => ParseDnnCaffe();
    case DnnTensorflow => ParseDnnTensorflow();
    case DnnOnnx => ParseDnnOnnx();
    case Scrfd => ParseScrfd();
  }

  lemma RoundTripOthers(a: Algorithm)
    requires a == HaarCascade || a == SsdMobilenet || a == SsdResnet || a == Retinanet || a == Mtcnn || a == Lffd
    ensures StringToAlgorithm(AlgorithmToString(a)) == a
  {
    var l := ToLower(AlgorithmToString(a));
    if a == HaarCascade { ParseHaar(l); }
    else if a == SsdMobilenet { ParseSsdMobilenet(l); }
    else if a == SsdResnet { ParseSsdResnet(l); }
    else if a == Retinanet { ParseRetinanet(l); }
    else if a == Mtcnn { ParseMtcnn(l); }
    else { ParseLffd(l); }
  }

  /**
   * Parsing a display name gives the algorithm back, except for the four
   * unlisted ones, whose names contain no keyword and fall back to Haar.
   */
  lemma NameRoundTrip(a: Algorithm)
    ensures StringToAlgorithm(AlgorithmToString(a)) == if Unlisted(a) then HaarCascade else a
  {
    if Unlisted(a) {
      RoundTripUnlisted(a);
    } else if a == YoloV3 || a == YoloV4 || a == YoloV5 || a == YoloFace {
      RoundTripYolo(a);
    } else {
      RoundTripOthers(a);
    }
  }

  /** The parser ignores case: a name and its lower-cased form select the same algorithm. */
  lemma ParseIgnoresCase(name: string)
    ensures StringToAlgorithm(ToLower(name)) == StringToAlgorithm(name)
  {
    LowerIdempotent(name);
  }

  /** A name holding none of the keywords selects Haar. */
  lemma ParseFallback(name: string)
    requires NoKeyword(ToLower(name))
    ensures StringToAlgorithm(name) == HaarCascade
  {
  }

  // ---------------------------------------------------------------------
  // Profiles

  /** `AlgorithmProfile`; the use-case list and model file names, empty in every built-in entry, are not kept. */
  datatype Profile = Profile(
    algorithm: Algorithm, name: string, description: string,
    speedRating: int, accuracyRating: int, memoryEfficiency: int,
    minMemoryMb: nat, requiresGpu: bool, supportsBatch: bool)

  /** A value-initialised `AlgorithmProfile()`: everything zero, empty or false, so the algorithm is Haar. */
  const DefaultProfile := Profile(HaarCascade, "", "", 0, 0, 0, 0, false, false)

  const BuiltinProfiles: seq<Profile> := [
    Profile(HaarCascade, "Haar Cascade", "Traditional cascade classifier", 3, 2, 5, 50, false, false),
    Profile(YoloV3, "YOLO v3", "Fast real-time object detection", 5, 3, 3, 200, false, true),
    Profile(YoloV4, "YOLO v4", "Improved YOLO with better accuracy", 4, 4, 3, 250, false, true),
    Profile(YoloV5, "YOLO v5", "Latest YOLO with optimizations", 5, 4, 4, 180, false, true),
    Profile(SsdMobilenet, "SSD MobileNet", "Balanced speed and accuracy", 4, 3, 4, 100, false, true),
    Profile(SsdResnet, "SSD ResNet", "Higher accuracy SSD variant", 3, 4, 2, 300, false, true),
    Profile(Retinanet, "RetinaNet", "Excellent for small face detection", 2, 5, 2, 400, true, true),
    Profile(Mtcnn, "MTCNN", "Multi-task CNN specialized for faces", 3, 5, 4, 150, false, false),
    Profile(Lffd, "LFFD", "Light and fast face detector for mobile", 5, 3, 5, 50, false, true),
    Profile(YoloFace, "YOLO-Face", "YOLO specialized for face detection", 4, 4, 3, 200, false, true)
  ]

  predicate Listed(a: Algorithm)
  {
    exists i :: 0 <= i < |BuiltinProfiles| && BuiltinProfiles[i].algorithm == a
  }

  /** Where `a` sits in the built-in table; the unlisted algorithms come after its end. */
  function TablePosition(a: Algorithm): nat
  {
    match a
    case HaarCascade => 0 case YoloV3 => 1 case YoloV4 => 2 case YoloV5 => 3
    case SsdMobilenet => 4 case SsdResnet => 5 case Retinanet => 6 case Mtcnn => 7
    case Lffd => 8 case YoloFace => 9
    case DnnCaffe => 10 case DnnTensorflow => 11 case DnnOnnx => 12 case Scrfd => 13
  }

  lemma TablePositions()
    ensures forall i :: 0 <= i < |BuiltinProfiles| ==> TablePosition(BuiltinProfiles[i].algorithm) == i
  {
    var t := BuiltinProfiles;
    forall i | 0 <= i < |t|
      ensures TablePosition(t[i].algorithm) == i
    {
    }
  }

  /** The table lists each algorithm at most once, and lists exactly the ten that are not `Unlisted`. */
  lemma BuiltinTableShape(a: Algorithm)
    ensures Listed(a) <==> !Unlisted(a)
    ensures forall i, j :: 0 <= i < j < |BuiltinProfiles| ==> BuiltinProfiles[i].algorithm != BuiltinProfiles[j].algorithm
  {
    var t := BuiltinProfiles;
    TablePositions();
    if !Unlisted(a) {
      var i := TablePosition(a);
      assert t[i].algorithm == a;
    }
  }

  /** `isAlgorithmSupported`: every algorithm counts as supported. */
  predicate IsAlgorithmSupported(a: Algorithm)
  {
    true
  }

  /** `getAlgorithmProfile`: the first table entry for `a`, or the default profile. */
  method GetAlgorithmProfile(a: Algorithm) returns (p: Profile)
    ensures Listed(a) ==> exists i :: 0 <= i < |BuiltinProfiles| && p == BuiltinProfiles[i] && p.algorithm == a
    ensures !Listed(a) ==> p == DefaultProfile
  {
    var i := 0;
    while i < |BuiltinProfiles|
      invariant i <= |BuiltinProfiles|
      invariant forall j :: 0 <= j < i ==> BuiltinProfiles[j].algorithm != a
    {
      if BuiltinProfiles[i].algorithm == a {
        return BuiltinProfiles[i];
      }
      i := i + 1;
    }
    return DefaultProfile;
  }

  /** `getAvailableAlgorithms`: the algorithms of the table, in table order. */
  method GetAvailableAlgorithms() returns (algorithms: seq<Algorithm>)
    ensures |algorithms| == |BuiltinProfiles|
    ensures forall i :: 0 <= i < |algorithms| ==> algorithms[i] == BuiltinProfiles[i].algorithm
  {
    algorithms := [];
    var i := 0;
    while i < |BuiltinProfiles|
      invariant i <= |BuiltinProfiles| && |algorithms| == i
      invariant forall j :: 0 <= j < i ==> algorithms[j] == BuiltinProfiles[j].algorithm
    {
      if IsAlgorithmSupported(BuiltinProfiles[i].algorithm) {
        algorithms := algorithms + [BuiltinProfiles[i].algorithm];
      }
      i := i + 1;
    }
  }

  /** The available algorithms are exactly the listed ones, without repetition. */
  lemma AvailableAreListed(algorithms: seq<Algorithm>, a: Algorithm)
    requires |algorithms| == |BuiltinProfiles|
    requires forall i :: 0 <= i < |algorithms| ==> algorithms[i] == BuiltinProfiles[i].algorithm
    ensures a in algorithms <==> !Unlisted(a)
    ensures forall i, j :: 0 <= i < j < |algorithms| ==> algorithms[i] != algorithms[j]
  {
    BuiltinTableShape(a);
    if a in algorithms {
      var i :| 0 <= i < |algorithms| && algorithms[i] == a;
      assert BuiltinProfiles[i].algorithm == a;
    }
    if Listed(a) {
      var i :| 0 <= i < |BuiltinProfiles| && BuiltinProfiles[i].algorithm == a;
      assert algorithms[i] == a;
    }
  }

  // ---------------------------------------------------------------------
  // findBestAlgorithm

  /** The rating compared first and the one that breaks ties. */
  function RankKey(p: Profile, speedFirst: bool): (key: (int, int))
  {
    if speedFirst then (p.speedRating, p.accuracyRating) else (p.accuracyRating, p.speedRating)
  }

  /** `p` beats `q` lexicographically on the chosen ratings. */
  predicate Outranks(p: Profile, q: Profile, speedFirst: bool)
  {
    var kp := RankKey(p, speedFirst);
    var kq := RankKey(q, speedFirst);
    kp.0 > kq.0 || (kp.0 == kq.0 && kp.1 > kq.1)
  }

  lemma OutranksTransitive(p: Profile, q: Profile, r: Profile, speedFirst: bool)
    requires Outranks(p, q, speedFirst) && Outranks(q, r, speedFirst)
    ensures Outranks(p, r, speedFirst)
  {
  }

  /** Neither outranking the other means equal ratings; so outranking is a strict total order on the keys. */
  lemma OutranksTotal(p: Profile, q: Profile, r: Profile, speedFirst: bool)
    requires Outranks(p, q, speedFirst) && !Outranks(r, q, speedFirst)
    ensures Outranks(p, r, speedFirst)
  {
  }

  /** Entry `k` is the first of the best: nothing outranks it and it outranks everything before it. */
  predicate FirstBest(profiles: seq<Profile>, speedFirst: bool, k: int)
  {
    0 <= k < |profiles|
    && (forall j :: 0 <= j < |profiles| ==> !Outranks(profiles[j], profiles[k], speedFirst))
    && (forall j :: 0 <= j < k ==> Outranks(profiles[k], profiles[j], speedFirst))
  }

  /** At most one entry is the first of the best. */
  lemma FirstBestUnique(profiles: seq<Profile>, speedFirst: bool, k1: int, k2: int)
    requires FirstBest(profiles, speedFirst, k1) && FirstBest(profiles, speedFirst, k2)
    ensures k1 == k2
  {
    assert !Outranks(profiles[k2], profiles[k1], speedFirst);
    assert !Outranks(profiles[k1], profiles[k2], speedFirst);
  }

  /**
   * `findBestAlgorithm`: the default profile for an empty list, otherwise
   * the first profile that no other one outranks.
   */
  method FindBestAlgorithm(profiles: seq<Profile>, speedFirst: bool) returns (best: Profile)
    ensures profiles == [] ==> best == DefaultProfile
    ensures profiles != [] ==> exists k :: FirstBest(profiles, speedFirst, k) && best == profiles[k]
  {
    if profiles == [] {
      return DefaultProfile;
    }
    best := profiles[0];
    ghost var k := 0;
    var i := 0;
    while i < |profiles|
      invariant 0 <= i <= |profiles| && 0 <= k < |profiles| && best == profiles[k]
      invariant k == 0 || k < i
      invariant forall j :: 0 <= j < i ==> !Outranks(profiles[j], best, speedFirst)
      invariant forall j :: 0 <= j < k ==> Outranks(best, profiles[j], speedFirst)
    {
      var profile := profiles[i];
      if Outranks(profile, best, speedFirst) {
        forall j | 0 <= j < i
          ensures Outranks(profile, profiles[j], speedFirst)
        {
          OutranksTotal(profile, best, profiles[j], speedFirst);
        }
        best := profile;
        k := i;
      }
      i := i + 1;
    }
    assert FirstBest(profiles, speedFirst, k);
  }

  /** On the built-in table, speed first picks YOLO v5 and accuracy first picks MTCNN. */
  lemma BuiltinFavourites()
    ensures FirstBest(BuiltinProfiles, true, 3) && BuiltinProfiles[3].algorithm == YoloV5
    ensures FirstBest(BuiltinProfiles, false, 7) && BuiltinProfiles[7].algorithm == Mtcnn
  {
    SpeedFavourite();
    AccuracyFavourite();
  }

  lemma SpeedFavourite()
    ensures FirstBest(BuiltinProfiles, true, 3)
  {
    var t := BuiltinProfiles;
    assert t[3].speedRating == 5 && t[3].accuracyRating == 4;
    forall j | 0 <= j < |t|
      ensures !Outranks(t[j], t[3], true)
    {
    }
    forall j | 0 <= j < 3
      ensures Outranks(t[3], t[j], true)
    {
    }
  }

  lemma AccuracyFavourite()
    ensures FirstBest(BuiltinProfiles, false, 7)
  {
    var t := BuiltinProfiles;
    assert t[7].accuracyRating == 5 && t[7].speedRating == 3;
    forall j | 0 <= j < |t|
      ensures !Outranks(t[j], t[7], false)
    {
    }
    forall j | 0 <= j < 7
      ensures Outranks(t[7], t[j], false)
    {
    }
  }
}
