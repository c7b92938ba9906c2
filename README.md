# Face-detection sensor stack: a verified model of its control logic

This project models, in Dafny, the integer, string and list logic of a small
embedded face-detection stack. It has two parts: a V4L2 camera driver for
Linux, and the C++ demo programs built on OpenCV. The model covers the
following parts:

- **The camera driver** (`camera_driver.dfy`): format negotiation (clamp,
  align, size the frame), buffer negotiation, the FIFO buffer list and the
  four-state lifecycle.
- **The configuration store** (`config_value.dfy`, `config_manager.dfy`):
  - the tagged `ConfigValue`;
  - section/key maps and dotted paths;
  - the INI line reader and value typer;
  - the serializer, with a proof that its output reads back;
  - validation and format detection.
- **Detection post-processing** (`detections.dfy`, `face_detector.dfy`,
  `face_detection_demo.dfy`):
  - IoU;
  - the size filter and top-K limit;
  - merging;
  - box validity;
  - colour cycling;
  - box expansion;
  - greedy overlap suppression.
- **The algorithm catalogue** shared by both copies of the advanced detector
  (`algorithms.dfy`): the name mapping and its round trip, the profile table
  and the best-profile search.
- **The example copy of the advanced detector**
  (`sensor_advanced_detector.dfy`): its model-status map, profiling counters,
  recommendation and Haar-fallback detection.
- **The `src/` copy of the advanced detector** (`advanced_detector.dfy`):
  - its size-aware recommendation;
  - model files classified by extension;
  - the short cuts in `initializeAlgorithm`;
  - `detectFaces` dispatch, with per-family error messages and box filters.
- **Camera capture** (`camera_capture.dfy`): property validation and
  clamping, the nearest-resolution search, and the start/stop/capture flags
  and counters.
- **The performance monitor** (`performance_monitor.dfy`): the bounded
  history, windowed max/min/average, and warning expiry and raising.
- **The demo's command line** (`cli.dfy`): option parsing, validation, the
  configuration-file scan and the start-up sequence.

Shared helpers live in `base.dfy`: Option, ASCII lower-casing, character
search, trimming, line splitting, `std::stoi` and integer printing.

How the source's types are modelled:

- Doubles are exact reals.
- `int` results that the source can overflow are wrapped explicitly where it
  matters (the average face count).
- Clock readings are integer nanoseconds.
- Everything the code gets from outside is a parameter of the operation that
  uses it:
  - OpenCV results (cascade detections, network candidates, network loading);
  - file contents and file existence;
  - `std::stod`;
  - the videobuf2 "busy" flag.

The example copy and the `src/` copy of `advanced_face_detector.cpp` share
`algorithmToString`, `stringToAlgorithm`, the builtin profiles and
`findBestAlgorithm` line for line. The `src/` lines are
src/advanced_face_detector.cpp:410-453 and 1035-1060. These are modelled once
in `Algorithms` and cited below at the example copy.

## Model

| member | source | states |
|---|---|---|
| CameraDriver.TryFmt | sensor/drivers/camera_driver/camera_driver.c:189-221 | the result is a negotiated format: pixel format MJPEG or YUYV (anything else becomes MJPEG), width clamped to [160,1280] then aligned up to 16, height clamped to [120,720] then aligned up to 2, field/colorspace forced, and sizeimage at most 1280·720·2 |
| CameraDriver.AlignUpBounds | sensor/drivers/camera_driver/camera_driver.c:201-206 | ALIGN rounds up to a multiple of the alignment by less than one step and leaves multiples unchanged |
| CameraDriver.SizeBound | sensor/drivers/camera_driver/camera_driver.h:23 | every frame size try_fmt computes fits in CAMERA_MAX_FRAME_SIZE |
| CameraDriver.TryFmtKeepsNegotiated | sensor/drivers/camera_driver/camera_driver.c:189-221 | a format try_fmt could have produced is returned unchanged |
| CameraDriver.TryFmtIdempotent | sensor/drivers/camera_driver/camera_driver.c:189-221 | applying try_fmt twice is the same as once |
| CameraDriver.EnumFmt | sensor/drivers/camera_driver/camera_driver.c:150-158 | an index past the format table gives -EINVAL; otherwise the descriptor carries the requested index |
| CameraDriver.EnumFmtMatchesTryFmt | sensor/drivers/camera_driver/camera_driver.c:79-95 | a pixel format is enumerated exactly when try_fmt keeps it |
| CameraDriver.QueueSetup | sensor/drivers/camera_driver/camera_driver.c:228-252 | with planes pre-set, -EINVAL iff sizes[0] < sizeimage and nothing else changes; otherwise one plane of sizeimage bytes and the buffer count clamped into [2,4] |
| CameraDriver.BufPrepare | sensor/drivers/camera_driver/camera_driver.c:255-268 | -EINVAL iff the plane is smaller than sizeimage; otherwise the payload is exactly sizeimage |
| CameraDriver.QueueSetupAgreesWithBufPrepare | sensor/drivers/camera_driver/camera_driver.c:228-268 | a plane size queue_setup accepts is accepted by buf_prepare |
| CameraDriver.DefaultFormatHasNoImageSize | sensor/drivers/camera_driver/camera_driver.c:403-408 | the probe-time default format has sizeimage 0 (the device is zero-allocated), so queue_setup asks for 0-byte planes until the first s_fmt |
| CameraDriver.CompletedInOrder | sensor/drivers/camera_driver/camera_driver.c:436-448 | returning all buffers completes each listed buffer exactly once, in list order, with the given state |
| CameraDriver.Device.Probe | sensor/drivers/camera_driver/camera_driver.c:455-512 | probe leaves the device CONNECTED with the default format, no buffers and zero counters |
| CameraDriver.Device.SetFormat | sensor/drivers/camera_driver/camera_driver.c:171-186 | s_fmt returns -EBUSY and leaves the format when the queue is busy; otherwise the stored format is the try_fmt-adjusted request |
| CameraDriver.HoldableFitsMaxFrame | sensor/drivers/camera_driver/camera_driver.c:189-221 | a format the device can hold needs at most CAMERA_MAX_FRAME_SIZE bytes |
| CameraDriver.Device.QueueSetupOn | sensor/drivers/camera_driver/camera_driver.c:228-252 | queue_setup on a device's format asks for a plane of at most CAMERA_MAX_FRAME_SIZE bytes, and a size it accepts passes buf_prepare |
| CameraDriver.Device.BufQueue | sensor/drivers/camera_driver/camera_driver.c:271-281 | the buffer is appended at the tail of the list |
| CameraDriver.Device.ReturnAllBuffers | sensor/drivers/camera_driver/camera_driver.c:436-448 | the list ends empty and its buffers are logged as completed, in order |
| CameraDriver.Device.StartStreaming | sensor/drivers/camera_driver/camera_driver.c:284-303 | a failed start returns its error with the state unchanged; a successful one sets STREAMING and zeroes both frame counters |
| CameraDriver.Device.StopStreaming | sensor/drivers/camera_driver/camera_driver.c:306-319 | stop flushes the buffers as ERROR and returns to CONNECTED |
| CameraDriver.Device.Disconnect | sensor/drivers/camera_driver/camera_driver.c:515-540 | disconnect sets DISCONNECTED and changes nothing else |
| ConfigValues.DefaultIsIntegerZero | sensor/example/include/config_manager.h:34 | a default ConfigValue is INTEGER 0 and is not valid |
| ConfigValues.ConstructorsAndAccessors | sensor/example/include/config_manager.h:35-47 | each constructor sets its tag and its accessor returns the argument; the other accessors return their field defaults |
| ConfigValues.ValidityOfConstructed | sensor/example/include/config_manager.h:49 | isValid is false exactly for the integer 0; false, "" and [] are valid |
| ConfigManager.TypedGetters | sensor/example/src/config_manager.cpp:56-80 | a missing key reads the default; a stored int 0 reads the default through getInt; getDouble on a stored int reads 0.0 |
| ConfigManager.ParsePath | sensor/example/src/config_manager.cpp:394-401 | a path without '.' is ("default", path); otherwise the split is at the first '.' |
| ConfigManager.PutThenLookup | sensor/example/src/config_manager.cpp:155-168 | setValue then getValue returns the value, creates the section if absent, and leaves every other (section, key) unchanged |
| ConfigManager.MissingPathReadsDefault | sensor/example/src/config_manager.cpp:160-189 | reading a missing path gives a default ConfigValue and getInt's default |
| ConfigManager.ParseValueReadsPrefix | sensor/example/src/config_manager.cpp:446-462 | "true"/"false" are bools; a value without '.' is the int stoi reads from its digit prefix when that fits, else the string |
| ConfigManager.ProcessLinesConcat | sensor/example/src/config_manager.cpp:417-465 | reading lines a then b is reading a, then b from where a left off |
| ConfigManager.ProcessLinesKeepsKeys | sensor/example/src/config_manager.cpp:417-465 | reading never removes a section or a key |
| ConfigManager.RepeatedKeyOverwrites | sensor/example/src/config_manager.cpp:446-462 | a repeated key keeps only the later value |
| ConfigManager.SkippedLines | sensor/example/src/config_manager.cpp:419-437 | any line of blanks, any comment ('#' or ';' after any indentation) and any non-header line without '=' changes nothing; "[name]" switches the section and keeps the store |
| ConfigManager.KeyLineRead | sensor/example/src/config_manager.cpp:438-462 | a "key = value" line stores the typed value under the trimmed key in the current section |
| ConfigManager.RenderedValueRoundTrips | sensor/example/src/config_manager.cpp:362-384 | a rendered int, bool or plain string types back to itself |
| ConfigManager.IniRoundTrip | sensor/example/src/config_manager.cpp:352-392 | reading back the text toString writes reproduces every non-empty section of a store whose keys and values survive the INI rules |
| ConfigManager.SortedNamesRead | sensor/example/src/config_manager.cpp:355-389 | rendering sections in ascending name order and reading them back gives the non-empty sections |
| ConfigManager.SectionRead | sensor/example/src/config_manager.cpp:356-388 | one rendered section reads back as that section |
| ConfigManager.ReportEmptyIffInRange | sensor/example/src/config_manager.cpp:289-312 | no validation error iff width, height and fps are positive and the scale is in (1.0, 2.0]; at most four errors |
| ConfigManager.CameraChecksFirst | sensor/example/src/config_manager.cpp:293-303 | the width, height and FPS errors come first, in that order |
| ConfigManager.MissingCameraReported | sensor/example/src/config_manager.cpp:289-303 | a store without a camera section reports width, height and FPS |
| ConfigManager.ScaleFactorCheck | sensor/example/src/config_manager.cpp:305-309 | a missing scale factor passes (it defaults to 1.1); a stored int scale fails unless it is 0, which reads as the default |
| ConfigManager.DetectFormatByLastExtension | sensor/example/src/config_manager.cpp:509-527 | the format is decided by the lower-cased text after the last '.'; no '.' is UNKNOWN |
| ConfigManager.DetectFormatIgnoresCase | sensor/example/src/config_manager.cpp:515-516 | detectFormat does not depend on letter case |
| ConfigManager.Manager.SetValue | sensor/example/src/config_manager.cpp:155-158 | the store becomes the old store with the path set |
| ConfigManager.Manager.Clear | sensor/example/src/config_manager.cpp:344-346 | the store becomes empty |
| ConfigManager.Manager.LoadFromIni | sensor/example/src/config_manager.cpp:407-467 | an unopenable file fails with "Cannot open file: " and changes nothing; otherwise the store is the old one with the lines read in from section "default" |
| ConfigManager.Manager.ToString | sensor/example/src/config_manager.cpp:352-392 | the text is the rendering of every section in map order, which IniRoundTrip reads back |
| ConfigManager.Manager.RenderSection | sensor/example/src/config_manager.cpp:356-388 | one section's text: header, "key = value" lines in key order, blank line |
| Detections.IoU | sensor/example/src/face_detector.cpp:494-508 | IoU is in [0,1] and is 0 exactly when the overlap has no positive width or height |
| Detections.Intersection | sensor/example/src/face_detector.cpp:495-505 | the overlap area is non-negative and, when the boxes overlap, positive and at most either box's area |
| Detections.IoUSymmetric | sensor/example/src/face_detection_demo.cpp:754-768 | IoU does not depend on argument order |
| Detections.IoUOfItself | sensor/example/src/face_detection_demo.cpp:754-768 | a non-empty box has IoU 1 with itself |
| Detections.SortByConfidence | sensor/example/src/face_detection_demo.cpp:776-779 | the array ends sorted by non-increasing confidence and is a permutation of the input |
| Detections.FilterMembers | sensor/example/src/face_detector.cpp:344-350 | an order-keeping filter keeps exactly the elements that pass |
| Detections.FilterIsSubsequence | sensor/example/src/face_detector.cpp:344-350 | an order-keeping filter returns a subsequence of its input |
| FaceDetector.ValidateConfig | sensor/example/src/face_detector.cpp:425-451 | the config is accepted iff scale is in (1,2], neighbors in [1,10], min size in [10,500], max size in [min size,1000], and both thresholds in [0,1] |
| FaceDetector.DefaultConfigIsValid | sensor/example/include/face_detector.h:36-74 | the default configuration passes validation |
| FaceDetector.FilterBySize | sensor/example/src/face_detector.cpp:344-350 | the array's prefix is exactly the faces whose smaller side is within [min size, max size], in order |
| FaceDetector.SizeFilterKeeps | sensor/example/src/face_detector.cpp:344-350 | a face survives the size filter iff its smaller side is in range; survivors keep their order |
| FaceDetector.LimitedCount | sensor/example/src/face_detector.cpp:352-362 | the kept count is the whole list or max_faces, never more than either |
| FaceDetector.LimitMaxDetections | sensor/example/src/face_detector.cpp:352-362 | a short enough list is untouched; otherwise the array is sorted, a permutation of the input, and no dropped face outranks a kept one |
| FaceDetector.MergeDetections | sensor/example/src/face_detector.cpp:510-531 | the result is detections1 followed by the detections2 faces whose IoU with every detections1 face is at most the threshold |
| FaceDetector.MergeAdds | sensor/example/src/face_detector.cpp:510-531 | a detections2 face is added iff it overlaps no detections1 face beyond the threshold; added faces keep their order |
| FaceDetector.ValidBoxInsideImage | sensor/example/src/face_detector.cpp:573-578 | a valid bounding box lies wholly inside the image frame |
| FaceDetector.DetectionColorCycles | sensor/example/src/face_detector.cpp:533-544 | colours repeat with period 6 and the six are distinct |
| FaceDetector.Detector.Initialize | sensor/example/src/face_detector.cpp:30-60 | the config is stored even when invalid; an invalid config fails with "Invalid configuration" and a failed model load with its message, without setting initialized |
| FaceDetector.Detector.DetectFaces | sensor/example/src/face_detector.cpp:76-121 | fails with "Detector not initialized" or "Invalid input image"; otherwise the faces are the engine's faces after the size filter and the limit, and the statistics count one more frame and its faces; an engine whose model is not loaded sets "Haar cascade not loaded" or "DNN model not loaded", yields no faces, and the call still succeeds |
| FaceDetector.PostProcess | sensor/example/src/face_detector.cpp:107-108 | the size filter then the limit: the result is at most max_faces of the right-sized faces, sorted when cut, drawn from them, and no dropped face has a higher confidence than a kept one |
| FaceDetectionUtils.ExpandRect | sensor/example/src/face_detection_demo.cpp:727-750 | a factor at most 1 returns the box unchanged; otherwise the result starts inside the image and does not extend past it |
| FaceDetectionUtils.ExpandCoversOriginal | sensor/example/src/face_detection_demo.cpp:727-750 | a box inside the image is covered by its expansion |
| FaceDetectionUtils.Trunc | sensor/example/src/face_detection_demo.cpp:732-733 | the int cast truncates toward zero |
| FaceDetectionUtils.PalettesSwapLastTwo | sensor/example/src/face_detection_demo.cpp:612-623 | the demo palette has period 6 and is the detector's palette with the last two colours swapped |
| FaceDetectionUtils.FirstSurvives | sensor/example/src/face_detection_demo.cpp:781-794 | the highest-confidence detection always survives |
| FaceDetectionUtils.SuppressionIsGreedy | sensor/example/src/face_detection_demo.cpp:781-794 | no two survivors overlap beyond the threshold, and every removed detection overlaps an earlier survivor beyond it |
| FaceDetectionUtils.SurvivorsAreSubsequence | sensor/example/src/face_detection_demo.cpp:797-803 | the survivors are a subsequence of the sorted list |
| FaceDetectionUtils.SurvivorsSorted | sensor/example/src/face_detection_demo.cpp:776-803 | the survivors stay ordered by non-increasing confidence |
| FaceDetectionUtils.MarkSurvivors | sensor/example/src/face_detection_demo.cpp:781-794 | the keep flags computed by the nested loops are exactly the greedy survivor predicate |
| FaceDetectionUtils.EraseDropped | sensor/example/src/face_detection_demo.cpp:797-804 | the remove_if compaction leaves exactly the survivors, in order |
| FaceDetectionUtils.FilterOverlapping | sensor/example/src/face_detection_demo.cpp:771-806 | lists of size at most 1 are untouched; otherwise the result is the greedy survivors of a confidence-sorted permutation of the input |
| Algorithms.AlgorithmToString | sensor/example/src/advanced_face_detector.cpp:312-330 | every algorithm has a non-empty name other than "Unknown" |
| Algorithms.NameRoundTrip | sensor/example/src/advanced_face_detector.cpp:312-355 | stringToAlgorithm(algorithmToString(a)) is a, except for DNN_CAFFE, DNN_TENSORFLOW, DNN_ONNX and SCRFD, which come back as HAAR_CASCADE |
| Algorithms.ParseIgnoresCase | sensor/example/src/advanced_face_detector.cpp:333-334 | stringToAlgorithm does not depend on letter case |
| Algorithms.ParseFallback | sensor/example/src/advanced_face_detector.cpp:353-354 | a name with no known keyword maps to HAAR_CASCADE |
| Algorithms.BuiltinTableShape | sensor/example/src/advanced_face_detector.cpp:20-50 | the table lists each algorithm at most once, and exactly the ten that are not DNN_* or SCRFD |
| Algorithms.GetAlgorithmProfile | sensor/example/src/advanced_face_detector.cpp:213-221 | a listed algorithm gets its table entry; any other gets the default profile |
| Algorithms.GetAvailableAlgorithms | sensor/example/src/advanced_face_detector.cpp:201-211 | all table algorithms, in table order |
| Algorithms.AvailableAreListed | sensor/example/src/advanced_face_detector.cpp:201-211 | an algorithm is available iff it is not DNN_* or SCRFD, and none repeats |
| Algorithms.FindBestAlgorithm | sensor/example/src/advanced_face_detector.cpp:565-590 | empty input gives the default profile; otherwise the first profile maximal under (speed, accuracy), or (accuracy, speed) when not prioritising speed |
| Algorithms.FirstBestUnique | sensor/example/src/advanced_face_detector.cpp:565-590 | that first maximal profile is unique |
| Algorithms.BuiltinFavourites | sensor/example/src/advanced_face_detector.cpp:20-50 | over the builtin table, speed first picks YOLO v5 and accuracy first picks MTCNN |
| SensorAdvancedDetector.RecommendationMatchesProfiles | sensor/example/src/advanced_face_detector.cpp:278-291 | the recommendation ignores the image size and picks a top-speed profile for real-time and a top-accuracy one for high accuracy |
| SensorAdvancedDetector.RecordTiming | sensor/example/src/advanced_face_detector.cpp:433-438 | "<op>_time" becomes the time, "<op>_count" grows by 1 from 0 if absent, other entries unchanged |
| SensorAdvancedDetector.CountsCalls | sensor/example/src/advanced_face_detector.cpp:433-438 | after n recorded calls the count is n and the time is the last one |
| SensorAdvancedDetector.Detector.Initialize | sensor/example/src/advanced_face_detector.cpp:87-98 | the algorithm becomes current and initialization always succeeds |
| SensorAdvancedDetector.Detector.SetAlgorithm | sensor/example/src/advanced_face_detector.cpp:116-120 | re-initializes only when the algorithm changes |
| SensorAdvancedDetector.Detector.LoadModel | sensor/example/src/advanced_face_detector.cpp:227-239 | marks the algorithm loaded and no other |
| SensorAdvancedDetector.Detector.UnloadModel | sensor/example/src/advanced_face_detector.cpp:246-249 | the algorithm reports not loaded, others unchanged |
| SensorAdvancedDetector.Detector.UnloadAllModels | sensor/example/src/advanced_face_detector.cpp:251-254 | no algorithm reports loaded |
| SensorAdvancedDetector.Detector.EnableProfiling | sensor/example/src/advanced_face_detector.cpp:256-261 | disabling clears the results |
| SensorAdvancedDetector.Detector.ResetProfilingResults | sensor/example/src/advanced_face_detector.cpp:267-269 | the results become empty |
| SensorAdvancedDetector.Detector.UpdateProfilingResults | sensor/example/src/advanced_face_detector.cpp:433-438 | records the timing only while profiling is enabled |
| SensorAdvancedDetector.Detector.DetectFaces | sensor/example/src/advanced_face_detector.cpp:126-180 | the two guards fail with their messages; otherwise each cascade face becomes a detection with confidence 1, the current algorithm and the duration, and "detection" is profiled |
| AdvancedDetector.RecommendCopiesAgree | src/advanced_face_detector.cpp:374-389 | real-time without high accuracy gives LFFD below 640·480 pixels and YOLO v5 otherwise; elsewhere it agrees with the example copy |
| AdvancedDetector.UnsupportedAlgorithms | src/advanced_face_detector.cpp:141-169 | detectFaces has no detector exactly for HAAR_CASCADE, DNN_* and SCRFD |
| AdvancedDetector.MtcnnTestAgainstCommonTest | src/advanced_face_detector.cpp:727-731 | with a positive minimum size the MTCNN test is the common box test plus both sides at least the minimum |
| AdvancedDetector.KeepCandidates | src/advanced_face_detector.cpp:596-599 | the kept candidates are exactly those the family's confidence and box tests accept, in order |
| AdvancedDetector.KeptCandidates | src/advanced_face_detector.cpp:658-661 | a candidate is kept iff its confidence beats the threshold and its box passes the family's test; order is kept |
| AdvancedDetector.ModelVerdictByLastExtension | src/advanced_face_detector.cpp:240-268 | loadModel classifies by the lower-cased suffix from the last '.'; a path with no '.' is the substr error |
| AdvancedDetector.ModelVerdictIgnoresCase | src/advanced_face_detector.cpp:240-241 | the classification does not depend on letter case |
| AdvancedDetector.DefaultDarknetModelsNeedConfig | src/advanced_face_detector.cpp:52-63 | the default YOLO v3/v4 model paths are .weights files, which need a config file |
| AdvancedDetector.DefaultOnnxModelIsReadable | src/advanced_face_detector.cpp:52-63 | the default YOLO v5 model path is an ONNX file, read without a config |
| AdvancedDetector.Detector.LoadModel | src/advanced_face_detector.cpp:232-296 | success iff the path is readable (an .onnx or .pb file, or a .weights or .caffemodel file given with a config path) and the network loads, which marks it loaded; each failure leaves the maps alone with its own message |
| AdvancedDetector.Detector.ModelPath | src/advanced_face_detector.cpp:462 | the path is the model directory followed by the configured file name, or the directory alone when there is none |
| AdvancedDetector.Detector.InitializeAlgorithm | src/advanced_face_detector.cpp:456-475 | an already-loaded model or HAAR_CASCADE succeeds leaving the model maps and the error alone; looking the path up adds an empty entry for an algorithm without one; a missing file fails with "Model file not found: " and the path; otherwise loadModel decides, and success marks the algorithm loaded while a failure leaves loadModel's message |
| AdvancedDetector.Detector.Initialize | src/advanced_face_detector.cpp:87-98 | the algorithm becomes current even when initialization fails, which reports "Failed to initialize algorithm: " and the name; success sets initialized, keeps the error, and marks the algorithm loaded when its model had to be read; the model paths gain the looked-up entry |
| AdvancedDetector.Detector.SetAlgorithm | src/advanced_face_detector.cpp:116-120 | re-initializes only when the algorithm changes, and then leaves the state initialize leaves: initialized, error, loaded models and model paths |
| AdvancedDetector.Detector.LoadIfPresent | src/advanced_face_detector.cpp:470-477 | a missing file fails with "Model file not found: " and the path; a present one is loadModel's verdict and message |
| AdvancedDetector.Detector.CheckModelPath | src/advanced_face_detector.cpp:240-262 | no message iff the path is readable; otherwise the message of its verdict |
| AdvancedDetector.Detector.UnloadModel | src/advanced_face_detector.cpp:303-306 | the algorithm reports not loaded, others unchanged |
| AdvancedDetector.Detector.UnloadAllModels | src/advanced_face_detector.cpp:308-311 | both maps become empty |
| AdvancedDetector.Detector.DetectFaces | src/advanced_face_detector.cpp:126-185 | the guards fail in order with "Detector not initialized", "Input image is empty", "Unsupported algorithm" and "<family> model not loaded"; otherwise the accepted candidates, in order, stamped with the algorithm and duration |
| CameraCapture.ClampAgreesWithValidation | sensor/example/src/camera_capture.cpp:416-447 | the clamp always yields a value validateProperty accepts, keeps every accepted value and changes every rejected one |
| CameraCapture.FindBestResolution | sensor/example/src/camera_capture.cpp:474-491 | empty input gives the desired size; otherwise the first size minimising the width-plus-height distance |
| CameraCapture.FirstClosestUnique | sensor/example/src/camera_capture.cpp:474-491 | that first closest size is unique |
| CameraCapture.ExactMatchIsClosest | sensor/example/src/camera_capture.cpp:474-491 | a desired size that is available is returned |
| CameraCapture.CommonSettingsAreValid | sensor/example/src/camera_capture.cpp:516-523 | the common resolutions and frame rates are valid; 4097 wide, 0 fps and 120.5 fps are not |
| CameraCapture.Camera.Initialize | sensor/example/src/camera_capture.cpp:24-27 | succeeds iff the device opens and takes the resolution; a failure keeps its message |
| CameraCapture.Camera.Start | sensor/example/src/camera_capture.cpp:47-63 | fails with "Camera not initialized" when uninitialized; returns true unchanged when running; otherwise runs from frame 0 |
| CameraCapture.Camera.Stop | sensor/example/src/camera_capture.cpp:65-68 | always succeeds and clears running |
| CameraCapture.Camera.CaptureFrame | sensor/example/src/camera_capture.cpp:70-104 | fails when not running or not opened; a failed or empty read counts a dropped frame only; a good read is numbered with the old counter, and both counters grow |
| CameraCapture.Camera.SetProperty | sensor/example/src/camera_capture.cpp:123-136 | fails when closed or the value is invalid; otherwise the value is sent unchanged |
| CameraCapture.Camera.ResetStatistics | sensor/example/src/camera_capture.cpp:283-288 | zeroes the captured and dropped counts |
| CameraCapture.Camera.Cleanup | sensor/example/src/camera_capture.cpp:39-45 | stops, closes and uninitializes |
| PerformanceMonitor.HistoryKeepsLastAdds | sensor/example/src/performance_monitor.cpp:397-406 | from empty, the history is the last history_size additions in order |
| PerformanceMonitor.Window | sensor/example/src/performance_monitor.cpp:83-93 | empty for count ≤ 0 or empty history; otherwise the last min(count, size) entries |
| PerformanceMonitor.WindowOfAdds | sensor/example/src/performance_monitor.cpp:83-93 | a window of the bounded history is the matching suffix of the additions |
| PerformanceMonitor.ExtremeOfWindow | sensor/example/src/performance_monitor.cpp:122-156 | the default for an empty window; otherwise each aggregated field is the window max (min) and the others come from the oldest sample |
| PerformanceMonitor.AverageFaces | sensor/example/src/performance_monitor.cpp:111-117 | the average face count is an int32 |
| PerformanceMonitor.AverageFacesIsFloorMean | sensor/example/src/performance_monitor.cpp:111-117 | for a non-negative sum that fits, the average face count is the floor of sum/count |
| PerformanceMonitor.AverageOfWindow | sensor/example/src/performance_monitor.cpp:95-120 | the default for an empty window; otherwise each averaged field is the window mean |
| PerformanceMonitor.AverageBetweenExtremes | sensor/example/src/performance_monitor.cpp:95-156 | each averaged field lies between the window min and max |
| PerformanceMonitor.NewWarningsExactly | sensor/example/src/performance_monitor.cpp:341-367 | a CPU, memory or temperature warning is raised iff that check is enabled and the value strictly exceeds the threshold |
| PerformanceMonitor.ClearedWarnings | sensor/example/src/performance_monitor.cpp:383-395 | exactly the warnings not older than 300 seconds remain, in order |
| PerformanceMonitor.Monitor.AddToHistory | sensor/example/src/performance_monitor.cpp:397-406 | appends and drops the oldest entry when over history_size |
| PerformanceMonitor.Monitor.GetHistory | sensor/example/src/performance_monitor.cpp:83-93 | the window of the stored history |
| PerformanceMonitor.Monitor.GetMaxMetrics | sensor/example/src/performance_monitor.cpp:122-138 | the window's extreme metrics, max side |
| PerformanceMonitor.Monitor.GetMinMetrics | sensor/example/src/performance_monitor.cpp:140-156 | the window's extreme metrics, min side |
| PerformanceMonitor.Monitor.GetAverageMetrics | sensor/example/src/performance_monitor.cpp:95-120 | the window's averages |
| PerformanceMonitor.Monitor.ClearOldWarnings | sensor/example/src/performance_monitor.cpp:383-395 | the warnings become the unexpired ones, in order |
| PerformanceMonitor.Monitor.CheckThresholds | sensor/example/src/performance_monitor.cpp:341-367 | expired warnings go first, then one warning per enabled metric over its threshold, CPU then memory then temperature |
| Cli.FirstProblem | sensor/example/src/main.cpp:175-207 | no problem iff width and height are positive, fps in (0,120], scale in (1,2], neighbors in [1,10], min size in [10,500] and max size in [min size,1000] |
| Cli.DefaultDemoConfigIsValid | sensor/example/include/face_detection_demo.h:32-65 | the built-in defaults pass validation |
| Cli.ParseFrom | sensor/example/src/main.cpp:74-148 | parsing exits only with 0 or 1, and with 0 only when "-h", "--help" or "--list-cameras" is among the arguments |
| Cli.ParseArguments | sensor/example/src/main.cpp:71-151 | the loop computes the parse from argument 1 over the defaults |
| Cli.ParsePrefix | sensor/example/src/main.cpp:74-148 | once a prefix parses, the rest is parsed from the configuration it built |
| Cli.HelpExitsZero | sensor/example/src/main.cpp:77-80 | "-h" or "--help" after arguments that parse exits with 0 |
| Cli.UnknownExitsOne | sensor/example/src/main.cpp:143-147 | an unknown argument after arguments that parse exits with 1 |
| Cli.ValueOptionLastExitsOne | sensor/example/src/main.cpp:99-147 | an option that needs a value, given last, falls through to the unknown branch and exits with 1 |
| Cli.BadNumberThrows | sensor/example/src/main.cpp:99-124 | a numeric option with a value stoi rejects throws |
| Cli.LaterWidthOverrides | sensor/example/src/main.cpp:105-107 | the last "--width" wins |
| Cli.UnmentionedFieldKept | sensor/example/src/main.cpp:71-151 | a field no argument sets keeps the value parsing started from |
| Cli.HeightOnlyByLongOption | sensor/example/src/main.cpp:108-110 | the height leaves its default only through "--height" |
| Cli.ParsedWhateverTheStart | sensor/example/src/main.cpp:71-151 | whether parsing succeeds does not depend on the starting configuration |
| Cli.ConfigIndex | sensor/example/src/main.cpp:155-170 | the first "--config" at positions 1..argc-2, or none |
| Cli.LoadConfigFile | sensor/example/src/main.cpp:154-172 | no "--config" succeeds unchanged; otherwise the named file's configuration replaces the given one, and a file that fails to load fails |
| Cli.Checked | sensor/example/src/main.cpp:268-271 | the program runs iff the configuration validates |
| Cli.StartupAsWritten | sensor/example/src/main.cpp:236-271 | the program runs only with a validated configuration, and otherwise returns 0 or 1 |
| Cli.Startup | sensor/example/src/main.cpp:264-266 | with the overrides applied, the program still runs only with a validated configuration, and otherwise returns 0 or 1 |
| Cli.CommandLineIgnoredWithConfigFile | sensor/example/src/main.cpp:236-271 | as written, "--width 800 --config f" runs with the file's width |
| Cli.CommandLineOverridesFile | sensor/example/src/main.cpp:264-266 | with the overrides applied, a trailing "--width n" gives width n, and every field no option sets has the file's value |
| Cli.FieldFromFileOrCommandLine | sensor/example/src/main.cpp:236-266 | with the overrides applied, every field of the configuration run with either was left at its default by the options and has the file's value, or has the value the options gave it |
| Cli.FieldFromStartOrArguments | sensor/example/src/main.cpp:71-151 | parsing the same arguments from two starts, a field either keeps each start's value or ends equal in both results |

## Left out

- USB/URB streaming, frame reassembly and all kernel plumbing (device
  registration, allocation failures, locks, videobuf2 internals): the
  streaming hooks in camera_driver.c are placeholders, and videobuf2 appears
  only as the busy flag and the completion log.
- CameraDriver.Device.StartStreaming: the result of the placeholder
  `camera_init_streaming` is a parameter.
- Threads and their queues: the demo's capture/process loops, the monitor's
  loop and face_recognition_app.cpp.
- OpenCV itself: Haar and DNN inference, `NMSBoxes`, blob building,
  preprocessing, drawing, and VideoCapture open/read/set. Their outcomes are
  parameters: candidate detections, read outcomes and a device-accepted flag.
- YOLO's own post-processing in src/advanced_face_detector.cpp:480-558:
  decoding the output tensor, NMS and scaling to image coordinates. Only its
  "model not loaded" guard and its filter-free path are modelled.
- Coordinate scaling in the other detectWith* functions. The candidates are
  taken as already scaled.
- The exception handlers of the detectWith* functions ("<family> detection
  error"): these only catch OpenCV failures, and OpenCV is outside the model.
- FaceDetector.Detector.DetectFaces: the optional NMS step is a parameter
  (the engine output after suppression), and the timing statistics are not
  kept.
- The profiling counters of the `src/` copy of the advanced detector: they
  are the example copy's code line for line and are modelled once, in
  SensorAdvancedDetector.
- `setConfig` in both advanced detectors and in the face detector: it stores
  a whole configuration, and only its algorithm field reaches the modelled
  logic, through SetAlgorithm.
- PerformanceMonitor.AverageFaces: the int32 sum of face counts in
  getAverageMetrics is taken without overflow. Only the final division and
  the narrowing to int are modelled.
- Timestamps, FPS and frame-time calculations, trends, standard deviation
  and formatting: floating-point reporting with no control decisions.
- File and OS I/O:
  - INI file open and write (the per-line logic is modelled);
  - JSON/XML loading;
  - model-file existence checks;
  - /proc and sysinfo reads;
  - `--list-cameras` enumeration.

  Each appears as a parameter where the modelled logic reads it.
- `loadConfigFromFile`, as called by main.cpp: a parameter `load`.
- `std::stod`: a parameter `stod`. Its prefix-parsing rules are not modelled.
- ConfigManager.RenderValue: printing a double with `operator<<` is the
  parameter `formatDouble`, and so is the double formatting of
  ConfigManager.Manager.ToString.
- CameraCapture.Camera.Initialize: opening the device and setting the
  resolution are inputs. Setting FPS, buffer size and optional properties is
  not modelled, because their failures are ignored.
- `findBestFPS`: its unqualified `abs` on a double makes the result depend
  on the overload picked.
- The unstable `std::sort`: the model sorts by insertion. Contracts state
  only what any sort gives (sorted, and a permutation).
- Header-only APIs with no implementation: camera_api.h, face_engine.h, and
  the Wi-Fi and Bluetooth drivers.
- UI and test programs: advanced_demo.cpp, simple_demo.cpp, camera_test.cpp,
  simple_advanced_test.cpp and sensor/tests/camera_test.c.

## Findings

| source | as written | input that shows it | evidently intended | confidence | as-written member | corrected member |
|---|---|---|---|---|---|---|
| sensor/example/src/main.cpp:236-271 | the options are parsed, then a configuration file (named with "--config", or the default file when it loads) replaces the parsed configuration wholesale; the second parse, meant to apply the command-line overrides, is discarded | `demo --width 800 --config f.json` where f.json loads the defaults: the program runs at width 640 | command-line options override the file's values (the comment at line 264 and the TODO at line 266) | high; not executed | Cli.StartupAsWritten (shown by Cli.CommandLineIgnoredWithConfigFile) | Cli.Startup (proved by Cli.CommandLineOverridesFile) |

The two copies of `recommendAlgorithm` differ (only the `src/` copy looks at
the image size), and each copy is modelled as written.
