# Human face detection: a Dafny model

The repository puts YOLO face detectors (YOLOv12 and YOLOv8 weights run
through the `ultralytics` package) behind three front ends:

- a Flask web application with image and video upload routes, a model
  catalogue and a per-process detector cache;
- a tkinter webcam window that runs detection on every `skip_frames`-th
  frame and reuses the last detections in between;
- console menus that pick a weights file and process a video or an image.

This project models the deterministic logic around the neural network:

- how raw boxes become detection records;
- how wide images are shrunk for inference and their boxes scaled back;
- the webcam frame-skip schedule;
- the upload and model allowlists, the path checks and the cache of the web
  application;
- the menu retry loop, the skip rule for heavy models and the startup scans
  for weights files.

Modules, one file each:

- `Wrappers`: `Option` and `Result`.
- `Text`: Python string operations used by the program (`lower`, `rsplit`
  on one separator, `strip`, `in` on strings, `startswith`), and `JoinPath`,
  which is `str(Path(dir) / name)`.
- `Sequences`: the order-keeping sublist predicate.
- `Detection`: the detector classes `YOLOv12FaceDetector` and
  `YOLOv8FaceDetector`. Their detection code is identical, so both are
  modelled by one `FaceDetector`.
- `Webcam`: `update_frame` of both webcam windows.
- `WebApp`: `src/web_app.py`.
- `V12Menu`: the menu and startup check of `src/face_detection_yolov12.py`.
- `V8Main`: `detect_from_video` and the startup check of
  `src/face_detection_yolov8.py`.

The foreign operations are arrow-typed fields of two records, so their
results are arbitrary but fixed functions of their inputs:

- `Detection.Engine`:
  - `infer`: YOLO inference, returning per-result boxes or raising;
  - `resize`: `cv2.resize`;
  - `unscale`: `int(v / scale)` on float coordinates.
- `WebApp.Host`:
  - `secure_filename`, `Path.resolve`, `Path.exists` and model loading;
  - `file.save`, `cv2.imdecode` and the video pipeline.

The console keyboard is a sequence of input lines. An OpenCV capture is the
sequence of its `read()` results. The one-second timer of the webcam window
is a boolean input per frame.

## Model

| member | source | states |
|---|---|---|
| Detection.MakeRecord | src/face_detection_yolov12.py:46-59 | A record keeps the four integer corners and the confidence. Its `w`, `h`, `cx`, `cy` satisfy `w = x2 - x1`, `h = y2 - y1`, and `cx`, `cy` are the floor of the corner midpoints (Python `//`). |
| Detection.ConvertiblePrefix | src/face_detection_yolov12.py:44-63 | Counts the boxes before the first box whose conversion raises. Every counted box converts, and the next box, if any, does not. |
| Detection.ConvertedIsPrefix | src/face_detection_yolov12.py:44-63 | The records are one per box, in box order, for exactly the boxes before the first failing conversion. The `except` keeps the list appended so far. |
| Detection.Converted | src/face_detection_yolov12.py:44-63 | There are never more records than boxes. |
| Detection.Collected | src/face_detection_yolov12.py:42-64 | An inference that raises gives `[]`. Otherwise there are never more records than boxes. Every record satisfies the width, height and centre equations. |
| Detection.PlainRecords | src/face_detection_yolov12.py:40-64 | `detect_faces` gives `[]` when the inference raises, and every record it returns satisfies the width, height and centre equations. |
| Detection.Scale | src/face_detection_yolov12.py:71-76 | For a wider image the factor times the width is `max_width`; otherwise it is 1.0. |
| Detection.OptimizedRecords | src/face_detection_yolov12.py:66-109 | A wider image whose resize fails gives `[]`, swallowed by the `except`, and every record satisfies the width, height and centre equations. |
| Detection.NarrowImagePassesThrough | src/face_detection_yolov12.py:71-77 | An image no wider than `max_width` is neither resized nor rescaled: the optimized path gives what `detect_faces` gives. |
| Detection.OneRecordPerBox | src/face_detection_yolov8.py:52-75 | When every box converts, record k is built from box k of the flattened results, for every k. |
| Detection.CollectRecords | src/face_detection_yolov12.py:43-60 | The nested loops over results and boxes return exactly the specified record list. They stop at the first failing conversion. |
| Detection.RescaledIffWider | src/face_detection_yolov12.py:71-76 | `scale < 1.0` holds exactly when the image is wider than `max_width`. |
| Detection.WideImageRescaled | src/face_detection_yolov12.py:71-92 | A wider image is inferred on its resized copy. Every box is scaled back by `max_width / width`, which is below 1. A failed resize gives `[]`. A `max_width` of 0 gives `[]`, because scaling the first box back divides by zero. |
| Detection.FaceDetector.DetectFaces | src/face_detection_yolov12.py:40-64 | `detect_faces` returns the records of the inference on the unchanged image. |
| Detection.FaceDetector.DetectFacesOptimized | src/face_detection_yolov12.py:66-109 | `detect_faces_optimized` returns the records of the optimized path. A zero-width image in the wide branch, or a `max_width` of 0, gives `[]`, because the division by zero is swallowed. |
| Webcam.Reused | src/face_detection_yolov12.py:228 | A frame that skips detection reuses the cached detections, or `[]` when nothing is cached. |
| Webcam.Step | src/face_detection_yolov12.py:209-249 | One `update_frame` call detects exactly when the count is a multiple of `skip_frames`. A detecting frame shows and caches what detection found. A skipped frame keeps the cache and shows the reused detections. The count is reset on rollover and incremented otherwise. |
| Webcam.Trace | src/face_detection_yolov12.py:209-267 | A run of calls shows one frame per call, and every detecting frame shows what its own detection found. |
| Webcam.ReuseShowsLastDetection | src/face_detection_yolov8.py:264-283 | Over any run of frames, a detecting frame shows what detection found. Every other frame shows what the latest detecting frame found, or the initial cache. |
| Webcam.DetectsEverySkipFrames | src/face_detection_yolov12.py:216 | While the window does not roll over, frame i detects exactly when `frame_count + i` is a multiple of `skip_frames`. |
| Webcam.RolloverThenDetect | src/face_detection_yolov12.py:245-249 | The frame after a one-second rollover always runs detection, because the counter is 0. |
| Webcam.Info | src/face_detection_yolov8.py:328-333 | The info label carries the model stem, the face count and the first `min(3, n)` confidences in order. `...` is appended exactly when there are more than three faces. |
| Webcam.WebcamGui.constructor | src/face_detection_yolov12.py:140-207 | The window runs only when the camera opened. The model name is the stem of the detector's weights path. Counters start at 0 with nothing cached. With the camera open, the closing `update_frame` on a successful first read always detects. It leaves the count at 1 (0 on rollover) with that frame's detections cached, and the detection counter at 1 (0 on its rollover). |
| Webcam.WebcamGui.UpdateFrame | src/face_detection_yolov8.py:254-337 | A stopped window or a failed read changes nothing. Otherwise the call makes one schedule step: detect when the count is a multiple of `skip_frames`, count the frame, reset the counter on rollover, and update the detection counter. The info line is refreshed when the new count is a multiple of 30. |
| WebApp.Extension | src/web_app.py:74 | None exactly when the name has no `.`. Otherwise it is the lowercased text after the last `.`. |
| WebApp.AllowedFile | src/web_app.py:72-74 | A name is allowed exactly when it is an image or a video. |
| WebApp.AllowedFileIff | src/web_app.py:72-74 | A name is allowed exactly when some `.` has no `.` after it and the lowercased text after that `.` is an allowed extension. |
| WebApp.IsImage | src/web_app.py:77-80 | Raises IndexError exactly when the name has no `.`. |
| WebApp.IsVideo | src/web_app.py:83-86 | Raises IndexError exactly when the name has no `.`. |
| WebApp.ImageOrVideo | src/web_app.py:24 | Every allowed name is an image or a video, never both. A name that is either is allowed. |
| WebApp.OnlyLastDotCounts | src/web_app.py:74-86 | For `stem + "." + ext` with no dot in `ext`, the extension is `ext` lower-cased whatever dots `stem` holds, and the allowlist, image and video tests are decided by it alone. |
| WebApp.ExtensionAfter | src/web_app.py:74 | When position `k` holds the last dot of a name, the extension is the lower-cased text after `k`. |
| WebApp.ImageModel | src/web_app.py:110-113 | An allowed requested model is used. A missing or unknown one falls back to `yolov12l-face.pt`. The result is always allowed. |
| WebApp.VideoModel | src/web_app.py:183-186 | An allowed requested model is used. A missing or unknown one falls back to `yolov12m-face.pt`. The result is always allowed. |
| WebApp.ColdLoad | src/web_app.py:50-67 | Succeeds exactly when both paths resolve, the resolved file path starts with the resolved models directory, the file exists and the model loads. On success it gives the resolved path. A resolve or prefix failure is a FileNotFoundError with the message prefix `Model path error: `. A missing file after the prefix test is `FileNotFoundError("Model not found: " + path)`. A load that raises after the checks pass gives `LoadFailed` with the loader's message, and a `LoadFailed` arises only then. |
| WebApp.PrefixAdmitsSiblingDirectory | src/web_app.py:53-57 | The containment test is a string prefix test: any existing, loadable weights path that merely extends the resolved models directory's text (a sibling such as `/srv/models-old/x.pt` for `/srv/models`) is loaded. |
| WebApp.DetectorCache.constructor | src/web_app.py:38 | The cache starts empty. |
| WebApp.DetectorCache.GetDetector | src/web_app.py:41-69 | An unsupported sanitized name raises ValueError and leaves the cache unchanged. A cached name returns the cached object. Any path or load failure raises and leaves the cache unchanged. A success adds exactly one entry, for the sanitized name, holding a new detector on the resolved path. |
| WebApp.CacheHoldsAtMostFour | src/web_app.py:26-31 | A cache holding only allowed names has at most four entries. |
| WebApp.SameDetectorTwice | src/web_app.py:49-69 | Two successive requests for the same model return the same detector object once the first succeeds. |
| WebApp.GetModels | src/web_app.py:233-275 | The listing is the catalogue filtered to the entries whose weights file exists under the models directory. |
| WebApp.PresentMembers | src/web_app.py:265-269 | An entry is listed exactly when it is in the catalogue and its file exists. |
| WebApp.ModelsFollowOrder | src/web_app.py:271-273 | The listed keys are a sublist, in order, of nano, small, medium, large. |
| WebApp.Summarize | src/web_app.py:146-158 | `count` equals the number of faces and of detections. Face i has id `i + 1` and carries detection i's confidence, width, height and top-left corner. |
| WebApp.CheckUpload | src/web_app.py:99-107 | No reply (go on) exactly when a file is present, its name is non-empty and it is allowed and of the wanted kind. Every rejection is a 400. |
| WebApp.ImageRecords | src/web_app.py:124-130 | Names without `webcam` in any case use the plain path. So do images no wider than 480 columns. A wider webcam snapshot uses the optimized path at width 480. Every record satisfies the width, height and centre equations. |
| WebApp.DetectImage | src/web_app.py:95-165 | The rejections are replied as checked and leave the cache alone. An accepted image is never a 400. The reply is 200 exactly when the sanitized fallback model is cached or loads and the upload decodes; every other case is the generic 500. A 200 body summarizes the image records of that detector. The cache gains exactly one fresh entry, for the sanitized name, when that name was not cached and loads; otherwise it is unchanged. |
| WebApp.PathName | src/web_app.py:206-207 | The name has no `/`. It is the suffix of the path after its last `/`, or the whole path when there is none. |
| WebApp.DetectVideo | src/web_app.py:168-215 | The rejections are replied as checked. An accepted video is never a 400. It is 200 exactly when saving as `input_<name>` and the video run into `output_<name>` both return normally; otherwise it is the generic 500. A 200 reply names the output file and gives its download URL. |
| WebApp.VideoOutputName | src/web_app.py:189-207 | For a sanitized name without `/`, the output file name is `output_` followed by that name. |
| V12Menu.Choice | src/face_detection_yolov12.py:368-370 | The key is never blank and never starts or ends with whitespace. |
| V12Menu.ChoiceOfBlankOrUnpadded | src/face_detection_yolov12.py:368-370 | An all-whitespace answer gives the key `2`, and an answer without surrounding whitespace is its own key. |
| V12Menu.Attempt | src/face_detection_yolov12.py:372-376 | An answer is accepted exactly when its key is on the menu and that weights file exists under the script directory. The result is that path. |
| V12Menu.SelectModelLevel | src/face_detection_yolov12.py:351-380 | Returns the path of the first accepted answer, with its index, after rejecting every earlier answer. It gives None (EOFError) exactly when no answer is accepted. |
| Text.StripTrims | src/face_detection_yolov12.py:368 | `str.strip` returns a contiguous slice of its input that neither starts nor ends with whitespace, and everything it drops on either side is whitespace. |
| V12Menu.BlankSelectsSmall | src/face_detection_yolov12.py:368-370 | An empty or all-whitespace answer selects `yolov12s-face.pt`. |
| V12Menu.AcceptedIsMenuModel | src/face_detection_yolov12.py:360-376 | An accepted path is the script directory joined with one of the four menu models. |
| V12Menu.SkipFor | src/face_detection_yolov12.py:403-404 | The skip is 3 exactly when the path contains `l-face` or `m-face`, else 1. |
| V12Menu.HeavyModelsSkipThree | src/face_detection_yolov12.py:403-404 | The Medium and Large models skip to every third frame, in any directory. |
| V12Menu.LightModelsSkipOne | src/face_detection_yolov12.py:403-404 | For size `n` or `s`, the joined weights path gets skip 1 (detect on every frame) when the directory path contains neither marker. |
| V12Menu.DirectoryNameCounts | src/face_detection_yolov12.py:403-404 | The test looks at the whole path: in a directory whose path contains `l-face` or `m-face`, every weights file gets skip 3, Nano and Small included. |
| V12Menu.ScanModels | src/face_detection_yolov12.py:420-432 | Reports, in order, whether each required file exists. `found_any` holds exactly when at least one exists. |
| V8Main.MissingModels | src/face_detection_yolov8.py:719-728 | Builds exactly the specified list of missing models. |
| V8Main.AbsentMembers | src/face_detection_yolov8.py:725-728 | A model is listed exactly when it is required and its file does not exist. |
| V8Main.AbsentKeepsOrder | src/face_detection_yolov8.py:726-728 | The missing models keep their required order. |
| V8Main.NoneMissingIffAllExist | src/face_detection_yolov8.py:730-741 | The list is empty exactly when all three required files exist. |
| V8Main.ReadablePrefix | src/face_detection_yolov8.py:435-438 | Counts the reads that succeed before the first failed one. All counted reads succeed, and the next one fails. |
| V8Main.FrameLog | src/face_detection_yolov8.py:440-452 | Frame i of the log is read i with its plain detections, index i and the reported total. |
| V8Main.VideoWriter.Write | src/face_detection_yolov8.py:452 | A write appends one frame. |
| V8Main.DetectFromVideo | src/face_detection_yolov8.py:403-464 | A capture that does not open ends at once. A failing model load raises. Otherwise `frame_count` is the number of frames read before the first failed read, and a writer exists exactly when a non-empty output path is given. That writer receives one annotated frame per such frame, in order. |

## Left out

- Neural-network inference, OpenCV, `base64`, tkinter, threads and Flask's request plumbing are foreign. They appear only as function-typed inputs or are not modelled.
- Drawing boxes and captions (`draw_faces`, `cv2.putText`) is not modelled. A written video frame is recorded as the frame read plus its detections.
- Floating-point arithmetic is modelled with reals:
  - the FPS values and their formatting are left out;
  - the `:.2%` and `:.1%` confidence texts are kept as numbers;
  - the `position` text of the face summary is kept as a pair;
  - `int(v / scale)` is the foreign `unscale`.
- `Text.Lower` lowercases ASCII only. Python's `str.lower` also maps non-ASCII letters. The only one it maps to an ASCII letter is U+212A KELVIN SIGN, which becomes `k`, and `mkv` is the only allowed extension with a `k`. So `clip.M` followed by a Kelvin sign and `V` is a video in the source but is rejected by the model.
- Path handling is `JoinPath` on strings. `Path` normalisation (`a//b`, a trailing `/`) is not modelled, and `resolve` is the foreign `Host.resolve`.
- `Webcam.WebcamGui.UpdateFrame`:
  - it requires `skip_frames > 0`, which the callers provide (1, 2 or 3); the source divides by it;
  - it always runs `detect_faces_optimized`, as both windows do;
  - the info-label refresh is modelled for the YOLOv8 window only (`updatesInfo`), because the YOLOv12 window draws its info text on the frame.
- `Webcam.WebcamGui.constructor`: the case where the detector fails to load (`print` and return) is outside the model. The constructor receives a loaded detector. The one-second timers of its closing `update_frame` are boolean inputs, as for `UpdateFrame`.
- The two detector classes and the two webcam windows are modelled once each, because their modelled logic is identical.
- `detect_from_image` (defined twice in the YOLOv8 file, and once in the YOLOv12 file), `display_image_with_detections` and the task menus `choose_and_process_file` are console I/O around the operations modelled above.
- The YOLOv12 `detect_from_video` is the foreign `Host.processVideo` of the web application. Its YOLOv8 twin is modelled as `V8Main.DetectFromVideo`.
- `download_file`, `health_check`, `index`, the 413 and 500 error handlers and `MAX_CONTENT_LENGTH` are Flask plumbing.
- The `result_image is None` branch of `detect_image` is unreachable in the model, because `draw_faces` returns a copy.
- WebApp.DetectImage: a failed `cv2.imdecode` is replied with the generic 500 directly. In the source it reaches that reply through an exception in `draw_faces`.
- The logging calls and the console messages are left out.
- `Webcam.WebcamGui.UpdateFrame`: a stopped window or a failed read returns before re-arming `root.after`, which ends the frame loop for good. The model has no timer chain: it states that such a call changes nothing, and it does not forbid later calls.
- `get_models` is modelled up to the reordered dictionary. Flask's `jsonify` sorts the keys of the JSON body it sends, and that key order is not modelled.
