/**
 * The deterministic rules of the Flask application: upload validation, the
 * model allowlist and its per-route fallback, the detector cache, the model
 * catalogue and the shape of the detection responses.
 *
 * werkzeug's `secure_filename`, `Path.resolve`, `Path.exists`, loading a YOLO
 * model, `file.save`, `cv2.imdecode` and the video pipeline are foreign; they
 * are fields of `Host` and are only applied.
 */
module WebApp {
  import opened Wrappers
  import opened Text
  import opened Detection
  import opened Sequences

  const ALLOWED_EXTENSIONS: set<string> := {"jpg", "jpeg", "png", "gif", "mp4", "avi", "mov", "mkv"}
  const IMAGE_EXTENSIONS: set<string> := {"jpg", "jpeg", "png", "gif"}
  const VIDEO_EXTENSIONS: set<string> := {"mp4", "avi", "mov", "mkv"}

  const ALLOWED_MODELS: set<string> :=
    {"yolov12n-face.pt", "yolov12s-face.pt", "yolov12m-face.pt", "yolov12l-face.pt"}

  /** The model `detect_image` uses when none or an unknown one is requested. */
  const IMAGE_DEFAULT_MODEL: string := "yolov12l-face.pt"
  /** The model `detect_video` uses when none or an unknown one is requested. */
  const VIDEO_DEFAULT_MODEL: string := "yolov12m-face.pt"

  const CONF_THRESHOLD: real := 0.35
  /** `max_width` of the optimized path taken for webcam snapshots. */
  const WEBCAM_MAX_WIDTH: int := 480

  /** The Python exceptions the core raises. */
  datatype PyException =
    | IndexError
    | ValueError(message: string)
    | FileNotFoundError(message: string)
    | LoadFailed(message: string)

  /**
   * The environment of the application.
   * `resolve(p)` is `str(Path(p).resolve())`, or the message of what it raised;
   * `loadError(p)` is the message of what `YOLOv12FaceDetector(p)` raises, if it does;
   * `save(p, bytes)` says whether `file.save(p)` returned normally;
   * `processVideo(input, model, output)` says whether `detect_from_video` returned normally.
   */
  datatype Host = Host(
    modelsDir: string,
    uploadDir: string,
    secureFilename: string -> string,
    resolve: string -> Result<string, string>,
    pathExists: string -> bool,
    loadError: string -> Option<string>,
    decode: seq<bv8> -> Option<Frame>,
    save: (string, seq<bv8>) -> bool,
    processVideo: (string, string, string) -> bool,
    engine: Engine)

  // ---------------------------------------------------------------------
  // Upload validation

  /** The lowercased text after the last '.', or None when there is no '.'. */
  function Extension(filename: string): (r: Option<string>)
    ensures r.None? <==> '.' !in filename
    ensures r.Some? ==> exists k :: 0 <= k < |filename| && filename[k] == '.' && '.' !in filename[k + 1..]
                                   && r.value == Lower(filename[k + 1..])
  {
    match AfterLast(filename, '.')
    case None => None
    case Some(ext) => Some(Lower(ext))
  }

  /**
   * `allowed_file`: the name has a '.' and its extension is on the allowlist.
   * The allowlist is exactly the image and the video extensions.
   */
  predicate AllowedFile(filename: string): (b: bool)
    ensures b <==> IsImage(filename) == Success(true) || IsVideo(filename) == Success(true)
  {
    assert IMAGE_EXTENSIONS + VIDEO_EXTENSIONS == ALLOWED_EXTENSIONS;
    '.' in filename && Extension(filename).value in ALLOWED_EXTENSIONS
  }

  /** `is_image`; splitting off the extension raises IndexError for a name without a '.'. */
  function IsImage(filename: string): (r: Result<bool, PyException>)
    ensures r.Failure? <==> '.' !in filename
    ensures r.Failure? ==> r.error == IndexError
  {
    match Extension(filename)
    case None => Failure(IndexError)
    case Some(ext) => Success(ext in IMAGE_EXTENSIONS)
  }

  /** `is_video`, with the same IndexError for a name without a '.'. */
  function IsVideo(filename: string): (r: Result<bool, PyException>)
    ensures r.Failure? <==> '.' !in filename
    ensures r.Failure? ==> r.error == IndexError
  {
    match Extension(filename)
    case None => Failure(IndexError)
    case Some(ext) => Success(ext in VIDEO_EXTENSIONS)
  }

  /**
   * A name is allowed exactly when it has a '.' and the lowercased text after
   * its last '.' is an allowed extension; earlier dots play no part.
   */
  lemma AllowedFileIff(filename: string)
    ensures AllowedFile(filename) <==>
      exists k :: 0 <= k < |filename| && filename[k] == '.' && '.' !in filename[k + 1..]
               && Lower(filename[k + 1..]) in ALLOWED_EXTENSIONS
  {
    forall k | 0 <= k < |filename| && filename[k] == '.' && '.' !in filename[k + 1..]
      ensures Extension(filename) == Some(Lower(filename[k + 1..]))
    {
      ExtensionAfter(filename, k);
    }
  }

  /** The extension is read after a '.' that no other '.' follows. */
  lemma ExtensionAfter(filename: string, k: int)
    requires 0 <= k < |filename| && filename[k] == '.' && '.' !in filename[k + 1..]
    ensures Extension(filename) == Some(Lower(filename[k + 1..]))
  {
    LastOccurrenceIsLastIndex(filename, '.', k);
  }

  /**
   * The image and video extensions split the allowed ones: every allowed name
   * is an image or a video and never both, and a name that is either is allowed.
   */
  lemma ImageOrVideo(filename: string)
    ensures AllowedFile(filename) ==>
      && IsImage(filename).Success? && IsVideo(filename).Success?
      && (IsImage(filename).value <==> !IsVideo(filename).value)
    ensures (IsImage(filename) == Success(true) || IsVideo(filename) == Success(true)) ==> AllowedFile(filename)
  {
    assert IMAGE_EXTENSIONS + VIDEO_EXTENSIONS == ALLOWED_EXTENSIONS;
    assert IMAGE_EXTENSIONS !! VIDEO_EXTENSIONS;
  }

  /**
   * Only the last dot counts: whatever dots the stem holds, the kind of
   * `stem.ext` is decided by `ext` alone (so "a.mp4.JPG" is an image).
   */
  lemma OnlyLastDotCounts(stem: string, ext: string)
    requires '.' !in ext
    ensures Extension(stem + "." + ext) == Some(Lower(ext))
    ensures AllowedFile(stem + "." + ext) <==> Lower(ext) in ALLOWED_EXTENSIONS
    ensures IsImage(stem + "." + ext) == Success(Lower(ext) in IMAGE_EXTENSIONS)
    ensures IsVideo(stem + "." + ext) == Success(Lower(ext) in VIDEO_EXTENSIONS)
  {
    var name := stem + "." + ext;
    assert name[|stem|] == '.';
    assert name[|stem| + 1..] == ext;
    ExtensionAfter(name, |stem|);
  }

  // ---------------------------------------------------------------------
  // Model fallback

  /** The form's `model` field, or `default` when it is absent or not an allowed model. */
  function Fallback(requested: Option<string>, default: string): string {
    var model := if requested.Some? then requested.value else default;
    if model in ALLOWED_MODELS then model else default
  }

  /** The model `detect_image` loads. */
  function ImageModel(requested: Option<string>): (m: string)
    ensures m in ALLOWED_MODELS
    ensures requested.Some? && requested.value in ALLOWED_MODELS ==> m == requested.value
    ensures !(requested.Some? && requested.value in ALLOWED_MODELS) ==> m == "yolov12l-face.pt"
  {
    Fallback(requested, IMAGE_DEFAULT_MODEL)
  }

  /** The model `detect_video` processes with. */
  function VideoModel(requested: Option<string>): (m: string)
    ensures m in ALLOWED_MODELS
    ensures requested.Some? && requested.value in ALLOWED_MODELS ==> m == requested.value
    ensures !(requested.Some? && requested.value in ALLOWED_MODELS) ==> m == "yolov12m-face.pt"
  {
    Fallback(requested, VIDEO_DEFAULT_MODEL)
  }

  // ---------------------------------------------------------------------
  // Detector cache

  /**
   * The path checks and the load of `get_detector` for a sanitized, allowed
   * name not yet cached: the weights path the new detector is built from, or the
   * exception raised. A failing `resolve` and a failed prefix test are both
   * caught by the `except` clause and re-raised as FileNotFoundError.
   */
  function ColdLoad(safeName: string, host: Host): (r: Result<string, PyException>)
    ensures r.Success? <==>
      && host.resolve(JoinPath(host.modelsDir, safeName)).Success?
      && host.resolve(host.modelsDir).Success?
      && StartsWith(host.resolve(JoinPath(host.modelsDir, safeName)).value, host.resolve(host.modelsDir).value)
      && host.pathExists(host.resolve(JoinPath(host.modelsDir, safeName)).value)
      && host.loadError(host.resolve(JoinPath(host.modelsDir, safeName)).value).None?
    ensures r.Success? ==> r.value == host.resolve(JoinPath(host.modelsDir, safeName)).value
    ensures r.Failure? && !(host.resolve(JoinPath(host.modelsDir, safeName)).Success? && host.resolve(host.modelsDir).Success?
                            && StartsWith(host.resolve(JoinPath(host.modelsDir, safeName)).value, host.resolve(host.modelsDir).value)) ==>
      r.error.FileNotFoundError? && StartsWith(r.error.message, "Model path error: ")
    ensures && host.resolve(JoinPath(host.modelsDir, safeName)).Success?
            && host.resolve(host.modelsDir).Success?
            && StartsWith(host.resolve(JoinPath(host.modelsDir, safeName)).value, host.resolve(host.modelsDir).value)
            && !host.pathExists(host.resolve(JoinPath(host.modelsDir, safeName)).value) ==>
      r == Failure(FileNotFoundError("Model not found: " + host.resolve(JoinPath(host.modelsDir, safeName)).value))
    ensures && host.resolve(JoinPath(host.modelsDir, safeName)).Success?
            && host.resolve(host.modelsDir).Success?
            && StartsWith(host.resolve(JoinPath(host.modelsDir, safeName)).value, host.resolve(host.modelsDir).value)
            && host.pathExists(host.resolve(JoinPath(host.modelsDir, safeName)).value)
            && host.loadError(host.resolve(JoinPath(host.modelsDir, safeName)).value).Some? ==>
      r == Failure(LoadFailed(host.loadError(host.resolve(JoinPath(host.modelsDir, safeName)).value).value))
    ensures r.Failure? && r.error.LoadFailed? ==>
      && host.pathExists(host.resolve(JoinPath(host.modelsDir, safeName)).value)
      && r.error.message == host.loadError(host.resolve(JoinPath(host.modelsDir, safeName)).value).value
  {
    match host.resolve(JoinPath(host.modelsDir, safeName))
    case Failure(e) => Failure(FileNotFoundError("Model path error: " + e))
    case Success(finalPath) =>
      match host.resolve(host.modelsDir)
      case Failure(e) => Failure(FileNotFoundError("Model path error: " + e))
      case Success(safeRoot) =>
        if !StartsWith(finalPath, safeRoot) then
          Failure(FileNotFoundError("Model path error: " + "Invalid model path (Symlink violation)"))
        else if !host.pathExists(finalPath) then
          Failure(FileNotFoundError("Model not found: " + finalPath))
        else match host.loadError(finalPath)
          case Some(e) => Failure(LoadFailed(e))
          case None => Success(finalPath)
  }

  /**
   * The containment test is a string prefix test: a weights path that merely
   * extends the resolved models directory's text passes it, such as
   * `/srv/models-old/x.pt` for the directory `/srv/models`.
   */
  lemma PrefixAdmitsSiblingDirectory(host: Host, safeName: string, root: string, rest: string)
    requires host.resolve(host.modelsDir) == Success(root)
    requires host.resolve(JoinPath(host.modelsDir, safeName)) == Success(root + rest)
    requires host.pathExists(root + rest) && host.loadError(root + rest).None?
    ensures ColdLoad(safeName, host) == Success(root + rest)
  {
    assert (root + rest)[..|root|] == root;
  }

  /** `detector_cache`: detectors by sanitized model name. */
  class DetectorCache {
    var detectors: map<string, FaceDetector>

    /** Only allowed names are ever cached. */
    ghost predicate Valid()
      reads this
    {
      forall name :: name in detectors ==> name in ALLOWED_MODELS
    }

    constructor ()
      ensures Valid() && detectors == map[]
    {
      detectors := map[];
    }

    /**
     * `get_detector(model_name)`: an unsupported name raises ValueError; a
     * cached name gives the cached detector; otherwise the path checks run,
     * and only when all pass is one entry, for the sanitized name, added.
     * Every failure leaves the cache as it was.
     */
    method GetDetector(modelName: string, host: Host) returns (r: Result<FaceDetector, PyException>)
      requires Valid()
      modifies this
      ensures Valid()
      ensures var safe := host.secureFilename(modelName);
        && (safe !in ALLOWED_MODELS ==>
              r == Failure(ValueError("Unsupported model: " + safe)) && detectors == old(detectors))
        && (safe in ALLOWED_MODELS && safe in old(detectors) ==>
              r == Success(old(detectors)[safe]) && detectors == old(detectors))
        && (safe in ALLOWED_MODELS && safe !in old(detectors) && ColdLoad(safe, host).Failure? ==>
              r == Failure(ColdLoad(safe, host).error) && detectors == old(detectors))
        && (safe in ALLOWED_MODELS && safe !in old(detectors) && ColdLoad(safe, host).Success? ==>
              && r.Success? && fresh(r.value) && r.value.weights == ColdLoad(safe, host).value
              && detectors == old(detectors)[safe := r.value])
    {
      var safe := host.secureFilename(modelName);
      if safe !in ALLOWED_MODELS {
        return Failure(ValueError("Unsupported model: " + safe));
      }
      if safe !in detectors {
        var load := ColdLoad(safe, host);
        if load.Failure? {
          return Failure(load.error);
        }
        var detector := new FaceDetector(load.value);
        detectors := detectors[safe := detector];
      }
      r := Success(detectors[safe]);
    }
  }

  lemma SubsetCardinality<T>(a: set<T>, b: set<T>)
    requires a <= b
    ensures |a| <= |b|
  {
    if a != {} {
      var x :| x in a;
      SubsetCardinality(a - {x}, b - {x});
    }
  }

  /** A valid cache never holds more than the four allowed models. */
  lemma CacheHoldsAtMostFour(detectors: map<string, FaceDetector>)
    requires forall name :: name in detectors ==> name in ALLOWED_MODELS
    ensures |detectors| <= 4
  {
    SubsetCardinality(detectors.Keys, ALLOWED_MODELS);
  }

  /** Asking twice for the same model gives the same detector object. */
  method SameDetectorTwice(cache: DetectorCache, modelName: string, host: Host)
    returns (first: Result<FaceDetector, PyException>, second: Result<FaceDetector, PyException>)
    requires cache.Valid()
    modifies cache
    ensures first.Success? ==> second == first
  {
    first := cache.GetDetector(modelName, host);
    second := cache.GetDetector(modelName, host);
  }

  // ---------------------------------------------------------------------
  // Model catalogue

  datatype ModelInfo = ModelInfo(name: string, labelText: string, description: string, size: string)

  /** The `models` dictionary of `get_models`, in its insertion order. */
  const CATALOGUE: seq<(string, ModelInfo)> := [
    ("nano", ModelInfo("yolov12n-face.pt", "Nano (n) - Fastest", "Real-time speed, best for CPU/Webcam", "Smallest")),
    ("small", ModelInfo("yolov12s-face.pt", "Small (s) - Balanced", "Good balance of speed and accuracy", "Small")),
    ("medium", ModelInfo("yolov12m-face.pt", "Medium (m) - High Precision", "High accuracy, requires decent GPU", "Medium")),
    ("large", ModelInfo("yolov12l-face.pt", "Large (l) - Max Accuracy", "Best detection quality, slowest speed", "Large"))
  ]

  /** The display order of `get_models`. */
  const ORDER: seq<string> := ["nano", "small", "medium", "large"]

  function Keys(entries: seq<(string, ModelInfo)>): (ks: seq<string>)
    ensures |ks| == |entries|
    ensures forall i :: 0 <= i < |entries| ==> ks[i] == entries[i].0
  {
    seq(|entries|, i requires 0 <= i < |entries| => entries[i].0)
  }

  predicate ModelOnDisk(entry: (string, ModelInfo), host: Host) {
    host.pathExists(JoinPath(host.modelsDir, entry.1.name))
  }

  /** The catalogue entries whose weights file exists, in catalogue order. */
  function Present(entries: seq<(string, ModelInfo)>, host: Host): (r: seq<(string, ModelInfo)>)
    ensures |r| <= |entries|
  {
    if entries == [] then []
    else (if ModelOnDisk(entries[0], host) then [entries[0]] else []) + Present(entries[1..], host)
  }

  /** The `available` dictionary after the first `k` catalogue entries. */
  function AvailableMap(entries: seq<(string, ModelInfo)>, host: Host): map<string, ModelInfo>
    decreases |entries|
  {
    if entries == [] then map[]
    else
      var last := entries[|entries| - 1];
      var m := AvailableMap(entries[..|entries| - 1], host);
      if ModelOnDisk(last, host) then m[last.0 := last.1] else m
  }

  /** The `sorted_available` reordering: the available entries, taken in the display order. */
  function InOrder(order: seq<string>, available: map<string, ModelInfo>): seq<(string, ModelInfo)> {
    if order == [] then []
    else (if order[0] in available then [(order[0], available[order[0]])] else []) + InOrder(order[1..], available)
  }

  predicate DistinctKeys(entries: seq<(string, ModelInfo)>) {
    forall i, j :: 0 <= i < j < |entries| ==> entries[i].0 != entries[j].0
  }

  lemma {:induction false} AvailableMapEntries(entries: seq<(string, ModelInfo)>, host: Host)
    requires DistinctKeys(entries)
    ensures forall i :: 0 <= i < |entries| ==>
      (entries[i].0 in AvailableMap(entries, host) <==> ModelOnDisk(entries[i], host))
    ensures forall i :: 0 <= i < |entries| && ModelOnDisk(entries[i], host) ==>
      AvailableMap(entries, host)[entries[i].0] == entries[i].1
    ensures forall k :: k in AvailableMap(entries, host) ==> exists i :: 0 <= i < |entries| && entries[i].0 == k
    decreases |entries|
  {
    if entries != [] {
      var init := entries[..|entries| - 1];
      var last := entries[|entries| - 1];
      assert forall i :: 0 <= i < |init| ==> init[i] == entries[i];
      AvailableMapEntries(init, host);
      var m := AvailableMap(init, host);
      assert AvailableMap(entries, host) == if ModelOnDisk(last, host) then m[last.0 := last.1] else m;
      forall i | 0 <= i < |init|
        ensures entries[i].0 in AvailableMap(entries, host) <==> ModelOnDisk(entries[i], host)
        ensures ModelOnDisk(entries[i], host) ==> AvailableMap(entries, host)[entries[i].0] == entries[i].1
      {
        assert entries[i].0 != last.0;
      }
    }
  }

  lemma {:induction false} InOrderIsPresent(entries: seq<(string, ModelInfo)>, available: map<string, ModelInfo>, host: Host)
    requires forall i :: 0 <= i < |entries| ==> (entries[i].0 in available <==> ModelOnDisk(entries[i], host))
    requires forall i :: 0 <= i < |entries| && ModelOnDisk(entries[i], host) ==> available[entries[i].0] == entries[i].1
    ensures InOrder(Keys(entries), available) == Present(entries, host)
    decreases |entries|
  {
    if entries != [] {
      assert Keys(entries)[1..] == Keys(entries[1..]);
      assert forall i :: 0 <= i < |entries[1..]| ==> entries[1..][i] == entries[i + 1];
      InOrderIsPresent(entries[1..], available, host);
    }
  }

  /**
   * `get_models`: the catalogue entries whose weights file exists under the
   * models directory, ordered nano, small, medium, large.
   */
  method GetModels(host: Host) returns (models: seq<(string, ModelInfo)>)
    ensures models == Present(CATALOGUE, host)
  {
    var available: map<string, ModelInfo> := map[];
    var i := 0;
    while i < |CATALOGUE|
      invariant 0 <= i <= |CATALOGUE|
      invariant available == AvailableMap(CATALOGUE[..i], host)
    {
      var (key, info) := CATALOGUE[i];
      assert CATALOGUE[..i + 1][..i] == CATALOGUE[..i];
      if host.pathExists(JoinPath(host.modelsDir, info.name)) {
        available := available[key := info];
      }
      i := i + 1;
    }
    assert CATALOGUE[..i] == CATALOGUE;
    AvailableMapEntries(CATALOGUE, host);
    assert ORDER == Keys(CATALOGUE);
    InOrderIsPresent(CATALOGUE, available, host);
    models := InOrder(ORDER, available);
  }

  /** An entry is listed exactly when it is in the catalogue and its weights file exists. */
  lemma {:induction false} PresentMembers(entries: seq<(string, ModelInfo)>, host: Host, e: (string, ModelInfo))
    ensures e in Present(entries, host) <==> e in entries && ModelOnDisk(e, host)
    decreases |entries|
  {
    if entries != [] {
      PresentMembers(entries[1..], host, e);
      assert entries == [entries[0]] + entries[1..];
    }
  }

  lemma {:induction false} PresentKeepsOrder(entries: seq<(string, ModelInfo)>, host: Host)
    ensures IsSubsequence(Keys(Present(entries, host)), Keys(entries))
    decreases |entries|
  {
    if entries != [] {
      PresentKeepsOrder(entries[1..], host);
      var rest := Present(entries[1..], host);
      assert Keys(entries)[1..] == Keys(entries[1..]);
      if ModelOnDisk(entries[0], host) {
        assert Present(entries, host) == [entries[0]] + rest;
        assert Keys([entries[0]] + rest)[1..] == Keys(rest);
      } else {
        assert Present(entries, host) == rest;
        SubsequenceOfTail(Keys(rest), Keys(entries));
      }
    }
  }

  /** The listed model keys follow the display order nano, small, medium, large. */
  lemma ModelsFollowOrder(host: Host)
    ensures IsSubsequence(Keys(Present(CATALOGUE, host)), ORDER)
  {
    PresentKeepsOrder(CATALOGUE, host);
    assert ORDER == Keys(CATALOGUE);
  }

  // ---------------------------------------------------------------------
  // Responses

  /** One entry of `faces`; the confidence is kept as a number, not as the `:.2%` text. */
  datatype FaceSummary = FaceSummary(id: int, confidence: real, width: int, height: int, position: (int, int))

  datatype ImageDetections = ImageDetections(count: int, faces: seq<FaceSummary>)

  datatype Body =
    | ErrorBody(error: string)
    | ImageBody(detections: ImageDetections)
    | VideoBody(message: string, outputFile: string, downloadUrl: string)

  datatype Reply = Reply(status: int, body: Body)

  /** The `detections` object of the image response. */
  function Summarize(detections: seq<Record>): (d: ImageDetections)
    ensures d.count == |d.faces| == |detections|
    ensures forall i :: 0 <= i < |d.faces| ==>
      && d.faces[i].id == i + 1
      && d.faces[i].confidence == detections[i].confidence
      && d.faces[i].width == detections[i].w && d.faces[i].height == detections[i].h
      && d.faces[i].position == (detections[i].x1, detections[i].y1)
  {
    ImageDetections(|detections|, seq(|detections|, i requires 0 <= i < |detections| =>
      FaceSummary(i + 1, detections[i].confidence, detections[i].w, detections[i].h, (detections[i].x1, detections[i].y1))))
  }

  /**
   * The detection path of the image route. A snapshot whose lowercased name
   * mentions "webcam" takes the optimized path, which differs from the plain
   * one only for an image wider than `WEBCAM_MAX_WIDTH`.
   */
  function ImageRecords(weights: string, image: Frame, filename: string, engine: Engine): (r: seq<Record>)
    ensures image.width <= WEBCAM_MAX_WIDTH ==> r == PlainRecords(weights, image, CONF_THRESHOLD, engine)
    ensures image.width > WEBCAM_MAX_WIDTH && Contains(Lower(filename), "webcam") ==>
      r == OptimizedRecords(weights, image, CONF_THRESHOLD, WEBCAM_MAX_WIDTH, engine)
    ensures !Contains(Lower(filename), "webcam") ==> r == PlainRecords(weights, image, CONF_THRESHOLD, engine)
    ensures forall k :: 0 <= k < |r| ==> Consistent(r[k])
  {
    if Contains(Lower(filename), "webcam") then OptimizedRecords(weights, image, CONF_THRESHOLD, WEBCAM_MAX_WIDTH, engine)
    else PlainRecords(weights, image, CONF_THRESHOLD, engine)
  }

  datatype Upload = Upload(filename: string, content: seq<bv8>)

  /** The checks both upload routes make before they do any work. */
  function CheckUpload(upload: Option<Upload>, wanted: string -> Result<bool, PyException>, kindError: string): (r: Option<Reply>)
    ensures r.Some? ==> r.value.status == 400
    ensures r.None? <==> (upload.Some? && upload.value.filename != "" && AllowedFile(upload.value.filename)
                          && wanted(upload.value.filename) == Success(true))
  {
    if upload.None? then Some(Reply(400, ErrorBody("No file provided")))
    else if upload.value.filename == "" then Some(Reply(400, ErrorBody("No file selected")))
    else if !AllowedFile(upload.value.filename) || wanted(upload.value.filename) != Success(true) then
      Some(Reply(400, ErrorBody(kindError)))
    else None
  }

  /**
   * `detect_image`. A failed decode makes `draw_faces` raise on copying the missing image
   * after detection has swallowed its own error, so it ends in the 500 reply.
   */
  method DetectImage(cache: DetectorCache, upload: Option<Upload>, formModel: Option<string>, host: Host)
    returns (reply: Reply)
    requires cache.Valid()
    modifies cache
    ensures cache.Valid()
    ensures reply.status in {200, 400, 500}
    ensures CheckUpload(upload, IsImage, "Only image files allowed").Some? ==>
      reply == CheckUpload(upload, IsImage, "Only image files allowed").value && cache.detectors == old(cache.detectors)
    ensures reply.status == 200 ==>
      && upload.Some? && AllowedFile(upload.value.filename) && IsImage(upload.value.filename) == Success(true)
      && var safe := host.secureFilename(ImageModel(formModel));
      && safe in cache.detectors
      && host.decode(upload.value.content).Some?
      && reply.body == ImageBody(Summarize(ImageRecords(cache.detectors[safe].weights,
           host.decode(upload.value.content).value, upload.value.filename, host.engine)))
    ensures reply.status == 500 ==> reply.body == ErrorBody("Internal server error during image detection")
    ensures CheckUpload(upload, IsImage, "Only image files allowed").None? ==>
      var safe := host.secureFilename(ImageModel(formModel));
      var loaded := safe in ALLOWED_MODELS && (safe in old(cache.detectors) || ColdLoad(safe, host).Success?);
      && reply.status != 400
      && (reply.status == 200 <==> loaded && host.decode(upload.value.content).Some?)
      && (loaded && safe !in old(cache.detectors) ==>
            && safe in cache.detectors && fresh(cache.detectors[safe])
            && cache.detectors[safe].weights == ColdLoad(safe, host).value
            && cache.detectors == old(cache.detectors)[safe := cache.detectors[safe]])
      && (!(loaded && safe !in old(cache.detectors)) ==> cache.detectors == old(cache.detectors))
  {
    var rejected := CheckUpload(upload, IsImage, "Only image files allowed");
    if rejected.Some? {
      return rejected.value;
    }
    var file := upload.value;
    var model := ImageModel(formModel);
    var detector := cache.GetDetector(model, host);
    if detector.Failure? {
      return Reply(500, ErrorBody("Internal server error during image detection"));
    }
    var image := host.decode(file.content);
    if image.None? {
      return Reply(500, ErrorBody("Internal server error during image detection"));
    }
    var detections;
    if Contains(Lower(file.filename), "webcam") {
      detections := detector.value.DetectFacesOptimized(image.value, CONF_THRESHOLD, WEBCAM_MAX_WIDTH, host.engine);
    } else {
      detections := detector.value.DetectFaces(image.value, CONF_THRESHOLD, host.engine);
    }
    reply := Reply(200, ImageBody(Summarize(detections)));
  }

  /** `Path(p).name`: the text after the last '/'. */
  function PathName(p: string): (name: string)
    ensures '/' !in name
    ensures |name| <= |p| && name == p[|p| - |name|..]
    ensures '/' !in p ==> name == p
    ensures name != p ==> p[|p| - |name| - 1] == '/'
  {
    var k := LastIndexOf(p, '/');
    p[k + 1..]
  }

  /**
   * `detect_video`: saves the upload as `input_<name>`, runs the video
   * pipeline into `output_<name>` and names the output file for download.
   */
  function DetectVideo(upload: Option<Upload>, formModel: Option<string>, host: Host): (reply: Reply)
    ensures reply.status in {200, 400, 500}
    ensures CheckUpload(upload, IsVideo, "Only video files allowed").Some? ==>
      reply == CheckUpload(upload, IsVideo, "Only video files allowed").value
    ensures reply.status == 200 ==>
      && upload.Some? && AllowedFile(upload.value.filename) && IsVideo(upload.value.filename) == Success(true)
      && var output := JoinPath(host.uploadDir, "output_" + host.secureFilename(upload.value.filename));
      && reply.body == VideoBody("Video processing complete", PathName(output), "/api/download/" + PathName(output))
    ensures reply.status == 500 ==> reply.body == ErrorBody("Internal server error")
    ensures CheckUpload(upload, IsVideo, "Only video files allowed").None? ==>
      var filename := host.secureFilename(upload.value.filename);
      var inputPath := JoinPath(host.uploadDir, "input_" + filename);
      && reply.status != 400
      && (reply.status == 200 <==>
            && host.save(inputPath, upload.value.content)
            && host.processVideo(inputPath, JoinPath(host.modelsDir, VideoModel(formModel)),
                                 JoinPath(host.uploadDir, "output_" + filename)))
  {
    var rejected := CheckUpload(upload, IsVideo, "Only video files allowed");
    if rejected.Some? then rejected.value
    else
      var file := upload.value;
      var model := VideoModel(formModel);
      var filename := host.secureFilename(file.filename);
      var inputPath := JoinPath(host.uploadDir, "input_" + filename);
      var outputPath := JoinPath(host.uploadDir, "output_" + filename);
      if !host.save(inputPath, file.content) then Reply(500, ErrorBody("Internal server error"))
      else if !host.processVideo(inputPath, JoinPath(host.modelsDir, model), outputPath) then
        Reply(500, ErrorBody("Internal server error"))
      else
        var name := PathName(outputPath);
        Reply(200, VideoBody("Video processing complete", name, "/api/download/" + name))
  }

  /** A sanitized name without '/' is the output file's name after the `output_` prefix. */
  lemma VideoOutputName(dir: string, filename: string)
    requires '/' !in filename
    ensures PathName(JoinPath(dir, "output_" + filename)) == "output_" + filename
  {
    var name := "output_" + filename;
    var p := JoinPath(dir, name);
    assert '/' !in name;
    assert p == (if dir == "." then "" else if dir == "/" then "/" else dir + "/") + name;
    var k := LastIndexOf(p, '/');
    if dir != "." {
      var prefix := if dir == "/" then "/" else dir + "/";
      assert p[|prefix| - 1] == '/';
      assert k == |prefix| - 1 by {
        assert forall j :: |prefix| <= j < |p| ==> p[j] == name[j - |prefix|];
      }
    } else {
      assert forall j :: 0 <= j < |p| ==> p[j] == name[j];
    }
  }
}
