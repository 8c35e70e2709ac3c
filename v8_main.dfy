/**
 * The YOLOv8 module's video pipeline and its startup check for missing
 * weights files. OpenCV's capture is the sequence of its `read()` results,
 * drawing and the frame caption are not modelled, and a frame handed to the
 * writer is recorded with the detections drawn on it.
 */
module V8Main {
  import opened Wrappers
  import opened Text
  import opened Sequences
  import opened Detection

  /** `required_models` of the startup check, in its order. */
  const REQUIRED_MODELS: seq<string> := ["yolov8n_100e.pt", "yolov8m_200e.pt", "yolov8l_100e.pt"]

  /** The models of `models` whose weights file does not exist under `scriptDir`, in order. */
  function Absent(models: seq<string>, scriptDir: string, pathExists: string -> bool): (r: seq<string>)
    ensures |r| <= |models|
  {
    if models == [] then []
    else (if !pathExists(JoinPath(scriptDir, models[0])) then [models[0]] else []) + Absent(models[1..], scriptDir, pathExists)
  }

  /** The `missing_models` loop of `__main__`. */
  method MissingModels(scriptDir: string, pathExists: string -> bool) returns (missing: seq<string>)
    ensures missing == Absent(REQUIRED_MODELS, scriptDir, pathExists)
  {
    missing := [];
    var i := 0;
    while i < |REQUIRED_MODELS|
      invariant 0 <= i <= |REQUIRED_MODELS|
      invariant Absent(REQUIRED_MODELS, scriptDir, pathExists) == missing + Absent(REQUIRED_MODELS[i..], scriptDir, pathExists)
    {
      var model := REQUIRED_MODELS[i];
      assert REQUIRED_MODELS[i..][1..] == REQUIRED_MODELS[i + 1..];
      if !pathExists(JoinPath(scriptDir, model)) {
        missing := missing + [model];
      }
      i := i + 1;
    }
  }

  /** A model is reported missing exactly when it is required and its file does not exist. */
  lemma {:induction false} AbsentMembers(models: seq<string>, scriptDir: string, pathExists: string -> bool, m: string)
    ensures m in Absent(models, scriptDir, pathExists) <==> m in models && !pathExists(JoinPath(scriptDir, m))
    decreases |models|
  {
    if models != [] {
      AbsentMembers(models[1..], scriptDir, pathExists, m);
      assert models == [models[0]] + models[1..];
    }
  }

  /** The missing models are listed in the order they are required. */
  lemma {:induction false} AbsentKeepsOrder(models: seq<string>, scriptDir: string, pathExists: string -> bool)
    ensures IsSubsequence(Absent(models, scriptDir, pathExists), models)
    decreases |models|
  {
    if models != [] {
      var rest := Absent(models[1..], scriptDir, pathExists);
      AbsentKeepsOrder(models[1..], scriptDir, pathExists);
      if !pathExists(JoinPath(scriptDir, models[0])) {
        assert Absent(models, scriptDir, pathExists) == [models[0]] + rest;
        assert ([models[0]] + rest)[1..] == rest;
      } else {
        assert Absent(models, scriptDir, pathExists) == rest;
        SubsequenceOfTail(rest, models);
      }
    }
  }

  /** Nothing is reported missing exactly when all three weights files exist. */
  lemma NoneMissingIffAllExist(scriptDir: string, pathExists: string -> bool)
    ensures Absent(REQUIRED_MODELS, scriptDir, pathExists) == [] <==>
      forall i :: 0 <= i < |REQUIRED_MODELS| ==> pathExists(JoinPath(scriptDir, REQUIRED_MODELS[i]))
  {
    forall i | 0 <= i < |REQUIRED_MODELS|
      ensures REQUIRED_MODELS[i] in Absent(REQUIRED_MODELS, scriptDir, pathExists) <==>
              !pathExists(JoinPath(scriptDir, REQUIRED_MODELS[i]))
    {
      AbsentMembers(REQUIRED_MODELS, scriptDir, pathExists, REQUIRED_MODELS[i]);
    }
    var absent := Absent(REQUIRED_MODELS, scriptDir, pathExists);
    if absent != [] {
      AbsentMembers(REQUIRED_MODELS, scriptDir, pathExists, absent[0]);
    }
  }

  /** How `detect_from_video` ends. */
  datatype VideoOutcome =
    | NotOpened
    | LoadRaised(message: string)
    | Processed(frameCount: nat)

  /** A frame given to `writer.write`: the frame read, its detections, its index and the reported frame total. */
  datatype Annotated = Annotated(frame: Frame, detections: seq<Record>, index: nat, total: int)

  /** `cv2.VideoWriter`: the frames written to it, in order. */
  class VideoWriter {
    const path: string
    var written: seq<Annotated>

    constructor (path: string)
      ensures this.path == path && written == []
    {
      this.path := path;
      written := [];
    }

    method Write(frame: Annotated)
      modifies this
      ensures written == old(written) + [frame]
    {
      written := written + [frame];
    }
  }

  /**
   * The number of readResults that succeed before the first failed one. Reads past
   * the end of `readResults` fail, as a capture does at the end of its stream.
   */
  function ReadablePrefix(readResults: seq<Option<Frame>>): (n: nat)
    ensures n <= |readResults|
    ensures forall i :: 0 <= i < n ==> readResults[i].Some?
    ensures n < |readResults| ==> readResults[n].None?
  {
    if readResults == [] || readResults[0].None? then 0
    else 1 + ReadablePrefix(readResults[1..])
  }

  /** What the writer receives for the first `n` frames. */
  function FrameLog(readResults: seq<Option<Frame>>, n: nat, weights: string, conf: real, total: int, engine: Engine): (log: seq<Annotated>)
    requires n <= |readResults| && forall i :: 0 <= i < n ==> readResults[i].Some?
    ensures |log| == n
    ensures forall i :: 0 <= i < n ==>
      log[i] == Annotated(readResults[i].value, PlainRecords(weights, readResults[i].value, conf, engine), i, total)
  {
    seq(n, i requires 0 <= i < n => Annotated(readResults[i].value, PlainRecords(weights, readResults[i].value, conf, engine), i, total))
  }

  /**
   * `detect_from_video`: nothing happens when the capture does not open; a
   * failing model load raises; otherwise every frame read before the first
   * failed read is detected on and, when an output path is given, written
   * exactly once, in order.
   */
  method DetectFromVideo(captureOpened: bool, readResults: seq<Option<Frame>>, totalFrames: int, modelPath: string,
                         loadError: Option<string>, outputPath: Option<string>, conf: real, engine: Engine)
    returns (outcome: VideoOutcome, writer: Option<VideoWriter>)
    ensures !captureOpened ==> outcome == NotOpened && writer.None?
    ensures captureOpened && loadError.Some? ==> outcome == LoadRaised(loadError.value) && writer.None?
    ensures captureOpened && loadError.None? ==> outcome == Processed(ReadablePrefix(readResults))
    ensures (outputPath.None? || outputPath.value == "") ==> writer.None?
    ensures captureOpened && loadError.None? && outputPath.Some? && outputPath.value != "" ==>
      && writer.Some? && fresh(writer.value) && writer.value.path == outputPath.value
      && writer.value.written == FrameLog(readResults, ReadablePrefix(readResults), modelPath, conf, totalFrames, engine)
  {
    if !captureOpened {
      return NotOpened, None;
    }
    if loadError.Some? {
      return LoadRaised(loadError.value), None;
    }
    var detector := new FaceDetector(modelPath);
    writer := None;
    if outputPath.Some? && outputPath.value != "" {
      var w := new VideoWriter(outputPath.value);
      writer := Some(w);
    }
    var frameCount := 0;
    while frameCount < |readResults|
      invariant 0 <= frameCount <= |readResults|
      invariant forall i :: 0 <= i < frameCount ==> readResults[i].Some?
      invariant writer.Some? ==> fresh(writer.value) && writer.value.path == outputPath.value
      invariant writer.Some? ==> writer.value.written == FrameLog(readResults, frameCount, modelPath, conf, totalFrames, engine)
      invariant writer.None? <==> (outputPath.None? || outputPath.value == "")
      decreases |readResults| - frameCount
    {
      var read := readResults[frameCount];
      if read.None? {
        break;
      }
      var detections := detector.DetectFaces(read.value, conf, engine);
      if writer.Some? {
        writer.value.Write(Annotated(read.value, detections, frameCount, totalFrames));
      }
      frameCount := frameCount + 1;
    }
    outcome := Processed(frameCount);
  }
}
