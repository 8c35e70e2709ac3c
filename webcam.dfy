/**
 * `WebcamFaceDetectionGUI.update_frame` of both detector modules: detection
 * runs on every `skip_frames`-th displayed frame and the other frames reuse
 * the last detections. The tkinter window, the drawing and the FPS floats
 * are not modelled; the one-second timer is a boolean input per frame.
 */
module Webcam {
  import opened Wrappers
  import opened Detection

  /** Detection runs when the frame counter is a multiple of `skip_frames`. */
  predicate ShouldDetect(frameCount: int, skipFrames: int)
    requires skipFrames > 0
  {
    frameCount % skipFrames == 0
  }

  /**
   * The detections a skipped frame reuses: the cached list when it is truthy,
   * else the empty list. An empty cached list gives the empty list either way,
   * so only a missing cache matters.
   */
  function Reused(current: Option<seq<Record>>): (r: seq<Record>)
    ensures r == if current.Some? then current.value else []
  {
    if current.Some? && current.value != [] then current.value else []
  }

  /** The fields `update_frame` reads and writes to decide what to show. */
  datatype Schedule = Schedule(frameCount: int, current: Option<seq<Record>>)

  /** What one displayed frame shows, and whether detection ran for it. */
  datatype Shown = Shown(detections: seq<Record>, ran: bool)

  /** One displayed frame: what detection gives if it runs, and whether the one-second window elapsed. */
  datatype Tick = Tick(found: seq<Record>, rollover: bool)

  /**
   * One call of `update_frame` that read a frame: detect or reuse, then count
   * the frame, resetting the counter when the window rolls over.
   */
  function Step(s: Schedule, skipFrames: int, tick: Tick): (r: (Schedule, Shown))
    requires skipFrames > 0
    ensures r.1.ran <==> ShouldDetect(s.frameCount, skipFrames)
    ensures r.1.ran ==> r.0.current == Some(tick.found) && r.1.detections == tick.found
    ensures !r.1.ran ==> r.0.current == s.current && r.1.detections == Reused(s.current)
    ensures r.0.frameCount == if tick.rollover then 0 else s.frameCount + 1
  {
    var ran := ShouldDetect(s.frameCount, skipFrames);
    var shown := if ran then tick.found else Reused(s.current);
    var current := if ran then Some(tick.found) else s.current;
    var count := if tick.rollover then 0 else s.frameCount + 1;
    (Schedule(count, current), Shown(shown, ran))
  }

  /** The frames shown over a sequence of `update_frame` calls. */
  function Trace(s: Schedule, skipFrames: int, ticks: seq<Tick>): (t: seq<Shown>)
    requires skipFrames > 0
    ensures |t| == |ticks|
    ensures forall i :: 0 <= i < |t| && t[i].ran ==> t[i].detections == ticks[i].found
    decreases |ticks|
  {
    if ticks == [] then []
    else
      var (next, shown) := Step(s, skipFrames, ticks[0]);
      [shown] + Trace(next, skipFrames, ticks[1..])
  }

  /** What the last frame that ran detection found, or `initial` when none did. */
  function LastDetections(shown: seq<Shown>, initial: seq<Record>): seq<Record>
    decreases |shown|
  {
    if shown == [] then initial
    else if shown[|shown| - 1].ran then shown[|shown| - 1].detections
    else LastDetections(shown[..|shown| - 1], initial)
  }

  lemma {:induction false} LastDetectionsAppend(a: seq<Shown>, b: seq<Shown>, initial: seq<Record>)
    ensures LastDetections(a + b, initial) == LastDetections(b, LastDetections(a, initial))
    decreases |b|
  {
    if b == [] {
      assert a + b == a;
    } else {
      assert (a + b)[..|a + b| - 1] == a + b[..|b| - 1];
      LastDetectionsAppend(a, b[..|b| - 1], initial);
    }
  }

  /**
   * A frame that runs detection shows what detection found; every other
   * frame shows what the most recent detecting frame found, or what was
   * cached before the first call (`[]` when nothing was).
   */
  lemma {:induction false} ReuseShowsLastDetection(s: Schedule, skipFrames: int, ticks: seq<Tick>, i: nat)
    requires skipFrames > 0 && i < |ticks|
    ensures var t := Trace(s, skipFrames, ticks);
      && (t[i].ran ==> t[i].detections == ticks[i].found)
      && (!t[i].ran ==> t[i].detections == LastDetections(t[..i], Reused(s.current)))
    decreases i
  {
    var t := Trace(s, skipFrames, ticks);
    var (next, first) := Step(s, skipFrames, ticks[0]);
    assert t == [first] + Trace(next, skipFrames, ticks[1..]);
    if i > 0 {
      var rest := Trace(next, skipFrames, ticks[1..]);
      ReuseShowsLastDetection(next, skipFrames, ticks[1..], i - 1);
      assert t[i] == rest[i - 1];
      assert t[..i] == [first] + rest[..i - 1];
      LastDetectionsAppend([first], rest[..i - 1], Reused(s.current));
      assert Reused(next.current) == LastDetections([first], Reused(s.current)) by {
        assert [first][..0] == [];
      }
    }
  }

  /** The frame after the one-second window rolls over always runs detection. */
  lemma {:induction false} RolloverThenDetect(s: Schedule, skipFrames: int, ticks: seq<Tick>, i: nat)
    requires skipFrames > 0 && i + 1 < |ticks| && ticks[i].rollover
    ensures Trace(s, skipFrames, ticks)[i + 1].ran
    decreases i
  {
    var (next, first) := Step(s, skipFrames, ticks[0]);
    var rest := Trace(next, skipFrames, ticks[1..]);
    assert Trace(s, skipFrames, ticks) == [first] + rest;
    if i > 0 {
      RolloverThenDetect(next, skipFrames, ticks[1..], i - 1);
    } else {
      assert next.frameCount == 0;
      var (_, second) := Step(next, skipFrames, ticks[1]);
      assert rest == [second] + Trace(Step(next, skipFrames, ticks[1]).0, skipFrames, ticks[2..]);
    }
  }

  /**
   * While the window does not roll over, frame `i` runs detection exactly
   * when `frame_count + i` is a multiple of `skip_frames`.
   */
  lemma {:induction false} DetectsEverySkipFrames(s: Schedule, skipFrames: int, ticks: seq<Tick>, i: nat)
    requires skipFrames > 0 && i < |ticks|
    requires forall k :: 0 <= k < i ==> !ticks[k].rollover
    ensures Trace(s, skipFrames, ticks)[i].ran <==> ShouldDetect(s.frameCount + i, skipFrames)
    decreases i
  {
    var (next, first) := Step(s, skipFrames, ticks[0]);
    assert Trace(s, skipFrames, ticks) == [first] + Trace(next, skipFrames, ticks[1..]);
    if i > 0 {
      assert next.frameCount == s.frameCount + 1;
      forall k | 0 <= k < i - 1 ensures !ticks[1..][k].rollover {
        assert ticks[1..][k] == ticks[k + 1];
      }
      DetectsEverySkipFrames(next, skipFrames, ticks[1..], i - 1);
    }
  }

  /** The text of the YOLOv8 info label: model name, face count, first three confidences. */
  datatype InfoLine = InfoLine(model: string, faces: nat, confidences: seq<real>, truncated: bool)

  /**
   * `conf_str` from the first three detections, with "..." appended when there are
   * more than three detections. The percentage formatting is not modelled.
   */
  function Info(model: string, detections: seq<Record>): (line: InfoLine)
    ensures line.model == model && line.faces == |detections|
    ensures |line.confidences| == if |detections| < 3 then |detections| else 3
    ensures forall i :: 0 <= i < |line.confidences| ==> line.confidences[i] == detections[i].confidence
    ensures line.truncated <==> |detections| > 3
  {
    var shown := if |detections| < 3 then detections else detections[..3];
    InfoLine(model, |detections|, seq(|shown|, i requires 0 <= i < |shown| => shown[i].confidence), |detections| > 3)
  }

  /**
   * `WebcamFaceDetectionGUI` of either module. `updatesInfo` is set for the
   * YOLOv8 window, whose `update_frame` also refreshes the info label.
   */
  class WebcamGui {
    const detector: FaceDetector
    const confThreshold: real
    const skipFrames: int
    const inferenceWidth: int
    /** The file name of the detector's weights path without its suffix. */
    const modelName: string
    const updatesInfo: bool
    var running: bool
    var frameCount: int
    var detectionCount: int
    var currentDetections: Option<seq<Record>>
    var infoLine: Option<InfoLine>

    ghost predicate Valid()
      reads this
    {
      skipFrames > 0 && frameCount >= 0 && detectionCount >= 0
    }

    function State(): Schedule
      reads this
    {
      Schedule(frameCount, currentDetections)
    }

    /**
     * The counters start at zero with nothing cached; the window runs only
     * when the camera opened, and then the constructor ends with a first
     * `update_frame` on `firstFrame`, the result of the first read. With a
     * count of zero that call always runs detection. `stem` is the foreign
     * `Path.stem`, applied to the weights path the detector was built from.
     */
    constructor (detector: FaceDetector, confThreshold: real, skipFrames: int, inferenceWidth: int,
                 stem: string -> string, updatesInfo: bool, cameraOpened: bool,
                 firstFrame: Option<Frame>, engine: Engine, rollover: bool, detectionRollover: bool)
      requires skipFrames > 0
      ensures Valid()
      ensures this.detector == detector && this.confThreshold == confThreshold
      ensures this.skipFrames == skipFrames && this.inferenceWidth == inferenceWidth
      ensures this.modelName == stem(detector.weights) && this.updatesInfo == updatesInfo
      ensures running == cameraOpened
      ensures !cameraOpened || firstFrame.None? ==>
        State() == Schedule(0, None) && detectionCount == 0 && infoLine == None
      ensures cameraOpened && firstFrame.Some? ==>
        var found := OptimizedRecords(detector.weights, firstFrame.value, confThreshold, inferenceWidth, engine);
        && State() == Schedule(if rollover then 0 else 1, Some(found))
        && detectionCount == (if detectionRollover then 0 else 1)
        && infoLine == (if updatesInfo && frameCount % 30 == 0 then Some(Info(stem(detector.weights), found)) else None)
    {
      this.detector := detector;
      this.confThreshold := confThreshold;
      this.skipFrames := skipFrames;
      this.inferenceWidth := inferenceWidth;
      this.modelName := stem(detector.weights);
      this.updatesInfo := updatesInfo;
      running := cameraOpened;
      frameCount := 0;
      detectionCount := 0;
      currentDetections := None;
      infoLine := None;
      new;
      if cameraOpened {
        var _ := UpdateFrame(firstFrame, engine, rollover, detectionRollover);
      }
    }

    /**
     * `update_frame` for the result of `self.cap.read()`: None when the GUI
     * is stopped or the read failed, in which case nothing changes and the
     * callback is not re-armed. `rollover` and `detectionRollover` say
     * whether a second has passed since `last_time` and `last_detection_time`.
     */
    method UpdateFrame(frame: Option<Frame>, engine: Engine, rollover: bool, detectionRollover: bool)
      returns (shown: Option<seq<Record>>)
      requires Valid()
      modifies this
      ensures Valid()
      ensures !old(running) || frame.None? ==> shown.None? && unchanged(this)
      ensures old(running) && frame.Some? ==>
        var found := OptimizedRecords(detector.weights, frame.value, confThreshold, inferenceWidth, engine);
        var (next, out) := Step(old(State()), skipFrames, Tick(found, rollover));
        && shown == Some(out.detections)
        && State() == next
        && running == old(running)
        && detectionCount == (if !out.ran then old(detectionCount) else if detectionRollover then 0 else old(detectionCount) + 1)
        && infoLine == (if updatesInfo && frameCount % 30 == 0 then Some(Info(modelName, out.detections)) else old(infoLine))
    {
      if !running || frame.None? {
        return None;
      }
      var detections: seq<Record>;
      if frameCount % skipFrames == 0 {
        detections := detector.DetectFacesOptimized(frame.value, confThreshold, inferenceWidth, engine);
        currentDetections := Some(detections);
        detectionCount := detectionCount + 1;
        if detectionRollover {
          detectionCount := 0;
        }
      } else {
        detections := if currentDetections.Some? && currentDetections.value != [] then currentDetections.value else [];
      }
      frameCount := frameCount + 1;
      if rollover {
        frameCount := 0;
      }
      if updatesInfo && frameCount % 30 == 0 {
        infoLine := Some(Info(modelName, detections));
      }
      shown := Some(detections);
    }
  }
}
