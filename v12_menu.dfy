/**
 * The console entry of the YOLOv12 module: the startup scan for weights
 * files, the model menu with its retry loop, and the webcam skip rule.
 * Console reads are a sequence of input lines; `Path.exists` is a parameter.
 */
module V12Menu {
  import opened Wrappers
  import opened Text

  /** The menu keys of `select_model_level` and the weights file each selects. */
  const MENU: map<string, string> := map[
    "1" := "yolov12n-face.pt",
    "2" := "yolov12s-face.pt",
    "3" := "yolov12m-face.pt",
    "4" := "yolov12l-face.pt"]

  /** `required_models` of the startup check. */
  const REQUIRED_MODELS: seq<string> := ["yolov12n-face.pt", "yolov12s-face.pt", "yolov12m-face.pt", "yolov12l-face.pt"]

  /**
   * The key an answer selects: the stripped answer, or "2" when it is blank.
   * The key is never blank and never padded.
   */
  function Choice(line: string): (key: string)
    ensures key != [] && !IsSpace(key[0]) && !IsSpace(key[|key| - 1])
  {
    StripTrims(line);
    var choice := Strip(line);
    if choice == "" then "2" else choice
  }

  /**
   * One pass of the menu loop: the weights path when the answer's key is on the menu
   * and its file exists under `scriptDir`, None when the menu asks again.
   */
  function Attempt(scriptDir: string, line: string, pathExists: string -> bool): (r: Option<string>)
    ensures r.Some? <==> Choice(line) in MENU && pathExists(JoinPath(scriptDir, MENU[Choice(line)]))
    ensures r.Some? ==> r.value == JoinPath(scriptDir, MENU[Choice(line)])
  {
    var choice := Choice(line);
    if choice in MENU then
      var modelPath := JoinPath(scriptDir, MENU[choice]);
      if pathExists(modelPath) then Some(modelPath) else None
    else None
  }

  /**
   * `select_model_level`: reads answers until one selects an existing
   * weights file. None when the input runs out first, where `input` raises
   * EOFError. `used` is the index of the accepted answer.
   */
  method SelectModelLevel(scriptDir: string, lines: seq<string>, pathExists: string -> bool)
    returns (path: Option<string>, used: nat)
    ensures path.None? <==> forall j :: 0 <= j < |lines| ==> Attempt(scriptDir, lines[j], pathExists).None?
    ensures path.Some? ==>
      && used < |lines| && path == Attempt(scriptDir, lines[used], pathExists)
      && forall j :: 0 <= j < used ==> Attempt(scriptDir, lines[j], pathExists).None?
  {
    var i := 0;
    while i < |lines|
      invariant 0 <= i <= |lines|
      invariant forall j :: 0 <= j < i ==> Attempt(scriptDir, lines[j], pathExists).None?
    {
      var accepted := Attempt(scriptDir, lines[i], pathExists);
      if accepted.Some? {
        return accepted, i;
      }
      i := i + 1;
    }
    return None, 0;
  }

  /** An all-whitespace answer gives the key "2"; an answer without surrounding whitespace is its own key. */
  lemma ChoiceOfBlankOrUnpadded(line: string)
    ensures (forall i :: 0 <= i < |line| ==> IsSpace(line[i])) ==> Choice(line) == "2"
    ensures line != [] && !IsSpace(line[0]) && !IsSpace(line[|line| - 1]) ==> Choice(line) == line
  {
    BlankOrUnpadded(line);
  }

  /** A blank or all-space answer selects the Small model. */
  lemma BlankSelectsSmall(scriptDir: string, line: string, pathExists: string -> bool)
    requires forall i :: 0 <= i < |line| ==> IsSpace(line[i])
    requires pathExists(JoinPath(scriptDir, "yolov12s-face.pt"))
    ensures Attempt(scriptDir, line, pathExists) == Some(JoinPath(scriptDir, "yolov12s-face.pt"))
  {
    AllSpaceStripsToEmpty(line);
    assert Choice(line) == "2";
    assert "2" in MENU && MENU["2"] == "yolov12s-face.pt";
  }

  /** An accepted path always names one of the four menu models. */
  lemma AcceptedIsMenuModel(scriptDir: string, line: string, pathExists: string -> bool)
    requires Attempt(scriptDir, line, pathExists).Some?
    ensures exists key :: key in MENU && Attempt(scriptDir, line, pathExists).value == JoinPath(scriptDir, MENU[key])
  {
    var key := Choice(line);
    assert key in MENU;
  }

  /** `skip_frames` for the webcam: 3 when the path mentions "l-face" or "m-face", else 1. */
  function SkipFor(modelPath: string): (skip: int)
    ensures skip == 1 || skip == 3
    ensures skip == 3 <==> Contains(modelPath, "l-face") || Contains(modelPath, "m-face")
  {
    var isHeavy := Contains(modelPath, "l-face") || Contains(modelPath, "m-face");
    if isHeavy then 3 else 1
  }

  lemma {:induction false} ContainsAt(s: string, k: nat, p: string)
    requires k <= |s| && StartsWith(s[k..], p)
    ensures Contains(s, p)
    decreases k
  {
    if k > 0 {
      assert s[1..][k - 1..] == s[k..];
      ContainsAt(s[1..], k - 1, p);
    }
  }

  lemma JoinedContains(dir: string, name: string, p: string)
    requires Contains(name, p)
    ensures Contains(JoinPath(dir, name), p)
  {
    if dir == "/" {
      ContainsInSuffix("/", name, p);
    } else if dir != "." {
      ContainsInSuffix(dir + "/", name, p);
      assert dir + "/" + name == (dir + "/") + name;
    }
  }

  /** The Medium and Large models skip to every third frame, wherever they live. */
  lemma HeavyModelsSkipThree(scriptDir: string)
    ensures SkipFor(JoinPath(scriptDir, "yolov12m-face.pt")) == 3
    ensures SkipFor(JoinPath(scriptDir, "yolov12l-face.pt")) == 3
  {
    assert "yolov12m-face.pt"[7..][..6] == "m-face";
    ContainsAt("yolov12m-face.pt", 7, "m-face");
    JoinedContains(scriptDir, "yolov12m-face.pt", "m-face");
    assert "yolov12l-face.pt"[7..][..6] == "l-face";
    ContainsAt("yolov12l-face.pt", 7, "l-face");
    JoinedContains(scriptDir, "yolov12l-face.pt", "l-face");
  }

  lemma {:induction false} NotContainsShort(s: string, p: string)
    requires |s| < |p|
    ensures !Contains(s, p)
    decreases |s|
  {
    if |s| > 0 {
      NotContainsShort(s[1..], p);
    }
  }

  lemma JoinedNotContains(dir: string, name: string, p: string)
    requires |p| > 1 && '/' !in p && |name| > 0 && name[0] !in p
    requires !Contains(dir, p) && !Contains(name, p)
    ensures !Contains(JoinPath(dir, name), p)
  {
    NotContainsShort("/", p);
    if dir == "/" {
      ContainsAcrossBoundary("/", name, p);
    } else if dir != "." {
      ContainsAcrossBoundary(dir, "/", p);
      ContainsAcrossBoundary(dir + "/", name, p);
      assert dir + "/" + name == (dir + "/") + name;
    }
  }

  /** "yolov12<c>-face.pt" contains neither heavy marker when `c` is not a marker's first letter. */
  lemma LightNameAvoids(c: char, p: string)
    requires p == "l-face" || p == "m-face"
    requires c != p[0] && c !in "-face"
    ensures !Contains("yolov12" + [c] + "-face" + ".pt", p)
  {
    StemAvoids(c, p);
    NotContainsShort(".pt", p);
    ContainsAcrossBoundary("yolov12" + ([c] + "-face"), ".pt", p);
    assert "yolov12" + ([c] + "-face") + ".pt" == "yolov12" + [c] + "-face" + ".pt";
  }

  lemma StemAvoids(c: char, p: string)
    requires p == "l-face" || p == "m-face"
    requires c != p[0] && c !in "-face"
    ensures !Contains("yolov12" + ([c] + "-face"), p)
  {
    PrefixAvoids(p);
    MarkedTailAvoids(c, p);
    ContainsAcrossBoundary("yolov12", [c] + "-face", p);
  }

  lemma PrefixAvoids(p: string)
    requires p == "l-face" || p == "m-face"
    ensures !Contains("yolov12", p)
  {
    NotContainsShort("yol", p);
    NotContainsShort("ov12", p);
    ContainsAcrossBoundary("yol", "ov12", p);
    assert "yol" + "ov12" == "yolov12";
  }

  lemma MarkedTailAvoids(c: char, p: string)
    requires p == "l-face" || p == "m-face"
    requires c != p[0]
    ensures !Contains([c] + "-face", p)
  {
    NotContainsShort("-face", p);
    assert ([c] + "-face")[1..] == "-face";
    assert ([c] + "-face")[..|p|][0] == c;
  }

  /** A light model's path avoids marker `p` when its directory does. */
  lemma LightPathAvoids(scriptDir: string, c: char, p: string)
    requires p == "l-face" || p == "m-face"
    requires c != p[0] && c !in "-face"
    requires !Contains(scriptDir, p)
    ensures !Contains(JoinPath(scriptDir, "yolov12" + [c] + "-face.pt"), p)
  {
    LightNameAvoids(c, p);
    assert "yolov12" + [c] + "-face" + ".pt" == "yolov12" + [c] + "-face.pt";
    JoinedNotContains(scriptDir, "yolov12" + [c] + "-face.pt", p);
  }

  /**
   * The Nano and Small models ("yolov12n-face.pt", "yolov12s-face.pt") run
   * detection on every frame, provided the directory path itself mentions
   * neither "l-face" nor "m-face".
   */
  lemma LightModelsSkipOne(scriptDir: string, size: char)
    requires size == 'n' || size == 's'
    requires !Contains(scriptDir, "l-face") && !Contains(scriptDir, "m-face")
    ensures SkipFor(JoinPath(scriptDir, "yolov12" + [size] + "-face.pt")) == 1
  {
    LightPathAvoids(scriptDir, size, "l-face");
    LightPathAvoids(scriptDir, size, "m-face");
  }

  /**
   * The test is on the whole path: in a directory whose path mentions a
   * marker, every model skips to every third frame, Nano and Small too.
   */
  lemma DirectoryNameCounts(dir: string, name: string)
    requires Contains(dir, "l-face") || Contains(dir, "m-face")
    ensures SkipFor(JoinPath(dir, name)) == 3
  {
    NotContainsShort(".", "l-face");
    NotContainsShort(".", "m-face");
    NotContainsShort("/", "l-face");
    NotContainsShort("/", "m-face");
    assert JoinPath(dir, name) == dir + ("/" + name);
    if Contains(dir, "l-face") {
      ContainsInPrefix(dir, "/" + name, "l-face");
    } else {
      ContainsInPrefix(dir, "/" + name, "m-face");
    }
  }

  /**
   * The startup scan: whether each required weights file exists, in order,
   * and `found_any`, which holds exactly when at least one does.
   */
  method ScanModels(scriptDir: string, pathExists: string -> bool) returns (present: seq<bool>, foundAny: bool)
    ensures |present| == |REQUIRED_MODELS|
    ensures forall i :: 0 <= i < |present| ==> present[i] == pathExists(JoinPath(scriptDir, REQUIRED_MODELS[i]))
    ensures foundAny <==> exists i :: 0 <= i < |REQUIRED_MODELS| && pathExists(JoinPath(scriptDir, REQUIRED_MODELS[i]))
  {
    present := [];
    foundAny := false;
    var i := 0;
    while i < |REQUIRED_MODELS|
      invariant 0 <= i <= |REQUIRED_MODELS| && |present| == i
      invariant forall j :: 0 <= j < i ==> present[j] == pathExists(JoinPath(scriptDir, REQUIRED_MODELS[j]))
      invariant foundAny <==> exists j :: 0 <= j < i && pathExists(JoinPath(scriptDir, REQUIRED_MODELS[j]))
    {
      var found := pathExists(JoinPath(scriptDir, REQUIRED_MODELS[i]));
      if found {
        foundAny := true;
      }
      present := present + [found];
      i := i + 1;
    }
  }
}
