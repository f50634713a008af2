/**
 * Session numbering over the training output tree: "model N" directories
 * under the base directory, "session_<date>_<time>_<uid>_<N.NN>"
 * directories inside each, and a "models" directory of checkpoints inside
 * each session. The tree is a value passed in; directory creation, the
 * metadata file and the script copies are left out, and only the names
 * computed and the errors raised are kept.
 */
module SessionManager {
  import opened Wrappers
  import opened Builtins

  /** A directory entry: a file, or a directory with its entries in listing order. */
  datatype Node = File(ctime: real) | Dir(ctime: real, entries: seq<(string, Node)>)

  type Listing = seq<(string, Node)>

  /** A path relative to the base sessions directory, one name per component. */
  type Path = seq<string>

  /** The entry called `name`, if any. */
  function Lookup(l: Listing, name: string): (r: Option<Node>)
    ensures r.Some? ==> (name, r.value) in l
    ensures r.None? ==> forall i :: 0 <= i < |l| ==> l[i].0 != name
  {
    if |l| == 0 then None
    else if l[0].0 == name then Some(l[0].1)
    else
      assert l == [l[0]] + l[1..];
      Lookup(l[1..], name)
  }

  /** The entries of a directory; a missing path or a file lists nothing. */
  function Children(n: Option<Node>): Listing {
    if n.Some? && n.value.Dir? then n.value.entries else []
  }

  predicate IsDir(n: Option<Node>) {
    n.Some? && n.value.Dir?
  }

  /** `[d for d in dir.iterdir() if d.is_dir() and d.name.startswith(prefix)]`, as names. */
  function DirsWithPrefix(l: Listing, prefix: string): (names: seq<string>)
    ensures |names| <= |l|
    ensures forall i :: 0 <= i < |names| ==> StartsWith(names[i], prefix)
  {
    if |l| == 0 then []
    else
      var head := if l[0].1.Dir? && StartsWith(l[0].0, prefix) then [l[0].0] else [];
      head + DirsWithPrefix(l[1..], prefix)
  }

  /** A name is kept exactly when some directory entry of that name has the prefix. */
  lemma {:induction false} DirsWithPrefixSpec(l: Listing, prefix: string, name: string)
    ensures name in DirsWithPrefix(l, prefix)
      <==> StartsWith(name, prefix) && exists i :: 0 <= i < |l| && l[i].0 == name && l[i].1.Dir?
  {
    if |l| > 0 {
      DirsWithPrefixSpec(l[1..], prefix, name);
      if StartsWith(name, prefix) && (exists i :: 0 <= i < |l[1..]| && l[1..][i].0 == name && l[1..][i].1.Dir?) {
        var i :| 0 <= i < |l[1..]| && l[1..][i].0 == name && l[1..][i].1.Dir?;
        assert l[i + 1] == l[1..][i];
      }
      if exists i :: 0 < i < |l| && l[i].0 == name && l[i].1.Dir? {
        var i :| 0 < i < |l| && l[i].0 == name && l[i].1.Dir?;
        assert l[1..][i - 1] == l[i];
      }
    }
  }

  // ---------------------------------------------------------------------
  // Picking the latest entry

  /** Position i holds a largest key, and every key before it is strictly smaller. */
  predicate FirstMaxAt(keys: seq<real>, i: int) {
    && 0 <= i < |keys|
    && (forall j :: 0 <= j < |keys| ==> keys[j] <= keys[i])
    && (forall j :: 0 <= j < i ==> keys[j] < keys[i])
  }

  /**
   * The first element of a stable sort by key with reverse=True: equal keys
   * keep their listing order, so it is the first position of the largest key.
   */
  function FirstMax(keys: seq<real>): (i: nat)
    requires |keys| > 0
    ensures FirstMaxAt(keys, i)
  {
    if |keys| == 1 then 0
    else
      var j := 1 + FirstMax(keys[1..]);
      assert forall k :: 1 <= k < |keys| ==> keys[k] == keys[1..][k - 1];
      if keys[0] >= keys[j] then 0 else j
  }

  /** Model numbers: int(name.split(' ')[1]); None stands for the IndexError or ValueError. */
  function ModelNumber(name: string): Option<int> {
    var parts := Split(name, ' ');
    if |parts| < 2 then None else ParseInt(parts[1])
  }

  /** The sort keys of all names, or None when one of them raises. */
  function ModelNumbers(names: seq<string>): (r: Option<seq<int>>)
    ensures r.Some? ==> |r.value| == |names|
    ensures r.Some? ==> forall i :: 0 <= i < |names| ==> ModelNumber(names[i]) == Some(r.value[i])
    ensures r.None? ==> exists i :: 0 <= i < |names| && ModelNumber(names[i]).None?
  {
    if |names| == 0 then Some([])
    else match (ModelNumber(names[0]), ModelNumbers(names[1..]))
      case (Some(k), Some(ks)) =>
        assert forall i :: 1 <= i < |names| ==> names[i] == names[1..][i - 1];
        Some([k] + ks)
      case (None, _) => None
      case (_, None) =>
        assert forall i :: 0 <= i < |names[1..]| ==> names[1..][i] == names[i + 1];
        None
  }

  function AsReals(ks: seq<int>): (rs: seq<real>)
    ensures |rs| == |ks| && forall i :: 0 <= i < |ks| ==> rs[i] == ks[i] as real
  {
    if |ks| == 0 then [] else [ks[0] as real] + AsReals(ks[1..])
  }

  /**
   * The latest of the given "model N" directory names: the largest N, the
   * first listed among equals; None when there is none. The sort computes
   * every key first, so one name whose N does not parse raises ValueError.
   */
  function LatestModelName(names: seq<string>): Result<Option<string>> {
    if |names| == 0 then Ok(None)
    else match ModelNumbers(names)
      case None => Err(ValueError("invalid literal for int() with base 10"))
      case Some(ks) => Ok(Some(names[FirstMax(AsReals(ks))]))
  }

  /** get_latest_model_dir over the base directory's listing. */
  function GetLatestModelDir(base: Listing): Result<Option<string>> {
    LatestModelName(DirsWithPrefix(base, "model "))
  }

  /** The latest model directory has the largest model number; None exactly when there is no model directory. */
  lemma LatestModelDirSpec(names: seq<string>)
    ensures var r := LatestModelName(names);
      && (r == Ok(None) <==> |names| == 0)
      && (r.Err? <==> |names| > 0 && exists i :: 0 <= i < |names| && ModelNumber(names[i]).None?)
      && (r.Ok? && r.value.Some? ==>
            ModelNumbers(names).Some?
            && exists i :: FirstMaxAt(AsReals(ModelNumbers(names).value), i) && names[i] == r.value.value)
  {
    var ms := ModelNumbers(names);
    if |names| > 0 && ms.Some? {
      var i := FirstMax(AsReals(ms.value));
      assert FirstMaxAt(AsReals(ms.value), i);
    }
  }

  /** One past the largest of the given model numbers, or 1 when there is none. */
  function NextModelNumberOf(names: seq<string>): Result<int> {
    if |names| == 0 then Ok(1)
    else match ModelNumbers(names)
      case None => Err(ValueError("invalid literal for int() with base 10"))
      case Some(ks) => Ok(ks[FirstMax(AsReals(ks))] + 1)
  }

  /** get_next_model_number over the base directory's listing. */
  function GetNextModelNumber(base: Listing): Result<int> {
    NextModelNumberOf(DirsWithPrefix(base, "model "))
  }

  /** The next model number is 1 with no model directory, else above every existing model number. */
  lemma NextModelNumberAbove(names: seq<string>)
    ensures var r := NextModelNumberOf(names);
      && (|names| == 0 ==> r == Ok(1))
      && (r.Ok? ==> forall i :: 0 <= i < |names| ==>
            ModelNumber(names[i]).Some? && ModelNumber(names[i]).value < r.value)
  {
    var r := NextModelNumberOf(names);
    if r.Ok? && |names| > 0 {
      var ks := ModelNumbers(names).value;
      var i := FirstMax(AsReals(ks));
      assert r.value == ks[i] + 1;
      forall j | 0 <= j < |names|
        ensures ModelNumber(names[j]).Some? && ModelNumber(names[j]).value < r.value
      {
        assert AsReals(ks)[j] <= AsReals(ks)[i];
      }
    }
  }

  /** Past the first model, the next model number is one past an existing one. */
  lemma NextModelNumberFromExisting(names: seq<string>)
    ensures var r := NextModelNumberOf(names);
      r.Ok? && |names| > 0 ==> exists i :: 0 <= i < |names| && ModelNumber(names[i]) == Some(r.value - 1)
  {
    var r := NextModelNumberOf(names);
    if r.Ok? && |names| > 0 {
      var ks := ModelNumbers(names).value;
      var i := FirstMax(AsReals(ks));
      assert r.value == ks[i] + 1;
      assert ModelNumber(names[i]) == Some(ks[i]);
    }
  }

  /** get_next_model_number and get_latest_model_dir fail together, and the next number is one past the latest directory's. */
  lemma NextModelNumberFollowsLatest(names: seq<string>)
    ensures var r := NextModelNumberOf(names);
      var latest := LatestModelName(names);
      && (r.Err? <==> latest.Err?)
      && (latest.Ok? && latest.value.Some? ==>
            ModelNumber(latest.value.value).Some? && r == Ok(ModelNumber(latest.value.value).value + 1))
  {
    var latest := LatestModelName(names);
    if latest.Ok? && latest.value.Some? {
      var ks := ModelNumbers(names).value;
      var i := FirstMax(AsReals(ks));
      assert latest.value.value == names[i];
      assert ModelNumber(names[i]) == Some(ks[i]);
      assert NextModelNumberOf(names) == Ok(ks[i] + 1);
    }
  }

  /** float(name.split('_')[-1]); None stands for the ValueError. */
  function TrailingNumber(name: string): Option<real> {
    ParseDecimal(LastField(name, '_'))
  }

  /** The sort key of a session: its trailing number, or 0 when that raises. */
  function SessionKey(name: string): real {
    match TrailingNumber(name)
    case Some(v) => v
    case None => 0.0
  }

  function SessionKeys(names: seq<string>): (ks: seq<real>)
    ensures |ks| == |names| && forall i :: 0 <= i < |names| ==> ks[i] == SessionKey(names[i])
  {
    if |names| == 0 then [] else [SessionKey(names[0])] + SessionKeys(names[1..])
  }

  /** get_latest_session_dir: the "session_" directory with the largest trailing number, first listed among equals. */
  function GetLatestSessionDir(l: Listing): Option<string> {
    var names := DirsWithPrefix(l, "session_");
    if |names| == 0 then None else Some(names[FirstMax(SessionKeys(names))])
  }

  /** The latest session has the largest key; there is one exactly when a session directory exists. */
  lemma LatestSessionDirSpec(l: Listing)
    ensures var names := DirsWithPrefix(l, "session_");
      var r := GetLatestSessionDir(l);
      && (r.None? <==> |names| == 0)
      && (r.Some? ==> exists i :: FirstMaxAt(SessionKeys(names), i) && names[i] == r.value)
  {
    var names := DirsWithPrefix(l, "session_");
    if |names| > 0 {
      var i := FirstMax(SessionKeys(names));
      assert FirstMaxAt(SessionKeys(names), i);
    }
  }

  /** The checkpoint glob zelda_model_*.zip: the prefix, anything, then the suffix. */
  predicate IsCheckpointName(name: string) {
    |name| >= 16 && StartsWith(name, "zelda_model_") && name[|name| - 4..] == ".zip"
  }

  /** The entries the glob matches, files and directories alike, with their creation times. */
  function Checkpoints(l: Listing): (cs: seq<(string, real)>)
    ensures |cs| <= |l|
    ensures forall i :: 0 <= i < |cs| ==> IsCheckpointName(cs[i].0)
  {
    if |l| == 0 then []
    else (if IsCheckpointName(l[0].0) then [(l[0].0, l[0].1.ctime)] else []) + Checkpoints(l[1..])
  }

  /** The glob keeps exactly the matching entries of the listing, each with its own creation time. */
  lemma {:induction false} CheckpointsSpec(l: Listing, name: string, t: real)
    ensures (name, t) in Checkpoints(l)
      <==> IsCheckpointName(name) && exists k :: 0 <= k < |l| && l[k].0 == name && l[k].1.ctime == t
  {
    if |l| > 0 {
      CheckpointsSpec(l[1..], name, t);
      if IsCheckpointName(name) && exists k :: 0 <= k < |l| && l[k].0 == name && l[k].1.ctime == t {
        var k :| 0 <= k < |l| && l[k].0 == name && l[k].1.ctime == t;
        if k > 0 {
          assert l[1..][k - 1] == l[k];
        }
      }
      if (name, t) in Checkpoints(l[1..]) {
        var k :| 0 <= k < |l[1..]| && l[1..][k].0 == name && l[1..][k].1.ctime == t;
        assert l[k + 1] == l[1..][k];
      }
    }
  }

  function Ctimes(cs: seq<(string, real)>): (ts: seq<real>)
    ensures |ts| == |cs| && forall i :: 0 <= i < |cs| ==> ts[i] == cs[i].1
  {
    if |cs| == 0 then [] else [cs[0].1] + Ctimes(cs[1..])
  }

  /**
   * get_latest_model_file, as a name inside the models directory:
   * final_model.zip when it exists, else the newest checkpoint by creation
   * time (first listed among equals), else None.
   */
  function GetLatestModelFile(models: Option<Node>): Option<string> {
    var l := Children(models);
    if IsDir(models) && Lookup(l, "final_model.zip").Some? then Some("final_model.zip")
    else
      var cs := Checkpoints(l);
      if |cs| == 0 then None else Some(cs[FirstMax(Ctimes(cs))].0)
  }

  /** final_model.zip wins whenever it exists; otherwise the newest checkpoint, and None only when there is none. */
  lemma LatestModelFileSpec(models: Option<Node>)
    ensures var l := Children(models);
      var r := GetLatestModelFile(models);
      var cs := Checkpoints(l);
      && (Lookup(l, "final_model.zip").Some? ==> r == Some("final_model.zip"))
      && (Lookup(l, "final_model.zip").None? ==>
            && (r.None? <==> |cs| == 0)
            && (r.Some? ==>
                  && IsCheckpointName(r.value)
                  && exists i :: FirstMaxAt(Ctimes(cs), i) && cs[i].0 == r.value))
  {
    var l := Children(models);
    var cs := Checkpoints(l);
    if Lookup(l, "final_model.zip").None? && |cs| > 0 {
      var i := FirstMax(Ctimes(cs));
      assert FirstMaxAt(Ctimes(cs), i);
    }
  }

  /**
   * get_latest_session_and_model: the latest session of the latest model
   * directory, with its latest model file; FileNotFoundError when either
   * is missing.
   */
  function GetLatestSessionAndModel(base: Listing): Result<(Path, Option<Path>)> {
    match GetLatestModelDir(base)
    case Err(e) => Err(e)
    case Ok(None) => Err(FileNotFoundError("No model directories found."))
    case Ok(Some(md)) =>
      match GetLatestSessionDir(Children(Lookup(base, md)))
      case None => Err(FileNotFoundError("No session directories found in latest model dir."))
      case Some(sd) => Ok(([md, sd], ModelFilePath(base, md, sd)))
  }

  /** The latest model file of session `sd` of model directory `md`, as a path. */
  function ModelFilePath(base: Listing, md: string, sd: string): Option<Path> {
    var models := Lookup(Children(Lookup(Children(Lookup(base, md)), sd)), "models");
    match GetLatestModelFile(models)
    case None => None
    case Some(f) => Some([md, sd, "models", f])
  }

  /** Both lookups must succeed; there is no fallback to an older model or session. */
  lemma LatestSessionAndModelSpec(base: Listing)
    ensures var r := GetLatestSessionAndModel(base);
      && (GetLatestModelDir(base) == Ok(None) ==> r == Err(FileNotFoundError("No model directories found.")))
      && (r.Ok? <==>
            && GetLatestModelDir(base).Ok? && GetLatestModelDir(base).value.Some?
            && GetLatestSessionDir(Children(Lookup(base, GetLatestModelDir(base).value.value))).Some?)
      && (r.Ok? ==> r.value.0 == [GetLatestModelDir(base).value.value,
            GetLatestSessionDir(Children(Lookup(base, GetLatestModelDir(base).value.value))).value])
  {
  }

  // ---------------------------------------------------------------------
  // Session numbers

  /** The loop's running maximum: start from `start`, raise it to each parsable trailing number in turn. */
  function MaxParsed(names: seq<string>, start: real): real {
    if |names| == 0 then start
    else
      var m := MaxParsed(names[..|names| - 1], start);
      match TrailingNumber(names[|names| - 1])
      case Some(num) => if num > m then num else m
      case None => m
  }

  /** The running maximum bounds the start and every parsable number, and is one of them. */
  lemma {:induction false} MaxParsedSpec(names: seq<string>, start: real)
    ensures var m := MaxParsed(names, start);
      && start <= m
      && (forall i :: 0 <= i < |names| && TrailingNumber(names[i]).Some? ==>
            TrailingNumber(names[i]).value <= m)
      && (m == start || exists i :: 0 <= i < |names| && TrailingNumber(names[i]) == Some(m))
  {
    if |names| > 0 {
      var init := names[..|names| - 1];
      MaxParsedSpec(init, start);
      assert forall i :: 0 <= i < |init| ==> init[i] == names[i];
    }
  }

  /** Python's round(x) to an integer: to the nearest, ties to the even neighbour. */
  function RoundHalfEven(x: real): (r: int)
    ensures x - 0.5 <= r as real <= x + 0.5
    ensures r as real - x == 0.5 || x - r as real == 0.5 ==> r % 2 == 0
  {
    var f := x.Floor;
    var d := x - f as real;
    if d < 0.5 then f else if d > 0.5 then f + 1 else if f % 2 == 0 then f else f + 1
  }

  /** The model number the session numbering starts from: parsed from the name, 1 when that raises. */
  function BaseModelNumber(modelDirName: string): int {
    match ModelNumber(modelDirName)
    case Some(n) => n
    case None => 1
  }

  /**
   * get_next_session_number, in hundredths: N.00 when the model directory
   * holds no session, else round(max + 0.01, 2) where max is the largest of
   * N.00 and the parsable trailing numbers.
   */
  function NextSessionHundredths(modelDirName: string, l: Listing): int {
    var start := BaseModelNumber(modelDirName) as real;
    var names := DirsWithPrefix(l, "session_");
    if |names| == 0 then BaseModelNumber(modelDirName) * 100
    else RoundHalfEven((MaxParsed(names, start) + 0.01) * 100.0)
  }

  /** get_next_session_number's loop: the running maximum of `start` and the parsable trailing numbers. */
  method MaxSessionNumber(names: seq<string>, start: real) returns (maxNum: real)
    ensures maxNum == MaxParsed(names, start)
  {
    maxNum := start;
    var i := 0;
    while i < |names|
      invariant 0 <= i <= |names|
      invariant maxNum == MaxParsed(names[..i], start)
    {
      assert names[..i + 1][..i] == names[..i];
      assert names[..i + 1][i] == names[i];
      match TrailingNumber(names[i]) {
        case Some(num) =>
          if num > maxNum {
            maxNum := num;
          }
        case None =>
      }
      i := i + 1;
    }
    assert names[..|names|] == names;
  }

  /** get_next_session_number over a model directory's listing, in hundredths. */
  method GetNextSessionNumber(modelDirName: string, l: Listing) returns (h: int)
    ensures h == NextSessionHundredths(modelDirName, l)
  {
    var modelNumber := BaseModelNumber(modelDirName);
    var names := DirsWithPrefix(l, "session_");
    if |names| == 0 {
      return modelNumber * 100;
    }
    var maxNum := MaxSessionNumber(names, modelNumber as real);
    h := RoundHalfEven((maxNum + 0.01) * 100.0);
  }

  /**
   * With no session the number is N.00; otherwise it is strictly above
   * N.00 and every parsable existing number, and at most 0.015 above the
   * largest of them.
   */
  lemma NextSessionAbove(modelDirName: string, l: Listing)
    ensures var h := NextSessionHundredths(modelDirName, l);
      var n := BaseModelNumber(modelDirName);
      var names := DirsWithPrefix(l, "session_");
      && (|names| == 0 ==> h == n * 100)
      && (|names| > 0 ==>
            && h > n * 100
            && (forall i :: 0 <= i < |names| && TrailingNumber(names[i]).Some? ==>
                  TrailingNumber(names[i]).value * 100.0 < h as real)
            && h as real <= MaxParsed(names, n as real) * 100.0 + 1.5)
  {
    var names := DirsWithPrefix(l, "session_");
    var n := BaseModelNumber(modelDirName);
    MaxParsedSpec(names, n as real);
  }

  /** The session directory name: session_<timestamp>_<uid>_<number with two decimals>. */
  function SessionName(timestamp: string, uid: string, h: int): string {
    "session_" + timestamp + "_" + uid + "_" + FormatHundredths(h)
  }

  /** The number written into a session name is the one its sort key and the numbering read back. */
  lemma SessionNameRoundTrip(timestamp: string, uid: string, h: int)
    ensures StartsWith(SessionName(timestamp, uid, h), "session_")
    ensures LastField(SessionName(timestamp, uid, h), '_') == FormatHundredths(h)
    ensures TrailingNumber(SessionName(timestamp, uid, h)) == Some(h as real / 100.0)
    ensures SessionKey(SessionName(timestamp, uid, h)) == h as real / 100.0
  {
    var head := "session_" + timestamp + "_" + uid;
    FormatHundredthsRoundTrip(h);
    assert SessionName(timestamp, uid, h) == head + ['_'] + FormatHundredths(h);
    SplitJoinLast(head, '_', FormatHundredths(h));
  }

  /** A session directory entry named with hundredths h. */
  function SessionEntry(timestamp: string, uid: string, h: int): (string, Node) {
    (SessionName(timestamp, uid, h), Dir(0.0, []))
  }

  /** Sessions 7.00, 7.03 and 7.07 in model 7 give 7.08 next, whatever their timestamps and ids. */
  lemma NextSessionExample(t: string, u: string)
    ensures NextSessionHundredths("model 7",
      [SessionEntry(t, u, 700), SessionEntry(t, u, 703), SessionEntry(t, u, 707)]) == 708
  {
    var l := [SessionEntry(t, u, 700), SessionEntry(t, u, 703), SessionEntry(t, u, 707)];
    var names := [l[0].0, l[1].0, l[2].0];
    SessionNameRoundTrip(t, u, 700);
    SessionNameRoundTrip(t, u, 703);
    SessionNameRoundTrip(t, u, 707);
    assert DirsWithPrefix(l[2..][1..], "session_") == [];
    assert DirsWithPrefix(l[2..], "session_") == [l[2].0];
    assert DirsWithPrefix(l[1..], "session_") == [l[1].0, l[2].0];
    assert DirsWithPrefix(l, "session_") == names;
    ModelSeven();
    var m := MaxParsed(names, 7.0);
    assert m == 7.07 by {
      assert names[..2][..1] == names[..1] && names[..1][..0] == [];
      assert names[..3] == names;
      assert MaxParsed(names[..1], 7.0) == 7.0;
      assert MaxParsed(names[..2], 7.0) == 7.03;
    }
    RoundExample();
  }

  lemma ModelSeven()
    ensures BaseModelNumber("model 7") == 7
  {
    assert "model 7" == "model" + [' '] + "7";
    SplitJoinTwo("model", ' ', "7");
    assert ParseInt("7") == Some(7);
  }

  lemma RoundExample()
    ensures RoundHalfEven((7.07 + 0.01) * 100.0) == 708
  {
    assert (7.07 + 0.01) * 100.0 == 708.0;
    assert (708.0).Floor == 708;
  }

  /** The model number of the directory name "model N" is N. */
  lemma ModelNumberOf(n: int)
    ensures ModelNumber("model " + IntToString(n)) == Some(n)
    ensures BaseModelNumber("model " + IntToString(n)) == n
  {
    NoSpaceInInt(n);
    assert "model " + IntToString(n) == "model" + [' '] + IntToString(n);
    SplitJoinTwo("model", ' ', IntToString(n));
    IntToStringRoundTrip(n);
  }

  // ---------------------------------------------------------------------
  // Simulated game time

  /** Python's x % d for d > 0: the remainder after floor division. */
  function FloorMod(x: real, d: real): real
    requires d > 0.0
  {
    x - d * (x / d).Floor as real
  }

  /** Python's int(x) on a float: truncation toward zero. */
  function Trunc(x: real): int {
    if x >= 0.0 then x.Floor else -((-x).Floor)
  }

  /** (hours, minutes, secs) as calculate_simulated_game_time computes them from `seconds`. */
  function Clock(seconds: real): (int, int, int) {
    ((seconds / 3600.0).Floor, (FloorMod(seconds, 3600.0) / 60.0).Floor, Trunc(FloorMod(seconds, 60.0)))
  }

  /** Minutes and seconds are below 60 and the three add back up to the whole seconds. */
  lemma ClockSpec(seconds: real)
    ensures var (h, m, s) := Clock(seconds);
      && 0 <= m < 60 && 0 <= s < 60
      && h * 3600 + m * 60 + s == seconds.Floor
  {
    var (h, m, s) := Clock(seconds);
    var r := FloorMod(seconds, 3600.0);
    assert r == seconds - 3600.0 * h as real && 0.0 <= r < 3600.0;
    assert 0.0 <= FloorMod(seconds, 60.0) < 60.0;
    var q := (seconds / 60.0).Floor;
    FloorSplit(seconds, h, r, m, q);
    assert s == (seconds - 60.0 * q as real).Floor;
    FloorShift(seconds, 60 * q);
  }

  /** Floor division by 60 of the remainder after whole hours lines up with floor division of the total. */
  lemma FloorSplit(seconds: real, h: int, r: real, m: int, q: int)
    requires r == seconds - 3600.0 * h as real && 0.0 <= r < 3600.0
    requires m == (r / 60.0).Floor && q == (seconds / 60.0).Floor
    ensures q == 60 * h + m && 0 <= m < 60
  {
    assert m as real <= r / 60.0 < m as real + 1.0;
    assert q as real <= seconds / 60.0 < q as real + 1.0;
    assert seconds / 60.0 == r / 60.0 + 60.0 * h as real;
  }

  lemma FloorShift(x: real, k: int)
    ensures (x - k as real).Floor == x.Floor - k
  {
  }

  datatype SimulatedTime = SimulatedTime(seconds: real, formatted: string)

  /** calculate_simulated_game_time at the default 60 frames per second. */
  function CalculateSimulatedGameTime(totalTimesteps: int, frameskip: int): (t: SimulatedTime)
    ensures t.seconds * 60.0 == (totalTimesteps * frameskip) as real
    ensures var (h, m, s) := Clock(t.seconds);
      && t.formatted == IntToString(h) + "h " + IntToString(m) + "m " + IntToString(s) + "s"
      && 0 <= m < 60 && 0 <= s < 60
      && h * 3600 + m * 60 + s == t.seconds.Floor
  {
    var seconds := (totalTimesteps * frameskip) as real / 60.0;
    var (h, m, s) := Clock(seconds);
    ClockSpec(seconds);
    SimulatedTime(seconds, IntToString(h) + "h " + IntToString(m) + "m " + IntToString(s) + "s")
  }

  // ---------------------------------------------------------------------
  // Creating sessions

  datatype Config = Config(episodeLength: int, episodeCount: int, numEnvs: int, frameskip: int,
                           saveVideo: bool, headless: bool)

  /** What a new session amounts to: its directory, the model to load, the video directory and the metadata. */
  datatype NewSession = NewSession(sessionDir: Path, modelPath: Option<Path>, videoDir: Option<Path>,
                                   sessionId: string, totalTimesteps: int, simulatedTime: SimulatedTime)

  /**
   * The part both creators share: number the session inside `modelDir`,
   * name it, and describe it. mkdir(exist_ok=True) fails only when a file
   * already has the name.
   */
  function NewSessionIn(base: Listing, modelDir: string, modelPath: Option<Path>, cfg: Config,
                        timestamp: string, uid: string): Result<NewSession>
  {
    var inModel := Children(Lookup(base, modelDir));
    var name := SessionName(timestamp, uid, NextSessionHundredths(modelDir, inModel));
    var existing := Lookup(inModel, name);
    if existing.Some? && existing.value.File? then Err(FileExistsError("File exists: " + name))
    else
      var total := cfg.episodeLength * cfg.episodeCount * cfg.numEnvs;
      Ok(NewSession([modelDir, name], modelPath,
                    if cfg.saveVideo && cfg.headless then Some([modelDir, name, "videos"]) else None,
                    name, total, CalculateSimulatedGameTime(total, cfg.frameskip)))
  }

  /** The latest model file of the model directory named by `n`. */
  function LatestModelFileOfNumber(base: Listing, n: int): Option<Path> {
    var md := "model " + IntToString(n);
    var dir := Lookup(base, md);
    if !IsDir(dir) then None
    else match GetLatestSessionDir(Children(dir))
      case None => None
      case Some(sd) => ModelFilePath(base, md, sd)
  }

  /** get_latest_model_file_from_model_number: int() of the argument, then the lookups; None when any is missing. */
  function GetLatestModelFileFromModelNumber(base: Listing, modelNumber: string): Result<Option<Path>> {
    match ParseInt(modelNumber)
    case None => Err(ValueError("invalid literal for int() with base 10"))
    case Some(n) => Ok(LatestModelFileOfNumber(base, n))
  }

  /**
   * Only a number int() rejects raises; a missing model directory or
   * session gives None; a found file lies under the latest session of
   * that model's directory, in its models folder.
   */
  lemma LatestModelFileFromNumberSpec(base: Listing, modelNumber: string)
    ensures var r := GetLatestModelFileFromModelNumber(base, modelNumber);
      && (r.Err? <==> ParseInt(modelNumber).None?)
      && (r.Ok? ==>
            var md := "model " + IntToString(ParseInt(modelNumber).value);
            && (!IsDir(Lookup(base, md)) ==> r.value.None?)
            && (GetLatestSessionDir(Children(Lookup(base, md))).None? ==> r.value.None?)
            && (r.value.Some? ==>
                  && IsDir(Lookup(base, md))
                  && GetLatestSessionDir(Children(Lookup(base, md))).Some?
                  && r.value.value == [md, GetLatestSessionDir(Children(Lookup(base, md))).value, "models",
                                       GetLatestModelFile(Lookup(Children(Lookup(Children(Lookup(base, md)),
                                         GetLatestSessionDir(Children(Lookup(base, md))).value)), "models")).value]))
  {
  }

  /**
   * prepare_new_session_from_latest_model. An override names the model
   * directory, which must exist; otherwise the latest model directory and
   * its latest session must exist. The new session goes into that model
   * directory. An override is given as the text int() reads.
   */
  function PrepareNewSessionFromLatestModel(base: Listing, cfg: Config, overrideModel: Option<string>,
                                            timestamp: string, uid: string): Result<NewSession>
  {
    match overrideModel
    case Some(o) =>
      (match GetLatestModelFileFromModelNumber(base, o)
       case Err(e) => Err(e)
       case Ok(modelPath) =>
         var md := "model " + IntToString(ParseInt(o).value);
         if !IsDir(Lookup(base, md)) then Err(FileNotFoundError("Model directory for model " + o + " not found."))
         else NewSessionIn(base, md, modelPath, cfg, timestamp, uid))
    case None =>
      match GetLatestModelDir(base)
      case Err(e) => Err(e)
      case Ok(None) => Err(FileNotFoundError("No model directories found."))
      case Ok(Some(md)) =>
        match GetLatestSessionDir(Children(Lookup(base, md)))
        case None => Err(FileNotFoundError("No session directories found in latest model dir."))
        case Some(sd) => NewSessionIn(base, md, ModelFilePath(base, md, sd), cfg, timestamp, uid)
  }

  /**
   * The raise paths of prepare_new_session_from_latest_model without an
   * override: FileNotFoundError when there is no model directory or the
   * latest one has no session. A new session lands in the latest model directory.
   */
  lemma PrepareLatestSpec(base: Listing, cfg: Config, timestamp: string, uid: string)
    ensures var r := PrepareNewSessionFromLatestModel(base, cfg, None, timestamp, uid);
      var latest := GetLatestModelDir(base);
      && (latest == Ok(None) ==> r == Err(FileNotFoundError("No model directories found.")))
      && (latest.Ok? && latest.value.Some?
            && GetLatestSessionDir(Children(Lookup(base, latest.value.value))).None? ==>
            r == Err(FileNotFoundError("No session directories found in latest model dir.")))
      && (r.Ok? ==> latest.Ok? && latest.value.Some? && r.value.sessionDir[0] == latest.value.value)
  {
  }

  /**
   * With an override: ValueError when it does not read as an integer,
   * FileNotFoundError when its model directory is missing; a new session
   * lands in that directory and loads its latest model file.
   */
  lemma PrepareOverrideSpec(base: Listing, cfg: Config, o: string, timestamp: string, uid: string)
    ensures var r := PrepareNewSessionFromLatestModel(base, cfg, Some(o), timestamp, uid);
      && (ParseInt(o).None? ==> r.Err? && r.error.ValueError?)
      && (ParseInt(o).Some? && !IsDir(Lookup(base, "model " + IntToString(ParseInt(o).value))) ==>
            r == Err(FileNotFoundError("Model directory for model " + o + " not found.")))
      && (r.Ok? ==>
            && ParseInt(o).Some?
            && r.value.sessionDir[0] == "model " + IntToString(ParseInt(o).value)
            && r.value.modelPath == LatestModelFileOfNumber(base, ParseInt(o).value))
  {
  }

  /**
   * create_new_model_and_session: a new "model N" directory for the next
   * model number, and a session inside it. mkdir(exist_ok=True) on the
   * model directory fails only when a file already has its name.
   */
  function CreateNewModelAndSession(base: Listing, cfg: Config, timestamp: string, uid: string): Result<NewSession> {
    match GetNextModelNumber(base)
    case Err(e) => Err(e)
    case Ok(n) =>
      var md := "model " + IntToString(n);
      var existing := Lookup(base, md);
      if existing.Some? && existing.value.File? then Err(FileExistsError("File exists: " + md))
      else NewSessionIn(base, md, None, cfg, timestamp, uid)
  }

  /**
   * The new model directory never existed as a directory, so its first
   * session is numbered N.00 and the name's trailing field reads back N.
   */
  lemma CreateStartsAtWholeNumber(base: Listing, cfg: Config, timestamp: string, uid: string)
    requires GetNextModelNumber(base).Ok?
    ensures var n := GetNextModelNumber(base).value;
      var md := "model " + IntToString(n);
      var r := CreateNewModelAndSession(base, cfg, timestamp, uid);
      && !IsDir(Lookup(base, md))
      && (r.Ok? ==>
            && r.value.sessionDir == [md, SessionName(timestamp, uid, n * 100)]
            && SessionKey(r.value.sessionDir[1]) == n as real
            && r.value.modelPath.None?)
  {
    var n := GetNextModelNumber(base).value;
    var md := "model " + IntToString(n);
    ModelNumberOf(n);
    NextModelNumberAbove(DirsWithPrefix(base, "model "));
    var names := DirsWithPrefix(base, "model ");
    if IsDir(Lookup(base, md)) {
      assert StartsWith(md, "model ") by {
        assert md[..6] == "model ";
      }
      DirsWithPrefixSpec(base, "model ", md);
      assert false;
    }
    assert Children(Lookup(base, md)) == [];
    assert DirsWithPrefix([], "session_") == [];
    SessionNameRoundTrip(timestamp, uid, n * 100);
  }

  /** total_timesteps is the product of the episode length, the episode count and the number of environments. */
  lemma SessionMetadata(base: Listing, cfg: Config, timestamp: string, uid: string)
    ensures var r := CreateNewModelAndSession(base, cfg, timestamp, uid);
      r.Ok? ==>
        && r.value.totalTimesteps == cfg.episodeLength * cfg.episodeCount * cfg.numEnvs
        && r.value.simulatedTime.seconds * 60.0 == (r.value.totalTimesteps * cfg.frameskip) as real
        && r.value.sessionId == r.value.sessionDir[1]
        && (r.value.videoDir.Some? <==> cfg.saveVideo && cfg.headless)
  {
  }
}
