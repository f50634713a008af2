/**
 * The movement logger: per environment, a buffer of first visits to a
 * tile during the current episode, flushed to an episode file at the
 * episode boundary. Directory creation and the JSON file are left out;
 * the file a flush would write is returned as a value.
 */
module MovementCallback {
  import opened Wrappers
  import opened EpisodeCallbackBase

  // ---------------------------------------------------------------------
  // Action decoding

  /** The arrow half of the joypad action space, None for no arrow. */
  const ArrowKeys: seq<Option<string>> := [None, Some("up"), Some("down"), Some("right"), Some("left")]

  /** The button half of the joypad action space, None for no button. */
  const Buttons: seq<Option<string>> := [None, Some("A"), Some("B"), Some("L"), Some("R")]

  /** `[(a, b) for a in arrow_keys for b in buttons]`: arrows vary slowest. */
  function ActionTable(): (t: seq<(Option<string>, Option<string>)>)
    ensures |t| == 25
  {
    seq(25, k requires 0 <= k < 25 => (ArrowKeys[k / 5], Buttons[k % 5]))
  }

  /**
   * The table is the product of the two halves: the pair of arrow a and
   * button b sits at action 5a + b and at no other action.
   */
  lemma ActionTableIsProduct(a: nat, b: nat)
    requires a < 5 && b < 5
    ensures ActionTable()[5 * a + b] == (ArrowKeys[a], Buttons[b])
    ensures forall k :: 0 <= k < 25 && ActionTable()[k] == (ArrowKeys[a], Buttons[b]) ==> k == 5 * a + b
  {
    assert (5 * a + b) / 5 == a && (5 * a + b) % 5 == b;
    forall k | 0 <= k < 25 && ActionTable()[k] == (ArrowKeys[a], Buttons[b])
      ensures k == 5 * a + b
    {
      assert ArrowKeys[k / 5] == ArrowKeys[a] && Buttons[k % 5] == Buttons[b];
      assert k / 5 == a && k % 5 == b;
    }
  }

  /** decode_action: `actions[action_idx]` with Python's indexing, negative indices counting from the end. */
  function DecodeAction(action: int): Result<(Option<string>, Option<string>)> {
    if 0 <= action < 25 then Ok(ActionTable()[action])
    else if -25 <= action < 0 then Ok(ActionTable()[action + 25])
    else Err(IndexError)
  }

  /** An action in 0..24 is the arrow action / 5 with the button action % 5; -25..-1 wrap around; the rest raise. */
  lemma DecodeActionSpec(action: int)
    ensures DecodeAction(action).Err? <==> action < -25 || action >= 25
    ensures 0 <= action < 25 ==> DecodeAction(action) == Ok((ArrowKeys[action / 5], Buttons[action % 5]))
    ensures -25 <= action < 0 ==> DecodeAction(action) == DecodeAction(action + 25)
  {
  }

  /** get_direction_from_action: the arrow's name, "none" when there is no arrow. */
  function GetDirectionFromAction(action: int): Result<string> {
    match DecodeAction(action)
    case Err(e) => Err(e)
    case Ok((arrow, _)) =>
      Ok(match arrow
         case Some(a) => if a in {"up", "right", "down", "left"} then a else "none"
         case None => "none")
  }

  /** Actions 0-4 have no direction; 5-9 are up, 10-14 down, 15-19 right and 20-24 left. */
  lemma DirectionBands(action: int)
    requires 0 <= action < 25
    ensures GetDirectionFromAction(action) == Ok(
      if action < 5 then "none"
      else if action < 10 then "up"
      else if action < 15 then "down"
      else if action < 20 then "right"
      else "left")
  {
    var t := ActionTable();
    assert t[action] == (ArrowKeys[action / 5], Buttons[action % 5]);
  }

  // ---------------------------------------------------------------------
  // One environment

  /** One entry of the movement buffer; the wall-clock timestamp is left out. */
  datatype Movement = Movement(tileX: int, tileY: int, worldX: int, worldY: int,
                               direction: string, action: int, area: string)

  /** The episode file a flush writes: env_<env>/episode_<episode>_movements.json. */
  datatype EpisodeFile = EpisodeFile(env: nat, episode: nat, uniqueMovements: nat,
                                     areasVisited: set<string>, movements: seq<Movement>)

  /** One environment's slice of the callback's lists. */
  datatype Track = Track(movements: seq<Movement>, seen: set<(int, int)>,
                         currentArea: Option<string>, episodes: nat)

  predicate ValidAction(action: int) {
    -25 <= action < 25
  }

  /** The tiles of the buffered movements. */
  function Tiles(ms: seq<Movement>): (tiles: set<(int, int)>)
    ensures forall k :: 0 <= k < |ms| ==> (ms[k].tileX, ms[k].tileY) in tiles
  {
    if |ms| == 0 then {} else Tiles(ms[..|ms| - 1]) + {(ms[|ms| - 1].tileX, ms[|ms| - 1].tileY)}
  }

  /** No two buffered movements are on the same tile. */
  predicate DistinctTiles(ms: seq<Movement>) {
    forall j, k :: 0 <= j < k < |ms| ==> (ms[j].tileX, ms[j].tileY) != (ms[k].tileX, ms[k].tileY)
  }

  /** The seen set is exactly the buffered tiles, each buffered once. */
  predicate TrackInv(t: Track) {
    t.seen == Tiles(t.movements) && DistinctTiles(t.movements)
  }

  /** The areas of the buffered movements, empty descriptions left out. */
  function AreasVisited(ms: seq<Movement>): (areas: set<string>)
    ensures forall a :: a in areas <==> a != "" && exists k :: 0 <= k < |ms| && ms[k].area == a
  {
    set k | 0 <= k < |ms| && ms[k].area != "" :: ms[k].area
  }

  /** The first half of a step: log the position when its tile is new this episode. */
  function Observe(t: Track, coords: Option<Coords>, action: int): Track
    requires ValidAction(action)
  {
    match coords
    case None => t
    case Some(c) =>
      if (c.tileX, c.tileY) in t.seen then t
      else
        var dir := GetDirectionFromAction(action).value;
        t.(seen := t.seen + {(c.tileX, c.tileY)},
           movements := t.movements + [Movement(c.tileX, c.tileY, c.x, c.y, dir, action, c.area)],
           currentArea := Some(c.area))
  }

  /** _save_episode_movements: a non-empty buffer is written out, cleared and counted; an empty one is left alone. */
  function Flush(t: Track, env: nat): (Track, Option<EpisodeFile>) {
    if |t.movements| == 0 then (t, None)
    else
      var file := EpisodeFile(env, t.episodes, |t.movements|, AreasVisited(t.movements), t.movements);
      (t.(movements := [], seen := {}, episodes := t.episodes + 1), Some(file))
  }

  /** One environment's share of _on_step: observe, then flush at a boundary. */
  function TrackStep(t: Track, env: nat, coords: Option<Coords>, action: int, end: bool): (Track, Option<EpisodeFile>)
    requires ValidAction(action)
  {
    var t1 := Observe(t, coords, action);
    if end then Flush(t1, env) else (t1, None)
  }

  /** A movement is appended exactly when the tile is new, whatever the area, and the tile is then seen. */
  lemma ObserveSpec(t: Track, coords: Option<Coords>, action: int)
    requires ValidAction(action)
    ensures var t1 := Observe(t, coords, action);
      && ((|t1.movements| == |t.movements| + 1)
            <==> (coords.Some? && (coords.value.tileX, coords.value.tileY) !in t.seen))
      && (|t1.movements| == |t.movements| ==> t1 == t)
      && (coords.Some? ==> t1.seen == t.seen + {(coords.value.tileX, coords.value.tileY)})
      && t1.episodes == t.episodes
  {
  }

  /** The seen key ignores the area: the same tile under another area description is not logged again. */
  lemma SeenKeyIgnoresArea(t: Track, c: Coords, area: string, action: int)
    requires ValidAction(action)
    ensures var t1 := Observe(t, Some(c), action);
      Observe(t1, Some(c.(area := area)), action) == t1
  {
  }

  lemma {:induction false} TilesAppend(ms: seq<Movement>, m: Movement)
    ensures Tiles(ms + [m]) == Tiles(ms) + {(m.tileX, m.tileY)}
  {
    assert (ms + [m])[..|ms|] == ms;
  }

  /** A step keeps the seen set equal to the buffered tiles, each buffered once. */
  lemma TrackStepPreservesInv(t: Track, env: nat, coords: Option<Coords>, action: int, end: bool)
    requires ValidAction(action) && TrackInv(t)
    ensures TrackInv(TrackStep(t, env, coords, action, end).0)
  {
    var t1 := Observe(t, coords, action);
    if coords.Some? && (coords.value.tileX, coords.value.tileY) !in t.seen {
      var m := t1.movements[|t.movements|];
      assert t1.movements == t.movements + [m];
      TilesAppend(t.movements, m);
    }
  }

  /** Under the invariant the buffer is empty exactly when the seen set is. */
  lemma EmptyBufferEmptySeen(t: Track)
    requires TrackInv(t)
    ensures |t.movements| == 0 <==> t.seen == {}
  {
    if |t.movements| > 0 {
      var m := t.movements[0];
      assert (m.tileX, m.tileY) in t.seen;
    }
  }

  /**
   * A flush of a non-empty buffer writes the episode's entry count and its
   * non-empty areas, then empties the buffer and the seen set and counts
   * the episode; an empty buffer writes nothing and changes nothing.
   */
  lemma FlushSpec(t: Track, env: nat)
    ensures var (t1, file) := Flush(t, env);
      && (file.Some? <==> |t.movements| > 0)
      && (file.Some? ==>
            && file.value.env == env && file.value.episode == t.episodes
            && file.value.uniqueMovements == |t.movements| && file.value.movements == t.movements
            && (forall a :: a in file.value.areasVisited <==>
                  a != "" && exists k :: 0 <= k < |t.movements| && t.movements[k].area == a)
            && t1.movements == [] && t1.seen == {} && t1.episodes == t.episodes + 1
            && t1.currentArea == t.currentArea)
      && (file.None? ==> t1 == t)
  {
  }

  /** On a boundary step whose tile is new, the new movement is the last one of the flushed episode. */
  lemma FinalTileFlushed(t: Track, env: nat, c: Coords, action: int)
    requires ValidAction(action) && (c.tileX, c.tileY) !in t.seen
    ensures var (_, file) := TrackStep(t, env, Some(c), action, true);
      && file.Some?
      && |file.value.movements| == |t.movements| + 1
      && file.value.movements[|t.movements|]
        == Movement(c.tileX, c.tileY, c.x, c.y, GetDirectionFromAction(action).value, action, c.area)
  {
  }

  // ---------------------------------------------------------------------
  // The callback

  /** The locals an _on_step call may be given: actions for every environment and flags that cover them. */
  predicate LocalsFit(l: Locals, numEnvs: nat) {
    && Covers(l.actions, numEnvs)
    && (l.actions.Many? ==> forall i :: 0 <= i < |l.actions.items| ==> ValidAction(l.actions.items[i]))
    && (l.actions.One? ==> ValidAction(l.actions.item))
    && (l.dones.Some? ==> Covers(l.dones.value, numEnvs))
    && (l.truncateds.Some? ==> Covers(l.truncateds.value, numEnvs))
    && (l.infos.Some? ==> numEnvs <= |l.infos.value|)
  }

  /** Environment i's action, boundary flag and position in this step. */
  function ActionAt(l: Locals, i: nat): int
    requires At(l.actions, i).Ok?
  {
    At(l.actions, i).value
  }

  /**
   * One environment's share of _on_step as the callback runs it: nothing
   * at all happens, not even a flush at a boundary, when infos is not a list.
   */
  function EnvStep(t: Track, i: nat, l: Locals, numEnvs: nat): (Track, Option<EpisodeFile>)
    requires LocalsFit(l, numEnvs) && i < numEnvs
  {
    if l.infos.None? then (t, None)
    else
      IsEpisodeEndDefined(l.dones, l.truncateds, numEnvs, i);
      TrackStep(t, i, l.infos.value[i].currentCoords, ActionAt(l, i),
                IsEpisodeEnd(l.dones, l.truncateds, i).value)
  }

  /**
   * Each environment's step keeps its buffer free of repeated tiles, and
   * an environment whose episode ends leaves the step with an empty buffer.
   */
  lemma EnvStepPreservesInv(t: Track, i: nat, l: Locals, numEnvs: nat)
    requires LocalsFit(l, numEnvs) && i < numEnvs && TrackInv(t)
    ensures TrackInv(EnvStep(t, i, l, numEnvs).0)
    ensures l.infos.Some? && IsEpisodeEnd(l.dones, l.truncateds, i) == Ok(true) ==>
      EnvStep(t, i, l, numEnvs).0.movements == [] && EnvStep(t, i, l, numEnvs).0.seen == {}
  {
    if l.infos.Some? {
      IsEpisodeEndDefined(l.dones, l.truncateds, numEnvs, i);
      TrackStepPreservesInv(t, i, l.infos.value[i].currentCoords, ActionAt(l, i),
                            IsEpisodeEnd(l.dones, l.truncateds, i).value);
    }
  }

  class MovementTrackingCallback {
    var numEnvs: nat
    var episodeCount: seq<nat>
    var movements: seq<seq<Movement>>
    var currentArea: seq<Option<string>>
    var seenCoords: seq<set<(int, int)>>

    predicate Valid()
      reads this
    {
      && |episodeCount| == numEnvs && |movements| == numEnvs
      && |currentArea| == numEnvs && |seenCoords| == numEnvs
      && forall i :: 0 <= i < numEnvs ==> TrackInv(TrackAt(i))
    }

    /** Environment i's buffer, seen set, area and counter. */
    function TrackAt(i: nat): Track
      reads this
      requires i < |episodeCount| && i < |movements| && i < |currentArea| && i < |seenCoords|
    {
      Track(movements[i], seenCoords[i], currentArea[i], episodeCount[i])
    }

    constructor()
      ensures numEnvs == 0 && movements == [] && currentArea == [] && seenCoords == []
      ensures Valid()
    {
      numEnvs := 0;
      episodeCount := [];
      movements := [];
      currentArea := [];
      seenCoords := [];
    }

    /** _on_training_start: one empty buffer, seen set and zero counter per environment. */
    method OnTrainingStart(n: nat)
      modifies this
      ensures numEnvs == n && episodeCount == ZeroCounts(n)
      ensures movements == seq(n, _ => []) && seenCoords == seq(n, _ => {})
      ensures currentArea == seq(n, _ => None)
      ensures Valid()
    {
      numEnvs := n;
      episodeCount := ZeroCounts(n);
      movements := seq(n, _ => []);
      currentArea := seq(n, _ => None);
      seenCoords := seq(n, _ => {});
    }

    /** Store environment i's slice. */
    method SetTrack(i: nat, t: Track)
      requires i < numEnvs && |episodeCount| == numEnvs && |movements| == numEnvs
      requires |currentArea| == numEnvs && |seenCoords| == numEnvs
      modifies this`movements, this`seenCoords, this`currentArea, this`episodeCount
      ensures movements == old(movements)[i := t.movements]
      ensures seenCoords == old(seenCoords)[i := t.seen]
      ensures currentArea == old(currentArea)[i := t.currentArea]
      ensures episodeCount == old(episodeCount)[i := t.episodes]
    {
      movements := movements[i := t.movements];
      seenCoords := seenCoords[i := t.seen];
      currentArea := currentArea[i := t.currentArea];
      episodeCount := episodeCount[i := t.episodes];
    }

    /**
     * _on_step: every environment in order takes its step; `files[i]` is
     * the episode file environment i writes, if any. Each environment's
     * slice depends only on its own slice and its own locals.
     */
    method OnStep(l: Locals) returns (files: seq<Option<EpisodeFile>>)
      requires Valid() && LocalsFit(l, numEnvs)
      modifies this`movements, this`seenCoords, this`currentArea, this`episodeCount
      ensures Valid() && |files| == numEnvs
      ensures forall i :: 0 <= i < numEnvs ==>
        (TrackAt(i), files[i]) == EnvStep(old(TrackAt(i)), i, l, numEnvs)
    {
      files := [];
      if l.infos.None? {
        files := seq(numEnvs, _ => None);
        return;
      }
      var i := 0;
      while i < numEnvs
        invariant 0 <= i <= numEnvs && |files| == i
        invariant |episodeCount| == numEnvs && |movements| == numEnvs
        invariant |currentArea| == numEnvs && |seenCoords| == numEnvs
        invariant forall j :: 0 <= j < i ==> (TrackAt(j), files[j]) == EnvStep(old(TrackAt(j)), j, l, numEnvs)
        invariant forall j :: i <= j < numEnvs ==> TrackAt(j) == old(TrackAt(j))
        invariant forall j :: 0 <= j < numEnvs ==> TrackInv(TrackAt(j))
      {
        var t := TrackAt(i);
        var coords := l.infos.value[i].currentCoords;
        var action := ActionAt(l, i);
        var t1 := Observe(t, coords, action);
        IsEpisodeEndDefined(l.dones, l.truncateds, numEnvs, i);
        var end := IsEpisodeEnd(l.dones, l.truncateds, i).value;
        var file: Option<EpisodeFile> := None;
        if end {
          var flushed := Flush(t1, i);
          t1, file := flushed.0, flushed.1;
        }
        TrackStepPreservesInv(t, i, coords, action, end);
        SetTrack(i, t1);
        files := files + [file];
        i := i + 1;
      }
    }
  }
}
