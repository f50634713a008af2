/**
 * The reward engine of the Zelda: A Link to the Past game wrapper. Each
 * emulator step it reads the game state out of memory and, from the
 * previous state and its own counters, computes nine reward components
 * (rupees, health, exploration, deaths, area discovery, sword, revisits,
 * enemies, small keys) whose sum is the step's reward.
 *
 * The engine's state is the class ZeldaALTTP below; the value Engine is a
 * snapshot of its fields, and the functions over Engine specify what each
 * method does to them. The wall clock is a parameter: the class stores the
 * clock reading taken at construction and each method that needs the time
 * is given the current reading.
 */
module ZeldaAlttp {
  import opened Wrappers
  import opened Builtins
  import opened AreaMapping
  import opened ZeldaUtils
  import opened OrderedDict

  /** get_player_coords: pixel position, tile position, and area name. */
  datatype Coords = Coords(x: int, y: int, tileX: int, tileY: int, area: string)

  /** The dict game_state builds. */
  datatype GameState = GameState(
    health: int,
    rupees: int,
    coords: Coords,
    area: string,
    sword: int,
    enemiesKilled: int,
    exploredLocations: nat,
    smallKeys: int)

  /**
   * A key of seen_coords. The source keys the dict by the string
   * CoordString(tileX, tileY, area); CoordStringInjective shows that the
   * string determines the triple, so keying by the triple is the same dict.
   */
  datatype TileKey = TileKey(tileX: int, tileY: int, area: string)

  /** The constructor's tuning parameters. */
  datatype Weights = Weights(
    rewardScale: real,
    explore: real,
    revisit: real,
    areaDiscovery: real,
    rupee: real,
    health: real,
    sword: real,
    enemiesKilled: real,
    smallKey: real)

  const DefaultWeights: Weights := Weights(1.0, 2.0, -0.05, 10.0, 0.5, 0.5, 10.0, 2.0, 5.0)

  /** One step's reward breakdown. */
  datatype Components = Components(
    rupees: real,
    health: real,
    explore: real,
    death: real,
    areaDiscovery: real,
    sword: real,
    revisit: real,
    enemiesKilled: real,
    smallKeys: real)
  {
    /** The breakdown as the dict get_game_state_reward returns, in its key order. */
    function Items(): Dict {
      [("rupees", rupees), ("health", health), ("explore", explore), ("death", death),
       ("area_discovery", areaDiscovery), ("sword", sword), ("revisit", revisit),
       ("enemies_killed", enemiesKilled), ("small_keys", smallKeys)]
    }
  }

  const ZeroComponents: Components := Components(0.0, 0.0, 0.0, 0.0, 0.0, 0.0, 0.0, 0.0, 0.0)

  /** A snapshot of the fields of ZeldaALTTP other than the constructor's constants. */
  datatype Engine = Engine(
    prevState: Option<GameState>,
    prevReward: real,
    lastRewardComponents: Dict,
    diedCount: nat,
    totalDeaths: nat,
    seenCoords: map<TileKey, nat>,
    discoveredAreas: set<string>,
    areaDiscoveryTimestamps: map<string, int>,
    prevSword: int,
    swordObtained: bool,
    swordDiscoveryTimestamp: Option<int>,
    totalEnemiesKilled: int,
    totalSmallKeys: int)

  /** The state right after construction. */
  const InitialEngine: Engine :=
    Engine(None, 0.0, [], 0, 0, map[], {}, map[], 0, false, None, 0, 0)

  /** The dict the info method returns. */
  datatype Info = Info(
    state: GameState,
    totalDeaths: nat,
    isDead: bool,
    currentCoords: Coords,
    exploredLocations: nat,
    discoveredAreas: set<string>,
    areaDiscoveryTimestamps: map<string, int>,
    swordDiscoveryTimestamp: Option<int>,
    deaths: nat,
    totalEnemiesKilled: int,
    totalSmallKeys: int,
    rewardComponents: Dict)

  // ---------------------------------------------------------------------
  // Reading the state

  /** get_player_coords: tiles are the floor of the pixel position over TILE_SIZE. */
  function PlayerCoords(mem: Memory): Coords {
    var (x, y) := ReadPlayerXY(mem);
    Coords(x, y, Tile(x), Tile(y), GetAreaDescription(mem))
  }

  /**
   * The coordinates are the decoded (X, Y), the tile is their floor over
   * TILE_SIZE, and the area is named from the same (X, Y).
   */
  lemma PlayerCoordsSpec(mem: Memory)
    ensures var c := PlayerCoords(mem);
      && c.x == ReadPlayerX(mem) && c.y == ReadPlayerY(mem)
      && TILE_SIZE * c.tileX <= c.x < TILE_SIZE * c.tileX + TILE_SIZE
      && TILE_SIZE * c.tileY <= c.y < TILE_SIZE * c.tileY + TILE_SIZE
      && c.area == GetAreaName(c.x, c.y)
  {
    AreaDescriptionAtPlayer(mem);
  }

  /** game_state: the memory fields plus the number of distinct tiles seen so far. */
  function StateOf(seenCoords: map<TileKey, nat>, mem: Memory): GameState {
    GameState(
      ReadPlayerHealth(mem),
      ReadRupees(mem),
      PlayerCoords(mem),
      GetAreaDescription(mem),
      ReadSword(mem),
      ReadEnemiesKilled(mem),
      |seenCoords|,
      ReadSmallKeys(mem))
  }

  function KeyOf(c: Coords): TileKey {
    TileKey(c.tileX, c.tileY, c.area)
  }

  /** The source's seen_coords key for a tile. */
  function CoordString(tileX: int, tileY: int, area: string): string {
    "x:" + IntToString(tileX) + " y:" + IntToString(tileY) + " area:" + area
  }

  /** Two strings joined by a separator neither contains split back into the same parts. */
  lemma SplitAtSeparator(a1: string, r1: string, a2: string, r2: string, c: char)
    requires c !in a1 && c !in a2
    requires a1 + [c] + r1 == a2 + [c] + r2
    ensures a1 == a2 && r1 == r2
  {
    IndexOfJoin(a1, c, r1);
    IndexOfJoin(a2, c, r2);
    var s := a1 + [c] + r1;
    assert s[..|a1|] == a1 && s[..|a2|] == a2;
    assert s[|a1| + 1..] == r1 && (a2 + [c] + r2)[|a2| + 1..] == r2;
  }

  /** A decimal integer followed by a space can be read back off the front of a string. */
  lemma IntThenSpace(n1: int, r1: string, n2: int, r2: string)
    requires IntToString(n1) + " " + r1 == IntToString(n2) + " " + r2
    ensures n1 == n2 && r1 == r2
  {
    NoSpaceInInt(n1);
    NoSpaceInInt(n2);
    SplitAtSeparator(IntToString(n1), r1, IntToString(n2), r2, ' ');
    IntToStringRoundTrip(n1);
    IntToStringRoundTrip(n2);
  }

  lemma CancelPrefix(p: string, a: string, b: string)
    requires p + a == p + b
    ensures a == b
  {
    assert (p + a)[|p|..] == a && (p + b)[|p|..] == b;
  }

  lemma CoordStringParts(tx: int, ty: int, area: string)
    ensures CoordString(tx, ty, area)
      == "x:" + (IntToString(tx) + " " + ("y:" + (IntToString(ty) + " " + ("area:" + area))))
  {
  }

  /** Distinct tiles get distinct seen_coords keys. */
  lemma CoordStringInjective(tx1: int, ty1: int, area1: string, tx2: int, ty2: int, area2: string)
    ensures CoordString(tx1, ty1, area1) == CoordString(tx2, ty2, area2) <==>
      TileKey(tx1, ty1, area1) == TileKey(tx2, ty2, area2)
  {
    if CoordString(tx1, ty1, area1) == CoordString(tx2, ty2, area2) {
      var tail1, tail2 := "area:" + area1, "area:" + area2;
      var rest1 := IntToString(ty1) + " " + tail1;
      var rest2 := IntToString(ty2) + " " + tail2;
      CoordStringParts(tx1, ty1, area1);
      CoordStringParts(tx2, ty2, area2);
      CancelPrefix("x:", IntToString(tx1) + " " + ("y:" + rest1), IntToString(tx2) + " " + ("y:" + rest2));
      IntThenSpace(tx1, "y:" + rest1, tx2, "y:" + rest2);
      CancelPrefix("y:", rest1, rest2);
      IntThenSpace(ty1, tail1, ty2, tail2);
      CancelPrefix("area:", area1, area2);
    }
  }

  /** update_seen_coords: count one more visit of the tile. */
  function SeenAfter(seen: map<TileKey, nat>, k: TileKey): map<TileKey, nat> {
    seen[k := if k in seen then seen[k] + 1 else 1]
  }

  lemma MapUpdateSize<K, V>(m: map<K, V>, k: K, v: V)
    ensures |m[k := v]| == if k in m then |m| else |m| + 1
  {
    assert m[k := v].Keys == m.Keys + {k};
    if k !in m {
      assert m.Keys !! {k};
    } else {
      assert m.Keys + {k} == m.Keys;
    }
  }

  // ---------------------------------------------------------------------
  // The reward components

  /** update_explore_reward: weighted growth of the distinct-tile count, 0 when it did not grow. */
  function ExploreReward(w: Weights, prev: GameState, state: GameState): real {
    var delta := state.exploredLocations - prev.exploredLocations;
    if delta > 0 then w.rewardScale * w.explore * delta as real else 0.0
  }

  /** update_revisit_reward: the penalty once a tile has been stepped on five times. */
  function RevisitReward(w: Weights, seen: map<TileKey, nat>, state: GameState): real {
    var k := KeyOf(state.coords);
    var visits := if k in seen then seen[k] else 0;
    w.rewardScale * (if visits >= 5 then w.revisit else 0.0)
  }

  /** Python's int() on a float number of seconds: truncation toward zero. */
  function TruncSeconds(r: real): (t: int)
    ensures r >= 0.0 ==> 0 <= t && t as real <= r < t as real + 1.0
    ensures r < 0.0 ==> t <= 0 && t as real - 1.0 < r <= t as real
  {
    if r >= 0.0 then r.Floor else -((-r).Floor)
  }

  /** Whether the area-discovery reward fires for this state. */
  predicate AreaFires(discovered: set<string>, state: GameState) {
    state.area !in discovered && !StartsWith(state.area, "Unknown Area")
    && GetAreaRewardable(state.coords.x, state.coords.y)
  }

  /**
   * update_area_discovery_reward: the new discovered set, the new timestamp
   * map and the component. A timestamp already recorded is never replaced.
   */
  function AreaDiscoveryStep(w: Weights, discovered: set<string>, timestamps: map<string, int>,
                             state: GameState, elapsed: real): (set<string>, map<string, int>, real)
  {
    AreaUpdate(w, AreaFires(discovered, state), discovered, timestamps, state.area, elapsed)
  }

  /** The effect of update_area_discovery_reward once it is known whether it fires. */
  function AreaUpdate(w: Weights, fires: bool, discovered: set<string>, timestamps: map<string, int>,
                      area: string, elapsed: real): (set<string>, map<string, int>, real)
  {
    if fires then
      var ts := if area in timestamps then timestamps else timestamps[area := TruncSeconds(elapsed)];
      (discovered + {area}, ts, w.rewardScale * 1.0 * w.areaDiscovery)
    else
      (discovered, timestamps, w.rewardScale * 0.0 * w.areaDiscovery)
  }

  function RupeeReward(w: Weights, prev: GameState, state: GameState): real {
    w.rewardScale * (state.rupees - prev.rupees) as real * w.rupee
  }

  function HealthReward(w: Weights, prev: GameState, state: GameState): real {
    w.rewardScale * (state.health - prev.health) as real * w.health
  }

  /** update_death_reward: a fixed -2.0 per death this episode, paid on every step. */
  function DeathReward(w: Weights, diedCount: nat): real {
    w.rewardScale * diedCount as real * -2.0
  }

  /**
   * update_sword_reward: (sword obtained, discovery timestamp, component).
   * The first timestamp is never replaced.
   */
  function SwordStep(w: Weights, prevSword: int, obtained: bool, timestamp: Option<int>,
                     state: GameState, elapsed: real): (bool, Option<int>, real)
  {
    if !obtained && prevSword == 0 && state.sword > 0 then
      (true, if timestamp.None? then Some(TruncSeconds(elapsed)) else timestamp, w.rewardScale * w.sword)
    else
      (obtained, timestamp, 0.0)
  }

  /** update_enemies_killed_reward / update_small_key_reward: (new total, component) for a counter. */
  function CounterStep(scale: real, weight: real, prevCount: int, count: int, total: int): (int, real) {
    var delta := count - prevCount;
    if delta > 0 then (total + delta, scale * delta as real * weight) else (total, 0.0)
  }

  /**
   * get_game_state_reward, the dict it returns: every component for
   * `state`, given the engine after the death check and the seen_coords
   * update.
   */
  function GameStateRewards(w: Weights, e: Engine, state: GameState, elapsed: real): Components
    requires e.prevState.Some?
  {
    var prev := e.prevState.value;
    Components(
      RupeeReward(w, prev, state),
      HealthReward(w, prev, state),
      ExploreReward(w, prev, state),
      DeathReward(w, e.diedCount),
      AreaDiscoveryStep(w, e.discoveredAreas, e.areaDiscoveryTimestamps, state, elapsed).2,
      SwordStep(w, e.prevSword, e.swordObtained, e.swordDiscoveryTimestamp, state, elapsed).2,
      RevisitReward(w, e.seenCoords, state),
      CounterStep(w.rewardScale, w.enemiesKilled, prev.enemiesKilled, state.enemiesKilled, e.totalEnemiesKilled).1,
      CounterStep(w.rewardScale, w.smallKey, prev.smallKeys, state.smallKeys, e.totalSmallKeys).1)
  }

  /**
   * get_game_state_reward, its effect on the engine: the updates the area,
   * sword, enemy and key components make to their fields.
   */
  function GameStateUpdates(w: Weights, e: Engine, state: GameState, elapsed: real): Engine
    requires e.prevState.Some?
  {
    var prev := e.prevState.value;
    var area := AreaDiscoveryStep(w, e.discoveredAreas, e.areaDiscoveryTimestamps, state, elapsed);
    var sword := SwordStep(w, e.prevSword, e.swordObtained, e.swordDiscoveryTimestamp, state, elapsed);
    e.(discoveredAreas := area.0, areaDiscoveryTimestamps := area.1,
       swordObtained := sword.0, swordDiscoveryTimestamp := sword.1,
       totalEnemiesKilled :=
         CounterStep(w.rewardScale, w.enemiesKilled, prev.enemiesKilled, state.enemiesKilled, e.totalEnemiesKilled).0,
       totalSmallKeys :=
         CounterStep(w.rewardScale, w.smallKey, prev.smallKeys, state.smallKeys, e.totalSmallKeys).0)
  }

  // ---------------------------------------------------------------------
  // reward, reset, game_over, info

  /** persist_state_data. */
  function Persist(e: Engine, state: GameState): Engine {
    e.(prevSword := state.sword, swordObtained := state.sword > 0)
  }

  /** A new death is health reaching 0 from above 0. */
  predicate NewDeath(prev: GameState, state: GameState) {
    state.health == 0 && prev.health > 0
  }

  /** The part of reward before the components: the death check, then the seen_coords update. */
  function PreReward(e: Engine, state: GameState): Engine
    requires e.prevState.Some?
  {
    var d := if NewDeath(e.prevState.value, state) then 1 else 0;
    e.(diedCount := e.diedCount + d, totalDeaths := e.totalDeaths + d,
       seenCoords := SeenAfter(e.seenCoords, KeyOf(state.coords)))
  }

  /**
   * reward, once game_state has been read: the new engine and the step's
   * reward. The first call only records the baseline and returns 0.
   */
  function StepWith(w: Weights, e: Engine, state: GameState, elapsed: real): (Engine, real) {
    if e.prevState.None? then
      (Persist(e, state).(prevState := Some(state), lastRewardComponents := ZeroComponents.Items()), 0.0)
    else
      var e1 := PreReward(e, state);
      var c := GameStateRewards(w, e1, state, elapsed);
      (Persist(GameStateUpdates(w, e1, state, elapsed), state).(lastRewardComponents := c.Items(), prevState := Some(state)),
       SumValues(c.Items()))
  }

  lemma StepWithBaseline(w: Weights, e: Engine, state: GameState, elapsed: real)
    requires e.prevState.None?
    ensures StepWith(w, e, state, elapsed).0
      == Persist(e, state).(prevState := Some(state), lastRewardComponents := ZeroComponents.Items())
  {
  }

  lemma StepWithSome(w: Weights, e: Engine, state: GameState, elapsed: real)
    requires e.prevState.Some?
    ensures var e1 := PreReward(e, state);
      var c := GameStateRewards(w, e1, state, elapsed);
      && StepWith(w, e, state, elapsed).0
        == Persist(GameStateUpdates(w, e1, state, elapsed), state).(lastRewardComponents := c.Items(), prevState := Some(state))
      && StepWith(w, e, state, elapsed).1 == SumValues(c.Items())
  {
  }

  /** reward: read game_state from memory, then step. */
  function RewardStep(w: Weights, e: Engine, mem: Memory, elapsed: real): (Engine, real) {
    StepWith(w, e, StateOf(e.seenCoords, mem), elapsed)
  }

  /** The components a non-baseline step computes for `state`. */
  function StepComponents(w: Weights, e: Engine, state: GameState, elapsed: real): Components
    requires e.prevState.Some?
  {
    GameStateRewards(w, PreReward(e, state), state, elapsed)
  }

  /**
   * reset: the baseline becomes the current state (its explored count taken
   * before seen_coords is cleared); the per-episode tile counts, areas and
   * deaths are cleared, the run-wide totals and timestamps are kept.
   */
  function ResetStep(e: Engine, mem: Memory): Engine {
    ResetWith(e, StateOf(e.seenCoords, mem))
  }

  /** reset, once game_state has been read. */
  function ResetWith(e: Engine, state: GameState): Engine {
    Persist(e.(prevState := Some(state), prevReward := 0.0, seenCoords := map[],
               discoveredAreas := {}, diedCount := 0), state)
  }

  /** game_over: the episode ends when health reads 0. */
  function GameOver(e: Engine, mem: Memory): (over: bool)
    ensures over <==> ReadPlayerHealth(mem) == 0
  {
    StateOf(e.seenCoords, mem).health == 0
  }

  /** info: the game state extended with the engine's counters. */
  function InfoOf(e: Engine, mem: Memory): (i: Info)
    ensures i.isDead == GameOver(e, mem)
    ensures i.exploredLocations == i.state.exploredLocations == |e.seenCoords|
    ensures i.currentCoords == i.state.coords == PlayerCoords(mem)
    ensures i.deaths == e.diedCount && i.totalDeaths == e.totalDeaths
    ensures i.rewardComponents == e.lastRewardComponents
  {
    var state := StateOf(e.seenCoords, mem);
    Info(state, e.totalDeaths, state.health == 0, state.coords, |e.seenCoords|,
         e.discoveredAreas, e.areaDiscoveryTimestamps, e.swordDiscoveryTimestamp,
         e.diedCount, e.totalEnemiesKilled, e.totalSmallKeys, e.lastRewardComponents)
  }

  // ---------------------------------------------------------------------
  // Invariant

  /**
   * What every reachable engine satisfies: the sword flag mirrors the
   * stored sword value, every discovered area is a named one with a
   * timestamp, every counted tile was seen at least once, and the baseline
   * state agrees with the stored sword value.
   */
  predicate Inv(e: Engine) {
    && e.swordObtained == (e.prevSword > 0)
    && e.discoveredAreas <= e.areaDiscoveryTimestamps.Keys
    && (forall a :: a in e.discoveredAreas ==> !StartsWith(a, "Unknown Area"))
    && (forall k :: k in e.seenCoords ==> e.seenCoords[k] >= 1)
    && (e.prevState.Some? ==> e.prevState.value.sword == e.prevSword)
  }

  lemma InitialInv()
    ensures Inv(InitialEngine)
  {
  }

  lemma {:induction false} StepPreservesInv(w: Weights, e: Engine, state: GameState, elapsed: real)
    requires Inv(e)
    ensures Inv(StepWith(w, e, state, elapsed).0)
  {
    if e.prevState.Some? {
      var e1 := PreReward(e, state);
      var e2 := GameStateUpdates(w, e1, state, elapsed);
      if AreaFires(e1.discoveredAreas, state) {
        assert e2.discoveredAreas == e.discoveredAreas + {state.area};
        assert state.area in e2.areaDiscoveryTimestamps;
      }
    }
  }

  lemma ResetPreservesInv(e: Engine, state: GameState)
    requires Inv(e)
    ensures Inv(ResetWith(e, state))
  {
  }

  // ---------------------------------------------------------------------
  // Properties of one step

  /** The first call returns 0 with every component 0 and only records the baseline. */
  lemma BaselineStep(w: Weights, e: Engine, state: GameState, elapsed: real)
    requires e.prevState.None?
    ensures var (e', r) := StepWith(w, e, state, elapsed);
      && r == 0.0
      && SumValues(e'.lastRewardComponents) == 0.0
      && e'.lastRewardComponents == ZeroComponents.Items()
      && e'.prevState == Some(state)
      && e'.seenCoords == e.seenCoords && e'.discoveredAreas == e.discoveredAreas
      && e'.diedCount == e.diedCount && e'.totalDeaths == e.totalDeaths
      && e'.prevSword == state.sword && e'.swordObtained == (state.sword > 0)
  {
    ComponentsTotal(ZeroComponents);
  }

  /** sum(rewards.values()) is the sum of the nine components. */
  lemma ComponentsTotal(c: Components)
    ensures SumValues(c.Items()) == c.rupees + c.health + c.explore + c.death + c.areaDiscovery
      + c.sword + c.revisit + c.enemiesKilled + c.smallKeys
  {
    var d := c.Items();
    assert SumValues(d[..0]) == 0.0;
    assert d[..1][..0] == d[..0];
    assert SumValues(d[..1]) == c.rupees;
    assert d[..2][..1] == d[..1];
    assert SumValues(d[..2]) == c.rupees + c.health;
    assert d[..3][..2] == d[..2];
    assert SumValues(d[..3]) == c.rupees + c.health + c.explore;
    assert d[..4][..3] == d[..3];
    assert SumValues(d[..4]) == c.rupees + c.health + c.explore + c.death;
    assert d[..5][..4] == d[..4];
    assert SumValues(d[..5]) == c.rupees + c.health + c.explore + c.death + c.areaDiscovery;
    assert d[..6][..5] == d[..5];
    assert SumValues(d[..6]) == c.rupees + c.health + c.explore + c.death + c.areaDiscovery + c.sword;
    assert d[..7][..6] == d[..6];
    assert SumValues(d[..7]) == c.rupees + c.health + c.explore + c.death + c.areaDiscovery + c.sword
      + c.revisit;
    assert d[..8][..7] == d[..7];
    assert SumValues(d[..8]) == c.rupees + c.health + c.explore + c.death + c.areaDiscovery + c.sword
      + c.revisit + c.enemiesKilled;
    assert d[..9][..8] == d[..8];
    assert d[..9] == d;
  }

  /** A non-baseline step returns the sum of its components and records them. */
  lemma RewardIsComponentSum(w: Weights, e: Engine, state: GameState, elapsed: real)
    requires e.prevState.Some?
    ensures var (e', r) := StepWith(w, e, state, elapsed);
      var c := StepComponents(w, e, state, elapsed);
      && e'.lastRewardComponents == c.Items()
      && e'.prevState == Some(state)
      && r == c.rupees + c.health + c.explore + c.death + c.areaDiscovery
        + c.sword + c.revisit + c.enemiesKilled + c.smallKeys
  {
    ComponentsTotal(StepComponents(w, e, state, elapsed));
  }

  /**
   * Deaths are counted on the transition of health from above 0 to 0, in
   * both the episode and the run-wide counter, and the death component
   * charges every death of the episode so far, on every step.
   */
  lemma DeathCounting(w: Weights, e: Engine, state: GameState, elapsed: real)
    ensures var e' := StepWith(w, e, state, elapsed).0;
      var d := if e.prevState.Some? && state.health == 0 && e.prevState.value.health > 0 then 1 else 0;
      && e'.diedCount == e.diedCount + d
      && e'.totalDeaths == e.totalDeaths + d
      && (e.prevState.Some? ==>
            StepComponents(w, e, state, elapsed).death == w.rewardScale * e'.diedCount as real * -2.0)
  {
  }

  /**
   * Each non-baseline step counts one more visit of the current tile, and
   * the revisit penalty applies from the fifth visit on.
   */
  lemma RevisitCounting(w: Weights, e: Engine, state: GameState, elapsed: real)
    requires e.prevState.Some?
    ensures var e' := StepWith(w, e, state, elapsed).0;
      var k := KeyOf(state.coords);
      var before := if k in e.seenCoords then e.seenCoords[k] else 0;
      && k in e'.seenCoords && e'.seenCoords[k] == before + 1
      && e'.seenCoords.Keys == e.seenCoords.Keys + {k}
      && (forall o :: o in e.seenCoords && o != k ==> e'.seenCoords[o] == e.seenCoords[o])
      && StepComponents(w, e, state, elapsed).revisit
        == (if before + 1 >= 5 then w.rewardScale * w.revisit else w.rewardScale * 0.0)
  {
  }

  /**
   * The explore component pays for growth of the distinct-tile count between
   * the baseline state and this one, and nothing when it did not grow.
   */
  lemma ExploreComponent(w: Weights, e: Engine, state: GameState, elapsed: real)
    requires e.prevState.Some?
    ensures var delta := state.exploredLocations - e.prevState.value.exploredLocations;
      && (StepComponents(w, e, state, elapsed).explore
            == if delta > 0 then w.rewardScale * w.explore * delta as real else 0.0)
      && (delta <= 0 ==> StepComponents(w, e, state, elapsed).explore == 0.0)
  {
  }

  /**
   * A new tile is paid for one step late: game_state counts the tiles
   * before the step's own tile is added. Over two consecutive non-baseline
   * steps whose states carry the tile counts game_state reads, the second
   * pays one tile's worth exactly when the first step's tile was new, and
   * nothing otherwise.
   */
  lemma ExploreLag(w: Weights, e: Engine, s1: GameState, t1: real, s2: GameState, t2: real)
    requires e.prevState.Some? && s1.exploredLocations == |e.seenCoords|
    requires s2.exploredLocations == |SeenAfter(e.seenCoords, KeyOf(s1.coords))|
    ensures var e1 := StepWith(w, e, s1, t1).0;
      && e1.prevState == Some(s1)
      && e1.seenCoords == SeenAfter(e.seenCoords, KeyOf(s1.coords))
      && StepComponents(w, e1, s2, t2).explore
        == if KeyOf(s1.coords) in e.seenCoords then 0.0 else w.rewardScale * w.explore * 1 as real
  {
    var k := KeyOf(s1.coords);
    MapUpdateSize(e.seenCoords, k, if k in e.seenCoords then e.seenCoords[k] + 1 else 1);
    StepWithSome(w, e, s1, t1);
    var e1 := StepWith(w, e, s1, t1).0;
    assert e1.prevState == Some(s1) && e1.seenCoords == SeenAfter(e.seenCoords, k);
    ExploreComponent(w, e1, s2, t2);
    var delta := s2.exploredLocations - s1.exploredLocations;
    if k in e.seenCoords {
      assert delta == 0;
    } else {
      assert delta == 1;
      assert StepComponents(w, e1, s2, t2).explore == w.rewardScale * w.explore * delta as real;
      assert delta as real == 1 as real;
    }
  }

  /**
   * update_area_discovery_reward: a firing adds the area and pays one
   * weight; a timestamp is recorded for the area unless one exists, and
   * timestamps already recorded are kept. Without a firing nothing changes.
   */
  lemma AreaDiscoveryStepSpec(w: Weights, discovered: set<string>, stamps: map<string, int>,
                              state: GameState, elapsed: real)
    ensures var r := AreaDiscoveryStep(w, discovered, stamps, state, elapsed);
      var fires := AreaFires(discovered, state);
      var area := state.area;
      && r.2 == w.rewardScale * (if fires then 1.0 else 0.0) * w.areaDiscovery
      && r.0 == (if fires then discovered + {area} else discovered)
      && r.1.Keys == (if fires then stamps.Keys + {area} else stamps.Keys)
      && (forall a :: a in stamps ==> r.1[a] == stamps[a])
      && (fires && area !in stamps ==> r.1[area] == TruncSeconds(elapsed))
  {
    AreaUpdateSpec(w, AreaFires(discovered, state), discovered, stamps, state.area, elapsed);
  }

  lemma AreaUpdateSpec(w: Weights, fires: bool, discovered: set<string>, stamps: map<string, int>,
                       area: string, elapsed: real)
    ensures var r := AreaUpdate(w, fires, discovered, stamps, area, elapsed);
      && r.2 == w.rewardScale * (if fires then 1.0 else 0.0) * w.areaDiscovery
      && r.0 == (if fires then discovered + {area} else discovered)
      && r.1.Keys == (if fires then stamps.Keys + {area} else stamps.Keys)
      && (forall a :: a in stamps ==> r.1[a] == stamps[a])
      && (fires && area !in stamps ==> r.1[area] == TruncSeconds(elapsed))
  {
  }

  /**
   * Area discovery fires for an area not yet discovered this episode whose
   * position is rewardable; for a state read from memory the "Unknown Area"
   * test never decides anything, since a rewardable position always has a
   * table name.
   */
  lemma AreaDiscovery(w: Weights, e: Engine, state: GameState, elapsed: real)
    requires e.prevState.Some?
    ensures var e' := StepWith(w, e, state, elapsed).0;
      var r := AreaDiscoveryStep(w, e.discoveredAreas, e.areaDiscoveryTimestamps, state, elapsed);
      && (state.area == GetAreaName(state.coords.x, state.coords.y) ==>
            (AreaFires(e.discoveredAreas, state) <==>
               state.area !in e.discoveredAreas && IsAreaRewardable(state.coords.x, state.coords.y)))
      && StepComponents(w, e, state, elapsed).areaDiscovery == r.2
      && e'.discoveredAreas == r.0
      && e'.areaDiscoveryTimestamps == r.1
  {
    RewardableFollowsMatch(state.coords.x, state.coords.y);
  }

  /**
   * The sword component, for a reachable engine, pays exactly when the
   * stored sword value is 0 and the current one is positive; afterwards the
   * stored value is the current one. The first recorded timestamp is kept.
   */
  lemma SwordReward(w: Weights, e: Engine, state: GameState, elapsed: real)
    requires Inv(e) && e.prevState.Some?
    ensures var e' := StepWith(w, e, state, elapsed).0;
      var fires := e.prevSword == 0 && state.sword > 0;
      && StepComponents(w, e, state, elapsed).sword == (if fires then w.rewardScale * w.sword else 0.0)
      && e'.prevSword == state.sword && e'.swordObtained == (state.sword > 0)
      && (e.swordDiscoveryTimestamp.Some? ==> e'.swordDiscoveryTimestamp == e.swordDiscoveryTimestamp)
      && (e.swordDiscoveryTimestamp.None? ==>
            e'.swordDiscoveryTimestamp == if fires then Some(TruncSeconds(elapsed)) else None)
  {
  }

  /**
   * Enemies and small keys: a rise of the counter adds the rise to the
   * run-wide total and pays weight per unit; a fall or no change pays
   * nothing and leaves the total alone. With non-negative scale and weights
   * neither component is ever negative.
   */
  lemma CounterRewards(w: Weights, e: Engine, state: GameState, elapsed: real)
    requires e.prevState.Some?
    ensures var e' := StepWith(w, e, state, elapsed).0;
      var c := StepComponents(w, e, state, elapsed);
      var dEnemies := state.enemiesKilled - e.prevState.value.enemiesKilled;
      var dKeys := state.smallKeys - e.prevState.value.smallKeys;
      && e'.totalEnemiesKilled == e.totalEnemiesKilled + (if dEnemies > 0 then dEnemies else 0)
      && e'.totalSmallKeys == e.totalSmallKeys + (if dKeys > 0 then dKeys else 0)
      && c.enemiesKilled == (if dEnemies > 0 then w.rewardScale * dEnemies as real * w.enemiesKilled else 0.0)
      && c.smallKeys == (if dKeys > 0 then w.rewardScale * dKeys as real * w.smallKey else 0.0)
      && (w.rewardScale >= 0.0 && w.enemiesKilled >= 0.0 ==> c.enemiesKilled >= 0.0)
      && (w.rewardScale >= 0.0 && w.smallKey >= 0.0 ==> c.smallKeys >= 0.0)
  {
    var prev := e.prevState.value;
    CounterStepSpec(w.rewardScale, w.enemiesKilled, prev.enemiesKilled, state.enemiesKilled, e.totalEnemiesKilled);
    CounterStepSpec(w.rewardScale, w.smallKey, prev.smallKeys, state.smallKeys, e.totalSmallKeys);
  }

  /** A counter's rise is added to the total and paid per unit; anything else pays nothing. */
  lemma CounterStepSpec(scale: real, weight: real, prevCount: int, count: int, total: int)
    ensures var (total', r) := CounterStep(scale, weight, prevCount, count, total);
      var d := count - prevCount;
      && total' == total + (if d > 0 then d else 0)
      && total' >= total
      && r == (if d > 0 then scale * d as real * weight else 0.0)
      && (scale >= 0.0 && weight >= 0.0 ==> r >= 0.0)
  {
    var d := count - prevCount;
    if d > 0 && scale >= 0.0 && weight >= 0.0 {
      NonNegProduct(scale, d as real, weight);
    }
  }

  lemma NonNegProduct(a: real, b: real, c: real)
    requires a >= 0.0 && b >= 0.0 && c >= 0.0
    ensures a * b * c >= 0.0
  {
    assert a * b >= 0.0;
  }

  /** Rupees and health pay weight times the change since the baseline state, in either direction. */
  lemma RupeeAndHealth(w: Weights, e: Engine, state: GameState, elapsed: real)
    requires e.prevState.Some?
    ensures var c := StepComponents(w, e, state, elapsed);
      && c.rupees == w.rewardScale * (state.rupees - e.prevState.value.rupees) as real * w.rupee
      && c.health == w.rewardScale * (state.health - e.prevState.value.health) as real * w.health
  {
  }

  /** With the default weights, 10 -> 15 rupees pays 2.5 and health 24 -> 16 costs 4.0. */
  lemma DefaultRupeeAndHealthExample(prev: GameState, state: GameState)
    requires prev.rupees == 10 && state.rupees == 15
    requires prev.health == 24 && state.health == 16
    ensures RupeeReward(DefaultWeights, prev, state) == 2.5
    ensures HealthReward(DefaultWeights, prev, state) == -4.0
  {
  }

  /**
   * reset clears the episode's tiles, areas and deaths, takes the current
   * state as the new baseline (with the explored count from before the
   * clear), and keeps the run-wide counters, timestamps and the last
   * breakdown.
   */
  lemma ResetSemantics(e: Engine, mem: Memory)
    ensures var e' := ResetStep(e, mem);
      && e'.seenCoords == map[] && e'.discoveredAreas == {} && e'.diedCount == 0 && e'.prevReward == 0.0
      && e'.prevState.Some? && e'.prevState.value.exploredLocations == |e.seenCoords|
      && e'.prevState.value.health == ReadPlayerHealth(mem)
      && e'.prevSword == ReadSword(mem) && e'.swordObtained == (ReadSword(mem) > 0)
      && e'.totalDeaths == e.totalDeaths && e'.totalEnemiesKilled == e.totalEnemiesKilled
      && e'.totalSmallKeys == e.totalSmallKeys
      && e'.areaDiscoveryTimestamps == e.areaDiscoveryTimestamps
      && e'.swordDiscoveryTimestamp == e.swordDiscoveryTimestamp
      && e'.lastRewardComponents == e.lastRewardComponents
  {
  }

  /** The first reward call after a reset never pays exploration: the count restarts from 0. */
  lemma NoExploreRightAfterReset(w: Weights, e: Engine, mem0: Memory, mem1: Memory, elapsed: real)
    ensures var e' := ResetStep(e, mem0);
      e'.prevState.Some? && StepComponents(w, e', StateOf(e'.seenCoords, mem1), elapsed).explore == 0.0
  {
    var e' := ResetStep(e, mem0);
    ExploreComponent(w, e', StateOf(e'.seenCoords, mem1), elapsed);
  }

  // ---------------------------------------------------------------------
  // Runs of steps

  /** Successive reward calls, each with its memory and elapsed time. */
  function Run(w: Weights, e: Engine, steps: seq<(Memory, real)>): Engine
    decreases |steps|
  {
    if |steps| == 0 then e else Run(w, RewardStep(w, e, steps[0].0, steps[0].1).0, steps[1..])
  }

  lemma {:induction false} RunAppend(w: Weights, e: Engine, a: seq<(Memory, real)>, b: seq<(Memory, real)>)
    ensures Run(w, e, a + b) == Run(w, Run(w, e, a), b)
    decreases |a|
  {
    if |a| == 0 {
      assert a + b == b;
    } else {
      assert (a + b)[0] == a[0] && (a + b)[1..] == a[1..] + b;
      RunAppend(w, RewardStep(w, e, a[0].0, a[0].1).0, a[1..], b);
    }
  }

  lemma {:induction false} DiscoveredGrowsOverRun(w: Weights, e: Engine, steps: seq<(Memory, real)>)
    ensures e.discoveredAreas <= Run(w, e, steps).discoveredAreas
    decreases |steps|
  {
    if |steps| > 0 {
      var e1 := RewardStep(w, e, steps[0].0, steps[0].1).0;
      if e.prevState.Some? {
        AreaDiscovery(w, e, StateOf(e.seenCoords, steps[0].0), steps[0].1);
      }
      DiscoveredGrowsOverRun(w, e1, steps[1..]);
    }
  }

  /** Cutting a prefix of the steps around position i. */
  lemma PrefixAround<T>(steps: seq<T>, i: nat, j: nat)
    requires i < j <= |steps|
    ensures steps[..j] == steps[..i] + [steps[i]] + steps[i + 1..j]
  {
    assert steps[..i + 1] == steps[..i] + [steps[i]];
    assert steps[..j] == steps[..i + 1] + steps[i + 1..j];
  }

  /** A run of one step is that step. */
  lemma RunOne(w: Weights, e: Engine, x: (Memory, real))
    ensures Run(w, e, [x]) == RewardStep(w, e, x.0, x.1).0
  {
    assert [x][1..] == [];
  }

  /** The run up to j is the step at i followed by the steps strictly between i and j. */
  lemma RunSplitAt(w: Weights, e: Engine, steps: seq<(Memory, real)>, i: nat, j: nat)
    requires i < j <= |steps|
    ensures Run(w, e, steps[..j])
      == Run(w, RewardStep(w, Run(w, e, steps[..i]), steps[i].0, steps[i].1).0, steps[i + 1..j])
  {
    var pre, rest := steps[..i], steps[i + 1..j];
    var one := [steps[i]];
    PrefixAround(steps, i, j);
    RunAppend(w, e, pre + one, rest);
    RunAppend(w, e, pre, one);
    RunOne(w, Run(w, e, pre), steps[i]);
  }

  /** An area whose discovery fires is discovered after the step. */
  lemma FiredAreaDiscovered(w: Weights, e: Engine, mem: Memory, elapsed: real)
    requires e.prevState.Some? && AreaFires(e.discoveredAreas, StateOf(e.seenCoords, mem))
    ensures StateOf(e.seenCoords, mem).area in RewardStep(w, e, mem, elapsed).0.discoveredAreas
  {
    AreaDiscovery(w, e, StateOf(e.seenCoords, mem), elapsed);
  }

  /** Between resets, each area's discovery reward fires at most once. */
  lemma AreaPaidOncePerEpisode(w: Weights, e: Engine, steps: seq<(Memory, real)>, i: nat, j: nat)
    requires i < j < |steps|
    ensures var ei := Run(w, e, steps[..i]);
      var ej := Run(w, e, steps[..j]);
      var si := StateOf(ei.seenCoords, steps[i].0);
      var sj := StateOf(ej.seenCoords, steps[j].0);
      ei.prevState.Some? && AreaFires(ei.discoveredAreas, si) && sj.area == si.area ==>
        !AreaFires(ej.discoveredAreas, sj)
  {
    var ei := Run(w, e, steps[..i]);
    var si := StateOf(ei.seenCoords, steps[i].0);
    if ei.prevState.Some? && AreaFires(ei.discoveredAreas, si) {
      var next := RewardStep(w, ei, steps[i].0, steps[i].1).0;
      FiredAreaDiscovered(w, ei, steps[i].0, steps[i].1);
      RunSplitAt(w, e, steps, i, j);
      DiscoveredGrowsOverRun(w, next, steps[i + 1..j]);
    }
  }

  // ---------------------------------------------------------------------
  // The wrapper object

  /**
   * The game wrapper's reward state: the constructor's weights are
   * constants, every other field is updated in place by the methods below,
   * each of which is specified by the function over Engine of the same step.
   */
  class ZeldaALTTP {
    const envStartTime: real
    const rewardScale: real
    const exploreWeight: real
    const revisitWeight: real
    const areaDiscoveryWeight: real
    const rupeeWeight: real
    const healthWeight: real
    const swordWeight: real
    const enemiesKilledWeight: real
    const smallKeyWeight: real

    var prevState: Option<GameState>
    var prevReward: real
    var lastRewardComponents: Dict
    var diedCount: nat
    var totalDeaths: nat
    var seenCoords: map<TileKey, nat>
    var discoveredAreas: set<string>
    var areaDiscoveryTimestamps: map<string, int>
    var prevSword: int
    var swordObtained: bool
    var swordDiscoveryTimestamp: Option<int>
    var totalEnemiesKilled: int
    var totalSmallKeys: int

    function W(): Weights {
      Weights(rewardScale, exploreWeight, revisitWeight, areaDiscoveryWeight, rupeeWeight,
              healthWeight, swordWeight, enemiesKilledWeight, smallKeyWeight)
    }

    function Model(): Engine
      reads this
    {
      Engine(prevState, prevReward, lastRewardComponents, diedCount, totalDeaths, seenCoords,
             discoveredAreas, areaDiscoveryTimestamps, prevSword, swordObtained,
             swordDiscoveryTimestamp, totalEnemiesKilled, totalSmallKeys)
    }

    predicate Valid()
      reads this
    {
      Inv(Model())
    }

    /** `clock` is the wall-clock reading taken at construction. */
    constructor(clock: real, rewardScale: real := 1.0, exploreWeight: real := 2.0,
                revisitWeight: real := -0.05, areaDiscoveryWeight: real := 10.0,
                rupeeWeight: real := 0.5, healthWeight: real := 0.5, swordWeight: real := 10.0,
                enemiesKilledWeight: real := 2.0, smallKeyWeight: real := 5.0)
      ensures envStartTime == clock
      ensures W() == Weights(rewardScale, exploreWeight, revisitWeight, areaDiscoveryWeight,
                             rupeeWeight, healthWeight, swordWeight, enemiesKilledWeight, smallKeyWeight)
      ensures Model() == InitialEngine && Valid()
    {
      envStartTime := clock;
      this.rewardScale := rewardScale;
      prevState := None;
      prevReward := 0.0;
      lastRewardComponents := [];
      this.rupeeWeight := rupeeWeight;
      this.healthWeight := healthWeight;
      diedCount := 0;
      totalDeaths := 0;
      this.exploreWeight := exploreWeight;
      seenCoords := map[];
      this.revisitWeight := revisitWeight;
      this.areaDiscoveryWeight := areaDiscoveryWeight;
      discoveredAreas := {};
      areaDiscoveryTimestamps := map[];
      this.swordWeight := swordWeight;
      prevSword := 0;
      swordObtained := false;
      swordDiscoveryTimestamp := None;
      this.enemiesKilledWeight := enemiesKilledWeight;
      totalEnemiesKilled := 0;
      this.smallKeyWeight := smallKeyWeight;
      totalSmallKeys := 0;
    }

    method PersistStateData(state: GameState)
      modifies this`prevSword, this`swordObtained
      ensures Model() == Persist(old(Model()), state)
    {
      prevSword := state.sword;
      swordObtained := prevSword > 0;
    }

    method UpdateSeenCoords(state: GameState)
      modifies this`seenCoords
      ensures seenCoords == SeenAfter(old(seenCoords), KeyOf(state.coords))
    {
      var key := KeyOf(state.coords);
      if key in seenCoords {
        seenCoords := seenCoords[key := seenCoords[key] + 1];
      } else {
        seenCoords := seenCoords[key := 1];
      }
    }

    method UpdateAreaDiscoveryReward(state: GameState, now: real) returns (r: real)
      modifies this`discoveredAreas, this`areaDiscoveryTimestamps
      ensures var step := AreaDiscoveryStep(W(), old(discoveredAreas), old(areaDiscoveryTimestamps),
                                            state, now - envStartTime);
        discoveredAreas == step.0 && areaDiscoveryTimestamps == step.1 && r == step.2
    {
      ghost var fires := AreaFires(discoveredAreas, state);
      assert AreaDiscoveryStep(W(), discoveredAreas, areaDiscoveryTimestamps, state, now - envStartTime)
        == AreaUpdate(W(), fires, discoveredAreas, areaDiscoveryTimestamps, state.area, now - envStartTime);
      var areaDiscovery := 0.0;
      if state.area !in discoveredAreas && !StartsWith(state.area, "Unknown Area") {
        if GetAreaRewardable(state.coords.x, state.coords.y) {
          assert fires;
          discoveredAreas := discoveredAreas + {state.area};
          areaDiscovery := 1.0;
          if state.area !in areaDiscoveryTimestamps {
            var elapsed := now - envStartTime;
            areaDiscoveryTimestamps := areaDiscoveryTimestamps[state.area := TruncSeconds(elapsed)];
          }
        }
      }
      r := rewardScale * areaDiscovery * areaDiscoveryWeight;
    }

    method UpdateSwordReward(state: GameState, now: real) returns (r: real)
      modifies this`swordObtained, this`swordDiscoveryTimestamp
      ensures var step := SwordStep(W(), prevSword, old(swordObtained), old(swordDiscoveryTimestamp),
                                    state, now - envStartTime);
        swordObtained == step.0 && swordDiscoveryTimestamp == step.1 && r == step.2
    {
      r := 0.0;
      if !swordObtained && prevSword == 0 && state.sword > 0 {
        r := rewardScale * swordWeight;
        swordObtained := true;
        if swordDiscoveryTimestamp.None? {
          var elapsed := now - envStartTime;
          swordDiscoveryTimestamp := Some(TruncSeconds(elapsed));
        }
      }
    }

    method UpdateEnemiesKilledReward(state: GameState) returns (r: real)
      requires prevState.Some?
      modifies this`totalEnemiesKilled
      ensures var step := CounterStep(rewardScale, enemiesKilledWeight,
                                      prevState.value.enemiesKilled, state.enemiesKilled, old(totalEnemiesKilled));
        totalEnemiesKilled == step.0 && r == step.1
    {
      var delta := state.enemiesKilled - prevState.value.enemiesKilled;
      if delta > 0 {
        totalEnemiesKilled := totalEnemiesKilled + delta;
      }
      r := if delta > 0 then rewardScale * delta as real * enemiesKilledWeight else 0.0;
    }

    method UpdateSmallKeyReward(state: GameState) returns (r: real)
      requires prevState.Some?
      modifies this`totalSmallKeys
      ensures var step := CounterStep(rewardScale, smallKeyWeight,
                                      prevState.value.smallKeys, state.smallKeys, old(totalSmallKeys));
        totalSmallKeys == step.0 && r == step.1
    {
      var delta := state.smallKeys - prevState.value.smallKeys;
      if delta > 0 {
        totalSmallKeys := totalSmallKeys + delta;
      }
      r := if delta > 0 then rewardScale * delta as real * smallKeyWeight else 0.0;
    }

    method GetGameStateReward(state: GameState, now: real) returns (rewards: Components)
      requires prevState.Some?
      modifies this`discoveredAreas, this`areaDiscoveryTimestamps, this`swordObtained,
        this`swordDiscoveryTimestamp, this`totalEnemiesKilled, this`totalSmallKeys
      ensures rewards == GameStateRewards(W(), old(Model()), state, now - envStartTime)
      ensures Model() == GameStateUpdates(W(), old(Model()), state, now - envStartTime)
    {
      var explore := ExploreReward(W(), prevState.value, state);
      var area := UpdateAreaDiscoveryReward(state, now);
      var revisit := RevisitReward(W(), seenCoords, state);
      var rupees := RupeeReward(W(), prevState.value, state);
      var health := HealthReward(W(), prevState.value, state);
      var death := DeathReward(W(), diedCount);
      var sword := UpdateSwordReward(state, now);
      var enemies := UpdateEnemiesKilledReward(state);
      var keys := UpdateSmallKeyReward(state);
      rewards := Components(rupees, health, explore, death, area, sword, revisit, enemies, keys);
    }

    /** The death check at the start of a non-baseline reward call. */
    method CountNewDeath(state: GameState)
      requires prevState.Some?
      modifies this`diedCount, this`totalDeaths
      ensures var d := if NewDeath(prevState.value, state) then 1 else 0;
        diedCount == old(diedCount) + d && totalDeaths == old(totalDeaths) + d
    {
      if state.health == 0 && prevState.value.health > 0 {
        diedCount := diedCount + 1;
        totalDeaths := totalDeaths + 1;
      }
    }

    /** reward: read game_state, then step from it. */
    method Reward(mem: Memory, now: real) returns (total: real)
      requires Valid()
      modifies this
      ensures Model() == RewardStep(W(), old(Model()), mem, now - envStartTime).0
      ensures total == RewardStep(W(), old(Model()), mem, now - envStartTime).1
      ensures Valid()
    {
      var state := StateOf(seenCoords, mem);
      total := RewardFromState(state, now);
    }

    /** The body of reward after its first line, which reads game_state. */
    method RewardFromState(state: GameState, now: real) returns (total: real)
      requires Valid()
      modifies this
      ensures Model() == StepWith(W(), old(Model()), state, now - envStartTime).0
      ensures total == StepWith(W(), old(Model()), state, now - envStartTime).1
      ensures Valid()
    {
      ghost var elapsed := now - envStartTime;
      if prevState.None? {
        prevState := Some(state);
        PersistStateData(state);
        lastRewardComponents := ZeroComponents.Items();
        total := 0.0;
        StepWithBaseline(W(), old(Model()), state, elapsed);
        StepPreservesInv(W(), old(Model()), state, elapsed);
      } else {
        total := ScoreStep(state, now);
      }
    }

    /** reward past the baseline: the death check and the seen update, then the scoring. */
    method ScoreStep(state: GameState, now: real) returns (total: real)
      requires Valid() && prevState.Some?
      modifies this
      ensures Model() == StepWith(W(), old(Model()), state, now - envStartTime).0
      ensures total == StepWith(W(), old(Model()), state, now - envStartTime).1
      ensures Valid()
    {
      ghost var e0 := Model();
      CountNewDeath(state);
      UpdateSeenCoords(state);
      assert Model() == PreReward(e0, state);
      total := ScoreComponents(e0, state, now);
    }

    /** The components, their sum, and the state kept for the next step. */
    method ScoreComponents(ghost e0: Engine, state: GameState, now: real) returns (total: real)
      requires e0.prevState.Some? && Inv(e0) && Model() == PreReward(e0, state)
      modifies this
      ensures Model() == StepWith(W(), e0, state, now - envStartTime).0
      ensures total == StepWith(W(), e0, state, now - envStartTime).1
      ensures Valid()
    {
      ghost var elapsed := now - envStartTime;
      var rewards := GetGameStateReward(state, now);
      ghost var e2 := Model();
      total := SumValues(rewards.Items());
      lastRewardComponents := rewards.Items();
      PersistStateData(state);
      prevState := Some(state);
      assert Model() == Persist(e2, state).(lastRewardComponents := rewards.Items(), prevState := Some(state));
      StepWithSome(W(), e0, state, elapsed);
      StepPreservesInv(W(), e0, state, elapsed);
    }

    method Reset(mem: Memory)
      requires Valid()
      modifies this
      ensures Model() == ResetStep(old(Model()), mem)
      ensures Valid()
    {
      var state := StateOf(seenCoords, mem);
      ResetFromState(state);
    }

    /** reset, once game_state has been read. */
    method ResetFromState(state: GameState)
      requires Valid()
      modifies this
      ensures Model() == ResetWith(old(Model()), state)
      ensures Valid()
    {
      prevState := Some(state);
      prevReward := 0.0;
      seenCoords := map[];
      discoveredAreas := {};
      diedCount := 0;
      PersistStateData(state);
      ResetPreservesInv(old(Model()), state);
    }
  }
}
