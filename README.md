# Zelda: A Link to the Past reinforcement-learning core, in Dafny

This project models the logic that turns emulator memory into training
rewards for an agent that plays The Legend of Zelda: A Link to the Past
(GBA). It also models the bookkeeping around training. The model is proved
against specifications of what each piece promises.

- **Reward engine** (`ZeldaAlttp`, class `ZeldaALTTP`). Each emulator step
  it reads the game state: health, rupees, position and tile, area name,
  sword, enemies killed, small keys and the number of explored tiles. It
  compares that state with the previous snapshot and its own counters and
  produces nine reward components: rupees, health, explore, death,
  area_discovery, sword, revisit, enemies_killed and small_keys. Their sum is
  the step's reward. `reset` starts a new episode, `game_over` tests health
  and `info` reports the counters.
- **Area table** (`AreaMapping`). The named map rectangles, with inclusive
  containment, the first match in table order, the "Unknown Area (x, y)"
  fallback and the rewardable flag.
- **Memory decoding** (`ZeldaUtils`). Little-endian reads of the player's
  X and Y, 8-pixel tiles, bit tests, popcount and the area description at
  the player's position.
- **Session manager** (`SessionManager`). Training runs are stored as
  `model N/session_<timestamp>_<uid>_<N.kk>/models/...` directories. This
  module covers:
  - choosing the latest model, session and checkpoint;
  - numbering the next model and session;
  - the session-name round trip;
  - the error paths of preparing a new session;
  - the simulated game-time split into hours, minutes and seconds.
- **Training callbacks**. Each callback keeps per-environment state that it
  updates in place on every training step:
  - `EpisodeCallbackBase`: the shared episode counter and the episode-end
    test.
  - `MovementCallback`: per-episode buffers of newly visited tiles, flushed
    to one episode file at each boundary.
  - `StatisticCallback`: per-episode reward lists and component sums, written
    as one CSV row per finished episode.
  - `VideoCallback`: one video-writer slot per environment, modelled as the
    frame count of the open file.

Python's `str(int)`, `int()`, decimal `float()`, `split`, `startswith`,
`bin`, `str.count`, negative indexing, `f"{x:.2f}"` and insertion-ordered
dicts are modelled in `Builtins` and `OrderedDict`. `Wrappers` holds
`Option` and `Result`; `Err` stands for the exception the source raises.

Some of the source updates state in place: the reward engine and the three
callbacks. Each of these is a class with the source's fields. Every method
is proved against a pure function of the old state, and the properties are
lemmas about those functions. The session manager, the area table and
memory decoding are pure functions. The loop in `get_next_session_number`
is a method whose loop is proved against the recursive maximum it computes.

Inputs the source takes from outside are parameters:
- the emulator memory is a total function from address to byte;
- the wall clock is a real number of seconds;
- directory listings are name/node trees;
- timestamps and uuids are opaque strings;
- the training loop's step locals are the `Locals` value.

## Model

| member | source | states |
|---|---|---|
| `Builtins.IntToStringRoundTrip` | ZeldaALTTP/utils/session_manager.py:236 | `int()` reads back every integer that `str()` wrote, so `"model {n}"` names the model `n` |
| `Builtins.FormatHundredthsRoundTrip` | ZeldaALTTP/utils/session_manager.py:110 | `f"{h/100:.2f}"` parses back with `float()` to exactly `h/100` and contains no `_` |
| `Builtins.SplitJoinLast` | ZeldaALTTP/utils/session_manager.py:23 | the last `_`-field of `a + "_" + b` is `b` whenever `b` has no `_` |
| `Builtins.SplitJoinTwo` | ZeldaALTTP/utils/session_manager.py:13 | `split(' ')` of `a + " " + b` with no space in either part gives exactly `[a, b]` |
| `Builtins.IndexOfSpec` | ZeldaALTTP/utils/session_manager.py:23 | the separator search stops at the first occurrence and reports "absent" exactly when the character does not occur |
| `Builtins.BinaryOnesArePopcount` | pygba-main/src/pygba/game_wrappers/utils/zelda_utils.py:37 | the `'1'` digits of a binary numeral number its set bits |
| `Builtins.BinaryDigitAt` | pygba-main/src/pygba/game_wrappers/utils/zelda_utils.py:33 | the k-th binary digit from the right is bit k of the number |
| `OrderedDict.IndexOfKey` | ZeldaALTTP/utils/callbacks/statistic_callback.py:46 | the key test finds the first entry with the key, or reports that no entry has it |
| `OrderedDict.AddToSpec` | ZeldaALTTP/utils/callbacks/statistic_callback.py:46-48 | "create at 0.0, then `+= v`" keeps keys unique, adds `v` to that key only, and adds `v` to the sum of the values |
| `OrderedDict.SumValuesUpdate` | ZeldaALTTP/utils/callbacks/statistic_callback.py:48 | replacing one value changes `sum(d.values())` by exactly the difference |
| `AreaMapping.ContainsIsInclusive` | pygba-main/src/pygba/game_wrappers/utils/area_mapping.py:11-14 | containment holds iff both coordinates lie within their ranges; both ends are inside and the points just past them are outside |
| `AreaMapping.AreasWellFormed` | pygba-main/src/pygba/game_wrappers/utils/area_mapping.py:17-148 | every table entry has min <= max on both axes |
| `AreaMapping.FirstContaining` | pygba-main/src/pygba/game_wrappers/utils/area_mapping.py:155-157 | the scan returns a position inside the table |
| `AreaMapping.FirstContainingSpec` | pygba-main/src/pygba/game_wrappers/utils/area_mapping.py:155-158 | the scan returns the first containing area, and nothing exactly when no area contains the point |
| `AreaMapping.GetAreaByCoordsFirstMatch` | pygba-main/src/pygba/game_wrappers/utils/area_mapping.py:150-158 | `get_area_by_coords` is None iff no table area contains the point; otherwise it is the first table area that does |
| `AreaMapping.BridgeShadowsGrounds` | pygba-main/src/pygba/game_wrappers/utils/area_mapping.py:30-41 | on the edge y = 2272 shared by the bridge and the grounds, table order names the point "Hyrule Castle Bridge" |
| `AreaMapping.TableNamesAreKnown` | pygba-main/src/pygba/game_wrappers/utils/area_mapping.py:17-148 | no table name starts with "Unknown Area" |
| `AreaMapping.UnknownNameIffNoArea` | pygba-main/src/pygba/game_wrappers/utils/area_mapping.py:160-165 | the name starts with "Unknown Area" exactly when no area matches |
| `AreaMapping.RewardableFollowsMatch` | pygba-main/src/pygba/game_wrappers/utils/area_mapping.py:167-169 | rewardable is false off the table and the matched area's flag on it; a rewardable point always has a known name |
| `AreaMapping.LinksHouseNeverRewardable` | pygba-main/src/pygba/game_wrappers/utils/area_mapping.py:18-23 | a point named "Link's House" is never rewardable |
| `ZeldaUtils.ReadU16` | pygba-main/src/pygba/game_wrappers/utils/zelda_utils.py:43-45 | the rupee counter is an unsigned 16-bit value |
| `ZeldaUtils.DecodeFourBytes` | pygba-main/src/pygba/game_wrappers/utils/zelda_utils.py:79-85 | a coordinate is `b0 + 256 b1 + 65536 b2 + 16777216 b3`, a value in [0, 2^32) |
| `ZeldaUtils.PlayerXYFromAddresses` | pygba-main/src/pygba/game_wrappers/utils/zelda_utils.py:87-89 | `read_player_xy` is (X, Y) with X from 0x030038F4.. and Y from 0x030038F0.., both below 2^32 |
| `ZeldaUtils.Tile` | pygba-main/src/pygba/game_wrappers/utils/zelda_utils.py:6 | the tile index is the floor of the coordinate over TILE_SIZE = 8 |
| `ZeldaUtils.BytesOperandRaises` | pygba-main/src/pygba/game_wrappers/utils/zelda_utils.py:33 | `bin(256 + value)[-bit - 1]` raises TypeError at the addition whenever `value` is a byte string, whatever its bytes and the bit |
| `ZeldaUtils.ReadBitAsWrittenAlwaysRaises` | pygba-main/src/pygba/game_wrappers/utils/zelda_utils.py:30-33 | `read_bit` as written passes the byte string `read_memory` returns to `256 + value`, where Python's `+` on an int and bytes raises TypeError, for every memory, address and bit (see Findings) |
| `ZeldaUtils.ReadBitIsBitTest` | pygba-main/src/pygba/game_wrappers/utils/zelda_utils.py:30-33 | the intended `read_bit` is true iff `(v / 2^bit) % 2 == 1` for bits 0..7, and bit 8 reads the added 256 |
| `ZeldaUtils.BitCountIsPopcount` | pygba-main/src/pygba/game_wrappers/utils/zelda_utils.py:35-37 | `bit_count` is the number of set bits of abs(value): 0 for 0 and at most 8 for a byte |
| `ZeldaUtils.AreaDescriptionAtPlayer` | pygba-main/src/pygba/game_wrappers/utils/zelda_utils.py:91-97 | the description is the area name of the decoded (X, Y); a rewardable position never reads "Unknown Area" |
| `ZeldaAlttp.PlayerCoordsSpec` | pygba-main/src/pygba/game_wrappers/zelda_alttp.py:73-78 | coords are the decoded X and Y, the tiles they fall in, and the area named from the same X and Y |
| `ZeldaAlttp.CoordStringInjective` | pygba-main/src/pygba/game_wrappers/zelda_alttp.py:82 | two `seen_coords` key strings are equal iff their tile and area agree, so keying by the triple is the same dict |
| `ZeldaAlttp.TruncSeconds` | pygba-main/src/pygba/game_wrappers/zelda_alttp.py:111-112 | `int(elapsed)` truncates toward zero |
| `ZeldaAlttp.GameOver` | pygba-main/src/pygba/game_wrappers/zelda_alttp.py:231-233 | `game_over` holds iff the health byte is 0 |
| `ZeldaAlttp.InfoOf` | pygba-main/src/pygba/game_wrappers/zelda_alttp.py:244-259 | `is_dead` agrees with `game_over`; the explored count is the number of seen tiles; the counters and last components are those of the engine |
| `ZeldaAlttp.InitialInv` | pygba-main/src/pygba/game_wrappers/zelda_alttp.py:20-53 | the freshly constructed engine satisfies the invariant |
| `ZeldaAlttp.StepPreservesInv` | pygba-main/src/pygba/game_wrappers/zelda_alttp.py:189-229 | every reward call keeps the invariant: sword flag equals `prev_sword > 0`, discovered areas are named and timestamped, seen counts are >= 1 |
| `ZeldaAlttp.ResetPreservesInv` | pygba-main/src/pygba/game_wrappers/zelda_alttp.py:235-242 | reset keeps the invariant |
| `ZeldaAlttp.BaselineStep` | pygba-main/src/pygba/game_wrappers/zelda_alttp.py:192-200 | the first call returns 0.0, sets all nine components to 0.0, stores the baseline and the sword flag, and leaves the counters alone |
| `ZeldaAlttp.ComponentsTotal` | pygba-main/src/pygba/game_wrappers/zelda_alttp.py:175-186 | `sum(rewards.values())` is the sum of the nine named components |
| `ZeldaAlttp.RewardIsComponentSum` | pygba-main/src/pygba/game_wrappers/zelda_alttp.py:211-221 | a later call returns the sum of the nine components, records them as the last components and makes this state the previous one |
| `ZeldaAlttp.DeathCounting` | pygba-main/src/pygba/game_wrappers/zelda_alttp.py:202-205 | both death counters rise by 1 exactly when health is 0 now and was > 0 before; the death component is `scale * died_count * -2.0` on every step |
| `ZeldaAlttp.RevisitCounting` | pygba-main/src/pygba/game_wrappers/zelda_alttp.py:80-100 | the current tile's count rises by 1 before the penalties are computed, other counts are kept, and the penalty applies exactly when the count reaches 5 |
| `ZeldaAlttp.ExploreComponent` | pygba-main/src/pygba/game_wrappers/zelda_alttp.py:89-93 | explore pays `scale * weight * delta` only for a positive delta of the explored count |
| `ZeldaAlttp.ExploreLag` | pygba-main/src/pygba/game_wrappers/zelda_alttp.py:57-93 | the explored count is taken before the tile is recorded (line 65), so a new tile pays explore on the following call, and a seen tile pays nothing |
| `ZeldaAlttp.AreaDiscoveryStepSpec` | pygba-main/src/pygba/game_wrappers/zelda_alttp.py:102-114 | discovery pays once when it fires and adds the area; a timestamp is written only for an area without one, and existing timestamps are kept |
| `ZeldaAlttp.AreaUpdateSpec` | pygba-main/src/pygba/game_wrappers/zelda_alttp.py:106-114 | the discovery update adds the area and a first timestamp exactly when it fires |
| `ZeldaAlttp.AreaDiscovery` | pygba-main/src/pygba/game_wrappers/zelda_alttp.py:102-114 | inside a reward call, for an area named from the position, discovery fires exactly when the area is undiscovered and rewardable, and the step's component and sets are the discovery step's |
| `ZeldaAlttp.SwordReward` | pygba-main/src/pygba/game_wrappers/zelda_alttp.py:125-136 | the sword component is paid exactly when the previous sword was 0 and the current one is > 0; the flag is recomputed from the sword and the timestamp is written once |
| `ZeldaAlttp.CounterStepSpec` | pygba-main/src/pygba/game_wrappers/zelda_alttp.py:138-148 | a counter's rise is added to the lifetime total and paid per unit; the total never falls and non-negative weights never pay a negative amount |
| `ZeldaAlttp.CounterRewards` | pygba-main/src/pygba/game_wrappers/zelda_alttp.py:138-148 | inside a reward call, enemies and small keys pay only positive deltas and their lifetime totals grow by those deltas |
| `ZeldaAlttp.RupeeAndHealth` | pygba-main/src/pygba/game_wrappers/zelda_alttp.py:116-120 | rupees and health pay `scale * (now - prev) * weight`, in either direction |
| `ZeldaAlttp.DefaultRupeeAndHealthExample` | pygba-main/src/pygba/game_wrappers/zelda_alttp.py:116-120 | with the default weights, rupees 10 -> 15 pays 2.5 and health 24 -> 16 costs 4.0 |
| `ZeldaAlttp.ResetSemantics` | pygba-main/src/pygba/game_wrappers/zelda_alttp.py:235-242 | reset clears the seen tiles, discovered areas and episode deaths and re-baselines from memory; the baseline keeps the pre-clear explored count; lifetime totals and timestamps are unchanged |
| `ZeldaAlttp.NoExploreRightAfterReset` | pygba-main/src/pygba/game_wrappers/zelda_alttp.py:235-242 | the first reward call after a reset pays no exploration |
| `ZeldaAlttp.RunAppend` | pygba-main/src/pygba/game_wrappers/zelda_alttp.py:189-229 | a run of reward calls split in two is the second part run from where the first ended |
| `ZeldaAlttp.DiscoveredGrowsOverRun` | pygba-main/src/pygba/game_wrappers/zelda_alttp.py:106-108 | without a reset the discovered-area set only grows |
| `ZeldaAlttp.AreaPaidOncePerEpisode` | pygba-main/src/pygba/game_wrappers/zelda_alttp.py:102-114 | between resets, each area's discovery reward fires at most once |
| `ZeldaAlttp.ZeldaALTTP.constructor` | pygba-main/src/pygba/game_wrappers/zelda_alttp.py:9-53 | stores the start time and the nine weights; the engine starts with no baseline and empty counters |
| `ZeldaAlttp.ZeldaALTTP.PersistStateData` | pygba-main/src/pygba/game_wrappers/zelda_alttp.py:69-71 | stores the sword value and recomputes the sword flag from it |
| `ZeldaAlttp.ZeldaALTTP.UpdateSeenCoords` | pygba-main/src/pygba/game_wrappers/zelda_alttp.py:80-87 | counts one more visit of the current tile key |
| `ZeldaAlttp.ZeldaALTTP.UpdateAreaDiscoveryReward` | pygba-main/src/pygba/game_wrappers/zelda_alttp.py:102-114 | updates the discovered set and timestamps, and returns the component, as the discovery step specifies |
| `ZeldaAlttp.ZeldaALTTP.UpdateSwordReward` | pygba-main/src/pygba/game_wrappers/zelda_alttp.py:125-136 | updates the sword flag and timestamp, and returns the component, as the sword step specifies |
| `ZeldaAlttp.ZeldaALTTP.UpdateEnemiesKilledReward` | pygba-main/src/pygba/game_wrappers/zelda_alttp.py:138-142 | adds the positive enemy delta to the lifetime total and returns its payment |
| `ZeldaAlttp.ZeldaALTTP.UpdateSmallKeyReward` | pygba-main/src/pygba/game_wrappers/zelda_alttp.py:144-148 | adds the positive key delta to the lifetime total and returns its payment |
| `ZeldaAlttp.ZeldaALTTP.GetGameStateReward` | pygba-main/src/pygba/game_wrappers/zelda_alttp.py:151-186 | returns the nine components and leaves the engine updated as the component functions specify |
| `ZeldaAlttp.ZeldaALTTP.CountNewDeath` | pygba-main/src/pygba/game_wrappers/zelda_alttp.py:202-205 | adds 1 to both death counters exactly on a new death |
| `ZeldaAlttp.ZeldaALTTP.Reward` | pygba-main/src/pygba/game_wrappers/zelda_alttp.py:189-229 | reads the state from memory and makes the step that the reward specification gives, returning its total and keeping the invariant |
| `ZeldaAlttp.ZeldaALTTP.RewardFromState` | pygba-main/src/pygba/game_wrappers/zelda_alttp.py:191-229 | from a state already read, either records the baseline or scores the step, as the step function specifies |
| `ZeldaAlttp.ZeldaALTTP.ScoreStep` | pygba-main/src/pygba/game_wrappers/zelda_alttp.py:202-229 | a non-baseline call: counts deaths, records the tile, then scores the step |
| `ZeldaAlttp.ZeldaALTTP.ScoreComponents` | pygba-main/src/pygba/game_wrappers/zelda_alttp.py:211-221 | computes and records the components, persists the state and makes it the previous one |
| `ZeldaAlttp.ZeldaALTTP.Reset` | pygba-main/src/pygba/game_wrappers/zelda_alttp.py:235-242 | resets the engine as the reset specification gives, keeping the invariant |
| `ZeldaAlttp.ZeldaALTTP.ResetFromState` | pygba-main/src/pygba/game_wrappers/zelda_alttp.py:236-242 | the reset's field updates, given the state read before the clear |
| `SessionManager.Lookup` | ZeldaALTTP/utils/session_manager.py:95 | an entry is found only if it is listed, and absent only if no entry has the name |
| `SessionManager.DirsWithPrefix` | ZeldaALTTP/utils/session_manager.py:9 | the filtered names all carry the prefix |
| `SessionManager.DirsWithPrefixSpec` | ZeldaALTTP/utils/session_manager.py:9 | a name is kept iff it is a directory of the listing that starts with the prefix |
| `SessionManager.FirstMax` | ZeldaALTTP/utils/session_manager.py:12-14 | the head of a stable descending sort is the first position holding the largest key |
| `SessionManager.ModelNumbers` | ZeldaALTTP/utils/session_manager.py:13 | the sort keys are `int(name.split(' ')[1])` for every name, or an error when one of them does not parse |
| `SessionManager.LatestModelDirSpec` | ZeldaALTTP/utils/session_manager.py:8-14 | None exactly when there is no model directory; ValueError exactly when a name does not parse; otherwise a directory with the largest number |
| `SessionManager.NextModelNumberAbove` | ZeldaALTTP/utils/session_manager.py:54-59 | 1 when there is no model directory; otherwise above every existing model number |
| `SessionManager.NextModelNumberFromExisting` | ZeldaALTTP/utils/session_manager.py:54-59 | with model directories present, the next number is one more than an existing model number |
| `SessionManager.NextModelNumberFollowsLatest` | ZeldaALTTP/utils/session_manager.py:54-59 | the next model number is the latest model directory's number plus 1, and the two fail together |
| `SessionManager.SessionKeys` | ZeldaALTTP/utils/session_manager.py:21-25 | each session's sort key is its trailing number, or 0 when that does not parse |
| `SessionManager.LatestSessionDirSpec` | ZeldaALTTP/utils/session_manager.py:16-27 | None exactly when there is no session directory; otherwise a session with the largest key |
| `SessionManager.CheckpointsSpec` | ZeldaALTTP/utils/session_manager.py:34 | the glob keeps a name with a creation time exactly when the name matches `zelda_model_*.zip` and some listed entry has that name and that creation time |
| `SessionManager.LatestModelFileSpec` | ZeldaALTTP/utils/session_manager.py:29-38 | `final_model.zip` wins whenever it exists; otherwise the newest checkpoint, and None only without checkpoints |
| `SessionManager.LatestSessionAndModelSpec` | ZeldaALTTP/utils/session_manager.py:40-52 | FileNotFoundError without a model directory or without a session in the latest one, with no fallback; otherwise that model and session |
| `SessionManager.MaxParsedSpec` | ZeldaALTTP/utils/session_manager.py:70-78 | the running maximum is at least N.00 and every parsable number, and is one of them; unparsable names are skipped |
| `SessionManager.RoundHalfEven` | ZeldaALTTP/utils/session_manager.py:79 | `round` returns an integer within 0.5 of its argument, and the even one when the argument lies halfway between two integers |
| `SessionManager.MaxSessionNumber` | ZeldaALTTP/utils/session_manager.py:70-78 | the loop computes the running maximum of N.00 and the parsable trailing numbers |
| `SessionManager.GetNextSessionNumber` | ZeldaALTTP/utils/session_manager.py:61-79 | the method returns the number, in hundredths, that the numbering rule gives |
| `SessionManager.NextSessionAbove` | ZeldaALTTP/utils/session_manager.py:61-79 | N.00 without sessions; otherwise strictly above N.00 and every parsable session number, and at most 0.015 above the maximum |
| `SessionManager.SessionNameRoundTrip` | ZeldaALTTP/utils/session_manager.py:107-110 | a new session name starts with `session_`, and its last `_`-field parses back to the number written into it |
| `SessionManager.NextSessionExample` | ZeldaALTTP/utils/session_manager.py:61-79 | sessions 7.00, 7.03 and 7.07 of model 7 give 7.08 |
| `SessionManager.ModelNumberOf` | ZeldaALTTP/utils/session_manager.py:62-66 | the model number read from `"model {n}"` is n |
| `SessionManager.ClockSpec` | ZeldaALTTP/utils/session_manager.py:219-228 | minutes and seconds are below 60, and hours, minutes and seconds add back up to the whole seconds |
| `SessionManager.CalculateSimulatedGameTime` | ZeldaALTTP/utils/session_manager.py:219-221 | the seconds are timesteps times frameskip over 60, and the text is `"{h}h {m}m {s}s"` with minutes and seconds below 60 and h·3600 + m·60 + s the whole seconds |
| `SessionManager.LatestModelFileFromNumberSpec` | ZeldaALTTP/utils/session_manager.py:230-244 | only a number `int()` rejects raises; a missing model directory or session gives None; a found file lies in the latest session's models folder |
| `SessionManager.PrepareLatestSpec` | ZeldaALTTP/utils/session_manager.py:97-107 | without an override: FileNotFoundError when no model directory exists or the latest has no session; the new session goes into the latest model directory |
| `SessionManager.PrepareOverrideSpec` | ZeldaALTTP/utils/session_manager.py:90-96 | with an override: ValueError for a non-number, FileNotFoundError for a missing directory, else that directory and its latest model file |
| `SessionManager.CreateStartsAtWholeNumber` | ZeldaALTTP/utils/session_manager.py:166-175 | the new model directory did not exist, so its first session is numbered N.00 and its name reads back N |
| `SessionManager.SessionMetadata` | ZeldaALTTP/utils/session_manager.py:181-190 | total timesteps are length times count times environments; the simulated seconds follow from them; the session id is the directory name; a video folder exists iff video is saved headless |
| `EpisodeCallbackBase.IsEpisodeEnd` | ZeldaALTTP/utils/callbacks/episode_callback_base.py:15-22 | the test raises exactly when indexing `dones` or `truncateds` does |
| `EpisodeCallbackBase.IsEpisodeEndLists` | ZeldaALTTP/utils/callbacks/episode_callback_base.py:15-22 | for lists the result is `dones[idx] or truncateds[idx]` |
| `EpisodeCallbackBase.IsEpisodeEndWithoutTruncated` | ZeldaALTTP/utils/callbacks/episode_callback_base.py:18-21 | without `truncateds` the result depends on `dones` alone |
| `EpisodeCallbackBase.IsEpisodeEndScalar` | ZeldaALTTP/utils/callbacks/episode_callback_base.py:17-20 | scalar flags give the same answer for every environment |
| `EpisodeCallbackBase.IsEpisodeEndDefined` | ZeldaALTTP/utils/callbacks/episode_callback_base.py:15-22 | flags covering every environment never raise |
| `MovementCallback.ActionTableIsProduct` | ZeldaALTTP/utils/callbacks/movement_callback.py:105-107 | the action table is the product of arrows and buttons: arrow a with button b is action 5a + b and no other action |
| `MovementCallback.DecodeActionSpec` | ZeldaALTTP/utils/callbacks/movement_callback.py:103-110 | action a in 0..24 is `(arrows[a / 5], buttons[a % 5])`; -25..-1 wrap around; anything else is an IndexError |
| `MovementCallback.DirectionBands` | ZeldaALTTP/utils/callbacks/movement_callback.py:112-121 | actions 0-4 give "none", 5-9 "up", 10-14 "down", 15-19 "right" and 20-24 "left" |
| `MovementCallback.Tiles` | ZeldaALTTP/utils/callbacks/movement_callback.py:64-66 | every buffered movement's tile is in the tile set |
| `MovementCallback.ObserveSpec` | ZeldaALTTP/utils/callbacks/movement_callback.py:61-80 | a movement is appended iff the tile is not yet seen, the tile is then seen, and nothing else changes otherwise |
| `MovementCallback.SeenKeyIgnoresArea` | ZeldaALTTP/utils/callbacks/movement_callback.py:64-65 | the same tile under another area name is not logged again |
| `MovementCallback.TrackStepPreservesInv` | ZeldaALTTP/utils/callbacks/movement_callback.py:59-82 | the seen set stays exactly the buffered tiles, each buffered once |
| `MovementCallback.EmptyBufferEmptySeen` | ZeldaALTTP/utils/callbacks/movement_callback.py:99-100 | under the invariant, the buffer is empty iff the seen set is |
| `MovementCallback.FlushSpec` | ZeldaALTTP/utils/callbacks/movement_callback.py:85-101 | a non-empty buffer becomes one file: entry count, non-empty areas and movements; then buffer and seen set are cleared and the counter rises; an empty buffer changes nothing |
| `MovementCallback.FinalTileFlushed` | ZeldaALTTP/utils/callbacks/movement_callback.py:61-82 | the boundary step's new tile is the last movement of the flushed file |
| `MovementCallback.EnvStepPreservesInv` | ZeldaALTTP/utils/callbacks/movement_callback.py:58-82 | each environment's step keeps its invariant and ends an episode with an empty buffer |
| `MovementCallback.MovementTrackingCallback.constructor` | ZeldaALTTP/utils/callbacks/movement_callback.py:32-38 | no environments and empty per-environment lists |
| `MovementCallback.MovementTrackingCallback.OnTrainingStart` | ZeldaALTTP/utils/callbacks/movement_callback.py:40-51 | zero counters, empty buffers and seen sets, and no area for each environment |
| `MovementCallback.MovementTrackingCallback.SetTrack` | ZeldaALTTP/utils/callbacks/movement_callback.py:79-80 | writes one environment's buffer, seen set, area and counter, and leaves the others |
| `MovementCallback.MovementTrackingCallback.OnStep` | ZeldaALTTP/utils/callbacks/movement_callback.py:53-83 | every environment's new state and file are its own step's, so one environment's boundary leaves the others alone |
| `StatisticCallback.AddAllSpec` | ZeldaALTTP/utils/callbacks/statistic_callback.py:45-48 | adding a breakdown keeps keys unique, adds to each key the values listed under it, and adds the breakdown's total |
| `StatisticCallback.SumForDistinct` | ZeldaALTTP/utils/callbacks/statistic_callback.py:43-45 | in a breakdown with unique keys, the values listed under a key are its one value |
| `StatisticCallback.RowMatchesHeader` | ZeldaALTTP/utils/callbacks/statistic_callback.py:28-31 | a row has as many fields as the header, and the header's component names are the columns' keys in order |
| `StatisticCallback.CreditAllSpec` | ZeldaALTTP/utils/callbacks/statistic_callback.py:36-48 | over an episode the environment keeps every reward in order, and each component sum and the total are the sums over the episode's steps |
| `StatisticCallback.EpisodeRow` | ZeldaALTTP/utils/callbacks/statistic_callback.py:67-81 | the row holds env, episode, the sum of rewards, the sum of component sums and the nine per-component sums |
| `StatisticCallback.NoBreakdownKeepsSums` | ZeldaALTTP/utils/callbacks/statistic_callback.py:43-44 | without `reward_components` the sums are unchanged and only the reward is appended |
| `StatisticCallback.ScalarRewardToFirstEnv` | ZeldaALTTP/utils/callbacks/statistic_callback.py:49-60 | a scalar reward is credited to environment 0 only |
| `StatisticCallback.BoundaryResets` | ZeldaALTTP/utils/callbacks/statistic_callback.py:83-85 | at a boundary the lists empty, the counter rises by 1 and a row for the finished episode is produced, log file or not |
| `StatisticCallback.StatisticLoggingCallback.constructor` | ZeldaALTTP/utils/callbacks/statistic_callback.py:8-15 | stores `log_freq` (default 4000) with empty lists and step 0 |
| `StatisticCallback.StatisticLoggingCallback.OnTrainingStart` | ZeldaALTTP/utils/callbacks/statistic_callback.py:17-31 | empty per-environment lists and zero counters; the header is written only when the CSV does not exist yet |
| `StatisticCallback.StatisticLoggingCallback.AddComponents` | ZeldaALTTP/utils/callbacks/statistic_callback.py:45-48 | the loop adds one breakdown to one environment's sums |
| `StatisticCallback.StatisticLoggingCallback.CreditEnv` | ZeldaALTTP/utils/callbacks/statistic_callback.py:39-48 | appends the reward and adds the reported breakdown for one environment |
| `StatisticCallback.StatisticLoggingCallback.AccumulateRewards` | ZeldaALTTP/utils/callbacks/statistic_callback.py:34-60 | appends this step's rewards to the global reward list and credits each environment as the accumulation step specifies |
| `StatisticCallback.StatisticLoggingCallback.CloseEnv` | ZeldaALTTP/utils/callbacks/statistic_callback.py:67-85 | closes one environment's episode at a boundary, logs its row when there is a log file, and leaves the other environments |
| `StatisticCallback.StatisticLoggingCallback.CloseEpisodes` | ZeldaALTTP/utils/callbacks/statistic_callback.py:62-85 | applies the boundary step to every environment and appends the rows in environment order |
| `StatisticCallback.StatisticLoggingCallback.OnStep` | ZeldaALTTP/utils/callbacks/statistic_callback.py:33-116 | the global reward history gains exactly this step's rewards (the list, or the one scalar); each environment changes as its own step specifies; rows are logged in order; the log step moves when `log_freq` steps have passed |
| `VideoCallback.SlotStepPreservesInv` | ZeldaALTTP/utils/callbacks/video_callback.py:28-43 | an open writer belongs to an episode below `max_videos`, and the counter stays within `max_videos` |
| `VideoCallback.CountBounded` | ZeldaALTTP/utils/callbacks/video_callback.py:28-43 | the episode counter never exceeds `max_videos` |
| `VideoCallback.RecordSpec` | ZeldaALTTP/utils/callbacks/video_callback.py:28-38 | a writer opens only under the three conditions; an open writer gets exactly one frame per step, including the opening step |
| `VideoCallback.BoundarySpec` | ZeldaALTTP/utils/callbacks/video_callback.py:40-43 | at a boundary an open writer closes into a video of its frames and the counter rises; with no writer nothing changes |
| `VideoCallback.RolloutEndReopensSameEpisode` | ZeldaALTTP/utils/callbacks/video_callback.py:46-51 | a writer closed at rollout end reopens on the next step under the same episode number |
| `VideoCallback.CounterStallsAsWritten` | ZeldaALTTP/utils/callbacks/video_callback.py:28-43 | with `record_freq >= 2`, episode 1 is never recorded and never counted, so every later episode is episode 1 again (see Findings) |
| `VideoCallback.CorrectedEpisodeOpen` | ZeldaALTTP/utils/callbacks/video_callback.py:28-38 | with the counter advancing at every boundary, a slot is open during an episode exactly when that episode is recorded |
| `VideoCallback.CorrectedEpisodeSpec` | ZeldaALTTP/utils/callbacks/video_callback.py:28-43 | with the counter advancing at every boundary, an episode of n+1 steps advances the counter by 1 and yields an (n+1)-frame video exactly when it is below `max_videos` and a multiple of `record_freq` |
| `VideoCallback.VideoRecordingCallback.constructor` | ZeldaALTTP/utils/callbacks/video_callback.py:7-15 | stores `record_freq` (default 1), `max_videos` (default 10) and fps 60 |
| `VideoCallback.VideoRecordingCallback.OnTrainingStart` | ZeldaALTTP/utils/callbacks/video_callback.py:17-20 | zero counters and no open writer for each environment |
| `VideoCallback.VideoRecordingCallback.StepEnv` | ZeldaALTTP/utils/callbacks/video_callback.py:27-43 | one environment's open, frame and close, leaving the others |
| `VideoCallback.VideoRecordingCallback.OnStep` | ZeldaALTTP/utils/callbacks/video_callback.py:22-44 | every environment's slot and video are those of its own step |
| `VideoCallback.VideoRecordingCallback.OnRolloutEnd` | ZeldaALTTP/utils/callbacks/video_callback.py:46-51 | closes every open writer into a video, empties every slot and changes no counter |

## Left out

- Emulator memory access (`gba.read_u8`, `read_u16`, `read_memory`) is a foreign call. Memory is a total function from address to byte, passed in. `read_u16` is taken to be little-endian.
- The readers of bombs, maps, boomerang, master key, lamp, items, sword swings and Zelda-with-Link in `zelda_utils.py` are not used by the reward core and are not modelled.
- Wall-clock time, `datetime.now`, `uuid4` and `timedelta` formatting are not modelled. The clock is a real parameter, timestamps are stored as whole elapsed seconds, and timestamps and uuids in names are opaque strings.
- Filesystem effects are not modelled: `mkdir`, `metadata.json`, the script copies, the movement JSON files, the CSV appends and the video files. Directory listings are trees of names, written files are returned values, and the CSV is a list of lines in the class.
- `os.path.getctime` is modelled as a creation time stored with each entry.
- Python float arithmetic is modelled as exact reals, for the reward weights, the component sums and the session numbers. `float()` is modelled for decimal notation only; exponents, `inf` and `nan` are left out.
- `frame_rate` of `calculate_simulated_game_time` is fixed at its default of 60, the only value the callers pass.
- The running-average report and the prints in `statistic_callback.py`, lines 70-71, 82 and 86-115, are console output and are left out. Only the `last_log_step` update on line 116 is modelled.
- `convert_numpy_types`, numpy arrays and the `.item()` shim are left out. A numpy array is a list, and an `infos` value that is not a list is treated like a missing one.
- The movement entry's `timestamp` and the file's metadata timestamp are left out.
- The video frames, `frame_shape` and mediapy encoding are left out. A writer is the number of frames in the open file.
- Each callback class keeps its own `episode_count`. The shared base class is modelled as the functions of `EpisodeCallbackBase`; there is no inheritance.
- `MovementCallback.MovementTrackingCallback.OnStep` requires one action per environment and actions in -25..24, because the action space is `Discrete(25)`. The IndexError of a shorter `actions`, `dones`, `truncateds` or `infos` list is not modelled.
- `StatisticCallback.StatisticLoggingCallback.OnStep` requires at most one reward per environment and enough infos and flags, which is what the training loop passes. The IndexError of more rewards than environments is not modelled.
- `VideoCallback.VideoRecordingCallback.OnStep` requires flags covering every environment, and the constructor requires `record_freq != 0`, for which `%` raises ZeroDivisionError.
- `SessionManager.PrepareNewSessionFromLatestModel` takes the override as the text `int()` reads. An integer override is the same as its decimal text.
- `SessionManager.CreateNewModelAndSession` models `mkdir(parents=True, exist_ok=True)` failing only when a plain file already holds the model directory's name.
- `ZeldaAlttp.ZeldaALTTP` keeps `_prev_reward` as a field that reset sets to 0.0. Nothing reads it, as in the source.
- Python's `int()` and `float()` also accept surrounding whitespace and `_` between digits (`int(" 7")`, `int("1_0")`). The model's parsers reject both. Directory names with such text are read as unparsable.
- `ZeldaAlttp.TruncSeconds` and the stored timestamps are whole seconds. The `str(timedelta)` text is left out.

Three facts about the code that the model reproduces:
- The sword reward fires on every step where the sword goes from 0 to above 0, because the flag is recomputed from the sword value after every step. A sword lost and found again pays again.
- `reset` reads the game state before clearing `seen_coords`, so the new baseline's explored count is the old episode's count. The first call after a reset therefore never pays exploration.
- The "Unknown Area" test in area discovery is implied by the rewardable test. The model keeps both tests and proves that the rewardable test implies the first.

## Findings

| source | as written | input that shows it | evidently intended | confidence | as-written member | corrected member |
|---|---|---|---|---|---|---|
| pygba-main/src/pygba/game_wrappers/utils/zelda_utils.py:30-33 | `read_bit` adds 256 to the result of `read_memory`, which is a byte string, so it raises TypeError | any call, e.g. `read_bit(gba, 0x0200233D, 0)` | read the first byte `v` and return bit `bit` of `256 + v` | medium, not executed | `ZeldaUtils.ReadBitAsWrittenAlwaysRaises` | `ZeldaUtils.ReadBitIsBitTest` |
| ZeldaALTTP/utils/callbacks/video_callback.py:28-43 | the episode counter advances only when a writer was open at the boundary, and a writer opens only for a multiple of `record_freq` | `record_freq = 2`: episode 0 is recorded and the counter becomes 1; episode 1 opens no writer, so its boundary leaves the counter at 1, and this repeats forever | every episode advances the counter, so episodes 0, 2, 4, ... are recorded up to `max_videos` | high, not executed | `VideoCallback.CounterStallsAsWritten` | `VideoCallback.CorrectedEpisodeSpec` |

The corrected read is `ZeldaUtils.ReadBit`. Both reads run the same steps, `ZeldaUtils.BitOf`; they differ only in the operand, the byte string or the int value of its byte. The corrected video step is
`VideoCallback.CorrectedSlotStep`. The class
`VideoCallback.VideoRecordingCallback` follows the code as written, so that
its contract can be compared line by line with the source. The default
`record_freq = 1` does not show the stall.
