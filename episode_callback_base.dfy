/**
 * What every episode-aware training callback shares: the step's local
 * variables as the training loop hands them over, a per-environment
 * episode counter that starts at zero, and the episode-boundary test.
 */
module EpisodeCallbackBase {
  import opened Wrappers
  import opened OrderedDict

  /** A per-environment value: a list with one entry per environment, or one value for all of them. */
  datatype Batch<T> = Many(items: seq<T>) | One(item: T)

  /** `b[idx] if isinstance(b, list) else b`: a list is indexed, a scalar stands for every index. */
  function At<T>(b: Batch<T>, idx: nat): (r: Result<T>)
    ensures b.Many? ==> (r.Ok? <==> idx < |b.items|)
    ensures b.One? ==> r == Ok(b.item)
    ensures b.Many? && idx < |b.items| ==> r == Ok(b.items[idx])
  {
    match b
    case Many(items) => if idx < |items| then Ok(items[idx]) else Err(IndexError)
    case One(item) => Ok(item)
  }

  /** The batch has an entry for every one of the first n environments. */
  predicate Covers<T>(b: Batch<T>, n: nat) {
    b.One? || n <= |b.items|
  }

  /** `current_coords`: world position, tile position and area description. */
  datatype Coords = Coords(x: int, y: int, tileX: int, tileY: int, area: string)

  /** The two entries of an environment's info dict that the callbacks read; None for an absent key. */
  datatype Info = Info(currentCoords: Option<Coords>, rewardComponents: Option<Dict>)

  /**
   * The step's locals: `actions`, `rewards`, `dones`, `truncateds` and
   * `infos`. None is a missing key or None; an `infos` value that is not
   * a list is treated like a missing one.
   */
  datatype Locals = Locals(
    actions: Batch<int>,
    rewards: Option<Batch<real>>,
    dones: Option<Batch<bool>>,
    truncateds: Option<Batch<bool>>,
    infos: Option<seq<Info>>)

  /** The value of a flag at idx, None and a missing key counting as false. */
  function FlagAt(b: Option<Batch<bool>>, idx: nat): Result<bool> {
    if b.None? then Ok(false) else At(b.value, idx)
  }

  /**
   * is_episode_end: `done or truncated`, where a list is indexed, a scalar
   * applies to every environment and a missing value is false; indexing
   * `dones` comes first, so its IndexError wins.
   */
  function IsEpisodeEnd(dones: Option<Batch<bool>>, truncateds: Option<Batch<bool>>, idx: nat): (r: Result<bool>)
    ensures r.Err? <==> FlagAt(dones, idx).Err? || FlagAt(truncateds, idx).Err?
  {
    match FlagAt(dones, idx)
    case Err(e) => Err(e)
    case Ok(done) =>
      match FlagAt(truncateds, idx)
      case Err(e) => Err(e)
      case Ok(truncated) => Ok(done || truncated)
  }

  /** For lists, the boundary is `dones[idx] or truncateds[idx]`. */
  lemma IsEpisodeEndLists(dones: seq<bool>, truncateds: seq<bool>, idx: nat)
    requires idx < |dones| && idx < |truncateds|
    ensures IsEpisodeEnd(Some(Many(dones)), Some(Many(truncateds)), idx) == Ok(dones[idx] || truncateds[idx])
  {
  }

  /** Without truncateds the result depends only on dones: it is what a false truncation gives. */
  lemma IsEpisodeEndWithoutTruncated(dones: Option<Batch<bool>>, idx: nat)
    ensures IsEpisodeEnd(dones, None, idx) == IsEpisodeEnd(dones, Some(One(false)), idx)
    ensures IsEpisodeEnd(dones, None, idx) == FlagAt(dones, idx)
  {
  }

  /** Scalar flags give the same answer for every environment. */
  lemma IsEpisodeEndScalar(done: bool, truncated: Option<bool>, i: nat, j: nat)
    ensures var t := if truncated.Some? then Some(One(truncated.value)) else None;
      IsEpisodeEnd(Some(One(done)), t, i) == IsEpisodeEnd(Some(One(done)), t, j)
  {
  }

  /** Flags that cover the first n environments never raise for them. */
  lemma IsEpisodeEndDefined(dones: Option<Batch<bool>>, truncateds: Option<Batch<bool>>, n: nat, idx: nat)
    requires dones.Some? ==> Covers(dones.value, n)
    requires truncateds.Some? ==> Covers(truncateds.value, n)
    requires idx < n
    ensures IsEpisodeEnd(dones, truncateds, idx).Ok?
  {
  }

  /** The counter list _on_training_start installs: num_envs zeros. */
  function ZeroCounts(numEnvs: nat): (counts: seq<nat>)
    ensures |counts| == numEnvs
    ensures forall i :: 0 <= i < numEnvs ==> counts[i] == 0
  {
    seq(numEnvs, _ => 0)
  }
}
