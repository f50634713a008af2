/**
 * The statistics logger: per environment, the rewards of the current
 * episode and the running sum of each reward component, turned into one
 * row of episode_stats.csv at the episode boundary. The rows appended to
 * the file are kept as a list; the console output, the running-average
 * report and file handling are left out.
 */
module StatisticCallback {
  import opened Wrappers
  import opened OrderedDict
  import opened EpisodeCallbackBase

  // ---------------------------------------------------------------------
  // Component sums

  /** `for k, v in reward_components.items()`, each added with AddTo. */
  function AddAll(d: Dict, c: Dict): Dict {
    if |c| == 0 then d else AddTo(AddAll(d, c[..|c| - 1]), c[|c| - 1].0, c[|c| - 1].1)
  }

  /** The sum of the values listed under key k. */
  function SumFor(c: Dict, k: string): real {
    if |c| == 0 then 0.0
    else SumFor(c[..|c| - 1], k) + (if c[|c| - 1].0 == k then c[|c| - 1].1 else 0.0)
  }

  /**
   * Adding a breakdown keeps the keys distinct, adds to each key the
   * values the breakdown lists under it, and adds the breakdown's total
   * to the total.
   */
  lemma {:induction false} AddAllSpec(d: Dict, c: Dict, k: string)
    requires DistinctKeys(d)
    ensures DistinctKeys(AddAll(d, c))
    ensures Get(AddAll(d, c), k, 0.0) == Get(d, k, 0.0) + SumFor(c, k)
    ensures SumValues(AddAll(d, c)) == SumValues(d) + SumValues(c)
  {
    if |c| > 0 {
      var init := c[..|c| - 1];
      var (k', v) := c[|c| - 1];
      AddAllSpec(d, init, k);
      AddToSpec(AddAll(d, init), k', v, k);
    }
  }

  /** A dict lists each key at most once, so the values under k sum to its value. */
  lemma {:induction false} SumForDistinct(c: Dict, k: string)
    requires DistinctKeys(c)
    ensures SumFor(c, k) == Get(c, k, 0.0)
  {
    if |c| > 0 {
      var n := |c|;
      var init := c[..n - 1];
      assert DistinctKeys(init);
      SumForDistinct(init, k);
      var i := IndexOfKey(c, k);
      if c[n - 1].0 == k {
        IndexOfKeyAbsent(init, k);
        IndexOfKeyAt(c, n - 1, k);
      } else if i < n {
        IndexOfKeyAt(init, i, k);
      } else {
        IndexOfKeyAbsent(init, k);
      }
    }
  }

  // ---------------------------------------------------------------------
  // One environment

  /** One environment's slice: the episode's rewards, its component sums and its counter. */
  datatype Stats = Stats(rewards: seq<real>, components: Dict, episodes: nat)

  /** The component columns of a row, in this order. */
  const ComponentKeys: seq<string> :=
    ["rupees", "health", "explore", "death", "area_discovery", "sword", "revisit", "enemies_killed", "small_keys"]

  /** The header row of episode_stats.csv. */
  const Header: seq<string> :=
    ["env_idx", "episode", "total_reward_steps", "total_reward_components"] + ComponentKeys

  /** A data row: env, episode, the two totals, then the component columns. */
  datatype Row = Row(env: nat, episode: nat, totalSteps: real, totalComponents: real, columns: seq<real>)

  /** A line of episode_stats.csv: the Header row, or a data row. */
  datatype CsvLine = HeaderLine | DataLine(row: Row)

  /** `sum(list)`, added left to right from 0. */
  function Sum(rs: seq<real>): real {
    if |rs| == 0 then 0.0 else Sum(rs[..|rs| - 1]) + rs[|rs| - 1]
  }

  /** `reward_components.get(k, 0.0) for k in ComponentKeys`. */
  function Columns(d: Dict): (cols: seq<real>)
    ensures |cols| == |ComponentKeys|
    ensures forall j :: 0 <= j < |cols| ==> cols[j] == Get(d, ComponentKeys[j], 0.0)
  {
    seq(|ComponentKeys|, j requires 0 <= j < |ComponentKeys| => Get(d, ComponentKeys[j], 0.0))
  }

  /** One step's reward for an environment, with the breakdown its info reports, if any. */
  function Credit(s: Stats, r: real, comps: Option<Dict>): Stats {
    s.(rewards := s.rewards + [r],
       components := if comps.Some? then AddAll(s.components, comps.value) else s.components)
  }

  /** The breakdown environment idx's info reports, None when infos is not a list or has no breakdown. */
  function ComponentsAt(infos: Option<seq<Info>>, idx: nat): Option<Dict> {
    if infos.Some? && idx < |infos.value| then infos.value[idx].rewardComponents else None
  }

  /** The rewards one step appends to the run's reward history: the list as given, or the one scalar. */
  function LoggedRewards(l: Locals): seq<real> {
    match l.rewards
    case None => []
    case Some(Many(rs)) => rs
    case Some(One(r)) => [r]
  }

  /**
   * The first half of _on_step for environment idx: a list of rewards
   * credits entry idx to environment idx, a scalar reward is credited to
   * environment 0 only.
   */
  function Accumulated(s: Stats, idx: nat, l: Locals): Stats {
    match l.rewards
    case None => s
    case Some(Many(rs)) => if idx < |rs| then Credit(s, rs[idx], ComponentsAt(l.infos, idx)) else s
    case Some(One(r)) => if idx == 0 then Credit(s, r, ComponentsAt(l.infos, 0)) else s
  }

  /** The boundary: the row for the finished episode, then an empty episode with the counter advanced. */
  function Close(s: Stats, idx: nat): (Stats, Row) {
    (Stats([], [], s.episodes + 1),
     Row(idx, s.episodes, Sum(s.rewards), SumValues(s.components), Columns(s.components)))
  }

  /** The locals an _on_step call may be given: at most one reward and one info per environment, flags for all. */
  predicate LocalsFit(l: Locals, numEnvs: nat) {
    && (l.rewards.Some? && l.rewards.value.Many? ==> |l.rewards.value.items| <= numEnvs)
    && (l.rewards.Some? && l.rewards.value.One? ==> numEnvs >= 1)
    && (l.dones.Some? ==> Covers(l.dones.value, numEnvs))
    && (l.truncateds.Some? ==> Covers(l.truncateds.value, numEnvs))
    && (l.infos.Some? ==> numEnvs <= |l.infos.value|)
  }

  /** Environment idx ends its episode this step; with dones missing, nobody does. */
  function Ends(l: Locals, idx: nat, numEnvs: nat): bool
    requires LocalsFit(l, numEnvs) && idx < numEnvs
  {
    IsEpisodeEndDefined(l.dones, l.truncateds, numEnvs, idx);
    l.dones.Some? && IsEpisodeEnd(l.dones, l.truncateds, idx).value
  }

  /** The second half of _on_step for environment idx. */
  function Boundary(s: Stats, idx: nat, l: Locals, numEnvs: nat): (Stats, Option<Row>)
    requires LocalsFit(l, numEnvs) && idx < numEnvs
  {
    if Ends(l, idx, numEnvs) then (Close(s, idx).0, Some(Close(s, idx).1)) else (s, None)
  }

  /** Environment idx's whole share of _on_step. */
  function EnvStep(s: Stats, idx: nat, l: Locals, numEnvs: nat): (Stats, Option<Row>)
    requires LocalsFit(l, numEnvs) && idx < numEnvs
  {
    Boundary(Accumulated(s, idx, l), idx, l, numEnvs)
  }

  /** Every data row has one cell per header column, and the component columns line up with the header's. */
  lemma RowMatchesHeader(s: Stats, idx: nat)
    ensures 4 + |Close(s, idx).1.columns| == |Header|
    ensures Header[4..] == ComponentKeys
  {
  }

  /** The data lines for the rows written, in environment order. */
  function DataLines(rows: seq<Option<Row>>): seq<CsvLine> {
    if |rows| == 0 then []
    else DataLines(rows[..|rows| - 1]) + (if rows[|rows| - 1].Some? then [DataLine(rows[|rows| - 1].value)] else [])
  }

  // ---------------------------------------------------------------------
  // Properties over an episode

  /** Credit a whole episode's (reward, breakdown) steps in order. */
  function CreditAll(s: Stats, steps: seq<(real, Dict)>): Stats {
    if |steps| == 0 then s
    else Credit(CreditAll(s, steps[..|steps| - 1]), steps[|steps| - 1].0, Some(steps[|steps| - 1].1))
  }

  function StepRewards(steps: seq<(real, Dict)>): (rs: seq<real>)
    ensures |rs| == |steps| && forall i :: 0 <= i < |steps| ==> rs[i] == steps[i].0
  {
    if |steps| == 0 then [] else StepRewards(steps[..|steps| - 1]) + [steps[|steps| - 1].0]
  }

  /** The value of key k summed over the steps' breakdowns. */
  function StepSumFor(steps: seq<(real, Dict)>, k: string): real {
    if |steps| == 0 then 0.0 else StepSumFor(steps[..|steps| - 1], k) + SumFor(steps[|steps| - 1].1, k)
  }

  /** The breakdown totals summed over the steps. */
  function StepTotals(steps: seq<(real, Dict)>): real {
    if |steps| == 0 then 0.0 else StepTotals(steps[..|steps| - 1]) + SumValues(steps[|steps| - 1].1)
  }

  /**
   * Over an episode that starts empty, the environment keeps every reward
   * in order, and each component sum and the components' total are the
   * sums over the episode's steps.
   */
  lemma {:induction false} CreditAllSpec(episodes: nat, steps: seq<(real, Dict)>, k: string)
    ensures var s := CreditAll(Stats([], [], episodes), steps);
      && s.rewards == StepRewards(steps)
      && s.episodes == episodes
      && DistinctKeys(s.components)
      && Get(s.components, k, 0.0) == StepSumFor(steps, k)
      && SumValues(s.components) == StepTotals(steps)
  {
    if |steps| > 0 {
      var init := steps[..|steps| - 1];
      CreditAllSpec(episodes, init, k);
      AddAllSpec(CreditAll(Stats([], [], episodes), init).components, steps[|steps| - 1].1, k);
    }
  }

  /**
   * The row written at the end of such an episode: its counter, the sum
   * of the step rewards, the sum of the breakdown totals, and per column
   * the sum of that component over the steps, 0.0 when it never appeared.
   */
  lemma EpisodeRow(idx: nat, episodes: nat, steps: seq<(real, Dict)>)
    ensures var row := Close(CreditAll(Stats([], [], episodes), steps), idx).1;
      && row.env == idx && row.episode == episodes
      && row.totalSteps == Sum(StepRewards(steps))
      && row.totalComponents == StepTotals(steps)
      && |row.columns| == 9
      && forall j :: 0 <= j < 9 ==> row.columns[j] == StepSumFor(steps, ComponentKeys[j])
  {
    forall j | 0 <= j < 9
      ensures Close(CreditAll(Stats([], [], episodes), steps), idx).1.columns[j] == StepSumFor(steps, ComponentKeys[j])
    {
      CreditAllSpec(episodes, steps, ComponentKeys[j]);
    }
    CreditAllSpec(episodes, steps, "");
  }

  /** A step whose info has no breakdown appends the reward and leaves the component sums alone. */
  lemma NoBreakdownKeepsSums(s: Stats, idx: nat, l: Locals)
    requires ComponentsAt(l.infos, idx).None?
    ensures Accumulated(s, idx, l).components == s.components
    ensures l.rewards.Some? && l.rewards.value.Many? && idx < |l.rewards.value.items| ==>
      Accumulated(s, idx, l).rewards == s.rewards + [l.rewards.value.items[idx]]
  {
  }

  /** A scalar reward reaches environment 0 only. */
  lemma ScalarRewardToFirstEnv(s: Stats, idx: nat, l: Locals)
    requires l.rewards.Some? && l.rewards.value.One?
    ensures idx == 0 ==> Accumulated(s, idx, l).rewards == s.rewards + [l.rewards.value.item]
    ensures idx != 0 ==> Accumulated(s, idx, l) == s
  {
  }

  /** After a boundary the episode is empty and the counter has advanced, whether or not a row is written. */
  lemma BoundaryResets(s: Stats, idx: nat, l: Locals, numEnvs: nat)
    requires LocalsFit(l, numEnvs) && idx < numEnvs && Ends(l, idx, numEnvs)
    ensures var (s1, row) := EnvStep(s, idx, l, numEnvs);
      && s1 == Stats([], [], s.episodes + 1)
      && row.Some? && row.value.episode == s.episodes && row.value.env == idx
  {
  }

  // ---------------------------------------------------------------------
  // The callback

  class StatisticLoggingCallback {
    var numEnvs: nat
    var episodeCount: seq<nat>
    const logFreq: int
    var rewards: seq<real>
    var lastLogStep: int
    var episodeRewards: seq<seq<real>>
    var episodeRewardComponents: seq<Dict>
    /** Whether a session directory was given, so that rows go to episode_stats.csv. */
    var logFile: bool
    /** The lines this callback appended to episode_stats.csv. */
    var csv: seq<CsvLine>

    predicate Valid()
      reads this
    {
      && |episodeCount| == numEnvs && |episodeRewards| == numEnvs && |episodeRewardComponents| == numEnvs
      && forall i :: 0 <= i < numEnvs ==> DistinctKeys(episodeRewardComponents[i])
    }

    function StatsAt(i: nat): Stats
      reads this
      requires i < |episodeRewards| && i < |episodeRewardComponents| && i < |episodeCount|
    {
      Stats(episodeRewards[i], episodeRewardComponents[i], episodeCount[i])
    }

    constructor(logFreq: int := 4000)
      ensures this.logFreq == logFreq && rewards == [] && lastLogStep == 0
      ensures numEnvs == 0 && csv == [] && Valid()
    {
      this.logFreq := logFreq;
      rewards := [];
      lastLogStep := 0;
      numEnvs := 0;
      episodeCount := [];
      episodeRewards := [];
      episodeRewardComponents := [];
      logFile := false;
      csv := [];
    }

    /**
     * _on_training_start: empty episodes and zero counters; with a session
     * directory the header row is written only when the file does not exist yet.
     */
    method OnTrainingStart(n: nat, hasSessionDir: bool, csvExists: bool)
      modifies this
      ensures numEnvs == n && episodeCount == ZeroCounts(n)
      ensures episodeRewards == seq(n, _ => []) && episodeRewardComponents == seq(n, _ => [])
      ensures logFile == hasSessionDir
      ensures csv == old(csv) + (if hasSessionDir && !csvExists then [HeaderLine] else [])
      ensures rewards == old(rewards) && lastLogStep == old(lastLogStep)
      ensures Valid()
    {
      numEnvs := n;
      episodeCount := ZeroCounts(n);
      episodeRewards := seq(n, _ => []);
      episodeRewardComponents := seq(n, _ => []);
      logFile := hasSessionDir;
      if hasSessionDir && !csvExists {
        csv := csv + [HeaderLine];
      }
    }

    /** Add one breakdown to environment idx's component sums, key by key. */
    method AddComponents(idx: nat, comps: Dict)
      requires Valid() && idx < numEnvs
      modifies this`episodeRewardComponents
      ensures episodeRewardComponents == old(episodeRewardComponents)[idx := AddAll(old(episodeRewardComponents)[idx], comps)]
      ensures Valid()
    {
      var d := episodeRewardComponents[idx];
      var i := 0;
      while i < |comps|
        invariant 0 <= i <= |comps|
        invariant d == AddAll(old(episodeRewardComponents)[idx], comps[..i])
        invariant DistinctKeys(d)
        invariant episodeRewardComponents == old(episodeRewardComponents)
      {
        assert comps[..i + 1][..i] == comps[..i];
        AddToSpec(d, comps[i].0, comps[i].1, "");
        d := AddTo(d, comps[i].0, comps[i].1);
        i := i + 1;
      }
      assert comps[..|comps|] == comps;
      episodeRewardComponents := episodeRewardComponents[idx := d];
    }

    /** Credit reward r to environment idx, with idx's breakdown when infos is a list. */
    method CreditEnv(idx: nat, r: real, infos: Option<seq<Info>>)
      requires Valid() && idx < numEnvs
      requires infos.Some? ==> numEnvs <= |infos.value|
      modifies this`episodeRewards, this`episodeRewardComponents
      ensures episodeRewards == old(episodeRewards)[idx := old(episodeRewards)[idx] + [r]]
      ensures episodeRewardComponents == old(episodeRewardComponents)[idx :=
        Credit(old(StatsAt(idx)), r, ComponentsAt(infos, idx)).components]
      ensures Valid()
    {
      episodeRewards := episodeRewards[idx := episodeRewards[idx] + [r]];
      if infos.Some? {
        var comps := infos.value[idx].rewardComponents;
        if comps.Some? {
          AddComponents(idx, comps.value);
        }
      }
    }

    /** The reward half of _on_step. */
    method AccumulateRewards(l: Locals)
      requires Valid() && LocalsFit(l, numEnvs)
      modifies this`rewards, this`episodeRewards, this`episodeRewardComponents
      ensures Valid()
      ensures rewards == old(rewards) + LoggedRewards(l)
      ensures forall i :: 0 <= i < numEnvs ==> StatsAt(i) == Accumulated(old(StatsAt(i)), i, l)
    {
      match l.rewards {
        case None =>
        case Some(Many(rs)) =>
          rewards := rewards + rs;
          var idx := 0;
          while idx < |rs|
            invariant 0 <= idx <= |rs| && Valid()
            invariant rewards == old(rewards) + rs
            invariant forall i :: 0 <= i < idx ==> StatsAt(i) == Accumulated(old(StatsAt(i)), i, l)
            invariant forall i :: idx <= i < numEnvs ==> StatsAt(i) == old(StatsAt(i))
          {
            CreditEnv(idx, rs[idx], l.infos);
            idx := idx + 1;
          }
        case Some(One(r)) =>
          rewards := rewards + [r];
          CreditEnv(0, r, l.infos);
      }
    }

    /** The boundary for environment idx: write its row when its episode ends, then start a new episode. */
    method CloseEnv(idx: nat, l: Locals) returns (row: Option<Row>)
      requires Valid() && LocalsFit(l, numEnvs) && idx < numEnvs
      modifies this`episodeRewards, this`episodeRewardComponents, this`episodeCount, this`csv
      ensures Valid()
      ensures (StatsAt(idx), row) == Boundary(old(StatsAt(idx)), idx, l, numEnvs)
      ensures forall i :: 0 <= i < numEnvs && i != idx ==> StatsAt(i) == old(StatsAt(i))
      ensures csv == old(csv) + (if logFile && row.Some? then [DataLine(row.value)] else [])
    {
      row := None;
      if Ends(l, idx, numEnvs) {
        var (s1, r) := Close(StatsAt(idx), idx);
        if logFile {
          csv := csv + [DataLine(r)];
        }
        episodeRewards := episodeRewards[idx := []];
        episodeRewardComponents := episodeRewardComponents[idx := []];
        episodeCount := episodeCount[idx := s1.episodes];
        row := Some(r);
      }
    }

    /** The boundary half of _on_step; `rows[i]` is the row environment i produces, if any. */
    method CloseEpisodes(l: Locals) returns (rows: seq<Option<Row>>)
      requires Valid() && LocalsFit(l, numEnvs)
      modifies this`episodeRewards, this`episodeRewardComponents, this`episodeCount, this`csv
      ensures Valid() && |rows| == numEnvs
      ensures forall i :: 0 <= i < numEnvs ==> (StatsAt(i), rows[i]) == Boundary(old(StatsAt(i)), i, l, numEnvs)
      ensures csv == old(csv) + (if logFile then DataLines(rows) else [])
    {
      rows := [];
      var idx := 0;
      while idx < numEnvs
        invariant 0 <= idx <= numEnvs && |rows| == idx && Valid()
        invariant forall i :: 0 <= i < idx ==> (StatsAt(i), rows[i]) == Boundary(old(StatsAt(i)), i, l, numEnvs)
        invariant forall i :: idx <= i < numEnvs ==> StatsAt(i) == old(StatsAt(i))
        invariant csv == old(csv) + (if logFile then DataLines(rows) else [])
      {
        var row := CloseEnv(idx, l);
        assert (rows + [row])[..idx] == rows;
        rows := rows + [row];
        idx := idx + 1;
      }
    }

    /**
     * _on_step at training step `numTimesteps`: the rewards, then the
     * boundaries; the report marker moves once log_freq steps have passed.
     */
    method OnStep(l: Locals, numTimesteps: int) returns (rows: seq<Option<Row>>)
      requires Valid() && LocalsFit(l, numEnvs)
      modifies this`rewards, this`episodeRewards, this`episodeRewardComponents, this`episodeCount,
        this`csv, this`lastLogStep
      ensures Valid() && |rows| == numEnvs
      ensures rewards == old(rewards) + LoggedRewards(l)
      ensures forall i :: 0 <= i < numEnvs ==> (StatsAt(i), rows[i]) == EnvStep(old(StatsAt(i)), i, l, numEnvs)
      ensures csv == old(csv) + (if logFile then DataLines(rows) else [])
      ensures lastLogStep == if numTimesteps - old(lastLogStep) >= logFreq then numTimesteps else old(lastLogStep)
    {
      AccumulateRewards(l);
      rows := CloseEpisodes(l);
      if numTimesteps - lastLogStep >= logFreq {
        lastLogStep := numTimesteps;
      }
    }
  }
}
