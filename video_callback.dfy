/**
 * The video recorder: per environment, a writer slot that opens at the
 * start of a recorded episode, takes one frame per step and closes at the
 * episode boundary. A writer is modelled by the number of frames written
 * to it; the frames themselves, their shape and the encoder are left out.
 */
module VideoCallback {
  import opened Wrappers
  import opened EpisodeCallbackBase

  /** One environment's slot: the open writer's frame count, if one is open, and the counter. */
  datatype Slot = Slot(writer: Option<nat>, episodes: nat)

  /** A finished file env_<env>_episode_<episode>.mp4 holding `frames` frames. */
  datatype Video = Video(env: nat, episode: nat, frames: nat)

  /** The open test: below max_videos, a multiple of record_freq, and no writer open yet. */
  predicate Opens(s: Slot, maxVideos: int, recordFreq: int)
    requires recordFreq != 0
  {
    s.episodes < maxVideos && s.episodes % recordFreq == 0 && s.writer.None?
  }

  /** The first two parts of a step: open if needed, then add this step's frame to an open writer. */
  function Record(s: Slot, maxVideos: int, recordFreq: int): Slot
    requires recordFreq != 0
  {
    var s1 := if Opens(s, maxVideos, recordFreq) then s.(writer := Some(0)) else s;
    if s1.writer.Some? then s1.(writer := Some(s1.writer.value + 1)) else s1
  }

  /**
   * One environment's share of _on_step as written: the counter advances
   * only when a writer is closed at the boundary.
   */
  function SlotStep(s: Slot, env: nat, end: bool, maxVideos: int, recordFreq: int): (Slot, Option<Video>)
    requires recordFreq != 0
  {
    var s2 := Record(s, maxVideos, recordFreq);
    if end && s2.writer.Some? then (Slot(None, s2.episodes + 1), Some(Video(env, s2.episodes, s2.writer.value)))
    else (s2, None)
  }

  /** An open writer belongs to an episode below max_videos, and the counter stays within max_videos. */
  predicate SlotInv(s: Slot, maxVideos: int) {
    && (s.writer.Some? ==> s.episodes < maxVideos)
    && (s.episodes == 0 || s.episodes <= maxVideos)
  }

  lemma SlotStepPreservesInv(s: Slot, env: nat, end: bool, maxVideos: int, recordFreq: int)
    requires recordFreq != 0 && SlotInv(s, maxVideos)
    ensures SlotInv(SlotStep(s, env, end, maxVideos, recordFreq).0, maxVideos)
  {
  }

  /** The counter never passes max_videos (or stays 0 when max_videos is not positive). */
  lemma CountBounded(s: Slot, maxVideos: int)
    requires SlotInv(s, maxVideos)
    ensures s.episodes <= if maxVideos > 0 then maxVideos else 0
  {
  }

  /**
   * A writer is opened exactly under the open test; an open writer gains
   * exactly one frame per step, the opening step included.
   */
  lemma RecordSpec(s: Slot, maxVideos: int, recordFreq: int)
    requires recordFreq != 0
    ensures var s2 := Record(s, maxVideos, recordFreq);
      && s2.episodes == s.episodes
      && (s.writer.None? ==> (s2.writer.Some? <==> Opens(s, maxVideos, recordFreq)))
      && (s.writer.None? && s2.writer.Some? ==> s2.writer.value == 1)
      && (s.writer.Some? ==> s2.writer == Some(s.writer.value + 1))
  {
  }

  /**
   * At a boundary an open writer is closed into the episode's video, the
   * slot is emptied and the counter advances; with no writer open the
   * counter stays where it is.
   */
  lemma BoundarySpec(s: Slot, env: nat, maxVideos: int, recordFreq: int)
    requires recordFreq != 0
    ensures var s2 := Record(s, maxVideos, recordFreq);
      var (s3, video) := SlotStep(s, env, true, maxVideos, recordFreq);
      && (s2.writer.Some? ==>
            s3 == Slot(None, s.episodes + 1) && video == Some(Video(env, s.episodes, s2.writer.value)))
      && (s2.writer.None? ==> s3 == s && video.None?)
  {
  }

  /** _on_rollout_end for one slot: close an open writer into its video; the counter is untouched. */
  function RolloutEnd(s: Slot, env: nat): (Slot, Option<Video>) {
    if s.writer.Some? then (s.(writer := None), Some(Video(env, s.episodes, s.writer.value)))
    else (s, None)
  }

  /**
   * A writer closed at rollout end is reopened on the next step for the
   * same episode, so the new file has the same name as the one just closed.
   */
  lemma RolloutEndReopensSameEpisode(s: Slot, env: nat, end: bool, maxVideos: int, recordFreq: int)
    requires recordFreq != 0 && SlotInv(s, maxVideos) && s.writer.Some? && s.episodes % recordFreq == 0
    ensures var (s1, closed) := RolloutEnd(s, env);
      && closed == Some(Video(env, s.episodes, s.writer.value))
      && s1 == Slot(None, s.episodes)
      && Opens(s1, maxVideos, recordFreq)
      && Record(s1, maxVideos, recordFreq) == Slot(Some(1), s.episodes)
  {
  }

  // ---------------------------------------------------------------------
  // Episodes: as written against the evidently intended numbering

  /** An episode of n steps without a boundary, then the boundary step. */
  function Episode(step: (Slot, bool) -> (Slot, Option<Video>), s: Slot, n: nat): (Slot, Option<Video>)
    decreases n
  {
    if n == 0 then step(s, true) else Episode(step, step(s, false).0, n - 1)
  }

  /**
   * With record_freq of 2 or more, episode 1 is never recorded, so its
   * boundary does not advance the counter: every later episode is episode 1
   * again and nothing after the first video is ever recorded.
   */
  lemma {:induction false} CounterStallsAsWritten(env: nat, maxVideos: int, recordFreq: int, n: nat)
    requires recordFreq >= 2
    ensures Episode((s, end) => SlotStep(s, env, end, maxVideos, recordFreq), Slot(None, 1), n)
      == (Slot(None, 1), None)
  {
    var step := (s, end) => SlotStep(s, env, end, maxVideos, recordFreq);
    assert 1 % recordFreq == 1;
    assert step(Slot(None, 1), false) == (Slot(None, 1), None);
    if n > 0 {
      CounterStallsAsWritten(env, maxVideos, recordFreq, n - 1);
    }
  }

  /** The evidently intended step: every boundary advances the counter, recorded episode or not. */
  function CorrectedSlotStep(s: Slot, env: nat, end: bool, maxVideos: int, recordFreq: int): (Slot, Option<Video>)
    requires recordFreq != 0
  {
    var s2 := Record(s, maxVideos, recordFreq);
    if !end then (s2, None)
    else if s2.writer.Some? then (Slot(None, s2.episodes + 1), Some(Video(env, s2.episodes, s2.writer.value)))
    else (Slot(None, s2.episodes + 1), None)
  }

  /** Within an episode that started with no writer, the slot is open exactly for a recorded episode. */
  lemma {:induction false} CorrectedEpisodeOpen(env: nat, maxVideos: int, recordFreq: int, e: nat, k: nat)
    requires recordFreq != 0
    ensures var s := Slot(None, e);
      var step := (s, end) => CorrectedSlotStep(s, env, end, maxVideos, recordFreq);
      var rec := e < maxVideos && e % recordFreq == 0;
      Steps(step, s, k) == Slot(if rec && k > 0 then Some(k) else None, e)
  {
    if k > 0 {
      CorrectedEpisodeOpen(env, maxVideos, recordFreq, e, k - 1);
    }
  }

  /** k steps without a boundary. */
  function Steps(step: (Slot, bool) -> (Slot, Option<Video>), s: Slot, k: nat): Slot {
    if k == 0 then s else step(Steps(step, s, k - 1), false).0
  }

  lemma {:induction false} EpisodeIsSteps(step: (Slot, bool) -> (Slot, Option<Video>), s: Slot, n: nat)
    ensures Episode(step, s, n) == step(Steps(step, s, n), true)
    decreases n
  {
    if n > 0 {
      EpisodeIsSteps(step, step(s, false).0, n - 1);
      StepsShift(step, s, n - 1);
    }
  }

  lemma {:induction false} StepsShift(step: (Slot, bool) -> (Slot, Option<Video>), s: Slot, k: nat)
    ensures Steps(step, step(s, false).0, k) == Steps(step, s, k + 1)
  {
    if k > 0 {
      StepsShift(step, s, k - 1);
    }
  }

  /**
   * With the corrected step, every episode advances the counter by one,
   * and episode e of n + 1 steps yields its video of n + 1 frames exactly
   * when e is below max_videos and a multiple of record_freq.
   */
  lemma CorrectedEpisodeSpec(env: nat, maxVideos: int, recordFreq: int, e: nat, n: nat)
    requires recordFreq != 0
    ensures var rec := e < maxVideos && e % recordFreq == 0;
      Episode((s, end) => CorrectedSlotStep(s, env, end, maxVideos, recordFreq), Slot(None, e), n)
        == (Slot(None, e + 1), if rec then Some(Video(env, e, n + 1)) else None)
  {
    var step := (s, end) => CorrectedSlotStep(s, env, end, maxVideos, recordFreq);
    EpisodeIsSteps(step, Slot(None, e), n);
    CorrectedEpisodeOpen(env, maxVideos, recordFreq, e, n);
  }

  // ---------------------------------------------------------------------
  // The callback

  /** The boundary flags an _on_step call may be given: one for every environment. */
  predicate FlagsFit(l: Locals, numEnvs: nat) {
    && (l.dones.Some? ==> Covers(l.dones.value, numEnvs))
    && (l.truncateds.Some? ==> Covers(l.truncateds.value, numEnvs))
  }

  /** Environment i's boundary flag. */
  function EndAt(l: Locals, i: nat, numEnvs: nat): bool
    requires FlagsFit(l, numEnvs) && i < numEnvs
  {
    IsEpisodeEndDefined(l.dones, l.truncateds, numEnvs, i);
    IsEpisodeEnd(l.dones, l.truncateds, i).value
  }

  class VideoRecordingCallback {
    const recordFreq: int
    const maxVideos: int
    const fps: nat
    var numEnvs: nat
    var episodeCount: seq<nat>
    var writer: seq<Option<nat>>

    predicate Valid()
      reads this
    {
      && recordFreq != 0
      && |episodeCount| == numEnvs && |writer| == numEnvs
      && forall i :: 0 <= i < numEnvs ==> SlotInv(SlotAt(i), maxVideos)
    }

    function SlotAt(i: nat): Slot
      reads this
      requires i < |writer| && i < |episodeCount|
    {
      Slot(writer[i], episodeCount[i])
    }

    /** The recorder before training starts: no writer list, 60 frames per second. */
    constructor(recordFreq: int := 1, maxVideos: int := 10)
      requires recordFreq != 0
      ensures this.recordFreq == recordFreq && this.maxVideos == maxVideos && fps == 60
      ensures numEnvs == 0 && writer == [] && Valid()
    {
      this.recordFreq := recordFreq;
      this.maxVideos := maxVideos;
      fps := 60;
      numEnvs := 0;
      episodeCount := [];
      writer := [];
    }

    /** _on_training_start: no writer open and zero counters. */
    method OnTrainingStart(n: nat)
      requires recordFreq != 0
      modifies this
      ensures numEnvs == n && episodeCount == ZeroCounts(n) && writer == seq(n, _ => None)
      ensures Valid()
    {
      numEnvs := n;
      episodeCount := ZeroCounts(n);
      writer := seq(n, _ => None);
    }

    /** _on_step: every environment in order; `videos[i]` is the file environment i finishes, if any. */
    method OnStep(l: Locals) returns (videos: seq<Option<Video>>)
      requires Valid() && FlagsFit(l, numEnvs)
      modifies this`writer, this`episodeCount
      ensures Valid() && |videos| == numEnvs
      ensures forall i :: 0 <= i < numEnvs ==>
        (SlotAt(i), videos[i]) == SlotStep(old(SlotAt(i)), i, EndAt(l, i, numEnvs), maxVideos, recordFreq)
    {
      videos := [];
      var i := 0;
      while i < numEnvs
        invariant 0 <= i <= numEnvs && |videos| == i && Valid()
        invariant forall j :: 0 <= j < i ==>
          (SlotAt(j), videos[j]) == SlotStep(old(SlotAt(j)), j, EndAt(l, j, numEnvs), maxVideos, recordFreq)
        invariant forall j :: i <= j < numEnvs ==> SlotAt(j) == old(SlotAt(j))
      {
        var video := StepEnv(i, EndAt(l, i, numEnvs));
        videos := videos + [video];
        i := i + 1;
      }
    }

    /** Environment i's share of _on_step, given its boundary flag. */
    method StepEnv(i: nat, end: bool) returns (video: Option<Video>)
      requires Valid() && i < numEnvs
      modifies this`writer, this`episodeCount
      ensures Valid()
      ensures (SlotAt(i), video) == SlotStep(old(SlotAt(i)), i, end, maxVideos, recordFreq)
      ensures forall j :: 0 <= j < numEnvs && j != i ==> SlotAt(j) == old(SlotAt(j))
    {
      if episodeCount[i] < maxVideos && episodeCount[i] % recordFreq == 0 && writer[i].None? {
        writer := writer[i := Some(0)];
      }
      if writer[i].Some? {
        writer := writer[i := Some(writer[i].value + 1)];
      }
      video := None;
      if end && writer[i].Some? {
        video := Some(Video(i, episodeCount[i], writer[i].value));
        writer := writer[i := None];
        episodeCount := episodeCount[i := episodeCount[i] + 1];
      }
      SlotStepPreservesInv(old(SlotAt(i)), i, end, maxVideos, recordFreq);
      assert forall j :: 0 <= j < numEnvs && j != i ==> SlotAt(j) == old(SlotAt(j));
    }

    /** _on_rollout_end: every open writer is closed and every slot emptied; no counter changes. */
    method OnRolloutEnd() returns (videos: seq<Option<Video>>)
      requires Valid()
      modifies this`writer
      ensures Valid() && |videos| == numEnvs
      ensures writer == seq(numEnvs, _ => None)
      ensures forall i :: 0 <= i < numEnvs ==> videos[i] == RolloutEnd(old(SlotAt(i)), i).1
    {
      var n, w, c := numEnvs, writer, episodeCount;
      videos := seq(n, i requires 0 <= i < n =>
        if w[i].Some? then Some(Video(i, c[i], w[i].value)) else None);
      writer := seq(n, _ => None);
      assert forall i :: 0 <= i < n ==> SlotAt(i) == RolloutEnd(old(SlotAt(i)), i).0;
    }
  }
}
