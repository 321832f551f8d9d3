/** The advisory stall monitor, for one run: what it remembers between ticks and what it does on each.
    `others` on a tick says whether another run of the project is executing, which keeps the clock on. */
module StallMonitor {
  import opened Options

  const QUIET_MS := 5 * 60_000

  datatype Stall = Stall(nearTimeout: bool, since: int, observedAt: int)

  datatype Progress = Progress(lastActivityAt: Option<int>, timeoutMs: Option<int>, deadlineAt: Option<int>,
      stall: Option<Stall>)

  /** One execution of one step, as the record holds it; a retry is another one. */
  datatype Execution = Execution(key: nat, startedAt: int, progress: Progress)

  datatype Episode = Episode(
    key: nat, quietSince: int, lastActivityAt: Option<int>, silent: bool, warned: bool, observation: Option<(int, int)>)

  datatype Memory = Memory(armed: bool, observingSince: int, pausedAt: Option<int>, activity: Option<int>,
      episode: Option<Episode>)

  datatype Out =
    | Stalled(key: nat, nearTimeout: bool, since: int, at: int)
    | Resumed(key: nat, at: int)
    | Wrote(key: nat, before: Progress, after: Progress)

  /** What one evaluation leaves: the memory, the record, and what it published and wrote, in order. */
  datatype Turn = Turn(memory: Memory, record: Option<Execution>, outs: seq<Out>)

  function Later(a: int, b: int): int { if a > b then a else b }

  function Armed(m: Memory, now: int): Memory {
    if m.armed then m else m.(armed := true, observingSince := now)
  }

  function Noted(m: Memory, now: int): Memory {
    if m.armed then m.(activity := Some(now)) else m
  }

  /** The latest of three floors: what the record claims, when watching began, when it was last parked. */
  function Floor(m: Memory, e: Execution): int {
    var claimed := if e.progress.lastActivityAt.Some? then e.progress.lastActivityAt.value else e.startedAt;
    Later(Later(claimed, m.observingSince), if m.pausedAt.Some? then m.pausedAt.value else 0)
  }

  /** It is before none of the three and is one of them, or the epoch where the run was never parked. */
  lemma FloorIsTheLatest(m: Memory, e: Execution)
    ensures var f := Floor(m, e);
      var claimed := if e.progress.lastActivityAt.None? then e.startedAt else e.progress.lastActivityAt.value;
      && f >= claimed && f >= m.observingSince && f >= (if m.pausedAt.Some? then m.pausedAt.value else 0)
      && (f == claimed || f == m.observingSince || Some(f) == m.pausedAt || (f == 0 && m.pausedAt.None?))
  {}

  function EpisodeFor(m: Memory, e: Execution): Episode {
    if m.episode.Some? && m.episode.value.key == e.key then m.episode.value
    else Episode(e.key, Floor(m, e), e.progress.lastActivityAt, false, false, None)
  }

  function ProgressOf(ep: Episode, e: Execution, now: int): Progress {
    var stall :=
      if ep.warned then
        var o := if ep.observation.Some? then ep.observation.value else (now, now);
        Some(Stall(true, o.0, o.1))
      else if ep.silent then Some(Stall(false, ep.quietSince, now))
      else None;
    Progress(ep.lastActivityAt, e.progress.timeoutMs, e.progress.deadlineAt, stall)
  }

  /** An episode, the execution on record, and what was published and written so far this tick. */
  datatype Scene = Scene(episode: Episode, record: Execution, outs: seq<Out>)

  function Written(s: Scene, now: int): Scene {
    var after := ProgressOf(s.episode, s.record, now);
    s.(record := s.record.(progress := after), outs := s.outs + [Wrote(s.record.key, s.record.progress, after)])
  }

  function Folded(s: Scene, activity: Option<int>, now: int): Scene {
    if activity.None? || activity.value <= s.episode.quietSince then s
    else
      var heard := s.episode.(quietSince := activity.value, lastActivityAt := activity);
      if !heard.silent then s.(episode := heard)
      else Written(s.(episode := heard.(silent := false), outs := s.outs + [Resumed(heard.key, now)]), now)
  }

  function SilenceChecked(s: Scene, now: int): Scene {
    if s.episode.silent || now - s.episode.quietSince < QUIET_MS then s
    else
      Written(s.(episode := s.episode.(silent := true),
                 outs := s.outs + [Stalled(s.episode.key, false, s.episode.quietSince, now)]), now)
  }

  /** Four fifths of a finite timeout are spent. */
  predicate DeadlineNear(p: Progress, now: int) {
    p.deadlineAt.Some? && p.timeoutMs.Some? && p.timeoutMs.value > 0
        && 5 * (p.deadlineAt.value - now) <= p.timeoutMs.value
  }

  function DeadlineChecked(s: Scene, now: int): Scene {
    var p := s.record.progress;
    if s.episode.warned || !DeadlineNear(p, now) then s
    else
      var since := p.deadlineAt.value - p.timeoutMs.value;
      Written(s.(episode := s.episode.(warned := true, observation := Some((since, now))),
                 outs := s.outs + [Stalled(s.episode.key, true, since, now)]), now)
  }

  /** Forgetting an episode takes the stall it left off the record, if the record is still that step's. */
  function Cleared(m: Memory, record: Option<Execution>): Turn {
    var quiet := m.(episode := None);
    if m.episode.Some? && (m.episode.value.silent || m.episode.value.warned) && record.Some?
       && record.value.key == m.episode.value.key && record.value.progress.stall.Some?
    then
      var before := record.value.progress;
      var after := before.(stall := None);
      Turn(quiet, Some(record.value.(progress := after)), [Wrote(record.value.key, before, after)])
    else Turn(quiet, record, [])
  }

  /** One tick: the executing step, if any, is judged; otherwise the run is parked at this instant. */
  function Evaluated(m: Memory, record: Option<Execution>, running: bool, others: bool, now: int): Turn {
    if running && record.Some? then
      var start := Scene(EpisodeFor(m, record.value), record.value, []);
      var s := DeadlineChecked(SilenceChecked(Folded(start, m.activity, now), now), now);
      Turn(m.(activity := None, episode := Some(s.episode)), Some(s.record), s.outs)
    else
      var t := Cleared(m.(pausedAt := Some(now)), record);
      t.(memory := t.memory.(activity := None, armed := m.armed && others))
  }

  // ---- the class ------------------------------------------------------------------------------------

  class Monitor {
    var armed: bool
    var observingSince: int
    var pausedAt: Option<int>
    var activity: Option<int>
    var episode: Option<Episode>
    var record: Option<Execution>
    var running: bool
    var outs: seq<Out>

    ghost function View(): Memory
      reads this
    {
      Memory(armed, observingSince, pausedAt, activity, episode)
    }

    constructor Attach(record: Option<Execution>, running: bool, now: int)
      ensures View() == Memory(running && record.Some?, now, None, None, None) && outs == []
      ensures this.record == record && this.running == running
    {
      this.record, this.running, outs := record, running, [];
      observingSince, pausedAt, activity, episode := now, None, None, None;
      armed := running && record.Some?;
    }

    method NoteActivity(now: int)
      modifies this`activity
      ensures View() == Noted(old(View()), now)
    {
      if !armed { return; }
      activity := Some(now);
    }

    method Tick(others: bool, now: int)
      modifies this
      ensures var t := Evaluated(old(View()), old(record), old(running), others, now);
        View() == t.memory && record == t.record && outs == old(outs) + t.outs && running == old(running)
    {
      if running && record.Some? {
        var s := Scene(EpisodeFor(Memory(armed, observingSince, pausedAt, activity, episode), record.value),
            record.value, []);
        var heard := activity;
        activity := None;
        s := Fold(s, heard, now);
        s := CheckSilence(s, now);
        s := CheckDeadline(s, now);
        episode, record, outs := Some(s.episode), Some(s.record), outs + s.outs;
      } else {
        pausedAt := Some(now);
        EndEpisode();
        activity := None;
        armed := armed && others;
      }
    }

    method EndEpisode()
      modifies this`episode, this`record, this`outs
      ensures var t := Cleared(old(View()), old(record));
        View() == t.memory && record == t.record && outs == old(outs) + t.outs
    {
      if episode.None? { return; }
      var ended := episode.value;
      episode := None;
      if !ended.silent && !ended.warned { return; }
      if record.None? || record.value.key != ended.key || record.value.progress.stall.None? { return; }
      var before := record.value.progress;
      record := Some(record.value.(progress := before.(stall := None)));
      outs := outs + [Wrote(record.value.key, before, before.(stall := None))];
    }

    method Fold(s: Scene, heard: Option<int>, now: int) returns (r: Scene)
      ensures r == Folded(s, heard, now)
    {
      r := s;
      if heard.None? || heard.value <= r.episode.quietSince { return; }
      r := r.(episode := r.episode.(quietSince := heard.value, lastActivityAt := heard));
      if !r.episode.silent { return; }
      r := r.(episode := r.episode.(silent := false), outs := r.outs + [Resumed(r.episode.key, now)]);
      r := Written(r, now);
    }

    method CheckSilence(s: Scene, now: int) returns (r: Scene)
      ensures r == SilenceChecked(s, now)
    {
      r := s;
      if r.episode.silent || now - r.episode.quietSince < QUIET_MS { return; }
      r := r.(episode := r.episode.(silent := true),
          outs := r.outs + [Stalled(r.episode.key, false, r.episode.quietSince, now)]);
      r := Written(r, now);
    }

    method CheckDeadline(s: Scene, now: int) returns (r: Scene)
      ensures r == DeadlineChecked(s, now)
    {
      r := s;
      var p := r.record.progress;
      if r.episode.warned || p.deadlineAt.None? || p.timeoutMs.None? || p.timeoutMs.value <= 0 { return; }
      if 5 * (p.deadlineAt.value - now) > p.timeoutMs.value { return; }
      var since := p.deadlineAt.value - p.timeoutMs.value;
      r := r.(episode := r.episode.(warned := true, observation := Some((since, now))),
              outs := r.outs + [Stalled(r.episode.key, true, since, now)]);
      r := Written(r, now);
    }
  }
}
