/**
 What the events of a (track, zone) pair report, told from the frames and from the events themselves: when the visitor
 counts as being in the zone, how long a reported stay was, why it ended, and at which frames a dwell is reported.
 */
module ZoneEvents {
  import opened Options
  import opened Tracks
  import opened ZoneModel
  import opened ZoneTheorems

  // ---------------------------------------------------------------------------
  // When the visitor counts as being in the zone
  // ---------------------------------------------------------------------------

  predicate LastInside(frames: seq<Frame>, i: nat) {
    i < |frames| && frames[i].sight.Inside? && forall j | i < j < |frames| :: frames[j].sight.Unseen?
  }

  /** Some frame showed the visitor inside, and since then it was only missed, in no more frames than the grace allows. */
  ghost predicate Staying(grace: nat, frames: seq<Frame>) {
    exists i: nat :: LastInside(frames, i) && |frames| - 1 - i <= grace
  }

  lemma {:induction false} LastInsideAppend(frames: seq<Frame>, f: Frame, i: nat)
    ensures LastInside(frames + [f], i) <==>
      if i == |frames| then f.sight.Inside? else LastInside(frames, i) && f.sight.Unseen?
  {
    assert (frames + [f])[|frames|] == f && forall j | 0 <= j < |frames| :: (frames + [f])[j] == frames[j];
  }

  /** How many frames have missed the visitor since it was last seen in the zone, while it counts as being there. */
  ghost predicate MissedSince(frames: seq<Frame>, missed: nat) {
    missed < |frames| && LastInside(frames, |frames| - 1 - missed)
  }

  lemma {:induction false} MissedAppend(frames: seq<Frame>, f: Frame, missed: nat)
    ensures MissedSince(frames + [f], missed) <==>
      if missed == 0 then f.sight.Inside? else MissedSince(frames, missed - 1) && f.sight.Unseen?
  {
    if missed <= |frames| {
      LastInsideAppend(frames, f, |frames| - missed);
    }
  }

  lemma {:induction false} StayingMissed(grace: nat, frames: seq<Frame>, missed: nat)
    requires MissedSince(frames, missed)
    ensures Staying(grace, frames) <==> missed <= grace
  {
    assert LastInside(frames, |frames| - 1 - missed);
  }

  /** A live session knows the frame the visitor was last seen inside, and has missed as many frames as there were since. */
  ghost predicate Stays(cfg: Config, frames: seq<Frame>, p: Pair) {
    && (p.live.Some? <==> Staying(cfg.settings.grace, frames))
    && (p.live.Some? ==>
          && MissedSince(frames, p.live.value.missedFrames)
          && p.live.value.lastSeenFrame == frames[|frames| - 1 - p.live.value.missedFrames].index)
  }

  lemma {:induction false} StayStep(cfg: Config, k: Key, frames: seq<Frame>, p: Pair, f: Frame)
    requires Stays(cfg, frames, p)
    ensures Stays(cfg, frames + [f], Step(cfg, k, p, f).0)
  {
    hide LastInside, DwellDue, DwellUntimed, Close, CountDwell, DwellSeconds;
    var q := Step(cfg, k, p, f).0;
    if p.live.Some? {
      MissedAppend(frames, f, p.live.value.missedFrames + 1);
      StayingMissed(cfg.settings.grace, frames, p.live.value.missedFrames);
    }
    MissedAppend(frames, f, 0);
    NoLongerStaying(cfg.settings.grace, frames, f);
    hide Staying, MissedSince;
  }

  /** A frame that shows the visitor decides by itself; one that misses it needs an earlier stay. */
  lemma {:induction false} NoLongerStaying(grace: nat, frames: seq<Frame>, f: Frame)
    ensures f.sight.Inside? ==> Staying(grace, frames + [f])
    ensures Staying(grace, frames + [f]) ==> !f.sight.Outside? && (f.sight.Inside? || Staying(grace, frames))
    ensures forall missed: nat | MissedSince(frames, missed) && f.sight.Unseen? ::
      Staying(grace, frames + [f]) <==> missed + 1 <= grace
  {
    hide LastInside;
    if f.sight.Inside? {
      LastInsideAppend(frames, f, |frames|);
    }
    if Staying(grace, frames + [f]) {
      var i: nat :| LastInside(frames + [f], i) && |frames| - i <= grace;
      LastInsideAppend(frames, f, i);
    }
    forall missed: nat | MissedSince(frames, missed) && f.sight.Unseen?
      ensures Staying(grace, frames + [f]) <==> missed + 1 <= grace
    {
      MissedAppend(frames, f, missed + 1);
      StayingMissed(grace, frames + [f], missed + 1);
    }
  }

  /** After every run a session is live exactly while the visitor counts as being in the zone. */
  lemma {:induction false} LiveExactly(cfg: Config, k: Key, frames: seq<Frame>)
    ensures Stays(cfg, frames, Run(cfg, k, frames).0)
  {
    if frames != [] {
      var front, last := frames[..|frames| - 1], frames[|frames| - 1];
      assert front + [last] == frames;
      LiveExactly(cfg, k, front);
      StayStep(cfg, k, front, Run(cfg, k, front).0, last);
    }
  }

  // ---------------------------------------------------------------------------
  // What the events of a frame are
  // ---------------------------------------------------------------------------

  function EnterCount(log: seq<Event>): nat {
    if log == [] then 0 else EnterCount(log[..|log| - 1]) + (if log[|log| - 1].kind.Enter? then 1 else 0)
  }

  /** The frame of the latest ZONE_ENTER. */
  function EnterFrame(log: seq<Event>): Option<int> {
    if log == [] then None
    else if log[|log| - 1].kind.Enter? then Some(log[|log| - 1].frame)
    else EnterFrame(log[..|log| - 1])
  }

  /** The frame of the latest ZONE_DWELL, unless there was a ZONE_ENTER after it. */
  function DwellFrame(log: seq<Event>): Option<int> {
    if log == [] then None
    else match log[|log| - 1].kind
      case Enter => None
      case DwellEvent => Some(log[|log| - 1].frame)
      case Exit => DwellFrame(log[..|log| - 1])
  }

  /** How long the visitor has been in the zone at a frame, since the latest ZONE_ENTER. */
  function Stayed(clock: Clock, log: seq<Event>, frame: int): real {
    if EnterFrame(log).None? then 0.0
    else Positive(clock.Timestamp(frame) - clock.Timestamp(EnterFrame(log).value))
  }

  /** A dwell is due at the threshold, and then whenever an interval has passed since the last one. */
  predicate Due(cfg: Config, log: seq<Event>, frame: int) {
    && Stayed(cfg.clock, log, frame) >= cfg.settings.threshold
    && (DwellFrame(log).None?
        || cfg.clock.Timestamp(frame) - cfg.clock.Timestamp(DwellFrame(log).value) >= cfg.settings.interval)
  }

  /** The events of a frame, told from whether the visitor was and is in the zone and from the events so far. */
  function EventsAt(cfg: Config, k: Key, log: seq<Event>, was: bool, stays: bool, f: Frame): seq<Event> {
    if f.sight.Inside? then
      var entered := if was then [] else [Event(Enter, k.track, k.region, EnterCount(log) + 1, f.index, 0.0, None)];
      var now := log + entered;
      entered
      + (if Due(cfg, now, f.index) then
           [Event(DwellEvent, k.track, k.region, EnterCount(now), f.index, Stayed(cfg.clock, now, f.index), None)]
         else [])
    else if was && !stays then
      [Event(Exit, k.track, k.region, EnterCount(log), f.index, Stayed(cfg.clock, log, f.index),
             Some(if f.sight.Outside? then CentroidOutside else OcclusionTimeout))]
    else []
  }

  /** The session's clocks are those of the events so far. */
  ghost predicate Clocked(cfg: Config, log: seq<Event>, p: Pair) {
    && p.lastSequence == EnterCount(log)
    && (p.live.Some? ==>
          var s := p.live.value;
          && s.sequence == EnterCount(log)
          && EnterFrame(log).Some? && s.enteredAt == cfg.clock.Timestamp(EnterFrame(log).value)
          && (s.firstDwellEmitted <==> DwellFrame(log).Some?)
          && s.lastDwellAt == (if DwellFrame(log).None? then None else Some(cfg.clock.Timestamp(DwellFrame(log).value))))
  }

  lemma {:induction false} LogAppend(log: seq<Event>, e: Event)
    ensures EnterCount(log + [e]) == EnterCount(log) + (if e.kind.Enter? then 1 else 0)
    ensures EnterFrame(log + [e]) == if e.kind.Enter? then Some(e.frame) else EnterFrame(log)
    ensures DwellFrame(log + [e]) ==
      if e.kind.Enter? then None else if e.kind.DwellEvent? then Some(e.frame) else DwellFrame(log)
  {
    assert (log + [e])[..|log|] == log;
  }

  lemma {:induction false} StartClocked(cfg: Config, k: Key, log: seq<Event>, p: Pair, frame: int)
    requires Clocked(cfg, log, p)
    ensures var (q, more) := Start(cfg, k, p, frame);
      && more == [Event(Enter, k.track, k.region, EnterCount(log) + 1, frame, 0.0, None)]
      && Clocked(cfg, log + more, q)
  {
    LogAppend(log, Start(cfg, k, p, frame).1[0]);
    hide EnterCount, EnterFrame, DwellFrame;
  }

  lemma {:induction false} DwellClocked(cfg: Config, k: Key, log: seq<Event>, p: Pair, frame: int)
    requires Clocked(cfg, log, p) && p.live.Some?
    ensures var (q, more) := MaybeDwell(cfg, k, p, frame);
      && more == (
        if Due(cfg, log, frame) then
          [Event(DwellEvent, k.track, k.region, EnterCount(log), frame, Stayed(cfg.clock, log, frame), None)]
        else [])
      && Clocked(cfg, log + more, q)
  {
    var (q, more) := MaybeDwell(cfg, k, p, frame);
    if more == [] {
      assert log + more == log;
    } else {
      LogAppend(log, more[0]);
    }
    hide EnterCount, EnterFrame, DwellFrame, CountDwell, Clock.Timestamp;
  }

  lemma {:induction false} EndClocked(cfg: Config, k: Key, log: seq<Event>, p: Pair, frame: int, reason: ExitReason)
    requires Clocked(cfg, log, p) && p.live.Some?
    ensures var (q, more) := End(cfg, k, p, frame, reason);
      && more == [Event(Exit, k.track, k.region, EnterCount(log), frame, Stayed(cfg.clock, log, frame), Some(reason))]
      && Clocked(cfg, log + more, q)
  {
    LogAppend(log, End(cfg, k, p, frame, reason).1[0]);
    hide EnterCount, EnterFrame, DwellFrame, Close, Clock.Timestamp;
  }

  lemma {:induction false} SeenClocked(cfg: Config, log: seq<Event>, p: Pair, s: Session)
    requires Clocked(cfg, log, p) && p.live.Some?
    requires s == p.live.value.(missedFrames := s.missedFrames, lastSeenFrame := s.lastSeenFrame)
    ensures Clocked(cfg, log, p.(live := Some(s)))
  {
  }

  lemma {:induction false} StepClocked(cfg: Config, k: Key, frames: seq<Frame>, log: seq<Event>, p: Pair, f: Frame)
    requires Clocked(cfg, log, p) && Stays(cfg, frames, p)
    ensures var (q, more) := Step(cfg, k, p, f); var grace := cfg.settings.grace;
      && more == EventsAt(cfg, k, log, Staying(grace, frames), Staying(grace, frames + [f]), f)
      && Clocked(cfg, log + more, q)
  {
    StayStep(cfg, k, frames, p, f);
    NothingAdded(cfg, log);
    hide Clocked, Start, End, MaybeDwell, Staying, MissedSince, EnterCount, Due, Stayed;
    match f.sight {
      case Inside =>
        var (q, entered) := if p.live.None? then Start(cfg, k, p, f.index) else (p, []);
        if p.live.None? {
          StartClocked(cfg, k, log, p, f.index);
        }
        StartedLive(cfg, k, p, f.index);
        SeenClocked(cfg, log + entered, q, Seen(q.live.value, f.index));
        var s := q.(live := Some(Seen(q.live.value, f.index)));
        DwellClocked(cfg, k, log + entered, s, f.index);
        assert log + entered + MaybeDwell(cfg, k, s, f.index).1 == log + (entered + MaybeDwell(cfg, k, s, f.index).1);
      case Outside =>
        if p.live.Some? {
          SeenClocked(cfg, log, p, Seen(p.live.value, f.index));
          EndClocked(cfg, k, log, p.(live := Some(Seen(p.live.value, f.index))), f.index, CentroidOutside);
          EndsLive(cfg, k, p.(live := Some(Seen(p.live.value, f.index))), f.index, CentroidOutside);
        }
      case Unseen =>
        if p.live.Some? {
          var s := p.live.value.(missedFrames := p.live.value.missedFrames + 1);
          SeenClocked(cfg, log, p, s);
          if s.missedFrames > cfg.settings.grace {
            EndClocked(cfg, k, log, p.(live := Some(s)), f.index, OcclusionTimeout);
            EndsLive(cfg, k, p.(live := Some(s)), f.index, OcclusionTimeout);
          }
        }
    }
  }

  lemma {:induction false} NothingAdded(cfg: Config, log: seq<Event>)
    ensures log + [] == log
  {
  }

  lemma {:induction false} StartedLive(cfg: Config, k: Key, p: Pair, frame: int)
    ensures Start(cfg, k, p, frame).0.live.Some?
  {
  }

  lemma {:induction false} EndsLive(cfg: Config, k: Key, p: Pair, frame: int, reason: ExitReason)
    requires p.live.Some?
    ensures End(cfg, k, p, frame, reason).0.live.None?
  {
  }

  lemma {:induction false} RunClocked(cfg: Config, k: Key, frames: seq<Frame>)
    ensures Clocked(cfg, Run(cfg, k, frames).1, Run(cfg, k, frames).0)
  {
    if frames != [] {
      var front, last := frames[..|frames| - 1], frames[|frames| - 1];
      RunClocked(cfg, k, front);
      LiveExactly(cfg, k, front);
      StepClocked(cfg, k, front, Run(cfg, k, front).1, Run(cfg, k, front).0, last);
    }
  }

  /** One frame more adds exactly the events that the sights and the events so far call for. */
  lemma {:induction false} NextEvents(cfg: Config, k: Key, frames: seq<Frame>, f: Frame)
    ensures var log := Run(cfg, k, frames).1; var grace := cfg.settings.grace;
      Run(cfg, k, frames + [f]).1
        == log + EventsAt(cfg, k, log, Staying(grace, frames), Staying(grace, frames + [f]), f)
  {
    assert (frames + [f])[..|frames|] == frames;
    RunClocked(cfg, k, frames);
    LiveExactly(cfg, k, frames);
    StepClocked(cfg, k, frames, Run(cfg, k, frames).1, Run(cfg, k, frames).0, f);
  }

  // ---------------------------------------------------------------------------
  // What an event reports
  // ---------------------------------------------------------------------------

  /** Event `i` reports the time from the frame of the ZONE_ENTER with its number to its own frame. */
  predicate Timed(cfg: Config, log: seq<Event>, i: nat, j: nat) {
    && j <= i < |log| && log[j].kind.Enter? && log[j].sequence == log[i].sequence
    && log[i].dwell == Positive(cfg.clock.Timestamp(log[i].frame) - cfg.clock.Timestamp(log[j].frame))
  }

  ghost predicate IsTimed(cfg: Config, log: seq<Event>, i: nat) {
    exists j: nat :: Timed(cfg, log, i, j)
  }

  predicate IsEnter(log: seq<Event>, j: nat, sequence: nat) {
    j < |log| && log[j].kind.Enter? && log[j].sequence == sequence
  }

  ghost predicate EachTimed(cfg: Config, log: seq<Event>) {
    forall i: nat | i < |log| :: IsTimed(cfg, log, i) && log[i].sequence <= EnterCount(log)
  }

  ghost predicate EnteredOnce(log: seq<Event>) {
    forall i: nat, j: nat, n: nat | IsEnter(log, i, n) && IsEnter(log, j, n) :: i == j
  }

  ghost predicate LatestFound(log: seq<Event>) {
    EnterFrame(log).Some? ==>
      exists j: nat :: IsEnter(log, j, EnterCount(log)) && log[j].frame == EnterFrame(log).value
  }

  /** Every event is timed by a ZONE_ENTER with its number, and each number is entered once, the highest one last. */
  ghost predicate AllTimed(cfg: Config, log: seq<Event>) {
    EachTimed(cfg, log) && EnteredOnce(log) && LatestFound(log)
  }

  /** An event that follows on: a ZONE_ENTER with the next number, or an event that times the latest stay. */
  predicate Follows(cfg: Config, log: seq<Event>, e: Event) {
    if e.kind.Enter? then e.sequence == EnterCount(log) + 1 && e.dwell == 0.0
    else EnterFrame(log).Some? && e.sequence == EnterCount(log) && e.dwell == Stayed(cfg.clock, log, e.frame)
  }

  lemma {:induction false} TimedMore(cfg: Config, log: seq<Event>, e: Event, i: nat)
    requires i < |log| && IsTimed(cfg, log, i)
    ensures IsTimed(cfg, log + [e], i)
  {
    var j: nat :| Timed(cfg, log, i, j);
    assert Timed(cfg, log + [e], i, j);
  }

  lemma {:induction false} TimedLast(cfg: Config, log: seq<Event>, e: Event)
    requires AllTimed(cfg, log) && Follows(cfg, log, e)
    ensures IsTimed(cfg, log + [e], |log|)
  {
    var g, n := log + [e], |log|;
    if e.kind.Enter? {
      assert Timed(cfg, g, n, n);
    } else {
      var j: nat :| IsEnter(log, j, EnterCount(log)) && log[j].frame == EnterFrame(log).value;
      assert Timed(cfg, g, n, j);
    }
  }

  lemma {:induction false} EnterAppend(log: seq<Event>, e: Event, j: nat, sequence: nat)
    ensures IsEnter(log + [e], j, sequence) <==>
      if j == |log| then e.kind.Enter? && e.sequence == sequence else IsEnter(log, j, sequence)
    ensures IsEnter(log, j, sequence) ==> j < |log|
  {
  }

  lemma {:induction false} TimedAppend(cfg: Config, log: seq<Event>, e: Event)
    requires AllTimed(cfg, log) && Follows(cfg, log, e)
    ensures AllTimed(cfg, log + [e])
  {
    EachAppend(cfg, log, e);
    OnceAppend(cfg, log, e);
    LatestAppend(cfg, log, e);
  }

  lemma {:induction false} EachAppend(cfg: Config, log: seq<Event>, e: Event)
    requires AllTimed(cfg, log) && Follows(cfg, log, e)
    ensures EachTimed(cfg, log + [e])
  {
    var g := log + [e];
    hide AllTimed, Follows, EnterCount, IsTimed;
    forall i: nat | i < |g|
      ensures IsTimed(cfg, g, i) && g[i].sequence <= EnterCount(g)
    {
      TimedAt(cfg, log, e, i);
    }
  }

  lemma {:induction false} TimedAt(cfg: Config, log: seq<Event>, e: Event, i: nat)
    requires AllTimed(cfg, log) && Follows(cfg, log, e) && i <= |log|
    ensures IsTimed(cfg, log + [e], i) && (log + [e])[i].sequence <= EnterCount(log + [e])
  {
    LogAppend(log, e);
    if i == |log| {
      TimedLast(cfg, log, e);
    } else {
      TimedMore(cfg, log, e, i);
      assert (log + [e])[i] == log[i];
    }
    hide EnterCount, EnterFrame, Stayed, IsTimed, EnteredOnce, LatestFound;
  }

  lemma {:induction false} LatestAppend(cfg: Config, log: seq<Event>, e: Event)
    requires AllTimed(cfg, log) && Follows(cfg, log, e)
    ensures LatestFound(log + [e])
  {
    var g := log + [e];
    LogAppend(log, e);
    hide EnterCount, EnterFrame, Stayed, EachTimed, EnteredOnce;
    if e.kind.Enter? {
      assert IsEnter(g, |log|, EnterCount(g)) && g[|log|].frame == e.frame;
    } else {
      var j: nat :| IsEnter(log, j, EnterCount(log)) && log[j].frame == EnterFrame(log).value;
      assert IsEnter(g, j, EnterCount(g)) && g[j].frame == EnterFrame(g).value;
    }
  }

  lemma {:induction false} OnceAppend(cfg: Config, log: seq<Event>, e: Event)
    requires AllTimed(cfg, log) && Follows(cfg, log, e)
    ensures EnteredOnce(log + [e])
  {
    hide EnterCount, EnterFrame, Stayed, IsTimed, IsEnter, LatestFound;
    forall i: nat, j: nat, n: nat | IsEnter(log + [e], i, n) && IsEnter(log + [e], j, n)
      ensures i == j
    {
      EnterAppend(log, e, i, n);
      EnterAppend(log, e, j, n);
      NoneAbove(cfg, log, i, n);
      NoneAbove(cfg, log, j, n);
    }
  }

  lemma {:induction false} NoneAbove(cfg: Config, log: seq<Event>, j: nat, sequence: nat)
    requires EachTimed(cfg, log)
    ensures IsEnter(log, j, sequence) ==> sequence <= EnterCount(log)
  {
  }

  lemma {:induction false} EventsTimed(cfg: Config, k: Key, log: seq<Event>, was: bool, stays: bool, f: Frame)
    requires AllTimed(cfg, log) && (was ==> EnterFrame(log).Some?)
    ensures AllTimed(cfg, log + EventsAt(cfg, k, log, was, stays, f))
  {
    var more := EventsAt(cfg, k, log, was, stays, f);
    hide AllTimed, EnterCount, EnterFrame, Due, Stayed;
    if more == [] {
      assert log + more == log;
    } else {
      FirstFollows(cfg, k, log, was, stays, f);
      TimedAppend(cfg, log, more[0]);
      LogAppend(log, more[0]);
      if |more| == 2 {
        TimedAppend(cfg, log + [more[0]], more[1]);
        assert log + [more[0]] + [more[1]] == log + more;
      } else {
        assert more == [more[0]];
      }
    }
  }

  lemma {:induction false} FirstFollows(cfg: Config, k: Key, log: seq<Event>, was: bool, stays: bool, f: Frame)
    requires was ==> EnterFrame(log).Some?
    ensures var more := EventsAt(cfg, k, log, was, stays, f);
      && (more != [] ==> Follows(cfg, log, more[0]))
      && (|more| == 2 ==> Follows(cfg, log + [more[0]], more[1]))
  {
    if !was {
      LogAppend(log, Event(Enter, k.track, k.region, EnterCount(log) + 1, f.index, 0.0, None));
    }
    assert log + [] == log;
    hide EnterCount, EnterFrame, DwellFrame, Stayed;
  }

  /**
   In every run, each ZONE_EXIT and ZONE_DWELL reports the time since the one ZONE_ENTER with its number, and a
   ZONE_ENTER reports no time.
   */
  lemma {:induction false} RunTimed(cfg: Config, k: Key, frames: seq<Frame>)
    ensures AllTimed(cfg, Run(cfg, k, frames).1)
  {
    if frames == [] {
      NothingTimed(cfg);
    } else {
      var front, last := frames[..|frames| - 1], frames[|frames| - 1];
      var grace := cfg.settings.grace;
      assert front + [last] == frames;
      RunTimed(cfg, k, front);
      NextEvents(cfg, k, front, last);
      RunClocked(cfg, k, front);
      LiveExactly(cfg, k, front);
      EventsTimed(cfg, k, Run(cfg, k, front).1, Staying(grace, front), Staying(grace, frames), last);
    }
  }

  lemma {:induction false} NothingTimed(cfg: Config)
    ensures AllTimed(cfg, [])
  {
  }

  /** Whatever event and ZONE_ENTER of a run share a number, the event reports the time between their frames. */
  lemma {:induction false} ReportedTime(cfg: Config, k: Key, frames: seq<Frame>, i: nat, j: nat)
    requires var log := Run(cfg, k, frames).1;
      i < |log| && j < |log| && log[j].kind.Enter? && log[i].sequence == log[j].sequence
    ensures var log := Run(cfg, k, frames).1;
      log[i].dwell == Positive(cfg.clock.Timestamp(log[i].frame) - cfg.clock.Timestamp(log[j].frame))
  {
    RunTimed(cfg, k, frames);
    hide Run, EnterCount, EnterFrame;
    var log := Run(cfg, k, frames).1;
    assert IsTimed(cfg, log, i);
    var m: nat :| Timed(cfg, log, i, m);
    assert IsEnter(log, m, log[i].sequence) && IsEnter(log, j, log[i].sequence);
  }

  /** Frames are a frame rate's worth of seconds apart; without a rate all have the time of the start. */
  lemma {:induction false} ClockMeans(clock: Clock, frame: int)
    ensures clock.fps > 0.0 ==> (clock.Timestamp(frame) - clock.startedAt) * clock.fps == frame as real
    ensures clock.fps <= 0.0 ==> clock.Timestamp(frame) == clock.startedAt
  {
  }

  /** At a frame rate, the reported time is the number of frames between the two events. */
  lemma {:induction false} ReportedFrames(cfg: Config, k: Key, frames: seq<Frame>, i: nat, j: nat)
    requires var log := Run(cfg, k, frames).1;
      i < |log| && j < |log| && log[j].kind.Enter? && log[i].sequence == log[j].sequence && log[i].frame >= log[j].frame
    requires cfg.clock.fps > 0.0
    ensures var log := Run(cfg, k, frames).1;
      log[i].dwell * cfg.clock.fps == (log[i].frame - log[j].frame) as real
  {
    ReportedTime(cfg, k, frames, i, j);
    var log := Run(cfg, k, frames).1;
    FramesApart(cfg.clock, log[j].frame, log[i].frame);
  }

  lemma {:induction false} FramesApart(clock: Clock, a: int, b: int)
    requires clock.fps > 0.0 && a <= b
    ensures Positive(clock.Timestamp(b) - clock.Timestamp(a)) * clock.fps == (b - a) as real
  {
    ClockMeans(clock, a);
    ClockMeans(clock, b);
    ClockMonotone(clock, a, b);
    var x, y, fps := clock.Timestamp(a) - clock.startedAt, clock.Timestamp(b) - clock.startedAt, clock.fps;
    assert (y - x) * fps == y * fps - x * fps;
  }

  predicate ShownBy(frames: seq<Frame>, n: nat, e: Event) {
    && n < |frames| && frames[n].index == e.frame
    && (e.kind.Enter? || e.kind.DwellEvent? ==> frames[n].sight.Inside? && e.reason.None?)
    && (e.kind.Exit? ==> e.reason == Some(if frames[n].sight.Outside? then CentroidOutside else OcclusionTimeout))
    && (e.kind.Exit? ==> !frames[n].sight.Inside?)
  }

  /** Each event is that of a frame: an exit is blamed on occlusion if the frame misses the track, else on leaving. */
  lemma {:induction false} RunShown(cfg: Config, k: Key, frames: seq<Frame>, i: nat)
    requires i < |Run(cfg, k, frames).1|
    ensures exists n: nat :: ShownBy(frames, n, Run(cfg, k, frames).1[i])
  {
    assert frames != [];
    var front, last := frames[..|frames| - 1], frames[|frames| - 1];
    assert front + [last] == frames;
    NextEvents(cfg, k, front, last);
    hide Run, ShownBy, EventsAt, Staying;
    var log, e := Run(cfg, k, front).1, Run(cfg, k, frames).1[i];
    if i < |log| {
      RunShown(cfg, k, front, i);
      var n: nat :| ShownBy(front, n, e);
      StillShown(front, last, n, e);
    } else {
      var was, stays := Staying(cfg.settings.grace, front), Staying(cfg.settings.grace, frames);
      EventsShown(cfg, k, log, was, stays, last, i - |log|);
      StillShown(front, last, |front|, e);
    }
  }

  lemma {:induction false} StillShown(frames: seq<Frame>, f: Frame, n: nat, e: Event)
    ensures ShownBy(frames, n, e) ==> ShownBy(frames + [f], n, e)
    ensures ShownBy([f], 0, e) ==> ShownBy(frames + [f], |frames|, e)
  {
  }

  lemma {:induction false} EventsShown(cfg: Config, k: Key, log: seq<Event>, was: bool, stays: bool, f: Frame, i: nat)
    requires i < |EventsAt(cfg, k, log, was, stays, f)|
    ensures ShownBy([f], 0, EventsAt(cfg, k, log, was, stays, f)[i])
  {
    hide Due, Stayed, EnterCount;
  }

  /** With increasing frame numbers, a ZONE_EXIT says exactly how its frame showed the track. */
  lemma {:induction false} ExitReasons(cfg: Config, k: Key, frames: seq<Frame>, i: nat, n: nat)
    requires Increasing(frames) && n < |frames|
    requires var log := Run(cfg, k, frames).1; i < |log| && log[i].kind.Exit? && log[i].frame == frames[n].index
    ensures var e := Run(cfg, k, frames).1[i];
      && (e.reason == Some(OcclusionTimeout) <==> frames[n].sight.Unseen?)
      && (e.reason == Some(CentroidOutside) <==> frames[n].sight.Outside?)
  {
    RunShown(cfg, k, frames, i);
    var m: nat :| ShownBy(frames, m, Run(cfg, k, frames).1[i]);
    assert m == n;
  }
}
