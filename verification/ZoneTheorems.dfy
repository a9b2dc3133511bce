/** Laws of a (track, zone) pair over every run of frames. */
module ZoneTheorems {
  import opened Options
  import opened Tracks
  import opened ZoneModel

  // ---------------------------------------------------------------------------
  // Sessions and history agree
  // ---------------------------------------------------------------------------

  predicate AllClosed(visits: seq<Visit>) {
    forall i | 0 <= i < |visits| :: visits[i].exitedFrame.Some?
  }

  /** Visits are numbered 1, 2, 3, ... */
  predicate Numbered(visits: seq<Visit>) {
    forall i | 0 <= i < |visits| :: visits[i].sequence == i + 1
  }

  /** A closed visit ends after it began and before the next one begins; all of it before `now`. */
  predicate Separate(visits: seq<Visit>, now: int) {
    && (forall i | 0 <= i < |visits| :: visits[i].enteredFrame <= now)
    && (forall i | 0 <= i < |visits| && visits[i].exitedFrame.Some? ::
          visits[i].enteredFrame < visits[i].exitedFrame.value <= now)
    && (forall i, j | 0 <= i < j < |visits| && visits[i].exitedFrame.Some? ::
          visits[i].exitedFrame.value < visits[j].enteredFrame)
  }

  function Last(visits: seq<Visit>): Visit
    requires visits != []
  {
    visits[|visits| - 1]
  }

  function Front(visits: seq<Visit>): seq<Visit>
    requires visits != []
  {
    visits[..|visits| - 1]
  }

  /** A live session is the one open visit, the last; without one, no visit is open. */
  ghost predicate Agrees(p: Pair) {
    && Numbered(p.visits) && p.lastSequence == |p.visits|
    && (p.live.None? ==> AllClosed(p.visits))
    && (p.live.Some? ==>
          && p.visits != [] && AllClosed(Front(p.visits)) && Last(p.visits).exitedFrame.None?
          && p.live.value.sequence == Last(p.visits).sequence
          && p.live.value.enteredFrame == Last(p.visits).enteredFrame)
  }

  /** While a visit is open, closing it or counting a dwell changes the last visit only. */
  lemma {:induction false} LastIsOpen(visits: seq<Visit>, frame: int, dwell: real)
    requires visits != [] && Last(visits).exitedFrame.None?
    ensures Close(visits, frame, dwell) == Front(visits) + [Last(visits).(exitedFrame := Some(frame), totalDwell := dwell)]
    ensures CountDwell(visits) == Front(visits) + [Last(visits).(dwellCount := Last(visits).dwellCount + 1)]
  {
  }

  lemma {:induction false} StartKeeps(cfg: Config, k: Key, p: Pair, frame: int, now: int)
    requires Agrees(p) && Separate(p.visits, now) && p.live.None? && now < frame
    ensures var q := Start(cfg, k, p, frame).0; Agrees(q) && Separate(q.visits, frame) && q.live.Some?
  {
    var q := Start(cfg, k, p, frame).0;
    assert Front(q.visits) == p.visits;
  }

  lemma {:induction false} EndKeeps(cfg: Config, k: Key, p: Pair, frame: int, now: int, reason: ExitReason)
    requires Agrees(p) && Separate(p.visits, now) && p.live.Some? && now < frame
    ensures var q := End(cfg, k, p, frame, reason).0; Agrees(q) && Separate(q.visits, frame) && q.live.None?
  {
    LastIsOpen(p.visits, frame, DwellSeconds(cfg.clock, p.live.value, frame));
    hide UpdateOpen, Close, CountDwell;
  }

  lemma {:induction false} DwellKeeps(cfg: Config, k: Key, p: Pair, frame: int, now: int)
    requires Agrees(p) && Separate(p.visits, now) && p.live.Some?
    ensures var q := MaybeDwell(cfg, k, p, frame).0; Agrees(q) && Separate(q.visits, now) && q.live.Some?
  {
    LastIsOpen(p.visits, frame, 0.0);
    hide UpdateOpen, Close, CountDwell;
    var q := MaybeDwell(cfg, k, p, frame).0;
    assert q.visits != [] && Front(q.visits) == Front(p.visits);
  }

  lemma {:induction false} SeenKeeps(p: Pair, s: Session)
    requires Agrees(p) && p.live.Some?
    requires s.sequence == p.live.value.sequence && s.enteredFrame == p.live.value.enteredFrame
    ensures Agrees(p.(live := Some(s)))
  {
  }

  lemma {:induction false} LaterSeparate(visits: seq<Visit>, now: int, frame: int)
    requires Separate(visits, now) && now <= frame
    ensures Separate(visits, frame)
  {
  }

  /** One frame keeps sessions and history in agreement. */
  lemma {:induction false} StepKeeps(cfg: Config, k: Key, p: Pair, f: Frame, now: int)
    requires Agrees(p) && Separate(p.visits, now) && now < f.index
    ensures var q := Step(cfg, k, p, f).0;
      && Agrees(q) && Separate(q.visits, f.index)
      && (f.sight.Inside? ==> q.live.Some?) && (f.sight.Outside? ==> q.live.None?)
  {
    hide Agrees, Separate, Start, End, MaybeDwell;
    LaterSeparate(p.visits, now, f.index);
    match f.sight {
      case Inside =>
        var q := if p.live.None? then Start(cfg, k, p, f.index).0 else p;
        if p.live.None? {
          StartKeeps(cfg, k, p, f.index, now);
        }
        var seen := q.(live := Some(Seen(q.live.value, f.index)));
        SeenKeeps(q, Seen(q.live.value, f.index));
        DwellKeeps(cfg, k, seen, f.index, f.index);
      case Outside =>
        if p.live.Some? {
          SeenKeeps(p, Seen(p.live.value, f.index));
          EndKeeps(cfg, k, p.(live := Some(Seen(p.live.value, f.index))), f.index, now, CentroidOutside);
        }
      case Unseen =>
        if p.live.Some? {
          var s := p.live.value.(missedFrames := p.live.value.missedFrames + 1);
          SeenKeeps(p, s);
          if s.missedFrames > cfg.settings.grace {
            EndKeeps(cfg, k, p.(live := Some(s)), f.index, now, OcclusionTimeout);
          }
        }
    }
  }

  function Now(frames: seq<Frame>): int {
    if frames == [] then 0 else frames[|frames| - 1].index
  }

  /**
   After every run: a session is live exactly when one visit, the last, is open, with the same
   number and entry frame; visits are numbered in order and do not overlap.
   */
  lemma {:induction false} HistoryAgrees(cfg: Config, k: Key, frames: seq<Frame>)
    requires Increasing(frames)
    ensures var p := Run(cfg, k, frames).0; Agrees(p) && Separate(p.visits, Now(frames))
  {
    if frames != [] {
      var front, last := frames[..|frames| - 1], frames[|frames| - 1];
      HistoryAgrees(cfg, k, front);
      var p := Run(cfg, k, front).0;
      if front == [] {
        assert p == NEW_PAIR;
        StepKeeps(cfg, k, p, last, last.index - 1);
      } else {
        StepKeeps(cfg, k, p, last, Now(front));
      }
    }
  }

  /** A frame that shows the track leaves a live session exactly when it shows it inside the zone. */
  lemma {:induction false} LiveExactlyInside(cfg: Config, k: Key, frames: seq<Frame>)
    requires Increasing(frames) && frames != [] && !frames[|frames| - 1].sight.Unseen?
    ensures Run(cfg, k, frames).0.live.Some? <==> frames[|frames| - 1].sight.Inside?
  {
    var front, last := frames[..|frames| - 1], frames[|frames| - 1];
    HistoryAgrees(cfg, k, front);
    var p := Run(cfg, k, front).0;
    if front == [] {
      assert p == NEW_PAIR;
      StepKeeps(cfg, k, p, last, last.index - 1);
    } else {
      StepKeeps(cfg, k, p, last, Now(front));
    }
  }

  // ---------------------------------------------------------------------------
  // Occlusion
  // ---------------------------------------------------------------------------

  /** `n` frames that miss the track, from frame `from` on. */
  function Misses(from: int, n: nat): seq<Frame> {
    if n == 0 then [] else Misses(from, n - 1) + [Frame(from + n - 1, Unseen)]
  }

  function RunFrom(cfg: Config, k: Key, p: Pair, frames: seq<Frame>): (Pair, seq<Event>) {
    if frames == [] then (p, [])
    else
      var (q, log) := RunFrom(cfg, k, p, frames[..|frames| - 1]);
      var (r, more) := Step(cfg, k, q, frames[|frames| - 1]);
      (r, log + more)
  }

  lemma {:induction false} RunSplits(cfg: Config, k: Key, a: seq<Frame>, b: seq<Frame>)
    ensures Run(cfg, k, a + b) ==
      var (p, log) := Run(cfg, k, a); var (q, more) := RunFrom(cfg, k, p, b); (q, log + more)
  {
    hide Step;
    if b == [] {
      assert a + b == a && Run(cfg, k, a).1 + [] == Run(cfg, k, a).1;
    } else {
      RunSplits(cfg, k, a, b[..|b| - 1]);
      assert (a + b)[..|a + b| - 1] == a + b[..|b| - 1];
      var (p, log) := Run(cfg, k, a);
      var (q, more) := RunFrom(cfg, k, p, b[..|b| - 1]);
      var last := Step(cfg, k, q, b[|b| - 1]).1;
      assert log + more + last == log + (more + last);
    }
  }

  /** The log is a single occlusion exit of visit `sequence` at `frame`. */
  predicate IsTimeout(log: seq<Event>, sequence: nat, frame: int) {
    && |log| == 1 && log[0].kind.Exit? && log[0].reason == Some(OcclusionTimeout)
    && log[0].sequence == sequence && log[0].frame == frame
  }

  /** A session seen in the last frame survives exactly `grace` missed frames; the next one ends it. */
  lemma {:induction false} GraceExactly(cfg: Config, k: Key, p: Pair, from: int, n: nat)
    requires p.live.Some? && p.live.value.missedFrames == 0
    ensures var (q, log) := RunFrom(cfg, k, p, Misses(from, n));
      && (q.live.Some? <==> n <= cfg.settings.grace)
      && (n <= cfg.settings.grace ==> q == p.(live := Some(p.live.value.(missedFrames := n))) && log == [])
      && (n > cfg.settings.grace ==> IsTimeout(log, p.live.value.sequence, from + cfg.settings.grace))
  {
    hide RunFrom, Misses, Step;
    if n == 0 {
      NoMisses(cfg, k, p, from);
    } else {
      MissMore(cfg, k, p, from, n);
      GraceExactly(cfg, k, p, from, n - 1);
      var (q, log) := RunFrom(cfg, k, p, Misses(from, n - 1));
      MissStep(cfg, k, q, from + n - 1);
      var more := Step(cfg, k, q, Frame(from + n - 1, Unseen)).1;
      assert log + [] == log && [] + more == more;
    }
  }

  lemma {:induction false} NoMisses(cfg: Config, k: Key, p: Pair, from: int)
    ensures RunFrom(cfg, k, p, Misses(from, 0)) == (p, [])
  {
  }

  lemma {:induction false} MissMore(cfg: Config, k: Key, p: Pair, from: int, n: nat)
    requires n > 0
    ensures var (q, log) := RunFrom(cfg, k, p, Misses(from, n - 1));
      var (r, more) := Step(cfg, k, q, Frame(from + n - 1, Unseen));
      RunFrom(cfg, k, p, Misses(from, n)) == (r, log + more)
  {
    hide Step;
    MissesLength(from, n - 1);
    MissesLength(from, n);
    assert Misses(from, n)[..n - 1] == Misses(from, n - 1);
  }

  /** One more missed frame. */
  lemma {:induction false} MissStep(cfg: Config, k: Key, p: Pair, frame: int)
    ensures var (q, more) := Step(cfg, k, p, Frame(frame, Unseen));
      && (p.live.None? ==> q == p && more == [])
      && (p.live.Some? ==>
            var missed := p.live.value.missedFrames + 1;
            if missed > cfg.settings.grace then q.live.None? && IsTimeout(more, p.live.value.sequence, frame)
            else q == p.(live := Some(p.live.value.(missedFrames := missed))) && more == [])
  {
    hide Close, DwellSeconds;
  }

  lemma {:induction false} MissesLength(from: int, n: nat)
    ensures |Misses(from, n)| == n
  {
    if n > 0 {
      MissesLength(from, n - 1);
    }
  }

  // ---------------------------------------------------------------------------
  // The event language
  // ---------------------------------------------------------------------------

  /** A reader of (ENTER DWELL* EXIT)* with an open tail: the visits begun, and whether one is open. */
  datatype Reading = Reading(visits: nat, open: bool)

  function ReadOne(r: Reading, e: Event): Option<Reading> {
    match e.kind
    case Enter => if !r.open && e.sequence == r.visits + 1 then Some(Reading(r.visits + 1, true)) else None
    case DwellEvent => if r.open && e.sequence == r.visits then Some(r) else None
    case Exit => if r.open && e.sequence == r.visits then Some(Reading(r.visits, false)) else None
  }

  function Read(log: seq<Event>): Option<Reading> {
    if log == [] then Some(Reading(0, false))
    else
      var r := Read(log[..|log| - 1]);
      if r.None? then None else ReadOne(r.value, log[|log| - 1])
  }

  function ReadAll(r: Option<Reading>, log: seq<Event>): Option<Reading>
    decreases |log|
  {
    if log == [] || r.None? then r
    else ReadAll(ReadOne(r.value, log[0]), log[1..])
  }

  lemma {:induction false} ReadConcat(a: seq<Event>, b: seq<Event>)
    ensures Read(a + b) == ReadAll(Read(a), b)
    decreases |b|
  {
    if b == [] {
      assert a + b == a;
    } else {
      assert a + b == a + [b[0]] + b[1..];
      assert (a + [b[0]])[..|a|] == a;
      ReadConcat(a + [b[0]], b[1..]);
      if Read(a).None? {
        assert Read(a + [b[0]]).None?;
      }
    }
  }

  /** One frame's events continue the language. */
  lemma {:induction false} StepReads(cfg: Config, k: Key, p: Pair, f: Frame)
    requires Agrees(p)
    ensures var (q, more) := Step(cfg, k, p, f);
      ReadAll(Some(Reading(p.lastSequence, p.live.Some?)), more) == Some(Reading(q.lastSequence, q.live.Some?))
  {
    hide Close, CountDwell, DwellDue, DwellUntimed, Separate, AllClosed;
    var more := Step(cfg, k, p, f).1;
    var r := Reading(p.lastSequence, p.live.Some?);
    if |more| == 2 {
      ReadTwo(r, more[0], more[1]);
      assert more == [more[0], more[1]];
    } else if |more| == 1 {
      assert more == [more[0]] && more[1..] == [];
    }
  }

  lemma {:induction false} ReadTwo(r: Reading, d: Event, e: Event)
    ensures ReadOne(r, d).Some? ==> ReadAll(Some(r), [d, e]) == ReadOne(ReadOne(r, d).value, e)
  {
    assert [d, e][1..] == [e] && [e][1..] == [];
    if ReadOne(r, d).Some? {
      assert ReadAll(ReadOne(r, d), [e]) == ReadAll(ReadOne(ReadOne(r, d).value, e), []);
    }
  }

  /**
   The events of a pair form (ENTER DWELL* EXIT)* with an optional open tail, one number per visit,
   numbered 1, 2, 3, ...; the tail is open exactly while the session is live.
   */
  lemma {:induction false} EventLanguage(cfg: Config, k: Key, frames: seq<Frame>)
    requires Increasing(frames)
    ensures var (p, log) := Run(cfg, k, frames); Read(log) == Some(Reading(p.lastSequence, p.live.Some?))
  {
    if frames != [] {
      var front := frames[..|frames| - 1];
      EventLanguage(cfg, k, front);
      HistoryAgrees(cfg, k, front);
      var (p, log) := Run(cfg, k, front);
      StepReads(cfg, k, p, frames[|frames| - 1]);
      ReadConcat(log, Step(cfg, k, p, frames[|frames| - 1]).1);
    }
  }

  /** Every event belongs to its pair and carries its frame's number; a frame has at most one of each kind. */
  lemma {:induction false} StepEvents(cfg: Config, k: Key, p: Pair, f: Frame)
    ensures var more := Step(cfg, k, p, f).1;
      && (forall i | 0 <= i < |more| :: more[i].track == k.track && more[i].zone == k.region && more[i].frame == f.index)
      && (forall i, j | 0 <= i < j < |more| :: more[i].kind != more[j].kind)
  {
    hide Close, CountDwell, DwellDue, DwellUntimed;
  }

  // ---------------------------------------------------------------------------
  // How many dwell events a visit can have
  // ---------------------------------------------------------------------------

  /** `count` dwell events fit into `duration`: one at the threshold and one more per interval. */
  predicate Fits(st: Settings, count: nat, duration: real) {
    count == 0 || duration >= st.threshold + (count - 1) as real * st.interval
  }

  ghost predicate LivePaced(cfg: Config, s: Session, v: Visit, now: int) {
    && s.enteredAt == cfg.clock.Timestamp(v.enteredFrame)
    && (s.firstDwellEmitted <==> s.lastDwellAt.Some?) && (s.firstDwellEmitted <==> v.dwellCount > 0)
    && (s.lastDwellAt.Some? ==>
          && s.lastDwellAt.value <= cfg.clock.Timestamp(now)
          && Fits(cfg.settings, v.dwellCount, s.lastDwellAt.value - s.enteredAt))
  }

  ghost predicate ClosedPaced(cfg: Config, v: Visit) {
    v.exitedFrame.Some? ==>
      Fits(cfg.settings, v.dwellCount, v.totalDwell)
      && v.totalDwell == Positive(cfg.clock.Timestamp(v.exitedFrame.value) - cfg.clock.Timestamp(v.enteredFrame))
  }

  function Positive(x: real): real {
    if x < 0.0 then 0.0 else x
  }

  ghost predicate Paced(cfg: Config, p: Pair, now: int) {
    && (forall i | 0 <= i < |p.visits| :: ClosedPaced(cfg, p.visits[i]))
    && (p.live.Some? && p.visits != [] ==> LivePaced(cfg, p.live.value, Last(p.visits), now))
  }

  lemma {:induction false} ClockMonotone(clock: Clock, a: int, b: int)
    requires a <= b
    ensures clock.Timestamp(a) <= clock.Timestamp(b)
  {
    if clock.fps > 0.0 {
      assert (b - a) as real / clock.fps >= 0.0;
      assert b as real / clock.fps == a as real / clock.fps + (b - a) as real / clock.fps;
    }
  }

  lemma {:induction false} FitsMore(st: Settings, count: nat, early: real, late: real)
    requires Fits(st, count, early) && early <= late
    ensures Fits(st, count, late)
  {
  }

  lemma {:induction false} FitsFirst(st: Settings, duration: real)
    requires duration >= st.threshold
    ensures Fits(st, 1, duration)
  {
    assert 0 as real * st.interval == 0.0;
  }

  lemma {:induction false} FitsNext(st: Settings, count: nat, early: real, late: real)
    requires count > 0 && Fits(st, count, early) && late >= early + st.interval
    ensures Fits(st, count + 1, late)
  {
    assert count as real * st.interval == (count - 1) as real * st.interval + st.interval;
  }

  lemma {:induction false} DwellPaced(cfg: Config, k: Key, p: Pair, frame: int)
    requires Agrees(p) && p.live.Some? && Paced(cfg, p, frame) && cfg.settings.threshold >= 0.0
    requires Last(p.visits).enteredFrame <= frame
    ensures Paced(cfg, MaybeDwell(cfg, k, p, frame).0, frame)
  {
    var s, v := p.live.value, Last(p.visits);
    ClockMonotone(cfg.clock, v.enteredFrame, frame);
    LastIsOpen(p.visits, frame, 0.0);
    hide UpdateOpen, Close, CountDwell;
    var t := cfg.clock.Timestamp(frame);
    if DwellDue(cfg, s, frame) {
      if s.firstDwellEmitted {
        FitsNext(cfg.settings, v.dwellCount, s.lastDwellAt.value - s.enteredAt, t - s.enteredAt);
      } else {
        FitsFirst(cfg.settings, t - s.enteredAt);
      }
      assert LivePaced(cfg, s.(firstDwellEmitted := true, lastDwellAt := Some(t)), v.(dwellCount := v.dwellCount + 1), frame);
    }
    PacedUpdate(cfg, p, MaybeDwell(cfg, k, p, frame).0, frame);
  }

  /** Only the last visit matters when the others are unchanged. */
  lemma {:induction false} PacedUpdate(cfg: Config, p: Pair, q: Pair, now: int)
    requires p.visits != [] && q.visits != [] && Front(q.visits) == Front(p.visits)
    requires Paced(cfg, p, now) && ClosedPaced(cfg, Last(q.visits))
    requires q.live.Some? ==> LivePaced(cfg, q.live.value, Last(q.visits), now)
    ensures Paced(cfg, q, now)
  {
    hide ClosedPaced, LivePaced;
    forall i | 0 <= i < |q.visits|
      ensures ClosedPaced(cfg, q.visits[i])
    {
      if i < |q.visits| - 1 {
        assert q.visits[i] == Front(q.visits)[i] == Front(p.visits)[i] == p.visits[i];
      }
    }
  }

  lemma {:induction false} EndPaced(cfg: Config, k: Key, p: Pair, frame: int, reason: ExitReason)
    requires Agrees(p) && p.live.Some? && Paced(cfg, p, frame) && cfg.settings.threshold >= 0.0
    ensures Paced(cfg, End(cfg, k, p, frame, reason).0, frame)
  {
    var s, v := p.live.value, Last(p.visits);
    var dwell := DwellSeconds(cfg.clock, s, frame);
    LastIsOpen(p.visits, frame, dwell);
    hide UpdateOpen, Close, CountDwell;
    if v.dwellCount > 0 {
      FitsMore(cfg.settings, v.dwellCount, s.lastDwellAt.value - s.enteredAt, dwell);
    }
    PacedUpdate(cfg, p, End(cfg, k, p, frame, reason).0, frame);
  }

  lemma {:induction false} LaterPaced(cfg: Config, p: Pair, now: int, frame: int)
    requires Paced(cfg, p, now) && now <= frame
    ensures Paced(cfg, p, frame)
  {
    ClockMonotone(cfg.clock, now, frame);
  }

  lemma {:induction false} StartPaced(cfg: Config, k: Key, p: Pair, frame: int)
    requires Agrees(p) && p.live.None? && Paced(cfg, p, frame)
    ensures Paced(cfg, Start(cfg, k, p, frame).0, frame)
  {
    hide Fits;
    var q := Start(cfg, k, p, frame).0;
    forall i | 0 <= i < |q.visits|
      ensures ClosedPaced(cfg, q.visits[i])
    {
      if i < |p.visits| {
        assert q.visits[i] == p.visits[i];
      }
    }
  }

  lemma {:induction false} SeenPaced(cfg: Config, p: Pair, s: Session, now: int)
    requires Paced(cfg, p, now) && p.live.Some?
    requires s.enteredAt == p.live.value.enteredAt && s.lastDwellAt == p.live.value.lastDwellAt
    requires s.firstDwellEmitted == p.live.value.firstDwellEmitted
    ensures Paced(cfg, p.(live := Some(s)), now)
  {
    hide Fits, ClosedPaced;
  }

  lemma {:induction false} LastEntered(p: Pair, now: int)
    requires Agrees(p) && p.live.Some? && Separate(p.visits, now)
    ensures p.visits != [] && Last(p.visits).enteredFrame <= now
  {
  }

  lemma {:induction false} StepPaced(cfg: Config, k: Key, p: Pair, f: Frame, now: int)
    requires Agrees(p) && Separate(p.visits, now) && Paced(cfg, p, now) && now < f.index && cfg.settings.threshold >= 0.0
    ensures Paced(cfg, Step(cfg, k, p, f).0, f.index)
  {
    hide Agrees, Separate, Start, End, MaybeDwell, Paced;
    LaterPaced(cfg, p, now, f.index);
    LaterSeparate(p.visits, now, f.index);
    match f.sight {
      case Inside =>
        var q := if p.live.None? then Start(cfg, k, p, f.index).0 else p;
        if p.live.None? {
          StartKeeps(cfg, k, p, f.index, now);
          StartPaced(cfg, k, p, f.index);
        }
        LastEntered(q, f.index);
        SeenKeeps(q, Seen(q.live.value, f.index));
        SeenPaced(cfg, q, Seen(q.live.value, f.index), f.index);
        DwellPaced(cfg, k, q.(live := Some(Seen(q.live.value, f.index))), f.index);
      case Outside =>
        if p.live.Some? {
          SeenKeeps(p, Seen(p.live.value, f.index));
          SeenPaced(cfg, p, Seen(p.live.value, f.index), f.index);
          EndPaced(cfg, k, p.(live := Some(Seen(p.live.value, f.index))), f.index, CentroidOutside);
        }
      case Unseen =>
        if p.live.Some? {
          var s := p.live.value.(missedFrames := p.live.value.missedFrames + 1);
          SeenKeeps(p, s);
          SeenPaced(cfg, p, s, f.index);
          if s.missedFrames > cfg.settings.grace {
            EndPaced(cfg, k, p.(live := Some(s)), f.index, OcclusionTimeout);
          }
        }
    }
  }

  lemma {:induction false} RunPaced(cfg: Config, k: Key, frames: seq<Frame>)
    requires Increasing(frames) && cfg.settings.threshold >= 0.0
    ensures Paced(cfg, Run(cfg, k, frames).0, Now(frames))
  {
    if frames != [] {
      var front, last := frames[..|frames| - 1], frames[|frames| - 1];
      RunPaced(cfg, k, front);
      HistoryAgrees(cfg, k, front);
      hide Paced, Step;
      if front == [] {
        assert Separate(Run(cfg, k, front).0.visits, last.index - 1) && Paced(cfg, Run(cfg, k, front).0, last.index - 1) by {
          NewPairFine(cfg, last.index - 1);
        }
        StepPaced(cfg, k, Run(cfg, k, front).0, last, last.index - 1);
      } else {
        StepPaced(cfg, k, Run(cfg, k, front).0, last, Now(front));
      }
    }
  }

  lemma {:induction false} NewPairFine(cfg: Config, now: int)
    ensures Separate(NEW_PAIR.visits, now) && Paced(cfg, NEW_PAIR, now)
  {
  }

  /** How long a visit has lasted: until its exit, or up to the latest frame. */
  function Duration(cfg: Config, frames: seq<Frame>, v: Visit): real {
    var until := if v.exitedFrame.Some? then v.exitedFrame.value else Now(frames);
    Positive(cfg.clock.Timestamp(until) - cfg.clock.Timestamp(v.enteredFrame))
  }

  /** None below the threshold, then one and at most one more per interval. */
  predicate AtMostPerInterval(st: Settings, count: nat, duration: real)
    requires st.interval > 0.0
  {
    && (duration < st.threshold ==> count == 0)
    && (duration >= st.threshold ==> count <= 1 + ((duration - st.threshold) / st.interval).Floor)
  }

  /**
   A visit that has lasted for T, finished or not, has no dwell events if T is below the threshold, and otherwise at
   most one plus the number of whole intervals in what remains.
   */
  lemma {:induction false} DwellBound(cfg: Config, k: Key, frames: seq<Frame>, i: nat)
    requires Increasing(frames) && cfg.settings.threshold >= 0.0 && cfg.settings.interval > 0.0
    requires i < |Run(cfg, k, frames).0.visits|
    ensures var v := Run(cfg, k, frames).0.visits[i]; var st := cfg.settings;
      var duration := Duration(cfg, frames, v);
      (v.exitedFrame.Some? ==> v.totalDwell == duration) && AtMostPerInterval(st, v.dwellCount, duration)
  {
    RunPaced(cfg, k, frames);
    HistoryAgrees(cfg, k, frames);
    hide Run, Agrees, Separate, Increasing, Now, Clock.Timestamp;
    var p := Run(cfg, k, frames).0;
    var v := p.visits[i];
    VisitFits(cfg, p, i, frames);
    hide *;
    IntervalsFit(cfg.settings, v.dwellCount, Duration(cfg, frames, v));
  }

  /** The dwell events of any visit fit into the time it has lasted. */
  lemma {:induction false} VisitFits(cfg: Config, p: Pair, i: nat, frames: seq<Frame>)
    requires Agrees(p) && Paced(cfg, p, Now(frames)) && i < |p.visits| && cfg.settings.threshold >= 0.0
    ensures var v := p.visits[i];
      && Fits(cfg.settings, v.dwellCount, Duration(cfg, frames, v))
      && (v.exitedFrame.Some? ==> v.totalDwell == Duration(cfg, frames, v))
  {
    hide Agrees, Now, Clock.Timestamp, Fits;
    var v := p.visits[i];
    if v.exitedFrame.Some? {
      assert ClosedPaced(cfg, v);
    } else {
      OpenIsLive(p, i);
      if v.dwellCount > 0 {
        FitsMore(cfg.settings, v.dwellCount, p.live.value.lastDwellAt.value - p.live.value.enteredAt, Duration(cfg, frames, v));
      } else {
        NothingFits(cfg.settings, Duration(cfg, frames, v));
      }
    }
  }

  lemma {:induction false} NothingFits(st: Settings, duration: real)
    ensures Fits(st, 0, duration)
  {
  }

  lemma {:induction false} OpenIsLive(p: Pair, i: nat)
    requires Agrees(p) && i < |p.visits| && p.visits[i].exitedFrame.None?
    ensures p.live.Some? && i == |p.visits| - 1
  {
  }

  lemma {:induction false} IntervalsFit(st: Settings, count: nat, duration: real)
    requires st.interval > 0.0 && Fits(st, count, duration)
    ensures AtMostPerInterval(st, count, duration)
  {
    if count > 0 {
      var n := count - 1;
      assert n as real * st.interval >= 0.0;
      Quotient(n, duration - st.threshold, st.interval);
    } else if duration >= st.threshold {
      Quotient(0, duration - st.threshold, st.interval);
    }
  }

  lemma {:induction false} Quotient(n: nat, x: real, y: real)
    requires y > 0.0 && x >= n as real * y
    ensures (x / y).Floor >= n
  {
    assert x / y * y == x;
    assert x / y >= n as real;
  }

  // ---------------------------------------------------------------------------
  // The history's dwell counts are the events emitted
  // ---------------------------------------------------------------------------

  function DwellEvents(log: seq<Event>, sequence: nat): nat {
    if log == [] then 0
    else DwellEvents(log[..|log| - 1], sequence)
         + (if log[|log| - 1].kind.DwellEvent? && log[|log| - 1].sequence == sequence then 1 else 0)
  }

  lemma {:induction false} DwellEventsConcat(a: seq<Event>, b: seq<Event>, n: nat)
    ensures DwellEvents(a + b, n) == DwellEvents(a, n) + DwellEvents(b, n)
  {
    if b == [] {
      assert a + b == a;
    } else {
      DwellEventsConcat(a, b[..|b| - 1], n);
      assert (a + b)[..|a + b| - 1] == a + b[..|b| - 1];
    }
  }

  function CountOf(visits: seq<Visit>, n: nat): nat {
    if 0 < n <= |visits| then visits[n - 1].dwellCount else 0
  }

  lemma {:induction false} DwellEventsOfOne(e: Event, n: nat)
    ensures DwellEvents([e], n) == if e.kind.DwellEvent? && e.sequence == n then 1 else 0
  {
    assert [e][..0] == [];
  }

  /** A new visit has no dwell events yet. */
  lemma {:induction false} StartCounts(cfg: Config, k: Key, p: Pair, frame: int, n: nat)
    ensures var (q, more) := Start(cfg, k, p, frame);
      CountOf(q.visits, n) == CountOf(p.visits, n) && DwellEvents(more, n) == 0
  {
    var (q, more) := Start(cfg, k, p, frame);
    DwellEventsOfOne(more[0], n);
    assert more == [more[0]];
    hide DwellEvents;
  }

  /** A dwell event counts for the open visit, which carries its number. */
  lemma {:induction false} MaybeDwellCounts(cfg: Config, k: Key, p: Pair, frame: int, n: nat)
    requires Agrees(p) && p.live.Some?
    ensures var (q, more) := MaybeDwell(cfg, k, p, frame); CountOf(q.visits, n) == CountOf(p.visits, n) + DwellEvents(more, n)
  {
    LastIsOpen(p.visits, frame, 0.0);
    OpenNumber(p);
    NoDwells(n);
    var (q, more) := MaybeDwell(cfg, k, p, frame);
    if DwellDue(cfg, p.live.value, frame) {
      DwellEventsOfOne(more[0], n);
      assert more == [more[0]];
    }
    hide UpdateOpen, CountDwell, DwellDue, DwellUntimed, DwellEvents, Agrees;
  }

  lemma {:induction false} EndCounts(cfg: Config, k: Key, p: Pair, frame: int, reason: ExitReason, n: nat)
    requires Agrees(p) && p.live.Some?
    ensures var (q, more) := End(cfg, k, p, frame, reason);
      CountOf(q.visits, n) == CountOf(p.visits, n) && DwellEvents(more, n) == 0
  {
    LastIsOpen(p.visits, frame, DwellSeconds(cfg.clock, p.live.value, frame));
    var (q, more) := End(cfg, k, p, frame, reason);
    DwellEventsOfOne(more[0], n);
    assert more == [more[0]];
    hide UpdateOpen, Close, DwellEvents, DwellSeconds;
  }

  lemma {:induction false} NoDwells(n: nat)
    ensures DwellEvents([], n) == 0
  {
  }

  lemma {:induction false} OpenNumber(p: Pair)
    requires Agrees(p) && p.live.Some?
    ensures p.visits != [] && Last(p.visits).exitedFrame.None? && p.live.value.sequence == |p.visits|
  {
  }

  lemma {:induction false} StepCounts(cfg: Config, k: Key, p: Pair, f: Frame, n: nat, now: int)
    requires Agrees(p) && Separate(p.visits, now) && now < f.index
    ensures var (q, more) := Step(cfg, k, p, f); CountOf(q.visits, n) == CountOf(p.visits, n) + DwellEvents(more, n)
  {
    hide Agrees, Separate, Start, End, MaybeDwell, CountOf, DwellEvents;
    NoDwells(n);
    match f.sight {
      case Inside =>
        var (q, entered) := if p.live.None? then Start(cfg, k, p, f.index) else (p, []);
        if p.live.None? {
          StartKeeps(cfg, k, p, f.index, now);
          StartCounts(cfg, k, p, f.index, n);
        }
        SeenKeeps(q, Seen(q.live.value, f.index));
        var s := q.(live := Some(Seen(q.live.value, f.index)));
        MaybeDwellCounts(cfg, k, s, f.index, n);
        DwellEventsConcat(entered, MaybeDwell(cfg, k, s, f.index).1, n);
      case Outside =>
        if p.live.Some? {
          SeenKeeps(p, Seen(p.live.value, f.index));
          EndCounts(cfg, k, p.(live := Some(Seen(p.live.value, f.index))), f.index, CentroidOutside, n);
        }
      case Unseen =>
        if p.live.Some? {
          var s := p.live.value.(missedFrames := p.live.value.missedFrames + 1);
          SeenKeeps(p, s);
          if s.missedFrames > cfg.settings.grace {
            EndCounts(cfg, k, p.(live := Some(s)), f.index, OcclusionTimeout, n);
          }
        }
    }
  }

  lemma {:induction false} NothingSeparate(cfg: Config, k: Key, now: int)
    ensures Agrees(NEW_PAIR) && Separate(NEW_PAIR.visits, now)
  {
  }

  /** The dwell count kept in the history is the number of dwell events of that visit. */
  lemma {:induction false} DwellCountsAreEvents(cfg: Config, k: Key, frames: seq<Frame>, n: nat)
    requires Increasing(frames)
    ensures var (p, log) := Run(cfg, k, frames); CountOf(p.visits, n) == DwellEvents(log, n)
  {
    if frames != [] {
      hide Step, Agrees, Separate, CountOf, DwellEvents;
      var front, last := frames[..|frames| - 1], frames[|frames| - 1];
      DwellCountsAreEvents(cfg, k, front, n);
      HistoryAgrees(cfg, k, front);
      var (p, log) := Run(cfg, k, front);
      if front == [] {
        assert Agrees(p) && Separate(p.visits, last.index - 1) by { NothingSeparate(cfg, k, last.index - 1); }
      }
      StepCounts(cfg, k, p, last, n, if front == [] then last.index - 1 else Now(front));
      DwellEventsConcat(log, Step(cfg, k, p, last).1, n);
    }
  }
}
