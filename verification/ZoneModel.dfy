/**
 One (track, zone) pair seen alone: what each frame does to its session, its visit history and its
 events. Laws over whole runs of frames follow in ZoneTheorems.
 */
module ZoneModel {
  import opened Options
  import opened Tracks

  /** What a frame shows of a pair: the track is missing, outside the zone, or inside it. */
  datatype Sight = Unseen | Outside | Inside

  datatype Frame = Frame(index: int, sight: Sight)

  datatype Settings = Settings(threshold: real, interval: real, grace: nat)

  datatype Clock = Clock(fps: real, startedAt: real) {
    function Timestamp(frame: int): real {
      if fps <= 0.0 then startedAt else startedAt + frame as real / fps
    }
  }

  datatype Config = Config(settings: Settings, clock: Clock)

  datatype Session = Session(sequence: nat, enteredFrame: int, enteredAt: real, lastSeenFrame: int, missedFrames: nat,
                             lastDwellAt: Option<real>, firstDwellEmitted: bool)

  datatype Visit = Visit(zone: string, sequence: nat, enteredFrame: int, exitedFrame: Option<int>, dwellCount: nat,
                         totalDwell: real)

  datatype EventKind = Enter | DwellEvent | Exit

  datatype ExitReason = CentroidOutside | OcclusionTimeout

  datatype Event = Event(kind: EventKind, track: int, zone: string, sequence: nat, frame: int, dwell: real,
                         reason: Option<ExitReason>)

  /** All that concerns one pair. */
  datatype Pair = Pair(live: Option<Session>, visits: seq<Visit>, lastSequence: nat)

  const NEW_PAIR := Pair(None, [], 0)

  function DwellSeconds(clock: Clock, s: Session, frame: int): real {
    var elapsed := clock.Timestamp(frame) - s.enteredAt;
    if elapsed < 0.0 then 0.0 else elapsed
  }

  datatype Change = CloseAt(frame: int, dwell: real) | AddDwell

  function Changed(v: Visit, c: Change): Visit {
    match c
    case CloseAt(frame, dwell) => v.(exitedFrame := Some(frame), totalDwell := dwell)
    case AddDwell => v.(dwellCount := v.dwellCount + 1)
  }

  /** Change the latest visit that is still open, as a search from the end finds it. */
  function UpdateOpen(visits: seq<Visit>, c: Change): seq<Visit> {
    if visits == [] then []
    else
      var front, last := visits[..|visits| - 1], visits[|visits| - 1];
      if last.exitedFrame.None? then front + [Changed(last, c)] else UpdateOpen(front, c) + [last]
  }

  function Close(visits: seq<Visit>, frame: int, dwell: real): seq<Visit> {
    UpdateOpen(visits, CloseAt(frame, dwell))
  }

  function CountDwell(visits: seq<Visit>): seq<Visit> {
    UpdateOpen(visits, AddDwell)
  }

  function Start(cfg: Config, k: Key, p: Pair, frame: int): (Pair, seq<Event>) {
    var n := p.lastSequence + 1;
    (Pair(Some(Session(n, frame, cfg.clock.Timestamp(frame), frame, 0, None, false)),
          p.visits + [Visit(k.region, n, frame, None, 0, 0.0)], n),
     [Event(Enter, k.track, k.region, n, frame, 0.0, None)])
  }

  function End(cfg: Config, k: Key, p: Pair, frame: int, reason: ExitReason): (Pair, seq<Event>)
    requires p.live.Some?
  {
    var s := p.live.value;
    var dwell := DwellSeconds(cfg.clock, s, frame);
    (Pair(None, Close(p.visits, frame, dwell), p.lastSequence),
     [Event(Exit, k.track, k.region, s.sequence, frame, dwell, Some(reason))])
  }

  /** Whether a dwell event is due: at the threshold first, then at every interval. */
  predicate DwellDue(cfg: Config, s: Session, frame: int) {
    && DwellSeconds(cfg.clock, s, frame) >= cfg.settings.threshold
    && (s.firstDwellEmitted ==>
          s.lastDwellAt.Some? && cfg.clock.Timestamp(frame) - s.lastDwellAt.value >= cfg.settings.interval)
  }

  /** A first dwell without a recorded time only has its time recorded. */
  predicate DwellUntimed(cfg: Config, s: Session, frame: int) {
    && DwellSeconds(cfg.clock, s, frame) >= cfg.settings.threshold
    && s.firstDwellEmitted && s.lastDwellAt.None?
  }

  function Seen(s: Session, frame: int): Session {
    s.(missedFrames := 0, lastSeenFrame := frame)
  }

  function MaybeDwell(cfg: Config, k: Key, p: Pair, frame: int): (Pair, seq<Event>)
    requires p.live.Some?
  {
    var s := p.live.value;
    if DwellDue(cfg, s, frame) then
      (Pair(Some(s.(firstDwellEmitted := true, lastDwellAt := Some(cfg.clock.Timestamp(frame)))),
            CountDwell(p.visits), p.lastSequence),
       [Event(DwellEvent, k.track, k.region, s.sequence, frame, DwellSeconds(cfg.clock, s, frame), None)])
    else if DwellUntimed(cfg, s, frame) then
      (p.(live := Some(s.(lastDwellAt := Some(cfg.clock.Timestamp(frame))))), [])
    else (p, [])
  }

  function Step(cfg: Config, k: Key, p: Pair, f: Frame): (Pair, seq<Event>) {
    match f.sight
    case Inside =>
      var (q, entered) := if p.live.None? then Start(cfg, k, p, f.index) else (p, []);
      var (r, dwelt) := MaybeDwell(cfg, k, q.(live := Some(Seen(q.live.value, f.index))), f.index);
      (r, entered + dwelt)
    case Outside =>
      if p.live.None? then (p, [])
      else End(cfg, k, p.(live := Some(Seen(p.live.value, f.index))), f.index, CentroidOutside)
    case Unseen =>
      if p.live.None? then (p, [])
      else
        var s := p.live.value.(missedFrames := p.live.value.missedFrames + 1);
        if s.missedFrames > cfg.settings.grace then End(cfg, k, p.(live := Some(s)), f.index, OcclusionTimeout)
        else (p.(live := Some(s)), [])
  }

  /** The pair and all its events after a run of frames. */
  function Run(cfg: Config, k: Key, frames: seq<Frame>): (Pair, seq<Event>) {
    if frames == [] then (NEW_PAIR, [])
    else
      var (p, log) := Run(cfg, k, frames[..|frames| - 1]);
      var (q, more) := Step(cfg, k, p, frames[|frames| - 1]);
      (q, log + more)
  }

  /** Frame numbers increase. */
  predicate Increasing(frames: seq<Frame>) {
    forall i, j | 0 <= i < j < |frames| :: frames[i].index < frames[j].index
  }
}
