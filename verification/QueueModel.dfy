/**
 One (track, queue) pair seen alone, and the pace of the depth reports. Unlike a zone session, a
 membership is left only when its track is seen outside: a track that vanishes never leaves.
 */
module QueueModel {
  import opened Options
  import opened Tracks
  import opened ZoneModel

  /** What a frame shows of a pair, with the number of visitors in the queue. */
  datatype QueueFrame = QueueFrame(index: int, sight: Sight, depth: nat)

  datatype Membership = Membership(joinedFrame: int, sequence: nat, inside: bool)

  datatype Member = Member(membership: Option<Membership>, lastSequence: nat) {
    predicate Inside() {
      membership.Some? && membership.value.inside
    }
  }

  const NEW_MEMBER := Member(None, 0)

  datatype QueueEvent =
    | Join(key: Key, sequence: nat, frame: int, depth: nat)
    | Leave(key: Key, sequence: nat, frame: int, dwell: real)
    | Depth(queue: string, frame: int, depth: nat)

  function QueueDwell(fps: real, joined: int, frame: int): real {
    var seconds := (frame - joined) as real / (if fps < 1.0 then 1.0 else fps);
    if seconds < 0.0 then 0.0 else seconds
  }

  function QueueStep(fps: real, k: Key, m: Member, f: QueueFrame): (Member, seq<QueueEvent>) {
    match f.sight
    case Inside =>
      if m.Inside() then (m, [])
      else
        var n := m.lastSequence + 1;
        (Member(Some(Membership(f.index, n, true)), n), [Join(k, n, f.index, f.depth)])
    case Outside =>
      if !m.Inside() then (m, [])
      else
        var s := m.membership.value;
        (m.(membership := Some(s.(inside := false))), [Leave(k, s.sequence, f.index, QueueDwell(fps, s.joinedFrame, f.index))])
    case Unseen => (m, [])
  }

  function QueueRun(fps: real, k: Key, frames: seq<QueueFrame>): (Member, seq<QueueEvent>) {
    if frames == [] then (NEW_MEMBER, [])
    else
      var (m, log) := QueueRun(fps, k, frames[..|frames| - 1]);
      var (n, more) := QueueStep(fps, k, m, frames[|frames| - 1]);
      (n, log + more)
  }

  // ---------------------------------------------------------------------------
  // Membership is the last sight; joins and leaves are its edges
  // ---------------------------------------------------------------------------

  /** Whether the latest frame that shows the track at all shows it inside. */
  predicate LastSeenInside(frames: seq<QueueFrame>) {
    frames != [] &&
    (if frames[|frames| - 1].sight.Unseen? then LastSeenInside(frames[..|frames| - 1]) else frames[|frames| - 1].sight.Inside?)
  }

  function Rises(frames: seq<QueueFrame>): nat {
    if frames == [] then 0
    else
      var front := frames[..|frames| - 1];
      Rises(front) + (if frames[|frames| - 1].sight.Inside? && !LastSeenInside(front) then 1 else 0)
  }

  function Falls(frames: seq<QueueFrame>): nat {
    if frames == [] then 0
    else
      var front := frames[..|frames| - 1];
      Falls(front) + (if frames[|frames| - 1].sight.Outside? && LastSeenInside(front) then 1 else 0)
  }

  function Joins(log: seq<QueueEvent>): nat {
    if log == [] then 0 else Joins(log[..|log| - 1]) + (if log[|log| - 1].Join? then 1 else 0)
  }

  function Leaves(log: seq<QueueEvent>): nat {
    if log == [] then 0 else Leaves(log[..|log| - 1]) + (if log[|log| - 1].Leave? then 1 else 0)
  }

  lemma {:induction false} CountsAppend(log: seq<QueueEvent>, e: QueueEvent)
    ensures Joins(log + [e]) == Joins(log) + (if e.Join? then 1 else 0)
    ensures Leaves(log + [e]) == Leaves(log) + (if e.Leave? then 1 else 0)
  {
    assert (log + [e])[..|log|] == log;
  }

  /** Events are exactly the edges of what the camera saw, whatever frames the track was missing from. */
  lemma {:induction false} EventsAreEdges(fps: real, k: Key, frames: seq<QueueFrame>)
    ensures var (m, log) := QueueRun(fps, k, frames);
      && m.Inside() == LastSeenInside(frames)
      && m.lastSequence == Joins(log) == Rises(frames) && Leaves(log) == Falls(frames)
  {
    if frames != [] {
      var front := frames[..|frames| - 1];
      EventsAreEdges(fps, k, front);
      var (m, log) := QueueRun(fps, k, front);
      var more := QueueStep(fps, k, m, frames[|frames| - 1]).1;
      if more == [] {
        assert log + more == log;
      } else {
        CountsAppend(log, more[0]);
        assert more == [more[0]];
      }
    }
  }

  // ---------------------------------------------------------------------------
  // The language of a pair's events
  // ---------------------------------------------------------------------------

  /** How far a log has been read: joins so far, and whether the last is still to be left. */
  datatype QueueReading = QueueReading(joins: nat, open: bool)

  function ReadQueueEvent(r: QueueReading, e: QueueEvent): Option<QueueReading> {
    if e.Join? && !r.open && e.sequence == r.joins + 1 then Some(QueueReading(e.sequence, true))
    else if e.Leave? && r.open && e.sequence == r.joins then Some(QueueReading(e.sequence, false))
    else None
  }

  /** JOIN and LEAVE alternate; visits are numbered 1, 2, 3, ... and a leave carries its join's number. */
  function ReadQueueLog(log: seq<QueueEvent>): Option<QueueReading> {
    if log == [] then Some(QueueReading(0, false))
    else
      var r := ReadQueueLog(log[..|log| - 1]);
      if r.None? then None else ReadQueueEvent(r.value, log[|log| - 1])
  }

  ghost predicate Reads(m: Member, log: seq<QueueEvent>) {
    && (m.membership.Some? ==> m.membership.value.sequence == m.lastSequence)
    && ReadQueueLog(log) == Some(QueueReading(m.lastSequence, m.Inside()))
  }

  lemma {:induction false} StepReads(fps: real, k: Key, m: Member, log: seq<QueueEvent>, f: QueueFrame)
    requires Reads(m, log)
    ensures var (n, more) := QueueStep(fps, k, m, f); Reads(n, log + more)
  {
    hide ReadQueueLog, QueueDwell;
    var more := QueueStep(fps, k, m, f).1;
    if more == [] {
      assert log + more == log;
    } else {
      assert more == [more[0]];
      ReadAppend(log, more[0]);
    }
  }

  lemma {:induction false} ReadAppend(log: seq<QueueEvent>, e: QueueEvent)
    requires ReadQueueLog(log).Some?
    ensures ReadQueueLog(log + [e]) == ReadQueueEvent(ReadQueueLog(log).value, e)
  {
    assert (log + [e])[..|log|] == log;
  }

  lemma {:induction false} JoinLeaveAlternate(fps: real, k: Key, frames: seq<QueueFrame>)
    ensures var (m, log) := QueueRun(fps, k, frames); Reads(m, log)
  {
    hide Reads, QueueStep;
    if frames == [] {
      assert Reads(NEW_MEMBER, []) by { NothingRead(); }
    } else {
      var front := frames[..|frames| - 1];
      JoinLeaveAlternate(fps, k, front);
      var (m, log) := QueueRun(fps, k, front);
      StepReads(fps, k, m, log, frames[|frames| - 1]);
    }
  }

  lemma {:induction false} NothingRead()
    ensures Reads(NEW_MEMBER, [])
  {
  }

  // ---------------------------------------------------------------------------
  // What the events report
  // ---------------------------------------------------------------------------

  /** The frame of the latest join. */
  function JoinFrame(log: seq<QueueEvent>): Option<int> {
    if log == [] then None
    else if log[|log| - 1].Join? then Some(log[|log| - 1].frame)
    else JoinFrame(log[..|log| - 1])
  }

  /** Seconds for frames at the given rate, which counts as one frame a second at least; never negative. */
  predicate LastsFor(fps: real, frames: int, seconds: real) {
    if frames <= 0 then seconds == 0.0
    else if fps < 1.0 then seconds == frames as real
    else seconds * fps == frames as real
  }

  /** The event reports what the camera shows at its frame: a join the depth, a leave the time since the latest join. */
  predicate QueueReported(fps: real, k: Key, log: seq<QueueEvent>, f: QueueFrame, e: QueueEvent) {
    match e
    case Join(key, sequence, frame, depth) =>
      key == k && sequence == Joins(log) + 1 && frame == f.index && depth == f.depth
    case Leave(key, sequence, frame, dwell) =>
      && key == k && sequence == Joins(log) && frame == f.index
      && JoinFrame(log).Some? && LastsFor(fps, f.index - JoinFrame(log).value, dwell)
    case Depth(_, _, _) => false
  }

  /** One frame more brings one event if it is an edge of what the camera saw, and none otherwise. */
  predicate NextReported(fps: real, k: Key, frames: seq<QueueFrame>, log: seq<QueueEvent>, f: QueueFrame,
                         more: seq<QueueEvent>) {
    if f.sight.Inside? && !LastSeenInside(frames) then
      |more| == 1 && more[0].Join? && QueueReported(fps, k, log, f, more[0])
    else if f.sight.Outside? && LastSeenInside(frames) then
      |more| == 1 && more[0].Leave? && QueueReported(fps, k, log, f, more[0])
    else more == []
  }

  lemma {:induction false} JoinFrameAppend(log: seq<QueueEvent>, e: QueueEvent)
    ensures JoinFrame(log + [e]) == if e.Join? then Some(e.frame) else JoinFrame(log)
  {
    assert (log + [e])[..|log|] == log;
  }

  lemma {:induction false} DwellLasts(fps: real, joined: int, frame: int)
    ensures LastsFor(fps, frame - joined, QueueDwell(fps, joined, frame))
  {
    var rate := if fps < 1.0 then 1.0 else fps;
    var frames := (frame - joined) as real;
    assert frames / rate * rate == frames;
    if frames < 0.0 {
      assert frames / rate < 0.0;
    }
    if frames > 0.0 {
      assert frames / rate > 0.0;
    }
  }

  /** Whoever is in a queue joined at the frame of the latest join, under the latest number. */
  ghost predicate Joined(m: Member, log: seq<QueueEvent>) {
    && m.lastSequence == Joins(log)
    && (m.membership.Some? ==>
          m.membership.value.sequence == Joins(log) && JoinFrame(log) == Some(m.membership.value.joinedFrame))
  }

  lemma {:induction false} StepReported(fps: real, k: Key, frames: seq<QueueFrame>, m: Member, log: seq<QueueEvent>,
                                        f: QueueFrame)
    requires Joined(m, log) && m.Inside() == LastSeenInside(frames)
    ensures var (n, more) := QueueStep(fps, k, m, f); Joined(n, log + more) && NextReported(fps, k, frames, log, f, more)
  {
    var (n, more) := QueueStep(fps, k, m, f);
    if m.membership.Some? {
      DwellLasts(fps, m.membership.value.joinedFrame, f.index);
    }
    hide QueueDwell, LastsFor, LastSeenInside;
    if more == [] {
      assert log + more == log;
    } else {
      CountsAppend(log, more[0]);
      JoinFrameAppend(log, more[0]);
      assert more == [more[0]];
    }
  }

  lemma {:induction false} RunJoined(fps: real, k: Key, frames: seq<QueueFrame>)
    ensures var (m, log) := QueueRun(fps, k, frames); Joined(m, log)
  {
    if frames != [] {
      var front, last := frames[..|frames| - 1], frames[|frames| - 1];
      RunJoined(fps, k, front);
      EventsAreEdges(fps, k, front);
      StepReported(fps, k, front, QueueRun(fps, k, front).0, QueueRun(fps, k, front).1, last);
    }
  }

  /** In every run, each frame adds exactly the event that the sights so far call for, with the depth or the time it shows. */
  lemma {:induction false} QueueEventsReported(fps: real, k: Key, frames: seq<QueueFrame>, f: QueueFrame)
    ensures var log, all := QueueRun(fps, k, frames).1, QueueRun(fps, k, frames + [f]).1;
      log <= all && NextReported(fps, k, frames, log, f, all[|log|..])
  {
    assert (frames + [f])[..|frames|] == frames;
    RunJoined(fps, k, frames);
    EventsAreEdges(fps, k, frames);
    var (m, log) := QueueRun(fps, k, frames);
    StepReported(fps, k, frames, m, log, f);
    var more := QueueStep(fps, k, m, f).1;
    assert (log + more)[|log|..] == more;
  }

  /** A visitor who vanishes while queueing is never reported as leaving. */
  lemma {:induction false} VanishingNeverLeaves(fps: real, k: Key, frames: seq<QueueFrame>, gone: seq<QueueFrame>)
    requires forall i | 0 <= i < |gone| :: gone[i].sight.Unseen?
    ensures QueueRun(fps, k, frames + gone) == QueueRun(fps, k, frames)
  {
    if gone == [] {
      assert frames + gone == frames;
    } else {
      VanishingNeverLeaves(fps, k, frames, gone[..|gone| - 1]);
      assert (frames + gone)[..|frames + gone| - 1] == frames + gone[..|gone| - 1];
      var log := QueueRun(fps, k, frames).1;
      assert log + [] == log;
    }
  }

  // ---------------------------------------------------------------------------
  // Depth reports
  // ---------------------------------------------------------------------------

  /** The frames that report depths, when the last report came at `last`. */
  function DepthFrames(interval: int, last: int, indices: seq<int>): seq<int>
    decreases indices
  {
    if indices == [] then []
    else if indices[0] - last >= interval then [indices[0]] + DepthFrames(interval, indices[0], indices[1..])
    else DepthFrames(interval, last, indices[1..])
  }

  predicate SpacedFrom(interval: int, last: int, reports: seq<int>)
    decreases reports
  {
    reports == [] || (reports[0] - last >= interval && SpacedFrom(interval, reports[0], reports[1..]))
  }

  predicate AscendingFrom(from: int, indices: seq<int>)
    decreases indices
  {
    indices == [] || (from < indices[0] && AscendingFrom(indices[0], indices[1..]))
  }

  /** Reports are at least an interval apart. */
  lemma {:induction false} DepthSpaced(interval: int, last: int, indices: seq<int>)
    ensures SpacedFrom(interval, last, DepthFrames(interval, last, indices))
    decreases indices
  {
    if indices != [] {
      var due := indices[0] - last >= interval;
      DepthSpaced(interval, if due then indices[0] else last, indices[1..]);
      if due {
        var rest := DepthFrames(interval, indices[0], indices[1..]);
        assert ([indices[0]] + rest)[1..] == rest;
      }
    }
  }

  /** The latest report at the time of frame `n`. */
  function LatestReport(last: int, reports: seq<int>, n: int): int
    decreases reports
  {
    if reports == [] || reports[0] > n then last else LatestReport(reports[0], reports[1..], n)
  }

  /** No frame is an interval past the latest report. */
  lemma {:induction false} DepthCovers(interval: int, last: int, indices: seq<int>, i: nat)
    requires interval > 0 && i < |indices| && AscendingFrom(last, indices)
    ensures indices[i] >= indices[0]
    ensures indices[i] - LatestReport(last, DepthFrames(interval, last, indices), indices[i]) < interval
    decreases indices
  {
    var head, rest := indices[0], indices[1..];
    var due := head - last >= interval;
    var tail := DepthFrames(interval, if due then head else last, rest);
    if due {
      assert ([head] + tail)[1..] == tail;
    }
    if i == 0 {
      if rest != [] { DepthLater(interval, if due then head else last, rest, head); }
    } else {
      assert rest[i - 1] == indices[i];
      AscendingWeaker(last, head, rest);
      DepthCovers(interval, if due then head else last, rest, i - 1);
    }
  }

  lemma {:induction false} AscendingWeaker(from: int, to: int, indices: seq<int>)
    requires from <= to && AscendingFrom(to, indices)
    ensures AscendingFrom(from, indices)
  {
  }

  lemma {:induction false} DepthLater(interval: int, last: int, indices: seq<int>, n: int)
    requires AscendingFrom(n, indices)
    ensures LatestReport(last, DepthFrames(interval, last, indices), n) == last
    decreases indices
  {
    if indices != [] {
      AscendingWeaker(n, indices[0], indices[1..]);
      DepthLater(interval, last, indices[1..], n);
    }
  }

  function Latest(last: int, reports: seq<int>): int {
    if reports == [] then last else reports[|reports| - 1]
  }

  /** Deciding frame by frame from the latest report gives the same reports. */
  lemma {:induction false} DepthFramesAppend(interval: int, last: int, indices: seq<int>, n: int)
    ensures var d := DepthFrames(interval, last, indices);
      DepthFrames(interval, last, indices + [n]) == d + (if n - Latest(last, d) >= interval then [n] else [])
    decreases indices
  {
    if indices == [] {
      assert [n][1..] == [];
    } else {
      var next := if indices[0] - last >= interval then indices[0] else last;
      DepthFramesAppend(interval, next, indices[1..], n);
      assert (indices + [n])[1..] == indices[1..] + [n];
    }
  }
}
