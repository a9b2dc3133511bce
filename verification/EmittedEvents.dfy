/**
 The events of the engines on their way through re-identification to the log. An entry that matches somebody who
 left is replaced by a re-entry, named by track, frame and visitor, so names can repeat where the engines' do not.
 */
module EmittedEvents {
  import opened Options
  import opened Sequences
  import opened Tracks
  import opened EventIdentity
  import opened EventStreams
  import opened EntryExitDetectors
  import opened EntryExitModel
  import C = Crossing
  import S = SessionModel
  import P = VisitorPipeline
  import R = ReentryIdentity
  import G = ReidGallery
  import E = EmitterModel

  /** What frames and clock add to an engine's event. */
  datatype Camera = Camera(clock: int -> real, dayOf: int -> int, hasBox: EngineEvent -> bool,
                           feature: EngineEvent -> Option<G.Feature>, dwell: EngineEvent -> real)

  function KindOf(e: EngineEvent): S.Kind {
    match e
    case OfCrossing(c) => if c.direction == C.Entry then S.Entry else S.Exit
    case OfZone(z) => (match z.kind case Enter => S.ZoneEnter case Exit => S.ZoneExit case DwellEvent => S.ZoneDwell)
    case OfQueue(_) => S.OtherKind
  }

  function TrackOf(e: EngineEvent): Option<int> {
    match e
    case OfCrossing(c) => Some(c.track)
    case OfZone(z) => Some(z.track)
    case OfQueue(Join(k, _, _, _)) => Some(k.track)
    case OfQueue(Leave(k, _, _, _)) => Some(k.track)
    case OfQueue(Depth(_, _, _)) => None
  }

  function FrameOf(e: EngineEvent): int {
    IdentOf(e).frame
  }

  function RawOf(cam: Camera, e: EngineEvent): P.RawEvent {
    var zone := if e.OfZone? then e.zone.zone else "";
    var sequence := if e.OfZone? then Some(e.zone.sequence) else None;
    P.RawEvent(S.Signal(KindOf(e), cam.clock(FrameOf(e)), TrackOf(e), TrackOf(e), None, zone, sequence, cam.dwell(e)),
               cam.hasBox(e), cam.feature(e))
  }

  function Raws(cam: Camera, log: seq<EngineEvent>): seq<P.RawEvent> {
    if log == [] then [] else Raws(cam, log[..|log| - 1]) + [RawOf(cam, log[|log| - 1])]
  }

  function StoresAfter(cfg: P.Setup, cam: Camera, log: seq<EngineEvent>): P.Stores {
    P.RunAll(cfg, Raws(cam, log))
  }

  /** The identity an event has in the log, as the engine's event or as the re-entry made of it. */
  function EmittedIdent(e: EngineEvent, s: S.Signal): Ident {
    if s.kind.Reentry? && s.track.Some? && s.visitor.Some? then Ident(ReentryType, s.track.value, FrameOf(e), "", s.visitor.value)
    else IdentOf(e)
  }

  /** The identities of the log, in order. */
  function EmittedIdents(cfg: P.Setup, cam: Camera, log: seq<EngineEvent>): seq<Ident> {
    if log == [] then []
    else
      var front, e := log[..|log| - 1], log[|log| - 1];
      EmittedIdents(cfg, cam, front) + [EmittedIdent(e, P.Emitted(cfg, StoresAfter(cfg, cam, front), RawOf(cam, e)))]
  }

  lemma {:induction false} RawsAppend(cam: Camera, log: seq<EngineEvent>, e: EngineEvent)
    ensures Raws(cam, log + [e]) == Raws(cam, log) + [RawOf(cam, e)]
  {
    assert (log + [e])[..|log|] == log;
  }

  lemma {:induction false} IsEngineMade(cam: Camera, e: EngineEvent)
    ensures R.EngineMade(RawOf(cam, e))
    ensures TrackOf(e).Some? ==> RawOf(cam, e).signal.track == Some(IdentOf(e).track)
  {
  }

  lemma {:induction false} StoresStep(cfg: P.Setup, cam: Camera, log: seq<EngineEvent>, e: EngineEvent)
    ensures StoresAfter(cfg, cam, log + [e]) == P.Step(cfg, StoresAfter(cfg, cam, log), RawOf(cam, e))
  {
    RawsAppend(cam, log, e);
    hide Raws, P.Step, RawOf;
    P.RunAllAppend(cfg, Raws(cam, log), RawOf(cam, e));
  }

  /** What goes on to the sessions is of the type, track, frame, zone and number that the event is named by. */
  lemma {:induction false} RawTells(cam: Camera, e: EngineEvent)
    ensures var s, i := RawOf(cam, e).signal, IdentOf(e);
      && (s.kind == S.Entry <==> i.eventType == EntryType) && (s.kind == S.Exit <==> i.eventType == ExitType)
      && (s.kind == S.ZoneEnter <==> i.eventType == ZoneEnterType) && (s.kind == S.ZoneExit <==> i.eventType == ZoneExitType)
      && (s.kind == S.ZoneDwell <==> i.eventType == ZoneDwellType)
      && s.kind != S.Reentry && s.visitor.None? && s.person == s.track
      && (s.track.None? <==> i.eventType == QueueDepthType) && (s.track.Some? ==> s.track.value == i.track)
      && s.at == cam.clock(i.frame)
      && (e.OfZone? ==> s.zone == i.region && s.sequence == Some(i.number))
  {
  }

  /** The stores of the pipeline stay consistent over the engines' events. */
  lemma {:induction false} StoresKept(cfg: P.Setup, cam: Camera, log: seq<EngineEvent>)
    ensures P.JointInv(cfg, StoresAfter(cfg, cam, log)) && R.TracksTell(StoresAfter(cfg, cam, log).state)
  {
    if log == [] {
      NothingKept(cfg, cam);
    } else {
      hide *;
      var front, e := log[..|log| - 1], log[|log| - 1];
      assert front + [e] == log;
      StoresKept(cfg, cam, front);
      StepKept(cfg, cam, StoresAfter(cfg, cam, front), e);
      StoresStep(cfg, cam, front, e);
    }
  }

  lemma {:induction false} StepKept(cfg: P.Setup, cam: Camera, p: P.Stores, e: EngineEvent)
    requires P.JointInv(cfg, p) && R.TracksTell(p.state)
    ensures P.JointInv(cfg, P.Step(cfg, p, RawOf(cam, e))) && R.TracksTell(P.Step(cfg, p, RawOf(cam, e)).state)
  {
    IsEngineMade(cam, e);
    hide P.JointInv, R.TracksTell, P.Step, RawOf;
    P.StepKeeps(cfg, p, RawOf(cam, e));
    R.StepTells(cfg, p, RawOf(cam, e));
  }

  lemma {:induction false} NothingKept(cfg: P.Setup, cam: Camera)
    ensures P.JointInv(cfg, StoresAfter(cfg, cam, [])) && R.TracksTell(StoresAfter(cfg, cam, []).state)
  {
    P.StoresStayApart(cfg, []);
    hide P.JointInv;
  }

  lemma {:induction false} RawsFromEngines(cam: Camera, log: seq<EngineEvent>)
    ensures P.FromEngines(Raws(cam, log))
  {
    hide RawOf;
    if log != [] {
      RawsFromEngines(cam, log[..|log| - 1]);
      IsEngineMade(cam, log[|log| - 1]);
    }
  }

  function EmittedAt(cfg: P.Setup, cam: Camera, log: seq<EngineEvent>, i: nat): S.Signal
    requires i < |log|
  {
    P.Emitted(cfg, StoresAfter(cfg, cam, log[..i]), RawOf(cam, log[i]))
  }

  lemma {:induction false} IdentAt(cfg: P.Setup, cam: Camera, log: seq<EngineEvent>, i: nat)
    requires i < |log|
    ensures |EmittedIdents(cfg, cam, log)| == |log|
    ensures EmittedIdents(cfg, cam, log)[i] == EmittedIdent(log[i], EmittedAt(cfg, cam, log, i))
    decreases |log|
  {
    hide P.Emitted, StoresAfter, RawOf, EmittedIdent;
    var front := log[..|log| - 1];
    if front != [] {
      IdentAt(cfg, cam, front, if i < |front| then i else 0);
    }
    if i < |front| {
      assert front[..i] == log[..i] && front[i] == log[i];
    }
  }

  predicate IsEntry(e: EngineEvent, track: int) {
    e.OfCrossing? && e.crossing.direction == C.Entry && e.crossing.track == track
  }

  predicate IsExit(e: EngineEvent, track: int) {
    e.OfCrossing? && e.crossing.direction == C.Exit && e.crossing.track == track
  }

  /** A re-entry in the log is made of an entry of its track in its frame. */
  lemma {:induction false} ReentryIsEntry(cfg: P.Setup, p: P.Stores, cam: Camera, e: EngineEvent)
    ensures var s := P.Emitted(cfg, p, RawOf(cam, e));
      EmittedIdent(e, s) == (if s.kind.Reentry? then Ident(ReentryType, IdentOf(e).track, FrameOf(e), "", s.visitor.value) else IdentOf(e))
      && (s.kind.Reentry? ==> s.visitor.Some? && IsEntry(e, IdentOf(e).track))
      && IdentOf(e).eventType != ReentryType
  {
    IsEngineMade(cam, e);
    if P.Emitted(cfg, p, RawOf(cam, e)).kind.Reentry? {
      R.EmittedReentry(cfg, p, RawOf(cam, e));
      hide P.Emitted;
    } else {
      hide P.Emitted;
    }
  }

  // ---------------------------------------------------------------------------
  // When names repeat
  // ---------------------------------------------------------------------------

  /** Somebody returns twice with the same track in the same frame. */
  ghost predicate ReturnsTwice(ids: seq<Ident>, i: nat, k: nat) {
    && i < k < |ids| && ids[i].eventType == ReentryType && ids[k].eventType == ReentryType
    && ids[i].track == ids[k].track && ids[i].frame == ids[k].frame && ids[i].number == ids[k].number
  }

  ghost predicate NobodyReturnsTwice(ids: seq<Ident>) {
    forall i: nat, k: nat :: !ReturnsTwice(ids, i, k)
  }

  /** The identities of a log are all different exactly when no frame holds two re-entries of one visitor with one track. */
  lemma {:induction false} EmittedDifferExactly(cfg: P.Setup, cam: Camera, log: seq<EngineEvent>)
    requires AllDiffer(log)
    ensures Distinct(EmittedIdents(cfg, cam, log)) <==> NobodyReturnsTwice(EmittedIdents(cfg, cam, log))
  {
    var ids := EmittedIdents(cfg, cam, log);
    DistinctPairs(ids);
    hide Distinct, AllDiffer, EmittedIdents, P.Emitted, RawOf, StoresAfter, IdentOf;
    EmittedLength(cfg, cam, log);
    if NobodyReturnsTwice(ids) {
      forall i: nat, k: nat | i < k < |ids|
        ensures ids[i] != ids[k]
      {
        IdentAt(cfg, cam, log, i);
        IdentAt(cfg, cam, log, k);
        ReentryIsEntry(cfg, StoresAfter(cfg, cam, log[..i]), cam, log[i]);
        ReentryIsEntry(cfg, StoresAfter(cfg, cam, log[..k]), cam, log[k]);
        DifferAt(log, i, k);
        assert !ReturnsTwice(ids, i, k);
      }
    }
    if Distinct(ids) {
      forall i: nat, k: nat
        ensures !ReturnsTwice(ids, i, k)
      {
        if ReturnsTwice(ids, i, k) {
          IdentAt(cfg, cam, log, i);
          IdentAt(cfg, cam, log, k);
          ReentryIsEntry(cfg, StoresAfter(cfg, cam, log[..i]), cam, log[i]);
          ReentryIsEntry(cfg, StoresAfter(cfg, cam, log[..k]), cam, log[k]);
        }
      }
    }
  }

  lemma {:induction false} EmittedLength(cfg: P.Setup, cam: Camera, log: seq<EngineEvent>)
    ensures |EmittedIdents(cfg, cam, log)| == |log|
  {
    if log != [] {
      IdentAt(cfg, cam, log, 0);
    }
  }

  lemma {:induction false} DifferAt(log: seq<EngineEvent>, i: nat, k: nat)
    requires i < k < |log| && AllDiffer(log)
    ensures IdentOf(log[i]) != IdentOf(log[k])
  {
    hide IdentOf;
    var front := log[..|log| - 1];
    if k < |front| {
      DifferAt(front, i, k);
    } else {
      HasAt(front, i);
    }
  }

  lemma {:induction false} HasAt(log: seq<EngineEvent>, i: nat)
    requires i < |log|
    ensures Has(log, IdentOf(log[i]))
  {
    hide IdentOf;
    if i < |log| - 1 {
      HasAt(log[..|log| - 1], i);
    }
  }

  // ---------------------------------------------------------------------------
  // A guard on the crossings
  // ---------------------------------------------------------------------------

  lemma {:induction false} StillInside(cfg: P.Setup, cam: Camera, log: seq<EngineEvent>, i: nat, m: nat, t: int)
    requires i < m <= |log| && TrackOf(log[i]) == Some(t) && EmittedAt(cfg, cam, log, i).kind.Reentry?
    requires forall j | i < j < m :: !IsExit(log[j], t)
    ensures EmittedAt(cfg, cam, log, i).visitor.Some?
    ensures R.Inside(StoresAfter(cfg, cam, log[..m]), EmittedAt(cfg, cam, log, i).visitor.value, t)
  {
    hide P.Emitted, P.JointInv, R.TracksTell, R.Inside, P.Step, StoresAfter, IdentOf;
    var e := log[m - 1];
    var p := StoresAfter(cfg, cam, log[..m - 1]);
    StoresKept(cfg, cam, log[..m - 1]);
    IsEngineMade(cam, e);
    assert log[..m - 1] + [e] == log[..m];
    StoresStep(cfg, cam, log[..m - 1], e);
    if m == i + 1 {
      R.ReturnedIsInside(cfg, p, RawOf(cam, e), t);
    } else {
      StillInside(cfg, cam, log, i, m - 1, t);
      R.StaysInside(cfg, p, RawOf(cam, e), EmittedAt(cfg, cam, log, i).visitor.value, t);
    }
  }

  /** Two re-entries of one visitor with one track have an exit of that track between them. */
  lemma {:induction false} ReturningTwiceNeedsExit(cfg: P.Setup, cam: Camera, log: seq<EngineEvent>, i: nat, k: nat,
                                                   t: int)
    requires i < k < |log| && TrackOf(log[i]) == Some(t)
    requires EmittedAt(cfg, cam, log, i).kind.Reentry? && EmittedAt(cfg, cam, log, k).kind.Reentry?
    requires EmittedAt(cfg, cam, log, i).visitor == EmittedAt(cfg, cam, log, k).visitor
    ensures exists j | i < j < k :: IsExit(log[j], t)
  {
    hide P.Emitted, StoresAfter, RawOf;
    if forall j | i < j < k :: !IsExit(log[j], t) {
      StillInside(cfg, cam, log, i, k, t);
      var p := StoresAfter(cfg, cam, log[..k]);
      IsEngineMade(cam, log[k]);
      R.EmittedReentry(cfg, p, RawOf(cam, log[k]));
      R.ReentryIsFromGallery(cfg, p, RawOf(cam, log[k]));
    }
  }

  /** Three crossings of one track in one frame: in, out and in again. */
  ghost predicate InOutIn(log: seq<EngineEvent>, i: nat, j: nat, k: nat, t: int) {
    && i < j < k < |log| && IsEntry(log[i], t) && IsExit(log[j], t) && IsEntry(log[k], t)
    && FrameOf(log[i]) == FrameOf(log[j]) == FrameOf(log[k])
  }

  ghost predicate NeverInOutIn(log: seq<EngineEvent>) {
    forall i: nat, j: nat, k: nat, t: int :: !InOutIn(log, i, j, k, t)
  }

  ghost predicate InFrameOrder(log: seq<EngineEvent>) {
    forall i, j | 0 <= i < j < |log| :: FrameOf(log[i]) <= FrameOf(log[j])
  }

  lemma {:induction false} SameFrame(log: seq<EngineEvent>, i: nat, j: nat, k: nat, t: int)
    requires InFrameOrder(log) && i < j < k < |log| && IsEntry(log[i], t) && IsExit(log[j], t) && IsEntry(log[k], t)
    requires FrameOf(log[i]) == FrameOf(log[k])
    ensures InOutIn(log, i, j, k, t)
  {
    hide IsEntry, IsExit, FrameOf;
  }

  /** If no track goes in, out and in again within a frame, the identities of the log are all different. */
  lemma {:induction false} GuardedLogDiffers(cfg: P.Setup, cam: Camera, log: seq<EngineEvent>)
    requires AllDiffer(log) && InFrameOrder(log) && NeverInOutIn(log)
    ensures Distinct(EmittedIdents(cfg, cam, log))
  {
    EmittedDifferExactly(cfg, cam, log);
    EmittedLength(cfg, cam, log);
    var ids := EmittedIdents(cfg, cam, log);
    hide Distinct, AllDiffer, EmittedIdents, P.Emitted, RawOf, StoresAfter;
    forall i: nat, k: nat
      ensures !ReturnsTwice(ids, i, k)
    {
      if ReturnsTwice(ids, i, k) {
        IdentAt(cfg, cam, log, i);
        IdentAt(cfg, cam, log, k);
        ReentryIsEntry(cfg, StoresAfter(cfg, cam, log[..i]), cam, log[i]);
        ReentryIsEntry(cfg, StoresAfter(cfg, cam, log[..k]), cam, log[k]);
        var t := ids[i].track;
        ReturningTwiceNeedsExit(cfg, cam, log, i, k, t);
        var j :| i < j < k && IsExit(log[j], t);
        SameFrame(log, i, j, k, t);
      }
    }
  }

  /** Of one source with rising frames no frame has two events. */
  lemma {:induction false} OncePerFrame(log: seq<EngineEvent>, i: nat, k: nat, s: Source)
    requires i < k < |log| && SourceOf(log[i]) == s && SourceOf(log[k]) == s && Ascends(From(log, s))
    ensures FrameOf(log[i]) < FrameOf(log[k])
  {
    hide IdentOf, SourceOf;
    var front, last := log[..|log| - 1], log[|log| - 1];
    assert front + [last] == log;
    FromFront(front, last, s);
    var before := From(front, s);
    assert (before + [last])[..|before|] == before;
    if k < |front| {
      OncePerFrame(front, i, k, s);
    } else {
      InSource(front, i, s);
      AscendsBelow(before, last, log[i]);
    }
  }

  lemma {:induction false} InSource(log: seq<EngineEvent>, i: nat, s: Source)
    requires i < |log| && SourceOf(log[i]) == s
    ensures log[i] in From(log, s)
  {
    hide SourceOf;
    if i < |log| - 1 {
      InSource(log[..|log| - 1], i, s);
    }
  }

  lemma {:induction false} AscendsBelow(log: seq<EngineEvent>, last: EngineEvent, e: EngineEvent)
    requires Ascends(log + [last]) && e in log
    ensures FrameOf(e) < FrameOf(last)
  {
    hide IdentOf;
    assert (log + [last])[..|log|] == log;
    var front, top := log[..|log| - 1], log[|log| - 1];
    if e != top {
      assert front + [top] == log;
      AscendsBelow(front, top, e);
    }
  }

  ghost predicate CrossingsAscend(log: seq<EngineEvent>) {
    forall k: Key :: Ascends(From(log, CrossingSource(k)))
  }

  /** Every crossing is of a configured line. */
  lemma {:induction false} CrossingHasLine(log: seq<EngineEvent>, i: nat, lines: seq<EntryLine>)
    requires i < |log| && log[i].OfCrossing? && OnlyLines(lines, CrossingPart(log))
    ensures IsLine(lines, log[i].crossing.lineId)
  {
    var c := log[i].crossing;
    InCrossingPart(log, i);
    CrossedHere(CrossingPart(log), c);
  }

  lemma {:induction false} InCrossingPart(log: seq<EngineEvent>, i: nat)
    requires i < |log| && log[i].OfCrossing?
    ensures log[i].crossing in CrossingPart(log)
  {
    if i < |log| - 1 {
      InCrossingPart(log[..|log| - 1], i);
    }
  }

  lemma {:induction false} CrossedHere(crossings: seq<CrossingEvent>, c: CrossingEvent)
    requires c in crossings
    ensures CrossedOf(crossings, Key(c.track, c.lineId)) != []
  {
    if c != crossings[|crossings| - 1] {
      CrossedHere(crossings[..|crossings| - 1], c);
    }
  }

  /** Three crossings of one track in one frame are of three lines, so two lines are safe. */
  lemma {:induction false} TwoLinesAreSafe(log: seq<EngineEvent>, lines: seq<EntryLine>)
    requires |lines| <= 2 && OnlyLines(lines, CrossingPart(log)) && CrossingsAscend(log)
    ensures NeverInOutIn(log)
  {
    hide OnlyLines, IsLine, Ascends, From, CrossingPart;
    forall i: nat, j: nat, k: nat, t: int
      ensures !InOutIn(log, i, j, k, t)
    {
      if InOutIn(log, i, j, k, t) {
        DifferentLines(log, i, j);
        DifferentLines(log, j, k);
        DifferentLines(log, i, k);
        CrossingHasLine(log, i, lines);
        CrossingHasLine(log, j, lines);
        CrossingHasLine(log, k, lines);
        FewLines(lines, log[i].crossing.lineId, log[j].crossing.lineId, log[k].crossing.lineId);
      }
    }
  }

  lemma {:induction false} DifferentLines(log: seq<EngineEvent>, i: nat, k: nat)
    requires i < k < |log| && CrossingsAscend(log) && log[i].OfCrossing? && log[k].OfCrossing?
    requires log[i].crossing.track == log[k].crossing.track && FrameOf(log[i]) == FrameOf(log[k])
    ensures log[i].crossing.lineId != log[k].crossing.lineId
  {
    hide From, Ascends;
    if log[i].crossing.lineId == log[k].crossing.lineId {
      OncePerFrame(log, i, k, SourceOf(log[i]));
    }
  }

  lemma {:induction false} FewLines(lines: seq<EntryLine>, a: string, b: string, c: string)
    requires |lines| <= 2 && IsLine(lines, a) && IsLine(lines, b) && IsLine(lines, c)
    ensures a == b || b == c || a == c
  {
  }

  // ---------------------------------------------------------------------------
  // Deduplication of the log
  // ---------------------------------------------------------------------------

  /** The events as the emitter sees them: the id is the name. */
  function Named(store: string, camera: string, dayOf: int -> int, ids: seq<Ident>): seq<E.Event> {
    if ids == [] then []
    else
      var last := ids[|ids| - 1];
      Named(store, camera, dayOf, ids[..|ids| - 1]) + [E.Event(NameOf(store, camera, last), dayOf(last.frame), "")]
  }

  predicate AllProper(ids: seq<Ident>) {
    forall i | 0 <= i < |ids| :: Proper(ids[i])
  }

  lemma {:induction false} NamedHas(store: string, camera: string, dayOf: int -> int, ids: seq<Ident>, i: Ident)
    requires AllProper(ids) && Proper(i)
    ensures E.HasId(Named(store, camera, dayOf, ids), NameOf(store, camera, i)) <==> i in ids
  {
    hide NameOf, Proper;
    if ids != [] {
      var front, last := ids[..|ids| - 1], ids[|ids| - 1];
      NamedHas(store, camera, dayOf, front, i);
      var named := Named(store, camera, dayOf, ids);
      assert named[..|named| - 1] == Named(store, camera, dayOf, front);
      if NameOf(store, camera, last) == NameOf(store, camera, i) {
        NamesTellIdents(store, camera, last, i);
      }
    }
  }

  lemma {:induction false} NamedDiffer(store: string, camera: string, dayOf: int -> int, ids: seq<Ident>)
    requires AllProper(ids)
    ensures E.AllIdsDiffer(Named(store, camera, dayOf, ids)) <==> Distinct(ids)
    ensures |Named(store, camera, dayOf, ids)| == |ids|
  {
    hide NameOf, Proper, E.HasId;
    if ids != [] {
      var front, last := ids[..|ids| - 1], ids[|ids| - 1];
      NamedDiffer(store, camera, dayOf, front);
      NamedHas(store, camera, dayOf, front, last);
      var named := Named(store, camera, dayOf, ids);
      assert named[..|named| - 1] == Named(store, camera, dayOf, front);
    }
  }

  lemma {:induction false} EmittedProper(cfg: P.Setup, cam: Camera, log: seq<EngineEvent>)
    ensures AllProper(EmittedIdents(cfg, cam, log))
  {
    hide P.Emitted, RawOf, StoresAfter, IdentOf;
    if log != [] {
      EmittedProper(cfg, cam, log[..|log| - 1]);
      IdentsAreProper(log[|log| - 1]);
    }
  }

  predicate AllValid(emit: E.EmitSettings, events: seq<E.Event>) {
    forall i | 0 <= i < |events| :: emit.valid(events[i])
  }

  /**
   While the emitter remembers all ids, it takes every event of a valid log exactly when nobody returns twice with one
   track in one frame. Then it does so whatever it remembers.
   */
  lemma {:induction false} DedupDropsNothingExactly(emit: E.EmitSettings, store: string, camera: string, cfg: P.Setup,
                                                    cam: Camera, log: seq<EngineEvent>)
    requires AllDiffer(log)
    requires AllValid(emit, Named(store, camera, cam.dayOf, EmittedIdents(cfg, cam, log)))
    ensures var events := Named(store, camera, cam.dayOf, EmittedIdents(cfg, cam, log));
      var once := NobodyReturnsTwice(EmittedIdents(cfg, cam, log));
      && (once ==> E.Taken(emit, events) == events)
      && (emit.dedupInMemory && |log| <= emit.maxDedupKeys ==> (E.Taken(emit, events) == events <==> once))
  {
    var ids := EmittedIdents(cfg, cam, log);
    var events := Named(store, camera, cam.dayOf, ids);
    EmittedDifferExactly(cfg, cam, log);
    EmittedProper(cfg, cam, log);
    EmittedLength(cfg, cam, log);
    NamedDiffer(store, camera, cam.dayOf, ids);
    hide Named, AllDiffer, Distinct, EmittedIdents, NobodyReturnsTwice, E.AllIdsDiffer, E.Taken;
    if NobodyReturnsTwice(ids) {
      E.DifferentIdsAreTaken(emit, events);
    }
    if emit.dedupInMemory && |log| <= emit.maxDedupKeys {
      E.ShortRunsTakeEachIdOnce(emit, events, "");
    }
  }
}
