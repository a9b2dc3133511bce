/**
 The frame loop that feeds sessions and gallery: two stores kept consistent only by the order of calls.
 An entry is first looked up in the gallery; a match is forgotten there before the session is resumed, and
 an exit is registered only after its session has been completed.
 */
module VisitorPipeline {
  import opened Options
  import opened Sequences
  import opened OrderedMaps
  import opened BoundedQueues
  import opened SessionModel
  import opened SessionTheorems
  import opened SessionEngines
  import opened ReidGallery

  /** An event as the engines raise it, with the appearance that could be extracted for its box, if any. */
  datatype RawEvent = RawEvent(signal: Signal, hasBox: bool, feature: Option<Feature>) {
    function Appearance(): Option<Feature> {
      if hasBox then feature else None
    }
  }

  datatype Setup = Setup(sessions: Settings, reid: ReidSettings, scores: Scores)

  datatype Stores = Stores(state: State, gallery: seq<ExitRecord>)

  const NO_STORES := Stores(EMPTY, [])

  function ReentrySignal(e: Signal, visitor: nat): Signal {
    Signal(Reentry, e.at, Some(if e.track.Some? then e.track.value else 0), None, Some(visitor), "", None, 0.0)
  }

  predicate ChecksReentry(cfg: Setup, raw: RawEvent) {
    raw.signal.kind.Entry? && cfg.reid.enabled && raw.hasBox
  }

  /** An event that is not turned into a re-entry. */
  function Plain(cfg: Setup, p: Stores, raw: RawEvent): Stores {
    var (next, outcome) := Process(cfg.sessions, p.state, raw.signal);
    Stores(next,
           if raw.signal.kind.Exit? && outcome.Changed? && cfg.reid.enabled then
             Register(cfg.reid, p.gallery, outcome.session.visitor, raw.signal.at, raw.signal.track, raw.Appearance())
           else p.gallery)
  }

  function Step(cfg: Setup, p: Stores, raw: RawEvent): Stores {
    if !ChecksReentry(cfg, raw) then Plain(cfg, p, raw)
    else
      var pruned := Prune(cfg.reid, p.gallery, raw.signal.at);
      var found := MatchFor(cfg.reid, cfg.scores, pruned, raw.feature, raw.signal.at);
      if found.None? then Plain(cfg, p.(gallery := pruned), raw)
      else
        var visitor := found.value.record.visitor;
        Stores(Process(cfg.sessions, p.state, ReentrySignal(raw.signal, visitor)).0,
               RemoveVisitor(cfg.reid, pruned, visitor))
  }

  /** The event that goes on to the sessions and the log: the raw one, or the re-entry made of it. */
  function Emitted(cfg: Setup, p: Stores, raw: RawEvent): Signal {
    if !ChecksReentry(cfg, raw) then raw.signal
    else
      var found := MatchFor(cfg.reid, cfg.scores, Prune(cfg.reid, p.gallery, raw.signal.at), raw.feature, raw.signal.at);
      if found.None? then raw.signal else ReentrySignal(raw.signal, found.value.record.visitor)
  }

  function RunAll(cfg: Setup, events: seq<RawEvent>): Stores {
    if events == [] then NO_STORES
    else Step(cfg, RunAll(cfg, events[..|events| - 1]), events[|events| - 1])
  }

  // ---------------------------------------------------------------------------
  // The joint invariant
  // ---------------------------------------------------------------------------

  /** Nobody is both in the store and in the gallery of those who left, and all who left are known. */
  ghost predicate Apart(p: Stores) {
    forall v: nat | InGallery(p.gallery, v) :: Get(p.state.active, v).None? && v < p.state.nextVisitor
  }

  ghost predicate JointInv(cfg: Setup, p: Stores) {
    && Inv(cfg.sessions, p.state) && p.state.overwritten == 0
    && OnePerVisitor(p.gallery) && |p.gallery| <= cfg.reid.maxEntries
    && Apart(p)
  }

  /** Which visitors can be active after an event that admits nobody. */
  lemma {:induction false} HandleAdmitsNobody(cfg: Settings, st: State, e: Signal, v: nat)
    requires GoodActive(st.active) && !e.kind.Entry? && !e.kind.Reentry?
    ensures var next := Handle(cfg, st, e).0;
      && (Get(next.active, v).Some? ==> Get(st.active, v).Some?)
      && next.nextVisitor == st.nextVisitor && next.overwritten == st.overwritten
  {
    hide Get, Set, Resolve, Visiting, UpdateVisit, SumDwell, Remove, Push, Closed, Good, Unique;
    if Resolve(st, e).Some? {
      ResolvedIsActive(st, e);
      var s := Resolve(st, e).value;
      GetRemove(st.active, s.visitor, v);
      var outcome := Handle(cfg, st, e).1;
      if outcome.Changed? {
        GetSet(st.active, s.visitor, outcome.session, v);
      }
    }
  }

  /** Which visitors can be active after an entry or a re-entry. */
  lemma {:induction false} HandleAdmitsOne(cfg: Settings, st: State, e: Signal, v: nat)
    ensures e.kind.Entry? ==>
      var next := Handle(cfg, st, e).0;
      && Get(next.active, v).Some? == (v == st.nextVisitor || Get(st.active, v).Some?)
      && next.nextVisitor == st.nextVisitor + 1 && next.overwritten == st.overwritten
    ensures e.kind.Reentry? && e.visitor.Some? ==>
      var next := Handle(cfg, st, e).0;
      && Get(next.active, v).Some? == (v == e.visitor.value || Get(st.active, v).Some?)
      && next.nextVisitor >= st.nextVisitor
      && next.overwritten == st.overwritten + (if Get(st.active, e.visitor.value).Some? then 1 else 0)
  {
    hide Get, Set, TrimTracks, GetSession;
    var outcome := Handle(cfg, st, e).1;
    if outcome.Changed? {
      GetSet(st.active, outcome.session.visitor, outcome.session, v);
    }
  }

  /** Cleaning up only takes visitors out. */
  lemma {:induction false} CleanupAdmitsNobody(cfg: Settings, st: State, now: real, v: nat)
    requires Inv(cfg, st)
    ensures var clean := Cleanup(cfg, st, now);
      && (Get(clean.active, v).Some? ==> Get(st.active, v).Some?)
      && clean.nextVisitor == st.nextVisitor && clean.overwritten == st.overwritten
      && Inv(cfg, clean) && GoodActive(clean.active)
  {
    hide Inv, Get, Cleanup, GoodActive;
    CleanupExactly(cfg, st, now);
    InvGood(cfg, Cleanup(cfg, st, now));
  }

  /** An exit ends the session of a visitor who was active, and that one only. */
  lemma {:induction false} ExitEndsOne(cfg: Settings, st: State, e: Signal)
    requires Inv(cfg, st) && e.kind.Exit? && Process(cfg, st, e).1.Changed?
    ensures var v := Process(cfg, st, e).1.session.visitor;
      && Get(st.active, v).Some? && Get(Process(cfg, st, e).0.active, v).None? && v < st.nextVisitor
  {
    hide Get, Inv, Cleanup, Resolve, GoodActive, Remove, Push, CloseVisits, SumDwell;
    var clean := Cleanup(cfg, st, e.at);
    CleanupAdmitsNobody(cfg, st, e.at, 0);
    ResolvedIsActive(clean, e);
    var v := Resolve(clean, e).value.visitor;
    CleanupAdmitsNobody(cfg, st, e.at, v);
    CompleteActive(cfg, clean, v, e.at, Completed, v);
    ActiveIsBelow(cfg, st, v);
  }

  lemma {:induction false} ActiveIsBelow(cfg: Settings, st: State, v: nat)
    requires Inv(cfg, st) && Get(st.active, v).Some?
    ensures v < st.nextVisitor
  {
    hide Get, Window, Balanced, GoodActive, OneToOne, Below;
    InvGood(cfg, st);
    if v >= st.nextVisitor {
      NewIsNotActive(st);
    }
  }

  lemma {:induction false} PlainKeeps(cfg: Setup, p: Stores, raw: RawEvent)
    requires JointInv(cfg, p) && !raw.signal.kind.Reentry?
    ensures JointInv(cfg, Plain(cfg, p, raw))
  {
    hide Inv, Get, Handle, Cleanup, GoodActive, InGallery, OnePerVisitor, Register;
    var e := raw.signal;
    var (next, outcome) := Process(cfg.sessions, p.state, e);
    var clean := Cleanup(cfg.sessions, p.state, e.at);
    ProcessKeeps(cfg.sessions, p.state, e);
    forall v: nat
      ensures Get(next.active, v).Some? ==> Get(p.state.active, v).Some? || v >= p.state.nextVisitor
      ensures next.nextVisitor >= p.state.nextVisitor && next.overwritten == 0
    {
      CleanupAdmitsNobody(cfg.sessions, p.state, e.at, v);
      if e.kind.Entry? {
        HandleAdmitsOne(cfg.sessions, clean, e, v);
      } else {
        HandleAdmitsNobody(cfg.sessions, clean, e, v);
      }
    }
    assert next.nextVisitor >= p.state.nextVisitor && next.overwritten == 0 by {
      CleanupAdmitsNobody(cfg.sessions, p.state, e.at, 0);
      if e.kind.Entry? {
        HandleAdmitsOne(cfg.sessions, clean, e, 0);
      } else {
        HandleAdmitsNobody(cfg.sessions, clean, e, 0);
      }
    }
    if e.kind.Exit? && outcome.Changed? && cfg.reid.enabled {
      ExitEndsOne(cfg.sessions, p.state, e);
      var visitor := outcome.session.visitor;
      forall v: nat
        ensures InGallery(Plain(cfg, p, raw).gallery, v) ==> v == visitor || InGallery(p.gallery, v)
      {
        RegisterKeeps(cfg.reid, p.gallery, visitor, e.at, e.track, raw.Appearance(), v);
      }
      RegisterKeeps(cfg.reid, p.gallery, visitor, e.at, e.track, raw.Appearance(), visitor);
    }
  }

  lemma {:induction false} PrunedKeeps(cfg: Setup, p: Stores, now: real)
    requires JointInv(cfg, p)
    ensures JointInv(cfg, p.(gallery := Prune(cfg.reid, p.gallery, now)))
  {
    hide Inv, Get, InGallery, OnePerVisitor, Prune;
    PruneKeeps(cfg.reid, p.gallery, now, 0);
    forall v: nat
      ensures InGallery(Prune(cfg.reid, p.gallery, now), v) ==> InGallery(p.gallery, v)
    {
      PruneKeeps(cfg.reid, p.gallery, now, v);
    }
  }

  /** A matched visitor is forgotten and resumed: nobody's live session is replaced. */
  lemma {:induction false} ResumeStepKeeps(cfg: Setup, p: Stores, e: Signal, visitor: nat)
    requires JointInv(cfg, p) && InGallery(p.gallery, visitor)
    ensures JointInv(cfg, Stores(Process(cfg.sessions, p.state, ReentrySignal(e, visitor)).0,
                                 RemoveVisitor(cfg.reid, p.gallery, visitor)))
  {
    hide Inv, Get, Handle, Cleanup, GoodActive, InGallery, OnePerVisitor, RemoveVisitor;
    var r := ReentrySignal(e, visitor);
    var next := Process(cfg.sessions, p.state, r).0;
    var clean := Cleanup(cfg.sessions, p.state, r.at);
    ProcessKeeps(cfg.sessions, p.state, r);
    CleanupAdmitsNobody(cfg.sessions, p.state, r.at, visitor);
    HandleAdmitsOne(cfg.sessions, clean, r, visitor);
    RemoveKeeps(cfg.reid, p.gallery, visitor, visitor);
    forall v: nat | InGallery(RemoveVisitor(cfg.reid, p.gallery, visitor), v)
      ensures Get(next.active, v).None? && v < next.nextVisitor
    {
      RemoveKeeps(cfg.reid, p.gallery, visitor, v);
      CleanupAdmitsNobody(cfg.sessions, p.state, r.at, v);
      HandleAdmitsOne(cfg.sessions, clean, r, v);
    }
  }

  lemma {:induction false} MatchIsInGallery(cfg: ReidSettings, s: Scores, gallery: seq<ExitRecord>,
                                            feature: Option<Feature>, now: real)
    requires MatchFor(cfg, s, gallery, feature, now).Some?
    ensures InGallery(gallery, MatchFor(cfg, s, gallery, feature, now).value.record.visitor)
  {
    hide InGallery, Search;
    MemberInGallery(gallery, Search(cfg, s, gallery, |gallery|, feature.value, now).value);
  }

  lemma {:induction false} StepKeeps(cfg: Setup, p: Stores, raw: RawEvent)
    requires JointInv(cfg, p) && !raw.signal.kind.Reentry?
    ensures JointInv(cfg, Step(cfg, p, raw))
  {
    hide JointInv, Plain, Process, MatchFor, Prune, RemoveVisitor, InGallery;
    if !ChecksReentry(cfg, raw) {
      PlainKeeps(cfg, p, raw);
    } else {
      var at := raw.signal.at;
      var pruned := Prune(cfg.reid, p.gallery, at);
      PrunedKeeps(cfg, p, at);
      var found := MatchFor(cfg.reid, cfg.scores, pruned, raw.feature, at);
      if found.None? {
        PlainKeeps(cfg, p.(gallery := pruned), raw);
      } else {
        MatchIsInGallery(cfg.reid, cfg.scores, pruned, raw.feature, at);
        ResumeStepKeeps(cfg, p.(gallery := pruned), raw.signal, found.value.record.visitor);
      }
    }
  }

  /** The engines raise entries, never re-entries: those are made here. */
  ghost predicate FromEngines(events: seq<RawEvent>) {
    forall i | 0 <= i < |events| :: !events[i].signal.kind.Reentry?
  }

  /**
   After every run nobody in the gallery has an active session, each visitor has at most one record there, and no
   re-entry has replaced a live session; so entries and re-entries are exactly the sessions active or completed.
   */
  lemma {:induction false} StoresStayApart(cfg: Setup, events: seq<RawEvent>)
    requires FromEngines(events)
    ensures JointInv(cfg, RunAll(cfg, events))
    ensures var st := RunAll(cfg, events).state; st.entries + st.reentries == |st.active| + |st.finished|
  {
    if events == [] {
      EmptyFine(cfg.sessions, EMPTY);
    } else {
      hide Inv, Step, OnePerVisitor, Apart;
      StoresStayApart(cfg, events[..|events| - 1]);
      StepKeeps(cfg, RunAll(cfg, events[..|events| - 1]), events[|events| - 1]);
      InvBalanced(cfg.sessions, RunAll(cfg, events).state);
    }
  }

  lemma {:induction false} InvBalanced(cfg: Settings, st: State)
    requires Inv(cfg, st)
    ensures Balanced(st)
  {
    hide GoodActive, Window, Numbered;
  }

  /** A match is a record of the gallery, in its time window and similar enough, earliest of the best. */
  lemma {:induction false} MatchIsFirstBest(cfg: ReidSettings, s: Scores, gallery: seq<ExitRecord>,
                                            feature: Option<Feature>, now: real)
    requires cfg.enabled && feature.Some?
    ensures var found := MatchFor(cfg, s, gallery, feature, now);
      if found.None? then NoneEligible(cfg, s, gallery, |gallery|, feature.value, now)
      else exists i: nat | FirstBest(cfg, s, gallery, |gallery|, feature.value, now, i) :: found.value.record == gallery[i]
  {
    hide FirstBest, NoneEligible, Search;
    SearchFindsFirstBest(cfg, s, gallery, |gallery|, feature.value, now);
  }

  /**
   Closing the run completes every session, so the number reported as unique visitors counts entries and re-entries,
   up to the bound of the queue: a visitor who comes back is counted again.
   */
  lemma {:induction false} UniqueVisitorsCountsSessions(cfg: Setup, events: seq<RawEvent>, at: real)
    requires FromEngines(events)
    ensures var st := RunAll(cfg, events).state;
      var closed := CloseAllActive(cfg.sessions, st, at, Completed);
      var visits := st.entries + st.reentries;
      |closed.completed| + |closed.active| == if visits <= cfg.sessions.maxCompleted then visits else cfg.sessions.maxCompleted
  {
    hide RunAll, GoodActive, Numbered, CloseAllActive, OnePerVisitor, Apart;
    StoresStayApart(cfg, events);
    var st := RunAll(cfg, events).state;
    ClosingBalances(cfg.sessions, st, at, Completed);
  }

  // ---------------------------------------------------------------------------
  // What goes on, and what is remembered
  // ---------------------------------------------------------------------------

  lemma {:induction false} FreshFrom(gallery: seq<ExitRecord>, cutoff: real, r: ExitRecord)
    requires r in FreshSince(gallery, cutoff)
    ensures r in gallery
  {
    var front := gallery[..|gallery| - 1];
    if r in FreshSince(front, cutoff) {
      FreshFrom(front, cutoff, r);
    }
  }

  lemma {:induction false} PrunedFrom(cfg: ReidSettings, gallery: seq<ExitRecord>, now: real, r: ExitRecord)
    requires r in Prune(cfg, gallery, now)
    ensures r in gallery
  {
    hide FreshSince;
    FreshFrom(gallery, now - cfg.timeout, r);
  }

  lemma {:induction false} OthersFrom(gallery: seq<ExitRecord>, visitor: nat, r: ExitRecord)
    requires r in Others(gallery, visitor)
    ensures r in gallery
  {
    var front := gallery[..|gallery| - 1];
    if r in Others(front, visitor) {
      OthersFrom(front, visitor, r);
    }
  }

  /** A re-entry carries the time and the track of the entry it replaces, or track 0, and the visitor of the match. */
  predicate ReplacesEntry(e: Signal, s: Signal, visitor: nat) {
    && s.kind.Reentry? && s.at == e.at && s.visitor == Some(visitor) && s.person.None?
    && (if e.track.Some? then s.track == e.track else s.track == Some(0))
  }

  /** The record is of somebody who left no longer ago than the timeout and looks enough alike. */
  ghost predicate MatchesRaw(cfg: Setup, p: Stores, raw: RawEvent, r: ExitRecord) {
    && r in p.gallery && raw.feature.Some? && WithinLimits(cfg.reid, cfg.scores, r, raw.feature.value, raw.signal.at)
  }

  /** An event goes on as it is, or as a re-entry: then it is an entry with a box that looks like somebody who left. */
  lemma {:induction false} EmittedExactly(cfg: Setup, p: Stores, raw: RawEvent)
    ensures var s := Emitted(cfg, p, raw);
      s == raw.signal
      || (&& raw.signal.kind.Entry? && cfg.reid.enabled && raw.hasBox
          && exists r: ExitRecord :: MatchesRaw(cfg, p, raw, r) && ReplacesEntry(raw.signal, s, r.visitor))
  {
    hide Prune, MatchFor, WithinLimits;
    var pruned := Prune(cfg.reid, p.gallery, raw.signal.at);
    var found := MatchFor(cfg.reid, cfg.scores, pruned, raw.feature, raw.signal.at);
    if ChecksReentry(cfg, raw) && found.Some? {
      var r := found.value.record;
      MatchMeans(cfg.reid, cfg.scores, pruned, raw.feature, raw.signal.at);
      PrunedFrom(cfg.reid, p.gallery, raw.signal.at, r);
      assert MatchesRaw(cfg, p, raw, r) && ReplacesEntry(raw.signal, Emitted(cfg, p, raw), r.visitor);
    }
  }

  /** The record of an exit that ended a session and had an appearance. */
  predicate IsExitOf(cfg: Setup, p: Stores, raw: RawEvent, r: ExitRecord) {
    && raw.signal.kind.Exit? && cfg.reid.enabled && raw.hasBox && raw.feature == Some(r.feature)
    && r.exitedAt == raw.signal.at && r.track == raw.signal.track && Get(p.state.active, r.visitor).Some?
  }

  /** Whatever is remembered after an event was remembered before, or is the exit the event reports. */
  lemma {:induction false} RecordsFrom(cfg: Setup, p: Stores, raw: RawEvent, r: ExitRecord)
    requires JointInv(cfg, p) && r in Step(cfg, p, raw).gallery
    ensures r in p.gallery || IsExitOf(cfg, p, raw, r)
  {
    var pruned := Prune(cfg.reid, p.gallery, raw.signal.at);
    if ChecksReentry(cfg, raw) {
      hide Process, MatchFor, Prune, Others;
      if r in pruned {
        PrunedFrom(cfg.reid, p.gallery, raw.signal.at, r);
      } else {
        var found := MatchFor(cfg.reid, cfg.scores, pruned, raw.feature, raw.signal.at);
        OthersFrom(pruned, found.value.record.visitor, r);
      }
    } else if raw.signal.kind.Exit? && Process(cfg.sessions, p.state, raw.signal).1.Changed? {
      ExitEndsOne(cfg.sessions, p.state, raw.signal);
      hide Process, Prune, Inv, Get;
      if r in pruned {
        PrunedFrom(cfg.reid, p.gallery, raw.signal.at, r);
      }
    }
  }

  // ---------------------------------------------------------------------------
  // The frame loop
  // ---------------------------------------------------------------------------

  lemma {:induction false} RunAllAppend(cfg: Setup, events: seq<RawEvent>, raw: RawEvent)
    ensures RunAll(cfg, events + [raw]) == Step(cfg, RunAll(cfg, events), raw)
  {
    assert (events + [raw])[..|events|] == events;
    hide Step;
  }

  class FullPipelineRunner {
    const cfg: Setup
    const sessions: SessionEngine
    const reid: LightweightReID

    ghost predicate Wired() {
      sessions.cfg == cfg.sessions && reid.cfg == cfg.reid && reid.scores == cfg.scores
    }

    ghost function View(): Stores
      reads sessions, Objects(sessions.active), Members(sessions.completed), Members(sessions.finished), reid
    {
      Stores(sessions.View(), reid.memory)
    }

    constructor (cfg: Setup)
      ensures this.cfg == cfg && Wired() && View() == NO_STORES && fresh(sessions) && fresh(reid)
    {
      this.cfg := cfg;
      sessions := new SessionEngine(cfg.sessions);
      reid := new LightweightReID(cfg.reid, cfg.scores);
    }

    /** Look an entering visitor up and forget a match before anything else happens to the session. */
    method CheckReentry(raw: RawEvent) returns (event: Option<Signal>)
      requires Wired() && ChecksReentry(cfg, raw)
      modifies reid
      ensures var pruned := Prune(cfg.reid, old(reid.memory), raw.signal.at);
        var found := MatchFor(cfg.reid, cfg.scores, pruned, raw.feature, raw.signal.at);
        if found.None? then event.None? && reid.memory == pruned
        else && event == Some(ReentrySignal(raw.signal, found.value.record.visitor))
             && reid.memory == RemoveVisitor(cfg.reid, pruned, found.value.record.visitor)
    {
      hide Prune, MatchFor, RemoveVisitor;
      var found := reid.MatchReentry(raw.signal.at, raw.feature);
      if found.None? {
        return None;
      }
      reid.Forget(found.value.record.visitor);
      event := Some(ReentrySignal(raw.signal, found.value.record.visitor));
    }

    /** What happens to one event of a frame; the event that goes to the log is returned. */
    method ProcessRaw(raw: RawEvent) returns (emitted: Signal)
      requires Wired() && JointInv(cfg, View()) && !raw.signal.kind.Reentry?
      modifies sessions, Objects(sessions.active), reid
      ensures View() == Step(cfg, old(View()), raw) && JointInv(cfg, View())
      ensures emitted == Emitted(cfg, old(View()), raw)
      ensures fresh(Objects(sessions.active) - old(Objects(sessions.active)))
      ensures old(sessions.finished) <= sessions.finished && forall o | o in old(sessions.finished) :: unchanged(o)
    {
      hide Inv, Process, Prune, MatchFor, RemoveVisitor, Register, Apart, OnePerVisitor, Valued, Snapshots;
      ghost var before := View();
      StepKeeps(cfg, View(), raw);
      if ChecksReentry(cfg, raw) {
        var event := CheckReentry(raw);
        assert sessions.View() == before.state && sessions.active == old(sessions.active);
        if event.Some? {
          var _ := sessions.ProcessEvent(event.value);
          emitted := event.value;
          return;
        }
      }
      var outcome := sessions.ProcessEvent(raw.signal);
      if raw.signal.kind.Exit? && outcome.Changed? && cfg.reid.enabled {
        ghost var now := sessions.View();
        var _ := reid.RegisterExit(outcome.session.visitor, raw.signal.at, raw.signal.track, raw.Appearance());
        assert sessions.View() == now;
      }
      emitted := raw.signal;
    }

    /** The events of one frame, in order. */
    method ProcessFrameEvents(raws: seq<RawEvent>, ghost past: seq<RawEvent>) returns (emitted: seq<Signal>)
      requires Wired() && View() == RunAll(cfg, past) && JointInv(cfg, View()) && FromEngines(raws)
      modifies sessions, Objects(sessions.active), reid
      ensures View() == RunAll(cfg, past + raws) && JointInv(cfg, View())
      ensures emitted == EmittedAfter(cfg, past, raws)
      ensures fresh(Objects(sessions.active) - old(Objects(sessions.active)))
      ensures old(sessions.finished) <= sessions.finished && forall o | o in old(sessions.finished) :: unchanged(o)
    {
      hide JointInv, Step, RunAll, Emitted, Valued, Snapshots, Members, Wired;
      emitted := [];
      assert past + raws[..0] == past;
      for i := 0 to |raws|
        invariant View() == RunAll(cfg, past + raws[..i]) && JointInv(cfg, View())
        invariant emitted == EmittedAfter(cfg, past, raws[..i])
        invariant fresh(Objects(sessions.active) - old(Objects(sessions.active)))
        invariant old(sessions.finished) <= sessions.finished && forall o | o in old(sessions.finished) :: unchanged(o)
      {
        RunAllAppend(cfg, past + raws[..i], raws[i]);
        assert (past + raws[..i]) + [raws[i]] == past + raws[..i + 1];
        assert raws[..i + 1][..i] == raws[..i];
        ghost var before := sessions.finished;
        var event := ProcessRaw(raws[i]);
        emitted := emitted + [event];
        forall o | o in old(sessions.finished)
          ensures unchanged(o)
        {
          assert o in before;
        }
      }
      assert raws[..|raws|] == raws;
    }

    /** The end of the video: all sessions are completed and counted. */
    method Finish(endAt: real) returns (uniqueVisitors: nat)
      requires Wired() && JointInv(cfg, View())
      modifies sessions, Objects(sessions.active)
      ensures sessions.View() == CloseAllActive(cfg.sessions, old(View()).state, endAt, Completed)
      ensures sessions.active == [] && sessions.entries + sessions.reentries == |sessions.finished|
      ensures uniqueVisitors ==
        if |sessions.finished| <= cfg.sessions.maxCompleted then |sessions.finished| else cfg.sessions.maxCompleted
    {
      hide JointInv, CloseAllActive, Inv, Valued, Snapshots, SessionEngine.Separate;
      JointIsGood(cfg, View());
      ClosingBalances(cfg.sessions, sessions.View(), endAt, Completed);
      ClosingKeepsCounts(cfg.sessions, sessions.View(), endAt);
      InvSeparate(sessions);
      sessions.CloseAll(endAt, Completed);
      InvWindow(cfg.sessions, sessions.View());
      uniqueVisitors := |sessions.completed| + |sessions.active|;
    }

    /** All frames, event by event, and then the end of the video; returns the reported number of unique visitors. */
    method Run(frames: seq<seq<RawEvent>>, endAt: real) returns (uniqueVisitors: nat)
      requires Wired() && View() == NO_STORES && FromEngines(Flat(frames))
      modifies sessions, reid, Objects(sessions.active)
      ensures sessions.View() == CloseAllActive(cfg.sessions, RunAll(cfg, Flat(frames)).state, endAt, Completed)
      ensures sessions.active == [] && sessions.entries + sessions.reentries == |sessions.finished|
      ensures uniqueVisitors ==
        if |sessions.finished| <= cfg.sessions.maxCompleted then |sessions.finished| else cfg.sessions.maxCompleted
    {
      hide JointInv, Step, CloseAllActive, Inv, RunAll, Valued, Snapshots, Members;
      ghost var all := Flat(frames);
      StoresStayApart(cfg, []);
      EmptyRun(cfg);
      for i := 0 to |frames|
        invariant Flat(frames[..i]) <= all
        invariant View() == RunAll(cfg, Flat(frames[..i])) && JointInv(cfg, View())
        invariant fresh(Objects(sessions.active) - old(Objects(sessions.active)))
      {
        ghost var done := Flat(frames[..i]);
        FlatPrefix(frames, i);
        assert forall j | 0 <= j < |frames[i]| :: all[|done| + j] == frames[i][j];
        var _ := ProcessFrameEvents(frames[i], done);
      }
      assert frames[..|frames|] == frames;
      uniqueVisitors := Finish(endAt);
    }
  }

  /** What some events put into the log when others came before. */
  function EmittedAfter(cfg: Setup, past: seq<RawEvent>, raws: seq<RawEvent>): seq<Signal> {
    if raws == [] then []
    else
      var front := raws[..|raws| - 1];
      EmittedAfter(cfg, past, front) + [Emitted(cfg, RunAll(cfg, past + front), raws[|raws| - 1])]
  }

  lemma {:induction false} EmptyRun(cfg: Setup)
    ensures RunAll(cfg, []) == NO_STORES && Flat<RawEvent>([]) == []
  {
  }

  lemma {:induction false} JointIsGood(cfg: Setup, p: Stores)
    requires JointInv(cfg, p)
    ensures Inv(cfg.sessions, p.state) && Unique(p.state.active) && p.state.overwritten == 0
  {
    hide Inv, Unique, OnePerVisitor, Apart;
    InvGood(cfg.sessions, p.state);
  }

  lemma {:induction false} InvWindow(cfg: Settings, st: State)
    requires Inv(cfg, st)
    ensures |st.completed| == if |st.finished| <= cfg.maxCompleted then |st.finished| else cfg.maxCompleted
  {
    hide GoodActive, Numbered, Balanced;
  }

  lemma {:induction false} ClosingKeepsCounts(cfg: Settings, st: State, at: real)
    requires Inv(cfg, st)
    ensures OnlyCompleted(st, CloseAllActive(cfg, st, at, Completed))
  {
    hide Inv, CompleteAll, Get, OnlyCompleted;
    CompleteAllKeeps(cfg, st, Keys(st.active), at, Completed);
  }
}
