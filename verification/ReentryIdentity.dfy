/**
 When a returning visitor can return again. A session is found by the track it started with, so only an exit of
 that track puts its visitor back into the gallery.
 */
module ReentryIdentity {
  import opened Options
  import opened OrderedMaps
  import opened BoundedQueues
  import opened SessionModel
  import opened SessionTheorems
  import opened SessionEngines
  import opened ReidGallery
  import opened VisitorPipeline

  /** An event as the engines raise it names its person after its track, and is no re-entry. */
  predicate EngineMade(raw: RawEvent) {
    raw.signal.person == raw.signal.track && !raw.signal.kind.Reentry?
  }

  // ---------------------------------------------------------------------------
  // Track mappings lead to the sessions that started with the track
  // ---------------------------------------------------------------------------

  predicate Leads(b: Binding<int, nat>, active: seq<Binding<nat, VisitorSession>>) {
    Get(active, b.value).Some? && Get(active, b.value).value.track == Some(b.key)
  }

  ghost predicate TracksTell(st: State) {
    forall b | b in st.tracks :: Leads(b, st.active)
  }

  lemma {:induction false} GetIn<K, V>(m: seq<Binding<K, V>>, k: K)
    requires Get(m, k).Some?
    ensures Binding(k, Get(m, k).value) in m
  {
    if m[|m| - 1].key != k {
      GetIn(m[..|m| - 1], k);
    }
  }

  lemma {:induction false} InSet<K, V>(m: seq<Binding<K, V>>, k: K, v: V)
    ensures forall b | b in Set(m, k, v) :: b == Binding(k, v) || (b in m && b.key != k)
  {
    if Get(m, k).Some? {
      InReplace(m, k, v);
    } else {
      NotFound(m, k);
    }
  }

  lemma {:induction false} InReplace<K, V>(m: seq<Binding<K, V>>, k: K, v: V)
    ensures forall b | b in Replace(m, k, v) :: b == Binding(k, v) || (b in m && b.key != k)
  {
    if m != [] {
      InReplace(m[..|m| - 1], k, v);
    }
  }

  lemma {:induction false} NotFound<K, V>(m: seq<Binding<K, V>>, k: K)
    requires Get(m, k).None?
    ensures forall b | b in m :: b.key != k
  {
    if m != [] {
      NotFound(m[..|m| - 1], k);
    }
  }

  lemma {:induction false} InRemove<K, V>(m: seq<Binding<K, V>>, k: K)
    ensures forall b | b in Remove(m, k) :: b in m && b.key != k
  {
    if m != [] {
      InRemove(m[..|m| - 1], k);
    }
  }

  lemma {:induction false} InTrimmed(cfg: Settings, tracks: seq<Binding<int, nat>>,
                                     active: seq<Binding<nat, VisitorSession>>)
    ensures forall b | b in TrimTracks(cfg, tracks, active) :: b in tracks
  {
    InOnlyActive(tracks, active);
    hide OnlyActive;
  }

  lemma {:induction false} InOnlyActive(tracks: seq<Binding<int, nat>>, active: seq<Binding<nat, VisitorSession>>)
    ensures forall b | b in OnlyActive(tracks, active) :: b in tracks
  {
    if tracks != [] {
      InOnlyActive(tracks[..|tracks| - 1], active);
    }
  }

  lemma {:induction false} CompleteTells(cfg: Settings, st: State, v: nat, at: real, status: Status)
    requires TracksTell(st)
    ensures TracksTell(Complete(cfg, st, v, at, status))
  {
    hide Get, Remove, Push, CloseVisits, SumDwell;
    var next := Complete(cfg, st, v, at, status);
    if Get(st.active, v).Some? {
      var track := Get(st.active, v).value.track;
      if track.Some? {
        InRemove(st.tracks, track.value);
      }
      forall b | b in next.tracks
        ensures Leads(b, next.active)
      {
        assert Leads(b, st.active);
        CompleteActive(cfg, st, v, at, status, b.value);
      }
    }
  }

  lemma {:induction false} CompleteAllTells(cfg: Settings, st: State, vs: seq<nat>, at: real, status: Status)
    requires TracksTell(st)
    ensures TracksTell(CompleteAll(cfg, st, vs, at, status))
  {
    hide TracksTell, Complete;
    if vs != [] {
      CompleteAllTells(cfg, st, vs[..|vs| - 1], at, status);
      CompleteTells(cfg, CompleteAll(cfg, st, vs[..|vs| - 1], at, status), vs[|vs| - 1], at, status);
    }
  }

  /** Events of the engines, and re-entries of visitors without a session. */
  ghost predicate Orderly(st: State, e: Signal) {
    && (!e.kind.Reentry? ==> e.person == e.track)
    && (e.kind.Reentry? ==> e.visitor.Some? && Get(st.active, e.visitor.value).None?)
  }

  /** The session found for an engine's event started with the event's track. */
  lemma {:induction false} ResolvedByTrack(st: State, e: Signal)
    requires TracksTell(st) && e.person == e.track && Resolve(st, e).Some? && GoodActive(st.active)
    ensures Resolve(st, e).value.track == e.track && e.track.Some?
    ensures Get(st.active, Resolve(st, e).value.visitor) == Resolve(st, e)
  {
    ResolvedIsActive(st, e);
    hide Get, Unique, Good;
    GetIn(st.tracks, e.track.value);
    assert Leads(Binding(e.track.value, Get(st.tracks, e.track.value).value), st.active);
  }

  /** A session comes to be in use only by being filed; the tracks that lead to others still do. */
  lemma {:induction false} FiledTells(st: State, next: State, s: VisitorSession)
    requires TracksTell(st) && next.active == Set(st.active, s.visitor, s)
    requires Get(st.active, s.visitor).Some? ==> Get(st.active, s.visitor).value.track == s.track
    requires forall b | b in next.tracks :: b in st.tracks || (s.track.Some? && b == Binding(s.track.value, s.visitor))
    ensures TracksTell(next)
  {
    hide Get, Set;
    forall b | b in next.tracks
      ensures Leads(b, next.active)
    {
      GetSet(st.active, s.visitor, s, b.value);
      if b in st.tracks {
        assert Leads(b, st.active);
      }
    }
  }

  lemma {:induction false} HandleTells(cfg: Settings, st: State, e: Signal)
    requires Inv(cfg, st) && TracksTell(st) && Orderly(st, e)
    ensures TracksTell(Handle(cfg, st, e).0)
  {
    hide Get, Set, Resolve, Visiting, UpdateVisit, SumDwell, TrimTracks, GetSession, Inv, Complete, Closed, GoodActive;
    InvGood(cfg, st);
    var (next, outcome) := Handle(cfg, st, e);
    if outcome.Changed? {
      var s := outcome.session;
      if e.track.Some? {
        InSet(st.tracks, e.track.value, s.visitor);
        InTrimmed(cfg, Set(st.tracks, e.track.value, s.visitor), next.active);
      }
      if e.kind.Entry? {
        NewHasNoSession(cfg, st);
        FiledTells(st, next, s);
      } else if e.kind.Reentry? {
        FiledTells(st, next, s);
      } else {
        ResolvedByTrack(st, e);
        if e.kind.Exit? {
          CompleteTells(cfg, st, Resolve(st, e).value.visitor, e.at, Completed);
        } else if next != st {
          FiledTells(st, next, s);
        }
      }
    }
  }

  lemma {:induction false} NewHasNoSession(cfg: Settings, st: State)
    requires Inv(cfg, st)
    ensures Get(st.active, st.nextVisitor).None?
  {
    hide Get, GoodActive, OneToOne, Below, Window, Balanced;
    NewIsNotActive(st);
  }

  lemma {:induction false} ProcessTells(cfg: Settings, st: State, e: Signal)
    requires Inv(cfg, st) && TracksTell(st) && Orderly(st, e)
    ensures TracksTell(Process(cfg, st, e).0)
  {
    hide Inv, TracksTell, CompleteAll, Handle, Get;
    CleanupExactly(cfg, st, e.at);
    CompleteAllTells(cfg, st, StaleVisitors(cfg, st.active, e.at), e.at, TimedOut);
    HandleTells(cfg, Cleanup(cfg, st, e.at), e);
  }

  lemma {:induction false} StepTells(cfg: Setup, p: Stores, raw: RawEvent)
    requires JointInv(cfg, p) && TracksTell(p.state) && EngineMade(raw)
    ensures TracksTell(Step(cfg, p, raw).state)
  {
    hide Inv, TracksTell, Process, Prune, MatchFor, RemoveVisitor, InGallery, OnePerVisitor, Get;
    if ChecksReentry(cfg, raw) && Emitted(cfg, p, raw).kind.Reentry? {
      ReentryIsFromGallery(cfg, p, raw);
      EmittedReentry(cfg, p, raw);
      ProcessTells(cfg.sessions, p.state, Emitted(cfg, p, raw));
    } else {
      ProcessTells(cfg.sessions, p.state, raw.signal);
    }
  }

  // ---------------------------------------------------------------------------
  // Who can return
  // ---------------------------------------------------------------------------

  /** A re-entry takes its visitor out of the gallery. */
  lemma {:induction false} ReentryForgets(cfg: Setup, p: Stores, raw: RawEvent)
    requires JointInv(cfg, p) && raw.signal.kind.Entry? && Emitted(cfg, p, raw).kind.Reentry?
    ensures !InGallery(Step(cfg, p, raw).gallery, Emitted(cfg, p, raw).visitor.value)
  {
    hide Process, InGallery, Prune, RemoveVisitor, MatchFor, Inv, OnePerVisitor;
    var pruned := Prune(cfg.reid, p.gallery, raw.signal.at);
    PruneKeeps(cfg.reid, p.gallery, raw.signal.at, 0);
    RemoveKeeps(cfg.reid, pruned, Emitted(cfg, p, raw).visitor.value, Emitted(cfg, p, raw).visitor.value);
  }

  /** A re-entry is of a visitor in the gallery. */
  lemma {:induction false} ReentryIsFromGallery(cfg: Setup, p: Stores, raw: RawEvent)
    requires raw.signal.kind.Entry? && Emitted(cfg, p, raw).kind.Reentry?
    ensures InGallery(p.gallery, Emitted(cfg, p, raw).visitor.value)
  {
    hide InGallery, Prune, MatchFor;
    var pruned := Prune(cfg.reid, p.gallery, raw.signal.at);
    MatchIsInGallery(cfg.reid, cfg.scores, pruned, raw.feature, raw.signal.at);
    PruneKeeps(cfg.reid, p.gallery, raw.signal.at, Emitted(cfg, p, raw).visitor.value);
  }

  lemma {:induction false} EmittedReentry(cfg: Setup, p: Stores, raw: RawEvent)
    requires !raw.signal.kind.Reentry? && Emitted(cfg, p, raw).kind.Reentry?
    ensures raw.signal.kind.Entry? && ChecksReentry(cfg, raw)
    ensures Emitted(cfg, p, raw).visitor.Some?
    ensures Emitted(cfg, p, raw) == ReentrySignal(raw.signal, Emitted(cfg, p, raw).visitor.value)
  {
  }

  /** A visitor who is known, not in the gallery, and if in the store, there since track `t` came in. */
  ghost predicate Inside(p: Stores, v: nat, t: int) {
    && !InGallery(p.gallery, v) && v < p.state.nextVisitor
    && (Get(p.state.active, v).Some? ==> Get(p.state.active, v).value.track == Some(t))
  }

  /** A visitor's session keeps its track for as long as it lasts. */
  lemma {:induction false} HandleKeepsTrack(cfg: Settings, st: State, e: Signal, v: nat)
    requires Inv(cfg, st) && v < st.nextVisitor && (e.kind.Reentry? ==> e.visitor.Some? && e.visitor.value != v)
    ensures var next := Handle(cfg, st, e).0;
      && v < next.nextVisitor
      && (Get(next.active, v).Some? ==>
            Get(st.active, v).Some? && Get(next.active, v).value.track == Get(st.active, v).value.track)
  {
    hide Get, Set, Resolve, Visiting, UpdateVisit, SumDwell, TrimTracks, GetSession, Remove, Push, Closed, Inv, GoodActive;
    InvGood(cfg, st);
    var (next, outcome) := Handle(cfg, st, e);
    if outcome.Changed? {
      GetSet(st.active, outcome.session.visitor, outcome.session, v);
      if !e.kind.Entry? && !e.kind.Reentry? {
        ResolvedIsActive(st, e);
        GetRemove(st.active, Resolve(st, e).value.visitor, v);
      }
    }
  }

  lemma {:induction false} ProcessKeepsTrack(cfg: Settings, st: State, e: Signal, v: nat)
    requires Inv(cfg, st) && v < st.nextVisitor && (e.kind.Reentry? ==> e.visitor.Some? && e.visitor.value != v)
    ensures var next := Process(cfg, st, e).0;
      && v < next.nextVisitor
      && (Get(next.active, v).Some? ==>
            Get(st.active, v).Some? && Get(next.active, v).value.track == Get(st.active, v).value.track)
  {
    hide Inv, Handle, Cleanup, Get;
    CleanupExactly(cfg, st, e.at);
    HandleKeepsTrack(cfg, Cleanup(cfg, st, e.at), e, v);
  }

  /** An exit that ends a session ends one that started with the exit's track. */
  lemma {:induction false} ExitIsOfTrack(cfg: Settings, st: State, e: Signal)
    requires Inv(cfg, st) && TracksTell(st) && e.kind.Exit? && e.person == e.track && Process(cfg, st, e).1.Changed?
    ensures var v := Process(cfg, st, e).1.session.visitor;
      e.track.Some? && Get(st.active, v).Some? && Get(st.active, v).value.track == e.track
  {
    hide Get, Inv, CompleteAll, Resolve, GoodActive, TracksTell, Complete, CloseVisits, SumDwell;
    var clean := Cleanup(cfg, st, e.at);
    CleanupExactly(cfg, st, e.at);
    InvGood(cfg, clean);
    CompleteAllTells(cfg, st, StaleVisitors(cfg, st.active, e.at), e.at, TimedOut);
    ResolvedByTrack(clean, e);
  }

  /** Only an exit of that track lets the visitor out. */
  lemma {:induction false} StaysInside(cfg: Setup, p: Stores, raw: RawEvent, v: nat, t: int)
    requires JointInv(cfg, p) && TracksTell(p.state) && Inside(p, v, t) && EngineMade(raw)
    requires !(raw.signal.kind.Exit? && raw.signal.track == Some(t))
    ensures Inside(Step(cfg, p, raw), v, t)
  {
    hide Inv, TracksTell, Process, Prune, MatchFor, RemoveVisitor, Register, InGallery, OnePerVisitor, Get;
    var pruned := Prune(cfg.reid, p.gallery, raw.signal.at);
    PruneKeeps(cfg.reid, p.gallery, raw.signal.at, v);
    if ChecksReentry(cfg, raw) && Emitted(cfg, p, raw).kind.Reentry? {
      var back := Emitted(cfg, p, raw);
      ReentryIsFromGallery(cfg, p, raw);
      EmittedReentry(cfg, p, raw);
      RemoveKeeps(cfg.reid, pruned, back.visitor.value, v);
      ProcessKeepsTrack(cfg.sessions, p.state, back, v);
    } else {
      ProcessKeepsTrack(cfg.sessions, p.state, raw.signal, v);
      if raw.signal.kind.Exit? && Process(cfg.sessions, p.state, raw.signal).1.Changed? && cfg.reid.enabled {
        ExitIsOfTrack(cfg.sessions, p.state, raw.signal);
        var visitor := Process(cfg.sessions, p.state, raw.signal).1.session.visitor;
        RegisterKeeps(cfg.reid, p.gallery, visitor, raw.signal.at, raw.signal.track, raw.Appearance(), v);
      }
    }
  }

  lemma {:induction false} StepReentry(cfg: Setup, p: Stores, raw: RawEvent)
    requires !raw.signal.kind.Reentry? && Emitted(cfg, p, raw).kind.Reentry?
    ensures Step(cfg, p, raw).state == Process(cfg.sessions, p.state, Emitted(cfg, p, raw)).0
  {
    hide Process;
  }

  /** A visitor who has just returned is inside. */
  lemma {:induction false} ReturnedIsInside(cfg: Setup, p: Stores, raw: RawEvent, t: int)
    requires JointInv(cfg, p) && EngineMade(raw) && Emitted(cfg, p, raw).kind.Reentry? && raw.signal.track == Some(t)
    ensures Emitted(cfg, p, raw).visitor.Some?
    ensures Inside(Step(cfg, p, raw), Emitted(cfg, p, raw).visitor.value, t)
  {
    hide Inv, Emitted, Step, InGallery, OnePerVisitor, Get, Set, Cleanup, GetSession;
    EmittedReentry(cfg, p, raw);
    StepReentry(cfg, p, raw);
    var back := Emitted(cfg, p, raw);
    var v := back.visitor.value;
    ReentryForgets(cfg, p, raw);
    ReentryIsFromGallery(cfg, p, raw);
    CleanupExactly(cfg.sessions, p.state, back.at);
    var clean := Cleanup(cfg.sessions, p.state, back.at);
    assert Process(cfg.sessions, p.state, back).0 == Resume(clean, v, back).0;
    GetSet(clean.active, v, Resume(clean, v, back).1.session, v);
  }

  // ---------------------------------------------------------------------------
  // Small runs
  // ---------------------------------------------------------------------------

  /** The gallery holds one record, and it matches. */
  lemma {:induction false} OnlyRecordMatches(cfg: Setup, p: Stores, raw: RawEvent, r: ExitRecord)
    requires ChecksReentry(cfg, raw) && raw.feature.Some? && p.gallery == [r] && cfg.reid.maxEntries >= 1
    requires Eligible(cfg.reid, cfg.scores, r, raw.feature.value, raw.signal.at)
    ensures Emitted(cfg, p, raw) == ReentrySignal(raw.signal, r.visitor)
    ensures Step(cfg, p, raw) == Stores(Process(cfg.sessions, p.state, ReentrySignal(raw.signal, r.visitor)).0, [])
  {
    hide Process, Similarity;
    var at := raw.signal.at;
    assert [r][..0] == [];
    assert FreshSince([r], at - cfg.reid.timeout) == [r];
    assert Prune(cfg.reid, p.gallery, at) == [r];
    assert Search(cfg.reid, cfg.scores, [r], 0, raw.feature.value, at) == None;
    assert Search(cfg.reid, cfg.scores, [r], 1, raw.feature.value, at) == Some(0);
    assert Others([r], r.visitor) == [];
  }

  lemma {:induction false} NoneStale(cfg: Settings, active: seq<Binding<nat, VisitorSession>>, now: real)
    requires Unique(active) && forall v: nat | Get(active, v).Some? :: !Stale(cfg, Get(active, v).value, now)
    ensures StaleVisitors(cfg, active, now) == []
  {
    var stale := StaleVisitors(cfg, active, now);
    if stale != [] {
      StaleVisitorsExactly(cfg, active, now, stale[0]);
    }
  }

  /** After a re-entry the visitor's session is the one its track leads to. */
  lemma {:induction false} ResumedIsFound(cfg: Settings, st: State, e: Signal, out: Signal)
    requires Inv(cfg, st) && cfg.timeout >= 0.0
    requires e.kind.Reentry? && e.visitor.Some? && e.track.Some? && out.at == e.at && out.track == e.track && out.person == e.track
    ensures var next := Process(cfg, st, e).0;
      && Cleanup(cfg, next, out.at) == next
      && Resolve(next, out).Some? && Resolve(next, out).value.visitor == e.visitor.value
  {
    hide Get, Set, Inv, Cleanup, GetSession, Unique;
    ProcessKeeps(cfg, st, e);
    CleanupExactly(cfg, st, e.at);
    var clean, next := Cleanup(cfg, st, e.at), Process(cfg, st, e).0;
    var s := Process(cfg, st, e).1.session;
    forall v: nat | Get(next.active, v).Some?
      ensures !Stale(cfg, Get(next.active, v).value, e.at)
    {
      GetSet(clean.active, e.visitor.value, s, v);
    }
    InvGood(cfg, next);
    NoneStale(cfg, next.active, e.at);
    assert Cleanup(cfg, next, out.at) == next by { CleanupOfNone(cfg, next, out.at); }
    GetSet(clean.active, e.visitor.value, s, e.visitor.value);
    GetSet(clean.tracks, e.track.value, e.visitor.value, e.track.value);
  }

  lemma {:induction false} CleanupOfNone(cfg: Settings, st: State, now: real)
    requires StaleVisitors(cfg, st.active, now) == []
    ensures Cleanup(cfg, st, now) == st
  {
  }

  lemma {:induction false} ExitRegisters(cfg: Setup, p: Stores, out: RawEvent, visitor: nat)
    requires cfg.reid.enabled && cfg.reid.maxEntries >= 1 && p.gallery == []
    requires out.signal.kind.Exit? && out.hasBox && out.feature.Some?
    requires Cleanup(cfg.sessions, p.state, out.signal.at) == p.state
    requires Resolve(p.state, out.signal).Some? && Resolve(p.state, out.signal).value.visitor == visitor
    ensures Step(cfg, p, out).gallery == [ExitRecord(visitor, out.signal.at, out.feature.value, out.signal.track)]
  {
    hide Cleanup, Resolve, Complete, SumDwell, CloseVisits;
    assert FreshSince([], out.signal.at - cfg.reid.timeout) == [];
    assert Prune(cfg.reid, [], out.signal.at) == [];
  }

  // ---------------------------------------------------------------------------
  // First events
  // ---------------------------------------------------------------------------

  lemma {:induction false} NobodyYet(cfg: Settings, e: Signal)
    ensures Cleanup(cfg, EMPTY, e.at) == EMPTY && Resolve(EMPTY, e).None?
  {
  }

  lemma {:induction false} NothingToMatch(cfg: ReidSettings, s: Scores, feature: Option<Feature>, now: real)
    ensures Prune(cfg, [], now) == [] && MatchFor(cfg, s, [], feature, now).None?
  {
  }

  /** An exit before anybody came in does nothing. */
  lemma {:induction false} FirstExit(cfg: Setup, raw: RawEvent)
    requires raw.signal.kind.Exit?
    ensures Step(cfg, NO_STORES, raw) == NO_STORES && Emitted(cfg, NO_STORES, raw) == raw.signal
  {
    NobodyYet(cfg.sessions, raw.signal);
    hide Cleanup, Resolve, Register, Prune, MatchFor;
  }

  /** The first entry matches nobody. */
  lemma {:induction false} FirstEntry(cfg: Setup, raw: RawEvent)
    requires raw.signal.kind.Entry?
    ensures Step(cfg, NO_STORES, raw) == Stores(Process(cfg.sessions, EMPTY, raw.signal).0, [])
    ensures Emitted(cfg, NO_STORES, raw) == raw.signal
  {
    NothingToMatch(cfg.reid, cfg.scores, raw.feature, raw.signal.at);
    hide Process, Register, Prune, MatchFor;
  }

  lemma {:induction false} ExitLogged(cfg: Setup, p: Stores, raw: RawEvent)
    requires raw.signal.kind.Exit?
    ensures Emitted(cfg, p, raw) == raw.signal
  {
    hide Prune, MatchFor;
  }
}
