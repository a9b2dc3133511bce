/** How many different people a run has seen, and when the reported number of unique visitors is that number. */
module VisitorCensus {
  import opened Options
  import opened OrderedMaps
  import opened BoundedQueues
  import opened SessionModel
  import opened SessionTheorems
  import opened SessionEngines
  import opened ReidGallery
  import opened VisitorPipeline

  function Visitors(sessions: seq<VisitorSession>): set<nat> {
    if sessions == [] then {} else Visitors(sessions[..|sessions| - 1]) + {sessions[|sessions| - 1].visitor}
  }

  /** The visitors drawn from the supply so far are those with an active or a completed session. */
  ghost predicate Accounted(st: State) {
    forall v: nat :: v < st.nextVisitor <==> Get(st.active, v).Some? || v in Visitors(st.finished)
  }

  /** Every visitor there is was admitted by an entry of its own. */
  ghost predicate Census(st: State) {
    Accounted(st) && st.nextVisitor == st.entries
  }

  lemma {:induction false} VisitorsAppend(sessions: seq<VisitorSession>, s: VisitorSession)
    ensures Visitors(sessions + [s]) == Visitors(sessions) + {s.visitor}
  {
    assert (sessions + [s])[..|sessions|] == sessions;
  }

  lemma {:induction false} CompleteCensus(cfg: Settings, st: State, v: nat, at: real, status: Status)
    requires Inv(cfg, st) && Census(st)
    ensures Census(Complete(cfg, st, v, at, status))
  {
    hide Get, Remove, Push, Visitors, Window, Numbered, Balanced, Unique, CloseVisits, SumDwell;
    if Get(st.active, v).Some? {
      var s := Closed(Get(st.active, v).value, at, status);
      GoodNotEnded(Get(st.active, v).value, v);
      VisitorsAppend(st.finished, s);
      forall w: nat
        ensures Get(Complete(cfg, st, v, at, status).active, w) == if w == v then None else Get(st.active, w)
      {
        CompleteActive(cfg, st, v, at, status, w);
      }
    }
  }

  lemma {:induction false} CompleteAllCensus(cfg: Settings, st: State, vs: seq<nat>, at: real, status: Status)
    requires Inv(cfg, st) && Census(st) && !status.Active?
    ensures Census(CompleteAll(cfg, st, vs, at, status))
  {
    hide Inv, Census, Complete;
    if vs != [] {
      var front := vs[..|vs| - 1];
      CompleteAllCensus(cfg, st, front, at, status);
      CompleteAllKeeps(cfg, st, front, at, status);
      CompleteCensus(cfg, CompleteAll(cfg, st, front, at, status), vs[|vs| - 1], at, status);
    }
  }

  /** A returning visitor is one of those admitted before. */
  predicate ReturnsKnown(st: State, e: Signal) {
    e.kind.Reentry? ==> e.visitor.Some? && e.visitor.value < st.nextVisitor
  }

  lemma {:induction false} HandleCensus(cfg: Settings, st: State, e: Signal)
    requires Inv(cfg, st) && Census(st) && ReturnsKnown(st, e)
    ensures Census(Handle(cfg, st, e).0)
  {
    hide Get, Set, Resolve, Visiting, UpdateVisit, SumDwell, TrimTracks, GetSession, Complete, Closed, Visitors, Inv;
    var (next, outcome) := Handle(cfg, st, e);
    InvGood(cfg, st);
    if e.kind.Exit? {
      if Resolve(st, e).Some? {
        CompleteCensus(cfg, st, Resolve(st, e).value.visitor, e.at, Completed);
      }
    } else if outcome.Changed? {
      if !e.kind.Entry? && !e.kind.Reentry? {
        ResolvedIsActive(st, e);
      }
      forall v: nat
        ensures Get(Set(st.active, outcome.session.visitor, outcome.session), v).Some? <==>
          v == outcome.session.visitor || Get(st.active, v).Some?
      {
        GetSet(st.active, outcome.session.visitor, outcome.session, v);
      }
    }
  }

  lemma {:induction false} ProcessCensus(cfg: Settings, st: State, e: Signal)
    requires Inv(cfg, st) && Census(st) && ReturnsKnown(st, e)
    ensures Census(Process(cfg, st, e).0)
  {
    hide Inv, Census, Handle, CompleteAll;
    CompleteAllCensus(cfg, st, StaleVisitors(cfg, st.active, e.at), e.at, TimedOut);
    CleanupExactly(cfg, st, e.at);
    HandleCensus(cfg, Cleanup(cfg, st, e.at), e);
  }

  /** A match is with a visitor who was admitted before. */
  lemma {:induction false} StepCensus(cfg: Setup, p: Stores, raw: RawEvent)
    requires JointInv(cfg, p) && Census(p.state) && !raw.signal.kind.Reentry?
    ensures Census(Step(cfg, p, raw).state)
  {
    hide Inv, Census, Process, MatchFor, Prune, RemoveVisitor, InGallery, OnePerVisitor, Register;
    ProcessCensus(cfg.sessions, p.state, raw.signal);
    if ChecksReentry(cfg, raw) {
      var at := raw.signal.at;
      var pruned := Prune(cfg.reid, p.gallery, at);
      var found := MatchFor(cfg.reid, cfg.scores, pruned, raw.feature, at);
      if found.Some? {
        var visitor := found.value.record.visitor;
        MatchIsInGallery(cfg.reid, cfg.scores, pruned, raw.feature, at);
        PruneKeeps(cfg.reid, p.gallery, at, visitor);
        ProcessCensus(cfg.sessions, p.state, ReentrySignal(raw.signal, visitor));
      }
    }
  }

  lemma {:induction false} RunCensus(cfg: Setup, events: seq<RawEvent>)
    requires FromEngines(events)
    ensures Census(RunAll(cfg, events).state)
  {
    hide JointInv, Step;
    if events != [] {
      var front := events[..|events| - 1];
      RunCensus(cfg, front);
      StoresStayApart(cfg, front);
      StepCensus(cfg, RunAll(cfg, front), events[|events| - 1]);
    }
  }

  function UpTo(n: nat): set<nat> {
    if n == 0 then {} else UpTo(n - 1) + {n - 1}
  }

  lemma {:induction false} UpToSize(n: nat)
    ensures |UpTo(n)| == n && forall v: nat :: v in UpTo(n) <==> v < n
  {
    if n > 0 {
      UpToSize(n - 1);
    }
  }

  /** The number reported at the end of a run. */
  function Report(st: State): nat {
    |st.completed| + |st.active|
  }

  /**
   Over a whole run there are exactly as many different visitors as entries that matched nobody. The number reported
   is that of the visitors exactly when nobody came back; beyond the bound of the queue, when the bound happens to be
   that number.
   */
  lemma {:induction false} ReportCountsVisitorsExactly(cfg: Setup, events: seq<RawEvent>, at: real)
    requires FromEngines(events)
    ensures var st := RunAll(cfg, events).state;
      var closed := CloseAllActive(cfg.sessions, st, at, Completed);
      && |Visitors(closed.finished)| == st.entries
      && (Report(closed) == |Visitors(closed.finished)| <==>
            if st.entries + st.reentries <= cfg.sessions.maxCompleted then st.reentries == 0
            else st.entries == cfg.sessions.maxCompleted)
  {
    var st := RunAll(cfg, events).state;
    var closed := CloseAllActive(cfg.sessions, st, at, Completed);
    UniqueVisitorsCountsSessions(cfg, events, at);
    RunCensus(cfg, events);
    StoresStayApart(cfg, events);
    hide RunAll, Visitors, Inv, Get, OnePerVisitor, Apart, CompleteAll;
    ClosingBalances(cfg.sessions, st, at, Completed);
    CompleteAllCensus(cfg.sessions, st, Keys(st.active), at, Completed);
    CompleteAllKeeps(cfg.sessions, st, Keys(st.active), at, Completed);
    NobodyActive();
    UpToSize(st.entries);
    hide UpTo;
    assert Visitors(closed.finished) == UpTo(st.entries);
  }

  lemma {:induction false} NobodyActive()
    ensures forall v: nat :: Get<nat, VisitorSession>([], v).None?
  {
  }

  /** Entries and re-entries are counted as they are logged. */
  lemma {:induction false} StepCounts(cfg: Setup, p: Stores, raw: RawEvent)
    requires JointInv(cfg, p) && !raw.signal.kind.Reentry?
    ensures var next, logged := Step(cfg, p, raw).state, Emitted(cfg, p, raw).kind;
      && next.entries == p.state.entries + (if logged.Entry? then 1 else 0)
      && next.reentries == p.state.reentries + (if logged.Reentry? then 1 else 0)
  {
    hide Inv, Process, MatchFor, Prune, RemoveVisitor, InGallery, OnePerVisitor, Register;
    ProcessCounts(cfg.sessions, p.state, raw.signal);
    ProcessCounts(cfg.sessions, p.state, Emitted(cfg, p, raw));
  }

  lemma {:induction false} ProcessCounts(cfg: Settings, st: State, e: Signal)
    requires Inv(cfg, st)
    ensures var next := Process(cfg, st, e).0;
      && next.entries == st.entries + (if e.kind.Entry? then 1 else 0)
      && next.reentries == st.reentries + (if e.kind.Reentry? && e.visitor.Some? then 1 else 0)
  {
    hide Inv, CompleteAll, Get, Set, Resolve, Visiting, UpdateVisit, SumDwell, TrimTracks, GetSession, Remove, Push, Closed;
    CleanupExactly(cfg, st, e.at);
  }
}
