/**
 The dwell a returning visitor brings along. A resumed session starts with the total of the earlier one, but every
 zone event and every completion sums over the session's own visits again, so what was brought along never counts.
 */
module SessionDwell {
  import opened Options
  import opened OrderedMaps
  import opened BoundedQueues
  import opened SessionModel
  import opened SessionTheorems

  function NoDwell(s: VisitorSession): VisitorSession {
    s.(totalDwell := 0.0)
  }

  /** The sessions in use, their totals forgotten. */
  function Forgotten(active: seq<Binding<nat, VisitorSession>>): seq<Binding<nat, VisitorSession>> {
    if active == [] then []
    else Forgotten(active[..|active| - 1]) + [Binding(active[|active| - 1].key, NoDwell(active[|active| - 1].value))]
  }

  function Forget(st: State): State {
    st.(active := Forgotten(st.active))
  }

  function NoDwellOf(found: Option<VisitorSession>): Option<VisitorSession> {
    if found.Some? then Some(NoDwell(found.value)) else None
  }

  lemma {:induction false} ForgottenAppend(m: seq<Binding<nat, VisitorSession>>, b: Binding<nat, VisitorSession>)
    ensures Forgotten(m + [b]) == Forgotten(m) + [Binding(b.key, NoDwell(b.value))]
  {
    assert (m + [b])[..|m|] == m;
  }

  lemma {:induction false} GetForgotten(m: seq<Binding<nat, VisitorSession>>, k: nat)
    ensures Get(Forgotten(m), k) == NoDwellOf(Get(m, k)) && |Forgotten(m)| == |m|
  {
    if m != [] {
      GetForgotten(m[..|m| - 1], k);
      var f := Forgotten(m);
      assert f[..|f| - 1] == Forgotten(m[..|m| - 1]);
    }
  }

  lemma {:induction false} ForgottenTwice(m: seq<Binding<nat, VisitorSession>>)
    ensures Forgotten(Forgotten(m)) == Forgotten(m)
  {
    if m != [] {
      var front, last := m[..|m| - 1], m[|m| - 1];
      ForgottenTwice(front);
      ForgottenAppend(Forgotten(front), Binding(last.key, NoDwell(last.value)));
    }
  }

  lemma {:induction false} RemoveForgotten(m: seq<Binding<nat, VisitorSession>>, k: nat)
    ensures Forgotten(Remove(m, k)) == Remove(Forgotten(m), k)
  {
    if m != [] {
      var front, last := m[..|m| - 1], m[|m| - 1];
      assert front + [last] == m;
      hide Remove, Forgotten;
      RemoveForgotten(front, k);
      ForgottenAppend(front, last);
      RemoveAppend(front, last, k);
      RemoveAppend(Forgotten(front), Binding(last.key, NoDwell(last.value)), k);
      ForgottenAppend(Remove(front, k), last);
    }
  }

  lemma {:induction false} ReplaceForgotten(m: seq<Binding<nat, VisitorSession>>, k: nat, s: VisitorSession,
                                            t: VisitorSession)
    requires NoDwell(s) == NoDwell(t)
    ensures Forgotten(Replace(m, k, s)) == Forgotten(Replace(Forgotten(m), k, t))
  {
    if m != [] {
      var front, last := m[..|m| - 1], m[|m| - 1];
      ReplaceForgotten(front, k, s, t);
      var f := Forgotten(m);
      assert f[..|f| - 1] == Forgotten(front);
      ForgottenAppend(Replace(front, k, s), if last.key == k then Binding(k, s) else last);
      ForgottenAppend(Replace(Forgotten(front), k, t), if last.key == k then Binding(k, t) else f[|f| - 1]);
    }
  }

  /** Setting sessions that differ in their totals only. */
  lemma {:induction false} SetForgotten(m: seq<Binding<nat, VisitorSession>>, k: nat, s: VisitorSession,
                                        t: VisitorSession)
    requires NoDwell(s) == NoDwell(t)
    ensures Forgotten(Set(m, k, s)) == Forgotten(Set(Forgotten(m), k, t))
  {
    hide Forgotten, Get, Replace;
    GetForgotten(m, k);
    ReplaceForgotten(m, k, s, t);
    ForgottenAppend(m, Binding(k, s));
    ForgottenAppend(Forgotten(m), Binding(k, t));
    ForgottenTwice(m);
  }

  lemma {:induction false} StaleForgotten(cfg: Settings, m: seq<Binding<nat, VisitorSession>>, now: real)
    ensures StaleVisitors(cfg, Forgotten(m), now) == StaleVisitors(cfg, m, now) && Keys(Forgotten(m)) == Keys(m)
  {
    if m != [] {
      StaleForgotten(cfg, m[..|m| - 1], now);
      var f := Forgotten(m);
      assert f[..|f| - 1] == Forgotten(m[..|m| - 1]);
    }
  }

  lemma {:induction false} OnlyActiveForgotten(tracks: seq<Binding<int, nat>>, m: seq<Binding<nat, VisitorSession>>,
                                               n: seq<Binding<nat, VisitorSession>>)
    requires Forgotten(m) == Forgotten(n)
    ensures OnlyActive(tracks, m) == OnlyActive(tracks, n)
  {
    if tracks != [] {
      OnlyActiveForgotten(tracks[..|tracks| - 1], m, n);
      GetForgotten(m, tracks[|tracks| - 1].value);
      GetForgotten(n, tracks[|tracks| - 1].value);
      hide Get, Forgotten;
    }
  }

  /** Completing sums over the visits, whatever the total was. */
  lemma {:induction false} CompleteForgets(cfg: Settings, st: State, v: nat, at: real, status: Status)
    ensures Complete(cfg, Forget(st), v, at, status) == Forget(Complete(cfg, st, v, at, status))
  {
    hide Get, Remove, Forgotten, CloseVisits, SumDwell, Push;
    GetForgotten(st.active, v);
    RemoveForgotten(st.active, v);
  }

  lemma {:induction false} CompleteAllForgets(cfg: Settings, st: State, vs: seq<nat>, at: real, status: Status)
    ensures CompleteAll(cfg, Forget(st), vs, at, status) == Forget(CompleteAll(cfg, st, vs, at, status))
  {
    hide Complete, Forgotten;
    if vs != [] {
      CompleteAllForgets(cfg, st, vs[..|vs| - 1], at, status);
      CompleteForgets(cfg, CompleteAll(cfg, st, vs[..|vs| - 1], at, status), vs[|vs| - 1], at, status);
    }
  }

  lemma {:induction false} ResolveForgets(st: State, e: Signal)
    ensures Resolve(Forget(st), e) == NoDwellOf(Resolve(st, e))
  {
    hide Get, Forgotten;
    if e.person.Some? && Get(st.tracks, e.person.value).Some? {
      GetForgotten(st.active, Get(st.tracks, e.person.value).value);
    }
    if e.track.Some? && Get(st.tracks, e.track.value).Some? {
      GetForgotten(st.active, Get(st.tracks, e.track.value).value);
    }
  }

  lemma {:induction false} HandleForgets(cfg: Settings, st: State, e: Signal)
    ensures Forget(Handle(cfg, Forget(st), e).0) == Forget(Handle(cfg, st, e).0)
  {
    hide Get, Set, Forgotten, Visiting, UpdateVisit, SumDwell, OnlyActive, Resolve, Complete, FindLatest, CloseVisits;
    ResolveForgets(st, e);
    ForgottenTwice(st.active);
    match e.kind
    case Entry =>
      var s := HandleEntry(cfg, st, e).1.session;
      SetForgotten(st.active, s.visitor, s, s);
      if e.track.Some? {
        OnlyActiveForgotten(Set(st.tracks, e.track.value, s.visitor), Set(st.active, s.visitor, s),
                            Set(Forgotten(st.active), s.visitor, s));
      }
    case Reentry =>
      if e.visitor.Some? {
        var v := e.visitor.value;
        GetForgotten(st.active, v);
        SetForgotten(st.active, v, Resume(st, v, e).1.session, Resume(Forget(st), v, e).1.session);
      }
    case Exit =>
      if Resolve(st, e).Some? {
        CompleteForgets(cfg, st, Resolve(st, e).value.visitor, e.at, Completed);
        ForgottenTwice(Complete(cfg, st, Resolve(st, e).value.visitor, e.at, Completed).active);
      }
    case ZoneEnter => TouchForgets(st, HandleZoneEnter(st, e).1, HandleZoneEnter(Forget(st), e).1);
    case ZoneExit => TouchForgets(st, HandleZoneExit(st, e).1, HandleZoneExit(Forget(st), e).1);
    case ZoneDwell => TouchForgets(st, HandleZoneDwell(st, e).1, HandleZoneDwell(Forget(st), e).1);
    case OtherKind =>
  }

  lemma {:induction false} TouchForgets(st: State, a: Outcome, b: Outcome)
    ensures a.Changed? && b.Changed? && NoDwell(a.session) == NoDwell(b.session) ==>
      Forgotten(Set(st.active, a.session.visitor, a.session)) == Forgotten(Set(Forgotten(st.active), b.session.visitor, b.session))
  {
    hide Forgotten, Set;
    if a.Changed? && b.Changed? && NoDwell(a.session) == NoDwell(b.session) {
      SetForgotten(st.active, a.session.visitor, a.session, b.session);
    }
  }

  lemma {:induction false} ProcessForgets(cfg: Settings, st: State, e: Signal)
    ensures Forget(Process(cfg, Forget(st), e).0) == Forget(Process(cfg, st, e).0)
  {
    hide Handle, CompleteAll, Forgotten;
    StaleForgotten(cfg, st.active, e.at);
    CompleteAllForgets(cfg, st, StaleVisitors(cfg, st.active, e.at), e.at, TimedOut);
    HandleForgets(cfg, Cleanup(cfg, st, e.at), e);
  }

  /** Runs from states that differ in the totals of sessions in use only keep differing in nothing else. */
  lemma {:induction false} RunsForget(cfg: Settings, a: State, b: State, events: seq<Signal>)
    requires Forget(a) == Forget(b)
    ensures Forget(ProcessFrom(cfg, a, events)) == Forget(ProcessFrom(cfg, b, events))
  {
    hide Process, Forget;
    if events != [] {
      var front, e := events[..|events| - 1], events[|events| - 1];
      RunsForget(cfg, a, b, front);
      ProcessForgets(cfg, ProcessFrom(cfg, a, front), e);
      ProcessForgets(cfg, ProcessFrom(cfg, b, front), e);
    }
  }

  lemma {:induction false} ClosingForgets(cfg: Settings, a: State, b: State, at: real, status: Status)
    requires Forget(a) == Forget(b)
    ensures CloseAllActive(cfg, a, at, status).finished == CloseAllActive(cfg, b, at, status).finished
  {
    hide CompleteAll, Forgotten, Keys;
    StaleForgotten(cfg, a.active, at);
    StaleForgotten(cfg, b.active, at);
    CompleteAllForgets(cfg, a, Keys(a.active), at, status);
    CompleteAllForgets(cfg, b, Keys(b.active), at, status);
  }

  /** The state after resuming a visitor as if nothing had been brought along. */
  function ResumedEmpty(st: State, visitor: nat, e: Signal): State {
    var (next, outcome) := Resume(st, visitor, e);
    if outcome.Changed? then Touch(next, NoDwell(outcome.session)) else next
  }

  lemma {:induction false} ResumedForgets(st: State, visitor: nat, e: Signal)
    ensures Forget(Resume(st, visitor, e).0) == Forget(ResumedEmpty(st, visitor, e))
  {
    hide Get, Set, Forgotten, GetSession;
    var (next, outcome) := Resume(st, visitor, e);
    var s := outcome.session;
    GetSet(st.active, visitor, s, visitor);
    SetTwice(st.active, visitor, s, NoDwell(s));
    SetForgotten(st.active, visitor, s, s);
    SetForgotten(st.active, visitor, NoDwell(s), s);
  }

  lemma {:induction false} SetTwice(m: seq<Binding<nat, VisitorSession>>, k: nat, s: VisitorSession,
                                    t: VisitorSession)
    ensures Set(Set(m, k, s), k, t) == Set(m, k, t)
  {
    GetSet(m, k, s, k);
    if Get(m, k).Some? {
      ReplaceTwice(m, k, s, t);
    } else {
      NothingReplaced(m, k, t);
      assert (m + [Binding(k, s)])[..|m|] == m;
    }
  }

  lemma {:induction false} ReplaceTwice(m: seq<Binding<nat, VisitorSession>>, k: nat, s: VisitorSession,
                                        t: VisitorSession)
    ensures Replace(Replace(m, k, s), k, t) == Replace(m, k, t)
  {
    if m != [] {
      ReplaceTwice(m[..|m| - 1], k, s, t);
      var r := Replace(m, k, s);
      assert r[..|r| - 1] == Replace(m[..|m| - 1], k, s);
    }
  }

  lemma {:induction false} NothingReplaced(m: seq<Binding<nat, VisitorSession>>, k: nat, t: VisitorSession)
    requires Get(m, k).None?
    ensures Replace(m, k, t) == m
  {
    if m != [] {
      NothingReplaced(m[..|m| - 1], k, t);
      assert m[..|m| - 1] + [m[|m| - 1]] == m;
    }
  }

  /**
   However a run goes on after a visitor is resumed, it ends with the very completions it would end with had nothing
   been brought along. So no completed total includes it: one equals what was brought along plus the dwell of its own
   visits only if nothing was.
   */
  lemma {:induction false} CarriedDwellIsLost(cfg: Settings, st: State, visitor: nat, e: Signal, events: seq<Signal>,
                                              at: real)
    requires Inv(cfg, st) && GetSession(st, visitor).Some?
    ensures var carried := GetSession(st, visitor).value.totalDwell;
      var done := CloseAllActive(cfg, ProcessFrom(cfg, Resume(st, visitor, e).0, events), at, Completed).finished;
      && Resume(st, visitor, e).1.session.totalDwell == carried
      && done == CloseAllActive(cfg, ProcessFrom(cfg, ResumedEmpty(st, visitor, e), events), at, Completed).finished
      && forall i | 0 <= i < |done| :: done[i].totalDwell == carried + SumDwell(done[i].visits) <==> carried == 0.0
  {
    var resumed, empty := Resume(st, visitor, e).0, ResumedEmpty(st, visitor, e);
    ResumeKeeps(cfg, st, visitor, e);
    hide Inv, Process, GetSession, Forget, CloseAllActive, Get, Set, ResumedEmpty;
    ResumedForgets(st, visitor, e);
    RunsForget(cfg, resumed, empty, events);
    ClosingForgets(cfg, ProcessFrom(cfg, resumed, events), ProcessFrom(cfg, empty, events), at, Completed);
    FromKeeps(cfg, resumed, events);
    ClosingBalances(cfg, ProcessFrom(cfg, resumed, events), at, Completed);
    FinishedAreSealed(cfg, CloseAllActive(cfg, ProcessFrom(cfg, resumed, events), at, Completed));
  }

  lemma {:induction false} FromKeeps(cfg: Settings, st: State, events: seq<Signal>)
    requires Inv(cfg, st)
    ensures Inv(cfg, ProcessFrom(cfg, st, events))
  {
    hide Inv, Process;
    if events != [] {
      FromKeeps(cfg, st, events[..|events| - 1]);
      ProcessKeeps(cfg, ProcessFrom(cfg, st, events[..|events| - 1]), events[|events| - 1]);
    }
  }

  lemma {:induction false} FinishedAreSealed(cfg: Settings, st: State)
    requires Inv(cfg, st)
    ensures forall i | 0 <= i < |st.finished| :: st.finished[i].totalDwell == SumDwell(st.finished[i].visits)
  {
    hide GoodActive, Numbered, Balanced, SumDwell;
    assert forall i | 0 <= i < |st.finished| :: Sealed(st.finished[i]);
  }
}
