/** Exactly-once storage under every interleaving of ingest requests. */
module IngestTheorems {
  import opened IngestModel
  import opened Sums

  // ---------------------------------------------------------------------------
  // What a step of one client does to that client
  // ---------------------------------------------------------------------------

  lemma {:induction false} LookupFine(rows: seq<Event>, r: Request)
    ensures ClientFine(Ids(rows), Client(r, AfterLookup(r, rows)))
  {
    var valid := ValidEvents(r.items);
    FirstOccurrencesMean(valid);
    UnknownMeans(Batch(r), Ids(rows));
  }

  lemma {:induction false} LookupOwn(rows: seq<Event>, r: Request)
    ensures OwnRows(Client(r, AfterLookup(r, rows)))
  {
    forall e | e in Unknown(Batch(r), Ids(rows))
      ensures e in ValidEvents(r.items)
    {
      UnknownFrom(Batch(r), Ids(rows), e);
      FirstOccurrencesFrom(ValidEvents(r.items), e);
    }
  }

  lemma {:induction false} InsertFine(stored: set<int>, cl: Client)
    requires ClientFine(stored, cl) && cl.phase.Inserting? && cl.phase.done < |cl.phase.toInsert|
    ensures var p := cl.phase; var e := p.toInsert[p.done];
      ClientFine(stored, cl.(phase :=
        Inserting(p.toInsert, p.duplicates, p.done + 1, p.pending + (if e.id in stored then [] else [e]))))
  {
    var p := cl.phase;
    var e := p.toInsert[p.done];
    hide Ids, DistinctIds, ValidEvents;
    OneMoreSeen(p.toInsert, p.done);
    IdsAppend(p.pending, e);
    assert p.pending + [] == p.pending;
    InsertSets(stored, Ids(p.toInsert[..p.done]), Ids(p.pending), e.id);
  }

  lemma {:induction false} OneMoreSeen(events: seq<Event>, done: nat)
    requires DistinctIds(events) && done < |events|
    ensures Ids(events[..done + 1]) == Ids(events[..done]) + {events[done].id} && events[done].id !in Ids(events[..done])
  {
    hide Ids, DistinctIds;
    assert events[..done + 1] == events[..done] + [events[done]];
    IdsAppend(events[..done], events[done]);
    IdsConcat(events[..done + 1], events[done + 1..]);
    assert events[..done + 1] + events[done + 1..] == events;
  }

  /** The ids looked at and the ids pending, with one more. */
  lemma {:induction false} InsertSets(stored: set<int>, seen: set<int>, pending: set<int>, id: int)
    requires pending <= seen && pending !! stored && seen <= pending + stored && id !in seen
    ensures var more := if id in stored then pending else pending + {id};
      && more <= seen + {id} && more !! stored && seen + {id} <= more + stored && id !in pending
  {
  }

  lemma {:induction false} RecordFine(stored: set<int>, cl: Client)
    requires ClientFine(stored, cl) && cl.phase.Inserting? && cl.phase.done == |cl.phase.toInsert|
    ensures ClientFine(stored, cl.(phase := AfterRecord(cl.phase)))
  {
    assert cl.phase.toInsert[..cl.phase.done] == cl.phase.toInsert;
  }

  lemma {:induction false} CommitFine(stored: set<int>, cl: Client)
    requires ClientFine(stored, cl) && cl.phase.Recorded?
    ensures ClientFine(stored + Ids(cl.phase.pending),
      cl.(phase := Responded(Counts(|cl.phase.pending|, cl.phase.duplicates, Rejected(cl.request.items)))))
  {
    EveryItemCounted(cl.request.items);
  }

  /** Rows stored by others leave a client fine as long as they are not ones it has pending. */
  lemma {:induction false} OthersStore(stored: set<int>, more: set<int>, cl: Client)
    requires ClientFine(stored, cl) && Ids(Pending(cl.phase)) !! more
    ensures ClientFine(stored + more, cl)
  {
  }

  // ---------------------------------------------------------------------------
  // What a step keeps
  // ---------------------------------------------------------------------------

  /** A client that changes phase without storing rows. */
  lemma {:induction false} PhaseChange(s: System, c: int, cl: Client)
    requires Inv(s)
    requires c in s.clients ==> cl.request == s.clients[c].request
    requires ClientFine(Ids(s.rows), cl) && OwnRows(cl)
    requires forall d | d in s.clients && d != c :: Ids(Pending(cl.phase)) !! Ids(Pending(s.clients[d].phase))
    requires cl.phase.Recorded? ==> cl.request.batchId !in s.batches
    requires cl.phase.Recorded? ==> forall d | d in s.clients && d != c && s.clients[d].phase.Recorded? ::
      s.clients[d].request.batchId != cl.request.batchId
    ensures Inv(s.(clients := s.clients[c := cl]))
  {
    hide ClientFine, OwnRows, Ids, Total, ValidEvents, DistinctIds;
    var t := s.(clients := s.clients[c := cl]);
    forall e | e in t.rows
      ensures exists d :: d in t.clients && e in ValidEvents(t.clients[d].request.items)
    {
      var d :| d in s.clients && e in ValidEvents(s.clients[d].request.items);
      assert d in t.clients && e in ValidEvents(t.clients[d].request.items);
    }
  }

  lemma {:induction false} CommitKeeps(s: System, c: int)
    requires Inv(s) && Enabled(s, Commit(c))
    ensures Inv(Next(s, Commit(c)))
  {
    hide ClientFine, OwnRows, Ids, Total, ValidEvents, DistinctIds, RowsRequested;
    CommitClients(s, c);
    CommitTotals(s, c);
    CommitRows(s, c);
    CommitDistinct(s, c);
    CommitShares(s, c);
    hide NoSharedPending, NoSharedBatch, Next;
  }

  lemma {:induction false} CommitDistinct(s: System, c: int)
    requires Inv(s) && Enabled(s, Commit(c))
    ensures DistinctIds(Next(s, Commit(c)).rows)
  {
    IdsConcat(s.rows, s.clients[c].phase.pending);
    hide OwnRows, Ids, Total, ValidEvents, DistinctIds, RowsRequested;
    assert ClientFine(Ids(s.rows), s.clients[c]);
  }

  lemma {:induction false} CommitShares(s: System, c: int)
    requires Inv(s) && Enabled(s, Commit(c))
    ensures var t := Next(s, Commit(c)); NoSharedPending(t.clients) && NoSharedBatch(t)
  {
    hide ClientFine, OwnRows, Total, ValidEvents, DistinctIds, RowsRequested;
  }

  lemma {:induction false} CommitClients(s: System, c: int)
    requires Inv(s) && Enabled(s, Commit(c))
    ensures var t := Next(s, Commit(c)); forall d | d in t.clients :: ClientFine(Ids(t.rows), t.clients[d])
  {
    hide ClientFine, OwnRows, Ids, Total, ValidEvents, DistinctIds, RowsRequested;
    var t := Next(s, Commit(c));
    var pending := s.clients[c].phase.pending;
    IdsConcat(s.rows, pending);
    forall d | d in t.clients
      ensures ClientFine(Ids(t.rows), t.clients[d])
    {
      if d == c {
        CommitFine(Ids(s.rows), s.clients[c]);
      } else {
        assert Ids(Pending(s.clients[d].phase)) !! Ids(Pending(s.clients[c].phase));
        OthersStore(Ids(s.rows), Ids(pending), s.clients[d]);
      }
    }
  }

  lemma {:induction false} CommitTotals(s: System, c: int)
    requires Inv(s) && Enabled(s, Commit(c))
    ensures Total(Accepted(Next(s, Commit(c)).batches)) == |Next(s, Commit(c)).rows|
  {
    var t := Next(s, Commit(c));
    var b := s.clients[c].request.batchId;
    TotalUpdate(Accepted(s.batches), b, t.batches[b].accepted);
    assert Accepted(t.batches) == Accepted(s.batches)[b := t.batches[b].accepted];
  }

  lemma {:induction false} CommitRows(s: System, c: int)
    requires Inv(s) && Enabled(s, Commit(c))
    ensures RowsRequested(Next(s, Commit(c)))
  {
    var t := Next(s, Commit(c));
    forall e | e in t.rows
      ensures exists d :: d in t.clients && e in ValidEvents(t.clients[d].request.items)
    {
      if e in s.rows {
        var d :| d in s.clients && e in ValidEvents(s.clients[d].request.items);
        assert d in t.clients && e in ValidEvents(t.clients[d].request.items);
      } else {
        assert e in Pending(s.clients[c].phase) && OwnRows(s.clients[c]);
        assert c in t.clients && e in ValidEvents(t.clients[c].request.items);
      }
    }
  }

  lemma {:induction false} InsertKeeps(s: System, c: int)
    requires Inv(s) && Enabled(s, InsertRow(c))
    ensures Inv(Next(s, InsertRow(c)))
  {
    hide ClientFine, OwnRows, Ids, Total, ValidEvents, DistinctIds;
    var cl, now := s.clients[c], Next(s, InsertRow(c)).clients[c];
    InsertFine(Ids(s.rows), cl);
    InsertOwn(s, c);
    forall d | d in s.clients && d != c
      ensures Ids(Pending(now.phase)) !! Ids(Pending(s.clients[d].phase))
    {
      InsertUnshared(s, c, d);
    }
    PhaseChange(s, c, now);
  }

  lemma {:induction false} InsertOwn(s: System, c: int)
    requires Inv(s) && Enabled(s, InsertRow(c))
    ensures OwnRows(Next(s, InsertRow(c)).clients[c])
  {
    hide ClientFine, Ids, Total, ValidEvents, DistinctIds;
    assert OwnRows(s.clients[c]);
    var p := s.clients[c].phase;
    assert p.toInsert[p.done] in p.toInsert;
  }

  lemma {:induction false} InsertUnshared(s: System, c: int, d: int)
    requires Inv(s) && Enabled(s, InsertRow(c)) && d in s.clients && d != c
    ensures Ids(Pending(Next(s, InsertRow(c)).clients[c].phase)) !! Ids(Pending(s.clients[d].phase))
  {
    hide ClientFine, OwnRows, Total, ValidEvents, DistinctIds;
    var p := s.clients[c].phase;
    var e := p.toInsert[p.done];
    IdsAppend(p.pending, e);
    assert p.pending + [] == p.pending;
    assert Ids(Pending(p)) !! Ids(Pending(s.clients[d].phase));
    assert e.id !in Ids(Pending(s.clients[d].phase));
  }

  lemma {:induction false} StepKeeps(s: System, step: Step)
    requires Inv(s) && Enabled(s, step)
    ensures Inv(Next(s, step))
  {
    match step {
      case Arrive(c, r) => PhaseChange(s, c, Client(r, Received));
      case Lookup(c) =>
        var r := s.clients[c].request;
        LookupFine(s.rows, r);
        LookupOwn(s.rows, r);
        PhaseChange(s, c, Client(r, AfterLookup(r, s.rows)));
      case InsertRow(c) => InsertKeeps(s, c);
      case Record(c) =>
        var cl := s.clients[c];
        RecordFine(Ids(s.rows), cl);
        PhaseChange(s, c, cl.(phase := AfterRecord(cl.phase)));
      case Commit(c) => CommitKeeps(s, c);
      case Abort(c) => PhaseChange(s, c, s.clients[c].(phase := Failed));
    }
  }

  lemma {:induction false} RunKeeps(states: seq<System>, steps: seq<Step>, i: nat)
    requires IsRun(states, steps) && i < |states|
    ensures Inv(states[i])
  {
    if i > 0 {
      RunKeeps(states, steps, i - 1);
      StepKeeps(states[i - 1], steps[i - 1]);
    } else {
      assert Accepted(START.batches) == map[];
    }
  }

  // ---------------------------------------------------------------------------
  // Main results
  // ---------------------------------------------------------------------------

  /** In every reachable state an id is stored at most once, and the recorded acceptances add up to the rows. */
  lemma {:induction false} ExactlyOnce(states: seq<System>, steps: seq<Step>, i: nat)
    requires IsRun(states, steps) && i < |states|
    ensures DistinctIds(states[i].rows)
    ensures Total(Accepted(states[i].batches)) == |states[i].rows|
    ensures RowsRequested(states[i])
  {
    RunKeeps(states, steps, i);
  }

  /** A successful response accounts for every element of its batch, and its events are stored. */
  lemma {:induction false} ResponsesAccount(states: seq<System>, steps: seq<Step>, i: nat, c: int)
    requires IsRun(states, steps) && i < |states|
    requires c in states[i].clients && states[i].clients[c].phase.Responded?
    ensures var cl := states[i].clients[c];
      && cl.phase.counts.accepted + cl.phase.counts.duplicates + cl.phase.counts.rejected == |cl.request.items|
      && forall e | e in ValidEvents(cl.request.items) :: e.id in Ids(states[i].rows)
  {
    RunKeeps(states, steps, i);
    var cl := states[i].clients[c];
    forall e | e in ValidEvents(cl.request.items)
      ensures e.id in Ids(states[i].rows)
    {
      IdsMean(ValidEvents(cl.request.items), e.id);
    }
  }

  /** Only a commit touches the tables, and it only adds rows: an abort changes nothing. */
  lemma {:induction false} StepAppends(s: System, step: Step)
    requires Enabled(s, step)
    ensures s.rows <= Next(s, step).rows
    ensures !step.Commit? ==> Next(s, step).rows == s.rows && Next(s, step).batches == s.batches
  {
  }

  lemma {:induction false} RowsGrow(states: seq<System>, steps: seq<Step>, i: nat, j: nat)
    requires IsRun(states, steps) && i <= j < |states|
    ensures states[i].rows <= states[j].rows
  {
    if i < j {
      RowsGrow(states, steps, i, j - 1);
      StepAppends(states[j - 1], steps[j - 1]);
    }
  }

  /** A client with nothing left to insert: whatever happens, it can only report zero accepted. */
  ghost predicate NothingNew(cl: Client) {
    match cl.phase
    case Received => false
    case Inserting(toInsert, duplicates, done, pending) =>
      toInsert == [] && pending == [] && duplicates == |ValidEvents(cl.request.items)|
    case Recorded(pending, duplicates) => pending == [] && duplicates == |ValidEvents(cl.request.items)|
    case Responded(counts) => counts == Counts(0, |ValidEvents(cl.request.items)|, Rejected(cl.request.items))
    case Failed => true
  }

  lemma {:induction false} NothingNewStays(states: seq<System>, steps: seq<Step>, i: nat, j: nat, c: int)
    requires IsRun(states, steps) && i <= j < |states|
    requires c in states[i].clients && NothingNew(states[i].clients[c])
    ensures c in states[j].clients && NothingNew(states[j].clients[c])
    ensures states[j].clients[c].request == states[i].clients[c].request
  {
    if i < j {
      NothingNewStays(states, steps, i, j - 1, c);
      assert Enabled(states[j - 1], steps[j - 1]) && states[j] == Next(states[j - 1], steps[j - 1]);
    }
  }

  /** A full replay accepts nothing: every valid event of the batch counts as a duplicate. */
  lemma {:induction false} ReplayAcceptsNothing(states: seq<System>, steps: seq<Step>, i: nat, j: nat, c: int)
    requires IsRun(states, steps) && i < j < |states|
    requires steps[i] == Lookup(c)
    requires forall e | e in ValidEvents(states[i].clients[c].request.items) :: e.id in Ids(states[i].rows)
    ensures c in states[j].clients
    ensures states[j].clients[c].phase.Responded? ==>
      var items := states[i].clients[c].request.items;
      states[j].clients[c].phase.counts == Counts(0, |ValidEvents(items)|, Rejected(items))
  {
    var s, r := states[i], states[i].clients[c].request;
    assert Enabled(s, steps[i]) && states[i + 1] == Next(s, steps[i]);
    FirstOccurrencesMean(ValidEvents(r.items));
    forall id | id in Ids(ValidEvents(r.items))
      ensures id in Ids(s.rows)
    {
      IdsMean(ValidEvents(r.items), id);
    }
    NoneUnknown(Batch(r), Ids(s.rows));
    NothingNewStays(states, steps, i + 1, j, c);
  }

  lemma {:induction false} NoneUnknown(events: seq<Event>, known: set<int>)
    requires Ids(events) <= known
    ensures Unknown(events, known) == []
  {
    if events != [] {
      NoneUnknown(events[..|events| - 1], known);
    }
  }

  /** A request under a batch id that is already recorded can only fail. */
  ghost predicate Stuck(s: System, c: int) {
    c in s.clients && s.clients[c].request.batchId in s.batches
    && (s.clients[c].phase.Received? || s.clients[c].phase.Inserting? || s.clients[c].phase.Failed?)
  }

  lemma {:induction false} ReusedBatchIdNeverResponds(states: seq<System>, steps: seq<Step>, i: nat, j: nat, c: int)
    requires IsRun(states, steps) && i <= j < |states| && Stuck(states[i], c)
    ensures Stuck(states[j], c)
  {
    if i < j {
      ReusedBatchIdNeverResponds(states, steps, i, j - 1, c);
      assert Enabled(states[j - 1], steps[j - 1]) && states[j] == Next(states[j - 1], steps[j - 1]);
    }
  }

  // ---------------------------------------------------------------------------
  // Any client can fail at any time, and an undisturbed one can finish
  // ---------------------------------------------------------------------------

  /** Until it has answered, a request can be given up; nothing it did is stored then. */
  lemma {:induction false} GivingUpStoresNothing(s: System, c: int)
    requires c in s.clients && !s.clients[c].phase.Responded? && !s.clients[c].phase.Failed?
    ensures Enabled(s, Abort(c))
    ensures var t := Next(s, Abort(c));
      t.rows == s.rows && t.batches == s.batches && t.clients == s.clients[c := Client(s.clients[c].request, Failed)]
  {
  }

  /** The steps lead from `s` to `t`. */
  ghost predicate Leads(s: System, steps: seq<Step>, t: System)
    decreases steps
  {
    if steps == [] then s == t else Enabled(s, steps[0]) && Leads(Next(s, steps[0]), steps[1..], t)
  }

  /** No other client holds uncommitted rows, and the batch id is free. */
  ghost predicate Undisturbed(s: System, c: int) {
    && c in s.clients && s.clients[c].request.batchId !in s.batches
    && forall d | d in s.clients && d != c :: Pending(s.clients[d].phase) == [] && !s.clients[d].phase.Recorded?
  }

  /** How many steps a client still has to take. */
  ghost function Remaining(p: Phase): nat {
    match p
    case Received => 0
    case Inserting(toInsert, _, done, _) => if done <= |toInsert| then 2 + |toInsert| - done else 0
    case Recorded(_, _) => 1
    case _ => 0
  }

  lemma {:induction false} StepLeads(s: System, step: Step, steps: seq<Step>, t: System)
    requires Enabled(s, step) && Leads(Next(s, step), steps, t)
    ensures Leads(s, [step] + steps, t)
  {
    assert ([step] + steps)[1..] == steps;
  }

  /** A client that has looked up its ids and is not disturbed gets its answer. */
  lemma {:induction false} InsertingFinishes(s: System, c: int) returns (steps: seq<Step>, t: System)
    requires Undisturbed(s, c) && (s.clients[c].phase.Inserting? || s.clients[c].phase.Recorded?)
    requires s.clients[c].phase.Inserting? ==> s.clients[c].phase.done <= |s.clients[c].phase.toInsert|
    ensures Leads(s, steps, t) && c in t.clients && t.clients[c].phase.Responded?
    decreases Remaining(s.clients[c].phase)
  {
    var p := s.clients[c].phase;
    if p.Recorded? {
      t := Next(s, Commit(c));
      StepLeads(s, Commit(c), [], t);
      steps := [Commit(c)] + [];
    } else {
      var step := if p.done < |p.toInsert| then InsertRow(c) else Record(c);
      var rest;
      rest, t := InsertingFinishes(Next(s, step), c);
      StepLeads(s, step, rest, t);
      steps := [step] + rest;
    }
  }

  /** A request that has just come in and is not disturbed gets its answer. */
  lemma {:induction false} UndisturbedFinishes(s: System, c: int) returns (steps: seq<Step>, t: System)
    requires Undisturbed(s, c) && s.clients[c].phase.Received?
    ensures Leads(s, steps, t) && c in t.clients && t.clients[c].phase.Responded?
  {
    var rest;
    rest, t := InsertingFinishes(Next(s, Lookup(c)), c);
    StepLeads(s, Lookup(c), rest, t);
    steps := [Lookup(c)] + rest;
  }
}
