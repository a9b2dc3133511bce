/**
 Batch ingestion by any number of concurrent clients against one event table, as a system of
 single steps: look up known ids, insert row by row, record the batch, commit or abort.
 */
module IngestModel {
  import opened Sequences
  import opened Sums

  datatype Event = Event(id: int, body: string)

  /** One element of a request: rejected by validation, or a valid event. */
  datatype Item = Malformed | Valid(event: Event)

  datatype Request = Request(batchId: int, items: seq<Item>)

  // ---------------------------------------------------------------------------
  // Splitting a batch
  // ---------------------------------------------------------------------------

  function ValidEvents(items: seq<Item>): seq<Event> {
    if items == [] then []
    else ValidEvents(items[..|items| - 1]) + (if items[|items| - 1].Valid? then [items[|items| - 1].event] else [])
  }

  function Rejected(items: seq<Item>): nat {
    if items == [] then 0
    else Rejected(items[..|items| - 1]) + (if items[|items| - 1].Malformed? then 1 else 0)
  }

  function Ids(events: seq<Event>): set<int> {
    if events == [] then {} else Ids(events[..|events| - 1]) + {events[|events| - 1].id}
  }

  /** No event id occurs twice. */
  predicate DistinctIds(events: seq<Event>) {
    events == []
    || (events[|events| - 1].id !in Ids(events[..|events| - 1]) && DistinctIds(events[..|events| - 1]))
  }

  /** The first occurrence of every id. */
  function FirstOccurrences(events: seq<Event>): seq<Event> {
    if events == [] then []
    else
      var front, last := events[..|events| - 1], events[|events| - 1];
      FirstOccurrences(front) + (if last.id in Ids(front) then [] else [last])
  }

  /** The events whose ids are not known yet. */
  function Unknown(events: seq<Event>, known: set<int>): seq<Event> {
    if events == [] then []
    else Unknown(events[..|events| - 1], known)
         + (if events[|events| - 1].id in known then [] else [events[|events| - 1]])
  }

  lemma {:induction false} IdsAppend(events: seq<Event>, e: Event)
    ensures Ids(events + [e]) == Ids(events) + {e.id}
    ensures DistinctIds(events + [e]) <==> e.id !in Ids(events) && DistinctIds(events)
  {
    assert (events + [e])[..|events|] == events;
  }

  lemma {:induction false} IdsConcat(a: seq<Event>, b: seq<Event>)
    ensures Ids(a + b) == Ids(a) + Ids(b)
    ensures DistinctIds(a + b) <==> DistinctIds(a) && DistinctIds(b) && Ids(a) !! Ids(b)
  {
    if b == [] {
      assert a + b == a;
    } else {
      IdsConcat(a, b[..|b| - 1]);
      IdsAppend(a + b[..|b| - 1], b[|b| - 1]);
      assert a + b == a + b[..|b| - 1] + [b[|b| - 1]];
    }
  }

  lemma {:induction false} IdsMean(events: seq<Event>, id: int)
    ensures id in Ids(events) <==> exists e :: e in events && e.id == id
  {
    if events != [] {
      IdsMean(events[..|events| - 1], id);
      assert events == events[..|events| - 1] + [events[|events| - 1]];
    }
  }

  lemma {:induction false} FirstOccurrencesMean(events: seq<Event>)
    ensures DistinctIds(FirstOccurrences(events)) && Ids(FirstOccurrences(events)) == Ids(events)
    ensures |FirstOccurrences(events)| <= |events|
  {
    if events != [] {
      var front, last := events[..|events| - 1], events[|events| - 1];
      var kept := FirstOccurrences(front);
      FirstOccurrencesMean(front);
      IdsAppend(kept, last);
      assert FirstOccurrences(events) == if last.id in Ids(front) then kept else kept + [last];
    }
  }

  /** The places at which an id occurs for the first time. */
  ghost function FirstsAt(events: seq<Event>): set<nat> {
    set i: nat | i < |events| && events[i].id !in Ids(events[..i])
  }

  /** Of several events with one id, the first is kept, and the order is that of the batch. */
  lemma {:induction false} FirstOccurrencesExactly(events: seq<Event>)
    ensures FirstOccurrences(events) == ItemsAt(events, FirstsAt(events))
  {
    if events != [] {
      var front := events[..|events| - 1];
      FirstOccurrencesExactly(front);
      forall i: nat | i < |front|
        ensures i in FirstsAt(front) <==> i in FirstsAt(events)
      {
        assert front[..i] == events[..i];
      }
      SameItemsAt(front, FirstsAt(front), FirstsAt(events));
      hide Ids, ItemsAt;
      FirstsStep(events);
    }
  }

  lemma {:induction false} FirstsStep(events: seq<Event>)
    requires events != []
    ensures var front, last := events[..|events| - 1], events[|events| - 1];
      && ItemsAt(events, FirstsAt(events))
        == ItemsAt(front, FirstsAt(events)) + (if last.id in Ids(front) then [] else [last])
      && FirstOccurrences(events) == FirstOccurrences(front) + (if last.id in Ids(front) then [] else [last])
  {
    hide Ids;
  }

  lemma {:induction false} FirstOccurrencesFrom(events: seq<Event>, e: Event)
    requires e in FirstOccurrences(events)
    ensures e in events
  {
    var front, last := events[..|events| - 1], events[|events| - 1];
    if e in FirstOccurrences(front) {
      FirstOccurrencesFrom(front, e);
    }
  }

  lemma {:induction false} UnknownMeans(events: seq<Event>, known: set<int>)
    requires DistinctIds(events)
    ensures DistinctIds(Unknown(events, known)) && Ids(Unknown(events, known)) == Ids(events) - known
    ensures |Unknown(events, known)| <= |events|
  {
    if events != [] {
      var front, last := events[..|events| - 1], events[|events| - 1];
      var kept := Unknown(front, known);
      UnknownStep(events, known);
      hide *;
      IdsAppend(front, last);
      UnknownMeans(front, known);
      IdsAppend(kept, last);
      WithoutKnown(Ids(front), last.id, known);
    }
  }

  /** Exactly the events whose ids are not known are left, in their order. */
  lemma {:induction false} UnknownExactly(events: seq<Event>, known: set<int>, places: set<nat>)
    requires forall i: nat | i < |events| :: i in places <==> events[i].id !in known
    ensures Unknown(events, known) == ItemsAt(events, places)
  {
    if events != [] {
      UnknownExactly(events[..|events| - 1], known, places);
    }
  }

  lemma {:induction false} UnknownStep(events: seq<Event>, known: set<int>)
    requires events != []
    ensures var front, last := events[..|events| - 1], events[|events| - 1];
      && events == front + [last]
      && Unknown(events, known) == if last.id in known then Unknown(front, known) else Unknown(front, known) + [last]
  {
  }

  lemma {:induction false} WithoutKnown(ids: set<int>, id: int, known: set<int>)
    ensures (ids + {id}) - known == if id in known then ids - known else (ids - known) + {id}
  {
  }

  lemma {:induction false} UnknownFrom(events: seq<Event>, known: set<int>, e: Event)
    requires e in Unknown(events, known)
    ensures e in events
  {
    var front, last := events[..|events| - 1], events[|events| - 1];
    if e in Unknown(front, known) {
      UnknownFrom(front, known, e);
    }
  }

  lemma {:induction false} EveryItemCounted(items: seq<Item>)
    ensures |ValidEvents(items)| + Rejected(items) == |items|
  {
    if items != [] {
      EveryItemCounted(items[..|items| - 1]);
    }
  }

  // ---------------------------------------------------------------------------
  // The step system
  // ---------------------------------------------------------------------------

  datatype Counts = Counts(accepted: nat, duplicates: nat, rejected: nat)

  /** How far a client has come; `pending` holds its uncommitted rows. */
  datatype Phase =
    | Received
    | Inserting(toInsert: seq<Event>, duplicates: nat, done: nat, pending: seq<Event>)
    | Recorded(pending: seq<Event>, duplicates: nat)
    | Responded(counts: Counts)
    | Failed

  datatype Client = Client(request: Request, phase: Phase)

  datatype System = System(rows: seq<Event>, batches: map<int, Counts>, clients: map<int, Client>)

  const START := System([], map[], map[])

  datatype Step =
    | Arrive(c: int, request: Request)
    | Lookup(c: int)
    | InsertRow(c: int)
    | Record(c: int)
    | Commit(c: int)
    | Abort(c: int)

  function Pending(p: Phase): seq<Event> {
    if p.Inserting? || p.Recorded? then p.pending else []
  }

  function Batch(r: Request): seq<Event> {
    FirstOccurrences(ValidEvents(r.items))
  }

  /** The copies dropped from the batch and the events found stored, as counted before the insert. */
  function KnownDuplicates(valid: seq<Event>, unique: seq<Event>, toInsert: seq<Event>): nat
    requires |toInsert| <= |unique| <= |valid|
  {
    (|valid| - |unique|) + (|unique| - |toInsert|)
  }

  ghost function AfterLookup(r: Request, rows: seq<Event>): Phase {
    var valid := ValidEvents(r.items);
    var toInsert := Unknown(Batch(r), Ids(rows));
    FirstOccurrencesMean(valid);
    UnknownMeans(Batch(r), Ids(rows));
    Inserting(toInsert, KnownDuplicates(valid, Batch(r), toInsert), 0, [])
  }

  /** Rows the insert skipped because of a conflict are counted as duplicates too. */
  function AfterRecord(p: Phase): Phase
    requires p.Inserting?
  {
    var conflicts := if |p.pending| < |p.toInsert| then |p.toInsert| - |p.pending| else 0;
    Recorded(p.pending, p.duplicates + conflicts)
  }

  /** Another transaction holds an uncommitted row with this id. */
  ghost predicate Held(s: System, c: int, id: int) {
    exists d | d in s.clients && d != c :: id in Ids(Pending(s.clients[d].phase))
  }

  ghost predicate Enabled(s: System, step: Step) {
    match step
    case Arrive(c, r) => c !in s.clients
    case Lookup(c) => c in s.clients && s.clients[c].phase.Received?
    case InsertRow(c) =>
      c in s.clients && s.clients[c].phase.Inserting?
      && s.clients[c].phase.done < |s.clients[c].phase.toInsert|
      && !Held(s, c, s.clients[c].phase.toInsert[s.clients[c].phase.done].id)
    case Record(c) =>
      c in s.clients && s.clients[c].phase.Inserting?
      && s.clients[c].phase.done == |s.clients[c].phase.toInsert|
      && s.clients[c].request.batchId !in s.batches
      && forall d | d in s.clients && d != c && s.clients[d].phase.Recorded? ::
        s.clients[d].request.batchId != s.clients[c].request.batchId
    case Commit(c) => c in s.clients && s.clients[c].phase.Recorded?
    case Abort(c) => c in s.clients && !s.clients[c].phase.Responded? && !s.clients[c].phase.Failed?
  }

  function At(s: System, c: int, p: Phase): map<int, Client>
    requires c in s.clients
  {
    s.clients[c := s.clients[c].(phase := p)]
  }

  ghost function Next(s: System, step: Step): System
    requires Enabled(s, step)
  {
    match step
    case Arrive(c, r) => s.(clients := s.clients[c := Client(r, Received)])
    case Lookup(c) =>
      s.(clients := At(s, c, AfterLookup(s.clients[c].request, s.rows)))
    case InsertRow(c) =>
      // A conflicting row that is already stored makes the insert do nothing.
      var p := s.clients[c].phase;
      var e := p.toInsert[p.done];
      var inserted := if e.id in Ids(s.rows) then [] else [e];
      s.(clients := At(s, c, Inserting(p.toInsert, p.duplicates, p.done + 1, p.pending + inserted)))
    case Record(c) => s.(clients := At(s, c, AfterRecord(s.clients[c].phase)))
    case Commit(c) =>
      var r, p := s.clients[c].request, s.clients[c].phase;
      var counts := Counts(|p.pending|, p.duplicates, Rejected(r.items));
      System(s.rows + p.pending, s.batches[r.batchId := counts], At(s, c, Responded(counts)))
    case Abort(c) => s.(clients := At(s, c, Failed))
  }

  /** `states` is a run of the system under `steps`. */
  ghost predicate IsRun(states: seq<System>, steps: seq<Step>) {
    && |states| == |steps| + 1 && states[0] == START
    && forall i | 0 <= i < |steps| :: Enabled(states[i], steps[i]) && states[i + 1] == Next(states[i], steps[i])
  }

  // ---------------------------------------------------------------------------
  // The invariant
  // ---------------------------------------------------------------------------

  /** What is known of a single client, given the stored ids. */
  ghost predicate ClientFine(stored: set<int>, cl: Client) {
    var valid := ValidEvents(cl.request.items);
    match cl.phase
    case Received => true
    case Inserting(toInsert, duplicates, done, pending) =>
      && done <= |toInsert| && |pending| <= done && duplicates + |toInsert| == |valid|
      && DistinctIds(toInsert) && DistinctIds(pending)
      && Ids(pending) <= Ids(toInsert[..done])
      && Ids(pending) !! stored
      && Ids(toInsert[..done]) <= Ids(pending) + stored
      && Ids(valid) <= Ids(toInsert) + stored
    case Recorded(pending, duplicates) =>
      && duplicates + |pending| == |valid|
      && DistinctIds(pending) && Ids(pending) !! stored
      && Ids(valid) <= Ids(pending) + stored
    case Responded(counts) =>
      && counts.accepted + counts.duplicates + counts.rejected == |cl.request.items|
      && Ids(valid) <= stored
    case Failed => true
  }

  /** Whatever a client is about to store comes from its own request. */
  ghost predicate OwnRows(cl: Client) {
    && (cl.phase.Inserting? ==> forall e | e in cl.phase.toInsert :: e in ValidEvents(cl.request.items))
    && (forall e | e in Pending(cl.phase) :: e in ValidEvents(cl.request.items))
  }

  ghost function Accepted(batches: map<int, Counts>): map<int, nat> {
    map b | b in batches :: batches[b].accepted
  }

  ghost predicate NoSharedPending(clients: map<int, Client>) {
    forall c, d | c in clients && d in clients && c != d ::
      Ids(Pending(clients[c].phase)) !! Ids(Pending(clients[d].phase))
  }

  ghost predicate NoSharedBatch(s: System) {
    && (forall c | c in s.clients && s.clients[c].phase.Recorded? :: s.clients[c].request.batchId !in s.batches)
    && (forall c, d | c in s.clients && d in s.clients && c != d
          && s.clients[c].phase.Recorded? && s.clients[d].phase.Recorded? ::
          s.clients[c].request.batchId != s.clients[d].request.batchId)
  }

  /** Every stored row is a valid event of some client's request. */
  ghost predicate RowsRequested(s: System) {
    && (forall c | c in s.clients :: OwnRows(s.clients[c]))
    && forall e | e in s.rows :: exists c :: c in s.clients && e in ValidEvents(s.clients[c].request.items)
  }

  ghost predicate Inv(s: System) {
    && DistinctIds(s.rows)
    && (forall c | c in s.clients :: ClientFine(Ids(s.rows), s.clients[c]))
    && NoSharedPending(s.clients)
    && NoSharedBatch(s)
    && Total(Accepted(s.batches)) == |s.rows|
    && RowsRequested(s)
  }
}
