/** Which events an emitter takes, and where they end up. */
module EmitterModel {
  import opened Sequences
  import opened BoundedQueues

  /** An event by its id, its content and the day it occurred. */
  datatype Event = Event(id: string, day: int, body: string)

  /** Whether an event satisfies its schema is not interpreted. */
  datatype EmitSettings = EmitSettings(batchSize: nat, flushOnEveryEvent: bool, dedupInMemory: bool, maxDedupKeys: nat,
                                       validateOnEmit: bool, valid: Event -> bool)

  function Ids(events: seq<Event>): seq<string> {
    if events == [] then [] else Ids(events[..|events| - 1]) + [events[|events| - 1].id]
  }

  /** An event is taken if it is valid and its id is not among the newest ids taken. */
  predicate Takes(cfg: EmitSettings, taken: seq<Event>, e: Event) {
    && (cfg.validateOnEmit ==> cfg.valid(e))
    && (cfg.dedupInMemory ==> e.id !in Bounded(Ids(taken), cfg.maxDedupKeys))
  }

  /** The events taken out of a stream. */
  function Taken(cfg: EmitSettings, events: seq<Event>): seq<Event> {
    if events == [] then []
    else
      var taken := Taken(cfg, events[..|events| - 1]);
      var e := events[|events| - 1];
      if Takes(cfg, taken, e) then taken + [e] else taken
  }

  /** An event with the same id is among the last `max` taken. */
  ghost predicate TakenLately(taken: seq<Event>, max: nat, id: string) {
    exists i :: 0 <= i < |taken| && |taken| - i <= max && taken[i].id == id
  }

  /** The log of one day: the batches whose first event occurred that day. */
  function FileOf(batches: seq<seq<Event>>, day: int): seq<Event> {
    if batches == [] then []
    else
      var last := batches[|batches| - 1];
      FileOf(batches[..|batches| - 1], day) + (if last != [] && last[0].day == day then last else [])
  }

  // ---------------------------------------------------------------------------
  // Deduplication
  // ---------------------------------------------------------------------------

  lemma {:induction false} IdsAt(events: seq<Event>, i: nat)
    requires i < |events|
    ensures |Ids(events)| == |events| && Ids(events)[i] == events[i].id
  {
    if |events| == 1 {
    } else if i < |events| - 1 {
      IdsAt(events[..|events| - 1], i);
    } else {
      IdsAt(events[..|events| - 1], 0);
    }
  }

  /** An event is refused exactly if it is not valid, or an event with its id was taken lately. */
  lemma {:induction false} RefusedExactly(cfg: EmitSettings, taken: seq<Event>, e: Event)
    ensures !Takes(cfg, taken, e) <==>
      (cfg.validateOnEmit && !cfg.valid(e)) || (cfg.dedupInMemory && TakenLately(taken, cfg.maxDedupKeys, e.id))
  {
    hide Ids, Bounded, TakenLately;
    LatelyExactly(taken, cfg.maxDedupKeys, e.id);
  }

  lemma {:induction false} LatelyExactly(taken: seq<Event>, max: nat, id: string)
    ensures TakenLately(taken, max, id) <==> id in Bounded(Ids(taken), max)
  {
    hide Ids, Bounded;
    if TakenLately(taken, max, id) {
      var i :| 0 <= i < |taken| && |taken| - i <= max && taken[i].id == id;
      NewestIds(taken, i, max);
    }
    if id in Bounded(Ids(taken), max) {
      var i := NewestPlace(taken, max, id);
      assert taken[i].id == id;
    }
  }

  lemma {:induction false} NewestPlace(taken: seq<Event>, max: nat, id: string) returns (i: nat)
    requires id in Bounded(Ids(taken), max)
    ensures i < |taken| && |taken| - i <= max && taken[i].id == id
  {
    hide Ids;
    IdsLength(taken);
    var newest := Bounded(Ids(taken), max);
    var j :| 0 <= j < |newest| && newest[j] == id;
    i := |taken| - |newest| + j;
    IdsAt(taken, i);
  }

  /** Exactly the events not refused when they come are taken, in their order. */
  lemma {:induction false} TakenExactly(cfg: EmitSettings, events: seq<Event>, places: set<nat>)
    requires forall i: nat | i < |events| :: i in places <==> Takes(cfg, Taken(cfg, events[..i]), events[i])
    ensures Taken(cfg, events) == ItemsAt(events, places)
  {
    if events != [] {
      var front := events[..|events| - 1];
      assert forall i | 0 <= i < |front| :: front[..i] == events[..i];
      hide Takes;
      TakenExactly(cfg, front, places);
    }
  }

  /** Two events taken with the same id are further apart than the number of ids remembered. */
  ghost predicate RepeatsFarApart(cfg: EmitSettings, taken: seq<Event>) {
    forall i, j | 0 <= i < j < |taken| && taken[i].id == taken[j].id :: j - i > cfg.maxDedupKeys
  }

  lemma {:induction false} NewestIds(taken: seq<Event>, i: nat, max: nat)
    requires i < |taken| && |taken| - i <= max
    ensures taken[i].id in Bounded(Ids(taken), max)
  {
    IdsAt(taken, i);
    var ids := Ids(taken);
    if |ids| > max {
      assert Bounded(ids, max)[i - (|ids| - max)] == ids[i];
    }
  }

  lemma {:induction false} TakenRepeats(cfg: EmitSettings, events: seq<Event>)
    requires cfg.dedupInMemory
    ensures RepeatsFarApart(cfg, Taken(cfg, events))
  {
    if events != [] {
      TakenRepeats(cfg, events[..|events| - 1]);
      var taken, e := Taken(cfg, events[..|events| - 1]), events[|events| - 1];
      if Takes(cfg, taken, e) {
        forall i | 0 <= i < |taken| && taken[i].id == e.id
          ensures |taken| - i > cfg.maxDedupKeys
        {
          if |taken| - i <= cfg.maxDedupKeys {
            NewestIds(taken, i, cfg.maxDedupKeys);
          }
        }
      }
    }
  }

  predicate HasId(events: seq<Event>, id: string) {
    events != [] && (events[|events| - 1].id == id || HasId(events[..|events| - 1], id))
  }

  predicate AllIdsDiffer(events: seq<Event>) {
    events == [] || (!HasId(events[..|events| - 1], events[|events| - 1].id) && AllIdsDiffer(events[..|events| - 1]))
  }

  lemma {:induction false} HasIdExactly(events: seq<Event>, id: string)
    ensures HasId(events, id) <==> id in Ids(events)
  {
    if events != [] {
      HasIdExactly(events[..|events| - 1], id);
    }
  }

  lemma {:induction false} InBounded(ids: seq<string>, max: nat, id: string)
    requires id in Bounded(ids, max)
    ensures id in ids
  {
  }

  /** Valid events whose ids all differ are all taken: deduplication drops nothing that is not a repetition. */
  lemma {:induction false} DifferentIdsAreTaken(cfg: EmitSettings, events: seq<Event>)
    requires AllIdsDiffer(events) && forall i | 0 <= i < |events| :: cfg.valid(events[i])
    ensures Taken(cfg, events) == events
  {
    if events != [] {
      var front, e := events[..|events| - 1], events[|events| - 1];
      DifferentIdsAreTaken(cfg, front);
      HasIdExactly(front, e.id);
      if e.id in Bounded(Ids(front), cfg.maxDedupKeys) {
        InBounded(Ids(front), cfg.maxDedupKeys, e.id);
      }
      assert front + [e] == events;
    }
  }

  /** While no more events have been seen than ids are remembered, each id of a valid event is taken exactly once. */
  lemma {:induction false} ShortRunsTakeEachIdOnce(cfg: EmitSettings, events: seq<Event>, id: string)
    requires cfg.dedupInMemory && |events| <= cfg.maxDedupKeys && forall i | 0 <= i < |events| :: cfg.valid(events[i])
    ensures AllIdsDiffer(Taken(cfg, events)) && |Taken(cfg, events)| <= |events|
    ensures HasId(Taken(cfg, events), id) <==> HasId(events, id)
  {
    if events != [] {
      var front, e := events[..|events| - 1], events[|events| - 1];
      var taken := Taken(cfg, front);
      ShortRunsTakeEachIdOnce(cfg, front, id);
      ShortRunsTakeEachIdOnce(cfg, front, e.id);
      TakesNewId(cfg, taken, e);
      assert front + [e] == events && cfg.valid(e);
      assert Taken(cfg, events) == if Takes(cfg, taken, e) then taken + [e] else taken;
      hide Taken, Takes, HasId, AllIdsDiffer;
      HasIdAppend(front, e, id);
      HasIdAppend(taken, e, id);
    }
  }

  lemma {:induction false} HasIdAppend(events: seq<Event>, e: Event, id: string)
    ensures HasId(events + [e], id) <==> e.id == id || HasId(events, id)
    ensures AllIdsDiffer(events + [e]) <==> !HasId(events, e.id) && AllIdsDiffer(events)
  {
    assert (events + [e])[..|events|] == events;
  }

  /** While all ids taken are remembered, a valid event is taken exactly when its id is new. */
  lemma {:induction false} TakesNewId(cfg: EmitSettings, taken: seq<Event>, e: Event)
    requires cfg.dedupInMemory && |taken| <= cfg.maxDedupKeys && cfg.valid(e)
    ensures Takes(cfg, taken, e) <==> !HasId(taken, e.id)
  {
    IdsLength(taken);
    HasIdExactly(taken, e.id);
  }

  lemma {:induction false} IdsLength(events: seq<Event>)
    ensures |Ids(events)| == |events|
  {
    if events != [] {
      IdsLength(events[..|events| - 1]);
    }
  }

  // ---------------------------------------------------------------------------
  // Where events are filed
  // ---------------------------------------------------------------------------

  function OfDay(events: seq<Event>, day: int): seq<Event> {
    if events == [] then []
    else
      var last := events[|events| - 1];
      OfDay(events[..|events| - 1], day) + (if last.day == day then [last] else [])
  }

  lemma {:induction false} OfDayConcat(a: seq<Event>, b: seq<Event>, day: int)
    ensures OfDay(a + b, day) == OfDay(a, day) + OfDay(b, day)
  {
    hide OfDay;
    if b == [] {
      OfDayNothing(day);
      assert a + b == a && OfDay(a, day) + [] == OfDay(a, day);
    } else {
      var front, last := b[..|b| - 1], b[|b| - 1];
      assert front + [last] == b;
      Regroup(a, front, [last]);
      OfDayConcat(a, front, day);
      OfDayAppend(front, last, day);
      OfDayAppend(a + front, last, day);
      Regroup(OfDay(a, day), OfDay(front, day), if last.day == day then [last] else []);
    }
  }

  lemma {:induction false} OfDayNothing(day: int)
    ensures OfDay([], day) == []
  {
  }

  lemma {:induction false} OfDayAppend(events: seq<Event>, e: Event, day: int)
    ensures OfDay(events + [e], day) == OfDay(events, day) + (if e.day == day then [e] else [])
  {
    assert (events + [e])[..|events|] == events;
  }

  predicate SameDay(batch: seq<Event>) {
    forall i | 0 <= i < |batch| :: batch[i].day == batch[0].day
  }

  lemma {:induction false} OfDaySame(batch: seq<Event>, d: int, day: int)
    requires forall i | 0 <= i < |batch| :: batch[i].day == d
    ensures OfDay(batch, day) == if d == day then batch else []
  {
    if batch != [] {
      var front, last := batch[..|batch| - 1], batch[|batch| - 1];
      assert front + [last] == batch && last.day == d;
      assert OfDay(batch, day) == OfDay(front, day) + (if last.day == day then [last] else []);
      hide OfDay;
      OfDaySame(front, d, day);
    }
  }

  /** When no batch spans midnight each day's log holds exactly the flushed events of that day, in order. */
  lemma {:induction false} BatchesWithinDaysFileByDay(batches: seq<seq<Event>>, day: int)
    requires forall b | 0 <= b < |batches| :: SameDay(batches[b])
    ensures FileOf(batches, day) == OfDay(Flat(batches), day)
  {
    if batches != [] {
      var front, last := batches[..|batches| - 1], batches[|batches| - 1];
      BatchesWithinDaysFileByDay(front, day);
      OfDayConcat(Flat(front), last, day);
      if last != [] {
        OfDaySame(last, last[0].day, day);
      }
    }
  }

  /** Every day's log holds exactly the flushed events of that day, in order. */
  ghost predicate FiledByDay(batches: seq<seq<Event>>) {
    forall day: int :: FileOf(batches, day) == OfDay(Flat(batches), day)
  }

  predicate WithinDays(batches: seq<seq<Event>>) {
    forall b | 0 <= b < |batches| :: SameDay(batches[b])
  }

  lemma {:induction false} OfDayDays(events: seq<Event>, day: int, e: Event)
    requires e in OfDay(events, day)
    ensures e.day == day
  {
    var front := events[..|events| - 1];
    if e in OfDay(front, day) {
      OfDayDays(front, day, e);
    }
  }

  /** A batch is filed as a whole. */
  lemma {:induction false} BatchIsFiled(batches: seq<seq<Event>>, b: nat, e: Event)
    requires b < |batches| && e in batches[b]
    ensures e in FileOf(batches, batches[b][0].day)
  {
    if b < |batches| - 1 {
      BatchIsFiled(batches[..|batches| - 1], b, e);
    }
  }

  /** The logs are by day exactly when no batch spans midnight. */
  lemma {:induction false} FiledByDayExactly(batches: seq<seq<Event>>)
    ensures FiledByDay(batches) <==> WithinDays(batches)
  {
    hide FileOf, OfDay, Flat;
    if WithinDays(batches) {
      forall day: int
        ensures FileOf(batches, day) == OfDay(Flat(batches), day)
      {
        BatchesWithinDaysFileByDay(batches, day);
      }
    }
    if FiledByDay(batches) {
      forall b, i | 0 <= b < |batches| && 0 <= i < |batches[b]|
        ensures batches[b][i].day == batches[b][0].day
      {
        var day := batches[b][0].day;
        BatchIsFiled(batches, b, batches[b][i]);
        assert FileOf(batches, day) == OfDay(Flat(batches), day);
        OfDayDays(Flat(batches), day, batches[b][i]);
      }
    }
  }

  // ---------------------------------------------------------------------------
  // The batches of a whole run
  // ---------------------------------------------------------------------------

  /** How many events are buffered before they are written. */
  function BatchLimit(cfg: EmitSettings): nat {
    if cfg.flushOnEveryEvent then 1 else cfg.batchSize
  }

  /** How many of `n` events are in the last batch. */
  function LastSize(n: nat, limit: nat): (size: nat)
    requires limit > 0
    ensures 0 < size <= limit
  {
    if n % limit == 0 then limit else n % limit
  }

  /** Batches of `limit` events each; the last one has what is left over. */
  function Chunks(events: seq<Event>, limit: nat): seq<seq<Event>>
    requires limit > 0
  {
    if events == [] then []
    else
      var size := LastSize(|events|, limit);
      if size >= |events| then [events] else Chunks(events[..|events| - size], limit) + [events[|events| - size..]]
  }

  /** Each event occurred on the day of the event its batch starts with. */
  predicate DayOfBatchStart(events: seq<Event>, limit: nat)
    requires limit > 0
  {
    forall i | 0 <= i < |events| :: events[i].day == events[BatchStart(i, limit)].day
  }

  function BatchStart(i: nat, limit: nat): (start: nat)
    requires limit > 0
    ensures start <= i
  {
    i - i % limit
  }

  lemma {:induction false} Multiples(d: int, limit: nat)
    ensures (d >= 1 ==> d * limit >= limit) && (d <= -1 ==> -d * limit >= limit)
  {
  }

  lemma {:induction false} ModAfter(n: nat, j: nat, limit: nat)
    requires limit > 0 && n % limit == 0 && j < limit
    ensures (n + j) % limit == j
  {
    var q := n / limit;
    assert n + j == q * limit + j;
    assert ((n + j) / limit - q) * limit == j - (n + j) % limit;
    Multiples((n + j) / limit - q, limit);
  }

  lemma {:induction false} FlatChunks(events: seq<Event>, limit: nat)
    requires limit > 0
    ensures Flat(Chunks(events, limit)) == events
  {
    if events != [] {
      hide LastSize;
      var size := LastSize(|events|, limit);
      if size >= |events| {
        FlatAppend([], events);
        assert [] + [events] == [events] && [] + events == events;
      } else {
        FlatChunks(events[..|events| - size], limit);
        FlatAppend(Chunks(events[..|events| - size], limit), events[|events| - size..]);
      }
    }
  }

  /** Where the last batch starts. */
  lemma {:induction false} LastChunk(n: nat, limit: nat)
    requires limit > 0 && n > 0
    ensures LastSize(n, limit) <= n && (n - LastSize(n, limit)) % limit == 0
  {
    var q := n / limit;
    assert n == q * limit + n % limit;
    if n % limit == 0 {
      assert q >= 1;
      assert n - limit == (q - 1) * limit + 0;
      ModAfter(0, 0, limit);
      MultipleMod(q - 1, limit);
    } else {
      assert q * limit >= 0;
      MultipleMod(q, limit);
    }
  }

  lemma {:induction false} MultipleMod(q: nat, limit: nat)
    requires limit > 0
    ensures q * limit % limit == 0
  {
    var n := q * limit;
    assert (n / limit - q) * limit == -(n % limit);
    Multiples(n / limit - q, limit);
  }

  /** Over a whole run the logs are by day exactly when each event is on the day its batch started. */
  lemma {:induction false} RunFiledByDayExactly(events: seq<Event>, limit: nat)
    requires limit > 0
    ensures FiledByDay(Chunks(events, limit)) <==> DayOfBatchStart(events, limit)
  {
    FiledByDayExactly(Chunks(events, limit));
    ChunksWithinDays(events, limit);
  }

  lemma {:induction false} ChunksWithinDays(events: seq<Event>, limit: nat)
    requires limit > 0
    ensures WithinDays(Chunks(events, limit)) <==> DayOfBatchStart(events, limit)
  {
    if events != [] {
      LastChunk(|events|, limit);
      var n := |events| - LastSize(|events|, limit);
      var front, last := events[..n], events[n..];
      LastChunkDays(events, n, limit);
      hide LastSize, BatchStart;
      ChunksWithinDays(front, limit);
      hide SameDay;
      assert Chunks(events, limit) == Chunks(front, limit) + [last];
      DayPrefix(events, n, limit);
      hide DayOfBatchStart;
      WithinAppend(Chunks(front, limit), last);
    }
  }

  lemma {:induction false} WithinAppend(batches: seq<seq<Event>>, last: seq<Event>)
    ensures WithinDays(batches + [last]) <==> WithinDays(batches) && SameDay(last)
  {
    hide SameDay;
    var all := batches + [last];
    assert all[|batches|] == last && forall b | 0 <= b < |batches| :: all[b] == batches[b];
  }

  ghost predicate DaysFrom(events: seq<Event>, n: nat, limit: nat)
    requires limit > 0
  {
    forall i | n <= i < |events| :: events[i].day == events[BatchStart(i, limit)].day
  }

  lemma {:induction false} DayPrefix(events: seq<Event>, n: nat, limit: nat)
    requires limit > 0 && n <= |events|
    ensures DayOfBatchStart(events, limit) <==> DayOfBatchStart(events[..n], limit) && DaysFrom(events, n, limit)
  {
    hide BatchStart;
  }

  lemma {:induction false} LastChunkDays(events: seq<Event>, n: nat, limit: nat)
    requires limit > 0 && n <= |events| <= n + limit && n % limit == 0
    ensures SameDay(events[n..]) <==> DaysFrom(events, n, limit)
  {
    forall i: nat | n <= i < |events|
      ensures BatchStart(i, limit) == n
    {
      ModAfter(n, i - n, limit);
    }
    hide BatchStart;
    var last := events[n..];
    assert forall i: nat | n <= i < |events| :: last[i - n] == events[i];
    if DaysFrom(events, n, limit) {
      forall j | 0 <= j < |last|
        ensures last[j].day == last[0].day
      {
        assert events[n + j].day == events[BatchStart(n + j, limit)].day;
      }
    }
  }

  /** A full buffer written after full batches is the next batch. */
  lemma {:induction false} FullChunk(flushed: seq<Event>, batch: seq<Event>, limit: nat)
    requires limit > 0 && |flushed| % limit == 0 && 0 < |batch| <= limit
    ensures Chunks(flushed + batch, limit) == Chunks(flushed, limit) + [batch]
    ensures |batch| == limit ==> |flushed + batch| % limit == 0
  {
    var events, n := flushed + batch, |flushed|;
    SizeAfter(n, |batch|, limit);
    hide LastSize;
    assert events[..n] == flushed && events[n..] == batch;
    assert n == 0 ==> events == batch && flushed == [];
    assert [] + [batch] == [batch];
  }

  /** What comes after full batches is the last one. */
  lemma {:induction false} SizeAfter(n: nat, size: nat, limit: nat)
    requires limit > 0 && n % limit == 0 && 0 < size <= limit
    ensures LastSize(n + size, limit) == size && (size == limit ==> (n + size) % limit == 0)
  {
    if size == limit {
      NextMultiple(n, limit);
    } else {
      ModAfter(n, size, limit);
    }
  }

  lemma {:induction false} NextMultiple(n: nat, limit: nat)
    requires limit > 0 && n % limit == 0
    ensures (n + limit) % limit == 0
  {
    assert n + limit == (n / limit + 1) * limit;
    MultipleMod(n / limit + 1, limit);
  }

  /** A batch that spans midnight files later events under the earlier day. */
  lemma {:induction false} BatchAcrossDaysMisfiles(a: Event, b: Event)
    requires a.day != b.day
    ensures FileOf([[a, b]], a.day) == [a, b] && FileOf([[a, b]], b.day) == []
  {
    var batches := [[a, b]];
    assert batches[..0] == [];
  }
}
