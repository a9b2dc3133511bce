/** The in-memory deduplication store and the batching, append-only emitter. */
module Emitter {
  import opened Sequences
  import opened BoundedQueues
  import opened EmitterModel

  predicate NoRepeats(s: seq<string>) {
    s == [] || (s[0] !in s[1..] && NoRepeats(s[1..]))
  }

  lemma {:induction false} NoRepeatsAppend(s: seq<string>, x: string)
    requires NoRepeats(s) && x !in s
    ensures NoRepeats(s + [x])
  {
    if s == [] {
      assert ([] + [x])[1..] == [];
    } else {
      NoRepeatsAppend(s[1..], x);
      assert (s + [x])[1..] == s[1..] + [x];
    }
  }

  /** The queue is a tail of the history without repetitions, and the set has the same keys. */
  ghost predicate Mirrors(seen: set<string>, order: seq<string>, history: seq<string>) {
    && |order| <= |history| && order == history[|history| - |order|..]
    && (forall k: string :: k in seen <==> k in order)
    && NoRepeats(order)
  }

  lemma {:induction false} MirrorsNewest(seen: set<string>, order: seq<string>, history: seq<string>, key: string)
    requires Mirrors(seen, order, history) && key !in seen
    ensures Mirrors(seen + {key}, order + [key], history + [key])
  {
    NoRepeatsAppend(order, key);
    hide NoRepeats;
  }

  /** Dropping the oldest key. */
  lemma {:induction false} MirrorsOldest(seen: set<string>, order: seq<string>, history: seq<string>)
    requires Mirrors(seen, order, history) && order != []
    ensures Mirrors(seen - {order[0]}, order[1..], history)
  {
    assert order[0] !in order[1..] && NoRepeats(order[1..]);
    hide NoRepeats;
    assert order == [order[0]] + order[1..];
  }

  lemma {:induction false} MirrorsBounded(seen: set<string>, order: seq<string>, history: seq<string>, max: nat)
    requires Mirrors(seen, order, history) && |order| <= max && (|order| >= max || order == history)
    ensures order == Bounded(history, max)
  {
    hide NoRepeats;
  }

  /** A set for lookup and a queue for age; `accepted` is everything ever accepted, in order. */
  class EventDedupStore {
    const maxKeys: nat
    var seen: set<string>
    var order: seq<string>
    ghost var accepted: seq<string>

    ghost predicate Valid()
      reads this
    {
      Mirrors(seen, order, accepted) && order == Bounded(accepted, maxKeys)
    }

    constructor (maxKeys: nat)
      ensures Valid() && accepted == [] && this.maxKeys == maxKeys
    {
      this.maxKeys, seen, order, accepted := maxKeys, {}, [], [];
    }

    /** A key is rejected exactly when it is among the newest `maxKeys` accepted ones. */
    method Add(key: string) returns (isNew: bool)
      requires Valid()
      modifies this
      ensures Valid()
      ensures isNew <==> key !in Bounded(old(accepted), maxKeys)
      ensures accepted == if isNew then old(accepted) + [key] else old(accepted)
    {
      if key in seen {
        return false;
      }
      hide Mirrors;
      MirrorsNewest(seen, order, accepted, key);
      seen := seen + {key};
      order := order + [key];
      accepted := accepted + [key];
      while |order| > maxKeys
        invariant Mirrors(seen, order, accepted) && (|order| >= maxKeys || order == accepted)
        invariant accepted == old(accepted) + [key]
      {
        var oldest := order[0];
        MirrorsOldest(seen, order, accepted);
        order := order[1..];
        seen := seen - {oldest};
      }
      MirrorsBounded(seen, order, accepted, maxKeys);
      isNew := true;
    }
  }

  function FileIn(files: map<int, seq<Event>>, day: int): seq<Event> {
    if day in files then files[day] else []
  }

  /** Every day's file holds the batches of that day. */
  ghost predicate Filed(files: map<int, seq<Event>>, batches: seq<seq<Event>>) {
    forall day: int :: FileIn(files, day) == FileOf(batches, day)
  }

  lemma {:induction false} FileBatch(files: map<int, seq<Event>>, batches: seq<seq<Event>>, batch: seq<Event>)
    requires Filed(files, batches) && batch != []
    ensures Filed(files[batch[0].day := FileIn(files, batch[0].day) + batch], batches + [batch])
    ensures Flat(batches + [batch]) == Flat(batches) + batch
  {
    var after := files[batch[0].day := FileIn(files, batch[0].day) + batch];
    FlatAppend(batches, batch);
    assert (batches + [batch])[..|batches|] == batches;
    forall day: int
      ensures FileIn(after, day) == FileOf(batches + [batch], day)
    {
      assert FileIn(files, day) == FileOf(batches, day) && FileOf(batches, day) + [] == FileOf(batches, day);
    }
  }

  class StructuredEventEmitter {
    const cfg: EmitSettings
    const dedup: EventDedupStore
    var buffer: seq<Event>
    /** The log file of each day. */
    var files: map<int, seq<Event>>
    var totalEmitted: nat
    var totalDuplicates: nat
    /** Everything taken so far, and the batches written so far. */
    ghost var taken: seq<Event>
    ghost var batches: seq<seq<Event>>

    /** Nothing is lost, doubled or reordered between the call and the log. */
    ghost predicate Valid()
      reads this, dedup
    {
      && dedup.Valid() && dedup.maxKeys == cfg.maxDedupKeys
      && (cfg.dedupInMemory ==> dedup.accepted == Ids(taken))
      && Flat(batches) + buffer == taken
      && totalEmitted == |Flat(batches)|
      && Filed(files, batches)
      && (forall i | 0 <= i < |batches| :: batches[i] != [])
    }

    constructor (cfg: EmitSettings)
      ensures Valid() && this.cfg == cfg && taken == [] && buffer == [] && batches == [] && fresh(dedup)
    {
      this.cfg := cfg;
      dedup := new EventDedupStore(cfg.maxDedupKeys);
      buffer, files, totalEmitted, totalDuplicates, taken, batches := [], map[], 0, 0, [], [];
    }

    /** The whole buffer is appended to the file of the day of its first event. */
    method Flush()
      requires Valid()
      modifies this
      ensures Valid() && buffer == [] && taken == old(taken)
      ensures batches == if old(buffer) == [] then old(batches) else old(batches) + [old(buffer)]
    {
      if buffer == [] {
        return;
      }
      hide EventDedupStore.Valid, Ids, Filed, Flat, FileIn;
      var day := buffer[0].day;
      FileBatch(files, batches, buffer);
      files := files[day := FileIn(files, day) + buffer];
      totalEmitted := totalEmitted + |buffer|;
      batches := batches + [buffer];
      buffer := [];
      assert Flat(batches) + [] == Flat(batches);
    }

    /** True exactly for an event that is valid and not a recent repetition; the buffer stays below the batch size. */
    method Emit(e: Event) returns (ok: bool)
      requires Valid() && cfg.batchSize >= 1 && |buffer| < cfg.batchSize
      modifies this, dedup
      ensures Valid() && |buffer| < cfg.batchSize
      ensures ok == Takes(cfg, old(taken), e)
      ensures taken == if ok then old(taken) + [e] else old(taken)
      ensures var full := old(buffer) + [e];
        var flushed := cfg.flushOnEveryEvent || |full| >= cfg.batchSize;
        && batches == (if ok && flushed then old(batches) + [full] else old(batches))
        && buffer == if !ok then old(buffer) else if flushed then [] else full
    {
      hide Flat, FileOf, Ids, Bounded, EventDedupStore.Valid, Filed;
      if cfg.validateOnEmit && !cfg.valid(e) {
        return false;
      }
      if cfg.dedupInMemory {
        var isNew := dedup.Add(e.id);
        if !isNew {
          totalDuplicates := totalDuplicates + 1;
          return false;
        }
      }
      IdsAppend(taken, e);
      taken := taken + [e];
      buffer := buffer + [e];
      ok := true;
      assert Flat(batches) + buffer == taken;
      if cfg.flushOnEveryEvent || |buffer| >= cfg.batchSize {
        Flush();
      }
    }

    /** A batch with an invalid event is refused as a whole; otherwise events are emitted one by one. */
    method EmitMany(events: seq<Event>) returns (accepted: nat)
      requires Valid() && cfg.batchSize >= 1 && |buffer| < cfg.batchSize
      modifies this, dedup
      ensures Valid() && |buffer| < cfg.batchSize
      ensures var refused := cfg.validateOnEmit && exists i :: 0 <= i < |events| && !cfg.valid(events[i]);
        && taken == (if refused then old(taken) else TakenAfter(cfg, old(taken), events))
        && accepted == |taken| - |old(taken)|
    {
      accepted := 0;
      if cfg.validateOnEmit && exists i :: 0 <= i < |events| && !cfg.valid(events[i]) {
        return;
      }
      for i := 0 to |events|
        invariant Valid() && |buffer| < cfg.batchSize
        invariant taken == TakenAfter(cfg, old(taken), events[..i]) && accepted == |taken| - |old(taken)|
      {
        assert events[..i + 1][..i] == events[..i];
        var ok := Emit(events[i]);
        if ok {
          accepted := accepted + 1;
        }
      }
      assert events[..|events|] == events;
    }
  }

  lemma {:induction false} IdsAppend(events: seq<Event>, e: Event)
    ensures Ids(events + [e]) == Ids(events) + [e.id]
  {
    assert (events + [e])[..|events|] == events;
  }

  /** Taking more events after some have been taken. */
  function TakenAfter(cfg: EmitSettings, taken: seq<Event>, events: seq<Event>): seq<Event> {
    if events == [] then taken
    else
      var now := TakenAfter(cfg, taken, events[..|events| - 1]);
      if Takes(cfg, now, events[|events| - 1]) then now + [events[|events| - 1]] else now
  }

  /**
   A whole run: once the emitter is closed, what was taken has been written in batches of the limit, and the logs are
   by day exactly when no event taken is on another day than the first of its batch.
   */
  method EmitRun(cfg: EmitSettings, events: seq<Event>) returns (emitter: StructuredEventEmitter)
    requires cfg.batchSize >= 1
    ensures emitter.Valid() && emitter.buffer == [] && Flat(emitter.batches) == Taken(cfg, events)
    ensures emitter.batches == Chunks(Taken(cfg, events), BatchLimit(cfg))
    ensures forall day: int :: FileIn(emitter.files, day) == FileOf(emitter.batches, day)
    ensures (forall day: int :: FileIn(emitter.files, day) == OfDay(Taken(cfg, events), day))
      <==> DayOfBatchStart(Taken(cfg, events), BatchLimit(cfg))
  {
    hide EventDedupStore.Valid, Ids, Flat, Takes, Chunks, DayOfBatchStart, OfDay, FileOf;
    var limit := BatchLimit(cfg);
    NoChunks(limit);
    emitter := new StructuredEventEmitter(cfg);
    for i := 0 to |events|
      invariant emitter.Valid() && emitter.cfg == cfg && fresh(emitter) && fresh(emitter.dedup)
      invariant |emitter.buffer| < limit && emitter.taken == Taken(cfg, events[..i])
      invariant |Flat(emitter.batches)| % limit == 0 && emitter.batches == Chunks(Flat(emitter.batches), limit)
    {
      assert events[..i + 1][..i] == events[..i];
      ghost var flushed, batch := Flat(emitter.batches), emitter.buffer + [events[i]];
      FullChunk(flushed, batch, limit);
      FlatAppend(emitter.batches, batch);
      var _ := emitter.Emit(events[i]);
    }
    assert events[..|events|] == events;
    if emitter.buffer != [] {
      FullChunk(Flat(emitter.batches), emitter.buffer, limit);
    }
    emitter.Flush();
    assert Flat(emitter.batches) + [] == Flat(emitter.batches);
    RunFiledByDayExactly(Taken(cfg, events), limit);
  }

  lemma {:induction false} NoChunks(limit: nat)
    requires limit > 0
    ensures Chunks([], limit) == [] && Flat<Event>([]) == [] && 0 % limit == 0
  {
  }
}
