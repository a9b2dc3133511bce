/** The ingest request handler: the loops that split a batch, and its transaction. */
module IngestService {
  import opened IngestModel
  import opened Options

  /** Keep the first occurrence of each id; later copies count as duplicates. */
  method SplitInBatchDuplicates(events: seq<Event>) returns (unique: seq<Event>, duplicates: nat)
    ensures unique == FirstOccurrences(events) && duplicates == |events| - |unique|
    ensures DistinctIds(unique) && Ids(unique) == Ids(events)
  {
    var seen: set<int> := {};
    unique, duplicates := [], 0;
    for i := 0 to |events|
      invariant seen == Ids(events[..i])
      invariant unique == FirstOccurrences(events[..i]) && duplicates == i - |unique|
    {
      assert events[..i + 1][..i] == events[..i];
      if events[i].id in seen {
        duplicates := duplicates + 1;
      } else {
        seen := seen + {events[i].id};
        unique := unique + [events[i]];
      }
    }
    assert events[..|events|] == events;
    FirstOccurrencesMean(events);
  }

  /** Split unique events into those to insert and those already stored. */
  method PartitionForInsert(events: seq<Event>, existing: set<int>) returns (toInsert: seq<Event>, duplicates: nat)
    requires DistinctIds(events)
    ensures toInsert == Unknown(events, existing) && duplicates == |events| - |toInsert|
    ensures DistinctIds(toInsert) && Ids(toInsert) == Ids(events) - existing
  {
    toInsert, duplicates := [], 0;
    for i := 0 to |events|
      invariant toInsert == Unknown(events[..i], existing) && duplicates == i - |toInsert|
    {
      assert events[..i + 1][..i] == events[..i];
      if events[i].id in existing {
        duplicates := duplicates + 1;
      } else {
        toInsert := toInsert + [events[i]];
      }
    }
    assert events[..|events|] == events;
    UnknownMeans(events, existing);
  }

  /** Malformed elements are set aside; they do not affect their siblings. */
  method ValidateAll(items: seq<Item>) returns (valid: seq<Event>, errors: nat)
    ensures valid == ValidEvents(items) && errors == Rejected(items) && |valid| + errors == |items|
  {
    valid, errors := [], 0;
    for i := 0 to |items|
      invariant valid == ValidEvents(items[..i]) && errors == Rejected(items[..i])
    {
      assert items[..i + 1][..i] == items[..i];
      match items[i] {
        case Malformed => errors := errors + 1;
        case Valid(e) => valid := valid + [e];
      }
    }
    assert items[..|items|] == items;
    EveryItemCounted(items);
  }

  /** The committed tables. */
  class Database {
    var rows: seq<Event>
    var batches: map<int, Counts>

    constructor ()
      ensures rows == [] && batches == map[]
    {
      rows, batches := [], map[];
    }

    method StoredIds() returns (ids: set<int>)
      ensures ids == Ids(rows)
    {
      ids := {};
      for i := 0 to |rows|
        invariant ids == Ids(rows[..i])
      {
        assert rows[..i + 1][..i] == rows[..i];
        ids := ids + {rows[i].id};
      }
      assert rows[..|rows|] == rows;
    }

    /** Insert, doing nothing on a conflict; the rows stay uncommitted. */
    method InsertEvents(events: seq<Event>) returns (pending: seq<Event>)
      requires DistinctIds(events)
      ensures pending == Unknown(events, Ids(rows))
    {
      pending := [];
      var stored := StoredIds();
      for i := 0 to |events|
        invariant pending == Unknown(events[..i], stored)
      {
        assert events[..i + 1][..i] == events[..i];
        if events[i].id !in stored {
          pending := pending + [events[i]];
        }
      }
      assert events[..|events|] == events;
    }
  }

  /**
   One request. `others` and `otherBatches` are what other clients commit between this request's
   lookup and its insert; `fails` is a database error. `None` is the 503 answer.
   */
  method Ingest(db: Database, request: Request, others: seq<Event>, otherBatches: map<int, Counts>, fails: bool)
    returns (response: Option<Counts>)
    requires DistinctIds(db.rows + others)
    modifies db
    ensures var before := old(db.rows) + others;
      && before <= db.rows && DistinctIds(db.rows)
      && (response.None? <==> fails || request.batchId in old(db.batches) + otherBatches)
      && (response.None? ==> db.rows == before && db.batches == old(db.batches) + otherBatches)
      && (response.Some? ==>
        && db.batches == (old(db.batches) + otherBatches)[request.batchId := response.value]
        && response.value.accepted == |db.rows| - |before|
        && response.value.accepted + response.value.duplicates + response.value.rejected == |request.items|
        && Ids(db.rows) == Ids(before) + Ids(ValidEvents(request.items)))
  {
    hide *;
    var valid, errors := ValidateAll(request.items);
    var unique, inBatchDuplicates := SplitInBatchDuplicates(valid);
    var existing := db.StoredIds();
    var toInsert, dbDuplicates := PartitionForInsert(unique, existing);
    var duplicates := inBatchDuplicates + dbDuplicates;

    IdsConcat(db.rows, others);
    db.rows, db.batches := db.rows + others, db.batches + otherBatches;

    var pending := db.InsertEvents(toInsert);
    UnknownMeans(toInsert, Ids(db.rows));
    var concurrentDuplicates := |toInsert| - |pending|;
    if concurrentDuplicates > 0 {
      duplicates := duplicates + concurrentDuplicates;
    }
    if fails || request.batchId in db.batches {
      return None;
    }
    var counts := Counts(|pending|, duplicates, errors);
    IdsConcat(db.rows, pending);
    db.rows := db.rows + pending;
    db.batches := db.batches[request.batchId := counts];
    response := Some(counts);
  }
}
