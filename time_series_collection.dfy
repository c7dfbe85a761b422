/** Setup, indexing, insertion, retention and statistics of the time-series
    collection (time_series_collection.py). The database is an in-memory
    store: the collection's documents in insertion order, the set of index key
    lists, and the set of collection names the database reports. */
module TimeSeries {
  import opened Common
  import opened Documents

  datatype Direction = Ascending | Descending

  datatype IndexKey = IndexKey(field: string, direction: Direction)

  /** An index is identified by its key list. */
  type IndexSpec = seq<IndexKey>

  const TimestampIndex: IndexSpec := [IndexKey("timestamp", Descending)]
  const LocationIndex: IndexSpec := [IndexKey("metadata.location", Ascending)]
  const BuildingIndex: IndexSpec := [IndexKey("metadata.building", Ascending)]
  const RoomIndex: IndexSpec := [IndexKey("metadata.room", Ascending)]
  const CompoundIndex: IndexSpec :=
    [IndexKey("timestamp", Descending), IndexKey("metadata.location", Ascending), IndexKey("metadata.building", Ascending)]

  function RequiredIndexes(): set<IndexSpec>
  {
    {TimestampIndex, LocationIndex, BuildingIndex, RoomIndex, CompoundIndex}
  }

  /** The indexes a previous schema version created on array-valued alert
      fields; they are dropped on setup. */
  predicate Incompatible(k: IndexSpec)
  {
    k == [IndexKey("alert_type", Ascending)] || k == [IndexKey("severity", Ascending)]
  }

  predicate OnAlertField(k: IndexSpec)
  {
    exists i :: 0 <= i < |k| && k[i].field in {"alert_type", "alert_message", "severity"}
  }

  /** The incompatible indexes among `existing` whose drop succeeds; a drop in
      `dropFails` raises, is logged, and leaves that index in place. */
  function Dropped(existing: set<IndexSpec>, dropFails: set<IndexSpec>): set<IndexSpec>
  {
    set k | k in existing && Incompatible(k) && k !in dropFails
  }

  /** The index set after the index step of setup. */
  function IndexesAfterSetup(existing: set<IndexSpec>, dropFails: set<IndexSpec>): (r: set<IndexSpec>)
    ensures RequiredIndexes() <= r
    ensures forall k :: k in existing && !Incompatible(k) ==> k in r
    ensures forall k :: k in r ==> k in existing || k in RequiredIndexes()
    ensures forall k :: k in r && Incompatible(k) ==> k in existing && k in dropFails
    ensures forall k :: k in existing && Incompatible(k) ==> (k in r <==> k in dropFails)
  {
    RequiredAvoidAlertFields();
    (existing - Dropped(existing, dropFails)) + RequiredIndexes()
  }

  /** None of the required indexes is on an alert field, so setup never
      creates one. */
  lemma RequiredAvoidAlertFields()
    ensures forall k :: k in RequiredIndexes() ==> !OnAlertField(k) && !Incompatible(k)
  {
    forall k: IndexSpec | k in RequiredIndexes() ensures !OnAlertField(k) {
      if OnAlertField(k) {
        var i :| 0 <= i < |k| && k[i].field in {"alert_type", "alert_message", "severity"};
      }
    }
  }

  /** When no drop fails, no incompatible index survives setup. */
  lemma SetupRemovesIncompatible(existing: set<IndexSpec>)
    ensures forall k :: k in IndexesAfterSetup(existing, {}) ==> !Incompatible(k)
  {
    RequiredAvoidAlertFields();
  }

  /** Running the index step again after a run in which no drop failed changes
      nothing, whatever drops would fail the second time. */
  lemma SetupIdempotent(existing: set<IndexSpec>, dropFails: set<IndexSpec>)
    ensures IndexesAfterSetup(IndexesAfterSetup(existing, {}), dropFails) == IndexesAfterSetup(existing, {})
  {
    var once := IndexesAfterSetup(existing, {});
    SetupRemovesIncompatible(existing);
    assert Dropped(once, dropFails) == {};
  }

  datatype CreateOutcome =
    | Created        // create_collection succeeds
    | AlreadyExists  // CollectionInvalid: a concurrent initializer created it first
    | CreateFailed   // any other error, which setup re-raises

  datatype CollectionStats = CollectionStats(firstRecord: int, lastRecord: int, totalDocuments: nat)

  const DefaultRetentionDays := 30

  predicate NotOlderThan(cutoff: int, d: Doc)
  {
    d.timestamp >= cutoff
  }

  predicate OlderThan(cutoff: int, d: Doc)
  {
    d.timestamp < cutoff
  }

  /** The documents a `delete_many({"timestamp": {"$lt": cutoff}})` leaves. */
  function Retained(docs: seq<Doc>, cutoff: int): (r: seq<Doc>)
    ensures forall i :: 0 <= i < |r| ==> r[i].timestamp >= cutoff
  {
    Filter(docs, d => NotOlderThan(cutoff, d))
  }

  /** A document survives retention iff it is not older than the cutoff; one
      exactly at the cutoff is kept. */
  lemma RetainedMembership(docs: seq<Doc>, cutoff: int, d: Doc)
    ensures d in Retained(docs, cutoff) <==> d in docs && d.timestamp >= cutoff
  {
    FilterMembership(docs, d => NotOlderThan(cutoff, d), d);
  }

  /** The number of removed documents is the number of expired ones. */
  lemma RetainedCount(docs: seq<Doc>, cutoff: int)
    ensures |docs| - |Retained(docs, cutoff)| == Count(docs, d => OlderThan(cutoff, d))
  {
    FilterComplement(docs, d => NotOlderThan(cutoff, d), d => OlderThan(cutoff, d));
  }

  /** A second retention pass with the same cutoff removes nothing. */
  lemma RetainedIdempotent(docs: seq<Doc>, cutoff: int)
    ensures Retained(Retained(docs, cutoff), cutoff) == Retained(docs, cutoff)
    ensures Count(Retained(docs, cutoff), d => OlderThan(cutoff, d)) == 0
  {
    FilterIdempotent(docs, d => NotOlderThan(cutoff, d));
    RetainedCount(Retained(docs, cutoff), cutoff);
  }

  function MinTimestamp(docs: seq<Doc>): (t: int)
    requires |docs| > 0
    ensures exists i :: 0 <= i < |docs| && docs[i].timestamp == t
    ensures forall i :: 0 <= i < |docs| ==> t <= docs[i].timestamp
  {
    if |docs| == 1 then docs[0].timestamp
    else
      var rest := MinTimestamp(docs[1..]);
      if docs[0].timestamp <= rest then docs[0].timestamp else rest
  }

  function MaxTimestamp(docs: seq<Doc>): (t: int)
    requires |docs| > 0
    ensures exists i :: 0 <= i < |docs| && docs[i].timestamp == t
    ensures forall i :: 0 <= i < |docs| ==> docs[i].timestamp <= t
  {
    if |docs| == 1 then docs[0].timestamp
    else
      var rest := MaxTimestamp(docs[1..]);
      if docs[0].timestamp >= rest then docs[0].timestamp else rest
  }

  predicate HasId(docs: seq<Doc>, id: nat)
  {
    exists i :: 0 <= i < |docs| && docs[i].id == Some(id)
  }

  class TimeSeriesCollection {
    const name: string
    /** The collection names `list_collections()` reports. */
    var catalog: set<string>
    /** Whether the collection reference is set (`self.collection is not None`). */
    var ready: bool
    var docs: seq<Doc>
    var indexes: set<IndexSpec>
    /** The identifier the next insertion assigns. */
    var nextId: nat

    ghost predicate Valid()
      reads this
    {
      forall i :: 0 <= i < |docs| ==> docs[i].id.Some? && docs[i].id.value < nextId
    }

    /** A handle on the named collection, before `setup`. The database may
        already hold the collection, its documents and its indexes. */
    constructor (name: string, catalog: set<string>, stored: seq<Doc>, indexes: set<IndexSpec>)
      requires forall i :: 0 <= i < |stored| ==> stored[i].id.Some?
      ensures Valid()
      ensures this.name == name && this.catalog == catalog && docs == stored && this.indexes == indexes
      ensures !ready
    {
      this.name := name;
      this.catalog := catalog;
      ready := false;
      docs := stored;
      this.indexes := indexes;
      nextId := FreshId(stored);
    }

    /** Creates the time-series collection when the database does not list it,
        takes the collection reference, then runs the index step. */
    method Setup(outcome: CreateOutcome, dropFails: set<IndexSpec>) returns (ok: bool)
      requires Valid()
      modifies this
      ensures Valid()
      ensures ok <==> name in old(catalog) || outcome != CreateFailed
      ensures ok ==>
        ready && catalog == old(catalog) + {name} && indexes == IndexesAfterSetup(old(indexes), dropFails)
      ensures !ok ==> ready == old(ready) && catalog == old(catalog) && indexes == old(indexes)
      ensures docs == old(docs) && nextId == old(nextId)
    {
      if name !in catalog {
        match outcome
        case Created => catalog := catalog + {name};
        case AlreadyExists => catalog := catalog + {name};
        case CreateFailed => return false;
      }
      ready := true;
      CreateIndexes(dropFails);
      ok := true;
    }

    /** Drops every incompatible index (a failing drop is logged and skipped),
        then creates the five required indexes; creating an index that already
        exists is a no-op. */
    method CreateIndexes(dropFails: set<IndexSpec>)
      requires ready
      modifies this`indexes
      ensures indexes == IndexesAfterSetup(old(indexes), dropFails)
    {
      var pending := indexes;
      while pending != {}
        invariant pending <= old(indexes)
        invariant indexes == old(indexes) - Dropped(old(indexes) - pending, dropFails)
        decreases pending
      {
        var k :| k in pending;
        if Incompatible(k) && k !in dropFails {
          indexes := indexes - {k};
        }
        pending := pending - {k};
      }
      assert old(indexes) - pending == old(indexes);
      indexes := indexes + {TimestampIndex};
      indexes := indexes + {LocationIndex};
      indexes := indexes + {BuildingIndex};
      indexes := indexes + {RoomIndex};
      indexes := indexes + {CompoundIndex};
    }

    /** Inserts a document under a fresh `_id`. Returns (None, false) when the
        collection is not set up or the driver raises, and then changes nothing. */
    method InsertDocument(doc: Doc, fault: bool) returns (id: Option<nat>, ok: bool)
      requires Valid()
      modifies this`docs, this`nextId
      ensures Valid()
      ensures ok <==> ready && !fault
      ensures ok ==> id == Some(old(nextId)) && docs == old(docs) + [doc.(id := id)] && HasId(docs, id.value)
      ensures !ok ==> id == None && docs == old(docs) && nextId == old(nextId)
    {
      if !ready || fault {
        return None, false;
      }
      id := Some(nextId);
      docs := docs + [doc.(id := id)];
      nextId := nextId + 1;
      ok := true;
      assert docs[|docs| - 1].id == id;
    }

    /** Whether a document with this `_id` can be read back. */
    method VerifyInsertion(id: Option<nat>, fault: bool) returns (found: bool)
      ensures found <==> ready && !fault && id.Some? && HasId(docs, id.value)
    {
      if !ready || fault {
        return false;
      }
      found := false;
      if id.Some? {
        var i := 0;
        while i < |docs|
          invariant 0 <= i <= |docs|
          invariant found <==> exists j :: 0 <= j < i && docs[j].id == id
        {
          if docs[i].id == id {
            found := true;
          }
          i := i + 1;
        }
      }
    }

    /** Deletes every document older than `now - daysToKeep` days and returns
        how many were deleted; returns 0 and deletes nothing when the
        collection is not set up or the driver raises. */
    method CleanupOldData(now: int, daysToKeep: int, fault: bool) returns (deleted: nat)
      requires Valid()
      modifies this`docs
      ensures Valid()
      ensures !ready || fault ==> deleted == 0 && docs == old(docs)
      ensures ready && !fault ==>
        docs == Retained(old(docs), now - daysToKeep * SecondsPerDay)
        && deleted == |old(docs)| - |docs|
        && deleted == Count(old(docs), d => OlderThan(now - daysToKeep * SecondsPerDay, d))
    {
      if !ready || fault {
        return 0;
      }
      var cutoff := now - daysToKeep * SecondsPerDay;
      var before := docs;
      docs := Retained(docs, cutoff);
      RetainedCount(before, cutoff);
      forall i | 0 <= i < |docs| ensures docs[i].id.Some? && docs[i].id.value < nextId {
        RetainedMembership(before, cutoff, docs[i]);
      }
      deleted := |before| - |docs|;
    }

    /** Oldest and newest timestamps and the document count, or None when the
        collection is not set up, empty, or the driver raises. */
    method GetCollectionStats(fault: bool) returns (r: Option<CollectionStats>)
      ensures r.None? <==> !ready || fault || docs == []
      ensures r.Some? ==>
        r.value.totalDocuments == |docs|
        && r.value.firstRecord <= r.value.lastRecord
        && (exists i :: 0 <= i < |docs| && docs[i].timestamp == r.value.firstRecord)
        && (exists i :: 0 <= i < |docs| && docs[i].timestamp == r.value.lastRecord)
        && forall i :: 0 <= i < |docs| ==> r.value.firstRecord <= docs[i].timestamp <= r.value.lastRecord
    {
      if !ready || fault || docs == [] {
        return None;
      }
      r := Some(CollectionStats(MinTimestamp(docs), MaxTimestamp(docs), |docs|));
    }
  }

  /** An identifier larger than every identifier in `docs`. */
  function FreshId(docs: seq<Doc>): (n: nat)
    ensures forall i :: 0 <= i < |docs| && docs[i].id.Some? ==> docs[i].id.value < n
  {
    if docs == [] then 0
    else
      var rest := FreshId(docs[1..]);
      match docs[0].id
      case Some(v) => if v >= rest then v + 1 else rest
      case None => rest
  }
}
