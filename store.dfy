/** The vector collection the points go into: a map from point id to vector
    and payload, with the vector size the collection was created with.
    Upserting a batch writes its points in order, each replacing any point
    of the same id. */
module Store {
  import opened Results
  import opened Points

  /** The vector size the collection is created with. */
  const Dimension: nat := 1536

  /** The failure texts of the store calls. */
  const Unreachable: string := "cannot reach the vector store"
  const WrongDimension: string := "vector dimension error"

  datatype Entry = Entry(vector: Vector, payload: Payload)

  function EntryOf(p: Point): Entry
  {
    Entry(p.vector, p.payload)
  }

  /** The collection after the batch is written into it in order. */
  function UpsertAll(records: map<PointId, Entry>, batch: seq<Point>): map<PointId, Entry>
    decreases |batch|
  {
    if batch == [] then records
    else UpsertAll(records[batch[0].id := EntryOf(batch[0])], batch[1..])
  }

  /** Every point of the batch has a vector of the given size. */
  predicate Conforms(batch: seq<Point>, dim: nat)
  {
    forall i :: 0 <= i < |batch| ==> |batch[i].vector| == dim
  }

  predicate DistinctIds(batch: seq<Point>)
  {
    forall i, j :: 0 <= i < j < |batch| ==> batch[i].id != batch[j].id
  }

  /** No point of the batch reuses an id already in the collection. */
  predicate FreshIds(records: map<PointId, Entry>, batch: seq<Point>)
  {
    forall i :: 0 <= i < |batch| ==> batch[i].id !in records
  }

  function IdsOf(batch: seq<Point>): set<PointId>
  {
    set p | p in batch :: p.id
  }

  /** Upserting leaves the ids of the collection and of the batch. */
  lemma {:induction false} UpsertKeys(records: map<PointId, Entry>, batch: seq<Point>)
    ensures UpsertAll(records, batch).Keys == records.Keys + IdsOf(batch)
    decreases |batch|
  {
    if batch != [] {
      var m := records[batch[0].id := EntryOf(batch[0])];
      UpsertKeys(m, batch[1..]);
      assert batch == [batch[0]] + batch[1..];
      assert IdsOf(batch) == {batch[0].id} + IdsOf(batch[1..]);
    }
  }

  /** A record whose id the batch does not use is left as it was. */
  lemma {:induction false} UpsertUntouched(records: map<PointId, Entry>, batch: seq<Point>, k: PointId)
    requires k in records && k !in IdsOf(batch)
    ensures k in UpsertAll(records, batch) && UpsertAll(records, batch)[k] == records[k]
    decreases |batch|
  {
    if batch != [] {
      var m := records[batch[0].id := EntryOf(batch[0])];
      assert batch[0] in batch;
      assert IdsOf(batch[1..]) <= IdsOf(batch) by {
        forall p | p in batch[1..] ensures p in batch { }
      }
      UpsertUntouched(m, batch[1..], k);
    }
  }

  /** With distinct ids, every point of the batch is stored as given. */
  lemma {:induction false} UpsertStores(records: map<PointId, Entry>, batch: seq<Point>, i: nat)
    requires DistinctIds(batch) && i < |batch|
    ensures batch[i].id in UpsertAll(records, batch)
    ensures UpsertAll(records, batch)[batch[i].id] == EntryOf(batch[i])
    decreases |batch|
  {
    var p := batch[0];
    var rest := batch[1..];
    var m := records[p.id := EntryOf(p)];
    assert DistinctIds(rest) by {
      forall a, b | 0 <= a < b < |rest|
        ensures rest[a].id != rest[b].id
      {
        assert rest[a] == batch[a + 1] && rest[b] == batch[b + 1];
      }
    }
    if i == 0 {
      assert p.id !in IdsOf(rest) by {
        forall q | q in rest ensures q.id != p.id {
          var j :| 0 <= j < |rest| && rest[j] == q;
          assert q == batch[j + 1];
        }
      }
      UpsertUntouched(m, rest, p.id);
    } else {
      assert batch[i] == rest[i - 1];
      UpsertStores(m, rest, i - 1);
    }
  }

  /** With distinct ids new to the collection, the collection grows by
      exactly one record per point. */
  lemma {:induction false} UpsertGrows(records: map<PointId, Entry>, batch: seq<Point>)
    requires DistinctIds(batch) && FreshIds(records, batch)
    ensures |UpsertAll(records, batch)| == |records| + |batch|
    decreases |batch|
  {
    if batch != [] {
      var p := batch[0];
      var rest := batch[1..];
      var m := records[p.id := EntryOf(p)];
      assert FreshIds(m, rest) by {
        forall i | 0 <= i < |rest|
          ensures rest[i].id !in m
        {
          assert rest[i] == batch[i + 1];
        }
      }
      assert DistinctIds(rest) by {
        forall i, j | 0 <= i < j < |rest|
          ensures rest[i].id != rest[j].id
        {
          assert rest[i] == batch[i + 1] && rest[j] == batch[j + 1];
        }
      }
      UpsertGrows(m, rest);
    }
  }

  /** Upserting a batch of new, distinct ids adds exactly the batch: the
      collection grows by one record per point, each point is stored as
      given, and the records already there are left as they were. */
  lemma {:induction false} UpsertFresh(records: map<PointId, Entry>, batch: seq<Point>)
    requires DistinctIds(batch) && FreshIds(records, batch)
    ensures var r := UpsertAll(records, batch);
            r.Keys == records.Keys + IdsOf(batch) &&
            |r| == |records| + |batch| &&
            (forall k :: k in records ==> r[k] == records[k]) &&
            (forall i :: 0 <= i < |batch| ==> r[batch[i].id] == EntryOf(batch[i]))
  {
    UpsertKeys(records, batch);
    UpsertGrows(records, batch);
    forall k | k in records
      ensures UpsertAll(records, batch)[k] == records[k]
    {
      assert k !in IdsOf(batch);
      UpsertUntouched(records, batch, k);
    }
    forall i | 0 <= i < |batch|
      ensures UpsertAll(records, batch)[batch[i].id] == EntryOf(batch[i])
    {
      UpsertStores(records, batch, i);
    }
  }

  /** Consecutive ids from first on are pairwise distinct, and new to a
      collection whose ids are all below first. */
  lemma NumberedIds(records: map<PointId, Entry>, batch: seq<Point>, first: PointId)
    requires forall k :: k in records ==> k < first
    requires forall i :: 0 <= i < |batch| ==> batch[i].id == first + i
    ensures DistinctIds(batch) && FreshIds(records, batch)
  {
  }

  /** The ids a numbered batch adds are the ones from first on. */
  lemma NumberedNewKeys(records: map<PointId, Entry>, batch: seq<Point>, first: PointId)
    requires forall i :: 0 <= i < |batch| ==> batch[i].id == first + i
    ensures forall k :: k in UpsertAll(records, batch) ==> k in records || first <= k < first + |batch|
  {
    UpsertKeys(records, batch);
    forall k | k in UpsertAll(records, batch)
      ensures k in records || first <= k < first + |batch|
    {
      if k !in records {
        assert k in IdsOf(batch);
        var p :| p in batch && p.id == k;
        var i :| 0 <= i < |batch| && batch[i] == p;
      }
    }
  }

  /** A batch numbered consecutively from first, upserted into a collection
      whose ids are all below first, adds exactly its points. */
  lemma {:induction false} UpsertNumbered(records: map<PointId, Entry>, batch: seq<Point>, first: PointId)
    requires forall k :: k in records ==> k < first
    requires forall i :: 0 <= i < |batch| ==> batch[i].id == first + i
    ensures |UpsertAll(records, batch)| == |records| + |batch|
    ensures forall k :: k in records ==> k in UpsertAll(records, batch) && UpsertAll(records, batch)[k] == records[k]
    ensures forall i :: 0 <= i < |batch| ==>
              batch[i].id !in records && batch[i].id in UpsertAll(records, batch) &&
              UpsertAll(records, batch)[batch[i].id] == EntryOf(batch[i])
    ensures forall k :: k in UpsertAll(records, batch) ==> k in records || first <= k < first + |batch|
  {
    NumberedIds(records, batch, first);
    UpsertFresh(records, batch);
    NumberedNewKeys(records, batch, first);
  }

  /** Upserting never drops an id, and keeps every record at the size dim
      when the batch has that size. */
  lemma {:induction false} UpsertKeeps(records: map<PointId, Entry>, batch: seq<Point>, dim: nat)
    ensures records.Keys <= UpsertAll(records, batch).Keys
    ensures (forall k :: k in records ==> |records[k].vector| == dim) && Conforms(batch, dim) ==>
              forall k :: k in UpsertAll(records, batch) ==> |UpsertAll(records, batch)[k].vector| == dim
    decreases |batch|
  {
    if batch != [] {
      var m := records[batch[0].id := EntryOf(batch[0])];
      assert Conforms(batch, dim) ==> Conforms(batch[1..], dim) by {
        if Conforms(batch, dim) {
          forall i | 0 <= i < |batch[1..]|
            ensures |batch[1..][i].vector| == dim
          {
            assert batch[1..][i] == batch[i + 1];
          }
        }
      }
      UpsertKeeps(m, batch[1..], dim);
    }
  }

  /** The texts of the first limit points in ranking order that are in the
      collection; the ranking stands for the store's similarity order. */
  function TopTexts(records: map<PointId, Entry>, ranking: seq<PointId>, limit: nat): (texts: seq<string>)
    ensures |texts| <= limit
    ensures records == map[] ==> texts == []
    ensures forall i :: 0 <= i < |texts| ==> exists k :: k in records && records[k].payload.text == texts[i]
    decreases |ranking|
  {
    if limit == 0 || ranking == [] then []
    else if ranking[0] in records then
      [records[ranking[0]].payload.text] + TopTexts(records, ranking[1..], limit - 1)
    else TopTexts(records, ranking[1..], limit)
  }

  /** The collection. Its records all have the size it was created with. */
  class VectorStore {
    const dimension: nat
    var records: map<PointId, Entry>

    ghost predicate Valid()
      reads this
    {
      forall k :: k in records ==> |records[k].vector| == dimension
    }

    /** (Re)creating the collection: empty, with the given vector size. */
    constructor (dimension: nat)
      ensures Valid() && this.dimension == dimension && records == map[]
    {
      this.dimension := dimension;
      records := map[];
    }

    /** A blocking upsert. It fails, writing nothing, when the store cannot
        be reached or a vector does not have the collection's size. */
    method Upsert(batch: seq<Point>, reachable: bool) returns (o: Outcome)
      requires Valid()
      modifies this
      ensures Valid()
      ensures o.Pass? <==> reachable && Conforms(batch, dimension)
      ensures o.Fail? ==> o.error == if reachable then WrongDimension else Unreachable
      ensures records == if o.Pass? then UpsertAll(old(records), batch) else old(records)
    {
      if !reachable {
        return Fail(Unreachable);
      }
      if !Conforms(batch, dimension) {
        return Fail(WrongDimension);
      }
      UpsertKeeps(records, batch, dimension);
      records := UpsertAll(records, batch);
      o := Pass;
    }

    /** A nearest-neighbour query. It fails when the store cannot be reached
        or the query vector does not have the collection's size. */
    method Search(query: Vector, limit: nat, ranking: seq<PointId>, reachable: bool)
      returns (r: Result<seq<string>>)
      ensures r.Success? <==> reachable && |query| == dimension
      ensures r.Failure? ==> r.error == if reachable then WrongDimension else Unreachable
      ensures r.Success? ==> r.value == TopTexts(records, ranking, limit)
    {
      if !reachable {
        return Failure(Unreachable);
      }
      if |query| != dimension {
        return Failure(WrongDimension);
      }
      r := Success(TopTexts(records, ranking, limit));
    }
  }

  /** Start-up: the collection is recreated empty, for vectors of size 1536,
      dropping whatever it held before. */
  method RecreateCollection() returns (store: VectorStore)
    ensures fresh(store) && store.Valid()
    ensures store.dimension == 1536 && store.records == map[]
  {
    store := new VectorStore(Dimension);
  }
}
