/** The project pointer write and the background worker that measures snapshots
    (internal/store/postgres.go). */
module StatsQueue {
  import opened State
  import opened Stats
  import opened StatsRuns
  import opened Sums

  /** sum(octet_length(b.content)) over the joined rows. */
  method ScanBytes(db: Db, names: set<string>) returns (total: int)
    ensures total == Bytes(db, names)
  {
    var rest := Stored(db, names);
    total := 0;
    while rest != {}
      invariant rest <= Stored(db, names)
      invariant Bytes(db, names) == total + Sum(rest, SizeOf(db))
    {
      var n :| n in rest;
      SumPick(rest, SizeOf(db), n);
      total := total + db.blobs[n].size;
      rest := rest - {n};
    }
  }

  /** The difference query, added to the base's numbers. */
  method MeasureDelta(db: Db, model: string, bst: Aggregate, baseNames: set<string>, names: set<string>)
    returns (st: Aggregate)
    ensures st == Delta(db, model, bst, baseNames, names)
  {
    var added, removed := names - baseNames, baseNames - names;
    var ab, rb := LogicalPaths(db, added), LogicalPaths(db, removed);
    var dFiles := |ab - rb| - |rb - ab|;
    var addedBytes := ScanBytes(db, added);
    var removedBytes := ScanBytes(db, removed);
    var rmChunks := |ChunksIn(db, removed)|;
    st := Aggregate(bst.files + dFiles, bst.bytes + (addedBytes - removedBytes),
                    bst.chunks - rmChunks + |ChunksIn(db, added)|,
                    bst.embedded - rmChunks + |EmbeddedIn(db, model, added)|);
  }

  /** The full aggregate query. */
  method MeasureFull(db: Db, model: string, names: set<string>) returns (st: Aggregate)
    ensures st == Full(db, model, names)
  {
    var bytes := ScanBytes(db, names);
    st := Aggregate(|LogicalPaths(db, names)|, bytes, |ChunksIn(db, names)|, |EmbeddedIn(db, model, names)|);
  }

  class SnapshotStats {
    var db: Db
    /** statsPending: snapshot id -> model id. */
    var pending: map<string, string>

    constructor (db: Db)
      ensures this.db == db && pending == map[]
    {
      this.db := db;
      pending := map[];
    }

    /** queueSnapshotStats. Queueing a pending snapshot replaces its model. */
    method QueueSnapshotStats(id: string, model: string)
      modifies this`pending
      ensures pending == old(pending)[id := model]
    {
      pending := pending[id := model];
    }

    /** The loop over the seeded models. */
    method QueueSeeds(seeds: map<(string, string), StatRow>, id: string)
      requires forall k :: k in seeds ==> k.0 == id
      modifies this`pending
      ensures seeds == map[] ==> pending == old(pending)
      ensures seeds != map[] ==>
                id in pending && pending == old(pending)[id := pending[id]] && (id, pending[id]) in seeds
    {
      var rest, done := seeds.Keys, {};
      while rest != {}
        invariant rest !! done && rest + done == seeds.Keys
        invariant done == {} ==> pending == old(pending)
        invariant done != {} ==> id in pending && pending == old(pending)[id := pending[id]] && (id, pending[id]) in done
      {
        var k :| k in rest;
        QueueSnapshotStats(id, k.1);
        assert k == (id, pending[id]);
        rest, done := rest - {k}, done + {k};
      }
    }

    /** SaveACEProject: the pointer and its seeds are written, and of several seeded
        models one stays queued: all are queued exactly when at most one was seeded. */
    method SaveACEProject(key: RowKey, id: string)
      modifies this
      ensures db == Saved(old(db), key, id)
      ensures SeedsOf(old(db), key, id) == map[] ==> pending == old(pending)
      ensures SeedsOf(old(db), key, id) != map[] ==>
                && id in pending && pending == old(pending)[id := pending[id]]
                && (id, pending[id]) in SeedsOf(old(db), key, id)
      ensures AllQueued(SeedsOf(old(db), key, id), id, pending) <==> |SeedsOf(old(db), key, id)| <= 1
    {
      var seeds := SeedsOf(db, key, id);
      db := Saved(db, key, id);
      QueueSeeds(seeds, id);
      QueuedExactly(seeds, id, pending);
    }

    /** refreshSnapshotStats. */
    method RefreshSnapshotStats(id: string, model: string)
      modifies this`db
      ensures db == Refreshed(old(db), id, model)
    {
      if Usable(db, id, model) {
        var base := db.stats[(id, model)].base;
        var st := MeasureDelta(db, model, db.stats[(base, model)].agg, NamesIn(db, base), NamesIn(db, id));
        db := WithRow(db, id, model, st);
      } else if id in db.snapshots {
        var st := MeasureFull(db, model, NamesIn(db, id));
        db := WithRow(db, id, model, st);
      }
    }

    /** drainSnapshotStats, run to the end: nothing is pending, and every snapshot
        that was has an exact row for the model queued with it. */
    method DrainSnapshotStats(ghost whole: bool)
      requires Sound(db, whole)
      modifies this
      ensures pending == map[] && Sound(db, whole) && db == old(db).(stats := db.stats)
      ensures forall id :: id in old(pending) && id in db.snapshots ==> Exact(db, id, old(pending)[id], whole)
      ensures forall k :: k in old(db).stats && old(db).stats[k].complete ==>
                k in db.stats && SameRow(db.stats[k], old(db).stats[k], whole)
    {
      while pending != map[]
        invariant Sound(db, whole) && db == old(db).(stats := db.stats)
        invariant forall id :: id in pending ==> id in old(pending) && pending[id] == old(pending)[id]
        invariant forall id :: id in old(pending) && id !in pending && id in db.snapshots ==> Exact(db, id, old(pending)[id], whole)
        invariant forall k :: k in old(db).stats && old(db).stats[k].complete ==>
                k in db.stats && SameRow(db.stats[k], old(db).stats[k], whole)
        decreases |pending|
      {
        assert pending.Keys != {};
        var id :| id in pending;
        var model := pending[id];
        assert |pending - {id}| < |pending| by { assert (pending - {id}).Keys == pending.Keys - {id}; }
        pending := pending - {id};
        MeasureOne(id, model, whole);
      }
    }

    /** One turn of the worker. */
    method MeasureOne(id: string, model: string, ghost whole: bool)
      requires Sound(db, whole)
      modifies this`db
      ensures Sound(db, whole) && db == old(db).(stats := db.stats) && (id in db.snapshots ==> Exact(db, id, model, whole))
      ensures forall s, m :: Exact(old(db), s, m, whole) ==> Exact(db, s, m, whole)
      ensures forall k :: k in old(db).stats && old(db).stats[k].complete ==>
                k in db.stats && SameRow(db.stats[k], old(db).stats[k], whole)
    {
      RefreshKeepsSound(db, id, model, whole);
      KeptByRefresh(db, id, model, whole);
      if id in db.snapshots { RefreshIsExact(db, id, model, whole); }
      RefreshSnapshotStats(id, model);
    }
  }

  /** Every seeded model is queued for the snapshot. */
  ghost predicate AllQueued(seeds: map<(string, string), StatRow>, id: string, pending: map<string, string>) {
    forall k :: k in seeds ==> id in pending && pending[id] == k.1
  }

  /** One of the seeded models is queued, so all are exactly when there is no second. */
  lemma QueuedExactly(seeds: map<(string, string), StatRow>, id: string, pending: map<string, string>)
    requires forall k :: k in seeds ==> k.0 == id
    requires seeds != map[] ==> id in pending && (id, pending[id]) in seeds
    ensures AllQueued(seeds, id, pending) <==> |seeds| <= 1
  {
    if seeds != map[] {
      var k := (id, pending[id]);
      assert seeds.Keys == {k} + (seeds.Keys - {k});
      if AllQueued(seeds, id, pending) {
        forall x | x in seeds ensures x == k {}
        assert seeds.Keys - {k} == {};
      } else {
        var x :| x in seeds && !(id in pending && pending[id] == x.1);
        assert x in seeds.Keys - {k};
      }
    }
  }

  /** A row on snapshot "s", which is measured for two models, moves to "t". */
  function TwoModels(key: RowKey, agg: Aggregate): Db {
    var row := StatRow(agg, true, "");
    Db(map[], map[], {}, {}, map["s" := {}, "t" := {}], map[key := "s"], map[("s", "m") := row, ("s", "n") := row])
  }

  /** Then two models are seeded and no queue holds both. */
  lemma SecondModelIsLost(key: RowKey, agg: Aggregate, pending: map<string, string>)
    ensures |SeedsOf(TwoModels(key, agg), key, "t")| == 2
    ensures !AllQueued(SeedsOf(TwoModels(key, agg), key, "t"), "t", pending)
  {
    var db := TwoModels(key, agg);
    var seeds, a, b := SeedsOf(db, key, "t"), ("t", "m"), ("t", "n");
    assert "s"[0] != "t"[0] && "m"[0] != "n"[0];
    assert ("s", "m") in db.stats && ("s", "n") in db.stats;
    assert seeds.Keys == {a, b};
    assert a in seeds && b in seeds;
  }

  lemma KeptByRefresh(db: Db, id: string, model: string, whole: bool)
    requires Sound(db, whole)
    ensures forall s, m :: Exact(db, s, m, whole) ==> Exact(Refreshed(db, id, model), s, m, whole)
    ensures forall k :: k in db.stats && db.stats[k].complete ==>
              k in Refreshed(db, id, model).stats && SameRow(Refreshed(db, id, model).stats[k], db.stats[k], whole)
  {
    forall s, m | Exact(db, s, m, whole) ensures Exact(Refreshed(db, id, model), s, m, whole) {
      RefreshKeepsExact(db, id, model, (s, m), whole);
    }
    forall k | k in db.stats && db.stats[k].complete
      ensures k in Refreshed(db, id, model).stats && SameRow(Refreshed(db, id, model).stats[k], db.stats[k], whole)
    {
      assert Exact(db, k.0, k.1, whole);
      RefreshKeepsExact(db, id, model, k, whole);
    }
  }
}
