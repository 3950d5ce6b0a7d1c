/** path-gc.go */
module Gc {
  import opened Paths
  import opened Records
  import opened Listings
  import opened Operations
  import opened Vault
  import opened Entries
  import opened Clusters
  import opened Recovery
  import opened Footprint

  function DisabledClusters(g: Config): set<string> { set c | c in g.clusters && g.clusters[c].disabled }
  function DisabledDbs(g: Config, c: string): set<string> { set d | d in DbNames(g, c) && g.DisabledDb(DbId(c, d)) }

  method ListDisabledClusters(storage: Storage) returns (r: Outcome<seq<string>>)
    requires storage.Valid()
    modifies storage`calls, storage`failures
    ensures r == Failed(StorageError) || (r.Done? && Listing(r.value, DisabledClusters(storage.Now())))
    ensures r.Done? ==> forall c :: c in r.value <==> storage.Now().DisabledCluster(c)
    ensures storage.failures == old(storage.failures) ==> r != Failed(StorageError)
  {
    ghost var keep := DisabledClusters(storage.Now());
    ClustersListed(storage);
    var listed := storage.List(ClusterKey(""));
    if listed.Err? { return Failed(StorageError); }
    var clusters, results := listed.value, [];
    var i := 0;
    while i < |clusters|
      invariant i <= |clusters| && storage.failures == old(storage.failures)
      invariant Filtered(results, clusters, i, keep)
    {
      FilterNext(results, clusters, i, keep);
      var listed := ToBeListed(storage, clusters[i], true);
      if listed.Failed? { return Failed(listed.error); }
      if listed.value {
        results := results + [clusters[i]];
      }
      i := i + 1;
    }
    FilterDone(results, clusters, keep);
    r := Done(results);
  }

  function GcReadCluster(g: Config, c: string): Outcome<ClusterRecord> {
    if c !in g.clusters then Refused(ClusterMissing)
    else if !g.clusters[c].disabled then Refused(ClusterNotMarked)
    else Done(g.clusters[c])
  }

  method GcGetCluster(storage: Storage, clusterName: Name) returns (r: Outcome<ClusterRecord>)
    requires storage.Valid()
    modifies storage`calls, storage`failures
    ensures r == Failed(StorageError) || r == GcReadCluster(storage.Now(), clusterName)
    ensures r.Done? ==>
      storage.Now().DisabledCluster(clusterName) && r.value == storage.Now().clusters[clusterName]
    ensures storage.failures == old(storage.failures) ==> r != Failed(StorageError)
  {
    var loaded := LoadClusterEntry(storage, clusterName);
    if loaded == Failed(NotFound) { return Refused(ClusterMissing); }
    if loaded.Failed? { return Failed(loaded.error); }
    if !loaded.value.disabled { return Refused(ClusterNotMarked); }
    r := Done(loaded.value.Value());
  }

  method ListDisabledDatabases(storage: Storage, cluster: Name) returns (r: Outcome<seq<string>>)
    requires storage.Valid()
    modifies storage`calls, storage`failures
    ensures r == Failed(StorageError) || (r.Done? && Listing(r.value, DisabledDbs(storage.Now(), cluster)))
    ensures r.Done? ==> forall d :: d in r.value <==> storage.Now().DisabledDb(DbId(cluster, d))
    ensures storage.failures == old(storage.failures) ==> r != Failed(StorageError)
  {
    ghost var keep := DisabledDbs(storage.Now(), cluster);
    DatabasesListed(storage, cluster);
    var listed := storage.List(DatabaseKey(cluster, ""));
    if listed.Err? { return Failed(StorageError); }
    var entries, results := listed.value, [];
    var i := 0;
    while i < |entries|
      invariant i <= |entries| && storage.failures == old(storage.failures)
      invariant Filtered(results, entries, i, keep)
    {
      FilterNext(results, entries, i, keep);
      ListingOfDbs(storage.Now(), cluster, entries, entries[i]);
      var loaded := LoadDbEntry(storage, cluster, entries[i]);
      if loaded.Failed? { return Failed(loaded.error); }
      if loaded.value.disabled {
        results := results + [entries[i]];
      }
      i := i + 1;
    }
    FilterDone(results, entries, keep);
    forall d ensures d in keep <==> storage.Now().DisabledDb(DbId(cluster, d)) { InDbNames(storage.Now(), cluster, d); }
    r := Done(results);
  }

  function GcReadDb(g: Config, id: DbId): Outcome<DbRecord> {
    if id !in g.dbs then Refused(DatabaseMissing)
    else if !g.dbs[id].disabled then Refused(DatabaseNotMarked)
    else Done(g.dbs[id])
  }

  /** Does not look at the cluster's record. */
  method GcGetDatabase(storage: Storage, cn: Name, dn: Name) returns (r: Outcome<DbRecord>)
    requires storage.Valid()
    modifies storage`calls, storage`failures
    ensures r == Failed(StorageError) || r == GcReadDb(storage.Now(), DbId(cn, dn))
    ensures r.Done? ==> storage.Now().DisabledDb(DbId(cn, dn)) && r.value == storage.Now().dbs[DbId(cn, dn)]
    ensures storage.failures == old(storage.failures) ==> r != Failed(StorageError)
  {
    var loaded := LoadDbEntry(storage, cn, dn);
    if loaded == Failed(NotFound) { return Refused(DatabaseMissing); }
    if loaded.Failed? { return Failed(loaded.error); }
    if !loaded.value.disabled { return Refused(DatabaseNotMarked); }
    r := Done(loaded.value.Value());
  }

  method GcPurgeDatabase(storage: Storage, cn: Name, dn: Name)
    returns (r: Outcome<()>, ghost op: Op, ghost ws: seq<Write>)
    requires storage.Valid()
    modifies storage`data, storage`calls, storage`failures, storage`unacked, storage`log, storage`now
    ensures storage.Valid() && storage.log == old(storage.log) + ws && storage.Now() == ApplyAll(old(storage.Now()), ws)
    ensures op == PurgeDb(DbId(cn, dn))
    ensures r.Done? ==> old(storage.Now()).DisabledDb(DbId(cn, dn)) && DbId(cn, dn) !in storage.Now().dbs
    ensures OnlyDb(old(storage.Now()), storage.Now(), DbId(cn, dn))
    ensures Handled(old(storage.Now()), op, ws, r, storage.failures == old(storage.failures))
    ensures old(storage.Sound()) ==> storage.Sound()
  {
    storage.Replay();
    ghost var g, log := storage.Now(), storage.log;
    op, ws := PurgeDb(DbId(cn, dn)), [];
    var entry := LoadDbEntry(storage, cn, dn);
    if entry == Failed(NotFound) { return Refused(DatabaseMissing), op, ws; }
    if entry.Failed? { return Failed(entry.error), op, ws; }
    if !entry.value.disabled { return Refused(DatabaseNotMarked), op, ws; }
    var acked;
    acked, ws := storage.Delete(DatabaseKey(cn, dn), DelDb(DbId(cn, dn)));
    r := if acked then Done(()) else Failed(StorageError);
    if ws != [] { ApplyOne(g, ws[0]); }
    StaysSound(g, log, op, ws);
  }

  /** Purges the databases of a deleted cluster, then the cluster. A cluster that is not there is an error, not a
      refusal. */
  method GcPurgeCluster(storage: Storage, cn: Name)
    returns (r: Outcome<()>, ghost op: Op, ghost ws: seq<Write>)
    requires storage.Valid()
    modifies storage`data, storage`calls, storage`failures, storage`unacked, storage`log, storage`now
    ensures storage.Valid() && storage.log == old(storage.log) + ws && storage.Now() == ApplyAll(old(storage.Now()), ws)
    ensures op.PurgeCluster? && op.c == cn
    ensures Handled(old(storage.Now()), op, ws, r, storage.failures == old(storage.failures))
    ensures old(storage.Sound()) ==> storage.Sound()
    ensures old(storage.Sound()) ==>
      NeverStuck(old(storage.Now()), cn, storage.Now(), r, storage.failures == old(storage.failures))
    ensures old(storage.Sound() && storage.Now().DisabledCluster(cn)) && storage.failures == old(storage.failures) ==>
      Erased(old(storage.data), storage.data, cn)
    ensures old(storage.Counted()) ==> storage.Counted() && storage.calls > old(storage.calls)
  {
    ghost var order := SomeListing(DbNames(storage.Now(), cn));
    op, ws := PurgeCluster(cn, order), [];
    var cluster := LoadClusterEntry(storage, cn);
    if cluster == Failed(StorageError) { return Failed(StorageError), op, ws; }
    if cluster.Failed? { return Failed(cluster.error), op, ws; }
    if !cluster.value.disabled { return Refused(ClusterNotMarked), op, ws; }
    r, op, ws := PurgeDeleted(storage, cn);
  }

  /** The rest of a purge, once the cluster is known to be deleted. */
  method PurgeDeleted(storage: Storage, cn: Name)
    returns (r: Outcome<()>, ghost op: Op, ghost ws: seq<Write>)
    requires storage.Valid() && storage.Now().DisabledCluster(cn)
    modifies storage`data, storage`calls, storage`failures, storage`unacked, storage`log, storage`now
    ensures storage.Valid() && storage.log == old(storage.log) + ws && storage.Now() == ApplyAll(old(storage.Now()), ws)
    ensures op.PurgeCluster? && op.c == cn
    ensures Handled(old(storage.Now()), op, ws, r, storage.failures == old(storage.failures))
    ensures old(storage.Sound()) ==> storage.Sound()
    ensures old(storage.Sound()) ==>
      NeverStuck(old(storage.Now()), cn, storage.Now(), r, storage.failures == old(storage.failures))
    ensures old(storage.Sound()) && storage.failures == old(storage.failures) ==>
      Erased(old(storage.data), storage.data, cn)
    ensures old(storage.Counted()) ==> storage.Counted() && storage.calls > old(storage.calls)
  {
    storage.Replay();
    ghost var g, log := storage.Now(), storage.log;
    ghost var order := SomeListing(DbNames(g, cn));
    op, ws := PurgeCluster(cn, order), [];
    DatabasesListed(storage, cn);
    var listed := storage.List(DatabaseKey(cn, ""));
    if listed.Err? {
      PurgePlanStarts(g, cn, order);
      return Failed(StorageError), op, ws;
    }
    var databases := listed.value;
    op := PurgeCluster(cn, databases);
    PurgePlanOf(g, cn, databases);
    r, ws := DropCascade(storage, cn, databases);
    StaysSound(g, log, op, ws);
    PurgeConcludes(g, log, op, ws, r, storage.failures == old(storage.failures));
    if storage.Now() == Purged(g, cn) {
      PurgeErases(old(storage.data), g, log, storage.data, storage.Now(), storage.log, cn);
    }
  }

  /** From a storage whose writes all kept to the protocol no live database ever stops a purge, and a purge of a
      deleted cluster that meets no failing call leaves nothing of it and everything else as it was. */
  ghost predicate NeverStuck(before: Config, c: string, after: Config, r: Outcome<()>, calm: bool) {
    && r != Refused(DatabaseNotMarked)
    && (calm && before.DisabledCluster(c) ==> r.Done? && after == Purged(before, c))
  }

  lemma PurgeConcludes(g: Config, log: seq<Write>, op: Op, ws: seq<Write>, r: Outcome<()>, calm: bool)
    requires g == ApplyAll(EMPTY, log) && op.PurgeCluster? && Handled(g, op, ws, r, calm) && g.DisabledCluster(op.c)
    ensures Kept(log) ==> NeverStuck(g, op.c, ApplyAll(g, ws), r, calm)
  {
    if Kept(log) {
      KeptIsInv(log);
      PurgeCompletes(g, op.c, op.order);
    }
  }

  lemma PurgePlanStarts(g: Config, c: string, order: seq<string>)
    ensures [] <= Plan(g, PurgeCluster(c, order))
  {}

  /** What a purge of a deleted cluster writes and answers, given the listing. */
  function PurgeWrites(g: Config, c: string, order: seq<string>): seq<Write> {
    var k := FirstLive(g, c, order);
    DropWrites(c, order[..k]) + if k < |order| then [] else [DelCluster(c)]
  }

  function PurgeAnswer(g: Config, c: string, order: seq<string>): Outcome<()> {
    if FirstLive(g, c, order) < |order| then Refused(DatabaseNotMarked) else Done(())
  }

  /** The databases first, the cluster last: an interruption never leaves a database without its cluster. */
  method DropCascade(storage: Storage, cn: Name, databases: seq<string>)
    returns (r: Outcome<()>, ghost ws: seq<Write>)
    requires storage.Valid() && Listing(databases, DbNames(storage.Now(), cn))
    modifies storage`data, storage`calls, storage`failures, storage`unacked, storage`log, storage`now
    ensures storage.Valid() && storage.log == old(storage.log) + ws && storage.Now() == ApplyAll(old(storage.Now()), ws)
    ensures ws <= PurgeWrites(old(storage.Now()), cn, databases)
    ensures r == Failed(StorageError)
      || (ws == PurgeWrites(old(storage.Now()), cn, databases) && r == PurgeAnswer(old(storage.Now()), cn, databases))
    ensures r != Failed(StorageError) <==> storage.failures == old(storage.failures)
    ensures old(storage.Counted()) ==> storage.Counted() && storage.calls >= old(storage.calls)
  {
    ghost var g := storage.Now();
    PurgeWritesAre(g, cn, databases);
    r, ws := DropAll(storage, cn, databases);
    if !r.Done? { return; }
    ghost var made;
    r, made := RemoveLast(storage, g, ws, cn);
    ws := ws + made;
  }

  /** Removes the cluster itself. */
  method RemoveLast(storage: Storage, ghost g: Config, ghost ws: seq<Write>, cn: Name)
    returns (r: Outcome<()>, ghost made: seq<Write>)
    requires storage.Valid() && storage.Now() == ApplyAll(g, ws)
    modifies storage`data, storage`calls, storage`failures, storage`unacked, storage`log, storage`now
    ensures storage.Valid() && storage.log == old(storage.log) + made && storage.Now() == ApplyAll(g, ws + made)
    ensures ws + made <= ws + [DelCluster(cn)]
    ensures r == Failed(StorageError) || (r == Done(()) && made == [DelCluster(cn)])
    ensures r != Failed(StorageError) <==> storage.failures == old(storage.failures)
    ensures old(storage.Counted()) ==> storage.Counted() && storage.calls >= old(storage.calls)
  {
    var acked;
    acked, made := storage.Delete(ClusterKey(cn), DelCluster(cn));
    LastWrite(g, ws, DelCluster(cn), made);
    r := if acked then Done(()) else Failed(StorageError);
  }

  lemma PurgeWritesAre(g: Config, c: string, order: seq<string>)
    ensures var k := FirstLive(g, c, order);
      && (k < |order| ==> PurgeWrites(g, c, order) == DropWrites(c, order[..k]))
      && (k == |order| ==> PurgeWrites(g, c, order) == DropWrites(c, order[..k]) + [DelCluster(c)])
      && DropWrites(c, order[..k]) <= PurgeWrites(g, c, order)
  {
    var ws := DropWrites(c, order[..FirstLive(g, c, order)]);
    assert ws + [] == ws;
  }

  lemma PurgePlanOf(g: Config, c: string, order: seq<string>)
    requires g.DisabledCluster(c)
    ensures Plan(g, PurgeCluster(c, order)) == PurgeWrites(g, c, order)
      && Verdict(g, PurgeCluster(c, order)) == PurgeAnswer(g, c, order)
  {
    assert order[..|order|] == order;
  }

  /** The loop of gcPurgeCluster. */
  method DropAll(storage: Storage, cn: Name, databases: seq<string>)
    returns (r: Outcome<()>, ghost ws: seq<Write>)
    requires storage.Valid() && Listing(databases, DbNames(storage.Now(), cn))
    modifies storage`data, storage`calls, storage`failures, storage`unacked, storage`log, storage`now
    ensures storage.Valid() && storage.log == old(storage.log) + ws && storage.Now() == ApplyAll(old(storage.Now()), ws)
    ensures ws <= DropWrites(cn, databases[..FirstLive(old(storage.Now()), cn, databases)])
    ensures r in {Done(()), Refused(DatabaseNotMarked), Failed(StorageError)}
    ensures r != Failed(StorageError) ==>
      ws == DropWrites(cn, databases[..FirstLive(old(storage.Now()), cn, databases)])
    ensures r != Failed(StorageError) ==> (r.Done? <==> FirstLive(old(storage.Now()), cn, databases) == |databases|)
    ensures r != Failed(StorageError) <==> storage.failures == old(storage.failures)
    ensures old(storage.Counted()) ==> storage.Counted() && storage.calls >= old(storage.calls)
  {
    ghost var g := storage.Now();
    ghost var k := FirstLive(g, cn, databases);
    ws := [];
    var i := 0;
    while i < |databases|
      invariant i <= k && storage.Valid() && storage.failures == old(storage.failures)
      invariant ws == DropWrites(cn, databases[..i])
      invariant old(storage.Counted()) ==> storage.Counted() && storage.calls >= old(storage.calls)
      invariant storage.log == old(storage.log) + ws && storage.Now() == ApplyAll(g, ws)
    {
      DropStillThere(g, cn, databases, i);
      ghost var made;
      r, made := DropDb(storage, cn, databases[i]);
      if r.Refused? { return; }
      DropRound(g, cn, databases, i, k, made);
      ws := ws + made;
      if r.Failed? { return; }
      i := i + 1;
    }
    r := Done(());
  }

  /** After i rounds the next database is as it was at the start. */
  lemma DropStillThere(g: Config, c: string, names: seq<string>, i: nat)
    requires Listing(names, DbNames(g, c)) && i < |names|
    ensures var h, id := ApplyAll(g, DropWrites(c, names[..i])), DbId(c, names[i]);
      id in h.dbs && id in g.dbs && h.dbs[id] == g.dbs[id]
  {
    DropLoop(g, c, names[..i]);
    ListingOfDbs(g, c, names, names[i]);
  }

  lemma DropRound(g: Config, c: string, names: seq<string>, i: nat, k: nat, made: seq<Write>)
    requires i <= k <= |names| && i < |names| && (made == [] || (i < k && made == [DelDb(DbId(c, names[i]))]))
    ensures var ws := DropWrites(c, names[..i]);
      && ApplyAll(g, ws + made) == ApplyAll(ApplyAll(g, ws), made)
      && ws + made <= DropWrites(c, names[..k])
      && (made != [] ==> ws + made == DropWrites(c, names[..i + 1]))
  {
    var ws := DropWrites(c, names[..i]);
    ApplyConcat(g, ws, made);
    assert ws + [] == ws;
    if made != [] { assert ws + made == DropWrites(c, names[..i + 1]); }
  }

  /** One round of the loop of gcPurgeCluster. */
  method DropDb(storage: Storage, cn: Name, dbname: string) returns (r: Outcome<()>, ghost made: seq<Write>)
    requires storage.Valid() && DbId(cn, dbname) in storage.Now().dbs
    modifies storage`data, storage`calls, storage`failures, storage`unacked, storage`log, storage`now
    ensures storage.Valid() && storage.log == old(storage.log) + made
      && storage.Now() == ApplyAll(old(storage.Now()), made)
    ensures r == Failed(StorageError)
      || r == if old(storage.Now()).dbs[DbId(cn, dbname)].disabled then Done(()) else Refused(DatabaseNotMarked)
    ensures r != Failed(StorageError) <==> storage.failures == old(storage.failures)
    ensures made == [DelDb(DbId(cn, dbname))] || (made == [] && !r.Done?)
    ensures made != [] ==> old(storage.Now()).DisabledDb(DbId(cn, dbname))
    ensures old(storage.Counted()) ==> storage.Counted() && storage.calls >= old(storage.calls)
  {
    made := [];
    var loaded := LoadDbEntry(storage, cn, dbname);
    if loaded.Failed? { return Failed(loaded.error), made; }
    if !loaded.value.disabled { return Refused(DatabaseNotMarked), made; }
    var acked;
    acked, made := storage.Delete(DatabaseKey(cn, dbname), DelDb(DbId(cn, dbname)));
    r := if acked then Done(()) else Failed(StorageError);
  }
}
