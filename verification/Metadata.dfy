/** path-metadata.go */
module Metadata {
  import opened Paths
  import opened Records
  import opened Encoding
  import opened Listings
  import opened Operations
  import opened Runs
  import opened Vault
  import opened Entries

  /** Metadata.Name */
  function NameOf(m: MetaRecord): string {
    if m.database != "" then m.cluster + "/" + m.database else m.cluster
  }

  predicate Covers(target: map<string, string>, query: map<string, string>) {
    forall k | k in query :: k in target && target[k] == query[k]
  }

  /** matchAttrs: walks the query in whatever order. */
  method MatchAttrs(target: map<string, string>, query: map<string, string>) returns (ok: bool)
    ensures ok <==> Covers(target, query)
    ensures ok <==> forall k | k in query :: k in target && target[k] == query[k]
  {
    var left := query.Keys;
    while left != {}
      invariant left <= query.Keys
      invariant forall k | k in query.Keys - left :: k in target && target[k] == query[k]
      decreases left
    {
      var k :| k in left;
      if k !in target || target[k] != query[k] { return false; }
      left := left - {k};
    }
    return true;
  }

  /** The names a lookup reports for the listed entries. */
  function Found(g: Config, folder: string, query: map<string, string>, names: seq<string>): seq<string> {
    if names == [] then [] else
    var n := |names| - 1;
    Found(g, folder, query, names[..n]) + FoundOne(g, folder, query, names[n])
  }

  function FoundOne(g: Config, folder: string, query: map<string, string>, name: string): seq<string> {
    if folder + name in g.meta && Covers(g.meta[folder + name].data, query) then [NameOf(g.meta[folder + name])] else []
  }

  method LoadMetadataEntry(storage: Storage, addr: string) returns (r: Outcome<MetaRecord>)
    requires storage.Valid()
    modifies storage`calls, storage`failures
    ensures storage.failures == old(storage.failures) + if r == Failed(StorageError) then 1 else 0
    ensures r == Failed(StorageError)
      || r == if addr in storage.Now().meta then Done(storage.Now().meta[addr]) else Failed(NotFound)
  {
    storage.Unfold();
    var entry := storage.Get(MetaKey(addr));
    r := match entry
      case Err => Failed(StorageError)
      case Ok(None) => Failed(NotFound)
      case Ok(Some(rec)) => Done(rec.meta);
  }

  lemma AddrIsKept(c: Name, d: string)
    requires '/' !in d
    ensures IsMetaAddr(MetaAddr(c, d))
  {
    var n := if d != "" then c + "-" + d else c;
    DropRoot("cluster/", n);
    DropRoot("database/", n);
    if d != "" {
      assert "database/" + c + "-" + d == "database/" + n;
      assert n[0] == c[0];
    }
  }

  /** The cluster, and the database if one is given, must be registered; deleted ones will do. */
  method CheckTarget(storage: Storage, cluster: string, database: Option<string>) returns (r: Outcome<string>)
    requires storage.Valid() && '/' !in cluster
    modifies storage`calls, storage`failures
    ensures r in {Done(MetaAddr(cluster, database.GetOr(""))), Refused(ClusterMissing), Refused(DatabaseMissing),
                  Failed(StorageError)}
    ensures r == Refused(ClusterMissing) ==> cluster !in storage.Now().clusters
    ensures r == Refused(DatabaseMissing) ==>
      cluster in storage.Now().clusters && database.Some? && DbId(cluster, database.value) !in storage.Now().dbs
    ensures r.Done? ==> IsName(cluster) && cluster in storage.Now().clusters
    ensures r.Done? && database.Some? ==> IsName(database.value) && DbId(cluster, database.value) in storage.Now().dbs
    ensures storage.failures == old(storage.failures) + if r.Failed? then 1 else 0
  {
    var c := LoadClusterEntry(storage, cluster);
    if c == Failed(NotFound) { return Refused(ClusterMissing); }
    if c.Failed? { return Failed(c.error); }
    var addr := "cluster/" + cluster;
    if database.Some? {
      var d := LoadDbEntry(storage, cluster, database.value);
      if d == Failed(NotFound) { return Refused(DatabaseMissing); }
      if d.Failed? { return Failed(d.error); }
      addr := "database/" + cluster + "-" + database.value;
    }
    r := Done(addr);
  }

  /** What an update leaves: the request's data under its id, which tells whether a database was given. */
  ghost predicate Annotated(g: Config, h: Config, id: string, cluster: string, database: Option<string>,
                            data: map<string, string>) {
    && (database.Some? <==> "database/" <= id) && (database.None? <==> "cluster/" <= id)
    && (database.Some? ==> id == "database/" + cluster + "-" + database.value)
    && (database.None? ==> id == "cluster/" + cluster)
    && id in h.meta && h.meta[id].cluster == cluster && h.meta[id].database == database.GetOr("")
    && h.meta[id].data == data && data != map[] && OnlyMeta(g, h, id)
    && cluster in g.clusters && (database.Some? ==> DbId(cluster, database.value) in g.dbs)
  }

  lemma UpdateStores(g: Config, cluster: string, database: Option<string>, data: map<string, string>)
    requires Verdict(g, WriteMeta(cluster, database, data)).Done? && database != Some("")
    ensures Annotated(g, ApplyAll(g, Plan(g, WriteMeta(cluster, database, data))),
                       MetaAddr(cluster, database.GetOr("")), cluster, database, data)
  {
    var ws := Plan(g, WriteMeta(cluster, database, data));
    ApplyOne(g, ws[0]);
    AddressSpelled(cluster, database);
  }

  lemma AddressSpelled(cluster: string, database: Option<string>)
    requires database != Some("")
    ensures var id := MetaAddr(cluster, database.GetOr(""));
      && (database.Some? <==> "database/" <= id) && (database.None? <==> "cluster/" <= id)
      && (database.Some? ==> id == "database/" + cluster + "-" + database.value)
      && (database.None? ==> id == "cluster/" + cluster)
  {
    if database.Some? {
      assert MetaAddr(cluster, database.value) == "database/" + (cluster + "-" + database.value);
      assert MetaAddr(cluster, database.value)[0] == 'd';
    } else {
      assert MetaAddr(cluster, "")[0] == 'c';
    }
  }

  /** Answers with the id of the entry. */
  method PathMetadataUpdate(storage: Storage, cluster: Option<string>, database: Option<string>,
                            data: Option<map<string, string>>)
    returns (r: Outcome<string>, ghost op: Op, ghost ws: seq<Write>)
    requires storage.Valid() && '/' !in cluster.GetOr("")
    modifies storage`data, storage`calls, storage`failures, storage`unacked, storage`log, storage`now
    ensures storage.Valid() && storage.log == old(storage.log) + ws && storage.Now() == ApplyAll(old(storage.Now()), ws)
    ensures cluster.None? ==> r == Refused(AttributeMissing) && ws == []
    ensures cluster.Some? ==>
      op == WriteMeta(cluster.value, database, data.GetOr(map[])) && Handles(old(storage.Now()), Step(op, ws))
    ensures cluster.Some? && r.Refused? ==> Verdict(old(storage.Now()), op) == Refused(r.reason) && ws == []
    ensures cluster.Some? && r.Done? ==>
      && ws == Plan(old(storage.Now()), op) && Verdict(old(storage.Now()), op).Done?
      && r.value == MetaAddr(cluster.value, database.GetOr(""))
    ensures r.Done? ==>
      Annotated(old(storage.Now()), storage.Now(), r.value, cluster.GetOr(""), database, data.GetOr(map[]))
    ensures r.Refused? ==> storage.Now() == old(storage.Now())
    ensures r.Failed? ==> r.error == StorageError && storage.failures > old(storage.failures)
    ensures old(storage.Sound()) ==> storage.Sound()
  {
    op, ws := DeleteMeta(""), [];
    storage.Replay();
    if cluster.None? { return Refused(AttributeMissing), op, ws; }
    op := WriteMeta(cluster.value, database, data.GetOr(map[]));
    r := CheckTarget(storage, cluster.value, database);
    if !r.Done? { return r, op, ws; }
    if data.None? || |data.value| < 1 { return Refused(InvalidMetadata), op, ws; }
    AddrIsKept(cluster.value, database.GetOr(""));
    UpdateStores(storage.Now(), cluster.value, database, data.value);
    r, ws := FinishWithEntry(storage, r.value, MetaRecord(cluster.value, database.GetOr(""), data.value), op);
  }

  /** Stores an entry where that is all a request has left to do. */
  method FinishWithEntry(storage: Storage, addr: string, entry: MetaRecord, ghost op: Op)
    returns (r: Outcome<string>, ghost ws: seq<Write>)
    requires storage.Valid() && Legal(storage.Now(), op) && IsMetaAddr(addr)
    requires Plan(storage.Now(), op) == [PutMeta(addr, entry)]
    modifies storage`data, storage`calls, storage`failures, storage`unacked, storage`log, storage`now
    ensures storage.Valid() && storage.log == old(storage.log) + ws && storage.Now() == ApplyAll(old(storage.Now()), ws)
    ensures Handles(old(storage.Now()), Step(op, ws))
    ensures r in {Done(addr), Failed(StorageError)} && (r.Done? ==> ws == Plan(old(storage.Now()), op))
    ensures r.Failed? ==> storage.failures > old(storage.failures)
    ensures old(storage.Sound()) ==> storage.Sound()
  {
    storage.Replay();
    ghost var g, log := storage.Now(), storage.log;
    var acked;
    acked, ws := storage.Put(MetaKey(addr), MetaRec(entry), PutMeta(addr, entry));
    r := if acked then Done(addr) else Failed(StorageError);
    StaysSound(g, log, op, ws);
  }

  lemma MetaListed(storage: Storage, folder: string)
    requires storage.Valid() && folder in {"cluster/", "database/"}
    ensures Children(storage.data.Keys, MetaKey(folder)) == MetaNames(storage.Now(), folder)
  {
    storage.Unfold();
    MetaListing(storage.data, folder);
    HoldsIsView(storage.data, storage.Now());
  }

  /** What is wrong with a lookup request, if anything. */
  function LookupRefusal(hasDatabase: bool, hasCluster: bool, target: Option<string>,
                         data: Option<map<string, string>>): Option<Reason> {
    if hasDatabase || hasCluster then Some(AttributeNotSupported)
    else if target.None? then Some(AttributeMissing)
    else if target.value != "cluster" && target.value != "database" then Some(InvalidType)
    else if data.None? || data.value == map[] then Some(InvalidMetadata)
    else None
  }

  /** Looks up the clusters, or the databases, whose metadata contains the query. */
  method PathMetadataRead(storage: Storage, hasDatabase: bool, hasCluster: bool, target: Option<string>,
                          data: Option<map<string, string>>)
    returns (r: Outcome<seq<string>>, ghost order: seq<string>)
    requires storage.Valid()
    modifies storage`calls, storage`failures
    ensures r.Failed? ==> r.error == StorageError && storage.failures > old(storage.failures)
    ensures r.Refused? ==> LookupRefusal(hasDatabase, hasCluster, target, data) == Some(r.reason)
    ensures r.Done? ==> LookupRefusal(hasDatabase, hasCluster, target, data) == None
    ensures hasDatabase || hasCluster <==> r == Refused(AttributeNotSupported)
    ensures !hasDatabase && !hasCluster ==>
      && (r == Refused(AttributeMissing) <==> target == None)
      && (r == Refused(InvalidType) <==> target.Some? && target.value != "cluster" && target.value != "database")
      && (r == Refused(InvalidMetadata) <==>
          target in {Some("cluster"), Some("database")} && data.GetOr(map[]) == map[])
    ensures r.Done? ==> LookedUp(storage.Now(), target.value + "/", data.value, order, r.value)
  {
    order := [];
    if hasDatabase || hasCluster { return Refused(AttributeNotSupported), order; }
    if target.None? { return Refused(AttributeMissing), order; }
    if target.value != "cluster" && target.value != "database" { return Refused(InvalidType), order; }
    if data.None? || |data.value| < 1 { return Refused(InvalidMetadata), order; }
    var folder := target.value + "/";
    assert "cluster" + "/" == "cluster/" && "database" + "/" == "database/";
    MetaListed(storage, folder);
    var listed := storage.List(MetaKey(folder));
    if listed.Err? { return Failed(StorageError), order; }
    order := listed.value;
    r := Lookup(storage, folder, data.value, listed.value);
  }

  ghost predicate LookedUp(g: Config, folder: string, query: map<string, string>, order: seq<string>,
                           found: seq<string>) {
    Listing(order, MetaNames(g, folder)) && found == Found(g, folder, query, order)
  }

  /** The loop of pathMetadataRead. */
  method Lookup(storage: Storage, folder: string, query: map<string, string>, objList: seq<string>)
    returns (r: Outcome<seq<string>>)
    requires storage.Valid()
    modifies storage`calls, storage`failures
    ensures r in {Done(Found(storage.Now(), folder, query, objList)), Failed(StorageError)}
    ensures storage.failures == old(storage.failures) + if r.Failed? then 1 else 0
  {
    ghost var g := storage.Now();
    var matches := [];
    var i := 0;
    while i < |objList|
      invariant i <= |objList| && matches == Found(g, folder, query, objList[..i])
        && storage.failures == old(storage.failures)
    {
      assert objList[..i + 1][..i] == objList[..i];
      var m := LoadMetadataEntry(storage, folder + objList[i]);
      if m == Failed(StorageError) { return Failed(StorageError); }
      if m.Done? {
        var ok := MatchAttrs(m.value.data, query);
        if ok { matches := matches + [NameOf(m.value)]; }
      }
      i := i + 1;
    }
    assert objList[..i] == objList;
    r := Done(matches);
  }

  /** Every entry below a folder, data by address. */
  function Under(g: Config, folder: string): map<string, map<string, string>> {
    map addr | addr in g.meta && folder <= addr :: g.meta[addr].data
  }

  /** Every entry's data under its id. */
  method PathMetadataList(storage: Storage) returns (r: Outcome<map<string, map<string, string>>>)
    requires storage.Valid()
    modifies storage`calls, storage`failures
    ensures r in {Done(AllData(storage.Now())), Failed(StorageError)}
    ensures r.Done? ==>
      r.value.Keys == storage.Now().meta.Keys && forall id | id in r.value :: r.value[id] == storage.Now().meta[id].data
    ensures r.Failed? <==> storage.failures > old(storage.failures)
  {
    ghost var g := storage.Now();
    MetaListed(storage, "cluster/");
    var clusters := storage.List(MetaKey("cluster/"));
    if clusters.Err? { return Failed(StorageError); }
    r := Collect(storage, "cluster/", clusters.value, map[]);
    if r.Failed? { return; }
    MetaListed(storage, "database/");
    var databases := storage.List(MetaKey("database/"));
    if databases.Err? { return Failed(StorageError); }
    r := Collect(storage, "database/", databases.value, r.value);
    AllAddressesListed(storage);
    TwoFolders(g);
  }

  /** Either loop of pathMetadataList. */
  method Collect(storage: Storage, folder: string, names: seq<string>, start: map<string, map<string, string>>)
    returns (r: Outcome<map<string, map<string, string>>>)
    requires storage.Valid() && Listing(names, MetaNames(storage.Now(), folder))
    modifies storage`calls, storage`failures
    ensures r in {Done(start + Under(storage.Now(), folder)), Failed(StorageError)}
    ensures storage.failures == old(storage.failures) + if r.Failed? then 1 else 0
  {
    ghost var g := storage.Now();
    var matches := start;
    var i := 0;
    while i < |names|
      invariant i <= |names| && storage.failures == old(storage.failures)
      invariant matches == start + Partly(g, folder, names[..i])
    {
      CollectNext(g, folder, names, i, start);
      var meta := LoadMetadataEntry(storage, folder + names[i]);
      if meta == Failed(StorageError) { return Failed(StorageError); }
      if meta.Done? { matches := matches[folder + names[i] := meta.value.data]; }
      i := i + 1;
    }
    PartlyAll(g, folder, names);
    r := Done(matches);
  }

  /** The entries at the given names below a folder. */
  function Partly(g: Config, folder: string, names: seq<string>): map<string, map<string, string>> {
    map addr | addr in g.meta && folder <= addr && addr[|folder|..] in names :: g.meta[addr].data
  }

  lemma PartlyNext(g: Config, folder: string, names: seq<string>, i: nat)
    requires i < |names|
    ensures Partly(g, folder, names[..i + 1]) ==
      if folder + names[i] in g.meta
          then Partly(g, folder, names[..i])[folder + names[i] := g.meta[folder + names[i]].data]
      else Partly(g, folder, names[..i])
  {
    assert names[..i + 1] == names[..i] + [names[i]];
    DropRoot(folder, names[i]);
    assert forall addr | folder <= addr && addr[|folder|..] == names[i] :: addr == folder + names[i];
  }

  lemma CollectNext(g: Config, folder: string, names: seq<string>, i: nat, start: map<string, map<string, string>>)
    requires i < |names|
    ensures start + Partly(g, folder, names[..i + 1]) ==
      if folder + names[i] in g.meta
          then (start + Partly(g, folder, names[..i]))[folder + names[i] := g.meta[folder + names[i]].data]
      else start + Partly(g, folder, names[..i])
  {
    PartlyNext(g, folder, names, i);
  }

  lemma PartlyAll(g: Config, folder: string, names: seq<string>)
    requires Listing(names, MetaNames(g, folder))
    ensures Partly(g, folder, names[..|names|]) == Under(g, folder)
  {
    assert names[..|names|] == names;
    forall addr | addr in g.meta && folder <= addr ensures addr[|folder|..] in names {
      assert addr[|folder|..] in MetaNames(g, folder);
    }
  }

  /** Every entry's data by address. */
  function AllData(g: Config): map<string, map<string, string>> {
    map addr | addr in g.meta :: g.meta[addr].data
  }

  lemma TwoFolders(g: Config)
    requires forall addr | addr in g.meta :: IsMetaAddr(addr)
    ensures map[] + Under(g, "cluster/") + Under(g, "database/") == AllData(g)
  {}

  lemma AllAddressesListed(storage: Storage)
    requires storage.Valid()
    ensures forall addr | addr in storage.Now().meta :: IsMetaAddr(addr)
  {
    storage.Unfold();
    HoldsIsView(storage.data, storage.Now());
    forall addr | addr in storage.Now().meta ensures IsMetaAddr(addr) {
      GetMeta(storage.data, addr);
    }
  }

  method PathMetadataDelete(storage: Storage, id: Option<string>)
    returns (r: Outcome<()>, ghost op: Op, ghost ws: seq<Write>)
    requires storage.Valid()
    modifies storage`data, storage`calls, storage`failures, storage`unacked, storage`log, storage`now
    ensures storage.Valid() && storage.log == old(storage.log) + ws && storage.Now() == ApplyAll(old(storage.Now()), ws)
    ensures id.None? ==> r == Refused(AttributeMissing) && ws == []
    ensures id.Some? ==> OnlyMeta(old(storage.Now()), storage.Now(), id.value)
    ensures r.Done? ==> id.Some? && id.value !in storage.Now().meta
    ensures id.Some? ==>
      op == DeleteMeta(id.value) && Handled(old(storage.Now()), op, ws, r, storage.failures == old(storage.failures))
    ensures old(storage.Sound()) ==> storage.Sound()
  {
    storage.Replay();
    ghost var g, log := storage.Now(), storage.log;
    op, ws := DeleteMeta(""), [];
    if id.None? { return Refused(AttributeMissing), op, ws; }
    op := DeleteMeta(id.value);
    var acked;
    acked, ws := storage.Delete(MetaKey(id.value), DelMeta(id.value));
    r := if acked then Done(()) else Failed(StorageError);
    ApplyOne(g, DelMeta(id.value));
    StaysSound(g, log, op, ws);
  }
}
