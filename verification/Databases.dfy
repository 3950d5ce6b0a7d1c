/** path-database.go */
module Databases {
  import opened Paths
  import opened Records
  import opened Listings
  import opened Operations
  import opened Runs
  import opened Vault
  import opened Servers
  import opened Entries
  import opened Identifiers
  import opened Clusters

  /** backend.getConn: reads the cluster's record and connects with its root or its management login. */
  method GetConn(storage: Storage, pg: Postgres, management: bool, cn: Name) returns (r: Outcome<()>)
    requires storage.Valid()
    modifies storage`calls, storage`failures, pg`calls, pg`failures
    ensures r in {Done(()), Failed(StorageError), Failed(NotFound), Failed(ServerError)}
    ensures storage.failures == old(storage.failures) + if r == Failed(StorageError) then 1 else 0
    ensures r == Failed(NotFound) ==> cn !in storage.Now().clusters
    ensures r.Done? ==> cn in storage.Now().clusters && Reachable(pg.servers, storage.Now().clusters[cn], management)
    ensures r == Failed(ServerError) ==>
              cn in storage.Now().clusters
                  && (pg.failures > old(pg.failures) || !Reachable(pg.servers, storage.Now().clusters[cn], management))
    ensures pg.failures >= old(pg.failures)
    ensures r.Done? ==>
      var rec := storage.Now().clusters[cn];
      if management
        then CanLogin(pg.servers, Endpoint(rec.host, rec.port), rec.managementRole, rec.managementPassword)
        else CanLogin(pg.servers, Endpoint(rec.host, rec.port), rec.username, rec.password)
  {
    var loaded := LoadClusterEntry(storage, cn);
    if loaded.Failed? { return Failed(loaded.error); }
    var c := loaded.value;
    var ok := pg.Connect(Endpoint(c.host, c.port), if management then c.managementRole else c.username,
                         if management then c.managementPassword else c.password);
    r := if ok then Done(()) else Failed(ServerError);
  }

  /** Does the stored root or management login of a cluster work on its server? */
  predicate Reachable(s: Passwords, rec: ClusterRecord, management: bool) {
    if management then CanLogin(s, Endpoint(rec.host, rec.port), rec.managementRole, rec.managementPassword)
    else CanLogin(s, Endpoint(rec.host, rec.port), rec.username, rec.password)
  }

  /** What an initialization needs of the server: both logins work, the database it connects to first is there, its own
      is new if it is to be created and there otherwise, the owner's name is free, and the privileges are granted. */
  predicate Initializable(s: Passwords, databases: set<Place>, owners: set<Place>, rec: ClusterRecord, dn: string,
                          owner: string, createNewDb: bool, granted: bool) {
    var ep := Endpoint(rec.host, rec.port);
    && CanCreate(s, databases, rec) && (createNewDb <==> Place(ep, dn) !in databases) && Reachable(s, rec, true)
    && Place(ep, owner) !in owners && !HasRole(s, ep, owner) && granted
  }

  predicate CanCreate(s: Passwords, databases: set<Place>, rec: ClusterRecord) {
    Reachable(s, rec, false) && Place(Endpoint(rec.host, rec.port), rec.database) in databases
  }

  /** Spelled out: whose logins must work, which databases must and must not be there, which names must be free. */
  lemma InitializableIs(s: Passwords, databases: set<Place>, owners: set<Place>, rec: ClusterRecord, dn: string,
                        owner: string, createNewDb: bool, granted: bool)
    ensures var ep := Endpoint(rec.host, rec.port);
      Initializable(s, databases, owners, rec, dn, owner, createNewDb, granted) <==>
        && ep in s && rec.username in s[ep] && s[ep][rec.username] == rec.password
        && rec.managementRole in s[ep] && s[ep][rec.managementRole] == rec.managementPassword
        && Place(ep, rec.database) in databases
        && (if createNewDb then Place(ep, dn) !in databases else Place(ep, dn) in databases)
        && Place(ep, owner) !in owners && owner !in s[ep] && granted
  {}

  /** Creating the database is not undone when a later step fails: repeating the request then fails for good, and doing
      so without creating the database is what the request would have been. */
  lemma RepeatWithoutCreating(s: Passwords, databases: set<Place>, owners: set<Place>, rec: ClusterRecord, dn: string,
                              owner: string, granted: bool)
    requires CanCreate(s, databases, rec) && Place(Endpoint(rec.host, rec.port), dn) !in databases
    ensures var after := databases + {Place(Endpoint(rec.host, rec.port), dn)};
      && !Initializable(s, after, owners, rec, dn, owner, true, granted)
      && (Initializable(s, after, owners, rec, dn, owner, false, granted) <==>
          Initializable(s, databases, owners, rec, dn, owner, true, granted))
  {}

  predicate Added(before: set<Place>, after: set<Place>, places: set<Place>) {
    after == before || after == before + places
  }

  /** What an initialization does to the server. When it is done, all of it. When it fails although no call did, at
      most the database: exactly if that was to be created, was not there, and the root login got so far. */
  ghost predicate Initialized(s: Passwords, databases: set<Place>, owners: set<Place>, after: set<Place>,
                              ownersAfter: set<Place>, rec: ClusterRecord, dn: string, owner: string, createNewDb: bool,
                              granted: bool, done: bool, calm: bool) {
    var ep := Endpoint(rec.host, rec.port);
    && Added(databases, after, if createNewDb then {Place(ep, dn)} else {})
    && Added(owners, ownersAfter, {Place(ep, owner)})
    && (done ==> Initializable(s, databases, owners, rec, dn, owner, createNewDb, granted)
                 && after == databases + {Place(ep, dn)} && ownersAfter == owners + {Place(ep, owner)})
    && (calm ==> (done <==> Initializable(s, databases, owners, rec, dn, owner, createNewDb, granted)))
    && (calm && !done ==>
          && ownersAfter == owners
          && after == if createNewDb && CanCreate(s, databases, rec) then databases + {Place(ep, dn)} else databases)
  }

  /** initializeDb. Whether the server grants the privileges is up to it. */
  method InitializeDb(storage: Storage, pg: Postgres, catalog: Catalog, c: ClusterConfig, cn: Name, dn: Name,
                      objectsOwner: string, createNewDb: bool, granted: bool)
    returns (r: Outcome<()>)
    requires storage.Valid() && cn in storage.Now().clusters && c.Value() == storage.Now().clusters[cn]
    modifies storage`calls, storage`failures, pg`calls, pg`failures, catalog
    ensures r in {Done(()), Failed(StorageError), Failed(ServerError)}
    ensures storage.failures == old(storage.failures) + if r == Failed(StorageError) then 1 else 0
    ensures pg.failures >= old(pg.failures) && catalog.failures >= old(catalog.failures)
    ensures Initialized(pg.servers, old(catalog.databases), old(catalog.owners), catalog.databases, catalog.owners,
                        storage.Now().clusters[cn], dn, objectsOwner, createNewDb, granted, r.Done?,
                        r != Failed(StorageError) && pg.failures == old(pg.failures)
                          && catalog.failures == old(catalog.failures))
  {
    var ep := Endpoint(c.host, c.port);
    r := GetConn(storage, pg, false, cn);
    if !r.Done? { return; }
    if Place(ep, c.database) !in catalog.databases { return Failed(ServerError); }
    if createNewDb {
      var created := catalog.CreateDatabase(ep, dn);
      if !created { return Failed(ServerError); }
    }
    r := SetUpDb(storage, pg, catalog, ep, cn, dn, objectsOwner, granted);
  }

  /** The second half, on a connection to the database itself. */
  method SetUpDb(storage: Storage, pg: Postgres, catalog: Catalog, ep: Endpoint, cn: Name, dn: Name,
                 objectsOwner: string, granted: bool)
    returns (r: Outcome<()>)
    requires storage.Valid() && cn in storage.Now().clusters
    modifies storage`calls, storage`failures, pg`calls, pg`failures, catalog`owners, catalog`calls, catalog`failures
    ensures r in {Done(()), Failed(StorageError), Failed(ServerError)}
    ensures storage.failures == old(storage.failures) + if r == Failed(StorageError) then 1 else 0
    ensures pg.failures >= old(pg.failures) && catalog.failures >= old(catalog.failures)
    ensures Added(old(catalog.owners), catalog.owners, {Place(ep, objectsOwner)})
    ensures var ready := Reachable(pg.servers, storage.Now().clusters[cn], true) && Place(ep, dn) in catalog.databases
        && Place(ep, objectsOwner) !in old(catalog.owners) && !HasRole(pg.servers, ep, objectsOwner) && granted;
      && (r.Done? ==> ready && catalog.owners == old(catalog.owners) + {Place(ep, objectsOwner)})
      && (r == Failed(ServerError) && pg.failures == old(pg.failures) && catalog.failures == old(catalog.failures) ==>
            !ready && catalog.owners == old(catalog.owners))
  {
    r := GetConn(storage, pg, true, cn);
    if !r.Done? { return; }
    if Place(ep, dn) !in catalog.databases { return Failed(ServerError); }
    var setUp := catalog.SetUpOwner(ep, objectsOwner, HasRole(pg.servers, ep, objectsOwner), granted);
    r := if setUp then Done(()) else Failed(ServerError);
  }

  method PathDatabaseUpdate(storage: Storage, pg: Postgres, catalog: Catalog, cn: Name, dn: Name, ownerRole: string,
                            initialize: bool, createDb: bool, granted: bool, ownerId: Uuid)
    returns (r: Outcome<()>, ghost op: Op, ghost ws: seq<Write>)
    requires storage.Valid()
    modifies storage`data, storage`calls, storage`failures, storage`unacked, storage`log, storage`now, pg`calls,
        pg`failures, catalog
    ensures storage.Valid() && storage.log == old(storage.log) + ws && storage.Now() == ApplyAll(old(storage.Now()), ws)
    ensures op == RegisterDb(DbId(cn, dn), OwnerName(ownerRole, dn, ownerId))
    ensures Handles(old(storage.Now()), Step(op, ws))
    ensures r in {Failed(StorageError), Failed(ServerError)} || r == Verdict(old(storage.Now()), op)
    ensures r.Done? ==> ws == Plan(old(storage.Now()), op)
    ensures RegisteredDb(old(storage.Now()), storage.Now(), DbId(cn, dn), ownerRole, ownerId, r.Done? || ws != [])
    ensures r == Failed(ServerError) ==> initialize && ws == [] && cn in old(storage.Now()).clusters
    ensures !initialize || r.Refused? || cn !in old(storage.Now()).clusters ==>
      catalog.databases == old(catalog.databases) && catalog.owners == old(catalog.owners)
    ensures initialize && cn in old(storage.Now()).clusters && (r.Done? || r == Failed(ServerError)) ==>
      Initialized(pg.servers, old(catalog.databases), old(catalog.owners), catalog.databases, catalog.owners,
                  old(storage.Now()).clusters[cn], dn, OwnerName(ownerRole, dn, ownerId), createDb, granted, r.Done?,
                  pg.failures == old(pg.failures) && catalog.failures == old(catalog.failures))
    ensures cn in old(storage.Now()).clusters ==>
      var rec := old(storage.Now()).clusters[cn];
      && Added(old(catalog.databases), catalog.databases, {Place(Endpoint(rec.host, rec.port), dn)})
      && Added(old(catalog.owners), catalog.owners,
               {Place(Endpoint(rec.host, rec.port), OwnerName(ownerRole, dn, ownerId))})
    ensures storage.failures == old(storage.failures) ==> r != Failed(StorageError)
    ensures old(storage.Sound()) ==> storage.Sound()
  {
    op, ws := RegisterDb(DbId(cn, dn), OwnerName(ownerRole, dn, ownerId)), [];
    OwnerNotEmpty(ownerRole, dn, ownerId);
    var cluster := LoadClusterEntry(storage, cn);
    if cluster == Failed(NotFound) { return Refused(ClusterMissing), op, ws; }
    if cluster.Failed? { return Failed(cluster.error), op, ws; }
    if cluster.value.disabled { return Refused(ClusterDeleted), op, ws; }

    var existing := LoadDbEntry(storage, cn, dn);
    if existing == Failed(StorageError) { return Failed(StorageError), op, ws; }
    if existing.Done? { return Refused(AlreadyRegistered), op, ws; }

    var objectsOwner := OwnerName(ownerRole, dn, ownerId);
    if initialize {
      var ready := InitializeDb(storage, pg, catalog, cluster.value, cn, dn, objectsOwner, createDb, granted);
      if ready.Failed? { return Failed(ready.error), op, ws; }
    }
    r, ws := StoreNewDb(storage, cn, dn, objectsOwner, ownerRole, ownerId, op);
  }

  /** The record of a new database, stored last. */
  method StoreNewDb(storage: Storage, cn: Name, dn: Name, objectsOwner: string, ghost ownerRole: string,
                    ghost ownerId: Uuid, ghost op: Op)
    returns (r: Outcome<()>, ghost ws: seq<Write>)
    requires storage.Valid() && objectsOwner == OwnerName(ownerRole, dn, ownerId)
    requires op == RegisterDb(DbId(cn, dn), objectsOwner) && Legal(storage.Now(), op)
    requires Verdict(storage.Now(), op) == Done(())
    modifies storage`data, storage`calls, storage`failures, storage`unacked, storage`log, storage`now
    ensures storage.Valid() && storage.log == old(storage.log) + ws && storage.Now() == ApplyAll(old(storage.Now()), ws)
    ensures Handled(old(storage.Now()), op, ws, r, storage.failures == old(storage.failures))
    ensures RegisteredDb(old(storage.Now()), storage.Now(), DbId(cn, dn), ownerRole, ownerId, r.Done? || ws != [])
    ensures r.Done? || r == Failed(StorageError)
    ensures old(storage.Sound()) ==> storage.Sound()
  {
    ghost var g := storage.Now();
    var dbC := new DbConfig.Decode(DbRecord(cn, dn, objectsOwner, false));
    r, ws := FinishWithDb(storage, cn, dn, dbC, op);
    DatabaseStores(g, DbId(cn, dn), ownerRole, ownerId, ws);
  }

  /** What a registration leaves in the configuration, once it got through to the storage. */
  ghost predicate RegisteredDb(g: Config, h: Config, id: DbId, ownerRole: string, ownerId: Uuid, through: bool) {
    if through then
      && id in h.dbs && h.dbs[id].cluster == id.cluster && h.dbs[id].database == id.name && !h.dbs[id].disabled
      && IsOwner(h.dbs[id].objectsOwner, ownerRole, id.name, ownerId) && OnlyDb(g, h, id)
    else h == g
  }

  lemma DatabaseStores(g: Config, id: DbId, ownerRole: string, ownerId: Uuid, ws: seq<Write>)
    requires ws <= Plan(g, RegisterDb(id, OwnerName(ownerRole, id.name, ownerId)))
    ensures RegisteredDb(g, ApplyAll(g, ws), id, ownerRole, ownerId, ws != [])
  {
    if ws != [] {
      ApplyOne(g, ws[0]);
      OwnerIs(ws[0].db.objectsOwner, ownerRole, id.name, ownerId);
    }
  }

  method PathDatabaseDelete(storage: Storage, cn: Name, dn: Name)
    returns (r: Outcome<()>, ghost op: Op, ghost ws: seq<Write>)
    requires storage.Valid()
    modifies storage`data, storage`calls, storage`failures, storage`unacked, storage`log, storage`now
    ensures storage.Valid() && storage.log == old(storage.log) + ws && storage.Now() == ApplyAll(old(storage.Now()), ws)
    ensures op == DeleteDb(DbId(cn, dn))
    ensures DeletedDb(old(storage.Now()), storage.Now(), DbId(cn, dn), r.Done? || ws != [])
    ensures Handled(old(storage.Now()), op, ws, r, storage.failures == old(storage.failures))
    ensures old(storage.Sound()) ==> storage.Sound()
  {
    op, ws := DeleteDb(DbId(cn, dn)), [];
    var cluster := LoadClusterEntry(storage, cn);
    if cluster == Failed(NotFound) { return Refused(ClusterMissing), op, ws; }
    if cluster.Failed? { return Failed(cluster.error), op, ws; }
    if cluster.value.disabled { return Refused(ClusterDeleted), op, ws; }
    var loaded := LoadDbEntry(storage, cn, dn);
    if loaded == Failed(NotFound) { return Refused(DatabaseMissing), op, ws; }
    if loaded.Failed? { return Failed(loaded.error), op, ws; }
    var dbC := loaded.value;
    if dbC.disabled { return Refused(DatabaseDeleted), op, ws; }
    dbC.Disable();
    ghost var g := storage.Now();
    r, ws := FinishWithDb(storage, cn, dn, dbC, op);
    if ws != [] { ApplyOne(g, ws[0]); }
  }

  /** What a delete leaves: the mark, once it got through to the storage. */
  ghost predicate DeletedDb(g: Config, h: Config, id: DbId, through: bool) {
    if through then
      && id in g.dbs && id in h.dbs && h.dbs[id].disabled && OnlyDb(g, h, id)
      && h.dbs[id].cluster == g.dbs[id].cluster && h.dbs[id].database == g.dbs[id].database
      && h.dbs[id].objectsOwner == g.dbs[id].objectsOwner
    else h == g
  }

  function ReadDb(g: Config, id: DbId): Outcome<DbRecord> {
    if id.cluster !in g.clusters then Refused(ClusterMissing)
    else if g.clusters[id.cluster].disabled then Refused(ClusterDeleted)
    else if id !in g.dbs then Refused(DatabaseMissing)
    else if g.dbs[id].disabled then Refused(DatabaseDeleted)
    else Done(g.dbs[id])
  }

  method PathDatabaseRead(storage: Storage, cn: Name, dn: Name) returns (r: Outcome<DbRecord>)
    requires storage.Valid()
    modifies storage`calls, storage`failures
    ensures r == Failed(StorageError) || r == ReadDb(storage.Now(), DbId(cn, dn))
    ensures r.Done? ==> storage.Now().ActiveCluster(cn) && storage.Now().ActiveDb(DbId(cn, dn))
    ensures r.Done? ==> r.value == storage.Now().dbs[DbId(cn, dn)]
    ensures storage.failures == old(storage.failures) ==> r != Failed(StorageError)
  {
    var cluster := LoadClusterEntry(storage, cn);
    if cluster == Failed(NotFound) { return Refused(ClusterMissing); }
    if cluster.Failed? { return Failed(cluster.error); }
    if cluster.value.disabled { return Refused(ClusterDeleted); }
    var loaded := LoadDbEntry(storage, cn, dn);
    if loaded == Failed(NotFound) { return Refused(DatabaseMissing); }
    if loaded.Failed? { return Failed(loaded.error); }
    if loaded.value.disabled { return Refused(DatabaseDeleted); }
    r := Done(loaded.value.Value());
  }

  function ActiveDbs(g: Config, c: string): set<string> { set d | d in DbNames(g, c) && g.ActiveDb(DbId(c, d)) }

  /** Lists the active databases of a cluster without looking at the cluster's own record. */
  method PathDatabasesList(storage: Storage, cluster: Name) returns (r: Outcome<seq<string>>)
    requires storage.Valid()
    modifies storage`calls, storage`failures
    ensures r == Failed(StorageError) || (r.Done? && Listing(r.value, ActiveDbs(storage.Now(), cluster)))
    ensures r.Done? ==> forall d :: d in r.value <==> storage.Now().ActiveDb(DbId(cluster, d))
    ensures storage.failures == old(storage.failures) ==> r != Failed(StorageError)
  {
    ghost var keep := ActiveDbs(storage.Now(), cluster);
    DatabasesListed(storage, cluster);
    var listed := storage.List(DatabaseKey(cluster, ""));
    if listed.Err? { return Failed(StorageError); }
    var entries, results := listed.value, [];
    var i := 0;
    while i < |entries|
      invariant i <= |entries| && storage.failures == old(storage.failures)
      invariant Filtered(results, entries, i, keep)
    {
      FilterNext(results, entries, i, keep);
      ListingOfDbs(storage.Now(), cluster, entries, entries[i]);
      var loaded := LoadDbEntry(storage, cluster, entries[i]);
      if loaded.Failed? { return Failed(loaded.error); }
      if !loaded.value.disabled {
        results := results + [entries[i]];
      }
      i := i + 1;
    }
    FilterDone(results, entries, keep);
    forall d ensures d in keep <==> storage.Now().ActiveDb(DbId(cluster, d)) { InDbNames(storage.Now(), cluster, d); }
    r := Done(results);
  }
}
