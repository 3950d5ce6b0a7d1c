/** path-cluster.go */
module Clusters {
  import opened Paths
  import opened Records
  import opened Encoding
  import opened Listings
  import opened Operations
  import opened Runs
  import opened Vault
  import opened Servers
  import opened Entries
  import opened Identifiers
  import opened Recovery
  import opened Footprint

  /** Loop states of the cascade are prefixes of its writes. */
  lemma {:induction false} DisablePrefix(g: Config, c: string, names: seq<string>, i: nat)
    requires i <= |names|
    ensures DisableWrites(g, c, names[..i]) <= DisableWrites(g, c, names)
    decreases |names| - i
  {
    if i == |names| {
      assert names[..i] == names;
    } else {
      DisablePrefix(g, c, names, i + 1);
      DisableStep(g, c, names, i);
    }
  }

  lemma DisableStep(g: Config, c: string, names: seq<string>, i: nat)
    requires i < |names|
    ensures DisableWrites(g, c, names[..i + 1]) == DisableWrites(g, c, names[..i]) + DisableWrite(g, DbId(c, names[i]))
  {
    assert names[..i + 1][..i] == names[..i];
  }

  lemma DatabasesListed(storage: Storage, c: Name)
    requires storage.Valid()
    ensures Children(storage.data.Keys, DatabaseKey(c, "")) == DbNames(storage.Now(), c)
  {
    storage.Unfold();
    DatabaseListing(storage.data, c);
    HoldsIsView(storage.data, storage.Now());
  }

  function ReadCluster(g: Config, c: string): Outcome<ClusterRecord> {
    if c !in g.clusters then Refused(ClusterMissing)
    else if g.clusters[c].disabled then Refused(ClusterDeleted)
    else Done(g.clusters[c])
  }

  method PathClusterRead(storage: Storage, clusterName: Name) returns (r: Outcome<ClusterRecord>)
    requires storage.Valid()
    modifies storage`calls, storage`failures
    ensures r == Failed(StorageError) || r == ReadCluster(storage.Now(), clusterName)
    ensures r.Done? ==> storage.Now().ActiveCluster(clusterName) && r.value == storage.Now().clusters[clusterName]
    ensures storage.failures == old(storage.failures) ==> r != Failed(StorageError)
  {
    var loaded := LoadClusterEntry(storage, clusterName);
    if loaded == Failed(NotFound) { return Refused(ClusterMissing); }
    if loaded.Failed? { return Failed(loaded.error); }
    var c := loaded.value;
    if c.disabled { return Refused(ClusterDeleted); }
    r := Done(c.Value());
  }

  /** Marks every database of the cluster as deleted, then the cluster itself. */
  method PathClusterDelete(storage: Storage, clusterName: Name)
    returns (r: Outcome<()>, ghost op: Op, ghost ws: seq<Write>)
    requires storage.Valid()
    modifies storage`data, storage`calls, storage`failures, storage`unacked, storage`log, storage`now
    ensures storage.Valid() && storage.log == old(storage.log) + ws && storage.Now() == ApplyAll(old(storage.Now()), ws)
    ensures op.DeleteCluster? && op.c == clusterName
    ensures Handled(old(storage.Now()), op, ws, r, storage.failures == old(storage.failures))
    ensures old(storage.Now()).ActiveCluster(clusterName) && storage.failures == old(storage.failures) ==>
              DeletedExactly(old(storage.Now()), old(storage.data), clusterName, storage.Now(), storage.data, r)
    ensures old(storage.Sound()) ==> storage.Sound()
    ensures old(storage.Counted()) ==> storage.Counted() && storage.calls > old(storage.calls)
  {
    ghost var g := storage.Now();
    ghost var order := SomeListing(DbNames(g, clusterName));
    op, ws := DeleteCluster(clusterName, order), [];
    var loaded := LoadClusterEntry(storage, clusterName);
    if loaded == Failed(NotFound) { return Refused(ClusterMissing), op, ws; }
    if loaded.Failed? { return Failed(loaded.error), op, ws; }
    var c := loaded.value;
    if c.disabled { return Refused(ClusterDeleted), op, ws; }
    r, op, ws := DeleteActive(storage, clusterName, c);
  }

  /** What a delete that meets no failing call leaves. */
  ghost predicate DeletedExactly(g: Config, s: Store, c: string, h: Config, t: Store, r: Outcome<()>) {
    c in g.clusters && r.Done? && h == Deleted(g, c) && MarkedInPlace(s, t, c)
  }

  /** The rest of a delete, once the cluster is known to be active. */
  method DeleteActive(storage: Storage, clusterName: Name, c: ClusterConfig)
    returns (r: Outcome<()>, ghost op: Op, ghost ws: seq<Write>)
    requires storage.Valid() && storage.Now().ActiveCluster(clusterName)
      && c.Value() == storage.Now().clusters[clusterName]
    modifies storage`data, storage`calls, storage`failures, storage`unacked, storage`log, storage`now, c
    ensures storage.Valid() && storage.log == old(storage.log) + ws && storage.Now() == ApplyAll(old(storage.Now()), ws)
    ensures op.DeleteCluster? && op.c == clusterName
    ensures Handled(old(storage.Now()), op, ws, r, storage.failures == old(storage.failures))
    ensures storage.failures == old(storage.failures) ==>
              DeletedExactly(old(storage.Now()), old(storage.data), clusterName, storage.Now(), storage.data, r)
    ensures old(storage.Sound()) ==> storage.Sound()
    ensures old(storage.Counted()) ==> storage.Counted() && storage.calls > old(storage.calls)
  {
    storage.Replay();
    ghost var g, log := storage.Now(), storage.log;
    ghost var order := SomeListing(DbNames(g, clusterName));
    op, ws := DeleteCluster(clusterName, order), [];
    DatabasesListed(storage, clusterName);
    var listed := storage.List(DatabaseKey(clusterName, ""));
    if listed.Err? { return Failed(StorageError), op, ws; }
    var databases := listed.value;
    op := DeleteCluster(clusterName, databases);
    DeletePlanOf(g, clusterName, databases);
    r, ws := Cascade(storage, clusterName, c, databases);
    StaysSound(g, log, op, ws);
    DeleteCompletes(g, clusterName, databases);
    if storage.Now() == Deleted(g, clusterName) {
      DeleteMarks(old(storage.data), g, log, storage.data, storage.Now(), storage.log, clusterName);
    }
  }

  /** The databases first, the cluster last: an interruption never leaves a live database in a deleted cluster. */
  method Cascade(storage: Storage, clusterName: Name, c: ClusterConfig, databases: seq<string>)
    returns (r: Outcome<()>, ghost ws: seq<Write>)
    requires storage.Valid() && Listing(databases, DbNames(storage.Now(), clusterName))
    modifies storage`data, storage`calls, storage`failures, storage`unacked, storage`log, storage`now, c
    ensures storage.Valid() && storage.log == old(storage.log) + ws && storage.Now() == ApplyAll(old(storage.Now()), ws)
    ensures ws <= CascadeWrites(old(storage.Now()), clusterName, old(c.Value()), databases)
    ensures r == Failed(StorageError)
      || (r == Done(()) && ws == CascadeWrites(old(storage.Now()), clusterName, old(c.Value()), databases))
    ensures r.Done? <==> storage.failures == old(storage.failures)
    ensures old(storage.Counted()) ==> storage.Counted() && storage.calls >= old(storage.calls)
  {
    ghost var g, rec := storage.Now(), c.Value();
    r, ws := DisableAll(storage, clusterName, databases);
    MarksFirst(g, clusterName, rec, databases, ws);
    if r.Failed? { return; }
    ghost var made;
    r, made := MarkLast(storage, g, ws, clusterName, c);
    ws := ws + made;
  }

  lemma MarksFirst(g: Config, c: string, rec: ClusterRecord, order: seq<string>, ws: seq<Write>)
    requires ws <= DisableWrites(g, c, order)
    ensures ws <= CascadeWrites(g, c, rec, order)
  {}

  /** Marks the cluster itself. */
  method MarkLast(storage: Storage, ghost g: Config, ghost ws: seq<Write>, clusterName: Name, c: ClusterConfig)
    returns (r: Outcome<()>, ghost made: seq<Write>)
    requires storage.Valid() && storage.Now() == ApplyAll(g, ws)
    modifies storage`data, storage`calls, storage`failures, storage`unacked, storage`log, storage`now, c
    ensures storage.Valid() && storage.log == old(storage.log) + made && storage.Now() == ApplyAll(g, ws + made)
    ensures ws + made <= ws + [PutCluster(clusterName, old(c.Value()).(disabled := true))]
    ensures r == Failed(StorageError)
      || (r == Done(()) && made == [PutCluster(clusterName, old(c.Value()).(disabled := true))])
    ensures r.Done? <==> storage.failures == old(storage.failures)
    ensures old(storage.Counted()) ==> storage.Counted() && storage.calls >= old(storage.calls)
  {
    c.Disable();
    var acked;
    acked, made := StoreClusterEntry(storage, clusterName, c);
    LastWrite(g, ws, PutCluster(clusterName, c.Value()), made);
    r := if acked then Done(()) else Failed(StorageError);
  }

  /** What a delete of an active cluster writes. */
  function CascadeWrites(g: Config, c: string, rec: ClusterRecord, order: seq<string>): seq<Write> {
    DisableWrites(g, c, order) + [PutCluster(c, rec.(disabled := true))]
  }

  lemma DeletePlanOf(g: Config, c: string, order: seq<string>)
    requires g.ActiveCluster(c)
    ensures Plan(g, DeleteCluster(c, order)) == CascadeWrites(g, c, g.clusters[c], order)
    ensures Verdict(g, DeleteCluster(c, order)) == Done(())
  {}

  /** The loop of pathClusterDelete. */
  method DisableAll(storage: Storage, c: Name, databases: seq<string>)
    returns (r: Outcome<()>, ghost ws: seq<Write>)
    requires storage.Valid() && Listing(databases, DbNames(storage.Now(), c))
    modifies storage`data, storage`calls, storage`failures, storage`unacked, storage`log, storage`now
    ensures storage.Valid() && storage.log == old(storage.log) + ws && storage.Now() == ApplyAll(old(storage.Now()), ws)
    ensures ws <= DisableWrites(old(storage.Now()), c, databases)
    ensures r == Failed(StorageError) || r == Done(())
    ensures r.Done? ==> ws == DisableWrites(old(storage.Now()), c, databases)
    ensures r.Done? <==> storage.failures == old(storage.failures)
    ensures old(storage.Counted()) ==> storage.Counted() && storage.calls >= old(storage.calls)
  {
    ghost var g := storage.Now();
    ws := [];
    var i := 0;
    while i < |databases|
      invariant i <= |databases|
      invariant storage.Valid() && storage.failures == old(storage.failures)
      invariant ws == DisableWrites(g, c, databases[..i])
      invariant old(storage.Counted()) ==> storage.Counted() && storage.calls >= old(storage.calls)
      invariant storage.log == old(storage.log) + ws && storage.Now() == ApplyAll(g, ws)
    {
      ghost var made;
      r, made := DisableNext(storage, g, c, databases, i);
      ws := ws + made;
      if r.Failed? { return; }
      i := i + 1;
    }
    assert databases[..i] == databases;
    r := Done(());
  }

  /** One round of it, the storage being as the rounds before have left it. */
  method DisableNext(storage: Storage, ghost g: Config, c: Name, databases: seq<string>, i: nat)
    returns (r: Outcome<()>, ghost made: seq<Write>)
    requires storage.Valid() && Listing(databases, DbNames(g, c)) && i < |databases|
    requires storage.Now() == ApplyAll(g, DisableWrites(g, c, databases[..i]))
    modifies storage`data, storage`calls, storage`failures, storage`unacked, storage`log, storage`now
    ensures storage.Valid() && storage.log == old(storage.log) + made
    ensures storage.Now() == ApplyAll(g, DisableWrites(g, c, databases[..i]) + made)
    ensures r == Failed(StorageError) || r == Done(())
    ensures r.Done? <==> storage.failures == old(storage.failures)
    ensures DisableWrites(g, c, databases[..i]) + made <= DisableWrites(g, c, databases)
    ensures r.Done? ==> DisableWrites(g, c, databases[..i]) + made == DisableWrites(g, c, databases[..i + 1])
    ensures old(storage.Counted()) ==> storage.Counted() && storage.calls >= old(storage.calls)
  {
    DisableStillThere(g, c, databases, i);
    r, made := DisableDb(storage, c, databases[i]);
    DisableRound(g, c, databases, i, made);
  }

  /** After i rounds the next database is as it was at the start. */
  lemma DisableStillThere(g: Config, c: string, names: seq<string>, i: nat)
    requires Listing(names, DbNames(g, c)) && i < |names|
    ensures var h, id := ApplyAll(g, DisableWrites(g, c, names[..i])), DbId(c, names[i]);
      id in h.dbs && DisableWrite(h, id) == DisableWrite(g, id)
  {
    DisableLoop(g, c, names[..i]);
    ListingOfDbs(g, c, names, names[i]);
  }

  /** One more round is one more step of the plan, or none of it if the write was lost. */
  lemma DisableRound(g: Config, c: string, names: seq<string>, i: nat, made: seq<Write>)
    requires i < |names| && (made == DisableWrite(g, DbId(c, names[i])) || made == [])
    ensures var ws := DisableWrites(g, c, names[..i]);
      && ApplyAll(g, ws + made) == ApplyAll(ApplyAll(g, ws), made)
      && ws + made <= DisableWrites(g, c, names)
      && (made == DisableWrite(g, DbId(c, names[i])) ==> ws + made == DisableWrites(g, c, names[..i + 1]))
  {
    var ws := DisableWrites(g, c, names[..i]);
    ApplyConcat(g, ws, made);
    DisableStep(g, c, names, i);
    DisablePrefix(g, c, names, i + 1);
    assert ws + [] == ws;
  }

  /** One round of the loop of pathClusterDelete. */
  method DisableDb(storage: Storage, c: Name, dbName: string) returns (r: Outcome<()>, ghost made: seq<Write>)
    requires storage.Valid() && DbId(c, dbName) in storage.Now().dbs
    modifies storage`data, storage`calls, storage`failures, storage`unacked, storage`log, storage`now
    ensures storage.Valid() && storage.log == old(storage.log) + made
      && storage.Now() == ApplyAll(old(storage.Now()), made)
    ensures r == Failed(StorageError) || r == Done(())
    ensures r.Done? <==> storage.failures == old(storage.failures)
    ensures made == DisableWrite(old(storage.Now()), DbId(c, dbName)) || (made == [] && r.Failed?)
    ensures old(storage.Counted()) ==> storage.Counted() && storage.calls >= old(storage.calls)
  {
    made := [];
    var loaded := LoadDbEntry(storage, c, dbName);
    if loaded.Failed? { return Failed(loaded.error), made; }
    var db := loaded.value;
    if db.disabled { return Done(()), made; }
    db.Disable();
    var acked;
    acked, made := StoreDbEntry(storage, c, dbName, db);
    r := if acked then Done(()) else Failed(StorageError);
  }

  /** Registers a cluster, or registers an active one anew: a fresh management role, a fresh root password. */
  method PathClusterUpdate(storage: Storage, pg: Postgres, clusterName: Name, data: ClusterFields, schema: seq<Field>,
                           roleId: Uuid, rolePassword: Uuid, newPassword: Uuid)
    returns (r: Outcome<()>, ghost op: Op, ghost ws: seq<Write>)
    requires storage.Valid() && forall k: Field :: k in schema
    modifies storage`data, storage`calls, storage`failures, storage`unacked, storage`log, storage`now, pg
    ensures storage.Valid() && storage.log == old(storage.log) + ws && storage.Now() == ApplyAll(old(storage.Now()), ws)
    ensures op == RegisterCluster(clusterName, Registered(data, ManagementRoleName(roleId), rolePassword, newPassword))
    ensures Handles(old(storage.Now()), Step(op, ws))
    ensures r in {Failed(StorageError), Failed(ServerError), Refused(Unreachable)}
      || r == Verdict(old(storage.Now()), op)
    ensures r.Done? ==> ws == Plan(old(storage.Now()), op)
    ensures ws != [] ==> r.Done? || r == Failed(StorageError)
    ensures RegisteredAs(old(storage.Now()), storage.Now(), clusterName, data, ManagementRoleName(roleId), rolePassword,
                         newPassword, r.Done? || ws != [])
    ensures TurnedDown(old(storage.Now()), clusterName, data, r, storage.failures == old(storage.failures))
    ensures storage.failures == old(storage.failures) ==> r != Failed(StorageError)
    ensures ServerSide(old(pg.servers), pg.servers, Endpoint(data.host, data.port), data.username, data.password,
                       ManagementRoleName(roleId), rolePassword, newPassword, r.Done? || ws != [], r,
                       pg.failures == old(pg.failures))
    ensures old(storage.Sound()) ==> storage.Sound()
  {
    var roleName := ManagementRoleName(roleId);
    op, ws := RegisterCluster(clusterName, Registered(data, roleName, rolePassword, newPassword)), [];
    var existing := LoadClusterEntry(storage, clusterName);
    if existing == Failed(StorageError) { return Failed(StorageError), op, ws; }
    if existing.Done? && existing.value.disabled { return Refused(ClusterDeleted), op, ws; }

    var c := new ClusterConfig();
    var ok := c.LoadFromFields(data, schema);
    if !ok { return Refused(InvalidConfig), op, ws; }
    r := TakeOver(pg, c, roleName, rolePassword, newPassword);
    if !r.Done? { return r, op, ws; }
    r, ws := StoreNewCluster(storage, clusterName, c, data, roleName, rolePassword, newPassword, op);
  }

  /** The record of a cluster whose server has been taken over, stored last. */
  method StoreNewCluster(storage: Storage, clusterName: Name, c: ClusterConfig, ghost data: ClusterFields,
                         ghost roleName: string, ghost rolePassword: string, ghost newPassword: string, ghost op: Op)
    returns (r: Outcome<()>, ghost ws: seq<Write>)
    requires storage.Valid() && c.Value() == Registered(data, roleName, rolePassword, newPassword)
    requires op == RegisterCluster(clusterName, c.Value()) && Legal(storage.Now(), op)
    requires Verdict(storage.Now(), op) == Done(())
    modifies storage`data, storage`calls, storage`failures, storage`unacked, storage`log, storage`now
    ensures storage.Valid() && storage.log == old(storage.log) + ws && storage.Now() == ApplyAll(old(storage.Now()), ws)
    ensures Handled(old(storage.Now()), op, ws, r, storage.failures == old(storage.failures))
    ensures RegisteredAs(old(storage.Now()), storage.Now(), clusterName, data, roleName, rolePassword, newPassword,
                         r.Done? || ws != [])
    ensures r.Done? || r == Failed(StorageError)
    ensures old(storage.Sound()) ==> storage.Sound()
  {
    ghost var g := storage.Now();
    r, ws := FinishWithCluster(storage, clusterName, c, op);
    RegistrationStores(g, clusterName, data, roleName, rolePassword, newPassword, ws);
  }

  /** What a registration leaves in the configuration: the request's own values, once it got through to the storage. */
  ghost predicate RegisteredAs(g: Config, h: Config, c: string, data: ClusterFields, role: string, rolePassword: string,
                               newPassword: string, through: bool) {
    if through then c in h.clusters && Stores(h.clusters[c], data, role, rolePassword, newPassword)
        && OnlyCluster(g, h, c)
    else h == g
  }

  /** When a registration is turned down by the backend. */
  ghost predicate TurnedDown(g: Config, c: string, data: ClusterFields, r: Outcome<()>, calm: bool) {
    && (r == Refused(ClusterDeleted) ==> g.DisabledCluster(c))
    && (r == Refused(InvalidConfig) ==> !g.DisabledCluster(c) && !Acceptable(data))
    && (r.Done? ==> !g.DisabledCluster(c) && Acceptable(data))
    && (calm && g.DisabledCluster(c) ==> r == Refused(ClusterDeleted))
    && (calm && !g.DisabledCluster(c) && !Acceptable(data) ==> r == Refused(InvalidConfig))
  }

  lemma RegistrationStores(g: Config, c: string, data: ClusterFields, role: string, rolePassword: string,
                           newPassword: string, ws: seq<Write>)
    requires ws <= Plan(g, RegisterCluster(c, Registered(data, role, rolePassword, newPassword)))
    ensures RegisteredAs(g, ApplyAll(g, ws), c, data, role, rolePassword, newPassword, ws != [])
  {
    if ws != [] {
      ApplyOne(g, ws[0]);
      RegisteredIs(ws[0].cluster, data, role, rolePassword, newPassword);
    }
  }

  /** What a registration does to the servers, `through` saying whether it got as far as the storage. One that is turned
      down, without any call failing, leaves them alone. */
  ghost predicate ServerSide(before: Passwords, after: Passwords, ep: Endpoint, user: string, password: string,
                             role: string, rolePassword: string, newPassword: string, through: bool, r: Outcome<()>,
                             calm: bool) {
    && (through ==> CanLogin(before, ep, user, password) && !HasRole(before, ep, role)
                    && after == Rotated(before, ep, role, rolePassword, user, newPassword))
    && (r.Refused? ==> after == before)
    && (calm && r == Failed(ServerError) ==> after == before)
    && (r == Failed(ServerError) ==> CanLogin(before, ep, user, password))
    && (calm && r == Refused(Unreachable) ==> !CanLogin(before, ep, user, password))
    && (after == before || (ep in before && after in {WithPassword(before, ep, role, rolePassword),
                                                      Rotated(before, ep, role, rolePassword, user, newPassword)}))
    && (calm && CanLogin(before, ep, user, password) && !HasRole(before, ep, role) ==>
          r !in {Failed(ServerError), Refused(Unreachable)})
  }

  /** Connects as root, creates the management role and changes the root password. */
  method TakeOver(pg: Postgres, c: ClusterConfig, roleName: string, rolePassword: string, newPassword: string)
    returns (r: Outcome<()>)
    modifies pg, c
    ensures r in {Done(()), Failed(ServerError), Refused(Unreachable)}
    ensures r.Done? ==>
      c.Value()
          == old(c.Value()).(managementRole := roleName, managementPassword := rolePassword, password := newPassword)
    ensures ServerSide(old(pg.servers), pg.servers, Endpoint(old(c.host), old(c.port)), old(c.username),
                       old(c.password),
                       roleName, rolePassword, newPassword, r.Done?, r, pg.failures == old(pg.failures))
  {
    var ep := Endpoint(c.host, c.port);
    var ok := pg.Connect(ep, c.username, c.password);
    if !ok { return Refused(Unreachable); }
    ok := pg.CreateRole(ep, roleName, rolePassword);
    if !ok { return Failed(ServerError); }
    c.managementRole, c.managementPassword := roleName, rolePassword;
    ok := pg.SetPassword(ep, c.username, newPassword);
    if !ok { return Failed(ServerError); }
    c.password := newPassword;
    r := Done(());
  }

  function ActiveClusters(g: Config): set<string> { set c | c in g.clusters && !g.clusters[c].disabled }

  lemma ClustersListed(storage: Storage)
    requires storage.Valid()
    ensures Children(storage.data.Keys, ClusterKey("")) == storage.Now().clusters.Keys + Folders(Parents(storage.Now()))
    ensures forall n | n in Children(storage.data.Keys, ClusterKey("")) ::
      (!IsFolder(n) <==> n in storage.Now().clusters) && (!IsFolder(n) ==> IsName(n))
  {
    storage.Unfold();
    ClusterListing(storage.data);
    HoldsIsView(storage.data, storage.Now());
    forall n | n in Children(storage.data.Keys, ClusterKey(""))
      ensures (!IsFolder(n) <==> n in storage.Now().clusters) && (!IsFolder(n) ==> IsName(n))
    {
      SuffixFilter(storage.data, n);
    }
  }

  /** One round of either list of clusters: folders are passed over, and the record says whether it is deleted. */
  method ToBeListed(storage: Storage, n: string, deleted: bool) returns (r: Outcome<bool>)
    requires storage.Valid() && n in Children(storage.data.Keys, ClusterKey(""))
    modifies storage`calls, storage`failures
    ensures r == Failed(StorageError)
      || r == Done(n in storage.Now().clusters && storage.Now().clusters[n].disabled == deleted)
    ensures storage.failures == old(storage.failures) + if r == Failed(StorageError) then 1 else 0
  {
    ClustersListed(storage);
    if IsFolder(n) { return Done(false); }
    var loaded := FetchCluster(storage, n);
    if loaded.Failed? { return Failed(loaded.error); }
    r := Done(loaded.value.disabled == deleted);
  }

  method PathClustersList(storage: Storage) returns (r: Outcome<seq<string>>)
    requires storage.Valid()
    modifies storage`calls, storage`failures
    ensures r.Done? ==> forall c :: c in r.value <==> storage.Now().ActiveCluster(c)
    ensures r == Failed(StorageError) || (r.Done? && Listing(r.value, ActiveClusters(storage.Now())))
    ensures storage.failures == old(storage.failures) ==> r != Failed(StorageError)
  {
    ghost var keep := ActiveClusters(storage.Now());
    ClustersListed(storage);
    var listed := storage.List(ClusterKey(""));
    if listed.Err? { return Failed(StorageError); }
    var entries, results := listed.value, [];
    var i := 0;
    while i < |entries|
      invariant i <= |entries| && storage.failures == old(storage.failures)
      invariant Filtered(results, entries, i, keep)
    {
      FilterNext(results, entries, i, keep);
      var listed := ToBeListed(storage, entries[i], false);
      if listed.Failed? { return Failed(listed.error); }
      if listed.value {
        results := results + [entries[i]];
      }
      i := i + 1;
    }
    FilterDone(results, entries, keep);
    r := Done(results);
  }
}
