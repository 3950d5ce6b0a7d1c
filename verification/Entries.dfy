/** The configuration objects of the handlers, and how they are read from and written to the storage. */
module Entries {
  import opened Paths
  import opened Records
  import opened Encoding
  import opened Operations
  import opened Vault

  /** What the request and the field schema's defaults give for a cluster. */
  datatype ClusterFields = ClusterFields(
    host: string, port: int, username: string, password: string,
    maxOpenConnections: int, maxIdleConnections: int, maxConnectionLifetime: int,
    database: string, sslMode: string)

  /** The configuration a registration stores. */
  function Registered(f: ClusterFields, managementRole: string, managementPassword: string,
                      password: string): ClusterRecord {
    ClusterRecord(f.host, f.port, f.username, password, managementRole, managementPassword,
                  f.maxOpenConnections, f.maxIdleConnections, f.maxConnectionLifetime, f.database, false, f.sslMode)
  }

  /** The record holds the request's values, each in its own place, and the fresh role and passwords. */
  predicate Stores(rec: ClusterRecord, f: ClusterFields, managementRole: string, managementPassword: string,
                   password: string) {
    && rec.host == f.host && rec.port == f.port && rec.username == f.username && rec.password == password
    && rec.managementRole == managementRole && rec.managementPassword == managementPassword
    && rec.database == f.database && rec.sslMode == f.sslMode && !rec.disabled
    && rec.maxOpenConnections == f.maxOpenConnections && rec.maxIdleConnections == f.maxIdleConnections
    && rec.maxConnectionLifetime == f.maxConnectionLifetime
  }

  /** Which requests pass validation. */
  predicate Acceptable(f: ClusterFields) {
    && f.host != "" && f.port >= 1 && f.port <= 65535 && f.username != "" && f.database != ""
    && (f.sslMode == "disable" || f.sslMode == "require" || f.sslMode == "verify-ca" || f.sslMode == "verify-full")
  }

  lemma RegisteredIs(rec: ClusterRecord, f: ClusterFields, managementRole: string, managementPassword: string,
                     password: string)
    ensures Stores(rec, f, managementRole, managementPassword, password) <==>
      rec == Registered(f, managementRole, managementPassword, password)
    ensures Registered(f, managementRole, managementPassword, password).Valid() <==> Acceptable(f)
  {}

  /** The keys of the cluster route's schema. Its tenth key, the cluster name, is not a field of the record. */
  datatype Field = ClusterName | Host | Port | Username | Password | MaxOpenConnections | MaxIdleConnections
                 | MaxConnectionLifetime | Database | SSLMode

  class ClusterConfig {
    var host: string
    var port: int
    var username: string
    var password: string
    var managementRole: string
    var managementPassword: string
    var maxOpenConnections: int
    var maxIdleConnections: int
    var maxConnectionLifetime: int
    var database: string
    var disabled: bool
    var sslMode: string

    /** What is stored for this object, and what reading it back gives. */
    function Value(): ClusterRecord
      reads this
    {
      ClusterRecord(host, port, username, password, managementRole, managementPassword,
                    maxOpenConnections, maxIdleConnections, maxConnectionLifetime, database, disabled, sslMode)
    }

    constructor ()
      ensures Value() == ClusterRecord("", 0, "", "", "", "", 0, 0, 0, "", false, "")
    {
      host, port, username, password, managementRole, managementPassword := "", 0, "", "", "", "";
      maxOpenConnections, maxIdleConnections, maxConnectionLifetime, database, disabled, sslMode :=
          0, 0, 0, "", false, "";
    }

    constructor Decode(rec: ClusterRecord)
      ensures Value() == rec
    {
      host, port, username, password := rec.host, rec.port, rec.username, rec.password;
      managementRole, managementPassword := rec.managementRole, rec.managementPassword;
      maxOpenConnections, maxIdleConnections := rec.maxOpenConnections, rec.maxIdleConnections;
      maxConnectionLifetime, database, disabled, sslMode :=
          rec.maxConnectionLifetime, rec.database, rec.disabled, rec.sslMode;
    }

    method Disable()
      modifies this`disabled
      ensures Value() == old(Value()).(disabled := true)
    {
      disabled := true;
    }

    predicate Loaded(data: ClusterFields, k: Field)
      reads this
    {
      match k
      case ClusterName => true
      case Host => host == data.host
      case Port => port == data.port
      case Username => username == data.username
      case Password => password == data.password
      case MaxOpenConnections => maxOpenConnections == data.maxOpenConnections
      case MaxIdleConnections => maxIdleConnections == data.maxIdleConnections
      case MaxConnectionLifetime => maxConnectionLifetime == data.maxConnectionLifetime
      case Database => database == data.database
      case SSLMode => sslMode == data.sslMode
    }

    /** One field of the request. */
    method SetField(data: ClusterFields, k: Field)
      modifies this
      ensures Loaded(data, k) && forall j: Field :: old(Loaded(data, j)) ==> Loaded(data, j)
      ensures managementRole == old(managementRole) && managementPassword == old(managementPassword)
        && disabled == old(disabled)
    {
      match k {
        case ClusterName =>
        case Host => host := data.host;
        case Port => port := data.port;
        case Username => username := data.username;
        case Password => password := data.password;
        case MaxOpenConnections => maxOpenConnections := data.maxOpenConnections;
        case MaxIdleConnections => maxIdleConnections := data.maxIdleConnections;
        case MaxConnectionLifetime => maxConnectionLifetime := data.maxConnectionLifetime;
        case Database => database := data.database;
        case SSLMode => sslMode := data.sslMode;
      }
    }

    /** Fills in the request's fields, whatever order the schema is walked in, and validates the result. */
    method LoadFromFields(data: ClusterFields, schema: seq<Field>) returns (ok: bool)
      requires forall k: Field :: k in schema
      modifies this
      ensures Value()
        == Registered(data, old(managementRole), old(managementPassword), data.password).(disabled := old(disabled))
      ensures forall k: Field :: Loaded(data, k)
      ensures managementRole == old(managementRole) && managementPassword == old(managementPassword)
        && disabled == old(disabled)
      ensures ok <==> Value().Valid()
      ensures ok <==> Acceptable(data)
    {
      var i := 0;
      while i < |schema|
        invariant i <= |schema|
        invariant managementRole == old(managementRole) && managementPassword == old(managementPassword)
          && disabled == old(disabled)
        invariant forall k | k in schema[..i] :: Loaded(data, k)
      {
        assert schema[..i + 1] == schema[..i] + [schema[i]];
        SetField(data, schema[i]);
        i := i + 1;
      }
      assert schema[..i] == schema;
      assert Loaded(data, Host) && Loaded(data, Port) && Loaded(data, Username) && Loaded(data, Password)
          && Loaded(data, Database);
      assert Loaded(data, MaxOpenConnections) && Loaded(data, MaxIdleConnections) && Loaded(data, MaxConnectionLifetime)
          && Loaded(data, SSLMode);
      ok := Value().Valid();
    }
  }

  class DbConfig {
    var cluster: string
    var database: string
    var objectsOwner: string
    var disabled: bool

    function Value(): DbRecord
      reads this
    {
      DbRecord(cluster, database, objectsOwner, disabled)
    }

    constructor Decode(rec: DbRecord)
      ensures Value() == rec
    {
      cluster, database, objectsOwner, disabled := rec.cluster, rec.database, rec.objectsOwner, rec.disabled;
    }

    method Disable()
      modifies this`disabled
      ensures Value() == old(Value()).(disabled := true)
    {
      disabled := true;
    }
  }

  /** Get and decode. A record of another kind cannot be at the key, so decoding does not fail. */
  method FetchCluster(storage: Storage, c: string) returns (r: Outcome<ClusterRecord>)
    requires storage.Valid() && '/' !in c
    modifies storage`calls, storage`failures
    ensures storage.calls == old(storage.calls) + 1
    ensures r == Failed(StorageError) <==> storage.faults(old(storage.calls)) != Fine
    ensures storage.failures == old(storage.failures) + if r == Failed(StorageError) then 1 else 0
    ensures r == Failed(StorageError)
      || r == if c in storage.Now().clusters then Done(storage.Now().clusters[c]) else Failed(NotFound)
    ensures r.Done? ==> IsName(c)
  {
    storage.Unfold();
    if c == "" { NoEmptyName(storage.data); }
    var entry := storage.Get(ClusterKey(c));
    r := match entry
      case Err => Failed(StorageError)
      case Ok(None) => Failed(NotFound)
      case Ok(Some(rec)) => Done(rec.cluster);
  }

  method FetchDb(storage: Storage, c: Name, d: string) returns (r: Outcome<DbRecord>)
    requires storage.Valid()
    modifies storage`calls, storage`failures
    ensures storage.calls == old(storage.calls) + 1
    ensures r == Failed(StorageError) <==> storage.faults(old(storage.calls)) != Fine
    ensures storage.failures == old(storage.failures) + if r == Failed(StorageError) then 1 else 0
    ensures r == Failed(StorageError)
      || r == if DbId(c, d) in storage.Now().dbs then Done(storage.Now().dbs[DbId(c, d)]) else Failed(NotFound)
    ensures r.Done? ==> IsName(d)
  {
    storage.Unfold();
    var entry := storage.Get(DatabaseKey(c, d));
    r := match entry
      case Err => Failed(StorageError)
      case Ok(None) => Failed(NotFound)
      case Ok(Some(rec)) => Done(rec.db);
  }

  method LoadClusterEntry(storage: Storage, c: string) returns (r: Outcome<ClusterConfig>)
    requires storage.Valid() && '/' !in c
    modifies storage`calls, storage`failures
    ensures storage.calls == old(storage.calls) + 1
    ensures r == Failed(StorageError) <==> storage.faults(old(storage.calls)) != Fine
    ensures storage.failures == old(storage.failures) + if r == Failed(StorageError) then 1 else 0
    ensures r != Failed(StorageError) && c !in storage.Now().clusters ==> r == Failed(NotFound)
    ensures r != Failed(StorageError) && c in storage.Now().clusters ==>
              r.Done? && fresh(r.value) && r.value.Value() == storage.Now().clusters[c] && IsName(c)
  {
    var fetched := FetchCluster(storage, c);
    if !fetched.Done? { return Failed(fetched.error); }
    var cfg := new ClusterConfig.Decode(fetched.value);
    r := Done(cfg);
  }

  method StoreClusterEntry(storage: Storage, c: Name, cfg: ClusterConfig) returns (acked: bool, ghost made: seq<Write>)
    requires storage.Valid()
    modifies storage`data, storage`calls, storage`failures, storage`unacked, storage`log, storage`now
    ensures storage.Valid() && storage.failures == old(storage.failures) + (if acked then 0 else 1)
    ensures storage.calls == old(storage.calls) + 1
    ensures acked <==> storage.faults(old(storage.calls)) == Fine
    ensures storage.unacked == old(storage.unacked) + if made != [] && !acked then 1 else 0
    ensures made == [PutCluster(c, cfg.Value())] || (made == [] && !acked)
    ensures storage.log == old(storage.log) + made && storage.Now() == ApplyAll(old(storage.Now()), made)
  {
    acked, made := storage.Put(ClusterKey(c), ClusterRec(cfg.Value()), PutCluster(c, cfg.Value()));
  }

  method LoadDbEntry(storage: Storage, c: Name, d: string) returns (r: Outcome<DbConfig>)
    requires storage.Valid()
    modifies storage`calls, storage`failures
    ensures storage.calls == old(storage.calls) + 1
    ensures r == Failed(StorageError) <==> storage.faults(old(storage.calls)) != Fine
    ensures storage.failures == old(storage.failures) + if r == Failed(StorageError) then 1 else 0
    ensures r != Failed(StorageError) && DbId(c, d) !in storage.Now().dbs ==> r == Failed(NotFound)
    ensures r != Failed(StorageError) && DbId(c, d) in storage.Now().dbs ==>
              r.Done? && fresh(r.value) && r.value.Value() == storage.Now().dbs[DbId(c, d)] && IsName(d)
  {
    var fetched := FetchDb(storage, c, d);
    if !fetched.Done? { return Failed(fetched.error); }
    var db := new DbConfig.Decode(fetched.value);
    r := Done(db);
  }

  method StoreDbEntry(storage: Storage, c: Name, d: Name, db: DbConfig) returns (acked: bool, ghost made: seq<Write>)
    requires storage.Valid()
    modifies storage`data, storage`calls, storage`failures, storage`unacked, storage`log, storage`now
    ensures storage.Valid() && storage.failures == old(storage.failures) + (if acked then 0 else 1)
    ensures storage.calls == old(storage.calls) + 1
    ensures acked <==> storage.faults(old(storage.calls)) == Fine
    ensures storage.unacked == old(storage.unacked) + if made != [] && !acked then 1 else 0
    ensures made == [PutDb(DbId(c, d), db.Value())] || (made == [] && !acked)
    ensures storage.log == old(storage.log) + made && storage.Now() == ApplyAll(old(storage.Now()), made)
  {
    acked, made := storage.Put(DatabaseKey(c, d), DbRec(db.Value()), PutDb(DbId(c, d), db.Value()));
  }

  /** Stores a database where that is all a request has left to do. */
  method FinishWithDb(storage: Storage, c: Name, d: Name, db: DbConfig, ghost op: Op)
    returns (r: Outcome<()>, ghost ws: seq<Write>)
    requires storage.Valid() && Legal(storage.Now(), op) && Verdict(storage.Now(), op) == Done(())
    requires Plan(storage.Now(), op) == [PutDb(DbId(c, d), db.Value())]
    modifies storage`data, storage`calls, storage`failures, storage`unacked, storage`log, storage`now
    ensures storage.Valid() && storage.log == old(storage.log) + ws && storage.Now() == ApplyAll(old(storage.Now()), ws)
    ensures Handled(old(storage.Now()), op, ws, r, storage.failures == old(storage.failures))
    ensures storage.calls == old(storage.calls) + 1
    ensures storage.failures == old(storage.failures) + if storage.faults(old(storage.calls)) == Fine then 0 else 1
    ensures r.Done? || r == Failed(StorageError)
    ensures old(storage.Sound()) ==> storage.Sound()
  {
    storage.Replay();
    ghost var g, log := storage.Now(), storage.log;
    var acked;
    acked, ws := StoreDbEntry(storage, c, d, db);
    r := if acked then Done(()) else Failed(StorageError);
    StaysSound(g, log, op, ws);
  }

  /** The same for a cluster. */
  method FinishWithCluster(storage: Storage, c: Name, cfg: ClusterConfig, ghost op: Op)
    returns (r: Outcome<()>, ghost ws: seq<Write>)
    requires storage.Valid() && Legal(storage.Now(), op) && Verdict(storage.Now(), op) == Done(())
    requires Plan(storage.Now(), op) == [PutCluster(c, cfg.Value())]
    modifies storage`data, storage`calls, storage`failures, storage`unacked, storage`log, storage`now
    ensures storage.Valid() && storage.log == old(storage.log) + ws && storage.Now() == ApplyAll(old(storage.Now()), ws)
    ensures Handled(old(storage.Now()), op, ws, r, storage.failures == old(storage.failures))
    ensures storage.calls == old(storage.calls) + 1
    ensures storage.failures == old(storage.failures) + if storage.faults(old(storage.calls)) == Fine then 0 else 1
    ensures r.Done? || r == Failed(StorageError)
    ensures old(storage.Sound()) ==> storage.Sound()
  {
    storage.Replay();
    ghost var g, log := storage.Now(), storage.log;
    var acked;
    acked, ws := StoreClusterEntry(storage, c, cfg);
    r := if acked then Done(()) else Failed(StorageError);
    StaysSound(g, log, op, ws);
  }
}
