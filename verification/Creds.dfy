/** path-creds.go */
module Creds {
  import opened Paths
  import opened Records
  import opened Operations
  import opened Vault
  import opened Servers
  import opened Entries
  import opened Identifiers
  import opened Databases
  import opened Roles
  import opened Expiry
  import opened Leases
  import opened Logins

  /** The revocation statements of a role that is gone. */
  function DefaultRevocation(): seq<string> { seq(7, i requires 0 <= i < 7 => DefaultStatement(i)) }

  function DefaultStatement(i: nat): string
    requires i < 7
  {
    if i == 0 then "set role {{user}}"
    else if i == 1 then "reassign owned by {{user}} to {{objects_owner}}"
    else if i == 2 then "drop owned by {{user}}"
    else if i == 3 then "reset role"
    else if i == 4 then "revoke {{objects_owner}} from {{user}}"
    else if i == 5 then "revoke connect on database {{database}} from {{user}}"
    else "drop role if exists {{user}}"
  }

  /** In this order: what the user owns goes to the owner's role before the rest of it is dropped, both in the user's
      own
      role, and the user itself goes last. */
  lemma DefaultOrder()
    ensures DefaultRevocation() == [
      "set role {{user}}", "reassign owned by {{user}} to {{objects_owner}}", "drop owned by {{user}}", "reset role",
      "revoke {{objects_owner}} from {{user}}", "revoke connect on database {{database}} from {{user}}",
      "drop role if exists {{user}}"]
  {}

  /** What a response says about the lease. A renewal's carries no password. */
  datatype Grant = Grant(user: string, password: string, ttl: int, maxTTL: int)

  /** No login was made with this UUID before. */
  ghost predicate FreshId(leases: map<string, Lease>, id: Uuid) {
    forall user | user in leases :: |user| < 36 || user[|user| - 36..] != id
  }

  /** Cluster, database and role, in the order in which a creation asks for them. */
  function IssueVerdict(g: Config, id: DbId, role: string): Outcome<()> {
    var read := ReadDb(g, id);
    if read.Refused? then Refused(read.reason)
    else if role !in g.roles then Refused(RoleMissing)
    else Done(())
  }

  function RenewVerdict(g: Config, id: DbId, role: string): Outcome<()> {
    if role !in g.roles then Refused(RoleMissing) else IssueVerdict(g, id, role)
  }

  /** Reads cluster and database, neither of which may be deleted. */
  method ReadUsable(storage: Storage, cn: Name, dn: Name)
    returns (r: Outcome<()>, objectsOwner: string, group: string)
    requires storage.Valid()
    modifies storage`calls, storage`failures
    ensures r == Failed(StorageError) || (r.Done? && ReadDb(storage.Now(), DbId(cn, dn)).Done?)
      || (r.Refused? && ReadDb(storage.Now(), DbId(cn, dn)) == Refused(r.reason))
    ensures r.Done? ==>
      && objectsOwner == storage.Now().dbs[DbId(cn, dn)].objectsOwner
      && group == storage.Now().clusters[cn].managementRole
    ensures storage.failures == old(storage.failures) + if r.Failed? then 1 else 0
    ensures r.Done? ==> storage.calls == old(storage.calls) + 2
    ensures r.Done? ==> storage.faults(old(storage.calls)) == Fine && storage.faults(old(storage.calls) + 1) == Fine
    ensures r.Failed? ==> storage.faults(old(storage.calls)) != Fine || storage.faults(old(storage.calls) + 1) != Fine
  {
    objectsOwner, group := "", "";
    var cluster := LoadClusterEntry(storage, cn);
    if cluster == Failed(NotFound) { return Refused(ClusterMissing), "", ""; }
    if cluster.Failed? { return Failed(cluster.error), "", ""; }
    if cluster.value.disabled { return Refused(ClusterDeleted), "", ""; }
    var database := LoadDbEntry(storage, cn, dn);
    if database == Failed(NotFound) { return Refused(DatabaseMissing), "", ""; }
    if database.Failed? { return Failed(database.error), "", ""; }
    if database.value.disabled { return Refused(DatabaseDeleted), "", ""; }
    r, objectsOwner, group := Done(()), database.value.objectsOwner, cluster.value.managementRole;
  }

  lemma FreshUser(leases: map<string, Lease>, displayName: string, id: Uuid)
    requires FreshId(leases, id)
    ensures UserName(displayName, id) !in leases
  {
    UserNameKeepsUuid(displayName, id);
  }

  lemma MayIssue(g: Config, leases: map<string, Lease>, sys: SystemView, user: string, lease: Lease, clock: Clock)
    requires Usable(g, lease.Db(), lease.role) && user !in leases && clock.Valid() && lease.issued == clock.granted
    requires lease.owner == g.dbs[lease.Db()].objectsOwner
    requires CreateTTL(sys, g.roles[lease.role], clock).Some?
    requires lease.until == CreatedUntil(clock, CreateTTL(sys, g.roles[lease.role], clock).value)
    ensures Enabled(World(g, leases), Issued(user, lease, CreateCap(sys, g.roles[lease.role])))
  {
    CreateWithinCap(sys, g.roles[lease.role], clock);
    TruncatedBounds(clock.formatted + CreateTTL(sys, g.roles[lease.role], clock).value);
  }

  /** What a creation guarantees: at most the one lease was issued, enabled where it was; all of the role's
      statements were sent before it was; refusals and failures before the commit leave everything alone. */
  ghost predicate Created(g: Config, before: map<string, Lease>, id: DbId, role: string, user: string, password: string,
                          sys: SystemView, clock: Clock, sent: seq<Call>, runs: nat -> bool, r: Outcome<Grant>,
                          es: seq<Event>) {
    && IsHistory(World(g, before), es)
    && (r.Refused? ==> es == [] && IssueVerdict(g, id, role) == Refused(r.reason))
    && (r.Failed? && r.error != ServerError ==> es == [])
    && (r == Failed(ServerError) ==> Usable(g, id, role))
    && (r == Failed(TtlError) ==> Usable(g, id, role) && CreateCap(sys, g.roles[role]) <= 0)
    && (r.Done? ==> es != [] && Usable(g, id, role))
    && (r.Done? ==> r.value == Grant(user, password, GetDefaultTTL(g.roles[role]), GetMaxTTL(g.roles[role])))
    && (es != [] ==>
          && Usable(g, id, role) && CreateTTL(sys, g.roles[role], clock).Some? && AllRun(runs, |sent|)
          && var until := CreatedUntil(clock, CreateTTL(sys, g.roles[role], clock).value);
          && es == [Issued(user, Lease(id.cluster, id.name, role, g.dbs[id].objectsOwner, clock.granted, until),
                           CreateCap(sys, g.roles[role]))]
          && sent == Calls(g.roles[role].creationStatement,
                           Creating(user, password, until, g.dbs[id].objectsOwner,
                                    g.clusters[id.cluster].managementRole)))
  }

  /** From the n-th storage call on, the schedule lets cluster and database be read, but not the role. */
  predicate RoleReadFails(faults: nat -> Fault, n: nat) {
    faults(n) == Fine && faults(n + 1) == Fine && faults(n + 2) != Fine
  }

  /** What a creation reads: the owner and the group of the new login, and the role it is for. */
  datatype Readings = Readings(objectsOwner: string, group: string, role: RoleRecord)

  /** The reads of a creation. A failing read of the role is not looked at: the handler goes on without a role and
      crashes, exactly when all checks before that read have passed. */
  method ReadAll(storage: Storage, cn: Name, dn: Name, roleName: Name) returns (r: Outcome<Readings>)
    requires storage.Valid()
    modifies storage`calls, storage`failures
    ensures r == Failed(NilRole) <==>
      ReadDb(storage.Now(), DbId(cn, dn)).Done? && RoleReadFails(storage.faults, old(storage.calls))
    ensures r.Failed? ==> r.error in {StorageError, NilRole}
    ensures storage.failures == old(storage.failures) + if r.Failed? then 1 else 0
    ensures r.Refused? ==> IssueVerdict(storage.Now(), DbId(cn, dn), roleName) == Refused(r.reason)
    ensures r.Done? ==> Usable(storage.Now(), DbId(cn, dn), roleName)
    ensures r.Done? ==> r.value.objectsOwner == storage.Now().dbs[DbId(cn, dn)].objectsOwner
    ensures r.Done? ==>
      r.value.group == storage.Now().clusters[cn].managementRole && r.value.role == storage.Now().roles[roleName]
  {
    var ready, objectsOwner, group := ReadUsable(storage, cn, dn);
    if ready.Failed? { return Failed(ready.error); }
    if ready.Refused? { return Refused(ready.reason); }
    var loaded := FetchRole(storage, roleName);
    if loaded == Failed(NotFound) { return Refused(RoleMissing); }
    if loaded.Failed? { return Failed(NilRole); }
    r := Done(Readings(objectsOwner, group, loaded.value));
  }

  /** Creates a login. */
  method SecretCredsCreate(storage: Storage, pg: Postgres, server: Server, tx: Transaction, clusterName: Name,
                           databaseName: Name, roleName: Name, displayName: string, userId: Uuid, password: Uuid,
                           sys: SystemView, clock: Clock)
    returns (r: Outcome<Grant>, ghost es: seq<Event>)
    requires storage.Valid() && tx.Valid() && tx.sent == [] && clock.Valid() && FreshId(server.leases, userId)
    modifies storage`calls, storage`failures, pg`calls, pg`failures, server, tx
    ensures server.leases == LeasesAfterAll(old(server.leases), es)
    ensures Created(storage.Now(), old(server.leases), DbId(clusterName, databaseName), roleName,
                    UserName(displayName, userId), password,
                    sys, clock, tx.sent, tx.runs, r, es)
    ensures r == Failed(StorageError) ==> storage.failures > old(storage.failures)
    ensures es == [] ==> server.leases == old(server.leases)
    ensures es != [] ==>
      var g := storage.Now();
      var role := g.roles[roleName];
      Gained(old(server.leases), server.leases, UserName(displayName, userId),
             Lease(clusterName, databaseName, roleName, g.dbs[DbId(clusterName, databaseName)].objectsOwner,
                   clock.granted, CreatedUntil(clock, CreateTTL(sys, role, clock).GetOr(0))))
    ensures r != Failed(NotFound)
    ensures r == Failed(NilRole) ==> storage.failures == old(storage.failures) + 1
    ensures r == Failed(NilRole) <==>
      ReadDb(storage.Now(), DbId(clusterName, databaseName)).Done? && RoleReadFails(storage.faults, old(storage.calls))
    ensures r == Failed(ServerError) ==>
      || pg.failures > old(pg.failures) || server.failures > old(server.failures)
      || !Reachable(pg.servers, storage.Now().clusters[clusterName], true) || !AllRun(tx.runs, |tx.sent|)
  {
    es := [];
    var read := ReadAll(storage, clusterName, databaseName, roleName);
    if read.Failed? { return Failed(read.error), es; }
    if read.Refused? { return Refused(read.reason), es; }
    var draft := Lease(clusterName, databaseName, roleName, read.value.objectsOwner, clock.granted, 0);
    ghost var before := server.leases;
    r, es := CreateLogin(storage, pg, server, tx, draft, read.value.group, read.value.role,
                         UserName(displayName, userId), userId, displayName, password, sys, clock);
    FreshUser(before, displayName, userId);
    if es != [] { OneEvent(before, es[0]); }
  }

  /** A storage with one cluster and one database of it, as two registrations leave it. */
  method OneDatabase(faults: nat -> Fault) returns (storage: Storage)
    requires faults(0) == faults(1) == Fine
    ensures fresh(storage) && storage.Sound() && storage.faults == faults
    ensures storage.calls == 2 && storage.failures == 0
    ensures ReadDb(storage.Now(), DbId("c", "d")).Done?
  {
    storage := new Storage(faults);
    var rec := ClusterRecord("h", 5432, "root", "p", "m", "q", 0, 0, 0, "postgres", false, "require");
    var cluster := new ClusterConfig.Decode(rec);
    var db := new DbConfig.Decode(DbRecord("c", "d", "o", false));
    var r, made := FinishWithCluster(storage, "c", cluster, RegisterCluster("c", rec));
    ApplyOne(EMPTY, PutCluster("c", rec));
    r, made := FinishWithDb(storage, "c", "d", db, RegisterDb(DbId("c", "d"), "o"));
    ApplyOne(Apply(EMPTY, PutCluster("c", rec)), PutDb(DbId("c", "d"), db.Value()));
  }

  /** A schedule under which a creation crashes: of all storage calls only the read of the role fails. */
  method CreationCrashes() returns (storage: Storage, r: Outcome<Grant>)
    ensures storage.Sound() && storage.failures == 1 && r == Failed(NilRole)
  {
    storage := OneDatabase(n => if n == 4 then Lost else Fine);
    r := CrashOn(storage);
  }

  /** Any creation in that storage. */
  method CrashOn(storage: Storage) returns (r: Outcome<Grant>)
    requires storage.Sound() && RoleReadFails(storage.faults, storage.calls)
    requires ReadDb(storage.Now(), DbId("c", "d")).Done?
    modifies storage`calls, storage`failures
    ensures storage.Sound() && storage.failures == old(storage.failures) + 1 && r == Failed(NilRole)
  {
    var pg := new Postgres(map[], n => Fine);
    var server := new Server(n => Fine);
    var tx := new Transaction(n => true);
    r := CreateAny(storage, pg, server, tx);
  }

  method CreateAny(storage: Storage, pg: Postgres, server: Server, tx: Transaction) returns (r: Outcome<Grant>)
    requires storage.Valid() && server.leases == map[] && tx.Valid() && tx.sent == []
    modifies storage`calls, storage`failures, pg`calls, pg`failures, server, tx
    ensures r == Failed(NilRole) <==>
      ReadDb(storage.Now(), DbId("c", "d")).Done? && RoleReadFails(storage.faults, old(storage.calls))
    ensures r == Failed(NilRole) ==> storage.failures == old(storage.failures) + 1
  {
    var id: Uuid := seq(36, _ => 'f');
    ghost var es;
    r, es := SecretCredsCreate(storage, pg, server, tx, "c", "d", "r", "user", id, id, SystemView(DAY, DAY),
                               Clock(0, 0, 0, 0));
  }

  /** The rest of a creation, once cluster, database and role have been read. */
  method CreateLogin(storage: Storage, pg: Postgres, server: Server, tx: Transaction, draft: Lease, group: string,
                     role: RoleRecord, username: string, userId: Uuid, displayName: string, password: Uuid,
                     sys: SystemView, clock: Clock)
    returns (r: Outcome<Grant>, ghost es: seq<Event>)
    requires storage.Valid() && tx.Valid() && tx.sent == [] && clock.Valid() && FreshId(server.leases, userId)
      && username == UserName(displayName, userId)
    requires IsName(draft.cluster) && Usable(storage.Now(), draft.Db(), draft.role)
      && role == storage.Now().roles[draft.role]
    requires draft.owner == storage.Now().dbs[draft.Db()].objectsOwner && draft.issued == clock.granted
    requires group == storage.Now().clusters[draft.cluster].managementRole
    modifies storage`calls, storage`failures, pg`calls, pg`failures, server, tx
    ensures server.leases == LeasesAfterAll(old(server.leases), es)
    ensures Created(storage.Now(), old(server.leases), draft.Db(), draft.role, username, password, sys, clock, tx.sent,
                    tx.runs, r, es)
    ensures r == Failed(StorageError) ==> storage.failures > old(storage.failures)
    ensures !r.Refused? && r !in {Failed(NotFound), Failed(NilRole)}
    ensures r == Failed(ServerError) ==>
      || pg.failures > old(pg.failures) || server.failures > old(server.failures)
      || !Reachable(pg.servers, storage.Now().clusters[draft.cluster], true) || !AllRun(tx.runs, |tx.sent|)
  {
    es := [];
    var ttl := CreateTTL(sys, role, clock);
    CreateWithinCap(sys, role, clock);
    if ttl.None? { return Failed(TtlError), es; }
    var expiration := CreatedUntil(clock, ttl.value);
    FreshUser(server.leases, displayName, userId);
    var lease := draft.(until := expiration);
    MayIssue(storage.Now(), server.leases, sys, username, lease, clock);
    var params := Creating(username, password, expiration, draft.owner, group);
    r, es := ConnectAndIssue(storage, pg, server, tx, role, params, lease, CreateCap(sys, role));
    OneEventHistory(World(storage.Now(), old(server.leases)), Issued(username, lease, CreateCap(sys, role)), es);
  }

  /** The part of a creation that talks to the server. */
  method ConnectAndIssue(storage: Storage, pg: Postgres, server: Server, tx: Transaction, role: RoleRecord,
                         params: Params, lease: Lease, cap: int)
    returns (r: Outcome<Grant>, ghost es: seq<Event>)
    requires storage.Valid() && tx.Valid() && tx.sent == [] && params.Creating?
    requires IsName(lease.cluster) && lease.cluster in storage.Now().clusters
    modifies storage`calls, storage`failures, pg`calls, pg`failures, server, tx
    ensures server.leases == LeasesAfterAll(old(server.leases), es)
    ensures es == [] || es == [Issued(params.user, lease, cap)]
    ensures es != [] ==> tx.sent == Calls(role.creationStatement, params) && AllRun(tx.runs, |tx.sent|)
    ensures r == Failed(StorageError) ==> es == [] && storage.failures > old(storage.failures)
    ensures r == Failed(ServerError) ==>
      || pg.failures > old(pg.failures) || server.failures > old(server.failures)
      || !Reachable(pg.servers, storage.Now().clusters[lease.cluster], true) || !AllRun(tx.runs, |tx.sent|)
    ensures r in {Failed(StorageError), Failed(ServerError)}
      || (r.Done? && es != [] && r.value == Grant(params.user, params.password, GetDefaultTTL(role), GetMaxTTL(role)))
  {
    es := [];
    var conn := GetConn(storage, pg, true, lease.cluster);
    if conn.Failed? { return Failed(conn.error), es; }
    r, es := Issue(server, tx, role, params, lease, cap);
  }

  /** The transaction of a creation. */
  method Issue(server: Server, tx: Transaction, role: RoleRecord, params: Params, lease: Lease, cap: int)
    returns (r: Outcome<Grant>, ghost es: seq<Event>)
    requires tx.Valid() && tx.sent == [] && params.Creating?
    modifies server, tx
    ensures server.leases == LeasesAfterAll(old(server.leases), es)
    ensures es == [] || es == [Issued(params.user, lease, cap)]
    ensures es != [] ==> tx.sent == Calls(role.creationStatement, params) && AllRun(tx.runs, |tx.sent|)
    ensures r == Failed(ServerError) ==> server.failures > old(server.failures) || !AllRun(tx.runs, |tx.sent|)
    ensures r == Failed(ServerError)
      || (r.Done? && es != [] && r.value == Grant(params.user, params.password, GetDefaultTTL(role), GetMaxTTL(role)))
  {
    es := [];
    var ok := server.Begin();
    if !ok { return Failed(ServerError), es; }
    ok := RunAll(tx, role.creationStatement, params);
    if !ok { return Failed(ServerError), es; }
    var acked;
    acked, es := server.Commit(tx, Issued(params.user, lease, cap));
    r := if acked then Done(Grant(params.user, params.password, GetDefaultTTL(role), GetMaxTTL(role)))
        else Failed(ServerError);
  }

  /** What Vault keeps of a lease and hands back to renew or revoke it: getInternalStr's four, and the issue time. */
  datatype Secret = Secret(role: Name, user: string, cluster: Name, database: Name, issued: int) {
    function Db(): DbId { DbId(cluster, database) }

    /** The login, if the server still has it, is the one this was issued for. */
    ghost predicate Matches(leases: map<string, Lease>) {
      user in leases ==> leases[user].Db() == Db() && leases[user].role == role && leases[user].issued == issued
    }
  }

  /** What a renewal guarantees. */
  ghost predicate Extended(g: Config, before: map<string, Lease>, secret: Secret, increment: int, sys: SystemView,
                           clock: Clock, r: Outcome<Grant>, es: seq<Event>) {
    && IsHistory(World(g, before), es)
    && (r.Refused? ==> es == [] && RenewVerdict(g, secret.Db(), secret.role) == Refused(r.reason))
    && (r.Failed? ==> r.error in {StorageError, ServerError} && (r.error == StorageError ==> es == []))
    && (r == Failed(ServerError) ==> secret.cluster in g.clusters)
    && (r.Done? || es != [] ==> Usable(g, secret.Db(), secret.role))
    && (Usable(g, secret.Db(), secret.role) ==>
          var role := g.roles[secret.role];
          var ttl := RenewTTL(sys, increment, role, secret.issued, clock).GetOr(0);
          && (r.Done? ==> r.value == Grant(secret.user, "", ttl, GetMaxTTL(role)) && (es == [] <==> ttl <= 0))
          && (es != [] ==> es == [Renewed(secret.user, clock, ttl, RenewCap(sys, role))] && ttl > 0))
  }

  /** Extends a login's expiry. An error of CalculateTTL is not looked at: it counts as a zero TTL. */
  method SecretCredsRenew(storage: Storage, pg: Postgres, server: Server, secret: Secret, increment: int,
                          sys: SystemView, clock: Clock)
    returns (r: Outcome<Grant>, ghost es: seq<Event>)
    requires storage.Valid() && clock.Valid() && secret.Matches(server.leases)
    modifies storage`calls, storage`failures, pg`calls, pg`failures, server
    ensures server.leases == LeasesAfterAll(old(server.leases), es)
    ensures Extended(storage.Now(), old(server.leases), secret, increment, sys, clock, r, es)
    ensures r == Failed(StorageError) ==> storage.failures > old(storage.failures)
    ensures r == Failed(ServerError) ==>
      || pg.failures > old(pg.failures) || server.failures > old(server.failures)
      || !Reachable(pg.servers, storage.Now().clusters[secret.cluster], true) || secret.user !in old(server.leases)
    ensures r.Done? && es != [] ==> secret.user in old(server.leases)
    ensures es == [] ==> server.leases == old(server.leases)
    ensures es != [] ==>
      var ttl := RenewTTL(sys, increment, storage.Now().roles[secret.role], secret.issued, clock).GetOr(0);
      Prolonged(old(server.leases), server.leases, secret.user, RenewedUntil(clock, ttl))
  {
    es := [];
    var loaded := FetchRole(storage, secret.role);
    if loaded == Failed(NotFound) { return Refused(RoleMissing), es; }
    if loaded.Failed? { return Failed(loaded.error), es; }
    var role := loaded.value;
    var ready, _, _ := ReadUsable(storage, secret.cluster, secret.database);
    if ready.Failed? { return Failed(ready.error), es; }
    if ready.Refused? { return Refused(ready.reason), es; }
    ghost var before := server.leases;
    r, es := RenewLogin(storage, pg, server, secret, role, increment, sys, clock);
    if es != [] { OneEvent(before, es[0]); }
  }

  /** The rest of a renewal, once cluster, database and role have been read. */
  method RenewLogin(storage: Storage, pg: Postgres, server: Server, secret: Secret, role: RoleRecord, increment: int,
                    sys: SystemView, clock: Clock)
    returns (r: Outcome<Grant>, ghost es: seq<Event>)
    requires storage.Valid() && clock.Valid() && secret.Matches(server.leases)
    requires Usable(storage.Now(), secret.Db(), secret.role) && role == storage.Now().roles[secret.role]
    modifies storage`calls, storage`failures, pg`calls, pg`failures, server
    ensures server.leases == LeasesAfterAll(old(server.leases), es)
    ensures Extended(storage.Now(), old(server.leases), secret, increment, sys, clock, r, es)
    ensures r == Failed(StorageError) ==> storage.failures > old(storage.failures)
    ensures r == Failed(ServerError) ==>
      || pg.failures > old(pg.failures) || server.failures > old(server.failures)
      || !Reachable(pg.servers, storage.Now().clusters[secret.cluster], true) || secret.user !in old(server.leases)
    ensures r.Done? && es != [] ==> secret.user in old(server.leases)
  {
    es := [];
    var ttl := RenewTTL(sys, increment, role, secret.issued, clock).GetOr(0);
    if ttl > 0 {
      var conn := GetConn(storage, pg, true, secret.cluster);
      if conn.Failed? { return Failed(conn.error), es; }
      var acked;
      acked, es := server.Carry(Renewed(secret.user, clock, ttl, RenewCap(sys, role)));
      MayRenew(storage.Now(), old(server.leases), secret, increment, sys, clock, es);
      if !acked { return Failed(ServerError), es; }
    }
    r := Done(Grant(secret.user, "", ttl, GetMaxTTL(role)));
  }

  lemma MayRenew(g: Config, leases: map<string, Lease>, secret: Secret, increment: int, sys: SystemView, clock: Clock,
                 es: seq<Event>)
    requires secret.Matches(leases) && Usable(g, secret.Db(), secret.role) && clock.Valid()
    requires RenewTTL(sys, increment, g.roles[secret.role], secret.issued, clock).GetOr(0) > 0
    requires var role := g.roles[secret.role];
      es == [] || (secret.user in leases && es == [Renewed(secret.user, clock,
        RenewTTL(sys, increment, role, secret.issued, clock).GetOr(0), RenewCap(sys, role))])
    ensures IsHistory(World(g, leases), es)
  {
    RenewWithinCap(sys, increment, g.roles[secret.role], secret.issued, clock);
    if es != [] { OneEventHistory(World(g, leases), es[0], es); }
  }

  /** The answer to a revocation when no call fails. Deleted records will do, missing ones will not. */
  function RevokeVerdict(g: Config, id: DbId): Outcome<()> {
    if id.cluster !in g.clusters then Refused(ClusterMissing)
    else if id !in g.dbs then Refused(DatabaseMissing)
    else Done(())
  }

  /** What a revocation guarantees: the login ended only if every statement was sent, for the owner the database has
      now,
      and carried out. The driver does not commit otherwise, so the warnings about statements are never answered: what
      is
      left to warn of is a missing role. */
  ghost predicate Revoked(g: Config, before: map<string, Lease>, secret: Secret, revocationSQL: seq<string>,
                          roleMissing: bool, sent: seq<Call>, runs: nat -> bool, r: Outcome<nat>, es: seq<Event>) {
    var id := secret.Db();
    && IsHistory(World(g, before), es)
    && (r.Refused? ==> es == [] && RevokeVerdict(g, id) == Refused(r.reason))
    && (r.Failed? ==> r.error in {StorageError, ServerError} && (r.error == StorageError ==> es == []))
    && (r == Failed(ServerError) ==> id.cluster in g.clusters)
    && (r.Done? ==> es != [] && r.value == if roleMissing then 1 else 0)
    && (es != [] ==>
          && es == [Ended(secret.user)] && RevokeVerdict(g, id) == Done(()) && AllRun(runs, |sent|)
          && sent == Calls(revocationSQL,
                           Revoking(secret.user, id.name, g.dbs[id].objectsOwner,
                                    g.clusters[id.cluster].managementRole)))
  }

  /** Drops a login, and answers with the number of warnings. The login may be gone already, after a revocation that was
      carried out without being acknowledged. */
  method SecretCredsRevoke(storage: Storage, pg: Postgres, server: Server, tx: Transaction, secret: Secret)
    returns (r: Outcome<nat>, ghost es: seq<Event>)
    requires storage.Valid() && tx.Valid() && tx.sent == [] && secret.Matches(server.leases)
    modifies storage`calls, storage`failures, pg`calls, pg`failures, server, tx
    ensures server.leases == LeasesAfterAll(old(server.leases), es)
    ensures secret.role in storage.Now().roles ==>
      Revoked(storage.Now(), old(server.leases), secret, storage.Now().roles[secret.role].revocationStatement, false,
              tx.sent, tx.runs, r, es)
    ensures secret.role !in storage.Now().roles ==>
      Revoked(storage.Now(), old(server.leases), secret, DefaultRevocation(), true, tx.sent, tx.runs, r, es)
    ensures server.leases == if es == [] then old(server.leases) else old(server.leases) - {secret.user}
    ensures r == Failed(StorageError) ==> storage.failures > old(storage.failures)
    ensures r == Failed(ServerError) ==>
      || pg.failures > old(pg.failures) || server.failures > old(server.failures)
      || !Reachable(pg.servers, storage.Now().clusters[secret.cluster], true) || !AllRun(tx.runs, |tx.sent|)
  {
    var role := FetchRole(storage, secret.role);
    if role == Failed(StorageError) { return Failed(StorageError), []; }
    ghost var before := server.leases;
    if role.Done? {
      r, es := RevokeWith(storage, pg, server, tx, role.value.revocationStatement, false, secret);
    } else {
      r, es := RevokeWith(storage, pg, server, tx, DefaultRevocation(), true, secret);
    }
    OneEvent(before, Ended(secret.user));
  }

  /** The rest of a revocation, once the statements to run are known. */
  method RevokeWith(storage: Storage, pg: Postgres, server: Server, tx: Transaction, revocationSQL: seq<string>,
                    roleMissing: bool, secret: Secret)
    returns (r: Outcome<nat>, ghost es: seq<Event>)
    requires storage.Valid() && tx.Valid() && tx.sent == [] && secret.Matches(server.leases)
    modifies storage`calls, storage`failures, pg`calls, pg`failures, server, tx
    ensures server.leases == LeasesAfterAll(old(server.leases), es)
    ensures Revoked(storage.Now(), old(server.leases), secret, revocationSQL, roleMissing, tx.sent, tx.runs, r, es)
    ensures r == Failed(StorageError) ==> storage.failures > old(storage.failures)
    ensures r == Failed(ServerError) ==>
      || pg.failures > old(pg.failures) || server.failures > old(server.failures)
      || !Reachable(pg.servers, storage.Now().clusters[secret.cluster], true) || !AllRun(tx.runs, |tx.sent|)
  {
    es := [];
    var params := ReadRecords(storage, pg, secret.user, secret.cluster, secret.database);
    if params.Failed? { return Failed(params.error), es; }
    if params.Refused? { return Refused(params.reason), es; }
    r, es := Drop(server, tx, revocationSQL, params.value);
    OneEventHistory(World(storage.Now(), old(server.leases)), Ended(secret.user), es);
    if r.Done? && roleMissing { r := Done(r.value + 1); }
  }

  /** Reads cluster and database, deleted or not, and connects. */
  method ReadRecords(storage: Storage, pg: Postgres, username: string, clusterName: Name, databaseName: Name)
    returns (r: Outcome<Params>)
    requires storage.Valid()
    modifies storage`calls, storage`failures, pg`calls, pg`failures
    ensures r.Refused? ==> RevokeVerdict(storage.Now(), DbId(clusterName, databaseName)) == Refused(r.reason)
    ensures r.Failed? ==>
      r.error in {StorageError, ServerError} && (r.error == StorageError ==> storage.failures > old(storage.failures))
    ensures r == Failed(ServerError) ==>
      clusterName in storage.Now().clusters
          && (pg.failures > old(pg.failures) || !Reachable(pg.servers, storage.Now().clusters[clusterName], true))
    ensures r.Done? ==> RevokeVerdict(storage.Now(), DbId(clusterName, databaseName)).Done?
    ensures r.Done? ==>
      r.value == Revoking(username, databaseName, storage.Now().dbs[DbId(clusterName, databaseName)].objectsOwner,
                                            storage.Now().clusters[clusterName].managementRole)
  {
    var cluster := LoadClusterEntry(storage, clusterName);
    if cluster == Failed(NotFound) { return Refused(ClusterMissing); }
    if cluster.Failed? { return Failed(cluster.error); }
    var database := LoadDbEntry(storage, clusterName, databaseName);
    if database == Failed(NotFound) { return Refused(DatabaseMissing); }
    if database.Failed? { return Failed(database.error); }
    var conn := GetConn(storage, pg, true, clusterName);
    if conn.Failed? { return Failed(conn.error); }
    r := Done(Revoking(username, databaseName, database.value.objectsOwner, cluster.value.managementRole));
  }

  /** The transaction of a revocation. */
  method Drop(server: Server, tx: Transaction, revocationSQL: seq<string>, params: Params)
    returns (r: Outcome<nat>, ghost es: seq<Event>)
    requires tx.Valid() && tx.sent == [] && params.Revoking?
    modifies server, tx
    ensures server.leases == LeasesAfterAll(old(server.leases), es)
    ensures es == [] || es == [Ended(params.user)]
    ensures es != [] ==> tx.sent == Calls(revocationSQL, params) && AllRun(tx.runs, |tx.sent|)
    ensures r == Failed(ServerError) ==> server.failures > old(server.failures) || !AllRun(tx.runs, |tx.sent|)
    ensures r == Failed(ServerError) || (r.Done? && es != [] && r.value == 0)
  {
    es := [];
    var ok := server.Begin();
    if !ok { return Failed(ServerError), es; }
    var warnings := AttemptAll(tx, revocationSQL, params);
    var acked;
    acked, es := server.Commit(tx, Ended(params.user));
    NoneNotRun(tx.runs, |tx.sent|);
    r := if acked then Done(warnings) else Failed(ServerError);
  }
}
