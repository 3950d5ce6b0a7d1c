/** The records the handlers keep, the typed configuration they make up together,
    and the single storage writes that change it. */
module Records {
  import opened Paths

  datatype ClusterRecord = ClusterRecord(
    host: string, port: int, username: string, password: string,
    managementRole: string, managementPassword: string,
    maxOpenConnections: int, maxIdleConnections: int, maxConnectionLifetime: int,
    database: string, disabled: bool, sslMode: string)
  {
    /** ClusterConfig.validate */
    predicate Valid() {
      && host != "" && 1 <= port <= 65535 && username != "" && database != ""
      && sslMode in {"disable", "require", "verify-ca", "verify-full"}
    }
  }

  datatype DbRecord = DbRecord(cluster: string, database: string, objectsOwner: string, disabled: bool)
  {
    /** DbConfig.validate, which no handler calls. */
    predicate Valid() {
      database != "" && cluster != "" && objectsOwner != ""
    }
  }

  datatype RoleRecord = RoleRecord(maxTTL: int, defaultTTL: int,
                                   creationStatement: seq<string>, revocationStatement: seq<string>)

  datatype MetaRecord = MetaRecord(cluster: string, database: string, data: map<string, string>)

  /** The address pathMetadataUpdate stores an entry at, below "meta/". */
  function MetaAddr(cluster: string, database: string): string {
    if database != "" then "database/" + cluster + "-" + database else "cluster/" + cluster
  }

  /** What one storage entry decodes to. */
  datatype Record =
    | ClusterRec(cluster: ClusterRecord)
    | DbRec(db: DbRecord)
    | RoleRec(role: RoleRecord)
    | MetaRec(meta: MetaRecord)

  datatype Config = Config(clusters: map<string, ClusterRecord>, dbs: map<DbId, DbRecord>,
                           roles: map<string, RoleRecord>, meta: map<string, MetaRecord>)
  {
    predicate ActiveCluster(c: string) { c in clusters && !clusters[c].disabled }
    predicate DisabledCluster(c: string) { c in clusters && clusters[c].disabled }
    predicate ActiveDb(id: DbId) { id in dbs && !dbs[id].disabled }
    predicate DisabledDb(id: DbId) { id in dbs && dbs[id].disabled }
  }

  /** At most cluster c's own record has changed. */
  predicate OnlyCluster(g: Config, h: Config, c: string) {
    h.clusters - {c} == g.clusters - {c} && h.dbs == g.dbs && h.roles == g.roles && h.meta == g.meta
  }

  /** The same for a database, a role and a metadata entry. */
  predicate OnlyDb(g: Config, h: Config, id: DbId) {
    h.dbs - {id} == g.dbs - {id} && h.clusters == g.clusters && h.roles == g.roles && h.meta == g.meta
  }

  predicate OnlyRole(g: Config, h: Config, r: string) {
    h.roles - {r} == g.roles - {r} && h.clusters == g.clusters && h.dbs == g.dbs && h.meta == g.meta
  }

  predicate OnlyMeta(g: Config, h: Config, addr: string) {
    h.meta - {addr} == g.meta - {addr} && h.clusters == g.clusters && h.dbs == g.dbs && h.roles == g.roles
  }

  const EMPTY := Config(map[], map[], map[], map[])

  /** One write: the granularity at which a handler can be interrupted. */
  datatype Write =
    | PutCluster(c: string, cluster: ClusterRecord)
    | PutDb(id: DbId, db: DbRecord)
    | PutRole(r: string, role: RoleRecord)
    | PutMeta(addr: string, meta: MetaRecord)
    | DelCluster(c: string)
    | DelDb(id: DbId)
    | DelRole(r: string)
    | DelMeta(addr: string)

  function Apply(g: Config, w: Write): Config {
    match w
    case PutCluster(c, rec) => g.(clusters := g.clusters[c := rec])
    case PutDb(id, rec) => g.(dbs := g.dbs[id := rec])
    case PutRole(r, rec) => g.(roles := g.roles[r := rec])
    case PutMeta(addr, rec) => g.(meta := g.meta[addr := rec])
    case DelCluster(c) => g.(clusters := g.clusters - {c})
    case DelDb(id) => g.(dbs := g.dbs - {id})
    case DelRole(r) => g.(roles := g.roles - {r})
    case DelMeta(addr) => g.(meta := g.meta - {addr})
  }

  function ApplyAll(g: Config, ws: seq<Write>): Config {
    if ws == [] then g else Apply(ApplyAll(g, ws[..|ws| - 1]), ws[|ws| - 1])
  }

  lemma ApplySnoc(g: Config, ws: seq<Write>, w: Write)
    ensures ApplyAll(g, ws + [w]) == Apply(ApplyAll(g, ws), w)
  {
    assert (ws + [w])[..|ws|] == ws;
  }

  lemma {:induction false} ApplyConcat(g: Config, us: seq<Write>, vs: seq<Write>)
    ensures ApplyAll(g, us + vs) == ApplyAll(ApplyAll(g, us), vs)
  {
    if vs == [] {
      assert us + vs == us;
    } else {
      var n := |vs| - 1;
      ApplyConcat(g, us, vs[..n]);
      assert (us + vs)[..|us| + n] == us + vs[..n];
    }
  }

  ghost predicate NoDuplicates<T>(s: seq<T>) {
    forall i, j | 0 <= i < j < |s| :: s[i] != s[j]
  }

  /** The contract of Vault's storage.List, which is not part of this repository:
      every child exactly once, in any order. */
  ghost predicate Listing(names: seq<string>, children: set<string>) {
    NoDuplicates(names) && forall n :: n in names <==> n in children
  }

  function DbNames(g: Config, c: string): set<string> {
    set id | id in g.dbs && id.cluster == c :: id.name
  }

  lemma InDbNames(g: Config, c: string, d: string)
    ensures d in DbNames(g, c) <==> DbId(c, d) in g.dbs
  {
    assert DbId(c, d).cluster == c && DbId(c, d).name == d;
  }
}
