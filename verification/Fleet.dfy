/** The reference model: a fleet of clusters, each owning its databases. The flat configuration refines it,
    and every handler has on it the effect its documentation describes. */
module Fleet {
  import opened Paths
  import opened Records
  import opened Protocol
  import opened Operations
  import opened Recovery

  datatype Cluster = Cluster(config: ClusterRecord, dbs: map<string, DbRecord>)

  type Fleet = map<string, Cluster>

  /** The databases of cluster c by name. */
  function DbsOf(g: Config, c: string): map<string, DbRecord> {
    map d | d in DbNames(g, c) && DbId(c, d) in g.dbs :: g.dbs[DbId(c, d)]
  }

  lemma DbsOfAt(g: Config, c: string, d: string)
    ensures d in DbsOf(g, c) <==> DbId(c, d) in g.dbs
    ensures d in DbsOf(g, c) ==> DbsOf(g, c)[d] == g.dbs[DbId(c, d)]
  {
    InDbNames(g, c, d);
  }

  /** The databases of c in g are exactly those of m. */
  lemma DbsOfIs(g: Config, c: string, m: map<string, DbRecord>)
    requires forall d :: d in m <==> DbId(c, d) in g.dbs
    requires forall d | d in m :: m[d] == g.dbs[DbId(c, d)]
    ensures DbsOf(g, c) == m
  {
    forall d ensures d in DbsOf(g, c) <==> d in m { DbsOfAt(g, c, d); }
    forall d | d in m ensures DbsOf(g, c)[d] == m[d] { DbsOfAt(g, c, d); }
  }

  function Nest(g: Config): Fleet {
    map c | c in g.clusters :: Cluster(g.clusters[c], DbsOf(g, c))
  }

  /** The flat configuration of a fleet. Roles and metadata are not part of a fleet. */
  function Flatten(f: Fleet, roles: map<string, RoleRecord>, meta: map<string, MetaRecord>): Config {
    Config(map c | c in f :: f[c].config,
           map c, d | c in f && d in f[c].dbs :: DbId(c, d) := f[c].dbs[d],
           roles, meta)
  }

  /** Nesting loses nothing exactly when no database is without its cluster. */
  lemma NestRoundTrip(g: Config)
    ensures Flatten(Nest(g), g.roles, g.meta) == g <==> forall id | id in g.dbs :: id.cluster in g.clusters
  {
    var h := Flatten(Nest(g), g.roles, g.meta);
    NestKeeps(g);
    if forall id | id in g.dbs :: id.cluster in g.clusters {
      SameDatabases(g.dbs, h.dbs);
    } else {
      var id :| id in g.dbs && id.cluster !in g.clusters;
      assert id !in h.dbs;
    }
  }

  lemma SameDatabases(a: map<DbId, DbRecord>, b: map<DbId, DbRecord>)
    requires (forall id :: id in a <==> id in b) && forall id | id in a :: a[id] == b[id]
    ensures a == b
  {}

  /** What nesting keeps: the clusters, and the databases that have one. */
  lemma NestKeeps(g: Config)
    ensures var h := Flatten(Nest(g), g.roles, g.meta);
      && h.clusters == g.clusters && h.roles == g.roles && h.meta == g.meta
      && (forall id :: id in h.dbs <==> id in g.dbs && id.cluster in g.clusters)
      && (forall id | id in h.dbs :: h.dbs[id] == g.dbs[id])
  {
    var h := Flatten(Nest(g), g.roles, g.meta);
    forall id ensures id in h.dbs <==> id in g.dbs && id.cluster in g.clusters { NestedDb(g, id); }
    forall id | id in h.dbs ensures h.dbs[id] == g.dbs[id] { NestedDb(g, id); }
  }

  lemma NestedDb(g: Config, id: DbId)
    ensures var h := Flatten(Nest(g), g.roles, g.meta);
      && (id in h.dbs <==> id in g.dbs && id.cluster in g.clusters)
      && (id in h.dbs ==> h.dbs[id] == g.dbs[id])
  {
    DbsOfAt(g, id.cluster, id.name);
    assert DbId(id.cluster, id.name) == id;
    FlatDb(Nest(g), g.roles, g.meta, id.cluster, id.name);
  }

  lemma FlatDb(f: Fleet, roles: map<string, RoleRecord>, meta: map<string, MetaRecord>, c: string, d: string)
    ensures var g := Flatten(f, roles, meta);
      && (DbId(c, d) in g.dbs <==> c in f && d in f[c].dbs)
      && (DbId(c, d) in g.dbs ==> g.dbs[DbId(c, d)] == f[c].dbs[d])
  {}

  lemma FlattenRoundTrip(f: Fleet, roles: map<string, RoleRecord>, meta: map<string, MetaRecord>)
    ensures Nest(Flatten(f, roles, meta)) == f
  {
    var g := Flatten(f, roles, meta);
    forall c | c in f ensures DbsOf(g, c) == f[c].dbs {
      forall d ensures d in f[c].dbs <==> DbId(c, d) in g.dbs { FlatDb(f, roles, meta, c, d); }
      forall d | d in f[c].dbs ensures f[c].dbs[d] == g.dbs[DbId(c, d)] { FlatDb(f, roles, meta, c, d); }
      DbsOfIs(g, c, f[c].dbs);
    }
    SameFleet(g, f);
  }

  function Disable(rec: DbRecord): DbRecord { rec.(disabled := true) }

  function DisableEach(dbs: map<string, DbRecord>): map<string, DbRecord> {
    map d | d in dbs :: Disable(dbs[d])
  }

  /** What a clone takes over: the databases that are wanted, each now naming the target as its cluster. */
  function Inherited(dbs: map<string, DbRecord>, target: string, inheritDeleted: bool,
                     skip: set<string>): map<string, DbRecord> {
    map d | d in dbs && (inheritDeleted || !dbs[d].disabled) && d !in skip :: dbs[d].(cluster := target)
  }

  /** The configuration of a cluster on another endpoint, with new passwords. */
  function Moved(c: ClusterRecord, host: string, port: int, managementPassword: string,
                 password: string): ClusterRecord {
    ClusterRecord(host, port, c.username, password, c.managementRole, managementPassword, c.maxOpenConnections,
                  c.maxIdleConnections, c.maxConnectionLifetime, c.database, c.disabled, c.sslMode)
  }

  /** What each request does to a fleet. */
  function Effect(f: Fleet, op: Op): Fleet {
    match op
    case RegisterCluster(c, rec) =>
      // a new cluster starts empty; an active one keeps its databases
      if !rec.Valid() || (c in f && f[c].config.disabled) then f
      else f[c := Cluster(rec, if c in f then f[c].dbs else map[])]
    case DeleteCluster(c, _) =>
      if c !in f || f[c].config.disabled then f
      else f[c := Cluster(f[c].config.(disabled := true), DisableEach(f[c].dbs))]
    case PurgeCluster(c, _) =>
      if c in f && f[c].config.disabled then f - {c} else f
    case CloneCluster(source, target, host, port, managementPassword, password, inheritDeleted, _, skip) =>
      if host == "" || port < 1 || port > 65535 || source !in f || f[source].config.disabled || target == ""
          || target in f then f
      else f[target := Cluster(Moved(f[source].config, host, port, managementPassword, password),
                               Inherited(f[source].dbs, target, inheritDeleted, skip))]
    case RegisterDb(id, owner) =>
      if id.cluster !in f || f[id.cluster].config.disabled || id.name in f[id.cluster].dbs then f
      else WithDb(f, id, DbRecord(id.cluster, id.name, owner, false))
    case DeleteDb(id) =>
      if id.cluster !in f || f[id.cluster].config.disabled || id.name !in f[id.cluster].dbs
          || f[id.cluster].dbs[id.name].disabled then f
      else WithDb(f, id, Disable(f[id.cluster].dbs[id.name]))
    case PurgeDb(id) =>
      if id.cluster !in f || id.name !in f[id.cluster].dbs || !f[id.cluster].dbs[id.name].disabled then f
      else f[id.cluster := f[id.cluster].(dbs := f[id.cluster].dbs - {id.name})]
    case WriteRole(_, _) => f
    case DeleteRole(_) => f
    case WriteMeta(_, _, _) => f
    case DeleteMeta(_) => f
  }

  function WithDb(f: Fleet, id: DbId, rec: DbRecord): Fleet
    requires id.cluster in f
  {
    f[id.cluster := f[id.cluster].(dbs := f[id.cluster].dbs[id.name := rec])]
  }

  /** Only metadata and role requests touch metadata and roles. */
  predicate OnFleet(op: Op) {
    !op.WriteRole? && !op.DeleteRole? && !op.WriteMeta? && !op.DeleteMeta?
  }

  lemma SameFleet(h: Config, f: Fleet)
    requires h.clusters.Keys == f.Keys
    requires forall c | c in f :: h.clusters[c] == f[c].config
    requires forall c | c in f :: DbsOf(h, c) == f[c].dbs
    ensures Nest(h) == f
  {}

  /** A write to a database of another cluster, or to no database at all, leaves the databases of c alone. */
  lemma OtherDbs(g: Config, h: Config, c: string)
    requires forall d :: DbId(c, d) in g.dbs <==> DbId(c, d) in h.dbs
    requires forall d | DbId(c, d) in g.dbs :: h.dbs[DbId(c, d)] == g.dbs[DbId(c, d)]
    ensures DbsOf(h, c) == DbsOf(g, c)
  {
    forall d ensures d in DbsOf(g, c) <==> DbId(c, d) in h.dbs { DbsOfAt(g, c, d); }
    forall d | d in DbsOf(g, c) ensures DbsOf(g, c)[d] == h.dbs[DbId(c, d)] { DbsOfAt(g, c, d); }
    DbsOfIs(h, c, DbsOf(g, c));
  }

  lemma PutClusterNests(g: Config, c: string, rec: ClusterRecord)
    requires Consistent(g)
    ensures Nest(Apply(g, PutCluster(c, rec)))
      == Nest(g)[c := Cluster(rec, if c in Nest(g) then Nest(g)[c].dbs else map[])]
  {
    var h := Apply(g, PutCluster(c, rec));
    forall c' ensures DbsOf(h, c') == DbsOf(g, c') { OtherDbs(g, h, c'); }
    OneClusterChanged(g, h, c, rec, DbsOf(g, c));
    NestedDbs(g, c);
  }

  lemma NestedDbs(g: Config, c: string)
    requires Consistent(g)
    ensures DbsOf(g, c) == if c in Nest(g) then Nest(g)[c].dbs else map[]
  {
    if c !in g.clusters { DbsOfIs(g, c, map[]); }
  }

  lemma OneClusterChanged(g: Config, h: Config, c: string, rec: ClusterRecord, m: map<string, DbRecord>)
    requires h.clusters == g.clusters[c := rec] && DbsOf(h, c) == m
    requires forall c' | c' != c :: DbsOf(h, c') == DbsOf(g, c')
    ensures Nest(h) == Nest(g)[c := Cluster(rec, m)]
  {
    SameFleet(h, Nest(g)[c := Cluster(rec, m)]);
  }

  lemma DbsAfterPut(g: Config, c: string, d: string, rec: DbRecord)
    ensures DbsOf(Apply(g, PutDb(DbId(c, d), rec)), c) == DbsOf(g, c)[d := rec]
  {
    var h, m := Apply(g, PutDb(DbId(c, d), rec)), DbsOf(g, c)[d := rec];
    forall d' ensures d' in m <==> DbId(c, d') in h.dbs { DbsOfAt(g, c, d'); }
    forall d' | d' in m ensures m[d'] == h.dbs[DbId(c, d')] { DbsOfAt(g, c, d'); }
    DbsOfIs(h, c, m);
  }

  lemma {:induction false} PutDbNests(g: Config, c: string, d: string, rec: DbRecord)
    requires c in g.clusters
    ensures Nest(Apply(g, PutDb(DbId(c, d), rec))) == WithDb(Nest(g), DbId(c, d), rec)
  {
    var h := Apply(g, PutDb(DbId(c, d), rec));
    DbsAfterPut(g, c, d, rec);
    forall c' | c' != c ensures DbsOf(h, c') == DbsOf(g, c') { OtherDbs(g, h, c'); }
    OneClusterChanged(g, h, c, g.clusters[c], DbsOf(g, c)[d := rec]);
  }

  lemma {:induction false} DelDbNests(g: Config, c: string, d: string)
    requires c in g.clusters
    ensures Nest(Apply(g, DelDb(DbId(c, d)))) == Nest(g)[c := Nest(g)[c].(dbs := Nest(g)[c].dbs - {d})]
  {
    var h := Apply(g, DelDb(DbId(c, d)));
    var m := DbsOf(g, c) - {d};
    forall d' ensures d' in m <==> DbId(c, d') in h.dbs { DbsOfAt(g, c, d'); }
    forall d' | d' in m ensures m[d'] == h.dbs[DbId(c, d')] { DbsOfAt(g, c, d'); }
    DbsOfIs(h, c, m);
    forall c' | c' != c ensures DbsOf(h, c') == DbsOf(g, c') { OtherDbs(g, h, c'); }
    OneClusterChanged(g, h, c, g.clusters[c], m);
  }

  lemma DbsAfterDelete(g: Config, c: string)
    requires c in g.clusters
    ensures DbsOf(Deleted(g, c), c) == DisableEach(DbsOf(g, c))
  {
    var h, m := Deleted(g, c), DisableEach(DbsOf(g, c));
    forall d ensures d in m <==> DbId(c, d) in h.dbs { DbsOfAt(g, c, d); }
    forall d | d in m ensures m[d] == h.dbs[DbId(c, d)] { DbsOfAt(g, c, d); }
    DbsOfIs(h, c, m);
  }

  lemma DeletedNests(g: Config, c: string)
    requires c in g.clusters
    ensures Nest(Deleted(g, c))
      == Nest(g)[c := Cluster(g.clusters[c].(disabled := true), DisableEach(DbsOf(g, c)))]
  {
    var h := Deleted(g, c);
    DbsAfterDelete(g, c);
    forall c' | c' != c ensures DbsOf(h, c') == DbsOf(g, c') { OtherDbs(g, h, c'); }
    OneClusterChanged(g, h, c, g.clusters[c].(disabled := true), DisableEach(DbsOf(g, c)));
  }

  lemma PurgedNests(g: Config, c: string)
    ensures Nest(Purged(g, c)) == Nest(g) - {c}
  {
    var h := Purged(g, c);
    forall c' | c' != c ensures DbsOf(h, c') == DbsOf(g, c') { OtherDbs(g, h, c'); }
    SameFleet(h, Nest(g) - {c});
  }

  /** Every handler commutes with the nesting: run on the flat configuration, uninterrupted, it has its
      documented effect on the fleet, and touches roles and metadata only if it is about them. */
  lemma {:induction false} HandlersRefineFleet(g: Config, op: Op)
    requires Inv(g) && Legal(g, op)
    ensures Nest(ApplyAll(g, Plan(g, op))) == Effect(Nest(g), op)
    ensures OnFleet(op) ==> ApplyAll(g, Plan(g, op)).roles == g.roles && ApplyAll(g, Plan(g, op)).meta == g.meta
  {
    if op.PurgeCluster? {
      PurgeRefinesFleet(g, op.c, op.order);
    } else if !Verdict(g, op).Done? {
      RefusalsRefineFleet(g, op);
    } else if op.DeleteCluster? {
      DeleteRefinesFleet(g, op.c, op.order);
    } else if op.CloneCluster? {
      CloneRefinesFleet(g, op);
    } else {
      OneWriteRefinesFleet(g, op);
    }
  }

  lemma {:induction false} PurgeRefinesFleet(g: Config, c: string, order: seq<string>)
    requires Consistent(g) && Listing(order, DbNames(g, c))
    ensures var h := ApplyAll(g, Plan(g, PurgeCluster(c, order)));
      Nest(h) == Effect(Nest(g), PurgeCluster(c, order)) && h.roles == g.roles && h.meta == g.meta
  {
    if g.DisabledCluster(c) {
      PurgeCompletes(g, c, order);
      PurgedRefines(g, c, order);
    } else {
      PurgeRefused(g, c, order);
    }
  }

  lemma PurgedRefines(g: Config, c: string, order: seq<string>)
    requires g.DisabledCluster(c)
    ensures Nest(Purged(g, c)) == Effect(Nest(g), PurgeCluster(c, order))
  {
    PurgedNests(g, c);
    assert c in Nest(g) && Nest(g)[c].config == g.clusters[c];
    EffectOfPurge(Nest(g), c, order);
  }

  lemma EffectOfPurge(f: Fleet, c: string, order: seq<string>)
    requires c in f && f[c].config.disabled
    ensures Effect(f, PurgeCluster(c, order)) == f - {c}
  {}

  lemma PurgeRefused(g: Config, c: string, order: seq<string>)
    requires !g.DisabledCluster(c)
    ensures Plan(g, PurgeCluster(c, order)) == [] && Effect(Nest(g), PurgeCluster(c, order)) == Nest(g)
  {}

  lemma {:induction false} DeleteRefinesFleet(g: Config, c: string, order: seq<string>)
    requires g.ActiveCluster(c) && Listing(order, DbNames(g, c))
    ensures var h := ApplyAll(g, Plan(g, DeleteCluster(c, order)));
      Nest(h) == Effect(Nest(g), DeleteCluster(c, order)) && h.roles == g.roles && h.meta == g.meta
  {
    DeleteCompletes(g, c, order);
    DeletedNests(g, c);
  }

  predicate AboutDb(op: Op) {
    op.RegisterDb? || op.DeleteDb? || op.PurgeDb?
  }

  lemma RefusalsRefineFleet(g: Config, op: Op)
    requires Consistent(g) && !op.PurgeCluster? && !Verdict(g, op).Done?
    ensures Plan(g, op) == [] && Effect(Nest(g), op) == Nest(g)
  {
    if AboutDb(op) {
      DbRefusal(g, op);
    } else if op.CloneCluster? {
      CloneRefusal(g, op);
    } else {
      OtherRefusal(g, op);
    }
  }

  lemma DbRefusal(g: Config, op: Op)
    requires Consistent(g) && AboutDb(op) && !Verdict(g, op).Done?
    ensures Effect(Nest(g), op) == Nest(g)
  {
    DbsOfAt(g, op.id.cluster, op.id.name);
    assert DbId(op.id.cluster, op.id.name) == op.id;
  }

  lemma CloneRefusal(g: Config, op: Op)
    requires op.CloneCluster? && !Verdict(g, op).Done?
    ensures Effect(Nest(g), op) == Nest(g)
  {}

  lemma OtherRefusal(g: Config, op: Op)
    requires !AboutDb(op) && !op.PurgeCluster? && !op.CloneCluster? && !Verdict(g, op).Done?
    ensures Effect(Nest(g), op) == Nest(g)
  {}

  lemma {:induction false} OneWriteRefinesFleet(g: Config, op: Op)
    requires Consistent(g) && Verdict(g, op).Done? && !op.PurgeCluster? && !op.DeleteCluster? && !op.CloneCluster?
    ensures Nest(ApplyAll(g, Plan(g, op))) == Effect(Nest(g), op)
    ensures OnFleet(op) ==> ApplyAll(g, Plan(g, op)).roles == g.roles && ApplyAll(g, Plan(g, op)).meta == g.meta
  {
    ApplyOne(g, Plan(g, op)[0]);
    if op.RegisterCluster? {
      PutClusterNests(g, op.c, op.rec);
    } else if AboutDb(op) {
      DbWriteRefines(g, op);
    } else {
      OffFleetWrite(g, Plan(g, op)[0]);
    }
  }

  lemma {:induction false} DbWriteRefines(g: Config, op: Op)
    requires Consistent(g) && AboutDb(op) && Verdict(g, op).Done?
    ensures Nest(Apply(g, Plan(g, op)[0])) == Effect(Nest(g), op)
  {
    DbsOfAt(g, op.id.cluster, op.id.name);
    if op.PurgeDb? {
      DelDbNests(g, op.id.cluster, op.id.name);
    } else {
      PutDbNests(g, op.id.cluster, op.id.name, Plan(g, op)[0].db);
    }
  }

  lemma OffFleetWrite(g: Config, w: Write)
    requires w.PutRole? || w.DelRole? || w.PutMeta? || w.DelMeta?
    ensures Nest(Apply(g, w)) == Nest(g)
  {
    var h := Apply(g, w);
    forall c ensures DbsOf(h, c) == DbsOf(g, c) { OtherDbs(g, h, c); }
    SameFleet(h, Nest(g));
  }

  lemma {:induction false} CloneRefinesFleet(g: Config, op: Op)
    requires Inv(g) && Legal(g, op) && op.CloneCluster? && Verdict(g, op).Done?
    ensures Nest(ApplyAll(g, Plan(g, op))) == Effect(Nest(g), op)
    ensures ApplyAll(g, Plan(g, op)).roles == g.roles && ApplyAll(g, Plan(g, op)).meta == g.meta
  {
    var h := ApplyAll(g, Plan(g, op));
    CloneResult(g, op);
    TargetDbs(g, h, op);
    OtherClustersUntouched(g, h, op);
    CloneNests(g, h, op);
  }

  lemma CloneNests(g: Config, h: Config, op: Op)
    requires op.CloneCluster? && op.host != "" && 1 <= op.port <= 65535
    requires op.source in g.clusters && !g.clusters[op.source].disabled && op.target != "" && op.target !in g.clusters
    requires h.clusters
      == g.clusters[op.target :=
                    CloneRecord(g.clusters[op.source], op.host, op.port, op.managementPassword, op.password)]
    requires DbsOf(h, op.target) == Inherited(DbsOf(g, op.source), op.target, op.inheritDeleted, op.skip)
    requires forall c | c != op.target :: DbsOf(h, c) == DbsOf(g, c)
    ensures Nest(h) == Effect(Nest(g), op)
  {
    OneClusterChanged(g, h, op.target, h.clusters[op.target], DbsOf(h, op.target));
    assert Nest(g)[op.source] == Cluster(g.clusters[op.source], DbsOf(g, op.source));
    EffectOfClone(Nest(g), op);
  }

  lemma EffectOfClone(f: Fleet, op: Op)
    requires op.CloneCluster? && op.host != "" && 1 <= op.port <= 65535 && op.source in f
      && !f[op.source].config.disabled
    requires op.target != "" && op.target !in f
    ensures Effect(f, op)
      == f[op.target := Cluster(CloneRecord(f[op.source].config, op.host, op.port, op.managementPassword, op.password),
                                Inherited(f[op.source].dbs, op.target, op.inheritDeleted, op.skip))]
  {}

  lemma TargetDbs(g: Config, h: Config, op: Op)
    requires Consistent(g) && Legal(g, op) && op.CloneCluster? && Verdict(g, op).Done?
    requires h.dbs == g.dbs + Copies(g, op.source, op.target, op.inheritDeleted, op.skip, op.order)
    ensures DbsOf(h, op.target) == Inherited(DbsOf(g, op.source), op.target, op.inheritDeleted, op.skip)
  {
    var m := Inherited(DbsOf(g, op.source), op.target, op.inheritDeleted, op.skip);
    forall d ensures d in m <==> DbId(op.target, d) in h.dbs { CopiedDb(g, op, d); }
    forall d | d in m ensures m[d] == h.dbs[DbId(op.target, d)] { CopiedDb(g, op, d); }
    DbsOfIs(h, op.target, m);
  }

  lemma OtherClustersUntouched(g: Config, h: Config, op: Op)
    requires op.CloneCluster?
    requires h.dbs == g.dbs + Copies(g, op.source, op.target, op.inheritDeleted, op.skip, op.order)
    ensures forall c | c != op.target :: DbsOf(h, c) == DbsOf(g, c)
  {
    forall c | c != op.target ensures DbsOf(h, c) == DbsOf(g, c) { OtherDbs(g, h, c); }
  }

  /** The configuration a complete clone ends in. */
  function CloneOutcome(g: Config, op: Op): Config
    requires op.CloneCluster? && op.source in g.clusters
  {
    g.(clusters :=
       g.clusters[op.target :=
                  CloneRecord(g.clusters[op.source], op.host, op.port, op.managementPassword, op.password)],
       dbs := g.dbs + Copies(g, op.source, op.target, op.inheritDeleted, op.skip, op.order))
  }

  /** The writes of a complete clone. */
  ghost predicate CloneWrites(g: Config, op: Op, ws: seq<Write>) {
    && op.CloneCluster? && op.source in g.clusters
    && ws == [PutCluster(op.target,
                         CloneRecord(g.clusters[op.source], op.host, op.port, op.managementPassword, op.password))]
       + CopyWrites(g, op.source, op.target, op.inheritDeleted, op.skip, op.order)
  }

  lemma CloneApplies(g: Config, op: Op, ws: seq<Write>)
    requires CloneWrites(g, op, ws)
    ensures ApplyAll(g, ws) == CloneOutcome(g, op)
  {
    var w := ws[0];
    ApplyOne(g, w);
    ApplyConcat(g, [w], CopyWrites(g, op.source, op.target, op.inheritDeleted, op.skip, op.order));
    CopyLoop(Apply(g, w), g, op.source, op.target, op.inheritDeleted, op.skip, op.order);
  }

  lemma PlanOfClone(g: Config, op: Op)
    requires op.CloneCluster? && Verdict(g, op).Done?
    ensures CloneWrites(g, op, Plan(g, op))
  {}

  lemma {:induction false} CloneResult(g: Config, op: Op)
    requires op.CloneCluster? && Verdict(g, op).Done?
    ensures op.source in g.clusters && ApplyAll(g, Plan(g, op)) == CloneOutcome(g, op)
  {
    PlanOfClone(g, op);
    CloneApplies(g, op, Plan(g, op));
  }

  lemma CopiedDb(g: Config, op: Op, d: string)
    requires Consistent(g) && Legal(g, op) && op.CloneCluster? && Verdict(g, op).Done?
    ensures var h, m := g.dbs + Copies(g, op.source, op.target, op.inheritDeleted, op.skip, op.order),
                        Inherited(DbsOf(g, op.source), op.target, op.inheritDeleted, op.skip);
      (d in m <==> DbId(op.target, d) in h) && (d in m ==> m[d] == h[DbId(op.target, d)])
  {
    DbsOfAt(g, op.source, d);
    ListingOfDbs(g, op.source, op.order, d);
    assert DbId(op.target, d) !in g.dbs;
  }

  /** The target has exactly the wanted databases of the source, each naming the target and otherwise the same;
      the databases of all other clusters, the source's included, are as before. */
  ghost predicate ExactlyCopied(before: map<DbId, DbRecord>, after: map<DbId, DbRecord>, source: string, target: string,
                                inheritDeleted: bool) {
    && (forall id: DbId | id.cluster != target :: id in after <==> id in before)
    && (forall id: DbId | id.cluster != target && id in before :: after[id] == before[id])
    && (forall d :: DbId(target, d) in after <==>
        DbId(source, d) in before && (inheritDeleted || !before[DbId(source, d)].disabled))
    && (forall d | DbId(target, d) in after :: after[DbId(target, d)] == before[DbId(source, d)].(cluster := target))
  }

  lemma CopiesAreExact(g: Config, op: Op)
    requires op.CloneCluster? && Listing(op.order, DbNames(g, op.source))
    requires forall d :: DbId(op.target, d) !in g.dbs
    ensures ExactlyCopied(g.dbs, g.dbs + Copies(g, op.source, op.target, op.inheritDeleted, {}, op.order), op.source,
                          op.target, op.inheritDeleted)
  {
    forall d ensures d in op.order <==> DbId(op.source, d) in g.dbs { ListingOfDbs(g, op.source, op.order, d); }
  }

  /** What a clone that skipped nothing has made of g. */
  ghost predicate ClonedExactly(g: Config, op: Op, h: Config) {
    && op.CloneCluster? && op.source in g.clusters && op.target !in g.clusters && op.target in h.clusters
    && h.roles == g.roles && h.meta == g.meta
    && h.clusters - {op.target} == g.clusters
    && Cloned(g.clusters[op.source], h.clusters[op.target], op.host, op.port, op.managementPassword, op.password)
    && ExactlyCopied(g.dbs, h.dbs, op.source, op.target, op.inheritDeleted)
  }

  /** That the target has no other databases rests on there being none without a cluster. */
  lemma CopiesMakeExact(g: Config, op: Op)
    requires Consistent(g) && op.CloneCluster? && op.source in g.clusters && op.target !in g.clusters && op.skip == {}
    requires Listing(op.order, DbNames(g, op.source))
    ensures ClonedExactly(g, op, CloneOutcome(g, op))
  {
    CopiesAreExact(g, op);
  }

  lemma OutcomeIsExact(g: Config, op: Op)
    requires Consistent(g) && Legal(g, op) && op.CloneCluster? && Verdict(g, op).Done? && op.skip == {}
    ensures ClonedExactly(g, op, CloneOutcome(g, op))
  {
    CopiesMakeExact(g, op);
  }

  lemma {:induction false} ExactlyTheOutcome(g: Config, op: Op)
    requires op.CloneCluster? && Verdict(g, op).Done? && ClonedExactly(g, op, CloneOutcome(g, op))
    ensures ClonedExactly(g, op, ApplyAll(g, Plan(g, op)))
  {
    CloneResult(g, op);
  }

  /** A clone that skipped nothing is exact. */
  lemma ExactClone(g: Config, op: Op)
    requires Consistent(g) && Legal(g, op) && op.CloneCluster? && Verdict(g, op).Done? && op.skip == {}
    ensures ClonedExactly(g, op, ApplyAll(g, Plan(g, op)))
  {
    OutcomeIsExact(g, op);
    ExactlyTheOutcome(g, op);
  }
}
