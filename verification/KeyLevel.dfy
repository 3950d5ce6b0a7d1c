/** The loops of the handlers key by key, on any content of the storage. */
module KeyLevel {
  import opened Paths
  import opened Records
  import opened Encoding
  import opened Operations
  import opened Protocol
  import opened Vault
  import opened Fleet

  /** What a record reads as where a database is expected: the JSON fields it shares with one. */
  function AsDb(rec: Record): DbRecord {
    match rec
    case DbRec(db) => db
    case ClusterRec(cluster) => DbRecord("", cluster.database, "", cluster.disabled)
    case RoleRec(_) => DbRecord("", "", "", false)
    case MetaRec(meta) => DbRecord(meta.cluster, meta.database, "", false)
  }

  /** Where a loop gets when no call fails: to the end of the listing, or to a name that makes the handler give up. */
  datatype Loop = Finished(s: Store) | GaveUp(s: Store)

  // The cascade of pathClusterDelete.

  function DisableRounds(s: Store, c: string, names: seq<string>): Loop {
    if names == [] then Finished(s) else
    var n := |names| - 1;
    var before := DisableRounds(s, c, names[..n]);
    if before.GaveUp? then before else DisableKey(before.s, DatabaseKey(c, names[n]))
  }

  function DisableKey(s: Store, k: string): Loop {
    if k !in s then GaveUp(s)
    else if AsDb(s[k]).disabled then Finished(s)
    else Finished(s[k := DbRec(AsDb(s[k]).(disabled := true))])
  }

  // The cascade of gcPurgeCluster.

  function DropRounds(s: Store, c: string, names: seq<string>): Loop {
    if names == [] then Finished(s) else
    var n := |names| - 1;
    var before := DropRounds(s, c, names[..n]);
    if before.GaveUp? then before else DropKey(before.s, DatabaseKey(c, names[n]))
  }

  function DropKey(s: Store, k: string): Loop {
    if k !in s || !AsDb(s[k]).disabled then GaveUp(s) else Finished(s - {k})
  }

  /** The loops of pathDatabasesList and listDisabledDatabases: None when they give up. */
  function ListRounds(s: Store, c: string, names: seq<string>, deleted: bool): Option<seq<string>> {
    if names == [] then Some([]) else
    var n := |names| - 1;
    var before, k := ListRounds(s, c, names[..n], deleted), DatabaseKey(c, names[n]);
    if before.None? || k !in s then None
    else Some(before.value + if AsDb(s[k]).disabled == deleted then [names[n]] else [])
  }

  // The copy loop of cloneDbConfig, which passes over what it cannot read.

  predicate Wanted(s: Store, source: string, inheritDeleted: bool, d: string) {
    DatabaseKey(source, d) in s && (inheritDeleted || !AsDb(s[DatabaseKey(source, d)]).disabled)
  }

  function CopyRounds(s: Store, source: string, target: string, inheritDeleted: bool, names: seq<string>): Store {
    if names == [] then s else
    var n := |names| - 1;
    CopyKey(CopyRounds(s, source, target, inheritDeleted, names[..n]), source, target, inheritDeleted, names[n])
  }

  function CopyKey(s: Store, source: string, target: string, inheritDeleted: bool, d: string): Store {
    if Wanted(s, source, inheritDeleted, d)
    then s[DatabaseKey(target, d) := DbRec(AsDb(s[DatabaseKey(source, d)]).(cluster := target))] else s
  }

  /** What a clone leaves in the storage: the target's record first, then the databases listed under the source. */
  function CloneRounds(s: Store, source: string, target: string, rec: ClusterRecord, inheritDeleted: bool,
                       names: seq<string>): Store {
    CopyRounds(s[ClusterKey(target) := ClusterRec(rec)], source, target, inheritDeleted, names)
  }

  // On a well-keyed storage the loops do what is planned at the level of the configuration.

  lemma {:induction false} DisableRefines(s: Store, c: Name, names: seq<string>)
    requires WellKeyed(s) && NoDuplicates(names) && forall d | d in names :: DbId(c, d) in View(s).dbs
    ensures var end := DisableRounds(s, c, names);
      end.Finished? && WellKeyed(end.s) && View(end.s) == ApplyAll(View(s), DisableWrites(View(s), c, names))
  {
    if names != [] {
      var n := |names| - 1;
      DisableRefines(s, c, names[..n]);
      DisableKeyRefines(s, DisableRounds(s, c, names[..n]).s, c, names);
    }
  }

  lemma DisableKeyRefines(s: Store, t: Store, c: Name, names: seq<string>)
    requires WellKeyed(s) && WellKeyed(t) && names != [] && NoDuplicates(names)
    requires var n := |names| - 1;
      DbId(c, names[n]) in View(s).dbs && View(t) == ApplyAll(View(s), DisableWrites(View(s), c, names[..n]))
    ensures var end := DisableKey(t, DatabaseKey(c, names[|names| - 1]));
      end.Finished? && WellKeyed(end.s) && View(end.s) == ApplyAll(View(s), DisableWrites(View(s), c, names))
  {
    var g, d := View(s), names[|names| - 1];
    var id := DbId(c, d);
    DisableLast(g, c, names);
    GetDb(t, c, d);
    if g.ActiveDb(id) {
      var w := PutDb(id, g.dbs[id].(disabled := true));
      PutView(t, DatabaseKey(c, d), DbRec(w.db), w);
      ApplyOne(View(t), w);
    }
  }

  lemma DisableLast(g: Config, c: string, names: seq<string>)
    requires names != [] && NoDuplicates(names)
    ensures var n, id := |names| - 1, DbId(c, names[|names| - 1]);
      var h := ApplyAll(g, DisableWrites(g, c, names[..n]));
      && (id in h.dbs <==> id in g.dbs) && (id in g.dbs ==> h.dbs[id] == g.dbs[id])
      && ApplyAll(g, DisableWrites(g, c, names)) == ApplyAll(h, DisableWrite(g, id))
  {
    var n := |names| - 1;
    DisableLoop(g, c, names[..n]);
    ApplyConcat(g, DisableWrites(g, c, names[..n]), DisableWrite(g, DbId(c, names[n])));
  }

  lemma {:induction false} DropRefines(s: Store, c: Name, names: seq<string>)
    requires WellKeyed(s) && NoDuplicates(names) && forall d | d in names :: View(s).DisabledDb(DbId(c, d))
    ensures var end := DropRounds(s, c, names);
      end.Finished? && WellKeyed(end.s) && View(end.s) == ApplyAll(View(s), DropWrites(c, names))
  {
    if names != [] {
      var n := |names| - 1;
      DropRefines(s, c, names[..n]);
      DropKeyRefines(s, DropRounds(s, c, names[..n]).s, c, names);
    }
  }

  lemma DropKeyRefines(s: Store, t: Store, c: Name, names: seq<string>)
    requires WellKeyed(s) && WellKeyed(t) && names != [] && NoDuplicates(names)
    requires var n := |names| - 1;
      View(s).DisabledDb(DbId(c, names[n])) && View(t) == ApplyAll(View(s), DropWrites(c, names[..n]))
    ensures var end := DropKey(t, DatabaseKey(c, names[|names| - 1]));
      end.Finished? && WellKeyed(end.s) && View(end.s) == ApplyAll(View(s), DropWrites(c, names))
  {
    var d := names[|names| - 1];
    DropLast(View(s), c, names);
    GetDb(t, c, d);
    DelView(t, DatabaseKey(c, d), DelDb(DbId(c, d)));
  }

  lemma DropLast(g: Config, c: string, names: seq<string>)
    requires names != [] && NoDuplicates(names)
    ensures var n, id := |names| - 1, DbId(c, names[|names| - 1]);
      var h := ApplyAll(g, DropWrites(c, names[..n]));
      && (id in h.dbs <==> id in g.dbs) && (id in g.dbs ==> h.dbs[id] == g.dbs[id])
      && ApplyAll(g, DropWrites(c, names)) == Apply(h, DelDb(id))
  {
    var n := |names| - 1;
    DropLoop(g, c, names[..n]);
    assert DropWrites(c, names) == DropWrites(c, names[..n]) + [DelDb(DbId(c, names[n]))];
    ApplySnoc(g, DropWrites(c, names[..n]), DelDb(DbId(c, names[n])));
  }

  lemma {:induction false} ListedAre(s: Store, g: Config, c: string, names: seq<string>, deleted: bool, d: string)
    requires forall n | n in names ::
      DbId(c, n) in g.dbs && DatabaseKey(c, n) in s && s[DatabaseKey(c, n)] == DbRec(g.dbs[DbId(c, n)])
    ensures var end := ListRounds(s, c, names, deleted);
      end.Some? && (d in end.value <==> d in names && g.dbs[DbId(c, d)].disabled == deleted)
  {
    if names != [] {
      ListedAre(s, g, c, names[..|names| - 1], deleted, d);
      assert names == names[..|names| - 1] + [names[|names| - 1]];
    }
  }

  lemma ListRefines(s: Store, c: Name, names: seq<string>, deleted: bool, d: string)
    requires WellKeyed(s) && forall n | n in names :: DbId(c, n) in View(s).dbs
    ensures var end := ListRounds(s, c, names, deleted);
      end.Some? && (d in end.value <==> d in names && View(s).dbs[DbId(c, d)].disabled == deleted)
  {
    var g := View(s);
    forall n | n in names
      ensures DatabaseKey(c, n) in s && s[DatabaseKey(c, n)] == DbRec(g.dbs[DbId(c, n)]) { GetDb(s, c, n); }
    ListedAre(s, g, c, names, deleted, d);
  }

  lemma {:induction false} CopyRefines(s: Store, source: Name, target: Name, inheritDeleted: bool, names: seq<string>)
    requires WellKeyed(s) && source != target && forall d | d in names :: DbId(source, d) in View(s).dbs
    ensures var t := CopyRounds(s, source, target, inheritDeleted, names);
      WellKeyed(t) && View(t) == ApplyAll(View(s), CopyWrites(View(s), source, target, inheritDeleted, {}, names))
  {
    if names != [] {
      var n := |names| - 1;
      CopyRefines(s, source, target, inheritDeleted, names[..n]);
      CopyKeyRefines(s, CopyRounds(s, source, target, inheritDeleted, names[..n]), source, target, inheritDeleted,
                       names);
    }
  }

  lemma CopyKeyRefines(s: Store, t: Store, source: Name, target: Name, inheritDeleted: bool, names: seq<string>)
    requires WellKeyed(s) && WellKeyed(t) && source != target && names != []
      && DbId(source, names[|names| - 1]) in View(s).dbs
    requires View(t) == ApplyAll(View(s), CopyWrites(View(s), source, target, inheritDeleted, {}, names[..|names| - 1]))
    ensures var u := CopyKey(t, source, target, inheritDeleted, names[|names| - 1]);
      WellKeyed(u) && View(u) == ApplyAll(View(s), CopyWrites(View(s), source, target, inheritDeleted, {}, names))
  {
    var g, d := View(s), names[|names| - 1];
    CopyLast(g, source, target, inheritDeleted, names);
    GetDb(t, source, d);
    if inheritDeleted || !g.dbs[DbId(source, d)].disabled {
      var w := PutDb(DbId(target, d), g.dbs[DbId(source, d)].(cluster := target));
      PutView(t, DatabaseKey(target, d), DbRec(w.db), w);
      ApplyOne(View(t), w);
    }
  }

  lemma CopyLast(g: Config, source: string, target: string, inheritDeleted: bool, names: seq<string>)
    requires source != target && names != []
    ensures var n, id := |names| - 1, DbId(source, names[|names| - 1]);
      var h := ApplyAll(g, CopyWrites(g, source, target, inheritDeleted, {}, names[..n]));
      && (id in h.dbs <==> id in g.dbs) && (id in g.dbs ==> h.dbs[id] == g.dbs[id])
      && ApplyAll(g, CopyWrites(g, source, target, inheritDeleted, {}, names))
         == ApplyAll(h, CopyWrite(g, source, target, inheritDeleted, {}, names[n]))
  {
    var n := |names| - 1;
    CopyLoop(g, g, source, target, inheritDeleted, {}, names[..n]);
    ApplyConcat(g, CopyWrites(g, source, target, inheritDeleted, {}, names[..n]),
                CopyWrite(g, source, target, inheritDeleted, {}, names[n]));
  }

  // Keys.

  lemma {:induction false} CopyKeys(s: Store, source: string, target: string, inheritDeleted: bool, names: seq<string>,
                                    k: string)
    ensures var t := CopyRounds(s, source, target, inheritDeleted, names);
      && (k in s ==> k in t)
      && (k in t && k !in s ==> exists d | d in names :: k == DatabaseKey(target, d))
      && ((forall d | d in names :: k != DatabaseKey(target, d)) && k in s ==> t[k] == s[k])
  {
    if names != [] {
      var n := |names| - 1;
      CopyKeys(s, source, target, inheritDeleted, names[..n], k);
      assert names == names[..n] + [names[n]];
    }
  }

  /** No copy lands on the key of a listed database. */
  ghost predicate Apart(source: string, target: string, names: seq<string>) {
    forall d, e | d in names && e in names :: DatabaseKey(target, d) != DatabaseKey(source, e)
  }

  /** Then a copy is made of every wanted database that is listed, and of no other. */
  lemma {:induction false} CopyMade(s: Store, source: string, target: string, inheritDeleted: bool, names: seq<string>,
                                    e: string)
    requires Apart(source, target, names) && e in names && Wanted(s, source, inheritDeleted, e)
    ensures DatabaseKey(target, e) in CopyRounds(s, source, target, inheritDeleted, names)
  {
    var n := |names| - 1;
    if e in names[..n] {
      CopyMade(s, source, target, inheritDeleted, names[..n], e);
    } else {
      CopyKeys(s, source, target, inheritDeleted, names[..n], DatabaseKey(source, e));
      assert names[n] == e;
    }
  }

  lemma {:induction false} CopyWasWanted(s: Store, source: string, target: string, inheritDeleted: bool,
                                         names: seq<string>, k: string) returns (d: string)
    requires Apart(source, target, names) && k !in s && k in CopyRounds(s, source, target, inheritDeleted, names)
    ensures d in names && Wanted(s, source, inheritDeleted, d)
  {
    var n := |names| - 1;
    var before := CopyRounds(s, source, target, inheritDeleted, names[..n]);
    if k in before {
      d := CopyWasWanted(s, source, target, inheritDeleted, names[..n], k);
    } else {
      d := names[n];
      CopyKeys(s, source, target, inheritDeleted, names[..n], DatabaseKey(source, d));
    }
  }

  /** The key of a copy. */
  ghost predicate IsCopy(s: Store, source: string, target: string, inheritDeleted: bool, k: string) {
    exists d {:trigger DatabaseKey(target, d)} :: Wanted(s, source, inheritDeleted, d) && k == DatabaseKey(target, d)
  }

  /** A clone adds the target's key and one for each wanted database, and every key that was there holds what it
      held. */
  ghost predicate Erected(s: Store, t: Store, source: string, target: string, rec: ClusterRecord,
                          inheritDeleted: bool) {
    && (forall k :: k in t <==> k in s || k == ClusterKey(target) || IsCopy(s, source, target, inheritDeleted, k))
    && (forall k | k in s && k in t :: t[k] == s[k])
    && (ClusterKey(target) in t ==> t[ClusterKey(target)] == ClusterRec(rec))
    && (forall d {:trigger DatabaseKey(target, d)} | Wanted(s, source, inheritDeleted, d)
        && DatabaseKey(target, d) in t ::
          t[DatabaseKey(target, d)] == DbRec(AsDb(s[DatabaseKey(source, d)]).(cluster := target)))
  }

  /** A complete clone onto a proper name leaves exactly what the loops above leave. */
  lemma CloneAtKeys(s: Store, g: Config, log: seq<Write>, t: Store, h: Config, log': seq<Write>, op: Op)
    requires Holding(s, g, log) && Holding(t, h, log')
    requires op.CloneCluster? && op.skip == {} && IsName(op.source) && IsName(op.target)
    requires op.source != op.target && op.source in g.clusters
    requires Listing(op.order, DbNames(g, op.source)) && h == CloneOutcome(g, op)
    ensures var rec := CloneRecord(g.clusters[op.source], op.host, op.port, op.managementPassword, op.password);
      t == CloneRounds(s, op.source, op.target, rec, op.inheritDeleted, op.order)
  {
    HoldingView(s, g, log);
    HoldingView(t, h, log');
    CloneAtViews(s, t, op);
  }

  lemma CloneAtViews(s: Store, t: Store, op: Op)
    requires WellKeyed(s) && WellKeyed(t) && op.CloneCluster? && op.skip == {} && IsName(op.source) && IsName(op.target)
    requires op.source != op.target && op.source in View(s).clusters
    requires Listing(op.order, DbNames(View(s), op.source)) && View(t) == CloneOutcome(View(s), op)
    ensures var rec := CloneRecord(View(s).clusters[op.source], op.host, op.port, op.managementPassword, op.password);
      t == CloneRounds(s, op.source, op.target, rec, op.inheritDeleted, op.order)
  {
    var g := View(s);
    var rec := CloneRecord(g.clusters[op.source], op.host, op.port, op.managementPassword, op.password);
    var u := s[ClusterKey(op.target) := ClusterRec(rec)];
    TargetStored(s, op.target, rec);
    forall d | d in op.order ensures DbId(op.source, d) in View(u).dbs { ListingOfDbs(g, op.source, op.order, d); }
    CopyRefines(u, op.source, op.target, op.inheritDeleted, op.order);
    OutcomeOfCopies(g, View(u), op, rec);
    ViewIsFaithful(t, CopyRounds(u, op.source, op.target, op.inheritDeleted, op.order));
  }

  lemma OutcomeOfCopies(g: Config, h: Config, op: Op, rec: ClusterRecord)
    requires op.CloneCluster? && op.skip == {} && op.source in g.clusters && h == Apply(g, PutCluster(op.target, rec))
    requires rec == CloneRecord(g.clusters[op.source], op.host, op.port, op.managementPassword, op.password)
    ensures ApplyAll(h, CopyWrites(h, op.source, op.target, op.inheritDeleted, {}, op.order)) == CloneOutcome(g, op)
  {
    CopyLoop(h, h, op.source, op.target, op.inheritDeleted, {}, op.order);
    SameCopies(g, h, op.source, op.target, op.inheritDeleted, op.order);
  }

  lemma SameCopies(g: Config, h: Config, source: string, target: string, inheritDeleted: bool, names: seq<string>)
    requires g.dbs == h.dbs
    ensures Copies(h, source, target, inheritDeleted, {}, names) == Copies(g, source, target, inheritDeleted, {}, names)
  {}

  lemma TargetStored(s: Store, target: Name, rec: ClusterRecord)
    requires WellKeyed(s)
    ensures var u := s[ClusterKey(target) := ClusterRec(rec)];
      WellKeyed(u) && View(u) == Apply(View(s), PutCluster(target, rec))
  {
    PutView(s, ClusterKey(target), ClusterRec(rec), PutCluster(target, rec));
  }

  /** Its footprint, when no database is without its cluster. */
  lemma CloneFootprint(s: Store, g: Config, log: seq<Write>, t: Store, h: Config, log': seq<Write>, op: Op)
    requires Holding(s, g, log) && Holding(t, h, log') && Consistent(g)
    requires ClonedExactly(g, op, h) && IsName(op.source) && IsName(op.target)
    ensures var rec := CloneRecord(g.clusters[op.source], op.host, op.port, op.managementPassword, op.password);
      Erected(s, t, op.source, op.target, rec, op.inheritDeleted)
  {
    HoldingView(s, g, log);
    HoldingView(t, h, log');
    forall k
      ensures k in t <==>
        k in s || k == ClusterKey(op.target) || IsCopy(s, op.source, op.target, op.inheritDeleted, k) {
      ErectedKey(s, t, op, k);
    }
    forall k | k in s && k in t ensures t[k] == s[k] { KeptKey(s, t, op, k); }
    TargetKeys(s, t, op);
  }

  lemma ErectedKey(s: Store, t: Store, op: Op, k: string)
    requires WellKeyed(s) && WellKeyed(t) && Consistent(View(s)) && ClonedExactly(View(s), op, View(t))
    requires IsName(op.source) && IsName(op.target)
    ensures k in t <==> k in s || k == ClusterKey(op.target) || IsCopy(s, op.source, op.target, op.inheritDeleted, k)
  {
    if k in s { KeptKey(s, t, op, k); }
    if k in t { NewKey(s, t, op, k); }
    TargetKeys(s, t, op);
  }

  /** What the target's keys hold. */
  lemma TargetKeys(s: Store, t: Store, op: Op)
    requires WellKeyed(s) && WellKeyed(t) && ClonedExactly(View(s), op, View(t)) && IsName(op.source)
      && IsName(op.target)
    ensures ClusterKey(op.target) in t && t[ClusterKey(op.target)] ==
      ClusterRec(CloneRecord(View(s).clusters[op.source], op.host, op.port, op.managementPassword, op.password))
    ensures forall d {:trigger DatabaseKey(op.target, d)} | Wanted(s, op.source, op.inheritDeleted, d) ::
      && DatabaseKey(op.target, d) in t
      && t[DatabaseKey(op.target, d)] == DbRec(AsDb(s[DatabaseKey(op.source, d)]).(cluster := op.target))
  {
    GetCluster(t, op.target);
    forall d | Wanted(s, op.source, op.inheritDeleted, d)
      ensures DatabaseKey(op.target, d) in t
      ensures t[DatabaseKey(op.target, d)] == DbRec(AsDb(s[DatabaseKey(op.source, d)]).(cluster := op.target))
    {
      GetDb(s, op.source, d);
      GetDb(t, op.target, d);
    }
  }

  lemma KeptKey(s: Store, t: Store, op: Op, k: string)
    requires WellKeyed(s) && WellKeyed(t) && Consistent(View(s)) && ClonedExactly(View(s), op, View(t)) && k in s
    ensures k in t && t[k] == s[k]
  {
    assert Fits(k, s[k]);
    match s[k] {
      case ClusterRec(_) => GetCluster(s, ClusterOf(k)); GetCluster(t, ClusterOf(k));
      case DbRec(_) => GetDb(s, DbOf(k).cluster, DbOf(k).name); GetDb(t, DbOf(k).cluster, DbOf(k).name);
      case RoleRec(_) => GetRole(s, RoleOf(k)); GetRole(t, RoleOf(k));
      case MetaRec(_) => GetMeta(s, MetaOf(k)); GetMeta(t, MetaOf(k));
    }
  }

  lemma NewKey(s: Store, t: Store, op: Op, k: string)
    requires WellKeyed(s) && WellKeyed(t) && ClonedExactly(View(s), op, View(t)) && IsName(op.source) && k in t
    ensures k in s || k == ClusterKey(op.target) || IsCopy(s, op.source, op.target, op.inheritDeleted, k)
  {
    assert Fits(k, t[k]);
    match t[k] {
      case ClusterRec(_) => GetCluster(s, ClusterOf(k)); GetCluster(t, ClusterOf(k));
      case DbRec(_) =>
        var id := DbOf(k);
        GetDb(s, id.cluster, id.name);
        GetDb(t, id.cluster, id.name);
        GetDb(s, op.source, id.name);
        assert DbId(id.cluster, id.name) == id;
        if id.cluster == op.target { assert Wanted(s, op.source, op.inheritDeleted, id.name); }
      case RoleRec(_) => GetRole(s, RoleOf(k)); GetRole(t, RoleOf(k));
      case MetaRec(_) => GetMeta(s, MetaOf(k)); GetMeta(t, MetaOf(k));
    }
  }
}
