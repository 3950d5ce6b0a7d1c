/** The flat string-keyed storage as a typed configuration. */
module Encoding {
  import opened Paths
  import opened Records

  type Store = map<string, Record>

  predicate IsMetaAddr(addr: string) {
    || ("cluster/" <= addr && IsName(addr[|"cluster/"|..]))
    || ("database/" <= addr && IsName(addr[|"database/"|..]))
  }

  /** Is k a key at which a handler stores a record of this kind? */
  predicate Fits(k: string, rec: Record) {
    match rec
    case ClusterRec(_) => IsName(ClusterOf(k)) && k == ClusterKey(ClusterOf(k))
    case DbRec(_) => IsName(DbOf(k).cluster) && IsName(DbOf(k).name) && k == DatabaseKey(DbOf(k).cluster, DbOf(k).name)
    case RoleRec(_) => IsName(RoleOf(k)) && k == RoleKey(RoleOf(k))
    case MetaRec(_) => IsMetaAddr(MetaOf(k)) && k == MetaKey(MetaOf(k))
  }

  /** Every record sits at a key of its own kind. */
  ghost predicate WellKeyed(s: Store) {
    forall k {:trigger Fits(k, s[k])} | k in s :: Fits(k, s[k])
  }

  /** A map with its keys renamed. */
  ghost predicate OneToOne<N(!new)>(f: string -> N, keys: set<string>) {
    forall j, k | j in keys && k in keys && f(j) == f(k) :: j == k
  }

  ghost function Renamed<N(!new), T>(m: map<string, T>, f: string -> N): map<N, T>
    requires OneToOne(f, m.Keys)
  {
    map k | k in m :: f(k) := m[k]
  }

  lemma RenamedAt<N(!new), T>(m: map<string, T>, f: string -> N, k: string)
    requires OneToOne(f, m.Keys) && k in m
    ensures f(k) in Renamed(m, f) && Renamed(m, f)[f(k)] == m[k]
  {}

  lemma RenamedFrom<N(!new), T>(m: map<string, T>, f: string -> N, n: N) returns (k: string)
    requires OneToOne(f, m.Keys) && n in Renamed(m, f)
    ensures k in m && f(k) == n && Renamed(m, f)[n] == m[k]
  {
    k :| k in m && f(k) == n;
  }

  lemma RenamedPut<N(!new), T>(m: map<string, T>, f: string -> N, k: string, v: T)
    requires OneToOne(f, m[k := v].Keys)
    ensures OneToOne(f, m.Keys) && Renamed(m[k := v], f) == Renamed(m, f)[f(k) := v]
  {}

  lemma RenamedDel<N(!new), T>(m: map<string, T>, f: string -> N, k: string)
    requires OneToOne(f, m.Keys) && k in m
    ensures OneToOne(f, (m - {k}).Keys) && Renamed(m - {k}, f) == Renamed(m, f) - {f(k)}
  {}

  ghost function ClusterEntries(s: Store): map<string, ClusterRecord>
      { map k | k in s && s[k].ClusterRec? :: s[k].cluster }
  ghost function DbEntries(s: Store): map<string, DbRecord> { map k | k in s && s[k].DbRec? :: s[k].db }
  ghost function RoleEntries(s: Store): map<string, RoleRecord> { map k | k in s && s[k].RoleRec? :: s[k].role }
  ghost function MetaEntries(s: Store): map<string, MetaRecord> { map k | k in s && s[k].MetaRec? :: s[k].meta }

  ghost predicate Separated(s: Store) {
    && OneToOne(ClusterOf, ClusterEntries(s).Keys) && OneToOne(DbOf, DbEntries(s).Keys)
    && OneToOne(RoleOf, RoleEntries(s).Keys) && OneToOne(MetaOf, MetaEntries(s).Keys)
  }

  lemma {:induction false} WellKeyedSeparated(s: Store)
    requires WellKeyed(s)
    ensures Separated(s)
  {
    forall k | k in s ensures Fits(k, s[k]) {}
    forall j, k | j in ClusterEntries(s) && k in ClusterEntries(s) && ClusterOf(j) == ClusterOf(k) ensures j == k {
      assert Fits(j, s[j]) && Fits(k, s[k]);
    }
    forall j, k | j in DbEntries(s) && k in DbEntries(s) && DbOf(j) == DbOf(k) ensures j == k {
      assert Fits(j, s[j]) && Fits(k, s[k]);
    }
    forall j, k | j in RoleEntries(s) && k in RoleEntries(s) && RoleOf(j) == RoleOf(k) ensures j == k {
      assert Fits(j, s[j]) && Fits(k, s[k]);
    }
    forall j, k | j in MetaEntries(s) && k in MetaEntries(s) && MetaOf(j) == MetaOf(k) ensures j == k {
      assert Fits(j, s[j]) && Fits(k, s[k]);
    }
  }

  ghost function ViewOf(s: Store): Config
    requires Separated(s)
  {
    Config(Renamed(ClusterEntries(s), ClusterOf), Renamed(DbEntries(s), DbOf),
           Renamed(RoleEntries(s), RoleOf), Renamed(MetaEntries(s), MetaOf))
  }

  /** The typed configuration a well-keyed store holds. */
  ghost function View(s: Store): Config
    requires WellKeyed(s)
  {
    WellKeyedSeparated(s);
    ViewOf(s)
  }

  /** The kind of record that fits a key is determined by how the key was printed. */
  lemma FitsOne(c: Name, d: string, r: string, addr: string, rec: Record)
    ensures Fits(ClusterKey(c), rec) <==> rec.ClusterRec?
    ensures Fits(DatabaseKey(c, d), rec) <==> rec.DbRec? && IsName(d)
    ensures Fits(RoleKey(r), rec) <==> rec.RoleRec? && IsName(r)
    ensures Fits(MetaKey(addr), rec) <==> rec.MetaRec? && IsMetaAddr(addr)
  {
    KeyRoundTrip(c, d, r);
    KeyRoundTrip(c, d, addr);
    var k1, k2, k3, k4 := ClusterKey(c), DatabaseKey(c, d), RoleKey(r), MetaKey(addr);
    KeysApart(c, DbOf(k1).cluster, DbOf(k1).name, RoleOf(k1), MetaOf(k1));
    if IsName(ClusterOf(k2)) { KeysApart(ClusterOf(k2), c, d, RoleOf(k2), MetaOf(k2)); }
    KeysApart(c, c, d, RoleOf(k2), MetaOf(k2));
    if IsName(ClusterOf(k3)) { KeysApart(ClusterOf(k3), DbOf(k3).cluster, DbOf(k3).name, r, MetaOf(k3)); }
    KeysApart(c, DbOf(k3).cluster, DbOf(k3).name, r, MetaOf(k3));
    if IsName(ClusterOf(k4)) { KeysApart(ClusterOf(k4), DbOf(k4).cluster, DbOf(k4).name, RoleOf(k4), addr); }
    KeysApart(c, DbOf(k4).cluster, DbOf(k4).name, RoleOf(k4), addr);
  }

  // A Get at a key is a lookup in the view.

  lemma GetCluster(s: Store, c: Name)
    requires WellKeyed(s)
    ensures ClusterKey(c) in s <==> c in View(s).clusters
    ensures ClusterKey(c) in s ==> s[ClusterKey(c)] == ClusterRec(View(s).clusters[c])
  {
    WellKeyedSeparated(s);
    KeyRoundTrip(c, "", "");
    var k := ClusterKey(c);
    if k in s {
      FitsOne(c, "", "", "", s[k]);
      RenamedAt(ClusterEntries(s), ClusterOf, k);
    } else if c in View(s).clusters {
      ViewedCluster(s, c);
    }
  }

  /** No record is stored for the empty cluster name. */
  lemma NoEmptyName(s: Store)
    requires WellKeyed(s)
    ensures ClusterKey("") !in s
  {
    var k := ClusterKey("");
    if k in s {
      assert Fits(k, s[k]);
      DropRoot(CLUSTER_ROOT, "");
      NotUnder(ROLE_ROOT, k, 7);
      NotUnder(META_ROOT, k, 0);
    }
  }

  lemma {:induction false} GetDb(s: Store, c: Name, d: string)
    requires WellKeyed(s)
    ensures DatabaseKey(c, d) in s <==> DbId(c, d) in View(s).dbs
    ensures DatabaseKey(c, d) in s ==> s[DatabaseKey(c, d)] == DbRec(View(s).dbs[DbId(c, d)]) && IsName(d)
  {
    WellKeyedSeparated(s);
    KeyRoundTrip(c, d, "");
    var k := DatabaseKey(c, d);
    if k in s {
      FitsOne(c, d, "", "", s[k]);
      RenamedAt(DbEntries(s), DbOf, k);
    } else if DbId(c, d) in View(s).dbs {
      ViewedDb(s, DbId(c, d));
    }
  }

  lemma GetRole(s: Store, r: string)
    requires WellKeyed(s)
    ensures RoleKey(r) in s <==> r in View(s).roles
    ensures RoleKey(r) in s ==> s[RoleKey(r)] == RoleRec(View(s).roles[r]) && IsName(r)
  {
    WellKeyedSeparated(s);
    KeyRoundTrip("c", "", r);
    var k := RoleKey(r);
    if k in s {
      FitsOne("c", "", r, "", s[k]);
      RenamedAt(RoleEntries(s), RoleOf, k);
    } else if r in View(s).roles {
      ViewedRole(s, r);
    }
  }

  lemma GetMeta(s: Store, addr: string)
    requires WellKeyed(s)
    ensures MetaKey(addr) in s <==> addr in View(s).meta
    ensures MetaKey(addr) in s ==> s[MetaKey(addr)] == MetaRec(View(s).meta[addr]) && IsMetaAddr(addr)
  {
    WellKeyedSeparated(s);
    KeyRoundTrip("c", "", addr);
    var k := MetaKey(addr);
    if k in s {
      FitsOne("c", "", "", addr, s[k]);
      RenamedAt(MetaEntries(s), MetaOf, k);
    } else if addr in View(s).meta {
      ViewedMeta(s, addr);
    }
  }

  lemma ViewedCluster(s: Store, c: string)
    requires WellKeyed(s) && c in View(s).clusters
    ensures IsName(c) && ClusterKey(c) in s && s[ClusterKey(c)] == ClusterRec(View(s).clusters[c])
  {
    WellKeyedSeparated(s);
    var k := RenamedFrom(ClusterEntries(s), ClusterOf, c);
    assert Fits(k, s[k]);
  }

  lemma {:induction false} ViewedDb(s: Store, id: DbId)
    requires WellKeyed(s) && id in View(s).dbs
    ensures IsName(id.cluster) && IsName(id.name)
    ensures DatabaseKey(id.cluster, id.name) in s && s[DatabaseKey(id.cluster, id.name)] == DbRec(View(s).dbs[id])
  {
    WellKeyedSeparated(s);
    var k := RenamedFrom(DbEntries(s), DbOf, id);
    assert Fits(k, s[k]);
  }

  lemma ViewedRole(s: Store, r: string)
    requires WellKeyed(s) && r in View(s).roles
    ensures IsName(r) && RoleKey(r) in s && s[RoleKey(r)] == RoleRec(View(s).roles[r])
  {
    WellKeyedSeparated(s);
    var k := RenamedFrom(RoleEntries(s), RoleOf, r);
    assert Fits(k, s[k]);
  }

  lemma ViewedMeta(s: Store, addr: string)
    requires WellKeyed(s) && addr in View(s).meta
    ensures IsMetaAddr(addr) && MetaKey(addr) in s && s[MetaKey(addr)] == MetaRec(View(s).meta[addr])
  {
    WellKeyedSeparated(s);
    var k := RenamedFrom(MetaEntries(s), MetaOf, addr);
    assert Fits(k, s[k]);
  }

  /** Putting rec at key k performs write w. */
  predicate Puts(k: string, rec: Record, w: Write) {
    match w
    case PutCluster(c, r) => IsName(c) && k == ClusterKey(c) && rec == ClusterRec(r)
    case PutDb(id, r) => IsName(id.cluster) && IsName(id.name) && k == DatabaseKey(id.cluster, id.name)
        && rec == DbRec(r)
    case PutRole(role, r) => IsName(role) && k == RoleKey(role) && rec == RoleRec(r)
    case PutMeta(addr, r) => IsMetaAddr(addr) && k == MetaKey(addr) && rec == MetaRec(r)
    case _ => false
  }

  /** Deleting key k performs write w. Role names and metadata addresses may be anything. */
  predicate Deletes(k: string, w: Write) {
    match w
    case DelCluster(c) => IsName(c) && k == ClusterKey(c)
    case DelDb(id) => IsName(id.cluster) && k == DatabaseKey(id.cluster, id.name)
    case DelRole(r) => k == RoleKey(r)
    case DelMeta(addr) => k == MetaKey(addr)
    case _ => false
  }

  ghost predicate SameConstructor(a: Record, b: Record) {
    (a.ClusterRec? <==> b.ClusterRec?) && (a.DbRec? <==> b.DbRec?) && (a.RoleRec? <==> b.RoleRec?)
        && (a.MetaRec? <==> b.MetaRec?)
  }

  lemma EntriesAfterPut(s: Store, k: string, rec: Record)
    requires k in s ==> SameConstructor(s[k], rec)
    ensures ClusterEntries(s[k := rec]) == if rec.ClusterRec? then ClusterEntries(s)[k := rec.cluster]
      else ClusterEntries(s)
    ensures DbEntries(s[k := rec]) == if rec.DbRec? then DbEntries(s)[k := rec.db] else DbEntries(s)
    ensures RoleEntries(s[k := rec]) == if rec.RoleRec? then RoleEntries(s)[k := rec.role] else RoleEntries(s)
    ensures MetaEntries(s[k := rec]) == if rec.MetaRec? then MetaEntries(s)[k := rec.meta] else MetaEntries(s)
  {}

  lemma EntriesAfterDelete(s: Store, k: string)
    ensures ClusterEntries(s - {k}) == ClusterEntries(s) - {k}
    ensures DbEntries(s - {k}) == DbEntries(s) - {k}
    ensures RoleEntries(s - {k}) == RoleEntries(s) - {k}
    ensures MetaEntries(s - {k}) == MetaEntries(s) - {k}
  {}

  lemma WellKeyedPut(s: Store, k: string, rec: Record)
    requires WellKeyed(s) && Fits(k, rec)
    ensures WellKeyed(s[k := rec])
  {}

  lemma PutFits(k: string, rec: Record, w: Write)
    requires Puts(k, rec, w)
    ensures Fits(k, rec) && PutsUnder(k, rec, w)
  {
    match w
    case PutCluster(c, _) => FitsOne(c, "", "", "", rec); KeyRoundTrip(c, "", "");
    case PutDb(id, _) => FitsOne(id.cluster, id.name, "", "", rec); KeyRoundTrip(id.cluster, id.name, "");
    case PutRole(r, _) => FitsOne("c", "", r, "", rec); KeyRoundTrip("c", "", r);
    case PutMeta(addr, _) => FitsOne("c", "", "", addr, rec); KeyRoundTrip("c", "", addr);
  }

  predicate PutsUnder(k: string, rec: Record, w: Write) {
    match w
    case PutCluster(c, r) => c == ClusterOf(k) && rec == ClusterRec(r)
    case PutDb(id, r) => id == DbOf(k) && rec == DbRec(r)
    case PutRole(role, r) => role == RoleOf(k) && rec == RoleRec(r)
    case PutMeta(addr, r) => addr == MetaOf(k) && rec == MetaRec(r)
    case _ => false
  }

  lemma {:induction false} PutView(s: Store, k: string, rec: Record, w: Write)
    requires WellKeyed(s) && Puts(k, rec, w)
    ensures WellKeyed(s[k := rec]) && View(s[k := rec]) == Apply(View(s), w)
  {
    PutFits(k, rec, w);
    if k in s { SameKind(k, s[k], rec); }
    WellKeyedPut(s, k, rec);
    WellKeyedSeparated(s);
    WellKeyedSeparated(s[k := rec]);
    PutViewSeparated(s, k, rec, w);
  }

  lemma {:induction false} PutViewSeparated(s: Store, k: string, rec: Record, w: Write)
    requires Separated(s) && Separated(s[k := rec]) && PutsUnder(k, rec, w)
    requires k in s ==> SameConstructor(s[k], rec)
    ensures ViewOf(s[k := rec]) == Apply(ViewOf(s), w)
  {
    EntriesAfterPut(s, k, rec);
    match w
    case PutCluster(_, r) => RenamedPut(ClusterEntries(s), ClusterOf, k, r);
    case PutDb(_, r) => RenamedPut(DbEntries(s), DbOf, k, r);
    case PutRole(_, r) => RenamedPut(RoleEntries(s), RoleOf, k, r);
    case PutMeta(_, r) => RenamedPut(MetaEntries(s), MetaOf, k, r);
  }

  lemma SameKind(k: string, a: Record, b: Record)
    requires Fits(k, a) && Fits(k, b)
    ensures SameConstructor(a, b)
  {
    match a
    case ClusterRec(_) => FitsOne(ClusterOf(k), "", "", "", b);
    case DbRec(_) => FitsOne(DbOf(k).cluster, DbOf(k).name, "", "", b);
    case RoleRec(_) => FitsOne("c", "", RoleOf(k), "", b);
    case MetaRec(_) => FitsOne("c", "", "", MetaOf(k), b);
  }

  lemma NotUnder(root: string, k: string, i: nat)
    requires i < |root| && i < |k| && root[i] != k[i]
    ensures !(root <= k)
  {}

  lemma DelView(s: Store, k: string, w: Write)
    requires WellKeyed(s) && Deletes(k, w)
    ensures WellKeyed(s - {k}) && View(s - {k}) == Apply(View(s), w)
  {
    WellKeyedSeparated(s);
    WellKeyedSeparated(s - {k});
    if k in s {
      match w {
        case DelCluster(c) => FitsOne(c, "", "", "", s[k]); KeyRoundTrip(c, "", "");
        case DelDb(id) => FitsOne(id.cluster, id.name, "", "", s[k]); KeyRoundTrip(id.cluster, id.name, "");
        case DelRole(r) => FitsOne("c", "", r, "", s[k]); KeyRoundTrip("c", "", r);
        case DelMeta(addr) => FitsOne("c", "", "", addr, s[k]); KeyRoundTrip("c", "", addr);
      }
      DelViewSeparated(s, k, w);
    } else {
      assert s - {k} == s;
      match w {
        case DelCluster(c) => GetCluster(s, c);
        case DelDb(id) => GetDb(s, id.cluster, id.name);
        case DelRole(r) => GetRole(s, r);
        case DelMeta(addr) => GetMeta(s, addr);
      }
      DelNothing(View(s), w);
    }
  }

  lemma DelNothing(g: Config, w: Write)
    requires match w
      case DelCluster(c) => c !in g.clusters
      case DelDb(id) => id !in g.dbs
      case DelRole(r) => r !in g.roles
      case DelMeta(addr) => addr !in g.meta
      case _ => false
    ensures Apply(g, w) == g
  {
    match w
    case DelCluster(c) => assert g.clusters - {c} == g.clusters;
    case DelDb(id) => assert g.dbs - {id} == g.dbs;
    case DelRole(r) => assert g.roles - {r} == g.roles;
    case DelMeta(addr) => assert g.meta - {addr} == g.meta;
  }

  /** Removing an entry that is not of the kind of the map removes nothing. */
  lemma DropAbsent<T>(m: map<string, T>, k: string)
    requires k !in m
    ensures m - {k} == m
  {}

  lemma {:induction false} DelViewSeparated(s: Store, k: string, w: Write)
    requires Separated(s) && Separated(s - {k}) && k in s
    requires match w
      case DelCluster(c) => s[k].ClusterRec? && c == ClusterOf(k)
      case DelDb(id) => s[k].DbRec? && id == DbOf(k)
      case DelRole(r) => s[k].RoleRec? && r == RoleOf(k)
      case DelMeta(addr) => s[k].MetaRec? && addr == MetaOf(k)
      case _ => false
    ensures ViewOf(s - {k}) == Apply(ViewOf(s), w)
  {
    EntriesAfterDelete(s, k);
    if !w.DelCluster? { DropAbsent(ClusterEntries(s), k); } else { RenamedDel(ClusterEntries(s), ClusterOf, k); }
    if !w.DelDb? { DropAbsent(DbEntries(s), k); } else { RenamedDel(DbEntries(s), DbOf, k); }
    if !w.DelRole? { DropAbsent(RoleEntries(s), k); } else { RenamedDel(RoleEntries(s), RoleOf, k); }
    if !w.DelMeta? { DropAbsent(MetaEntries(s), k); } else { RenamedDel(MetaEntries(s), MetaOf, k); }
  }

  /** Store s holds configuration g, said key by key. */
  ghost predicate Holds(s: Store, g: Config) {
    && WellKeyed(s)
    && (forall c {:trigger c in g.clusters} | c in g.clusters :: IsName(c))
    && (forall id {:trigger id in g.dbs} | id in g.dbs :: IsName(id.cluster) && IsName(id.name))
    && (forall c: Name {:trigger ClusterKey(c)} :: ClusterKey(c) in s <==> c in g.clusters)
    && (forall c: Name {:trigger ClusterKey(c)} | c in g.clusters :: s[ClusterKey(c)] == ClusterRec(g.clusters[c]))
    && (forall c: Name, d: string {:trigger DatabaseKey(c, d)} :: DatabaseKey(c, d) in s <==> DbId(c, d) in g.dbs)
    && (forall c: Name,
        d: string {:trigger DatabaseKey(c, d)} | DbId(c, d) in g.dbs ::
            s[DatabaseKey(c, d)] == DbRec(g.dbs[DbId(c, d)]))
    && (forall r: string {:trigger RoleKey(r)} :: RoleKey(r) in s <==> r in g.roles)
    && (forall r: string {:trigger RoleKey(r)} | r in g.roles :: s[RoleKey(r)] == RoleRec(g.roles[r]))
    && (forall addr: string {:trigger MetaKey(addr)} :: MetaKey(addr) in s <==> addr in g.meta)
    && (forall addr: string {:trigger MetaKey(addr)} | addr in g.meta :: s[MetaKey(addr)] == MetaRec(g.meta[addr]))
  }

  lemma ViewHolds(s: Store)
    requires WellKeyed(s)
    ensures Holds(s, View(s))
  {
    var g := View(s);
    forall c | c in g.clusters ensures IsName(c) { ViewedCluster(s, c); }
    forall id | id in g.dbs ensures IsName(id.cluster) && IsName(id.name) { ViewedDb(s, id); }
    forall c: Name ensures ClusterKey(c) in s <==> c in g.clusters { GetCluster(s, c); }
    forall c: Name | c in g.clusters ensures s[ClusterKey(c)] == ClusterRec(g.clusters[c]) { GetCluster(s, c); }
    forall c: Name, d: string ensures DatabaseKey(c, d) in s <==> DbId(c, d) in g.dbs { GetDb(s, c, d); }
    forall c: Name, d: string | DbId(c, d) in g.dbs
      ensures s[DatabaseKey(c, d)] == DbRec(g.dbs[DbId(c, d)]) { GetDb(s, c, d); }
    forall r: string ensures RoleKey(r) in s <==> r in g.roles { GetRole(s, r); }
    forall r: string | r in g.roles ensures s[RoleKey(r)] == RoleRec(g.roles[r]) { GetRole(s, r); }
    forall addr: string ensures MetaKey(addr) in s <==> addr in g.meta { GetMeta(s, addr); }
    forall addr: string | addr in g.meta ensures s[MetaKey(addr)] == MetaRec(g.meta[addr]) { GetMeta(s, addr); }
  }

  /** What a store holds is its view and nothing else. */
  lemma HoldsIsView(s: Store, g: Config)
    requires Holds(s, g)
    ensures View(s) == g
  {
    ViewHolds(s);
    SameHoldings(s, View(s), g);
  }

  lemma SameHoldings(s: Store, g: Config, h: Config)
    requires Holds(s, g) && Holds(s, h)
    ensures g == h
  {
    SameClusters(s, g, h);
    SameDbs(s, g, h);
    SameRest(s, g, h);
  }

  lemma SameClusters(s: Store, g: Config, h: Config)
    requires Holds(s, g) && Holds(s, h)
    ensures g.clusters == h.clusters
  {
    forall c ensures (c in g.clusters <==> c in h.clusters) && (c in g.clusters ==> g.clusters[c] == h.clusters[c]) {
      if IsName(c) { assert ClusterKey(c) in s <==> c in g.clusters; }
    }
  }

  lemma SameDbs(s: Store, g: Config, h: Config)
    requires Holds(s, g) && Holds(s, h)
    ensures g.dbs == h.dbs
  {
    forall id ensures (id in g.dbs <==> id in h.dbs) && (id in g.dbs ==> g.dbs[id] == h.dbs[id]) {
      assert DbId(id.cluster, id.name) == id;
      if IsName(id.cluster) { assert DatabaseKey(id.cluster, id.name) in s <==> id in g.dbs; }
    }
  }

  lemma SameRest(s: Store, g: Config, h: Config)
    requires Holds(s, g) && Holds(s, h)
    ensures g.roles == h.roles && g.meta == h.meta
  {
    forall r ensures (r in g.roles <==> r in h.roles) && (r in g.roles ==> g.roles[r] == h.roles[r]) {
      assert RoleKey(r) in s <==> r in g.roles;
    }
    forall a ensures (a in g.meta <==> a in h.meta) && (a in g.meta ==> g.meta[a] == h.meta[a]) {
      assert MetaKey(a) in s <==> a in g.meta;
    }
  }

  /** Nothing in a well-keyed store is outside its view: two stores with the same view are the same store. */
  lemma {:induction false} ViewIsFaithful(s: Store, t: Store)
    requires WellKeyed(s) && WellKeyed(t) && View(s) == View(t)
    ensures s == t
  {
    forall k | k in s ensures k in t && t[k] == s[k] { EntryInBoth(s, t, k); }
    forall k | k in t ensures k in s { EntryInBoth(t, s, k); }
  }

  lemma EntryInBoth(s: Store, t: Store, k: string)
    requires WellKeyed(s) && WellKeyed(t) && View(s) == View(t) && k in s
    ensures k in t && t[k] == s[k]
  {
    assert Fits(k, s[k]);
    match s[k] {
      case ClusterRec(_) => GetCluster(s, ClusterOf(k)); GetCluster(t, ClusterOf(k));
      case DbRec(_) => GetDb(s, DbOf(k).cluster, DbOf(k).name); GetDb(t, DbOf(k).cluster, DbOf(k).name);
      case RoleRec(_) => GetRole(s, RoleOf(k)); GetRole(t, RoleOf(k));
      case MetaRec(_) => GetMeta(s, MetaOf(k)); GetMeta(t, MetaOf(k));
    }
  }
}
