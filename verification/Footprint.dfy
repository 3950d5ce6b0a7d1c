/** What deleting and purging a cluster does to the keys of the storage. */
module Footprint {
  import opened Paths
  import opened Records
  import opened Encoding
  import opened Recovery
  import opened Vault

  /** The keys of a cluster: its own and those of its databases. */
  predicate Belongs(k: string, c: string) {
    k == ClusterKey(c) || DatabaseKey(c, "") <= k
  }

  lemma UnderDatabases(k: string, c: string)
    requires DatabaseKey(c, "") <= k
    ensures k == DatabaseKey(c, k[|DatabaseKey(c, "")|..])
  {
    var d := k[|DatabaseKey(c, "")|..];
    assert k == DatabaseKey(c, "") + d;
    assert DatabaseKey(c, d) == DatabaseKey(c, "") + d;
  }

  /** Which keys belong to a cluster, by the kind of record: other clusters, roles and metadata never do, however
      much their names look like it. */
  lemma BelongsByKind(c: Name, k: string, rec: Record)
    requires Fits(k, rec)
    ensures Belongs(k, c) <==> (rec.ClusterRec? && ClusterOf(k) == c) || (rec.DbRec? && DbOf(k).cluster == c)
  {
    assert DatabaseKey(c, DbOf(k).name) == DatabaseKey(c, "") + DbOf(k).name;
    KeyRoundTrip(c, "", "");
    FitsOne(c, "", "", "", rec);
    if DatabaseKey(c, "") <= k {
      var d := k[|DatabaseKey(c, "")|..];
      UnderDatabases(k, c);
      KeyRoundTrip(c, d, "");
      FitsOne(c, d, "", "", rec);
    }
  }

  /** A key of t is a key of s when everything t holds has a name in s. */
  lemma {:induction false} KeyFromView(s: Store, t: Store, k: string)
    requires WellKeyed(s) && WellKeyed(t) && k in t
    requires View(t).clusters.Keys <= View(s).clusters.Keys && View(t).dbs.Keys <= View(s).dbs.Keys
    requires View(t).roles.Keys <= View(s).roles.Keys && View(t).meta.Keys <= View(s).meta.Keys
    ensures k in s
  {
    assert Fits(k, t[k]);
    match t[k] {
      case ClusterRec(_) => GetCluster(s, ClusterOf(k)); GetCluster(t, ClusterOf(k));
      case DbRec(_) => GetDb(s, DbOf(k).cluster, DbOf(k).name); GetDb(t, DbOf(k).cluster, DbOf(k).name);
      case RoleRec(_) => GetRole(s, RoleOf(k)); GetRole(t, RoleOf(k));
      case MetaRec(_) => GetMeta(s, MetaOf(k)); GetMeta(t, MetaOf(k));
    }
  }

  /** No key of the cluster is left, and every other key holds what it held. */
  ghost predicate Erased(s: Store, t: Store, c: string) {
    && (forall k :: k in t <==> k in s && !Belongs(k, c))
    && (forall k | k in t && k in s :: t[k] == s[k])
  }

  /** After a purge. */
  lemma {:induction false} PurgeFootprint(s: Store, t: Store, c: Name)
    requires WellKeyed(s) && WellKeyed(t) && View(t) == Purged(View(s), c)
    ensures Erased(s, t, c)
  {
    forall k ensures (k in t <==> k in s && !Belongs(k, c)) && (k in t ==> k in s && t[k] == s[k]) {
      if k in s { PurgedKey(s, t, c, k); }
      if k in t { KeyFromView(s, t, k); }
    }
  }

  lemma PurgeErases(s: Store, g: Config, log: seq<Write>, t: Store, h: Config, log': seq<Write>, c: Name)
    requires Holding(s, g, log) && Holding(t, h, log') && h == Purged(g, c)
    ensures Erased(s, t, c)
  {
    HoldingView(s, g, log);
    HoldingView(t, h, log');
    PurgeFootprint(s, t, c);
  }

  lemma {:induction false} PurgedKey(s: Store, t: Store, c: Name, k: string)
    requires WellKeyed(s) && WellKeyed(t) && View(t) == Purged(View(s), c) && k in s
    ensures (k in t <==> !Belongs(k, c)) && (k in t ==> t[k] == s[k])
  {
    assert Fits(k, s[k]);
    BelongsByKind(c, k, s[k]);
    match s[k] {
      case ClusterRec(_) => GetCluster(s, ClusterOf(k)); GetCluster(t, ClusterOf(k));
      case DbRec(_) => GetDb(s, DbOf(k).cluster, DbOf(k).name); GetDb(t, DbOf(k).cluster, DbOf(k).name);
      case RoleRec(_) => GetRole(s, RoleOf(k)); GetRole(t, RoleOf(k));
      case MetaRec(_) => GetMeta(s, MetaOf(k)); GetMeta(t, MetaOf(k));
    }
  }

  function Marked(rec: Record): Record {
    match rec
    case ClusterRec(cluster) => ClusterRec(cluster.(disabled := true))
    case DbRec(db) => DbRec(db.(disabled := true))
    case _ => rec
  }

  /** Every key is still there; those of the cluster hold the same record marked as deleted, every other key holds
      what it held. */
  ghost predicate MarkedInPlace(s: Store, t: Store, c: string) {
    && (forall k :: k in t <==> k in s)
    && (forall k | k in t && k in s :: t[k] == if Belongs(k, c) then Marked(s[k]) else s[k])
  }

  /** After a delete. */
  lemma {:induction false} DeleteFootprint(s: Store, t: Store, c: Name)
    requires WellKeyed(s) && WellKeyed(t) && c in View(s).clusters && View(t) == Deleted(View(s), c)
    ensures MarkedInPlace(s, t, c)
  {
    forall k
      ensures (k in t <==> k in s) && (k in t ==> k in s && t[k] == if Belongs(k, c) then Marked(s[k]) else s[k]) {
      if k in s { MarkedKey(s, t, c, k); }
      if k in t { KeyFromView(s, t, k); }
    }
  }

  lemma DeleteMarks(s: Store, g: Config, log: seq<Write>, t: Store, h: Config, log': seq<Write>, c: Name)
    requires Holding(s, g, log) && Holding(t, h, log') && c in g.clusters && h == Deleted(g, c)
    ensures MarkedInPlace(s, t, c)
  {
    HoldingView(s, g, log);
    HoldingView(t, h, log');
    DeleteFootprint(s, t, c);
  }

  lemma {:induction false} MarkedKey(s: Store, t: Store, c: Name, k: string)
    requires WellKeyed(s) && WellKeyed(t) && c in View(s).clusters && View(t) == Deleted(View(s), c) && k in s
    ensures k in t && t[k] == if Belongs(k, c) then Marked(s[k]) else s[k]
  {
    assert Fits(k, s[k]);
    BelongsByKind(c, k, s[k]);
    match s[k] {
      case ClusterRec(_) => GetCluster(s, ClusterOf(k)); GetCluster(t, ClusterOf(k));
      case DbRec(_) => GetDb(s, DbOf(k).cluster, DbOf(k).name); GetDb(t, DbOf(k).cluster, DbOf(k).name);
      case RoleRec(_) => GetRole(s, RoleOf(k)); GetRole(t, RoleOf(k));
      case MetaRec(_) => GetMeta(s, MetaOf(k)); GetMeta(t, MetaOf(k));
    }
  }
}
