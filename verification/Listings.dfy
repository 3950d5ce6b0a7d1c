/** What storage.List returns under the prefixes the handlers use. */
module Listings {
  import opened Paths
  import opened Records
  import opened Encoding

  lemma InChildren(keys: set<string>, prefix: string, below: string)
    requires prefix + below in keys
    ensures Child(below) in Children(keys, prefix)
  {
    var k := prefix + below;
    assert prefix <= k && k[|prefix|..] == below;
  }

  lemma FromChildren(keys: set<string>, prefix: string, child: string) returns (below: string)
    requires child in Children(keys, prefix)
    ensures prefix + below in keys && Child(below) == child
  {
    var k :| k in keys && prefix <= k && Child(k[|prefix|..]) == child;
    below := k[|prefix|..];
    assert k == prefix + below;
  }

  lemma SetsEqual(a: set<string>, b: set<string>)
    requires forall n | n in a :: n in b
    requires forall n | n in b :: n in a
    ensures a == b
  {}

  /** Under "config/cluster/C/database/": exactly the databases of cluster C. */
  lemma {:induction false} DatabaseListing(s: Store, c: Name)
    requires WellKeyed(s)
    ensures Children(s.Keys, DatabaseKey(c, "")) == DbNames(View(s), c)
  {
    var children, names := Children(s.Keys, DatabaseKey(c, "")), DbNames(View(s), c);
    forall n | n in children ensures n in names { ListedIsDb(s, c, n); }
    forall n | n in names ensures n in children { DbIsListed(s, c, n); }
    SetsEqual(children, names);
  }

  lemma ListedIsDb(s: Store, c: Name, n: string)
    requires WellKeyed(s) && n in Children(s.Keys, DatabaseKey(c, ""))
    ensures n in DbNames(View(s), c)
  {
    var d := FromChildren(s.Keys, DatabaseKey(c, ""), n);
    assert DatabaseKey(c, "") + d == DatabaseKey(c, d);
    GetDb(s, c, d);
    ChildOfName(d);
    InDbNames(View(s), c, d);
  }

  /** A key directly below a prefix is listed under its name. */
  lemma NameIsListed(keys: set<string>, prefix: string, n: string)
    requires prefix + n in keys && '/' !in n
    ensures n in Children(keys, prefix)
  {
    InChildren(keys, prefix, n);
    ChildOfName(n);
  }

  lemma {:induction false} DbIsListed(s: Store, c: Name, n: string)
    requires WellKeyed(s) && n in DbNames(View(s), c)
    ensures n in Children(s.Keys, DatabaseKey(c, ""))
  {
    assert DatabaseKey(c, n) in s && IsName(n) by {
      InDbNames(View(s), c, n);
      GetDb(s, c, n);
    }
    assert DatabaseKey(c, "") + n == DatabaseKey(c, n);
    NameIsListed(s.Keys, DatabaseKey(c, ""), n);
  }

  /** Names of the clusters that have at least one database record. */
  function Parents(g: Config): set<string> {
    set id | id in g.dbs :: id.cluster
  }

  function Folders(names: set<string>): set<string> {
    set c | c in names :: c + "/"
  }

  /** Under "config/cluster/": every cluster name, and "C/" for every C that has a database. */
  lemma {:induction false} ClusterListing(s: Store)
    requires WellKeyed(s)
    ensures Children(s.Keys, ClusterKey("")) == View(s).clusters.Keys + Folders(Parents(View(s)))
  {
    var children, names := Children(s.Keys, ClusterKey("")), View(s).clusters.Keys + Folders(Parents(View(s)));
    forall n | n in children ensures n in names {
      var below := FromChildren(s.Keys, ClusterKey(""), n);
      assert ClusterKey("") + below == ClusterKey(below);
      UnderClusterRoot(s, below);
    }
    forall n | n in names ensures n in children { ClusterIsListed(s, n); }
    SetsEqual(children, names);
  }

  lemma {:induction false} ClusterIsListed(s: Store, n: string)
    requires WellKeyed(s) && n in View(s).clusters.Keys + Folders(Parents(View(s)))
    ensures n in Children(s.Keys, ClusterKey(""))
  {
    if n in View(s).clusters {
      ClusterNameIsListed(s, n);
    } else {
      var id := FromFolders(View(s), n);
      DbFolderIsListed(s, id);
    }
  }

  lemma {:induction false} ClusterNameIsListed(s: Store, n: string)
    requires WellKeyed(s) && n in View(s).clusters
    ensures n in Children(s.Keys, ClusterKey(""))
  {
    assert ClusterKey(n) in s && IsName(n) by { ViewedCluster(s, n); }
    assert ClusterKey("") + n == ClusterKey(n);
    NameIsListed(s.Keys, ClusterKey(""), n);
  }

  lemma {:induction false} DbFolderIsListed(s: Store, id: DbId)
    requires WellKeyed(s) && id in View(s).dbs
    ensures id.cluster + "/" in Children(s.Keys, ClusterKey(""))
  {
    assert DatabaseKey(id.cluster, id.name) in s && IsName(id.cluster) by { ViewedDb(s, id); }
    FolderIsListed(s, id.cluster, id.name);
  }

  lemma FolderIsListed(s: Store, c: Name, d: string)
    requires DatabaseKey(c, d) in s
    ensures c + "/" in Children(s.Keys, ClusterKey(""))
  {
    var below := c + (DATABASE_INFIX + d);
    assert DatabaseKey(c, d) == ClusterKey("") + below;
    InChildren(s.Keys, ClusterKey(""), below);
    ChildOfFolder(c, DATABASE_INFIX + d);
  }

  lemma FromFolders(g: Config, n: string) returns (id: DbId)
    requires n in Folders(Parents(g))
    ensures id in g.dbs && n == id.cluster + "/"
  {
    var c :| c in Parents(g) && n == c + "/";
    id :| id in g.dbs && id.cluster == c;
  }

  lemma InFolders(g: Config, id: DbId)
    requires id in g.dbs
    ensures id.cluster + "/" in Folders(Parents(g))
  {
    assert id.cluster in Parents(g);
  }

  lemma UnderClusterRoot(s: Store, below: string)
    requires WellKeyed(s) && ClusterKey(below) in s
    ensures Child(below) in View(s).clusters.Keys + Folders(Parents(View(s)))
  {
    var k := ClusterKey(below);
    DropRoot(CLUSTER_ROOT, below);
    NotUnder(ROLE_ROOT, k, 7);
    NotUnder(META_ROOT, k, 0);
    assert Fits(k, s[k]);
    match s[k] {
      case ClusterRec(_) =>
        GetCluster(s, below);
        ChildOfName(below);
      case DbRec(_) =>
        DbUnderClusterRoot(s, below, DbOf(k));
    }
  }

  lemma DbUnderClusterRoot(s: Store, below: string, id: DbId)
    requires WellKeyed(s) && ClusterKey(below) in s
    requires IsName(id.cluster) && ClusterKey(below) == DatabaseKey(id.cluster, id.name)
    ensures Child(below) in Folders(Parents(View(s)))
  {
    GetDb(s, id.cluster, id.name);
    InFolders(View(s), DbId(id.cluster, id.name));
    ChildIsFolder(below, id.cluster, id.name);
  }

  lemma ChildIsFolder(below: string, c: Name, d: string)
    requires ClusterKey(below) == DatabaseKey(c, d)
    ensures Child(below) == c + "/"
  {
    var rest := DATABASE_INFIX + d;
    assert DatabaseKey(c, d) == CLUSTER_ROOT + (c + rest);
    SameTail(CLUSTER_ROOT, below, c + rest);
    ChildOfFolder(c, rest);
  }

  lemma SameTail(root: string, a: string, b: string)
    requires root + a == root + b
    ensures a == b
  {
    DropRoot(root, a);
    DropRoot(root, b);
  }

  /** A cluster name never looks like a folder, and a folder always does: the suffix filter keeps exactly the
      clusters. */
  lemma {:induction false} SuffixFilter(s: Store, n: string)
    requires WellKeyed(s) && n in View(s).clusters.Keys + Folders(Parents(View(s)))
    ensures !IsFolder(n) <==> n in View(s).clusters
    ensures !IsFolder(n) ==> IsName(n)
  {
    if n in View(s).clusters { ViewedCluster(s, n); }
  }

  /** Under "config/role/": exactly the roles. */
  lemma {:induction false} RoleListing(s: Store)
    requires WellKeyed(s)
    ensures Children(s.Keys, RoleKey("")) == View(s).roles.Keys
  {
    var children, names := Children(s.Keys, RoleKey("")), View(s).roles.Keys;
    forall n | n in children ensures n in names {
      var r := FromChildren(s.Keys, RoleKey(""), n);
      RoleBelow(s, r);
    }
    forall r | r in names ensures r in children { RoleIsListed(s, r); }
    SetsEqual(children, names);
  }

  lemma {:induction false} RoleBelow(s: Store, r: string)
    requires WellKeyed(s) && RoleKey("") + r in s
    ensures Child(r) in View(s).roles
  {
    assert RoleKey("") + r == RoleKey(r);
    GetRole(s, r);
    ChildOfName(r);
  }

  lemma RoleIsListed(s: Store, r: string)
    requires WellKeyed(s) && r in View(s).roles
    ensures r in Children(s.Keys, RoleKey(""))
  {
    assert RoleKey("") + r == RoleKey(r);
    GetRole(s, r);
    InChildren(s.Keys, RoleKey(""), r);
    ChildOfName(r);
  }

  function MetaNames(g: Config, folder: string): set<string> {
    set addr | addr in g.meta && folder <= addr :: addr[|folder|..]
  }

  lemma InMetaNames(g: Config, folder: string, n: string)
    ensures n in MetaNames(g, folder) <==> folder + n in g.meta
  {
    DropRoot(folder, n);
    if n in MetaNames(g, folder) {
      var addr :| addr in g.meta && folder <= addr && n == addr[|folder|..];
      assert addr == folder + n;
    }
  }

  /** Under "meta/cluster/" or "meta/database/": exactly the entries of that type. */
  lemma MetaListing(s: Store, folder: string)
    requires WellKeyed(s) && folder in {"cluster/", "database/"}
    ensures Children(s.Keys, MetaKey(folder)) == MetaNames(View(s), folder)
  {
    var children, names := Children(s.Keys, MetaKey(folder)), MetaNames(View(s), folder);
    forall n | n in children ensures n in names {
      var below := FromChildren(s.Keys, MetaKey(folder), n);
      MetaBelow(s, folder, below);
    }
    forall n | n in names ensures n in children { MetaIsListed(s, folder, n); }
    SetsEqual(children, names);
  }

  lemma MetaIsListed(s: Store, folder: string, n: string)
    requires WellKeyed(s) && folder in {"cluster/", "database/"} && n in MetaNames(View(s), folder)
    ensures n in Children(s.Keys, MetaKey(folder))
  {
    InMetaNames(View(s), folder, n);
    GetMeta(s, folder + n);
    assert MetaKey(folder) + n == MetaKey(folder + n);
    MetaTail(folder, n);
    ChildOfName(n);
    InChildren(s.Keys, MetaKey(folder), n);
  }

  lemma MetaBelow(s: Store, folder: string, below: string)
    requires WellKeyed(s) && folder in {"cluster/", "database/"} && MetaKey(folder) + below in s
    ensures Child(below) in MetaNames(View(s), folder)
  {
    MetaFound(s, folder, below);
    MetaLeaf(View(s), folder, below);
  }

  lemma MetaFound(s: Store, folder: string, below: string)
    requires WellKeyed(s) && MetaKey(folder) + below in s
    ensures IsMetaAddr(folder + below) && folder + below in View(s).meta
  {
    assert MetaKey(folder) + below == MetaKey(folder + below);
    GetMeta(s, folder + below);
  }

  lemma MetaLeaf(g: Config, folder: string, below: string)
    requires folder in {"cluster/", "database/"} && IsMetaAddr(folder + below) && folder + below in g.meta
    ensures Child(below) in MetaNames(g, folder)
  {
    MetaTail(folder, below);
    ChildOfName(below);
    InMetaNames(g, folder, below);
  }

  lemma MetaTail(folder: string, below: string)
    requires folder in {"cluster/", "database/"} && IsMetaAddr(folder + below)
    ensures IsName(below)
  {
    var addr := folder + below;
    assert addr[0] == folder[0];
    if folder == "cluster/" {
      assert !("database/" <= addr) by { NotUnder("database/", addr, 0); }
      DropRoot("cluster/", below);
    } else {
      assert !("cluster/" <= addr) by { NotUnder("cluster/", addr, 0); }
      DropRoot("database/", below);
    }
  }

  // The loops that walk a listing and keep some of it.

  /** results are the first i entries that are in keep, each once. */
  ghost predicate Filtered(results: seq<string>, entries: seq<string>, i: nat, keep: set<string>)
    requires i <= |entries|
  {
    NoDuplicates(results) && forall n :: n in results <==> n in entries[..i] && n in keep
  }

  lemma FilterNext(results: seq<string>, entries: seq<string>, i: nat, keep: set<string>)
    requires NoDuplicates(entries) && i < |entries| && Filtered(results, entries, i, keep)
    ensures Filtered(if entries[i] in keep then results + [entries[i]] else results, entries, i + 1, keep)
  {
    assert entries[..i + 1] == entries[..i] + [entries[i]];
    assert entries[i] !in entries[..i];
  }

  lemma FilterDone(results: seq<string>, entries: seq<string>, keep: set<string>)
    requires Filtered(results, entries, |entries|, keep) && forall n | n in keep :: n in entries
    ensures Listing(results, keep)
  {
    assert entries[..|entries|] == entries;
  }
}
