/** How the reading endpoints agree with each other. */
module Endpoints {
  import opened Paths
  import opened Records
  import opened Protocol
  import opened Clusters
  import opened Databases
  import opened Gc
  import opened Creds

  /** No active database in a cluster that is deleted or not there. */
  ghost predicate ActiveUnderActive(g: Config) {
    forall id | g.ActiveDb(id) :: g.ActiveCluster(id.cluster)
  }

  lemma ConsistentReaders(g: Config)
    requires Consistent(g)
    ensures ActiveUnderActive(g)
  {}

  /** Every registered database is readable through exactly one of the two read endpoints: the one that looks at
      the cluster, and the one that never does. This is so exactly when active databases have active clusters. */
  lemma OneReaderEach(g: Config)
    ensures (forall id | id in g.dbs :: ReadDb(g, id).Done? <==> !GcReadDb(g, id).Done?) <==> ActiveUnderActive(g)
  {
    if forall id | id in g.dbs :: ReadDb(g, id).Done? <==> !GcReadDb(g, id).Done? {
      forall id | g.ActiveDb(id) ensures g.ActiveCluster(id.cluster) {
        assert ReadDb(g, id).Done? <==> !GcReadDb(g, id).Done?;
      }
    }
  }

  /** A database is listed exactly when it can be read, under the same condition: the list never looks at the
      cluster. */
  lemma ListedIsReadable(g: Config)
    ensures (forall id: DbId :: id.name in ActiveDbs(g, id.cluster) <==> ReadDb(g, id).Done?) <==> ActiveUnderActive(g)
  {
    forall id: DbId ensures id.name in ActiveDbs(g, id.cluster) <==> g.ActiveDb(id) {
      InDbNames(g, id.cluster, id.name);
      assert DbId(id.cluster, id.name) == id;
    }
    if forall id: DbId :: id.name in ActiveDbs(g, id.cluster) <==> ReadDb(g, id).Done? {
      forall id | g.ActiveDb(id) ensures g.ActiveCluster(id.cluster) {
        assert id.name in ActiveDbs(g, id.cluster) <==> ReadDb(g, id).Done?;
      }
    }
  }

  /** In every consistent configuration: listed, readable, and passing the checks for credentials under any role that
      exists are one and the same; and the rest of the registered databases are those awaiting a purge. */
  lemma EndpointsAgree(g: Config, id: DbId, role: string)
    requires Consistent(g) && role in g.roles
    ensures id.name in ActiveDbs(g, id.cluster) <==> ReadDb(g, id).Done?
    ensures ReadDb(g, id).Done? <==> IssueVerdict(g, id, role).Done?
    ensures ReadDb(g, id).Done? <==> RenewVerdict(g, id, role).Done?
    ensures id.name in DisabledDbs(g, id.cluster) <==> GcReadDb(g, id).Done?
    ensures id in g.dbs <==> ReadDb(g, id).Done? || GcReadDb(g, id).Done?
    ensures !(ReadDb(g, id).Done? && GcReadDb(g, id).Done?)
  {
    ConsistentReaders(g);
    ListedIsReadable(g);
    InDbNames(g, id.cluster, id.name);
    assert DbId(id.cluster, id.name) == id;
  }

  lemma JoinListings(xs: seq<string>, ys: seq<string>, a: set<string>, b: set<string>)
    requires Listing(xs, a) && Listing(ys, b) && a !! b
    ensures Listing(xs + ys, a + b)
  {
    forall i, j | 0 <= i < j < |xs + ys| ensures (xs + ys)[i] != (xs + ys)[j] {
      if i < |xs| <= j { assert xs[i] in a && ys[j - |xs|] in b; }
    }
  }

  /** The two cluster lists together are the registered clusters, each once. */
  lemma ClusterListsPartition(g: Config, active: seq<string>, deleted: seq<string>)
    requires Listing(active, ActiveClusters(g)) && Listing(deleted, DisabledClusters(g))
    ensures Listing(active + deleted, g.clusters.Keys)
  {
    JoinListings(active, deleted, ActiveClusters(g), DisabledClusters(g));
    assert ActiveClusters(g) + DisabledClusters(g) == g.clusters.Keys;
  }

  /** The same for the two database lists of any cluster. */
  lemma DatabaseListsPartition(g: Config, c: string, active: seq<string>, deleted: seq<string>)
    requires Listing(active, ActiveDbs(g, c)) && Listing(deleted, DisabledDbs(g, c))
    ensures Listing(active + deleted, DbNames(g, c))
  {
    JoinListings(active, deleted, ActiveDbs(g, c), DisabledDbs(g, c));
    forall d ensures d in DbNames(g, c) <==> d in ActiveDbs(g, c) + DisabledDbs(g, c) { InDbNames(g, c, d); }
    assert ActiveDbs(g, c) + DisabledDbs(g, c) == DbNames(g, c);
  }
}
