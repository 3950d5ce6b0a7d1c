/** How requests are turned down: each handler makes its checks in an order, and answers with the first that fails. */
module Answers {
  import opened Paths
  import opened Records
  import opened Operations
  import opened Clusters
  import opened Databases
  import opened Gc
  import opened Creds

  /** The checks of a request in the order of the code, named by what a failing one answers. */
  function Checks(op: Op): seq<Reason> {
    match op
    case RegisterCluster(_, _) => [ClusterDeleted, InvalidConfig]
    case DeleteCluster(_, _) => [ClusterMissing, ClusterDeleted]
    case PurgeCluster(_, _) => [ClusterNotMarked, DatabaseNotMarked]
    case CloneCluster(_, _, _, _, _, _, _, _, _) =>
      [InvalidHost, InvalidPort, ClusterMissing, ClusterDeleted, EmptyTarget, DuplicateTarget]
    case RegisterDb(_, _) => [ClusterMissing, ClusterDeleted, AlreadyRegistered]
    case DeleteDb(_) => [ClusterMissing, ClusterDeleted, DatabaseMissing, DatabaseDeleted]
    case PurgeDb(_) => [DatabaseMissing, DatabaseNotMarked]
    case WriteMeta(_, _, _) => [ClusterMissing, DatabaseMissing, InvalidMetadata]
    case _ => []
  }

  /** The cluster a request is about, and the database. */
  function ClusterIn(op: Op): string {
    match op
    case RegisterCluster(c, _) => c
    case DeleteCluster(c, _) => c
    case PurgeCluster(c, _) => c
    case CloneCluster(source, _, _, _, _, _, _, _, _) => source
    case WriteMeta(cluster, _, _) => cluster
    case _ => DbIn(op).value.cluster
  }

  function DbIn(op: Op): Option<DbId> {
    match op
    case RegisterDb(id, _) => Some(id)
    case DeleteDb(id) => Some(id)
    case PurgeDb(id) => Some(id)
    case WriteMeta(cluster, database, _) => if database.Some? then Some(DbId(cluster, database.value)) else None
    case _ => Some(DbId("", ""))
  }

  /** What it means for a check to fail. */
  ghost predicate FailsCheck(g: Config, op: Op, check: Reason) {
    match check
    case ClusterMissing => ClusterIn(op) !in g.clusters
    case ClusterDeleted => ClusterIn(op) in g.clusters && g.clusters[ClusterIn(op)].disabled
    case ClusterNotMarked => !g.DisabledCluster(ClusterIn(op))
    case DatabaseMissing => DbIn(op).Some? && DbIn(op).value !in g.dbs
    case DatabaseDeleted => DbIn(op).Some? && DbIn(op).value in g.dbs && g.dbs[DbIn(op).value].disabled
    case DatabaseNotMarked =>
      if op.PurgeCluster? then exists d :: d in op.order && !g.DisabledDb(DbId(op.c, d))
      else DbIn(op).Some? && !g.DisabledDb(DbIn(op).value)
    case AlreadyRegistered => DbIn(op).Some? && DbIn(op).value in g.dbs
    case InvalidConfig => op.RegisterCluster? && BadRecord(op.rec)
    case InvalidHost => op.CloneCluster? && op.host == ""
    case InvalidPort => op.CloneCluster? && !(1 <= op.port < 0x1_0000)
    case EmptyTarget => op.CloneCluster? && |op.target| == 0
    case DuplicateTarget => op.CloneCluster? && op.target in g.clusters
    case InvalidMetadata => op.WriteMeta? && |op.data| == 0
    case _ => false
  }

  predicate BadRecord(rec: ClusterRecord) {
    || |rec.host| == 0 || rec.port <= 0 || rec.port >= 0x1_0000 || |rec.username| == 0 || |rec.database| == 0
    || (rec.sslMode != "disable" && rec.sslMode != "require" && rec.sslMode != "verify-ca"
        && rec.sslMode != "verify-full")
  }

  /** The k-th check fails and none before it does. */
  ghost predicate FirstToFail(g: Config, op: Op, k: nat) {
    k < |Checks(op)| && FailsCheck(g, op, Checks(op)[k]) && forall j | 0 <= j < k :: !FailsCheck(g, op, Checks(op)[j])
  }

  /** A request is answered by the first check that fails, and done exactly when none does. A purge of a cluster that is
      not there is an error instead. */
  lemma FirstFailingCheck(g: Config, op: Op, k: nat)
    ensures op.PurgeCluster? && op.c !in g.clusters ==> Verdict(g, op) == Failed(NotFound)
    ensures !(op.PurgeCluster? && op.c !in g.clusters) && FirstToFail(g, op, k) ==>
      Verdict(g, op) == Refused(Checks(op)[k])
    ensures Verdict(g, op) == Done(()) <==>
      !(op.PurgeCluster? && op.c !in g.clusters) && forall j | 0 <= j < |Checks(op)| ::
          !FailsCheck(g, op, Checks(op)[j])
  {
    if op.PurgeCluster? {
      SomeNotMarked(g, op.c, op.order);
      TwoChecks(g, op, k);
    } else if |Checks(op)| <= 2 {
      TwoChecks(g, op, k);
    } else if op.CloneCluster? {
      CloneChecks(g, op, k);
    } else {
      SomeChecks(g, op, k);
    }
  }

  lemma SomeNotMarked(g: Config, c: string, order: seq<string>)
    ensures FirstLive(g, c, order) < |order| <==> exists d :: d in order && !g.DisabledDb(DbId(c, d))
  {
    var k := FirstLive(g, c, order);
    if k < |order| { assert order[k] in order; }
    if d :| d in order && !g.DisabledDb(DbId(c, d)) {
      var i :| 0 <= i < |order| && order[i] == d;
      assert k <= i;
    }
  }

  lemma TwoChecks(g: Config, op: Op, k: nat)
    requires |Checks(op)| <= 2
    requires op.PurgeCluster? ==>
      (FirstLive(g, op.c, op.order) < |op.order| <==> exists d :: d in op.order && !g.DisabledDb(DbId(op.c, d)))
    ensures op.PurgeCluster? && op.c !in g.clusters ==> Verdict(g, op) == Failed(NotFound)
    ensures !(op.PurgeCluster? && op.c !in g.clusters) && FirstToFail(g, op, k) ==>
      Verdict(g, op) == Refused(Checks(op)[k])
    ensures Verdict(g, op) == Done(()) <==>
      !(op.PurgeCluster? && op.c !in g.clusters) && forall j | 0 <= j < |Checks(op)| ::
          !FailsCheck(g, op, Checks(op)[j])
  {
    var checks := Checks(op);
    if |checks| > 0 { assert FailsCheck(g, op, checks[0]) || !FailsCheck(g, op, checks[0]); }
    if |checks| > 1 { assert FailsCheck(g, op, checks[1]) || !FailsCheck(g, op, checks[1]); }
  }

  lemma SomeChecks(g: Config, op: Op, k: nat)
    requires |Checks(op)| > 2 && !op.CloneCluster?
    ensures FirstToFail(g, op, k) ==> Verdict(g, op) == Refused(Checks(op)[k])
    ensures Verdict(g, op) == Done(()) <==> forall j | 0 <= j < |Checks(op)| :: !FailsCheck(g, op, Checks(op)[j])
  {
    var checks := Checks(op);
    assert |checks| <= 4;
    assert FailsCheck(g, op, checks[0]) || !FailsCheck(g, op, checks[0]);
    assert FailsCheck(g, op, checks[1]) || !FailsCheck(g, op, checks[1]);
    assert FailsCheck(g, op, checks[2]) || !FailsCheck(g, op, checks[2]);
    if |checks| > 3 { assert FailsCheck(g, op, checks[3]) || !FailsCheck(g, op, checks[3]); }
  }

  lemma CloneChecks(g: Config, op: Op, k: nat)
    requires op.CloneCluster?
    ensures FirstToFail(g, op, k) ==> Verdict(g, op) == Refused(Checks(op)[k])
    ensures Verdict(g, op) == Done(()) <==> forall j | 0 <= j < |Checks(op)| :: !FailsCheck(g, op, Checks(op)[j])
  {
    var checks := Checks(op);
    assert FailsCheck(g, op, checks[0]) <==> op.host == "";
    assert FailsCheck(g, op, checks[1]) <==> !(1 <= op.port < 0x1_0000);
    assert FailsCheck(g, op, checks[2]) <==> op.source !in g.clusters;
    assert FailsCheck(g, op, checks[3]) <==> g.DisabledCluster(op.source);
    assert FailsCheck(g, op, checks[4]) <==> op.target == "";
    assert FailsCheck(g, op, checks[5]) <==> op.target in g.clusters;
  }

  // The endpoints that only read.

  lemma ClusterReaders(g: Config, c: string)
    ensures ReadCluster(g, c) == Refused(ClusterMissing) <==> c !in g.clusters
    ensures ReadCluster(g, c) == Refused(ClusterDeleted) <==> c in g.clusters && g.clusters[c].disabled
    ensures c in g.clusters && !g.clusters[c].disabled ==> ReadCluster(g, c) == Done(g.clusters[c])
    ensures GcReadCluster(g, c) == Refused(ClusterMissing) <==> c !in g.clusters
    ensures GcReadCluster(g, c) == Refused(ClusterNotMarked) <==> c in g.clusters && !g.clusters[c].disabled
    ensures c in g.clusters && g.clusters[c].disabled ==> GcReadCluster(g, c) == Done(g.clusters[c])
  {}

  lemma DatabaseReaders(g: Config, id: DbId)
    ensures ReadDb(g, id) == Refused(ClusterMissing) <==> id.cluster !in g.clusters
    ensures ReadDb(g, id) == Refused(ClusterDeleted) <==> g.DisabledCluster(id.cluster)
    ensures ReadDb(g, id) == Refused(DatabaseMissing) <==> g.ActiveCluster(id.cluster) && id !in g.dbs
    ensures ReadDb(g, id) == Refused(DatabaseDeleted) <==> g.ActiveCluster(id.cluster) && g.DisabledDb(id)
    ensures g.ActiveCluster(id.cluster) && g.ActiveDb(id) ==> ReadDb(g, id) == Done(g.dbs[id])
    ensures GcReadDb(g, id) == Refused(DatabaseMissing) <==> id !in g.dbs
    ensures GcReadDb(g, id) == Refused(DatabaseNotMarked) <==> g.ActiveDb(id)
    ensures g.DisabledDb(id) ==> GcReadDb(g, id) == Done(g.dbs[id])
  {}

  // The checks of the credential handlers: a creation looks at the role last, a renewal first, a revocation at records
  // only.

  lemma CredentialAnswers(g: Config, id: DbId, role: string)
    ensures IssueVerdict(g, id, role) == Refused(RoleMissing) <==>
      g.ActiveCluster(id.cluster) && g.ActiveDb(id) && role !in g.roles
    ensures ReadDb(g, id).Refused? ==> IssueVerdict(g, id, role) == Refused(ReadDb(g, id).reason)
    ensures RenewVerdict(g, id, role) == Refused(RoleMissing) <==> role !in g.roles
    ensures role in g.roles && ReadDb(g, id).Refused? ==> RenewVerdict(g, id, role) == Refused(ReadDb(g, id).reason)
    ensures RevokeVerdict(g, id) == Refused(ClusterMissing) <==> id.cluster !in g.clusters
    ensures RevokeVerdict(g, id) == Refused(DatabaseMissing) <==> id.cluster in g.clusters && id !in g.dbs
    ensures RevokeVerdict(g, id) == Done(()) <==> id.cluster in g.clusters && id in g.dbs
  {}
}
