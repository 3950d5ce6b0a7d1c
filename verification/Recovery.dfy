/** Deleting or purging a cluster survives interruption: repeat it, and the end is that of one uninterrupted call. */
module Recovery {
  import opened Paths
  import opened Records
  import opened Protocol
  import opened Operations
  import opened Runs

  /** Cluster c and all its databases disabled, everything else as in g. */
  function Deleted(g: Config, c: string): Config
    requires c in g.clusters
  {
    g.(clusters := g.clusters[c := g.clusters[c].(disabled := true)],
       dbs := map id | id in g.dbs :: if id.cluster == c then g.dbs[id].(disabled := true) else g.dbs[id])
  }

  /** Cluster c and all its databases gone, everything else as in g. */
  function Purged(g: Config, c: string): Config {
    g.(clusters := g.clusters - {c}, dbs := map id | id in g.dbs && id.cluster != c :: g.dbs[id])
  }

  /** An uninterrupted delete, whatever order List answers in. */
  lemma DeleteCompletes(g: Config, c: string, order: seq<string>)
    requires g.ActiveCluster(c) && Listing(order, DbNames(g, c))
    ensures ApplyAll(g, Plan(g, DeleteCluster(c, order))) == Deleted(g, c)
  {
    var ws, last := DisableWrites(g, c, order), PutCluster(c, g.clusters[c].(disabled := true));
    ApplySnoc(g, ws, last);
    DisableLoop(g, c, order);
    forall id | id in g.dbs && id.cluster == c ensures id.name in order { ListingOfDbs(g, c, order, id.name); }
    assert DisabledIn(g, c, order).dbs == Deleted(g, c).dbs;
  }

  /** An uninterrupted purge of a disabled cluster in a consistent configuration: it is not refused half-way. */
  lemma PurgeCompletes(g: Config, c: string, order: seq<string>)
    requires Consistent(g) && g.DisabledCluster(c) && Listing(order, DbNames(g, c))
    ensures Verdict(g, PurgeCluster(c, order)) == Done(())
    ensures ApplyAll(g, Plan(g, PurgeCluster(c, order))) == Purged(g, c)
  {
    NoLiveDatabase(g, c, order);
    ApplySnoc(g, DropWrites(c, order), DelCluster(c));
    DropLoop(g, c, order);
    forall id | id in g.dbs && id.cluster == c ensures id.name in order { ListingOfDbs(g, c, order, id.name); }
    assert (map id | id in g.dbs && !(id.cluster == c && id.name in order) :: g.dbs[id]) == Purged(g, c).dbs;
  }

  /** A write that brings g closer to having c deleted, and one that brings it closer to having c purged. */
  ghost predicate Deleting(g: Config, c: string, w: Write) {
    match w
    case PutDb(id, rec) => id.cluster == c && id in g.dbs && rec == g.dbs[id].(disabled := true)
    case PutCluster(c', rec) => c' == c && c in g.clusters && rec == g.clusters[c].(disabled := true)
    case _ => false
  }

  ghost predicate Purging(c: string, w: Write) {
    w == DelCluster(c) || (w.DelDb? && w.id.cluster == c)
  }

  lemma DeletingKeepsTheGoal(g: Config, c: string, w: Write)
    requires c in g.clusters && Deleting(g, c, w)
    ensures c in Apply(g, w).clusters && Deleted(Apply(g, w), c) == Deleted(g, c)
  {
    assert Deleted(Apply(g, w), c).dbs == Deleted(g, c).dbs;
  }

  lemma {:induction false} PurgingKeepsTheGoal(g: Config, c: string, ws: seq<Write>)
    requires forall w | w in ws :: Purging(c, w)
    ensures Purged(ApplyAll(g, ws), c) == Purged(g, c)
  {
    if ws != [] {
      var n := |ws| - 1;
      PurgingKeepsTheGoal(g, c, ws[..n]);
      var g' := ApplyAll(g, ws[..n]);
      assert Purging(c, ws[n]);
      assert Purged(Apply(g', ws[n]), c).dbs == Purged(g', c).dbs;
      assert Purged(Apply(g', ws[n]), c).clusters == Purged(g', c).clusters;
    }
  }

  /** Every write of the delete plan is a deleting one where it is made. */
  lemma {:induction false} DeletePlanDeletes(g: Config, c: string, ws: seq<Write>)
    requires c in g.clusters
    requires forall w | w in ws :: Deleting(g, c, w)
    ensures c in ApplyAll(g, ws).clusters && Deleted(ApplyAll(g, ws), c) == Deleted(g, c)
    ensures forall id | id in ApplyAll(g, ws).dbs ::
      id in g.dbs && ApplyAll(g, ws).dbs[id] in {g.dbs[id], g.dbs[id].(disabled := true)}
    ensures ApplyAll(g, ws).clusters[c] in {g.clusters[c], g.clusters[c].(disabled := true)}
  {
    if ws != [] {
      var n := |ws| - 1;
      DeletePlanDeletes(g, c, ws[..n]);
      var g' := ApplyAll(g, ws[..n]);
      assert Deleting(g, c, ws[n]);
      if ws[n].PutDb? { StillThere(g, ws[..n], ws[n].id); }
      assert Deleting(g', c, ws[n]);
      DeletingKeepsTheGoal(g', c, ws[n]);
    }
  }

  lemma {:induction false} StillThere(g: Config, ws: seq<Write>, id: DbId)
    requires id in g.dbs && forall w | w in ws :: w.PutDb? || w.PutCluster?
    ensures id in ApplyAll(g, ws).dbs
  {
    if ws != [] {
      StillThere(g, ws[..|ws| - 1], id);
      assert ws[|ws| - 1] in ws;
    }
  }

  lemma {:induction false} DisableWritesDelete(g: Config, c: string, names: seq<string>)
    ensures forall w | w in DisableWrites(g, c, names) :: w.PutDb? && Deleting(g, c, w)
  {
    if names != [] { DisableWritesDelete(g, c, names[..|names| - 1]); }
  }

  /** A run made of delete calls on c only, each cut off anywhere, each with its own List order and faults. */
  ghost predicate DeleteAttempts(g: Config, c: string, attempts: seq<Step>) {
    IsRun(g, attempts) && forall i | 0 <= i < |attempts| :: attempts[i].op.DeleteCluster? && attempts[i].op.c == c
  }

  ghost predicate PurgeAttempts(g: Config, c: string, attempts: seq<Step>) {
    IsRun(g, attempts) && forall i | 0 <= i < |attempts| :: attempts[i].op.PurgeCluster? && attempts[i].op.c == c
  }

  lemma OneDeleteAttempt(g: Config, c: string, step: Step)
    requires c in g.clusters && Handles(g, step) && step.op.DeleteCluster? && step.op.c == c
    ensures c in ApplyAll(g, step.ws).clusters && Deleted(ApplyAll(g, step.ws), c) == Deleted(g, c)
  {
    DisableWritesDelete(g, c, step.op.order);
    forall w | w in step.ws ensures Deleting(g, c, w) {
      assert w in Plan(g, step.op);
    }
    DeletePlanDeletes(g, c, step.ws);
  }

  lemma {:induction false} DeleteAttemptsKeepTheGoal(g: Config, c: string, attempts: seq<Step>)
    requires c in g.clusters && DeleteAttempts(g, c, attempts)
    ensures c in ApplyAll(g, WritesOf(attempts)).clusters
    ensures Deleted(ApplyAll(g, WritesOf(attempts)), c) == Deleted(g, c)
  {
    if attempts != [] {
      var n := |attempts| - 1;
      assert forall i | 0 <= i < n :: attempts[..n][..i] == attempts[..i];
      DeleteAttemptsKeepTheGoal(g, c, attempts[..n]);
      ApplyConcat(g, WritesOf(attempts[..n]), attempts[n].ws);
      OneDeleteAttempt(ApplyAll(g, WritesOf(attempts[..n])), c, attempts[n]);
    }
  }

  lemma NothingLeftToDelete(g: Config, c: string, order: seq<string>)
    requires Consistent(g) && g.DisabledCluster(c)
    ensures Plan(g, DeleteCluster(c, order)) == [] && Deleted(g, c) == g
  {
    assert Deleted(g, c).dbs == g.dbs && Deleted(g, c).clusters == g.clusters;
  }

  lemma NothingLeftToPurge(g: Config, c: string, order: seq<string>)
    requires Consistent(g) && c !in g.clusters
    ensures Plan(g, PurgeCluster(c, order)) == [] && Purged(g, c) == g
  {
    assert Purged(g, c).dbs == g.dbs && Purged(g, c).clusters == g.clusters;
  }

  /** Cut off any number of times after any number of writes, then run to the end: exactly the store of one
      uninterrupted delete, whatever orders List answered in. */
  lemma DeleteRecovers(g: Config, c: string, attempts: seq<Step>, last: seq<string>, order: seq<string>)
    requires Inv(g) && g.ActiveCluster(c) && DeleteAttempts(g, c, attempts) && Listing(order, DbNames(g, c))
    requires Listing(last, DbNames(ApplyAll(g, WritesOf(attempts)), c))
    ensures var h := ApplyAll(g, WritesOf(attempts));
      ApplyAll(h, Plan(h, DeleteCluster(c, last))) == ApplyAll(g, Plan(g, DeleteCluster(c, order)))
  {
    var h := ApplyAll(g, WritesOf(attempts));
    RunIsSafe(g, attempts);
    DeleteAttemptsKeepTheGoal(g, c, attempts);
    DeleteCompletes(g, c, order);
    if h.ActiveCluster(c) {
      DeleteCompletes(h, c, last);
    } else {
      NothingLeftToDelete(h, c, last);
    }
  }

  lemma OnePurgeAttempt(g: Config, c: string, step: Step)
    requires Handles(g, step) && step.op.PurgeCluster? && step.op.c == c
    ensures Purged(ApplyAll(g, step.ws), c) == Purged(g, c)
  {
    forall w | w in step.ws ensures Purging(c, w) {
      assert w in Plan(g, step.op);
    }
    PurgingKeepsTheGoal(g, c, step.ws);
  }

  lemma {:induction false} PurgeAttemptsKeepTheGoal(g: Config, c: string, attempts: seq<Step>)
    requires PurgeAttempts(g, c, attempts)
    ensures Purged(ApplyAll(g, WritesOf(attempts)), c) == Purged(g, c)
    ensures g.DisabledCluster(c) ==> !ApplyAll(g, WritesOf(attempts)).ActiveCluster(c)
  {
    if attempts != [] {
      var n := |attempts| - 1;
      assert forall i | 0 <= i < n :: attempts[..n][..i] == attempts[..i];
      PurgeAttemptsKeepTheGoal(g, c, attempts[..n]);
      var g' := ApplyAll(g, WritesOf(attempts[..n]));
      ApplyConcat(g, WritesOf(attempts[..n]), attempts[n].ws);
      OnePurgeAttempt(g', c, attempts[n]);
      PurgeNeverActivates(g', c, attempts[n].ws, attempts[n].op.order);
    }
  }

  lemma {:induction false} PurgeNeverActivates(g: Config, c: string, ws: seq<Write>, order: seq<string>)
    requires ws <= Plan(g, PurgeCluster(c, order))
    ensures ApplyAll(g, ws).ActiveCluster(c) ==> g.ActiveCluster(c)
  {
    if ws != [] {
      PurgeNeverActivates(g, c, ws[..|ws| - 1], order);
      assert ws[|ws| - 1] in Plan(g, PurgeCluster(c, order));
    }
  }

  /** The same for a purge. Once an attempt has removed the cluster record, a further call changes nothing. */
  lemma {:induction false} PurgeRecovers(g: Config, c: string, attempts: seq<Step>, last: seq<string>,
                                         order: seq<string>)
    requires Inv(g) && g.DisabledCluster(c) && PurgeAttempts(g, c, attempts) && Listing(order, DbNames(g, c))
    requires Listing(last, DbNames(ApplyAll(g, WritesOf(attempts)), c))
    ensures var h := ApplyAll(g, WritesOf(attempts));
      ApplyAll(h, Plan(h, PurgeCluster(c, last))) == ApplyAll(g, Plan(g, PurgeCluster(c, order)))
  {
    var h := ApplyAll(g, WritesOf(attempts));
    RunIsSafe(g, attempts);
    PurgeAttemptsKeepTheGoal(g, c, attempts);
    PurgeCompletes(g, c, order);
    if c in h.clusters {
      PurgeCompletes(h, c, last);
    } else {
      NothingLeftToPurge(h, c, last);
    }
  }

  /** A purged name can be registered again, and starts without databases. */
  lemma PurgedNameIsFree(g: Config, c: string, order: seq<string>, rec: ClusterRecord)
    requires Consistent(g) && g.DisabledCluster(c) && Listing(order, DbNames(g, c)) && rec.Valid()
    ensures var h := ApplyAll(g, Plan(g, PurgeCluster(c, order)));
      Verdict(h, RegisterCluster(c, rec)) == Done(()) && c !in h.clusters && DbNames(h, c) == {}
  {
    PurgeCompletes(g, c, order);
  }
}
