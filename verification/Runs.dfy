/** Every handler keeps to the protocol, under every fault and wherever it is cut off; hence so does every run. */
module Runs {
  import opened Paths
  import opened Records
  import opened Protocol
  import opened Operations

  lemma {:induction false} SafeSnoc(g: Config, ws: seq<Write>, w: Write)
    requires SafeAll(g, ws) && Safe(ApplyAll(g, ws), w)
    ensures SafeAll(g, ws + [w])
  {
    forall i | 0 <= i < |ws + [w]| ensures Safe(ApplyAll(g, (ws + [w])[..i]), (ws + [w])[i]) {
      assert (ws + [w])[..i] == ws[..i];
      assert ws[..|ws|] == ws;
    }
  }

  lemma {:induction false} DisableWritesSafe(g: Config, c: string, names: seq<string>)
    requires g.ActiveCluster(c) && NoDuplicates(names)
    ensures SafeAll(g, DisableWrites(g, c, names))
  {
    if names != [] {
      var n := |names| - 1;
      var id, ws := DbId(c, names[n]), DisableWrites(g, c, names[..n]);
      DisableWritesSafe(g, c, names[..n]);
      DisableLoop(g, c, names[..n]);
      if g.ActiveDb(id) {
        SafeSnoc(g, ws, PutDb(id, g.dbs[id].(disabled := true)));
      } else {
        assert ws + [] == ws;
      }
    }
  }

  lemma {:induction false} DropWritesSafe(g: Config, c: string, names: seq<string>)
    requires NoDuplicates(names) && forall d | d in names :: g.DisabledDb(DbId(c, d))
    ensures SafeAll(g, DropWrites(c, names))
  {
    if names != [] {
      var n := |names| - 1;
      DropWritesSafe(g, c, names[..n]);
      DropLoop(g, c, names[..n]);
      assert DropWrites(c, names) == DropWrites(c, names[..n]) + [DelDb(DbId(c, names[n]))];
      SafeSnoc(g, DropWrites(c, names[..n]), DelDb(DbId(c, names[n])));
    }
  }

  lemma {:induction false} CopyWritesSafe(start: Config, g: Config, source: string, target: string,
                                          inheritDeleted: bool, skip: set<string>, names: seq<string>)
    requires Inv(g) && NoDuplicates(names) && start.ActiveCluster(target) && target != ""
    requires forall d | d in names :: DbId(target, d) !in start.dbs
    ensures SafeAll(start, CopyWrites(g, source, target, inheritDeleted, skip, names))
  {
    if names != [] {
      var n := |names| - 1;
      var ws := CopyWrites(g, source, target, inheritDeleted, skip, names[..n]);
      CopyWritesSafe(start, g, source, target, inheritDeleted, skip, names[..n]);
      CopyLoop(start, g, source, target, inheritDeleted, skip, names[..n]);
      if Copied(g, source, inheritDeleted, skip, names[n]) {
        var w := PutDb(DbId(target, names[n]), g.dbs[DbId(source, names[n])].(cluster := target));
        assert names[n] !in names[..n];
        NotYetCopied(g, source, target, inheritDeleted, skip, names[..n], names[n]);
        SafeSnoc(start, ws, w);
      } else {
        assert ws + [] == ws;
      }
    }
  }

  lemma NotYetCopied(g: Config, source: string, target: string, inheritDeleted: bool, skip: set<string>,
                     names: seq<string>, d: string)
    requires d !in names
    ensures DbId(target, d) !in Copies(g, source, target, inheritDeleted, skip, names)
  {}

  /** Every handler, from every consistent configuration: all of its writes, in their order, are safe. */
  lemma PlanIsSafe(g: Config, op: Op)
    requires Inv(g) && Legal(g, op)
    ensures SafeAll(g, Plan(g, op))
  {
    if op.PurgeCluster? {
      PurgeIsSafe(g, op.c, op.order);
    } else if !Verdict(g, op).Done? {
    } else if op.DeleteCluster? {
      DisableWritesSafe(g, op.c, op.order);
      DisableLoop(g, op.c, op.order);
      AllDisabled(g, op.c, op.order);
      SafeSnoc(g, DisableWrites(g, op.c, op.order), PutCluster(op.c, g.clusters[op.c].(disabled := true)));
    } else if op.CloneCluster? {
      CloneIsSafe(g, op);
    } else {
      OneWriteSafe(g, Plan(g, op)[0]);
    }
  }

  lemma CloneIsSafe(g: Config, op: Op)
    requires Inv(g) && Legal(g, op) && op.CloneCluster? && Verdict(g, op).Done?
    ensures SafeAll(g, Plan(g, op))
  {
    var rec := CloneRecord(g.clusters[op.source], op.host, op.port, op.managementPassword, op.password);
    var w, copies :=
        PutCluster(op.target, rec), CopyWrites(g, op.source, op.target, op.inheritDeleted, op.skip, op.order);
    OneWriteSafe(g, w);
    ApplyOne(g, w);
    CopyWritesSafe(Apply(g, w), g, op.source, op.target, op.inheritDeleted, op.skip, op.order);
    SafeConcat(g, [w], copies);
  }

  lemma OneWriteSafe(g: Config, w: Write)
    requires Safe(g, w)
    ensures SafeAll(g, [w])
  {
    assert [w][..0] == [];
  }

  lemma AllDisabled(g: Config, c: string, order: seq<string>)
    requires Listing(order, DbNames(g, c))
    ensures forall id | id in DisabledIn(g, c, order).dbs && id.cluster == c :: DisabledIn(g, c, order).dbs[id].disabled
  {
    forall id | id in g.dbs && id.cluster == c ensures id.name in order { ListingOfDbs(g, c, order, id.name); }
  }

  /** In a consistent configuration no database of a disabled cluster is live: the refusal inside the purge loop is
      dead. */
  lemma NoLiveDatabase(g: Config, c: string, order: seq<string>)
    requires Consistent(g) && g.DisabledCluster(c) && Listing(order, DbNames(g, c))
    ensures FirstLive(g, c, order) == |order|
    ensures forall d | d in order :: g.DisabledDb(DbId(c, d))
  {
    forall d | d in order ensures g.DisabledDb(DbId(c, d)) { ListingOfDbs(g, c, order, d); }
  }

  lemma {:induction false} PurgeIsSafe(g: Config, c: string, order: seq<string>)
    requires Inv(g) && Listing(order, DbNames(g, c))
    ensures SafeAll(g, Plan(g, PurgeCluster(c, order)))
  {
    if g.DisabledCluster(c) {
      NoLiveDatabase(g, c, order);
      DropWritesSafe(g, c, order);
      DropLoop(g, c, order);
      forall id | id in g.dbs && id.cluster == c ensures id.name in order { ListingOfDbs(g, c, order, id.name); }
      SafeSnoc(g, DropWrites(c, order), DelCluster(c));
    }
  }

  /** A request and the writes its handler got to make before it finished, failed or was cut off. */
  datatype Step = Step(op: Op, ws: seq<Write>)

  ghost predicate Handles(g: Config, step: Step) {
    Legal(g, step.op) && step.ws <= Plan(g, step.op)
  }

  function WritesOf(run: seq<Step>): seq<Write> {
    if run == [] then [] else WritesOf(run[..|run| - 1]) + run[|run| - 1].ws
  }

  /** Handlers run one after the other. */
  ghost predicate IsRun(g: Config, run: seq<Step>) {
    forall i {:trigger Handles(ApplyAll(g, WritesOf(run[..i])), run[i])} | 0 <= i < |run| ::
      Handles(ApplyAll(g, WritesOf(run[..i])), run[i])
  }

  lemma HandlerIsSafe(g: Config, step: Step)
    requires Inv(g) && Handles(g, step)
    ensures SafeAll(g, step.ws) && Inv(ApplyAll(g, step.ws))
  {
    PlanIsSafe(g, step.op);
    SafePrefix(g, Plan(g, step.op), step.ws);
    InvEverywhere(g, step.ws, |step.ws|);
    assert step.ws[..|step.ws|] == step.ws;
  }

  /** The writes of any run, through any handlers, with any faults and cut-offs, are all safe. */
  lemma {:induction false} RunIsSafe(g: Config, run: seq<Step>)
    requires Inv(g) && IsRun(g, run)
    ensures SafeAll(g, WritesOf(run)) && Inv(ApplyAll(g, WritesOf(run)))
  {
    if run != [] {
      var n := |run| - 1;
      assert forall i | 0 <= i < n :: run[..n][..i] == run[..i];
      RunIsSafe(g, run[..n]);
      var done := WritesOf(run[..n]);
      HandlerIsSafe(ApplyAll(g, done), run[n]);
      SafeConcat(g, done, run[n].ws);
      ApplyConcat(g, done, run[n].ws);
    }
  }

  /** From an empty storage, the invariant holds after every single write of every run. */
  lemma {:induction false} InvariantOverRuns(run: seq<Step>, i: nat)
    requires IsRun(EMPTY, run) && i <= |WritesOf(run)|
    ensures Inv(ApplyAll(EMPTY, WritesOf(run)[..i]))
  {
    RunIsSafe(EMPTY, run);
    InvEverywhere(EMPTY, WritesOf(run), i);
  }

  /** Every cluster and database keeps to its life cycle over every run. */
  lemma {:induction false} LifecycleOverRuns(run: seq<Step>, c: string, id: DbId)
    requires IsRun(EMPTY, run)
    ensures GoesThroughDisabled(ClusterHistory(EMPTY, WritesOf(run), c))
    ensures GoesThroughDisabled(DbHistory(EMPTY, WritesOf(run), id))
  {
    RunIsSafe(EMPTY, run);
    Lifecycle(EMPTY, WritesOf(run), c, id);
  }
}
