/** The rules every single write of every handler obeys, what the rules keep true of the
    configuration, and the life cycles they allow. */
module Protocol {
  import opened Paths
  import opened Records

  /** A database record implies its cluster record, and in a disabled cluster every database is disabled. */
  ghost predicate Consistent(g: Config) {
    forall id | id in g.dbs :: id.cluster in g.clusters && (g.clusters[id.cluster].disabled ==> g.dbs[id].disabled)
  }

  /** Every record passes its own validate and names the place it is stored at. */
  ghost predicate WellFormed(g: Config) {
    && (forall c | c in g.clusters :: g.clusters[c].Valid())
    && (forall id | id in g.dbs :: g.dbs[id].Valid() && DbId(g.dbs[id].cluster, g.dbs[id].database) == id)
    && (forall addr | addr in g.meta :: addr == MetaAddr(g.meta[addr].cluster, g.meta[addr].database))
  }

  ghost predicate Inv(g: Config) {
    Consistent(g) && WellFormed(g)
  }

  /** What that comes to for one cluster, one database and one metadata entry. */
  lemma InvMeans(g: Config, c: string, id: DbId, addr: string)
    requires Inv(g)
    ensures c in g.clusters ==>
      var rec := g.clusters[c];
      && rec.host != "" && 1 <= rec.port < 0x1_0000 && rec.username != "" && rec.database != ""
      && rec.sslMode in {"disable", "require", "verify-ca", "verify-full"}
    ensures id in g.dbs ==>
      var rec := g.dbs[id];
      && rec.cluster == id.cluster != "" && rec.database == id.name != "" && rec.objectsOwner != ""
      && id.cluster in g.clusters && (!rec.disabled ==> !g.clusters[id.cluster].disabled)
    ensures addr in g.meta ==>
      var rec := g.meta[addr];
      addr == if rec.database == "" then "cluster/" + rec.cluster else "database/" + rec.cluster + "-" + rec.database
  {}

  /** May write w be made in configuration g? */
  ghost predicate Safe(g: Config, w: Write) {
    match w
    case PutCluster(c, rec) =>
      if rec.disabled then  // delete: the last write of the cascade
        && g.ActiveCluster(c) && rec == g.clusters[c].(disabled := true)
        && forall id | id in g.dbs && id.cluster == c :: g.dbs[id].disabled
      else  // register or clone
        && !g.DisabledCluster(c) && rec.Valid()
    case PutDb(id, rec) =>
      && g.ActiveCluster(id.cluster)
      && if id in g.dbs then !g.dbs[id].disabled && rec == g.dbs[id].(disabled := true)
         else rec.Valid() && DbId(rec.cluster, rec.database) == id
    case DelDb(id) => g.DisabledDb(id)
    case DelCluster(c) =>
      && g.DisabledCluster(c)
      && forall id | id in g.dbs :: id.cluster != c
    case PutMeta(addr, rec) => addr == MetaAddr(rec.cluster, rec.database)
    case PutRole(_, _) => true
    case DelRole(_) => true
    case DelMeta(_) => true
  }

  /** Every write is safe where it is made. */
  ghost predicate SafeAll(g: Config, ws: seq<Write>) {
    forall i {:trigger Safe(ApplyAll(g, ws[..i]), ws[i])} | 0 <= i < |ws| :: Safe(ApplyAll(g, ws[..i]), ws[i])
  }

  lemma SafeKeepsInv(g: Config, w: Write)
    requires Inv(g) && Safe(g, w)
    ensures Inv(Apply(g, w))
  {}

  /** The invariant holds after every single write: wherever a run is cut off, it holds. */
  lemma {:induction false} InvEverywhere(g: Config, ws: seq<Write>, i: nat)
    requires Inv(g) && SafeAll(g, ws) && i <= |ws|
    ensures Inv(ApplyAll(g, ws[..i]))
  {
    if i > 0 {
      InvEverywhere(g, ws, i - 1);
      OneMore(g, ws, i);
      SafeKeepsInv(ApplyAll(g, ws[..i - 1]), ws[i - 1]);
    }
  }

  lemma OneMore(g: Config, ws: seq<Write>, i: nat)
    requires 0 < i <= |ws|
    ensures ApplyAll(g, ws[..i]) == Apply(ApplyAll(g, ws[..i - 1]), ws[i - 1])
  {
    assert ws[..i] == ws[..i - 1] + [ws[i - 1]];
    ApplySnoc(g, ws[..i - 1], ws[i - 1]);
  }

  lemma {:induction false} SafeConcat(g: Config, us: seq<Write>, vs: seq<Write>)
    requires SafeAll(g, us) && SafeAll(ApplyAll(g, us), vs)
    ensures SafeAll(g, us + vs)
  {
    forall i | 0 <= i < |us + vs| ensures Safe(ApplyAll(g, (us + vs)[..i]), (us + vs)[i]) {
      if i < |us| {
        assert (us + vs)[..i] == us[..i];
      } else {
        assert (us + vs)[..i] == us + vs[..i - |us|];
        ApplyConcat(g, us, vs[..i - |us|]);
      }
    }
  }

  lemma SafePrefix(g: Config, ws: seq<Write>, us: seq<Write>)
    requires SafeAll(g, ws) && us <= ws
    ensures SafeAll(g, us)
  {
    forall i | 0 <= i < |us| ensures Safe(ApplyAll(g, us[..i]), us[i]) {
      assert us[..i] == ws[..i];
    }
  }

  // Life cycles.

  datatype Status = Absent | Active | Disabled

  function ClusterStatus(g: Config, c: string): Status {
    if c !in g.clusters then Absent else if g.clusters[c].disabled then Disabled else Active
  }

  function DbStatus(g: Config, id: DbId): Status {
    if id !in g.dbs then Absent else if g.dbs[id].disabled then Disabled else Active
  }

  /** A cluster only ever moves forward on the cycle absent - active - disabled - absent. */
  predicate ClusterMove(from: Status, to: Status) {
    from == to || (from.Absent? && to.Active?) || (from.Active? && to.Disabled?) || (from.Disabled? && to.Absent?)
  }

  /** A database does the same, except that a clone may bring it in already disabled. */
  predicate DbMove(from: Status, to: Status) {
    ClusterMove(from, to) || (from.Absent? && to.Disabled?)
  }

  lemma MovesOfOneWrite(g: Config, w: Write, c: string, id: DbId)
    requires Safe(g, w)
    ensures ClusterMove(ClusterStatus(g, c), ClusterStatus(Apply(g, w), c))
    ensures DbMove(DbStatus(g, id), DbStatus(Apply(g, w), id))
  {}

  /** The status of a cluster before the first write and after every write of a run. */
  ghost function ClusterHistory(g: Config, ws: seq<Write>, c: string): seq<Status> {
    seq(|ws| + 1, i requires 0 <= i <= |ws| => ClusterStatus(ApplyAll(g, ws[..i]), c))
  }

  ghost function DbHistory(g: Config, ws: seq<Write>, id: DbId): seq<Status> {
    seq(|ws| + 1, i requires 0 <= i <= |ws| => DbStatus(ApplyAll(g, ws[..i]), id))
  }

  /** Something active now and absent later was disabled in between, and something disabled now and
      active later was absent in between. */
  ghost predicate GoesThroughDisabled(h: seq<Status>) {
    forall i, j | 0 <= i < j < |h| ::
      && (h[i].Active? && h[j].Absent? ==> exists k | i < k < j :: h[k].Disabled?)
      && (h[i].Disabled? && h[j].Active? ==> exists k | i < k < j :: h[k].Absent?)
  }

  /** Over any run, at single-write granularity, every cluster and every database keeps to its life cycle. */
  lemma {:induction false} Lifecycle(g: Config, ws: seq<Write>, c: string, id: DbId)
    requires SafeAll(g, ws)
    ensures GoesThroughDisabled(ClusterHistory(g, ws, c))
    ensures GoesThroughDisabled(DbHistory(g, ws, id))
  {
    var hc, hd := ClusterHistory(g, ws, c), DbHistory(g, ws, id);
    forall i | 0 < i <= |ws| ensures ClusterMove(hc[i - 1], hc[i]) && DbMove(hd[i - 1], hd[i]) {
      OneMore(g, ws, i);
      MovesOfOneWrite(ApplyAll(g, ws[..i - 1]), ws[i - 1], c, id);
    }
    MovesGoThrough(hc);
    MovesGoThrough(hd);
  }

  lemma MovesGoThrough(h: seq<Status>)
    requires forall i | 0 < i < |h| :: DbMove(h[i - 1], h[i])
    ensures GoesThroughDisabled(h)
  {
    forall i, j | 0 <= i < j < |h|
      ensures h[i].Active? && h[j].Absent? ==> exists k | i < k < j :: h[k].Disabled?
      ensures h[i].Disabled? && h[j].Active? ==> exists k | i < k < j :: h[k].Absent?
    {
      Between(h, i, j);
    }
  }

  lemma {:induction false} Between(h: seq<Status>, i: nat, j: nat)
    requires forall k | 0 < k < |h| :: DbMove(h[k - 1], h[k])
    requires i <= j < |h|
    ensures h[i].Active? && h[j].Absent? ==> exists k | i < k < j :: h[k].Disabled?
    ensures h[i].Disabled? && h[j].Active? ==> exists k | i < k < j :: h[k].Absent?
    decreases j - i
  {
    if i < j {
      assert DbMove(h[i], h[i + 1]) by { assert DbMove(h[i + 1 - 1], h[i + 1]); }
      Between(h, i + 1, j);
    }
  }

  /** From its registration until its purge a database keeps its objects owner, whatever else happens. */
  lemma {:induction false} OwnerStable(g: Config, ws: seq<Write>, id: DbId)
    requires Inv(g) && SafeAll(g, ws) && id in g.dbs && DelDb(id) !in ws
    ensures id in ApplyAll(g, ws).dbs && id.cluster in ApplyAll(g, ws).clusters
    ensures ApplyAll(g, ws).dbs[id].objectsOwner == g.dbs[id].objectsOwner
  {
    assert ws[..|ws|] == ws;
    InvEverywhere(g, ws, |ws|);
    if ws != [] {
      var n := |ws| - 1;
      SafePrefix(g, ws, ws[..n]);
      OwnerStable(g, ws[..n], id);
      OneMore(g, ws, |ws|);
      assert Safe(ApplyAll(g, ws[..n]), ws[n]);
    }
  }

  /** A disabled cluster stays disabled, with its record untouched, until it is purged. */
  lemma {:induction false} DisabledStaysCluster(g: Config, ws: seq<Write>, c: string)
    requires SafeAll(g, ws) && g.DisabledCluster(c) && DelCluster(c) !in ws
    ensures ApplyAll(g, ws).DisabledCluster(c) && ApplyAll(g, ws).clusters[c] == g.clusters[c]
  {
    if ws != [] {
      var n := |ws| - 1;
      SafePrefix(g, ws, ws[..n]);
      DisabledStaysCluster(g, ws[..n], c);
      assert Safe(ApplyAll(g, ws[..n]), ws[n]);
    }
  }

  lemma {:induction false} DisabledStaysDb(g: Config, ws: seq<Write>, id: DbId)
    requires SafeAll(g, ws) && g.DisabledDb(id) && DelDb(id) !in ws
    ensures ApplyAll(g, ws).DisabledDb(id) && ApplyAll(g, ws).dbs[id] == g.dbs[id]
  {
    if ws != [] {
      var n := |ws| - 1;
      SafePrefix(g, ws, ws[..n]);
      DisabledStaysDb(g, ws[..n], id);
      assert Safe(ApplyAll(g, ws[..n]), ws[n]);
    }
  }
}
