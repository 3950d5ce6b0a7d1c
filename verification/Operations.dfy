/** What each handler does to the configuration: which writes it makes, in which order, and how it answers. */
module Operations {
  import opened Paths
  import opened Records

  datatype Option<+T> = None | Some(value: T) {
    function GetOr(other: T): T { if Some? then value else other }
  }

  datatype Reason =
    | ClusterMissing | ClusterDeleted | ClusterNotMarked
    | DatabaseMissing | DatabaseDeleted | DatabaseNotMarked | AlreadyRegistered
    | InvalidConfig | InvalidHost | InvalidPort | EmptyTarget | DuplicateTarget
    | RoleMissing | Unreachable
    | InvalidMetadata | AttributeMissing | AttributeNotSupported | InvalidType

  datatype Error = NotFound | StorageError | ServerError | TtlError | NilRole

  /** A response, an error response, or an error. */
  datatype Outcome<+T> = Done(value: T) | Refused(reason: Reason) | Failed(error: Error)

  /** One request, together with what the handler was dealt: the order List answered in, the fresh
      passwords and, for a clone, the databases it failed to copy. */
  datatype Op =
    | RegisterCluster(c: string, rec: ClusterRecord)
    | DeleteCluster(c: string, order: seq<string>)
    | PurgeCluster(c: string, order: seq<string>)
    | CloneCluster(source: string, target: string, host: string, port: int, managementPassword: string,
                   password: string, inheritDeleted: bool, order: seq<string>, skip: set<string>)
    | RegisterDb(id: DbId, owner: string)
    | DeleteDb(id: DbId)
    | PurgeDb(id: DbId)
    | WriteRole(r: string, role: RoleRecord)
    | DeleteRole(r: string)
    | WriteMeta(cluster: string, database: Option<string>, data: map<string, string>)
    | DeleteMeta(addr: string)

  /** The answer when no call fails. */
  function Verdict(g: Config, op: Op): Outcome<()> {
    match op
    case RegisterCluster(c, rec) =>
      if g.DisabledCluster(c) then Refused(ClusterDeleted)
      else if !rec.Valid() then Refused(InvalidConfig)
      else Done(())
    case DeleteCluster(c, _) =>
      if c !in g.clusters then Refused(ClusterMissing)
      else if g.clusters[c].disabled then Refused(ClusterDeleted)
      else Done(())
    case PurgeCluster(c, order) =>
      if c !in g.clusters then Failed(NotFound)
      else if !g.clusters[c].disabled then Refused(ClusterNotMarked)
      else if FirstLive(g, c, order) < |order| then Refused(DatabaseNotMarked)
      else Done(())
    case CloneCluster(source, target, host, port, _, _, _, _, _) =>
      if host == "" then Refused(InvalidHost)
      else if port < 1 || port > 65535 then Refused(InvalidPort)
      else if source !in g.clusters then Refused(ClusterMissing)
      else if g.clusters[source].disabled then Refused(ClusterDeleted)
      else if target == "" then Refused(EmptyTarget)
      else if target in g.clusters then Refused(DuplicateTarget)
      else Done(())
    case RegisterDb(id, _) =>
      if id.cluster !in g.clusters then Refused(ClusterMissing)
      else if g.clusters[id.cluster].disabled then Refused(ClusterDeleted)
      else if id in g.dbs then Refused(AlreadyRegistered)
      else Done(())
    case DeleteDb(id) =>
      if id.cluster !in g.clusters then Refused(ClusterMissing)
      else if g.clusters[id.cluster].disabled then Refused(ClusterDeleted)
      else if id !in g.dbs then Refused(DatabaseMissing)
      else if g.dbs[id].disabled then Refused(DatabaseDeleted)
      else Done(())
    case PurgeDb(id) =>
      if id !in g.dbs then Refused(DatabaseMissing)
      else if !g.dbs[id].disabled then Refused(DatabaseNotMarked)
      else Done(())
    case WriteMeta(cluster, database, data) =>
      if cluster !in g.clusters then Refused(ClusterMissing)
      else if database.Some? && DbId(cluster, database.value) !in g.dbs then Refused(DatabaseMissing)
      else if data == map[] then Refused(InvalidMetadata)
      else Done(())
    case WriteRole(_, _) => Done(())
    case DeleteRole(_) => Done(())
    case DeleteMeta(_) => Done(())
  }

  /** The writes a handler makes, in order, when no call fails. A handler that meets a failing call, or is cut
      off, has made a prefix of them. */
  function Plan(g: Config, op: Op): seq<Write> {
    if Verdict(g, op).Done? then Writes(g, op)
    else if op.PurgeCluster? && g.DisabledCluster(op.c) then DropWrites(op.c, op.order[..FirstLive(g, op.c, op.order)])
    else []
  }

  function Writes(g: Config, op: Op): seq<Write>
    requires Verdict(g, op).Done?
  {
    match op
    case RegisterCluster(c, rec) => [PutCluster(c, rec)]
    case DeleteCluster(c, order) => DisableWrites(g, c, order) + [PutCluster(c, g.clusters[c].(disabled := true))]
    case PurgeCluster(c, order) => DropWrites(c, order) + [DelCluster(c)]
    case CloneCluster(source, target, host, port, managementPassword, password, inheritDeleted, order, skip) =>
      [PutCluster(target, CloneRecord(g.clusters[source], host, port, managementPassword, password))]
      + CopyWrites(g, source, target, inheritDeleted, skip, order)
    case RegisterDb(id, owner) => [PutDb(id, DbRecord(id.cluster, id.name, owner, false))]
    case DeleteDb(id) => [PutDb(id, g.dbs[id].(disabled := true))]
    case PurgeDb(id) => [DelDb(id)]
    case WriteRole(r, role) => [PutRole(r, role)]
    case DeleteRole(r) => [DelRole(r)]
    case WriteMeta(cluster, database, data) =>
      var d := if database.Some? then database.value else "";
      [PutMeta(MetaAddr(cluster, d), MetaRecord(cluster, d, data))]
    case DeleteMeta(addr) => [DelMeta(addr)]
  }

  // The cascade of pathClusterDelete.

  function DisableWrite(g: Config, id: DbId): seq<Write> {
    if g.ActiveDb(id) then [PutDb(id, g.dbs[id].(disabled := true))] else []
  }

  function DisableWrites(g: Config, c: string, names: seq<string>): seq<Write> {
    if names == [] then [] else
    var n := |names| - 1;
    DisableWrites(g, c, names[..n]) + DisableWrite(g, DbId(c, names[n]))
  }

  // The cascade of gcPurgeCluster.

  /** Position of the first listed database that is not marked for GC. */
  function FirstLive(g: Config, c: string, names: seq<string>): (k: nat)
    ensures k <= |names|
    ensures forall i | 0 <= i < k :: g.DisabledDb(DbId(c, names[i]))
    ensures k < |names| ==> !g.DisabledDb(DbId(c, names[k]))
  {
    if names == [] || !g.DisabledDb(DbId(c, names[0])) then 0 else 1 + FirstLive(g, c, names[1..])
  }

  function DropWrites(c: string, names: seq<string>): (ws: seq<Write>)
    ensures |ws| == |names|
  {
    seq(|names|, i requires 0 <= i < |names| => DelDb(DbId(c, names[i])))
  }

  // The bulk copy of cloneDbConfig.

  function CloneRecord(source: ClusterRecord, host: string, port: int, managementPassword: string,
                       password: string): ClusterRecord {
    source.(host := host, port := port, managementPassword := managementPassword, password := password)
  }

  /** What a clone's record keeps of its source, and what it takes from the request. */
  predicate Cloned(source: ClusterRecord, clone: ClusterRecord, host: string, port: int, managementPassword: string,
                   password: string) {
    && clone.host == host && clone.port == port
    && clone.managementPassword == managementPassword && clone.password == password
    && clone.username == source.username && clone.managementRole == source.managementRole
    && clone.database == source.database && clone.sslMode == source.sslMode
    && clone.maxOpenConnections == source.maxOpenConnections && clone.maxIdleConnections == source.maxIdleConnections
    && clone.maxConnectionLifetime == source.maxConnectionLifetime && clone.disabled == source.disabled
  }

  lemma CloneRecordIs(source: ClusterRecord, clone: ClusterRecord, host: string, port: int, managementPassword: string,
                      password: string)
    ensures Cloned(source, clone, host, port, managementPassword, password) <==>
      clone == CloneRecord(source, host, port, managementPassword, password)
  {}

  /** Is database d of the source carried over? */
  predicate Copied(g: Config, source: string, inheritDeleted: bool, skip: set<string>, d: string) {
    DbId(source, d) in g.dbs && (inheritDeleted || !g.dbs[DbId(source, d)].disabled) && d !in skip
  }

  function CopyWrite(g: Config, source: string, target: string, inheritDeleted: bool, skip: set<string>,
                     d: string): seq<Write> {
    if Copied(g, source, inheritDeleted, skip, d)
    then [PutDb(DbId(target, d), g.dbs[DbId(source, d)].(cluster := target))] else []
  }

  function CopyWrites(g: Config, source: string, target: string, inheritDeleted: bool, skip: set<string>,
                      names: seq<string>): seq<Write> {
    if names == [] then [] else
    var n := |names| - 1;
    CopyWrites(g, source, target, inheritDeleted, skip, names[..n])
    + CopyWrite(g, source, target, inheritDeleted, skip, names[n])
  }

  /** What is asked of a request: what the routes and field schemas guarantee, and List's contract. */
  ghost predicate Legal(g: Config, op: Op) {
    match op
    case RegisterCluster(c, rec) => c != "" && !rec.disabled
    case DeleteCluster(c, order) => Listing(order, DbNames(g, c))
    case PurgeCluster(c, order) => Listing(order, DbNames(g, c))
    case CloneCluster(source, _, _, _, _, _, _, order, _) => Listing(order, DbNames(g, source))
    case RegisterDb(id, owner) => id.cluster != "" && id.name != "" && owner != ""
    case _ => true
  }

  lemma ListingOfDbs(g: Config, c: string, order: seq<string>, d: string)
    requires Listing(order, DbNames(g, c))
    ensures d in order <==> DbId(c, d) in g.dbs
  {
    InDbNames(g, c, d);
  }

  // What the loops amount to.

  /** Databases `names` of cluster c disabled, everything else as in g. */
  function DisabledIn(g: Config, c: string, names: seq<string>): Config {
    g.(dbs := map id | id in g.dbs ::
      if id.cluster == c && id.name in names then g.dbs[id].(disabled := true) else g.dbs[id])
  }

  lemma {:induction false} DisableLoop(g: Config, c: string, names: seq<string>)
    ensures ApplyAll(g, DisableWrites(g, c, names)) == DisabledIn(g, c, names)
  {
    if names == [] {
      assert DisabledIn(g, c, names).dbs == g.dbs;
    } else {
      var n := |names| - 1;
      DisableLoop(g, c, names[..n]);
      ApplyConcat(g, DisableWrites(g, c, names[..n]), DisableWrite(g, DbId(c, names[n])));
      DisableOneMore(g, c, names);
    }
  }

  lemma DisableOneMore(g: Config, c: string, names: seq<string>)
    requires names != []
    ensures var n := |names| - 1;
      ApplyAll(DisabledIn(g, c, names[..n]), DisableWrite(g, DbId(c, names[n]))) == DisabledIn(g, c, names)
  {
    var n := |names| - 1;
    var id, before, ws := DbId(c, names[n]), DisabledIn(g, c, names[..n]), DisableWrite(g, DbId(c, names[n]));
    assert names == names[..n] + [names[n]];
    if ws != [] { assert ws[..0] == [] && ApplyAll(before, ws) == Apply(ApplyAll(before, []), ws[0]); }
    assert ApplyAll(before, ws).dbs == DisabledIn(g, c, names).dbs;
  }

  lemma {:induction false} DropLoop(g: Config, c: string, names: seq<string>)
    ensures ApplyAll(g, DropWrites(c, names))
      == g.(dbs := map id | id in g.dbs && !(id.cluster == c && id.name in names) :: g.dbs[id])
  {
    if names == [] {
      assert (map id | id in g.dbs && !(id.cluster == c && id.name in names) :: g.dbs[id]) == g.dbs;
    } else {
      var n := |names| - 1;
      DropLoop(g, c, names[..n]);
      assert DropWrites(c, names) == DropWrites(c, names[..n]) + [DelDb(DbId(c, names[n]))];
      ApplySnoc(g, DropWrites(c, names[..n]), DelDb(DbId(c, names[n])));
      DropOneMore(g, c, names);
    }
  }

  lemma DropOneMore(g: Config, c: string, names: seq<string>)
    requires names != []
    ensures (map id | id in g.dbs && !(id.cluster == c && id.name in names[..|names| - 1]) :: g.dbs[id])
        - {DbId(c, names[|names| - 1])}
      == map id | id in g.dbs && !(id.cluster == c && id.name in names) :: g.dbs[id]
  {
    assert names == names[..|names| - 1] + [names[|names| - 1]];
  }

  /** The databases a clone brings to its target. */
  function Copies(g: Config, source: string, target: string, inheritDeleted: bool, skip: set<string>,
                  names: seq<string>): map<DbId, DbRecord> {
    map d | d in names && Copied(g, source, inheritDeleted, skip, d) ::
        DbId(target, d) := g.dbs[DbId(source, d)].(cluster := target)
  }

  lemma {:induction false} CopyLoop(start: Config, g: Config, source: string, target: string, inheritDeleted: bool,
                                    skip: set<string>, names: seq<string>)
    ensures ApplyAll(start, CopyWrites(g, source, target, inheritDeleted, skip, names))
         == start.(dbs := start.dbs + Copies(g, source, target, inheritDeleted, skip, names))
  {
    if names == [] {
      assert start.dbs + Copies(g, source, target, inheritDeleted, skip, names) == start.dbs;
    } else {
      var n := |names| - 1;
      CopyLoop(start, g, source, target, inheritDeleted, skip, names[..n]);
      ApplyConcat(start, CopyWrites(g, source, target, inheritDeleted, skip, names[..n]),
                  CopyWrite(g, source, target, inheritDeleted, skip, names[n]));
      CopiesOneMore(start, g, source, target, inheritDeleted, skip, names);
    }
  }

  /** The last write of a cascade, made or not. */
  lemma LastWrite(g: Config, ws: seq<Write>, w: Write, made: seq<Write>)
    requires made == [w] || made == []
    ensures ApplyAll(g, ws + made) == ApplyAll(ApplyAll(g, ws), made)
    ensures ws + made <= ws + [w] && (made == [w] ==> ws + made == ws + [w])
  {
    ApplyConcat(g, ws, made);
  }

  /** Writes of databases touch nothing else. */
  lemma {:induction false} DbWritesKeep(g: Config, ws: seq<Write>)
    requires forall w | w in ws :: w.PutDb?
    ensures var h := ApplyAll(g, ws); h.clusters == g.clusters && h.roles == g.roles && h.meta == g.meta
  {
    if ws != [] {
      var n := |ws| - 1;
      assert ws[n] in ws;
      DbWritesKeep(g, ws[..n]);
    }
  }

  lemma {:induction false} CopiesAreDbs(g: Config, source: string, target: string, inheritDeleted: bool,
                                        skip: set<string>, names: seq<string>)
    ensures forall w | w in CopyWrites(g, source, target, inheritDeleted, skip, names) :: w.PutDb?
  {
    if names != [] { CopiesAreDbs(g, source, target, inheritDeleted, skip, names[..|names| - 1]); }
  }

  lemma ApplyOne(g: Config, w: Write)
    ensures ApplyAll(g, [w]) == Apply(g, w)
  {
    ApplySnoc(g, [], w);
    assert [] + [w] == [w];
  }

  lemma {:induction false} CopiesOneMore(start: Config, g: Config, source: string, target: string, inheritDeleted: bool,
                                         skip: set<string>, names: seq<string>)
    requires names != []
    ensures var n := |names| - 1;
      ApplyAll(start.(dbs := start.dbs + Copies(g, source, target, inheritDeleted, skip, names[..n])),
               CopyWrite(g, source, target, inheritDeleted, skip, names[n]))
      == start.(dbs := start.dbs + Copies(g, source, target, inheritDeleted, skip, names))
  {
    var n := |names| - 1;
    var before := Copies(g, source, target, inheritDeleted, skip, names[..n]);
    var after := Copies(g, source, target, inheritDeleted, skip, names);
    CopiesGrow(g, source, target, inheritDeleted, skip, names);
    if Copied(g, source, inheritDeleted, skip, names[n]) {
      var id, rec := DbId(target, names[n]), g.dbs[DbId(source, names[n])].(cluster := target);
      ApplyOne(start.(dbs := start.dbs + before), PutDb(id, rec));
      assert (start.dbs + before)[id := rec] == start.dbs + after;
    }
  }

  lemma CopiesGrow(g: Config, source: string, target: string, inheritDeleted: bool, skip: set<string>,
                   names: seq<string>)
    requires names != []
    ensures var n := |names| - 1;
      Copies(g, source, target, inheritDeleted, skip, names) ==
      if Copied(g, source, inheritDeleted, skip, names[n])
      then Copies(g, source, target, inheritDeleted, skip,
                  names[..n])[DbId(target, names[n]) := g.dbs[DbId(source, names[n])].(cluster := target)]
      else Copies(g, source, target, inheritDeleted, skip, names[..n])
  {
    assert names == names[..|names| - 1] + [names[|names| - 1]];
  }
}
