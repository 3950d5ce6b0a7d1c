/** path-clone.go */
module Clone {
  import opened Paths
  import opened Records
  import opened Operations
  import opened Runs
  import opened Vault
  import opened Servers
  import opened Entries
  import opened Identifiers
  import opened Clusters
  import opened Fleet

  /** What cloneDbConfig reports back. */
  datatype Report = Report(total: nat, success: nat, errors: nat)

  /** How many of the listed databases were passed over because they are deleted. */
  function PassedOver(g: Config, source: string, inheritDeleted: bool, failed: set<string>, names: seq<string>): nat {
    if names == [] then 0 else
    var n := |names| - 1;
    PassedOver(g, source, inheritDeleted, failed, names[..n])
    + if names[n] !in failed && g.DisabledDb(DbId(source, names[n])) && !inheritDeleted then 1 else 0
  }

  // A database that is not in the list does not matter to what is done with the list.

  lemma {:induction false} OthersDoNotMatter(g: Config, source: string, target: string, inheritDeleted: bool,
                                             skip: set<string>, names: seq<string>, d: string)
    requires d !in names
    ensures CopyWrites(g, source, target, inheritDeleted, skip + {d}, names)
      == CopyWrites(g, source, target, inheritDeleted, skip, names)
    ensures PassedOver(g, source, inheritDeleted, skip + {d}, names)
      == PassedOver(g, source, inheritDeleted, skip, names)
  {
    if names != [] {
      var n := |names| - 1;
      assert names[n] in names;
      OthersDoNotMatter(g, source, target, inheritDeleted, skip, names[..n], d);
    }
  }

  lemma {:induction false} SameDbsSameCopies(g: Config, h: Config, source: string, target: string, inheritDeleted: bool,
                                             skip: set<string>, names: seq<string>)
    requires g.dbs == h.dbs
    ensures CopyWrites(g, source, target, inheritDeleted, skip, names)
      == CopyWrites(h, source, target, inheritDeleted, skip, names)
    ensures PassedOver(g, source, inheritDeleted, skip, names) == PassedOver(h, source, inheritDeleted, skip, names)
  {
    if names != [] { SameDbsSameCopies(g, h, source, target, inheritDeleted, skip, names[..|names| - 1]); }
  }

  lemma {:induction false} NothingCopied(g: Config, source: string, target: string, inheritDeleted: bool,
                                         skip: set<string>, names: seq<string>)
    requires forall d | d in names :: d in skip
    ensures CopyWrites(g, source, target, inheritDeleted, skip, names) == []
  {
    if names != [] {
      assert names[|names| - 1] in names;
      NothingCopied(g, source, target, inheritDeleted, skip, names[..|names| - 1]);
    }
  }

  /** Copying to the target does not disturb the source. */
  lemma {:induction false} SourceUndisturbed(g: Config, source: string, target: string, inheritDeleted: bool,
                                             skip: set<string>, names: seq<string>, d: string)
    requires source != target
    ensures var h, id := ApplyAll(g, CopyWrites(g, source, target, inheritDeleted, skip, names)), DbId(source, d);
      && (id in h.dbs <==> id in g.dbs) && (id in g.dbs ==> h.dbs[id] == g.dbs[id])
      && CopyWrite(h, source, target, inheritDeleted, {}, d) == CopyWrite(g, source, target, inheritDeleted, {}, d)
  {
    CopyLoop(g, g, source, target, inheritDeleted, skip, names);
  }

  /** What the copying has done: whether the databases could be listed, the names that could not be copied, those that
      ended in an error, the writes made, how many of them were not acknowledged, and the two counters. */
  datatype Progress = Progress(listed: bool, skip: set<string>, failed: set<string>, ws: seq<Write>,
                               unacked: nat, success: nat, errors: nat)

  /** A round for name d: ok says whether it went without an error, made what was written. */
  function After(p: Progress, d: string, ok: bool, made: seq<Write>): Progress {
    if ok then p.(ws := p.ws + made, success := p.success + if made != [] then 1 else 0)
    else if made == [] then p.(skip := p.skip + {d}, failed := p.failed + {d}, errors := p.errors + 1)
    else p.(failed := p.failed + {d}, ws := p.ws + made, errors := p.errors + 1, unacked := p.unacked + 1)
  }

  /** The loop has dealt with all of names. */
  ghost predicate Dealt(g: Config, source: string, target: string, inheritDeleted: bool, names: seq<string>,
                        p: Progress) {
    DealtNames(names, p) && DealtWrites(g, source, target, inheritDeleted, names, p)
  }

  ghost predicate DealtNames(names: seq<string>, p: Progress) {
    (forall d | d in p.failed :: d in names) && p.skip <= p.failed && p.errors == |p.failed|
  }

  ghost predicate DealtWrites(g: Config, source: string, target: string, inheritDeleted: bool, names: seq<string>,
                              p: Progress) {
    && p.ws == CopyWrites(g, source, target, inheritDeleted, p.skip, names)
    && p.success == |CopyWrites(g, source, target, inheritDeleted, p.failed, names)|
    && |names| == p.success + p.errors + PassedOver(g, source, inheritDeleted, p.failed, names)
    && |p.ws| == p.success + p.unacked
  }

  ghost predicate Copying(g: Config, source: string, target: string, inheritDeleted: bool, names: seq<string>, i: nat,
                          p: Progress)
    requires i <= |names|
  {
    forall b {:trigger Look(b)} :: Look(b) ==> Dealt(g, source, target, inheritDeleted, names[..i], p)
  }

  lemma CopyRound(g: Config, source: string, target: string, inheritDeleted: bool, names: seq<string>, i: nat,
                  p: Progress, ok: bool, made: seq<Write>)
    requires NoDuplicates(names) && i < |names| && DbId(source, names[i]) in g.dbs
    requires Copying(g, source, target, inheritDeleted, names, i, p)
    requires made == CopyWrite(g, source, target, inheritDeleted, {}, names[i]) || (made == [] && !ok)
    ensures Copying(g, source, target, inheritDeleted, names, i + 1, After(p, names[i], ok, made))
  {
    DealtRound(g, source, target, inheritDeleted, names, i, p, ok, made);
  }

  lemma DealtRound(g: Config, source: string, target: string, inheritDeleted: bool, names: seq<string>, i: nat,
                   p: Progress, ok: bool, made: seq<Write>)
    requires NoDuplicates(names) && i < |names| && DbId(source, names[i]) in g.dbs
    requires Copying(g, source, target, inheritDeleted, names, i, p)
    requires made == CopyWrite(g, source, target, inheritDeleted, {}, names[i]) || (made == [] && !ok)
    ensures Dealt(g, source, target, inheritDeleted, names[..i + 1], After(p, names[i], ok, made))
  {
    assert Look(true);
    RoundNames(names, i, p, ok, made);
    if ok {
      RoundFine(g, source, target, inheritDeleted, names, i, p);
    } else if made == [] {
      RoundLost(g, source, target, inheritDeleted, names, i, p);
    } else {
      RoundUnacknowledged(g, source, target, inheritDeleted, names, i, p);
    }
  }

  /** The next name is a new one; one more failure is one more. */
  lemma NextName(names: seq<string>, i: nat, failed: set<string>)
    requires NoDuplicates(names) && i < |names| && forall d | d in failed :: d in names[..i]
    ensures names[i] !in failed && names[i] in names[..i + 1] && |failed + {names[i]}| == |failed| + 1
    ensures forall d | d in names[..i] :: d in names[..i + 1]
    ensures |names[..i + 1]| == |names[..i]| + 1
  {
    assert names[..i + 1] == names[..i] + [names[i]];
    assert names[i] !in names[..i];
  }

  lemma RoundNames(names: seq<string>, i: nat, p: Progress, ok: bool, made: seq<Write>)
    requires NoDuplicates(names) && i < |names| && DealtNames(names[..i], p)
    ensures DealtNames(names[..i + 1], After(p, names[i], ok, made)) && names[i] !in p.failed && names[i] !in p.skip
    ensures |names[..i + 1]| == |names[..i]| + 1
  {
    NextName(names, i, p.failed);
  }

  lemma RoundFine(g: Config, source: string, target: string, inheritDeleted: bool, names: seq<string>, i: nat,
                  p: Progress)
    requires NoDuplicates(names) && i < |names| && DbId(source, names[i]) in g.dbs && names[i] !in p.failed
      && names[i] !in p.skip
    requires DealtWrites(g, source, target, inheritDeleted, names[..i], p) && |names[..i + 1]| == |names[..i]| + 1
    ensures DealtWrites(g, source, target, inheritDeleted, names[..i + 1],
                        After(p, names[i], true, CopyWrite(g, source, target, inheritDeleted, {}, names[i])))
  {
    CopyStep(g, source, target, inheritDeleted, p.skip, names, i, false);
    CopyStep(g, source, target, inheritDeleted, p.failed, names, i, false);
  }

  lemma RoundLost(g: Config, source: string, target: string, inheritDeleted: bool, names: seq<string>, i: nat,
                  p: Progress)
    requires NoDuplicates(names) && i < |names| && names[i] !in p.failed && names[i] !in p.skip
    requires DealtWrites(g, source, target, inheritDeleted, names[..i], p) && |names[..i + 1]| == |names[..i]| + 1
    ensures DealtWrites(g, source, target, inheritDeleted, names[..i + 1], After(p, names[i], false, []))
  {
    CopyStep(g, source, target, inheritDeleted, p.skip, names, i, true);
    CopyStep(g, source, target, inheritDeleted, p.failed, names, i, true);
  }

  lemma RoundUnacknowledged(g: Config, source: string, target: string, inheritDeleted: bool, names: seq<string>, i: nat,
                            p: Progress)
    requires NoDuplicates(names) && i < |names| && names[i] !in p.failed && names[i] !in p.skip
    requires DealtWrites(g, source, target, inheritDeleted, names[..i], p) && |names[..i + 1]| == |names[..i]| + 1
    requires CopyWrite(g, source, target, inheritDeleted, {}, names[i]) != []
    ensures DealtWrites(g, source, target, inheritDeleted, names[..i + 1],
                        After(p, names[i], false, CopyWrite(g, source, target, inheritDeleted, {}, names[i])))
  {
    CopyStep(g, source, target, inheritDeleted, p.skip, names, i, false);
    CopyStep(g, source, target, inheritDeleted, p.failed, names, i, true);
  }

  /** The plan for one more name, which failed or not. */
  lemma CopyStep(g: Config, source: string, target: string, inheritDeleted: bool, skip: set<string>, names: seq<string>,
                 i: nat, fails: bool)
    requires NoDuplicates(names) && i < |names| && names[i] !in skip
    ensures var skip' := if fails then skip + {names[i]} else skip;
      && CopyWrites(g, source, target, inheritDeleted, skip', names[..i + 1])
         == (if fails then CopyWrites(g, source, target, inheritDeleted, skip, names[..i])
             else CopyWrites(g, source, target, inheritDeleted, skip, names[..i])
                  + CopyWrite(g, source, target, inheritDeleted, {}, names[i]))
      && PassedOver(g, source, inheritDeleted, skip', names[..i + 1])
         == PassedOver(g, source, inheritDeleted, skip, names[..i])
            + (if !fails && g.DisabledDb(DbId(source, names[i])) && !inheritDeleted then 1 else 0)
  {
    assert names[..i + 1][..i] == names[..i];
    assert names[i] !in names[..i];
    OthersDoNotMatter(g, source, target, inheritDeleted, skip, names[..i], names[i]);
  }

  /** One round of the loop of cloneDbConfig. */
  method CopyDb(storage: Storage, source: Name, target: Name, dbname: string, inheritDeleted: bool)
    returns (ok: bool, copied: bool, ghost made: seq<Write>)
    requires storage.Valid() && DbId(source, dbname) in storage.Now().dbs
    modifies storage`data, storage`calls, storage`failures, storage`unacked, storage`log, storage`now
    ensures storage.Valid() && storage.log == old(storage.log) + made
      && storage.Now() == ApplyAll(old(storage.Now()), made)
    ensures made == CopyWrite(old(storage.Now()), source, target, inheritDeleted, {}, dbname) || (made == [] && !ok)
    ensures copied <==> ok && made != []
    ensures storage.failures == old(storage.failures) + (if ok then 0 else 1)
    ensures storage.unacked == old(storage.unacked) + if !ok && made != [] then 1 else 0
  {
    made := [];
    var loaded := LoadDbEntry(storage, source, dbname);
    if loaded.Failed? { return false, false, made; }
    var db := loaded.value;
    if db.disabled && !inheritDeleted { return true, false, made; }
    db.cluster := target;
    ok, made := StoreDbEntry(storage, target, dbname, db);
    copied := ok;
  }

  /** Copies what it can: an error on one database is counted, and the loop goes on. */
  method CloneDbConfig(storage: Storage, source: Name, target: Name, inheritDeleted: bool)
    returns (report: Report, ghost order: seq<string>, ghost p: Progress)
    requires storage.Valid() && source != target
    modifies storage`data, storage`calls, storage`failures, storage`unacked, storage`log, storage`now
    ensures storage.Valid() && storage.log == old(storage.log) + p.ws
      && storage.Now() == ApplyAll(old(storage.Now()), p.ws)
    ensures CopiesDone(old(storage.Now()), source, target, inheritDeleted, order, p, report)
    ensures storage.unacked == old(storage.unacked) + p.unacked
    ensures storage.failures == old(storage.failures) ==> p.skip == p.failed == {} && report.total == |order|
    ensures p.listed <==> storage.faults(old(storage.calls)) == Fine
  {
    ghost var g := storage.Now();
    order := SomeListing(DbNames(g, source));
    p := Progress(false, DbNames(g, source), DbNames(g, source), [], 0, 0, 0);
    DatabasesListed(storage, source);
    var listed := storage.List(DatabaseKey(source, ""));
    if listed.Err? {
      ListFailed(g, source, target, inheritDeleted, order);
      return Report(0, 0, 1), order, p;
    }
    order := listed.value;
    report, p := CopyAll(storage, source, target, listed.value, inheritDeleted);
    CopyEnd(g, source, target, inheritDeleted, listed.value, p);
  }

  /** Where the loop stands: what the storage holds and has counted, from where it started. */
  ghost predicate Going(storage: Storage, g: Config, log: seq<Write>, unacked: nat, failures: nat, p: Progress)
    reads storage
  {
    && storage.Valid() && p.listed
    && storage.Now() == ApplyAll(g, p.ws) && storage.log == log + p.ws
    && storage.unacked == unacked + p.unacked && storage.failures == failures + p.errors
  }

  /** One round, seen from the loop. */
  method CopyNext(storage: Storage, source: Name, target: Name, dbs: seq<string>, i: nat, inheritDeleted: bool,
                  ghost g: Config, ghost log: seq<Write>, ghost unacked: nat, ghost failures: nat, ghost p: Progress)
    returns (ok: bool, copied: bool, ghost q: Progress)
    requires source != target && Listing(dbs, DbNames(g, source)) && i < |dbs|
    requires Copying(g, source, target, inheritDeleted, dbs, i, p) && Going(storage, g, log, unacked, failures, p)
    modifies storage`data, storage`calls, storage`failures, storage`unacked, storage`log, storage`now
    ensures Copying(g, source, target, inheritDeleted, dbs, i + 1, q) && Going(storage, g, log, unacked, failures, q)
    ensures q.success == p.success + (if copied then 1 else 0) && q.errors == p.errors + if ok then 0 else 1
  {
    SourceReadable(g, source, target, inheritDeleted, dbs, i, p);
    ghost var made;
    ok, copied, made := CopyCounted(storage, source, target, dbs[i], inheritDeleted, g, log, unacked, failures, p);
    CopyRound(g, source, target, inheritDeleted, dbs, i, p, ok, made);
    q := After(p, dbs[i], ok, made);
  }

  /** What a round does to the storage and the counters. */
  method CopyCounted(storage: Storage, source: Name, target: Name, d: string, inheritDeleted: bool, ghost g: Config,
                     ghost log: seq<Write>, ghost unacked: nat, ghost failures: nat, ghost p: Progress)
    returns (ok: bool, copied: bool, ghost made: seq<Write>)
    requires DbId(source, d) in storage.Now().dbs && Going(storage, g, log, unacked, failures, p)
    modifies storage`data, storage`calls, storage`failures, storage`unacked, storage`log, storage`now
    ensures Going(storage, g, log, unacked, failures, After(p, d, ok, made))
    ensures made == CopyWrite(old(storage.Now()), source, target, inheritDeleted, {}, d) || (made == [] && !ok)
    ensures copied <==> ok && made != []
  {
    ok, copied, made := CopyDb(storage, source, target, d, inheritDeleted);
    ApplyConcat(g, p.ws, made);
    assert log + (p.ws + made) == (log + p.ws) + made && log + p.ws + [] == log + p.ws;
  }

  lemma CopyStarts(g: Config, source: string, target: string, inheritDeleted: bool, names: seq<string>, p: Progress)
    requires p == Progress(true, {}, {}, [], 0, 0, 0)
    ensures Copying(g, source, target, inheritDeleted, names, 0, p) && ApplyAll(g, p.ws) == g
  {
    assert names[..0] == [];
  }

  /** The loop of cloneDbConfig. */
  method CopyAll(storage: Storage, source: Name, target: Name, dbs: seq<string>, inheritDeleted: bool)
    returns (report: Report, ghost p: Progress)
    requires storage.Valid() && source != target && Listing(dbs, DbNames(storage.Now(), source))
    modifies storage`data, storage`calls, storage`failures, storage`unacked, storage`log, storage`now
    ensures Going(storage, old(storage.Now()), old(storage.log), old(storage.unacked), old(storage.failures), p)
    ensures Copying(old(storage.Now()), source, target, inheritDeleted, dbs, |dbs|, p)
    ensures report == Report(|dbs|, p.success, p.errors)
  {
    ghost var g, log, unacked, failures := storage.Now(), storage.log, storage.unacked, storage.failures;
    p := Progress(true, {}, {}, [], 0, 0, 0);
    CopyStarts(g, source, target, inheritDeleted, dbs, p);
    assert log + [] == log;
    var success: nat, errs: nat := 0, 0;
    var i := 0;
    while i < |dbs|
      invariant i <= |dbs| && success == p.success && errs == p.errors
      invariant Going(storage, g, log, unacked, failures, p)
      invariant Copying(g, source, target, inheritDeleted, dbs, i, p)
    {
      var ok, copied;
      ok, copied, p := CopyNext(storage, source, target, dbs, i, inheritDeleted, g, log, unacked, failures, p);
      if copied { success := success + 1; }
      if !ok { errs := errs + 1; }
      i := i + 1;
    }
    report := Report(|dbs|, success, errs);
  }

  lemma ListFailed(g: Config, source: string, target: string, inheritDeleted: bool, order: seq<string>)
    requires Listing(order, DbNames(g, source))
    ensures CopiesDone(g, source, target, inheritDeleted, order,
                       Progress(false, DbNames(g, source), DbNames(g, source), [], 0, 0, 0), Report(0, 0, 1))
  {
    NothingCopied(g, source, target, inheritDeleted, DbNames(g, source), order);
  }

  lemma SourceReadable(g: Config, source: string, target: string, inheritDeleted: bool, names: seq<string>, i: nat,
                       p: Progress)
    requires source != target && Listing(names, DbNames(g, source)) && i < |names|
    requires Copying(g, source, target, inheritDeleted, names, i, p)
    ensures var h := ApplyAll(g, p.ws);
      && DbId(source, names[i]) in h.dbs && DbId(source, names[i]) in g.dbs
      && CopyWrite(h, source, target, inheritDeleted, {}, names[i])
        == CopyWrite(g, source, target, inheritDeleted, {}, names[i])
  {
    assert Look(true);
    ListingOfDbs(g, source, names, names[i]);
    SourceUndisturbed(g, source, target, inheritDeleted, p.skip, names[..i], names[i]);
  }

  lemma CopyEnd(g: Config, source: string, target: string, inheritDeleted: bool, names: seq<string>, p: Progress)
    requires Copying(g, source, target, inheritDeleted, names, |names|, p)
    requires Listing(names, DbNames(g, source)) && p.listed
    ensures CopiesDone(g, source, target, inheritDeleted, names, p, Report(|names|, p.success, p.errors))
    ensures p.errors == 0 ==> p.skip == p.failed == {}
  {
    assert Look(true);
    assert names[..|names|] == names;
  }

  /** What cloneDbConfig did: the planned copies minus the skipped ones, and a truthful report. */
  ghost predicate CopiesDone(g: Config, source: string, target: string, inheritDeleted: bool, order: seq<string>,
                             p: Progress, report: Report) {
    && Listing(order, DbNames(g, source))
    && p.ws == CopyWrites(g, source, target, inheritDeleted, p.skip, order)
    && Accounted(g, source, target, inheritDeleted, order, p, report)
  }

  /** When the databases could be listed: every one is a success, an error or deleted and passed over, and the
      successes are exactly the acknowledged writes. When they could not: nothing, and one error. */
  ghost predicate Accounted(g: Config, source: string, target: string, inheritDeleted: bool, order: seq<string>,
                            p: Progress, report: Report) {
    if p.listed then report == Report(|order|, p.success, p.errors)
        && Dealt(g, source, target, inheritDeleted, order, p)
    else report == Report(0, 0, 1) && p.ws == [] && p.unacked == 0
  }

  /** What a clone does to the servers, `through` saying whether it got as far as the storage. One that is turned down,
      without any call failing, leaves them alone. */
  ghost predicate CloneServerSide(source: ClusterRecord, before: Passwords, after: Passwords, ep: Endpoint,
                                  newMgmtPass: string, newRootPass: string, through: bool, refused: bool,
                                  serverError: bool, calm: bool) {
    && (through ==>
          && CanLogin(before, ep, source.managementRole, source.managementPassword)
          && CanLogin(before, ep, source.username, source.password)
          && after == Rotated(before, ep, source.managementRole, newMgmtPass, source.username, newRootPass))
    && (refused ==> after == before)
    && (after == before
        || (ep in before && after == WithPassword(before, ep, source.managementRole, newMgmtPass))
        || (ep in before
            && after == Rotated(before, ep, source.managementRole, newMgmtPass, source.username, newRootPass)))
    && (serverError && calm ==> after == before)
    && (serverError && calm ==> !(CanLogin(before, ep, source.managementRole, source.managementPassword)
                                  && CanLogin(before, ep, source.username, source.password)))
  }

  /** Gives two users new passwords, one after the other. */
  method ChangePasswords(pg: Postgres, ep: Endpoint, user1: string, password1: string, user2: string, password2: string)
    returns (ok: bool)
    modifies pg
    ensures ok ==>
      ep in old(pg.servers) && pg.servers == Rotated(old(pg.servers), ep, user1, password1, user2, password2)
    ensures pg.servers == old(pg.servers) || (ep in old(pg.servers) &&
              pg.servers in {WithPassword(old(pg.servers), ep, user1, password1),
                             Rotated(old(pg.servers), ep, user1, password1, user2, password2)})
    ensures pg.failures >= old(pg.failures)
    ensures HasRole(old(pg.servers), ep, user1) && HasRole(old(pg.servers), ep, user2) ==>
      ok || pg.failures > old(pg.failures)
  {
    ok := pg.SetPassword(ep, user1, password1);
    if !ok { return; }
    ok := pg.SetPassword(ep, user2, password2);
  }

  /** Checks both of the source's logins on the clone's endpoint, then gives both new passwords. */
  method Rotate(pg: Postgres, cluster: ClusterConfig, host: string, port: int, newMgmtPass: string, newRootPass: string)
    returns (ok: bool)
    modifies pg, cluster
    ensures ok ==> cluster.Value() == CloneRecord(old(cluster.Value()), host, port, newMgmtPass, newRootPass)
    ensures CloneServerSide(old(cluster.Value()), old(pg.servers), pg.servers, Endpoint(host, port),
                            newMgmtPass, newRootPass, ok, false, !ok, pg.failures == old(pg.failures))
  {
    cluster.host, cluster.port := host, port;
    var ep := Endpoint(host, port);
    ok := pg.Connect(ep, cluster.managementRole, cluster.managementPassword);
    if !ok { return; }
    ok := pg.Connect(ep, cluster.username, cluster.password);
    if !ok { return; }
    ok := ChangePasswords(pg, ep, cluster.managementRole, newMgmtPass, cluster.username, newRootPass);
    if !ok { return; }
    cluster.managementPassword, cluster.password := newMgmtPass, newRootPass;
  }

  /** The cluster's write and the copies make up the plan. */
  lemma CloneAssembles(g: Config, op: Op, ws: seq<Write>, p: Progress)
    requires op.CloneCluster? && Verdict(g, op).Done? && op.skip == p.skip
    requires ws
      == [PutCluster(op.target,
                     CloneRecord(g.clusters[op.source], op.host, op.port, op.managementPassword, op.password))]
    requires var h := ApplyAll(g, ws);
      Listing(op.order, DbNames(h, op.source))
          && p.ws == CopyWrites(h, op.source, op.target, op.inheritDeleted, op.skip, op.order)
    ensures Handles(g, Step(op, ws + p.ws)) && Plan(g, op) == ws + p.ws
    ensures ApplyAll(g, ws + p.ws) == ApplyAll(ApplyAll(g, ws), p.ws)
    ensures forall report ::
      Accounted(ApplyAll(g, ws), op.source, op.target, op.inheritDeleted, op.order, p, report) ==>
      Accounted(g, op.source, op.target, op.inheritDeleted, op.order, p, report)
  {
    var h := ApplyAll(g, ws);
    ApplyOne(g, ws[0]);
    SameDbsSameCopies(g, h, op.source, op.target, op.inheritDeleted, op.skip, op.order);
    SameDbsSameCopies(g, h, op.source, op.target, op.inheritDeleted, p.failed, op.order);
    ApplyConcat(g, ws, p.ws);
  }

  /** What pathCloneUpdate guarantees about the configuration g it started from. */
  ghost predicate CloneHandled(g: Config, op: Op, p: Progress, ws: seq<Write>, r: Outcome<Report>, calm: bool) {
    && op.CloneCluster? && op.skip == p.skip && Handles(g, Step(op, ws))
    && (r.Refused? ==> Verdict(g, op) == Refused(r.reason) && ws == [])
    && (r.Failed? ==> r.error in {StorageError, ServerError} && |ws| <= 1)
    && (r == Failed(ServerError) ==> ws == [] && Verdict(g, op).Done?)
    && (r.Done? ==> Verdict(g, op).Done? && ws == Plan(g, op) && |ws| == 1 + |p.ws|
                    && Accounted(g, op.source, op.target, op.inheritDeleted, op.order, p, r.value))
    && (calm ==> r != Failed(StorageError) && (r.Done? ==> op.skip == {}))
  }

  /** The same request, dealt another List order and other failures. */
  function Dealing(op: Op, order: seq<string>, skip: set<string>): Op
    requires op.CloneCluster?
  {
    CloneCluster(op.source, op.target, op.host, op.port, op.managementPassword, op.password, op.inheritDeleted, order,
                 skip)
  }

  /** All checks have passed, and rec is what is about to be stored for the target. */
  ghost predicate Ready(g: Config, op: Op, rec: ClusterRecord) {
    && op.CloneCluster? && Verdict(g, op).Done?
    && rec == CloneRecord(g.clusters[op.source], op.host, op.port, op.managementPassword, op.password)
  }

  lemma CloneReady(g: Config, op: Op, rec: ClusterRecord)
    requires op.CloneCluster? && Verdict(g, op).Done?
    requires rec == CloneRecord(g.clusters[op.source], op.host, op.port, op.managementPassword, op.password)
    ensures Ready(g, op, rec)
  {}

  lemma CloneComplete(g: Config, op0: Op, rec: ClusterRecord, order: seq<string>, ws: seq<Write>, p: Progress,
                      report: Report, calm: bool) returns (op: Op)
    requires Ready(g, op0, rec) && ws == [PutCluster(op0.target, rec)] && (calm ==> p.skip == {})
    requires CopiesDone(ApplyAll(g, ws), op0.source, op0.target, op0.inheritDeleted, order, p, report)
    ensures op == Dealing(op0, order, p.skip) && CloneHandled(g, op, p, ws + p.ws, Done(report), calm)
    ensures ApplyAll(g, ws + p.ws) == ApplyAll(ApplyAll(g, ws), p.ws)
  {
    op := Dealing(op0, order, p.skip);
    CloneAssembles(g, op, ws, p);
  }

  lemma CloneStopped(g: Config, op: Op, ws: seq<Write>, p: Progress, r: Outcome<Report>, calm: bool)
    requires op.CloneCluster? && op.skip == p.skip && Legal(g, op) && !r.Done?
    requires ws == [] || (ws <= Plan(g, op) && |ws| == 1 && r == Failed(StorageError))
    requires r.Refused? ==> Verdict(g, op) == Refused(r.reason)
    requires r.Failed? ==> r.error in {StorageError, ServerError} && (calm ==> r.error == ServerError)
    requires r == Failed(ServerError) ==> Verdict(g, op).Done?
    ensures CloneHandled(g, op, p, ws, r, calm)
  {}

  /** The target's record was lost, or written without being acknowledged. */
  lemma CloneUnstored(g: Config, op0: Op, rec: ClusterRecord, ws: seq<Write>, p: Progress) returns (op: Op)
    requires Ready(g, op0, rec) && op0.skip == p.skip && (ws == [] || ws == [PutCluster(op0.target, rec)])
    ensures op.CloneCluster? && op == Dealing(op0, op.order, op0.skip)
    ensures CloneHandled(g, op, p, ws, Failed(StorageError), false)
  {
    var order := SomeListing(DbNames(g, op0.source));
    op := Dealing(op0, order, op0.skip);
    assert Plan(g, op)[..1]
        == [PutCluster(op.target,
                       CloneRecord(g.clusters[op.source], op.host, op.port, op.managementPassword, op.password))];
    CloneStopped(g, op, ws, p, Failed(StorageError), false);
  }

  lemma {:induction false} CloneSound(g: Config, log: seq<Write>, op: Op, p: Progress, ws: seq<Write>,
                                      r: Outcome<Report>, calm: bool)
    requires g == ApplyAll(EMPTY, log) && CloneHandled(g, op, p, ws, r, calm)
    ensures Kept(log) ==> Kept(log + ws)
    ensures Kept(log) && calm && r.Done? ==> ClonedExactly(g, op, ApplyAll(g, ws))
  {
    StaysSound(g, log, op, ws);
    KeptIsInv(log);
    if Kept(log) && calm && r.Done? { ExactClone(g, op); }
  }

  method PathCloneUpdate(storage: Storage, pg: Postgres, clusterName: Name, targetName: string, targetHost: string,
                         targetPort: int, inheritDeleted: bool, newMgmtPass: Uuid, newRootPass: Uuid)
    returns (r: Outcome<Report>, ghost op: Op, ghost p: Progress, ghost ws: seq<Write>)
    requires storage.Valid() && '/' !in targetName
    modifies storage`data, storage`calls, storage`failures, storage`unacked, storage`log, storage`now, pg
    ensures storage.Valid() && storage.log == old(storage.log) + ws && storage.Now() == ApplyAll(old(storage.Now()), ws)
    ensures op.CloneCluster? && op ==
      CloneCluster(clusterName, targetName, targetHost, targetPort, newMgmtPass, newRootPass, inheritDeleted,
                   op.order, op.skip)
    ensures CloneHandled(old(storage.Now()), op, p, ws, r, storage.failures == old(storage.failures))
    ensures ClonedAs(old(storage.Now()), storage.Now(), clusterName, targetName, targetHost, targetPort, newMgmtPass,
                     newRootPass, r.Done? || ws != [])
    ensures storage.unacked == old(storage.unacked) + p.unacked || r.Failed?
    ensures r.Done? ==> (p.listed <==> storage.faults(old(storage.calls) + 3) == Fine)
    ensures r.Refused? ==> pg.servers == old(pg.servers)
    ensures clusterName in old(storage.Now()).clusters ==>
      CloneServerSide(old(storage.Now()).clusters[clusterName], old(pg.servers), pg.servers,
                      Endpoint(targetHost, targetPort), newMgmtPass, newRootPass, r.Done? || ws != [],
                      r.Refused?, r == Failed(ServerError), pg.failures == old(pg.failures))
    ensures old(storage.Sound()) ==> storage.Sound()
    ensures old(storage.Sound()) && r.Done? && storage.failures == old(storage.failures) ==>
      ClonedExactly(old(storage.Now()), op, storage.Now())
  {
    ghost var g, from := storage.Now(), storage.failures;
    ghost var order := SomeListing(DbNames(g, clusterName));
    p, ws := Progress(false, {}, {}, [], 0, 0, 0), [];
    op := CloneCluster(clusterName, targetName, targetHost, targetPort, newMgmtPass, newRootPass, inheritDeleted, order,
                       {});
    var c;
    r, c := CheckClone(storage, clusterName, targetName, targetHost, targetPort, op);
    if !r.Done? {
      CloneStopped(g, op, ws, p, r, storage.failures == from);
      return;
    }
    r, op, p, ws :=
        CarryOut(storage, pg, c, clusterName, targetName, targetHost, targetPort, inheritDeleted, newMgmtPass,
                 newRootPass, op);
    CloneStores(g, op, ws);
  }

  /** What a clone leaves of clusters, roles and metadata, once it got through to the storage: a record for the target
      that differs from the source's in endpoint and passwords only. */
  ghost predicate ClonedAs(g: Config, h: Config, source: string, target: string, host: string, port: int,
                           managementPassword: string, password: string, through: bool) {
    if through then
      && g.ActiveCluster(source) && target !in g.clusters && target in h.clusters
      && Cloned(g.clusters[source], h.clusters[target], host, port, managementPassword, password)
      && h.clusters - {target} == g.clusters && h.roles == g.roles && h.meta == g.meta
    else h == g
  }

  lemma CloneStores(g: Config, op: Op, ws: seq<Write>)
    requires op.CloneCluster? && ws <= Plan(g, op)
    ensures ClonedAs(g, ApplyAll(g, ws), op.source, op.target, op.host, op.port, op.managementPassword, op.password,
                     ws != [])
  {
    if ws != [] {
      PlanOfClone(g, op);
      CopiesAreDbs(g, op.source, op.target, op.inheritDeleted, op.skip, op.order);
      FirstThenCopies(g, ws, Plan(g, op));
      CloneRecordIs(g.clusters[op.source], ws[0].cluster, op.host, op.port, op.managementPassword, op.password);
    }
  }

  lemma FirstThenCopies(g: Config, ws: seq<Write>, plan: seq<Write>)
    requires ws != [] && ws <= plan && forall w | w in plan[1..] :: w.PutDb?
    ensures var h, first := ApplyAll(g, ws), Apply(g, ws[0]);
      ws[0] == plan[0] && h.clusters == first.clusters && h.roles == first.roles && h.meta == first.meta
  {
    assert ws == [ws[0]] + ws[1..];
    forall w | w in ws[1..] ensures w.PutDb? { assert w in plan[1..]; }
    ApplyConcat(g, [ws[0]], ws[1..]);
    ApplyOne(g, ws[0]);
    DbWritesKeep(Apply(g, ws[0]), ws[1..]);
  }

  /** The rest of a clone, once all checks have passed: new passwords on the new endpoint, then the storage. */
  method CarryOut(storage: Storage, pg: Postgres, cluster: ClusterConfig, source: Name, target: Name,
                  targetHost: string, targetPort: int, inheritDeleted: bool, newMgmtPass: Uuid, newRootPass: Uuid,
                  ghost op0: Op)
    returns (r: Outcome<Report>, ghost op: Op, ghost p: Progress, ghost ws: seq<Write>)
    requires storage.Valid() && source != target && source in storage.Now().clusters
    requires op0.CloneCluster? && op0.skip == {} && op0 ==
      CloneCluster(source, target, targetHost, targetPort, newMgmtPass, newRootPass, inheritDeleted, op0.order, {})
    requires Legal(storage.Now(), op0) && Verdict(storage.Now(), op0).Done?
      && cluster.Value() == storage.Now().clusters[source]
    modifies storage`data, storage`calls, storage`failures, storage`unacked, storage`log, storage`now, pg, cluster
    ensures storage.Valid() && storage.log == old(storage.log) + ws && storage.Now() == ApplyAll(old(storage.Now()), ws)
    ensures op.CloneCluster? && op == Dealing(op0, op.order, op.skip) && !r.Refused?
    ensures CloneHandled(old(storage.Now()), op, p, ws, r, storage.failures == old(storage.failures))
    ensures storage.unacked == old(storage.unacked) + p.unacked || r.Failed?
    ensures r.Done? ==> (p.listed <==> storage.faults(old(storage.calls) + 1) == Fine)
    ensures CloneServerSide(old(storage.Now()).clusters[source], old(pg.servers), pg.servers,
                            Endpoint(targetHost, targetPort),
                            newMgmtPass, newRootPass, r.Done? || ws != [], false, r == Failed(ServerError),
                            pg.failures == old(pg.failures))
    ensures old(storage.Sound()) ==> storage.Sound()
    ensures old(storage.Sound()) && r.Done? && storage.failures == old(storage.failures) ==>
      ClonedExactly(old(storage.Now()), op, storage.Now())
  {
    var rotated := Rotate(pg, cluster, targetHost, targetPort, newMgmtPass, newRootPass);
    if !rotated {
      op, p, ws := op0, Progress(false, {}, {}, [], 0, 0, 0), [];
      CloneStopped(storage.Now(), op, ws, p, Failed(ServerError), true);
      return Failed(ServerError), op, p, ws;
    }
    CloneReady(storage.Now(), op0, cluster.Value());
    r, op, p, ws := StoreSound(storage, cluster, source, target, inheritDeleted, op0);
  }

  method StoreSound(storage: Storage, cluster: ClusterConfig, source: Name, target: Name, inheritDeleted: bool,
                    ghost op0: Op)
    returns (r: Outcome<Report>, ghost op: Op, ghost p: Progress, ghost ws: seq<Write>)
    requires storage.Valid() && Ready(storage.Now(), op0, cluster.Value())
    requires op0.source == source != target == op0.target && op0.inheritDeleted == inheritDeleted && op0.skip == {}
    modifies storage`data, storage`calls, storage`failures, storage`unacked, storage`log, storage`now
    ensures storage.Valid() && storage.log == old(storage.log) + ws && storage.Now() == ApplyAll(old(storage.Now()), ws)
    ensures op.CloneCluster? && op == Dealing(op0, op.order, op.skip)
    ensures r.Done? || r == Failed(StorageError)
    ensures CloneHandled(old(storage.Now()), op, p, ws, r, storage.failures == old(storage.failures))
    ensures storage.unacked == old(storage.unacked) + p.unacked || r.Failed?
    ensures r.Done? ==> (p.listed <==> storage.faults(old(storage.calls) + 1) == Fine)
    ensures old(storage.Sound()) ==> storage.Sound()
    ensures old(storage.Sound()) && r.Done? && storage.failures == old(storage.failures) ==>
      ClonedExactly(old(storage.Now()), op, storage.Now())
  {
    storage.Replay();
    ghost var g, log, from := storage.Now(), storage.log, storage.failures;
    r, op, p, ws := StoreClone(storage, cluster, source, target, inheritDeleted, op0);
    CloneSound(g, log, op, p, ws, r, storage.failures == from);
  }

  /** The checks before anything is changed. */
  method CheckClone(storage: Storage, clusterName: Name, targetName: string, targetHost: string, targetPort: int,
                    ghost op: Op)
    returns (r: Outcome<Report>, cluster: ClusterConfig?)
    requires storage.Valid() && '/' !in targetName
    requires op.CloneCluster? && op.source == clusterName && op.target == targetName && op.host == targetHost
      && op.port == targetPort
    modifies storage`calls, storage`failures
    ensures r == Failed(StorageError) || (r.Refused? && Verdict(storage.Now(), op) == Refused(r.reason))
      || (r.Done? && Verdict(storage.Now(), op).Done?)
    ensures r == Failed(StorageError) <==> storage.failures != old(storage.failures)
    ensures r.Done? ==> clusterName != targetName && storage.calls == old(storage.calls) + 2
    ensures r.Done? ==>
      cluster != null && fresh(cluster) && clusterName in storage.Now().clusters
      && cluster.Value() == storage.Now().clusters[clusterName]
  {
    cluster := null;
    if targetHost == "" { return Refused(InvalidHost), null; }
    if targetPort < 1 || targetPort > 65535 { return Refused(InvalidPort), null; }
    var source := LoadClusterEntry(storage, clusterName);
    if source == Failed(NotFound) { return Refused(ClusterMissing), null; }
    if source.Failed? { return Failed(source.error), null; }
    if source.value.disabled { return Refused(ClusterDeleted), null; }
    if targetName == "" { return Refused(EmptyTarget), null; }
    var existing := LoadClusterEntry(storage, targetName);
    if existing == Failed(StorageError) { return Failed(StorageError), null; }
    if existing.Done? { return Refused(DuplicateTarget), null; }
    r, cluster := Done(Report(0, 0, 0)), source.value;
  }

  /** The cluster first, its databases after: an interruption never leaves a database without its cluster. */
  method StoreClone(storage: Storage, cluster: ClusterConfig, source: Name, target: Name, inheritDeleted: bool,
                    ghost op0: Op)
    returns (r: Outcome<Report>, ghost op: Op, ghost p: Progress, ghost ws: seq<Write>)
    requires storage.Valid() && Ready(storage.Now(), op0, cluster.Value())
    requires op0.source == source != target == op0.target && op0.inheritDeleted == inheritDeleted && op0.skip == {}
    modifies storage`data, storage`calls, storage`failures, storage`unacked, storage`log, storage`now
    ensures storage.Valid() && storage.log == old(storage.log) + ws && storage.Now() == ApplyAll(old(storage.Now()), ws)
    ensures op.CloneCluster? && op == Dealing(op0, op.order, op.skip)
    ensures r.Done? || r == Failed(StorageError)
    ensures CloneHandled(old(storage.Now()), op, p, ws, r, storage.failures == old(storage.failures))
    ensures storage.unacked == old(storage.unacked) + p.unacked || r.Failed?
    ensures r.Done? ==> (p.listed <==> storage.faults(old(storage.calls) + 1) == Fine)
  {
    ghost var g := storage.Now();
    op, p := op0, Progress(false, {}, {}, [], 0, 0, 0);
    var acked;
    acked, ws := StoreClusterEntry(storage, target, cluster);
    if acked {
      r, op, p := FinishClone(storage, source, target, inheritDeleted, g, op0, cluster.Value(), ws);
      ws := ws + p.ws;
    } else {
      r := Failed(StorageError);
      op := CloneUnstored(g, op0, cluster.Value(), ws, p);
    }
  }

  method FinishClone(storage: Storage, source: Name, target: Name, inheritDeleted: bool, ghost g: Config, ghost op0: Op,
                     ghost rec: ClusterRecord, ghost ws: seq<Write>)
    returns (r: Outcome<Report>, ghost op: Op, ghost p: Progress)
    requires storage.Valid() && Ready(g, op0, rec) && ws == [PutCluster(target, rec)]
      && storage.Now() == ApplyAll(g, ws)
    requires op0.source == source != target == op0.target && op0.inheritDeleted == inheritDeleted && op0.skip == {}
    modifies storage`data, storage`calls, storage`failures, storage`unacked, storage`log, storage`now
    ensures storage.Valid() && storage.log == old(storage.log) + p.ws && storage.Now() == ApplyAll(g, ws + p.ws)
    ensures op.CloneCluster? && op == Dealing(op0, op.order, op.skip)
    ensures r.Done? && CloneHandled(g, op, p, ws + p.ws, r, storage.failures == old(storage.failures))
    ensures storage.unacked == old(storage.unacked) + p.unacked
    ensures p.listed <==> storage.faults(old(storage.calls)) == Fine
  {
    ghost var from := storage.failures;
    var report;
    ghost var order;
    report, order, p := CloneDbConfig(storage, source, target, inheritDeleted);
    op := CloneComplete(g, op0, rec, order, ws, p, report, storage.failures == from);
    r := Done(report);
  }
}
