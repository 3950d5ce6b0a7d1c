/** Credential leases beside the configuration they were issued from, and what every history of both keeps. */
module Leases {
  import opened Paths
  import opened Records
  import opened Protocol
  import opened Runs
  import opened Expiry

  /** A login the server has: what it was issued for, the owner role its creation used, when it was issued, and the
      expiry the server was last told. Times are in nanoseconds. */
  datatype Lease = Lease(cluster: string, database: string, role: string, owner: string, issued: int, until: int) {
    function Db(): DbId { DbId(cluster, database) }
  }

  datatype Event =
    | Wrote(w: Write)
    | Issued(user: string, lease: Lease, cap: int)
    | Renewed(user: string, clock: Clock, ttl: int, cap: int)
    | Ended(user: string)

  datatype World = World(g: Config, leases: map<string, Lease>)

  function LeasesAfter(leases: map<string, Lease>, e: Event): map<string, Lease> {
    match e
    case Wrote(_) => leases
    case Issued(user, lease, _) => leases[user := lease]
    case Renewed(user, clock, ttl, _) =>
      if user in leases then leases[user := leases[user].(until := RenewedUntil(clock, ttl))] else leases
    case Ended(user) => leases - {user}
  }

  function LeasesAfterAll(leases: map<string, Lease>, es: seq<Event>): map<string, Lease> {
    if es == [] then leases else LeasesAfter(LeasesAfterAll(leases, es[..|es| - 1]), es[|es| - 1])
  }

  function After(w: World, e: Event): World {
    World(if e.Wrote? then Apply(w.g, e.w) else w.g, LeasesAfter(w.leases, e))
  }

  function AfterAll(w: World, es: seq<Event>): World {
    if es == [] then w else After(AfterAll(w, es[..|es| - 1]), es[|es| - 1])
  }

  // What one event does to the logins.

  predicate Gained(before: map<string, Lease>, after: map<string, Lease>, user: string, lease: Lease) {
    user !in before && user in after && after[user] == lease && after - {user} == before
  }

  predicate Prolonged(before: map<string, Lease>, after: map<string, Lease>, user: string, until: int) {
    && user in before && user in after && after - {user} == before - {user}
    && after[user].cluster == before[user].cluster && after[user].database == before[user].database
    && after[user].role == before[user].role && after[user].owner == before[user].owner
    && after[user].issued == before[user].issued && after[user].until == until
  }

  lemma OneEvent(leases: map<string, Lease>, e: Event)
    ensures var after := LeasesAfterAll(leases, [e]);
      && (e.Issued? && e.user !in leases ==> Gained(leases, after, e.user, e.lease))
      && (e.Renewed? && e.user in leases ==> Prolonged(leases, after, e.user, RenewedUntil(e.clock, e.ttl)))
      && (e.Ended? ==> after == leases - {e.user})
  {
    assert [e][..0] == [];
  }

  /** One event that may happen, if it happens. */
  lemma OneEventHistory(w: World, e: Event, made: seq<Event>)
    requires Enabled(w, e) && (made == [e] || made == [])
    ensures IsHistory(w, made)
  {
    assert made[..0] == [];
  }

  /** The checks shared by issuing and renewing: cluster, database and role are there, the first two not deleted. */
  predicate Usable(g: Config, id: DbId, role: string) {
    g.ActiveCluster(id.cluster) && g.ActiveDb(id) && role in g.roles
  }

  /** What each handler makes sure of before it acts, and what CalculateTTL promises it: no lease outlives the cap. */
  ghost predicate Enabled(w: World, e: Event) {
    match e
    case Wrote(wr) => Safe(w.g, wr)
    case Issued(user, lease, cap) =>
      && user !in w.leases && Usable(w.g, lease.Db(), lease.role)
      && lease.owner == w.g.dbs[lease.Db()].objectsOwner
      && lease.until <= lease.issued + cap
    case Renewed(user, clock, ttl, cap) =>
      && user in w.leases && Usable(w.g, w.leases[user].Db(), w.leases[user].role)
      && clock.Valid() && ttl > 0 && Truncated(clock.asked) + ttl <= Truncated(w.leases[user].issued) + cap
    case Ended(user) =>
      user in w.leases ==> w.leases[user].cluster in w.g.clusters && w.leases[user].Db() in w.g.dbs
  }

  ghost predicate IsHistory(w: World, es: seq<Event>) {
    forall i | 0 <= i < |es| :: Enabled(AfterAll(w, es[..i]), es[i])
  }

  /** The configuration writes of a history. */
  function Written(es: seq<Event>): seq<Write> {
    if es == [] then [] else
    var n := |es| - 1;
    Written(es[..n]) + WrittenBy(es[n])
  }

  lemma {:induction false} HistoryPrefix(w: World, es: seq<Event>, n: nat)
    requires IsHistory(w, es) && n <= |es|
    ensures IsHistory(w, es[..n])
  {
    forall i | 0 <= i < n ensures Enabled(AfterAll(w, es[..n][..i]), es[..n][i]) {
      assert es[..n][..i] == es[..i];
    }
  }

  lemma {:induction false} LastEnabled(w: World, es: seq<Event>)
    requires IsHistory(w, es) && es != []
    ensures IsHistory(w, es[..|es| - 1]) && Enabled(AfterAll(w, es[..|es| - 1]), es[|es| - 1])
  {
    HistoryPrefix(w, es, |es| - 1);
  }

  function WrittenBy(e: Event): seq<Write> { if e.Wrote? then [e.w] else [] }

  lemma ProjectsOne(w: World, ws: seq<Write>, v: World, e: Event)
    requires SafeAll(w.g, ws) && v.g == ApplyAll(w.g, ws) && Enabled(v, e)
    ensures SafeAll(w.g, ws + WrittenBy(e)) && After(v, e).g == ApplyAll(w.g, ws + WrittenBy(e))
  {
    if e.Wrote? {
      SafeSnoc(w.g, ws, e.w);
      ApplySnoc(w.g, ws, e.w);
    } else {
      assert ws + [] == ws;
    }
  }

  lemma {:induction false} WrittenAre(es: seq<Event>)
    ensures forall wr :: wr in Written(es) <==> Wrote(wr) in es
  {
    if es != [] {
      var n := |es| - 1;
      WrittenAre(es[..n]);
      assert es == es[..n] + [es[n]];
    }
  }

  /** The configuration does not notice the leases. */
  lemma {:induction false} Projects(w: World, es: seq<Event>)
    requires IsHistory(w, es)
    ensures SafeAll(w.g, Written(es)) && AfterAll(w, es).g == ApplyAll(w.g, Written(es))
  {
    if es != [] {
      var n := |es| - 1;
      LastEnabled(w, es);
      Projects(w, es[..n]);
      ProjectsOne(w, Written(es[..n]), AfterAll(w, es[..n]), es[n]);
    }
  }

  // Histories are what runs of the handlers make.

  function Recorded(ws: seq<Write>): seq<Event> { seq(|ws|, i requires 0 <= i < |ws| => Wrote(ws[i])) }

  lemma {:induction false} RecordedAfter(w: World, ws: seq<Write>)
    ensures AfterAll(w, Recorded(ws)) == World(ApplyAll(w.g, ws), w.leases)
  {
    if ws != [] {
      var n := |ws| - 1;
      RecordedAfter(w, ws[..n]);
      assert Recorded(ws)[..n] == Recorded(ws[..n]);
    }
  }

  /** Whatever a configuration handler got to write is a history. */
  lemma {:induction false} HandlerMakesHistory(w: World, step: Step)
    requires Inv(w.g) && Handles(w.g, step)
    ensures IsHistory(w, Recorded(step.ws)) && AfterAll(w, Recorded(step.ws)) == World(ApplyAll(w.g, step.ws), w.leases)
  {
    HandlerIsSafe(w.g, step);
    RecordedAfter(w, step.ws);
    forall i | 0 <= i < |step.ws| ensures Enabled(AfterAll(w, Recorded(step.ws)[..i]), Recorded(step.ws)[i]) {
      assert Recorded(step.ws)[..i] == Recorded(step.ws[..i]);
      RecordedAfter(w, step.ws[..i]);
    }
  }

  lemma {:induction false} AfterConcat(w: World, es: seq<Event>, fs: seq<Event>)
    ensures AfterAll(w, es + fs) == AfterAll(AfterAll(w, es), fs)
  {
    if fs == [] {
      assert es + fs == es;
    } else {
      var n := |fs| - 1;
      AfterConcat(w, es, fs[..n]);
      assert (es + fs)[..|es| + n] == es + fs[..n];
    }
  }

  lemma {:induction false} HistoryConcat(w: World, es: seq<Event>, fs: seq<Event>)
    requires IsHistory(w, es) && IsHistory(AfterAll(w, es), fs)
    ensures IsHistory(w, es + fs)
  {
    forall i | 0 <= i < |es + fs| ensures Enabled(AfterAll(w, (es + fs)[..i]), (es + fs)[i]) {
      if i < |es| {
        assert (es + fs)[..i] == es[..i];
      } else {
        assert (es + fs)[..i] == es + fs[..i - |es|];
        AfterConcat(w, es, fs[..i - |es|]);
      }
    }
  }

  /** A handler of the configuration, cut off anywhere, or a handler of leases. */
  datatype Turn = Configuring(step: Step) | Leasing(es: seq<Event>)

  ghost predicate TakesPlace(w: World, turn: Turn) {
    match turn
    case Configuring(step) => Handles(w.g, step)
    case Leasing(es) => IsHistory(w, es)
  }

  function EventsIn(turn: Turn): seq<Event> {
    match turn
    case Configuring(step) => Recorded(step.ws)
    case Leasing(es) => es
  }

  function EventsOf(turns: seq<Turn>): seq<Event> {
    if turns == [] then [] else EventsOf(turns[..|turns| - 1]) + EventsIn(turns[|turns| - 1])
  }

  lemma OneTurn(w: World, turn: Turn)
    requires Inv(w.g) && TakesPlace(w, turn)
    ensures IsHistory(w, EventsIn(turn)) && Inv(AfterAll(w, EventsIn(turn)).g)
  {
    match turn
    case Configuring(step) =>
      HandlerMakesHistory(w, step);
      HandlerIsSafe(w.g, step);
    case Leasing(es) =>
      Projects(w, es);
      InvEverywhere(w.g, Written(es), |Written(es)|);
      assert Written(es)[..|Written(es)|] == Written(es);
  }

  /** Handlers one after the other. */
  ghost predicate InTurn(w: World, turns: seq<Turn>) {
    forall i | 0 <= i < |turns| :: TakesPlace(AfterAll(w, EventsOf(turns[..i])), turns[i])
  }

  lemma LastTurn(w: World, turns: seq<Turn>)
    requires InTurn(w, turns) && turns != []
    ensures var n := |turns| - 1;
      InTurn(w, turns[..n]) && TakesPlace(AfterAll(w, EventsOf(turns[..n])), turns[n])
  {
    var n := |turns| - 1;
    forall i | 0 <= i < n ensures TakesPlace(AfterAll(w, EventsOf(turns[..n][..i])), turns[..n][i]) {
      assert turns[..n][..i] == turns[..i];
    }
  }

  /** Any handlers, one after the other, make a history, and the invariant holds at the end of it. */
  lemma {:induction false} TurnsMakeHistory(w: World, turns: seq<Turn>)
    requires Inv(w.g) && InTurn(w, turns)
    ensures IsHistory(w, EventsOf(turns)) && Inv(AfterAll(w, EventsOf(turns)).g)
  {
    if turns != [] {
      LastTurn(w, turns);
      TurnsMakeHistory(w, turns[..|turns| - 1]);
      NextTurn(w, EventsOf(turns[..|turns| - 1]), turns[|turns| - 1]);
    }
  }

  lemma NextTurn(w: World, done: seq<Event>, turn: Turn)
    requires IsHistory(w, done) && Inv(AfterAll(w, done).g) && TakesPlace(AfterAll(w, done), turn)
    ensures IsHistory(w, done + EventsIn(turn)) && Inv(AfterAll(w, done + EventsIn(turn)).g)
  {
    OneTurn(AfterAll(w, done), turn);
    HistoryConcat(w, done, EventsIn(turn));
    AfterConcat(w, done, EventsIn(turn));
  }

  // Freezing.

  datatype Topic = OfCluster(c: string) | OfDatabase(id: DbId) | OfRole(r: string) {
    predicate Covers(lease: Lease) {
      match this
      case OfCluster(c) => lease.cluster == c
      case OfDatabase(id) => lease.Db() == id
      case OfRole(r) => lease.role == r
    }
  }

  /** Every lease on the topic was there before, exactly as it is now. */
  ghost predicate Frozen(before: map<string, Lease>, after: map<string, Lease>, topic: Topic) {
    forall user | user in after && topic.Covers(after[user]) :: user in before && before[user] == after[user]
  }

  /** Nothing was issued or renewed for the leases in question, hence they are as they were, unless they ended. */
  lemma {:induction false} Untouched(w: World, es: seq<Event>, topic: Topic)
    requires forall i | 0 <= i < |es| :: match es[i]
      case Issued(_, lease, _) => !topic.Covers(lease)
      case Renewed(user, _, _, _) =>
        var leases := AfterAll(w, es[..i]).leases;
        user in leases ==> !topic.Covers(leases[user])
      case _ => true
    ensures Frozen(w.leases, AfterAll(w, es).leases, topic)
  {
    if es != [] {
      var n := |es| - 1;
      assert forall i | 0 <= i < n :: es[..n][..i] == es[..i];
      Untouched(w, es[..n], topic);
    }
  }

  /** Once a cluster is deleted, no lease on it is issued or extended until the cluster is purged. */
  lemma {:induction false} ClusterFreeze(w: World, es: seq<Event>, c: string)
    requires IsHistory(w, es) && w.g.DisabledCluster(c) && Wrote(DelCluster(c)) !in es
    ensures Frozen(w.leases, AfterAll(w, es).leases, OfCluster(c))
  {
    forall i | 0 <= i < |es| ensures AfterAll(w, es[..i]).g.DisabledCluster(c) {
      HistoryPrefix(w, es, i);
      Projects(w, es[..i]);
      WrittenAre(es[..i]);
      DisabledStaysCluster(w.g, Written(es[..i]), c);
    }
    Untouched(w, es, OfCluster(c));
  }

  /** The same for a single database, whatever becomes of its cluster. */
  lemma {:induction false} DatabaseFreeze(w: World, es: seq<Event>, id: DbId)
    requires IsHistory(w, es) && w.g.DisabledDb(id) && Wrote(DelDb(id)) !in es
    ensures Frozen(w.leases, AfterAll(w, es).leases, OfDatabase(id))
  {
    forall i | 0 <= i < |es| ensures AfterAll(w, es[..i]).g.DisabledDb(id) {
      HistoryPrefix(w, es, i);
      Projects(w, es[..i]);
      WrittenAre(es[..i]);
      DisabledStaysDb(w.g, Written(es[..i]), id);
    }
    Untouched(w, es, OfDatabase(id));
  }

  lemma {:induction false} RoleStaysAbsent(g: Config, ws: seq<Write>, r: string)
    requires r !in g.roles && forall w | w in ws :: !(w.PutRole? && w.r == r)
    ensures r !in ApplyAll(g, ws).roles
  {
    if ws != [] {
      RoleStaysAbsent(g, ws[..|ws| - 1], r);
      assert ws[|ws| - 1] in ws;
    }
  }

  /** And for a role: while it is not written again, nothing is issued or renewed under it. */
  lemma RoleFreeze(w: World, es: seq<Event>, r: string)
    requires IsHistory(w, es) && r !in w.g.roles && forall e | e in es :: !(e.Wrote? && e.w.PutRole? && e.w.r == r)
    ensures Frozen(w.leases, AfterAll(w, es).leases, OfRole(r))
  {
    forall i | 0 <= i < |es| ensures r !in AfterAll(w, es[..i]).g.roles {
      HistoryPrefix(w, es, i);
      Projects(w, es[..i]);
      WrittenAre(es[..i]);
      forall wr | wr in Written(es[..i]) ensures !(wr.PutRole? && wr.r == r) { assert Wrote(wr) in es; }
      RoleStaysAbsent(w.g, Written(es[..i]), r);
    }
    Untouched(w, es, OfRole(r));
  }

  // Owners.

  /** A lease that is revoked before its database is purged finds both records, and the owner role its creation used. */
  lemma OwnerAtRevoke(w: World, issue: Event, es: seq<Event>)
    requires Inv(w.g) && issue.Issued? && IsHistory(w, [issue] + es)
    requires Wrote(DelDb(issue.lease.Db())) !in es
    ensures var h, id := AfterAll(w, [issue] + es), issue.lease.Db();
      && id.cluster in h.g.clusters && id in h.g.dbs && h.g.dbs[id].objectsOwner == issue.lease.owner
  {
    assert ([issue] + es)[..0] == [];
    assert Enabled(w, issue);
    Projects(w, [issue] + es);
    WrittenAre([issue] + es);
    OwnerStable(w.g, Written([issue] + es), issue.lease.Db());
  }

  lemma OneStepKeepsOwner(leases: map<string, Lease>, e: Event, user: string)
    requires user in leases && e != Ended(user) && (e.Issued? ==> e.user !in leases)
    ensures user in LeasesAfter(leases, e)
    ensures LeasesAfter(leases, e)[user] == leases[user].(until := LeasesAfter(leases, e)[user].until)
  {}

  /** A lease's owner, database and role never change while it lasts. */
  lemma {:induction false} LeaseKeepsOwner(w: World, es: seq<Event>, user: string)
    requires IsHistory(w, es) && user in w.leases && Ended(user) !in es
    ensures user in AfterAll(w, es).leases
    ensures AfterAll(w, es).leases[user] == w.leases[user].(until := AfterAll(w, es).leases[user].until)
  {
    if es != [] {
      var n := |es| - 1;
      LastEnabled(w, es);
      assert es[n] in es && forall e | e in es[..n] :: e in es;
      LeaseKeepsOwner(w, es[..n], user);
      OneStepKeepsOwner(AfterAll(w, es[..n]).leases, es[n], user);
    }
  }

  // Expiry.

  /** All issues and renewals of a user were capped by cap, and no renewal had more slack than this. */
  ghost predicate Capped(es: seq<Event>, user: string, cap: int, slack: int) {
    forall e | e in es ::
      && (e.Issued? && e.user == user ==> e.cap <= cap)
      && (e.Renewed? && e.user == user ==> e.cap <= cap && Slack(e.clock, e.ttl) <= slack)
  }

  /** Over any sequence of renewals the server is never told a time later than issue, to the second, plus cap plus the
      slack: five seconds and the second boundaries crossed while handling one renewal. */
  lemma {:induction false} UntilBounded(w: World, es: seq<Event>, user: string, cap: int, slack: int)
    requires IsHistory(w, es) && Capped(es, user, cap, slack) && slack >= SECOND
    requires user in w.leases ==> w.leases[user].until <= Truncated(w.leases[user].issued) + cap + slack
    ensures var leases := AfterAll(w, es).leases;
      user in leases ==> leases[user].until <= Truncated(leases[user].issued) + cap + slack
  {
    if es != [] {
      var n := |es| - 1;
      LastEnabled(w, es);
      assert es[n] in es;
      UntilBounded(w, es[..n], user, cap, slack);
      var before := AfterAll(w, es[..n]).leases;
      if es[n].Renewed? { RenewalWithinSlack(es[n].clock, es[n].ttl, before[es[n].user].issued, es[n].cap); }
      if es[n].Issued? { TruncatedBounds(es[n].lease.issued); }
    }
  }
}
