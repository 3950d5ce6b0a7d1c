/** Whether the stored root and management logins of the clusters work on their servers. */
module Credentials {
  import opened Records
  import opened Protocol
  import opened Operations
  import opened Runs
  import opened Servers
  import opened Entries
  import opened Fleet
  import opened Databases
  import opened Clusters
  import opened Clone

  /** The configuration and the servers it is about. */
  datatype Site = Site(g: Config, servers: Passwords)

  function EndpointOf(rec: ClusterRecord): Endpoint { Endpoint(rec.host, rec.port) }

  predicate Works(s: Passwords, rec: ClusterRecord) {
    Reachable(s, rec, false) && Reachable(s, rec, true)
  }

  /** Both stored logins of every active cluster work. */
  ghost predicate Healthy(site: Site) {
    forall c | site.g.ActiveCluster(c) :: Works(site.servers, site.g.clusters[c])
  }

  /** No active cluster's root user is its management role. */
  ghost predicate RolesApart(g: Config) {
    forall c | g.ActiveCluster(c) :: g.clusters[c].username != g.clusters[c].managementRole
  }

  predicate Uses(rec: ClusterRecord, ep: Endpoint, user: string) {
    EndpointOf(rec) == ep && (user == rec.username || user == rec.managementRole)
  }

  /** What can happen to a site without any call failing: a request to register a cluster, with the root password it
      gives; a request to clone one; or any writes of the other handlers. */
  datatype SiteStep =
    | Register(c: string, rec: ClusterRecord, password: string)
    | CloneTo(op: Op)
    | Others(ws: seq<Write>)

  /** The requests are legal ones and come with fresh passwords; the other handlers keep to the protocol. */
  ghost predicate Possible(site: Site, step: SiteStep) {
    match step
    case Register(c, rec, password) => Legal(site.g, RegisterCluster(c, rec)) && rec.password != password
    case CloneTo(op) =>
      && op.CloneCluster? && Legal(site.g, op)
      && (op.source in site.g.clusters ==>
            && op.managementPassword != site.g.clusters[op.source].managementPassword
            && op.password != site.g.clusters[op.source].password)
    case Others(ws) => SafeAll(site.g, ws) && forall w | w in ws :: w.PutCluster? ==> w.cluster.disabled
  }

  /** Is the request carried out, rather than turned down by the backend or by the server? */
  predicate Accepted(site: Site, step: SiteStep) {
    match step
    case Register(c, rec, password) =>
      && Verdict(site.g, RegisterCluster(c, rec)).Done?
      && CanLogin(site.servers, EndpointOf(rec), rec.username, password)
      && !HasRole(site.servers, EndpointOf(rec), rec.managementRole)
    case CloneTo(op) =>
      && op.CloneCluster? && Verdict(site.g, op).Done?
      && var source, ep := site.g.clusters[op.source], Endpoint(op.host, op.port);
      && CanLogin(site.servers, ep, source.managementRole, source.managementPassword)
      && CanLogin(site.servers, ep, source.username, source.password)
    case Others(_) => true
  }

  /** A request that is turned down changes nothing. */
  function Next(site: Site, step: SiteStep): Site {
    if !Accepted(site, step) then site else
    match step
    case Register(c, rec, _) =>
      Site(ApplyAll(site.g, Plan(site.g, RegisterCluster(c, rec))),
           Rotated(site.servers, EndpointOf(rec), rec.managementRole, rec.managementPassword, rec.username,
                   rec.password))
    case CloneTo(op) =>
      var source, ep := site.g.clusters[op.source], Endpoint(op.host, op.port);
      Site(ApplyAll(site.g, Plan(site.g, op)),
           Rotated(site.servers, ep, source.managementRole, op.managementPassword, source.username, op.password))
    case Others(ws) => Site(ApplyAll(site.g, ws), site.servers)
  }

  /** No active cluster other than the one registered uses a login whose password the step changes. */
  ghost predicate Unshared(site: Site, step: SiteStep) {
    Accepted(site, step) ==>
      match step
      case Register(c, rec, _) =>
        forall c' | site.g.ActiveCluster(c') && c' != c :: !Uses(site.g.clusters[c'], EndpointOf(rec), rec.username)
      case CloneTo(op) =>
        forall c | site.g.ActiveCluster(c) ::
          && !Uses(site.g.clusters[c], Endpoint(op.host, op.port), site.g.clusters[op.source].username)
          && !Uses(site.g.clusters[c], Endpoint(op.host, op.port), site.g.clusters[op.source].managementRole)
      case Others(_) => true
  }

  /** Changing two passwords breaks exactly the clusters that use one of the two logins. */
  lemma RotationBreaks(s: Passwords, ep: Endpoint, role: string, rolePassword: string, user: string, password: string,
                       rec: ClusterRecord)
    requires ep in s && user in s[ep] && Works(s, rec)
    requires s[ep][user] != password && (role in s[ep] ==> s[ep][role] != rolePassword) && role != user
    ensures Works(Rotated(s, ep, role, rolePassword, user, password), rec) <==>
      !Uses(rec, ep, user) && !Uses(rec, ep, role)
  {}

  lemma RotationWorks(s: Passwords, rec: ClusterRecord)
    requires EndpointOf(rec) in s && rec.username != rec.managementRole
    ensures Works(Rotated(s, EndpointOf(rec), rec.managementRole, rec.managementPassword, rec.username, rec.password),
                  rec)
  {}

  /** After a registration that is carried out all logins work exactly when no other active cluster shared the root
      login. */
  lemma RegistrationKeepsHealth(site: Site, c: string, rec: ClusterRecord, password: string)
    requires Healthy(site) && RolesApart(site.g) && Possible(site, Register(c, rec, password))
    requires Accepted(site, Register(c, rec, password))
    ensures Healthy(Next(site, Register(c, rec, password))) <==> Unshared(site, Register(c, rec, password))
    ensures RolesApart(Next(site, Register(c, rec, password)).g)
  {
    var step, ep := Register(c, rec, password), EndpointOf(rec);
    var after := Next(site, step);
    ApplyOne(site.g, PutCluster(c, rec));
    RotationWorks(site.servers, rec);
    forall c' | site.g.ActiveCluster(c') && c' != c
      ensures Works(after.servers, site.g.clusters[c']) <==> !Uses(site.g.clusters[c'], ep, rec.username)
    {
      assert Works(site.servers, site.g.clusters[c']);
      RotationBreaks(site.servers, ep, rec.managementRole, rec.managementPassword, rec.username, rec.password,
                     site.g.clusters[c']);
    }
    if Healthy(after) {
      forall c' | site.g.ActiveCluster(c') && c' != c ensures !Uses(site.g.clusters[c'], ep, rec.username) {
        assert after.g.ActiveCluster(c');
      }
    }
  }

  lemma CloneBreaks(site: Site, op: Op, c: string)
    requires Healthy(site) && RolesApart(site.g) && Possible(site, CloneTo(op)) && Accepted(site, CloneTo(op))
    requires site.g.ActiveCluster(c)
    ensures var source, ep := site.g.clusters[op.source], Endpoint(op.host, op.port);
      Works(Next(site, CloneTo(op)).servers, site.g.clusters[c]) <==>
        !Uses(site.g.clusters[c], ep, source.username) && !Uses(site.g.clusters[c], ep, source.managementRole)
  {
    var source, ep := site.g.clusters[op.source], Endpoint(op.host, op.port);
    assert site.g.ActiveCluster(op.source);
    assert Works(site.servers, site.g.clusters[c]);
    RotationBreaks(site.servers, ep, source.managementRole, op.managementPassword, source.username, op.password,
                   site.g.clusters[c]);
  }

  lemma CloneWorks(site: Site, op: Op)
    requires RolesApart(site.g) && Possible(site, CloneTo(op)) && Accepted(site, CloneTo(op))
    ensures var rec := CloneRecord(site.g.clusters[op.source], op.host, op.port, op.managementPassword, op.password);
      Works(Next(site, CloneTo(op)).servers, rec) && rec.username != rec.managementRole
  {
    assert site.g.ActiveCluster(op.source);
    RotationWorks(site.servers,
                  CloneRecord(site.g.clusters[op.source], op.host, op.port, op.managementPassword, op.password));
  }

  /** After a clone that is carried out all logins work exactly when no active cluster, the source included, shared a
      login of the source on the clone's endpoint. */
  lemma CloneKeepsHealth(site: Site, op: Op)
    requires Healthy(site) && RolesApart(site.g) && Possible(site, CloneTo(op)) && Accepted(site, CloneTo(op))
    ensures Healthy(Next(site, CloneTo(op))) <==> Unshared(site, CloneTo(op))
    ensures RolesApart(Next(site, CloneTo(op)).g)
  {
    var after := Next(site, CloneTo(op));
    CloneResult(site.g, op);
    CloneWorks(site, op);
    forall c | site.g.ActiveCluster(c) ensures after.g.ActiveCluster(c) && after.g.clusters[c] == site.g.clusters[c] {}
    if Healthy(after) {
      forall c | site.g.ActiveCluster(c) ensures Works(after.servers, site.g.clusters[c]) {
        assert after.g.ActiveCluster(c);
      }
    }
    forall c | site.g.ActiveCluster(c) { CloneBreaks(site, op, c); }
  }

  /** The other handlers bring no cluster to life and leave the active ones' records alone. */
  lemma {:induction false} OthersActivateNothing(g: Config, ws: seq<Write>, c: string)
    requires forall w | w in ws :: (w.PutCluster? ==> w.cluster.disabled)
    ensures ApplyAll(g, ws).ActiveCluster(c) ==> g.ActiveCluster(c) && ApplyAll(g, ws).clusters[c] == g.clusters[c]
  {
    if ws != [] {
      OthersActivateNothing(g, ws[..|ws| - 1], c);
      assert ws[|ws| - 1] in ws;
    }
  }

  lemma OthersKeepHealth(site: Site, ws: seq<Write>)
    requires Healthy(site) && RolesApart(site.g) && Possible(site, Others(ws))
    ensures Healthy(Next(site, Others(ws))) && RolesApart(Next(site, Others(ws)).g)
  {
    var after := Next(site, Others(ws));
    forall c | after.g.ActiveCluster(c)
      ensures Works(site.servers, after.g.clusters[c])
        && after.g.clusters[c].username != after.g.clusters[c].managementRole
    {
      OthersActivateNothing(site.g, ws, c);
    }
  }

  /** Which is what all handlers but registration and clone do. */
  lemma OtherHandlers(g: Config, op: Op)
    requires !op.RegisterCluster? && !op.CloneCluster?
    ensures forall w | w in Plan(g, op) :: (w.PutCluster? ==> w.cluster.disabled)
  {
    if op.DeleteCluster? { DisablesOnly(g, op.c, op.order); }
  }

  lemma {:induction false} DisablesOnly(g: Config, c: string, names: seq<string>)
    ensures forall w | w in DisableWrites(g, c, names) :: w.PutDb?
  {
    if names != [] { DisablesOnly(g, c, names[..|names| - 1]); }
  }

  /** The site after the first n steps, as long as each is allowed where it is made. */
  ghost predicate SiteRun(sites: seq<Site>, steps: seq<SiteStep>) {
    |sites| == |steps| + 1 && forall i | 0 <= i < |steps| ::
        Possible(sites[i], steps[i]) && sites[i + 1] == Next(sites[i], steps[i])
  }

  lemma StepKeepsHealth(site: Site, step: SiteStep)
    requires Healthy(site) && RolesApart(site.g) && Possible(site, step)
    ensures Healthy(Next(site, step)) <==> Unshared(site, step)
    ensures RolesApart(Next(site, step).g)
  {
    if Accepted(site, step) {
      match step
      case Register(c, rec, password) => RegistrationKeepsHealth(site, c, rec, password);
      case CloneTo(op) => CloneKeepsHealth(site, op);
      case Others(ws) => OthersKeepHealth(site, ws);
    }
  }

  lemma {:induction false} HealthUpTo(sites: seq<Site>, steps: seq<SiteStep>, n: nat)
    requires SiteRun(sites, steps) && sites[0].g == EMPTY && n <= |steps|
    requires forall i | 0 <= i < n :: Unshared(sites[i], steps[i])
    ensures Healthy(sites[n]) && RolesApart(sites[n].g)
  {
    if n > 0 {
      HealthUpTo(sites, steps, n - 1);
      StepKeepsHealth(sites[n - 1], steps[n - 1]);
      assert sites[n - 1 + 1] == Next(sites[n - 1], steps[n - 1]);
    }
  }

  lemma {:induction false} SharingBreaks(sites: seq<Site>, steps: seq<SiteStep>, n: nat) returns (k: nat)
    requires SiteRun(sites, steps) && sites[0].g == EMPTY && n < |steps| && !Unshared(sites[n], steps[n])
    ensures k <= |steps| && !Healthy(sites[k])
    decreases n
  {
    if i :| 0 <= i < n && !Unshared(sites[i], steps[i]) {
      k := SharingBreaks(sites, steps, i);
    } else {
      HealthUpTo(sites, steps, n);
      StepKeepsHealth(sites[n], steps[n]);
      k := n + 1;
    }
  }

  /** Over every run that starts without clusters: the logins work after every step, if and only if no step
      changed a login that another active cluster uses. */
  lemma HealthOverRuns(sites: seq<Site>, steps: seq<SiteStep>)
    requires SiteRun(sites, steps) && sites[0].g == EMPTY
    ensures (forall n | 0 <= n <= |steps| :: Healthy(sites[n])) <==>
      forall i | 0 <= i < |steps| :: Unshared(sites[i], steps[i])
  {
    if n :| 0 <= n < |steps| && !Unshared(sites[n], steps[n]) {
      var k := SharingBreaks(sites, steps, n);
    } else {
      forall n | 0 <= n <= |steps| ensures Healthy(sites[n]) { HealthUpTo(sites, steps, n); }
    }
  }

  /** In particular where no two active clusters share an endpoint. */
  lemma OwnEndpointSuffices(site: Site, step: SiteStep, ep: Endpoint)
    requires (step.Register? && ep == EndpointOf(step.rec))
      || (step.CloneTo? && step.op.CloneCluster? && ep == Endpoint(step.op.host, step.op.port))
    requires forall c | site.g.ActiveCluster(c) && !(step.Register? && step.c == c) ::
      EndpointOf(site.g.clusters[c]) != ep
    ensures Unshared(site, step)
  {}

  /** Cloning a cluster onto the endpoint it is itself on is always carried out, and always breaks it. */
  lemma CloneOntoItselfBreaks(site: Site, op: Op)
    requires Healthy(site) && RolesApart(site.g) && Possible(site, CloneTo(op)) && Verdict(site.g, op).Done?
    requires EndpointOf(site.g.clusters[op.source]) == Endpoint(op.host, op.port)
    ensures Accepted(site, CloneTo(op)) && !Healthy(Next(site, CloneTo(op)))
  {
    assert site.g.ActiveCluster(op.source);
    assert Works(site.servers, site.g.clusters[op.source]);
    CloneKeepsHealth(site, op);
    assert Uses(site.g.clusters[op.source], Endpoint(op.host, op.port), site.g.clusters[op.source].username);
  }

  /** Whatever a registration answers, when no call fails it is such a step, and the answer says whether it was
      carried out. The requires are what pathClusterUpdate ensures. */
  lemma RegistrationIsStep(before: Site, after: Site, c: string, data: ClusterFields, role: string,
                           rolePassword: string, newPassword: string, r: Outcome<()>, ws: seq<Write>)
    requires newPassword != data.password && after.g == ApplyAll(before.g, ws)
    requires var op := RegisterCluster(c, Registered(data, role, rolePassword, newPassword));
      && Handles(before.g, Step(op, ws))
        && (r in {Failed(ServerError), Refused(Unreachable)} || r == Verdict(before.g, op))
      && (r.Done? ==> ws == Plan(before.g, op)) && (ws != [] ==> r.Done?)
    requires ServerSide(before.servers, after.servers, Endpoint(data.host, data.port), data.username, data.password,
                        role, rolePassword, newPassword, r.Done? || ws != [], r, true)
    ensures var step := Register(c, Registered(data, role, rolePassword, newPassword), data.password);
      Possible(before, step) && Next(before, step) == after && (r.Done? <==> Accepted(before, step))
  {}

  /** And so is a clone. */
  lemma CloneIsStep(before: Site, after: Site, op: Op, p: Progress, ws: seq<Write>, r: Outcome<Report>)
    requires CloneHandled(before.g, op, p, ws, r, true) && after.g == ApplyAll(before.g, ws)
    requires r.Refused? ==> after.servers == before.servers
    requires op.source in before.g.clusters ==>
      && CloneServerSide(before.g.clusters[op.source], before.servers, after.servers, Endpoint(op.host, op.port),
                         op.managementPassword, op.password, r.Done? || ws != [],
                         r.Refused?, r == Failed(ServerError), true)
      && op.managementPassword != before.g.clusters[op.source].managementPassword
      && op.password != before.g.clusters[op.source].password
    ensures Possible(before, CloneTo(op)) && Next(before, CloneTo(op)) == after
      && (r.Done? <==> Accepted(before, CloneTo(op)))
  {
    assert ws == [] ==> ApplyAll(before.g, ws) == before.g;
  }
}
