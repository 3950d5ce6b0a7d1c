/** The database servers, as far as the root and management logins are concerned. */
module Servers {
  import opened Vault

  datatype Endpoint = Endpoint(host: string, port: int)

  /** Every server's login roles and their passwords. */
  type Passwords = map<Endpoint, map<string, string>>

  predicate CanLogin(s: Passwords, ep: Endpoint, user: string, password: string) {
    ep in s && user in s[ep] && s[ep][user] == password
  }

  predicate HasRole(s: Passwords, ep: Endpoint, user: string) {
    ep in s && user in s[ep]
  }

  function WithPassword(s: Passwords, ep: Endpoint, user: string, password: string): Passwords
    requires ep in s
  {
    s[ep := s[ep][user := password]]
  }

  /** A fresh login role and then a new password for a user. */
  function Rotated(s: Passwords, ep: Endpoint, role: string, rolePassword: string, user: string,
                   password: string): Passwords
    requires ep in s
  {
    WithPassword(WithPassword(s, ep, role, rolePassword), ep, user, password)
  }

  class Postgres {
    var servers: Passwords
    const faults: nat -> Fault
    var calls: nat

    /** How many calls have failed on account of the schedule. */
    ghost var failures: nat

    constructor (servers: Passwords, faults: nat -> Fault)
      ensures this.servers == servers && this.faults == faults && calls == 0 && failures == 0
    {
      this.servers, this.faults, calls, failures := servers, faults, 0, 0;
    }

    /** makeConn: opens a connection and pings the server. */
    method Connect(ep: Endpoint, user: string, password: string) returns (ok: bool)
      modifies this`calls, this`failures
      ensures calls == old(calls) + 1 && failures == old(failures) + if faults(old(calls)) == Fine then 0 else 1
      ensures ok <==> CanLogin(servers, ep, user, password) && failures == old(failures)
    {
      ok := CanLogin(servers, ep, user, password) && faults(calls) == Fine;
      failures := failures + if faults(calls) == Fine then 0 else 1;
      calls := calls + 1;
    }

    /** "create role ... with login password ...": fails when the role exists. */
    method CreateRole(ep: Endpoint, user: string, password: string) returns (ok: bool)
      modifies this
      ensures calls == old(calls) + 1 && failures == old(failures) + if faults(old(calls)) == Fine then 0 else 1
      ensures ok <==> ep in old(servers) && !HasRole(old(servers), ep, user) && failures == old(failures)
      ensures servers == old(servers) ||
        (ep in old(servers) && !HasRole(old(servers), ep, user)
         && servers == WithPassword(old(servers), ep, user, password))
      ensures ok ==> servers == WithPassword(old(servers), ep, user, password)
    {
      var legal := ep in servers && !HasRole(servers, ep, user);
      if legal && faults(calls) != Lost { servers := WithPassword(servers, ep, user, password); }
      ok := legal && faults(calls) == Fine;
      failures := failures + if faults(calls) == Fine then 0 else 1;
      calls := calls + 1;
    }

    /** "alter user ... with password ...": fails when the role does not exist. */
    method SetPassword(ep: Endpoint, user: string, password: string) returns (ok: bool)
      modifies this
      ensures calls == old(calls) + 1 && failures == old(failures) + if faults(old(calls)) == Fine then 0 else 1
      ensures ok <==> HasRole(old(servers), ep, user) && failures == old(failures)
      ensures servers == old(servers) ||
        (HasRole(old(servers), ep, user) && servers == WithPassword(old(servers), ep, user, password))
      ensures ok ==> servers == WithPassword(old(servers), ep, user, password)
    {
      var legal := HasRole(servers, ep, user);
      if legal && faults(calls) != Lost { servers := WithPassword(servers, ep, user, password); }
      ok := legal && faults(calls) == Fine;
      failures := failures + if faults(calls) == Fine then 0 else 1;
      calls := calls + 1;
    }
  }

  /** A database, or a role that owns objects, on a server. */
  datatype Place = Place(ep: Endpoint, name: string)

  /** What initializing databases creates on the servers. */
  class Catalog {
    var databases: set<Place>
    var owners: set<Place>
    const faults: nat -> Fault
    var calls: nat
    ghost var failures: nat

    constructor (databases: set<Place>, owners: set<Place>, faults: nat -> Fault)
      ensures this.databases == databases && this.owners == owners && this.faults == faults
      ensures calls == 0 && failures == 0
    {
      this.databases, this.owners, this.faults, calls, failures := databases, owners, faults, 0, 0;
    }

    /** "create database ...": fails when there is one of that name. */
    method CreateDatabase(ep: Endpoint, name: string) returns (ok: bool)
      modifies this`databases, this`calls, this`failures
      ensures calls == old(calls) + 1 && failures == old(failures) + if faults(old(calls)) == Fine then 0 else 1
      ensures ok <==> Place(ep, name) !in old(databases) && failures == old(failures)
      ensures databases == old(databases)
        || (Place(ep, name) !in old(databases) && databases == old(databases) + {Place(ep, name)})
      ensures ok ==> databases == old(databases) + {Place(ep, name)}
    {
      var legal := Place(ep, name) !in databases;
      if legal && faults(calls) != Lost { databases := databases + {Place(ep, name)}; }
      ok := legal && faults(calls) == Fine;
      failures := failures + if faults(calls) == Fine then 0 else 1;
      calls := calls + 1;
    }

    /** "create role ..." and "grant ..." in one transaction: fails when the role exists, as a role of its kind or as a
        login role, or when the server does not grant the privileges. */
    method SetUpOwner(ep: Endpoint, owner: string, isLogin: bool, granted: bool) returns (ok: bool)
      modifies this`owners, this`calls, this`failures
      ensures calls == old(calls) + 1 && failures == old(failures) + if faults(old(calls)) == Fine then 0 else 1
      ensures ok <==> Place(ep, owner) !in old(owners) && !isLogin && granted && failures == old(failures)
      ensures owners == old(owners)
        || (Place(ep, owner) !in old(owners) && !isLogin && granted && owners == old(owners) + {Place(ep, owner)})
      ensures ok ==> owners == old(owners) + {Place(ep, owner)}
    {
      var legal := Place(ep, owner) !in owners && !isLogin && granted;
      if legal && faults(calls) != Lost { owners := owners + {Place(ep, owner)}; }
      ok := legal && faults(calls) == Fine;
      failures := failures + if faults(calls) == Fine then 0 else 1;
      calls := calls + 1;
    }
  }
}
