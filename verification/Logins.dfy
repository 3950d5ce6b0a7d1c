/** The server's side of path-creds.go: the credentials it has been told about, and its transactions. */
module Logins {
  import opened Vault
  import opened Leases

  /** What is filled into a statement. */
  datatype Params =
    | Creating(user: string, password: string, expiration: int, objectsOwner: string, group: string)
    | Revoking(user: string, database: string, objectsOwner: string, group: string)

  datatype Call = Call(query: string, params: Params)

  /** unicode.IsSpace */
  predicate IsSpace(c: char) {
    || '\U{0009}' <= c <= '\U{000D}' || c == ' ' || c == '\U{0085}' || c == '\U{00A0}' || c == '\U{1680}'
    || '\U{2000}' <= c <= '\U{200A}' || c == '\U{2028}' || c == '\U{2029}' || c == '\U{202F}' || c == '\U{205F}'
      || c == '\U{3000}'
  }

  /** The characters that are spaces, by number. */
  lemma SpacesAre(c: char)
    ensures IsSpace(c) <==>
      || 9 <= c as int <= 13 || c as int == 32 || c as int == 0x85 || c as int == 0xA0 || c as int == 0x1680
      || 0x2000 <= c as int <= 0x200A || c as int == 0x2028 || c as int == 0x2029 || c as int == 0x202F
      || c as int == 0x205F || c as int == 0x3000
  {}

  // strings.TrimSpace

  /** Position of the first character from i on that is not a space. */
  function Start(s: string, i: nat): (a: nat)
    requires i <= |s|
    ensures i <= a <= |s| && (forall k | i <= k < a :: IsSpace(s[k])) && (a < |s| ==> !IsSpace(s[a]))
    decreases |s| - i
  {
    if i < |s| && IsSpace(s[i]) then Start(s, i + 1) else i
  }

  /** Position after the last character between a and j that is not a space. */
  function Stop(s: string, a: nat, j: nat): (b: nat)
    requires a <= j <= |s|
    ensures a <= b <= j && (forall k | b <= k < j :: IsSpace(s[k])) && (a < b ==> !IsSpace(s[b - 1]))
    decreases j
  {
    if a < j && IsSpace(s[j - 1]) then Stop(s, a, j - 1) else j
  }

  function TrimSpace(s: string): string {
    var a := Start(s, 0);
    s[a..Stop(s, a, |s|)]
  }

  /** The part of s from i to j, with nothing but spaces around it and none at its own ends. */
  predicate Span(s: string, i: nat, j: nat) {
    && i <= j <= |s| && (forall k | 0 <= k < i :: IsSpace(s[k])) && (forall k | j <= k < |s| :: IsSpace(s[k]))
    && (i < j ==> !IsSpace(s[i]) && !IsSpace(s[j - 1]))
  }

  /** There is only one such part, unless all is spaces. */
  lemma OneSpan(s: string, a: nat, b: nat, i: nat, j: nat)
    requires Span(s, a, b) && Span(s, i, j)
    ensures a == b <==> i == j
    ensures a < b ==> a == i && b == j
  {}

  /** What trimming leaves is what lies between the outer spaces, all of it and nothing else. */
  lemma TrimSpaceIs(s: string, i: nat, j: nat)
    requires Span(s, i, j)
    ensures TrimSpace(s) == s[i..j]
  {
    var a := Start(s, 0);
    OneSpan(s, a, Stop(s, a, |s|), i, j);
  }

  lemma SomeSpan(s: string) returns (i: nat, j: nat)
    ensures Span(s, i, j)
  {
    i := Start(s, 0);
    j := Stop(s, i, |s|);
  }

  /** Nothing exactly of a string of spaces. */
  lemma BlankIsSpaces(s: string)
    ensures TrimSpace(s) == "" <==> forall c | c in s :: IsSpace(c)
  {
    var i, j := SomeSpan(s);
    TrimSpaceIs(s, i, j);
    if i < j { assert s[i] in s; }
  }

  /** The statements of a role that are run: each trimmed, the blank ones left out. */
  function Calls(statements: seq<string>, params: Params): seq<Call> {
    if statements == [] then [] else
    var n := |statements| - 1;
    Calls(statements[..n], params) + CallOf(statements[n], params)
  }

  function CallOf(statement: string, params: Params): seq<Call> {
    if TrimSpace(statement) == "" then [] else [Call(TrimSpace(statement), params)]
  }

  /** Would the server carry out the first n statements? */
  ghost predicate AllRun(runs: nat -> bool, n: nat) { forall i: nat | i < n :: runs(i) }

  /** The server's transaction: which statements were sent, and whether the n-th of them can be carried out. Once one
      could not, the transaction has failed, and no later one is. */
  class Transaction {
    var sent: seq<Call>
    const runs: nat -> bool
    var failed: bool

    ghost predicate Valid()
      reads this
    {
      failed <==> !AllRun(runs, |sent|)
    }

    constructor (runs: nat -> bool)
      ensures Valid() && sent == [] && this.runs == runs
    {
      sent, this.runs, failed := [], runs, false;
    }

    /** dbtxn.ExecuteTxQuery */
    method Execute(params: Params, query: string) returns (ok: bool)
      requires Valid()
      modifies this
      ensures Valid() && sent == old(sent) + [Call(query, params)] && (ok <==> AllRun(runs, |sent|))
    {
      ok := !failed && runs(|sent|);
      sent, failed := sent + [Call(query, params)], !ok;
    }
  }

  class Server {
    var leases: map<string, Lease>
    const faults: nat -> Fault
    var calls: nat
    ghost var failures: nat

    constructor (faults: nat -> Fault)
      ensures leases == map[] && this.faults == faults && calls == 0 && failures == 0
    {
      leases, this.faults, calls, failures := map[], faults, 0, 0;
    }

    method Begin() returns (ok: bool)
      modifies this`calls, this`failures
      ensures calls == old(calls) + 1 && failures == old(failures) + if ok then 0 else 1
    {
      ok := faults(calls) == Fine;
      failures := failures + if ok then 0 else 1;
      calls := calls + 1;
    }

    /** Committing a transaction, or a single statement, and what it changes. Altering a login that is not there
        fails. */
    method Carry(e: Event) returns (acked: bool, ghost made: seq<Event>)
      modifies this
      ensures calls == old(calls) + 1 && failures == old(failures) + if faults(old(calls)) == Fine then 0 else 1
      ensures acked <==> faults(old(calls)) == Fine && (e.Renewed? ==> e.user in old(leases))
      ensures made == [e] || (made == [] && !acked)
      ensures made == [e] && e.Renewed? ==> e.user in old(leases)
      ensures leases == LeasesAfterAll(old(leases), made)
    {
      made := [];
      var legal := !e.Renewed? || e.user in leases;
      if legal && faults(calls) != Lost {
        leases := LeasesAfter(leases, e);
        made := [e];
        assert made[..0] == [];
      }
      acked := legal && faults(calls) == Fine;
      failures := failures + if faults(calls) == Fine then 0 else 1;
      calls := calls + 1;
    }

    /** The driver's Commit: a failed transaction is rolled back, which is an error. */
    method Commit(tx: Transaction, e: Event) returns (acked: bool, ghost made: seq<Event>)
      requires tx.Valid() && !e.Renewed?
      modifies this
      ensures calls == old(calls) + 1 && failures == old(failures) + if faults(old(calls)) == Fine then 0 else 1
      ensures acked <==> faults(old(calls)) == Fine && AllRun(tx.runs, |tx.sent|)
      ensures made == [e] || (made == [] && !acked)
      ensures made == [e] ==> AllRun(tx.runs, |tx.sent|)
      ensures leases == LeasesAfterAll(old(leases), made)
    {
      if tx.failed {
        acked, made := false, [];
        failures := failures + if faults(calls) == Fine then 0 else 1;
        calls := calls + 1;
      } else {
        acked, made := Carry(e);
      }
    }
  }

  lemma {:induction false} CallsNext(statements: seq<string>, params: Params, i: nat)
    requires i < |statements|
    ensures Calls(statements[..i + 1], params) == Calls(statements[..i], params) + CallOf(statements[i], params)
  {
    assert statements[..i + 1][..i] == statements[..i];
  }

  lemma {:induction false} CallsPrefix(statements: seq<string>, params: Params, i: nat)
    requires i <= |statements|
    ensures Calls(statements[..i], params) <= Calls(statements, params)
    decreases |statements| - i
  {
    if i == |statements| {
      assert statements[..i] == statements;
    } else {
      CallsPrefix(statements, params, i + 1);
      CallsNext(statements, params, i);
    }
  }

  predicate Blank(statement: string) { forall c | c in statement :: IsSpace(c) }

  /** How many of the first n statements are not blank. */
  function Filled(statements: seq<string>, n: nat): nat
    requires n <= |statements|
  {
    if n == 0 then 0 else Filled(statements, n - 1) + if Blank(statements[n - 1]) then 0 else 1
  }

  lemma {:induction false} CallsCounted(statements: seq<string>, params: Params, n: nat)
    requires n <= |statements|
    ensures |Calls(statements[..n], params)| == Filled(statements, n)
  {
    if n > 0 {
      CallsCounted(statements, params, n - 1);
      NextCounted(statements, params, n - 1);
    }
  }

  lemma NextCounted(statements: seq<string>, params: Params, n: nat)
    requires n < |statements|
    ensures |Calls(statements[..n + 1], params)|
      == |Calls(statements[..n], params)| + if Blank(statements[n]) then 0 else 1
  {
    CallsNext(statements, params, n);
    BlankIsSpaces(statements[n]);
  }

  /** What is sent, in order: as many queries as there are statements that are not blank, the k-th of them what trimming
      leaves of the k-th of these, all with the given parameters. */
  lemma CallsAre(statements: seq<string>, params: Params, i: nat)
    requires i < |statements| && !Blank(statements[i])
    ensures |Calls(statements, params)| == Filled(statements, |statements|) > Filled(statements, i)
    ensures Calls(statements, params)[Filled(statements, i)] == Call(TrimSpace(statements[i]), params)
  {
    CallsCounted(statements, params, i);
    CallsCounted(statements, params, |statements|);
    assert statements[..|statements|] == statements;
    ThenCall(statements, params, i);
    Reaches(Calls(statements[..i], params), Call(TrimSpace(statements[i]), params), Calls(statements, params));
  }

  lemma ThenCall(statements: seq<string>, params: Params, i: nat)
    requires i < |statements| && !Blank(statements[i])
    ensures Calls(statements[..i], params) + [Call(TrimSpace(statements[i]), params)] <= Calls(statements, params)
  {
    BlankIsSpaces(statements[i]);
    CallsNext(statements, params, i);
    CallsPrefix(statements, params, i + 1);
  }

  lemma Reaches(before: seq<Call>, call: Call, all: seq<Call>)
    requires before + [call] <= all
    ensures |before| < |all| && all[|before|] == call
  {
    assert all[|before|] == (before + [call])[|before|];
  }

  /** How many of the first n statements were not carried out: the first that could not be, and all after it. */
  ghost function NotRun(runs: nat -> bool, n: nat): nat {
    if n == 0 then 0 else NotRun(runs, n - 1) + if AllRun(runs, n) then 0 else 1
  }

  lemma {:induction false} NoneNotRun(runs: nat -> bool, n: nat)
    ensures NotRun(runs, n) == 0 <==> AllRun(runs, n)
  {
    if n > 0 {
      NoneNotRun(runs, n - 1);
      assert AllRun(runs, n) ==> AllRun(runs, n - 1);
    }
  }

  /** One statement of either loop: a blank one is passed over. */
  method Send(tx: Transaction, statement: string, params: Params) returns (ok: bool)
    requires tx.Valid()
    modifies tx
    ensures tx.Valid() && tx.sent == old(tx.sent) + CallOf(statement, params)
    ensures NotRun(tx.runs, |tx.sent|) == NotRun(tx.runs, |old(tx.sent)|) + if ok then 0 else 1
    ensures old(!tx.failed) ==> (ok <==> !tx.failed)
  {
    ok := true;
    var query := TrimSpace(statement);
    if |query| != 0 {
      ok := tx.Execute(params, query);
    }
  }

  /** One round of either loop. */
  method SendNext(tx: Transaction, statements: seq<string>, params: Params, i: nat) returns (ok: bool)
    requires tx.Valid() && i < |statements| && tx.sent == Calls(statements[..i], params)
    modifies tx
    ensures tx.Valid() && tx.sent == Calls(statements[..i + 1], params)
    ensures NotRun(tx.runs, |tx.sent|) == NotRun(tx.runs, |old(tx.sent)|) + if ok then 0 else 1
    ensures old(!tx.failed) ==> (ok <==> !tx.failed)
  {
    CallsNext(statements, params, i);
    ok := Send(tx, statements[i], params);
  }

  /** The loop of secretCredsCreate: stops at the first statement that is not carried out. */
  method RunAll(tx: Transaction, statements: seq<string>, params: Params) returns (ok: bool)
    requires tx.Valid() && tx.sent == []
    modifies tx
    ensures tx.Valid() && tx.sent <= Calls(statements, params)
    ensures ok ==> tx.sent == Calls(statements, params)
    ensures NotRun(tx.runs, |tx.sent|) == (if ok then 0 else 1) && (ok <==> !tx.failed)
  {
    var i := 0;
    while i < |statements|
      invariant i <= |statements| && tx.sent == Calls(statements[..i], params)
      invariant tx.Valid() && !tx.failed && NotRun(tx.runs, |tx.sent|) == 0
    {
      CallsPrefix(statements, params, i + 1);
      ok := SendNext(tx, statements, params, i);
      if !ok { return; }
      i := i + 1;
    }
    assert statements[..i] == statements;
    ok := true;
  }

  /** The loop of secretCredsRevoke: goes on past a failing statement, with a warning. */
  method AttemptAll(tx: Transaction, statements: seq<string>, params: Params) returns (warnings: nat)
    requires tx.Valid() && tx.sent == []
    modifies tx
    ensures tx.Valid() && tx.sent == Calls(statements, params) && warnings == NotRun(tx.runs, |tx.sent|)
  {
    var i := 0;
    warnings := 0;
    while i < |statements|
      invariant i <= |statements| && tx.Valid() && tx.sent == Calls(statements[..i], params)
      invariant warnings == NotRun(tx.runs, |tx.sent|)
    {
      var ok := SendNext(tx, statements, params, i);
      if !ok { warnings := warnings + 1; }
      i := i + 1;
    }
    assert statements[..i] == statements;
  }
}
