/** Vault's storage as the handlers see it: get, put, delete and list, any of which may fail. */
module Vault {
  import opened Paths
  import opened Records
  import opened Encoding
  import opened Operations
  import opened Protocol
  import opened Runs

  /** What happens to one call. A call that is not Fine returns an error; a write that is Lost has no effect,
      one that is Unacknowledged has been made all the same. */
  datatype Fault = Fine | Lost | Unacknowledged

  datatype Reply<+T> = Ok(value: T) | Err

  lemma EmptyStoreHolds()
    ensures Holds(map[], EMPTY)
  {}

  lemma PutExtends(data: Store, log: seq<Write>, key: string, rec: Record, w: Write)
    requires Holds(data, ApplyAll(EMPTY, log)) && Puts(key, rec, w)
    ensures Holds(data[key := rec], ApplyAll(EMPTY, log + [w]))
      && ApplyAll(EMPTY, log + [w]) == Apply(ApplyAll(EMPTY, log), w)
  {
    HoldsIsView(data, ApplyAll(EMPTY, log));
    PutView(data, key, rec, w);
    ViewHolds(data[key := rec]);
    ApplySnoc(EMPTY, log, w);
  }

  lemma DelExtends(data: Store, log: seq<Write>, key: string, w: Write)
    requires Holds(data, ApplyAll(EMPTY, log)) && Deletes(key, w)
    ensures Holds(data - {key}, ApplyAll(EMPTY, log + [w]))
      && ApplyAll(EMPTY, log + [w]) == Apply(ApplyAll(EMPTY, log), w)
  {
    HoldsIsView(data, ApplyAll(EMPTY, log));
    DelView(data, key, w);
    ViewHolds(data - {key});
    ApplySnoc(EMPTY, log, w);
  }

  /** How many of the first n calls fail. */
  function Failing(faults: nat -> Fault, n: nat): nat {
    if n == 0 then 0 else Failing(faults, n - 1) + if faults(n - 1) == Fine then 0 else 1
  }

  lemma {:induction false} FailingGrows(faults: nat -> Fault, m: nat, n: nat)
    requires m <= n
    ensures Failing(faults, m) <= Failing(faults, n)
    ensures (forall k | m <= k < n :: faults(k) == Fine) ==> Failing(faults, m) == Failing(faults, n)
  {
    if m < n { FailingGrows(faults, m, n - 1); }
  }

  predicate Look(b: bool) { true }

  /** These writes, from an empty storage, all kept to the protocol. */
  ghost predicate Kept(log: seq<Write>) {
    SafeAll(EMPTY, log)
  }

  /** Every record is at a key of its kind, and the content is the configuration the writes have made of an empty
      storage. The trigger keeps the verifier from unfolding this in handlers, which never look at keys: Unfold and
      Replay say it openly. */
  ghost predicate Holding(data: Store, now: Config, log: seq<Write>) {
    forall b {:trigger Look(b)} :: Look(b) ==> Holds(data, now) && now == ApplyAll(EMPTY, log)
  }

  lemma HoldingView(data: Store, now: Config, log: seq<Write>)
    requires Holding(data, now, log)
    ensures WellKeyed(data) && View(data) == now
  {
    assert Look(true);
    HoldsIsView(data, now);
  }

  class Storage {
    var data: map<string, Record>
    /** The fault schedule: what happens to the n-th call. */
    const faults: nat -> Fault
    var calls: nat
    /** How many calls have failed so far. */
    ghost var failures: nat
    /** How many writes have been made without being acknowledged. */
    ghost var unacked: nat
    /** Every write made so far, in order. */
    ghost var log: seq<Write>

    /** The configuration the writes so far have made of an empty storage. */
    ghost var now: Config

    ghost function Now(): Config
      reads this
    {
      now
    }

    ghost predicate Valid()
      reads this
    {
      Holding(data, now, log)
    }

    lemma Unfold()
      requires Valid()
      ensures Holds(data, Now())
    {
      assert Look(true);
    }

    lemma Replay()
      requires Valid()
      ensures Now() == ApplyAll(EMPTY, log)
    {
      assert Look(true);
    }

    /** All writes so far kept to the protocol. */
    ghost predicate Sound()
      reads this
    {
      Valid() && Kept(log)
    }

    /** The count of failures is that of the schedule. */
    ghost predicate Counted()
      reads this
    {
      failures == Failing(faults, calls)
    }

    constructor (faults: nat -> Fault)
      ensures Counted() && Sound() && Now() == EMPTY && this.faults == faults && calls == 0 && failures == 0
        && unacked == 0 && log == []
    {
      data := map[];
      this.faults := faults;
      calls, failures, unacked := 0, 0, 0;
      log, now := [], EMPTY;
      new;
      EmptyStoreHolds();
    }

    method Get(key: string) returns (r: Reply<Option<Record>>)
      modifies this`calls, this`failures
      ensures calls == old(calls) + 1 && (r.Ok? <==> faults(old(calls)) == Fine)
      ensures failures == old(failures) + if r.Ok? then 0 else 1
      ensures r.Ok? ==> r.value == if key in data then Some(data[key]) else None
    {
      r := if faults(calls) != Fine then Err else Ok(if key in data then Some(data[key]) else None);
      failures := failures + if r.Ok? then 0 else 1;
      calls := calls + 1;
    }

    method Put(key: string, rec: Record, ghost w: Write) returns (acked: bool, ghost made: seq<Write>)
      requires Valid() && Puts(key, rec, w)
      modifies this`data, this`calls, this`failures, this`unacked, this`log, this`now
      ensures Valid() && calls == old(calls) + 1 && (acked <==> faults(old(calls)) == Fine)
      ensures failures == old(failures) + (if acked then 0 else 1)
      ensures unacked == old(unacked) + if made != [] && !acked then 1 else 0
      ensures made == [w] || (made == [] && !acked)
      ensures log == old(log) + made && Now() == ApplyAll(old(Now()), made)
    {
      made := [];
      if faults(calls) != Lost {
        Store(key, rec, w);
        ApplyOne(old(Now()), w);
        made := [w];
      }
      acked := faults(calls) == Fine;
      failures := failures + if acked then 0 else 1;
      unacked := unacked + if made != [] && !acked then 1 else 0;
      calls := calls + 1;
    }

    method Delete(key: string, ghost w: Write) returns (acked: bool, ghost made: seq<Write>)
      requires Valid() && Deletes(key, w)
      modifies this`data, this`calls, this`failures, this`unacked, this`log, this`now
      ensures Valid() && calls == old(calls) + 1 && (acked <==> faults(old(calls)) == Fine)
      ensures failures == old(failures) + (if acked then 0 else 1)
      ensures unacked == old(unacked) + if made != [] && !acked then 1 else 0
      ensures made == [w] || (made == [] && !acked)
      ensures log == old(log) + made && Now() == ApplyAll(old(Now()), made)
    {
      made := [];
      if faults(calls) != Lost {
        Remove(key, w);
        ApplyOne(old(Now()), w);
        made := [w];
      }
      acked := faults(calls) == Fine;
      failures := failures + if acked then 0 else 1;
      unacked := unacked + if made != [] && !acked then 1 else 0;
      calls := calls + 1;
    }

    method Store(key: string, rec: Record, ghost w: Write)
      requires Valid() && Puts(key, rec, w)
      modifies this`data, this`log, this`now
      ensures Valid()
      ensures log == old(log) + [w] && Now() == Apply(old(Now()), w)
    {
      Unfold();
      Replay();
      PutExtends(data, log, key, rec, w);
      Become(data[key := rec], log + [w]);
    }

    method Remove(key: string, ghost w: Write)
      requires Valid() && Deletes(key, w)
      modifies this`data, this`log, this`now
      ensures Valid()
      ensures log == old(log) + [w] && Now() == Apply(old(Now()), w)
    {
      Unfold();
      Replay();
      DelExtends(data, log, key, w);
      Become(data - {key}, log + [w]);
    }

    method Become(data': map<string, Record>, ghost log': seq<Write>)
      requires Holds(data', ApplyAll(EMPTY, log'))
      modifies this`data, this`log, this`now
      ensures Valid() && data == data' && log == log' && now == ApplyAll(EMPTY, log')
    {
      data, log, now := data', log', ApplyAll(EMPTY, log');
    }

    /** The immediate children of a prefix, each once, in whatever order. */
    method List(prefix: string) returns (r: Reply<seq<string>>)
      modifies this`calls, this`failures
      ensures calls == old(calls) + 1 && (r.Ok? <==> faults(old(calls)) == Fine)
      ensures failures == old(failures) + if r.Ok? then 0 else 1
      ensures r.Ok? ==> Listing(r.value, Children(data.Keys, prefix))
    {
      var left := set k | k in data.Keys && prefix <= k :: Child(k[|prefix|..]);
      var names: seq<string> := [];
      while left != {}
        invariant left <= Children(data.Keys, prefix)
        invariant Listing(names, Children(data.Keys, prefix) - left)
        decreases left
      {
        var n :| n in left;
        names := names + [n];
        left := left - {n};
      }
      r := if faults(calls) != Fine then Err else Ok(names);
      failures := failures + if r.Ok? then 0 else 1;
      calls := calls + 1;
    }
  }

  lemma {:induction false} KeptIsInv(log: seq<Write>)
    ensures Kept(log) ==> Inv(ApplyAll(EMPTY, log))
  {
    if Kept(log) {
      assert log[..|log|] == log;
      InvEverywhere(EMPTY, log, |log|);
    }
  }

  /** A log extended by what some handler may write still keeps to the protocol. */
  lemma {:induction false} StaysSound(g: Config, log: seq<Write>, op: Op, ws: seq<Write>)
    requires g == ApplyAll(EMPTY, log) && Handles(g, Step(op, ws))
    ensures Kept(log) ==> Kept(log + ws)
  {
    if Kept(log) {
      KeptIsInv(log);
      HandlerIsSafe(ApplyAll(EMPTY, log), Step(op, ws));
      SafeConcat(EMPTY, log, ws);
    }
  }

  lemma SomeListing(children: set<string>) returns (names: seq<string>)
    ensures Listing(names, children)
    decreases children
  {
    if children == {} {
      names := [];
    } else {
      var n :| n in children;
      names := SomeListing(children - {n});
      names := names + [n];
    }
  }

  /** What every writing handler guarantees about the configuration g it started from: it made a prefix of its
      planned writes; unless a storage call failed, it made all of them and gave the right answer. */
  ghost predicate Handled(g: Config, op: Op, ws: seq<Write>, r: Outcome<()>, calm: bool) {
    && Handles(g, Step(op, ws))
    && (r != Failed(StorageError) ==> ws == Plan(g, op) && r == Verdict(g, op))
    && (calm ==> r != Failed(StorageError))
  }
}
