/** A client that repeats a delete or a purge until it is answered. With finitely many failing calls it is, and the
    storage is then what one undisturbed call would have left. */
module Retries {
  import opened Paths
  import opened Records
  import opened Operations
  import opened Protocol
  import opened Runs
  import opened Recovery
  import opened Vault
  import opened Clusters
  import opened Gc

  /** From the n-th call on the schedule lets every call through. */
  ghost predicate CalmFrom(faults: nat -> Fault, n: nat) { forall k: nat | k >= n :: faults(k) == Fine }

  /** How many failing calls are still to come. */
  ghost function Ahead(storage: Storage, last: nat): nat
    reads storage
    requires storage.Counted() && CalmFrom(storage.faults, last)
  {
    Bounded(storage, last);
    Failing(storage.faults, last) - storage.failures
  }

  lemma Bounded(storage: Storage, last: nat)
    requires storage.Counted() && CalmFrom(storage.faults, last)
    ensures storage.failures <= Failing(storage.faults, last)
  {
    if storage.calls <= last {
      FailingGrows(storage.faults, storage.calls, last);
    } else {
      FailingGrows(storage.faults, last, storage.calls);
    }
  }

  /** A storage that is sound meets the invariant. */
  lemma SoundIsInv(storage: Storage)
    requires storage.Sound()
    ensures Inv(storage.Now())
  {
    storage.Replay();
    KeptIsInv(storage.log);
  }

  /** One attempt at a delete brings the storage no further from the goal, and an answer means the goal is reached. */
  lemma DeleteAttempted(g: Config, c: string, op: Op, ws: seq<Write>, r: Outcome<()>, calm: bool)
    requires Inv(g) && c in g.clusters && op.DeleteCluster? && op.c == c && Handled(g, op, ws, r, calm)
    ensures c in ApplyAll(g, ws).clusters && Deleted(ApplyAll(g, ws), c) == Deleted(g, c)
    ensures r != Failed(StorageError) ==> ApplyAll(g, ws) == Deleted(g, c)
  {
    OneDeleteAttempt(g, c, Step(op, ws));
    if g.clusters[c].disabled {
      NothingLeftToDelete(g, c, op.order);
    } else {
      DeleteCompletes(g, c, op.order);
    }
  }

  method DeleteUntilAnswered(storage: Storage, c: Name, ghost last: nat) returns (r: Outcome<()>)
    requires storage.Sound() && storage.Counted() && CalmFrom(storage.faults, last) && c in storage.Now().clusters
    modifies storage`data, storage`calls, storage`failures, storage`unacked, storage`log, storage`now
    ensures storage.Sound() && storage.Now() == Deleted(old(storage.Now()), c)
    ensures r in {Done(()), Refused(ClusterDeleted)}
  {
    ghost var goal := Deleted(storage.Now(), c);
    r := Failed(StorageError);
    while r == Failed(StorageError)
      invariant storage.Sound() && storage.Counted() && r in {Done(()), Refused(ClusterDeleted), Failed(StorageError)}
      invariant c in storage.Now().clusters && Deleted(storage.Now(), c) == goal
      invariant r != Failed(StorageError) ==> storage.Now() == goal
      decreases Ahead(storage, last), r == Failed(StorageError)
    {
      SoundIsInv(storage);
      ghost var g, failed, calls := storage.Now(), storage.failures, storage.calls;
      ghost var op, ws;
      r, op, ws := PathClusterDelete(storage, c);
      DeleteAttempted(g, c, op, ws, r, storage.failures == failed);
      Bounded(storage, last);
      FailingGrows(storage.faults, calls, storage.calls);
    }
  }

  /** The same for a purge. Where the cluster's record went unacknowledged, the answer is that it is not found. */
  lemma PurgeAttempted(g: Config, c: string, op: Op, ws: seq<Write>, r: Outcome<()>, calm: bool)
    requires Inv(g) && !g.ActiveCluster(c) && op.PurgeCluster? && op.c == c && Handled(g, op, ws, r, calm)
    ensures !ApplyAll(g, ws).ActiveCluster(c) && Purged(ApplyAll(g, ws), c) == Purged(g, c)
    ensures r != Failed(StorageError) ==> ApplyAll(g, ws) == Purged(g, c) && r in {Done(()), Failed(NotFound)}
  {
    OnePurgeAttempt(g, c, Step(op, ws));
    PurgeNeverActivates(g, c, ws, op.order);
    if c in g.clusters {
      PurgeCompletes(g, c, op.order);
    } else {
      NothingLeftToPurge(g, c, op.order);
    }
  }

  method PurgeUntilAnswered(storage: Storage, c: Name, ghost last: nat) returns (r: Outcome<()>)
    requires storage.Sound() && storage.Counted() && CalmFrom(storage.faults, last) && !storage.Now().ActiveCluster(c)
    modifies storage`data, storage`calls, storage`failures, storage`unacked, storage`log, storage`now
    ensures storage.Sound() && storage.Now() == Purged(old(storage.Now()), c)
    ensures r in {Done(()), Failed(NotFound)}
  {
    ghost var goal := Purged(storage.Now(), c);
    r := Failed(StorageError);
    while r == Failed(StorageError)
      invariant storage.Sound() && storage.Counted() && r in {Done(()), Failed(NotFound), Failed(StorageError)}
      invariant !storage.Now().ActiveCluster(c) && Purged(storage.Now(), c) == goal
      invariant r != Failed(StorageError) ==> storage.Now() == goal
      decreases Ahead(storage, last), r == Failed(StorageError)
    {
      SoundIsInv(storage);
      ghost var g, failed, calls := storage.Now(), storage.failures, storage.calls;
      ghost var op, ws;
      r, op, ws := GcPurgeCluster(storage, c);
      PurgeAttempted(g, c, op, ws, r, storage.failures == failed);
      Bounded(storage, last);
      FailingGrows(storage.faults, calls, storage.calls);
    }
  }
}
