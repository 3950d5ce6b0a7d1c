/** What a clone does to the storage when its target contains a slash, which nothing checks: it can run into the path of
    another cluster, whose delete, purge and listings then fail for good. And what becomes of metadata about a cluster
    whose name contains one. */
module Slashes {
  import opened Paths
  import opened Records
  import opened Encoding
  import opened Listings
  import opened KeyLevel

  /** Under cluster c a folder is listed for which there is no record. */
  ghost predicate Jammed(s: Store, c: string) {
    exists n :: n in Children(s.Keys, DatabaseKey(c, "")) && DatabaseKey(c, n) !in s
  }

  /** Then every delete, purge and listing of c gives up, whatever the order and whatever else is stored. */
  lemma JammedGivesUp(s: Store, c: string, order: seq<string>, deleted: bool)
    requires Jammed(s, c) && Listing(order, Children(s.Keys, DatabaseKey(c, "")))
    ensures DisableRounds(s, c, order).GaveUp? && DropRounds(s, c, order).GaveUp?
      && ListRounds(s, c, order, deleted).None?
  {
    var n :| n in Children(s.Keys, DatabaseKey(c, "")) && DatabaseKey(c, n) !in s;
    MissingGivesUp(s, c, order, n, deleted);
  }

  lemma {:induction false} MissingGivesUp(s: Store, c: string, names: seq<string>, missing: string, deleted: bool)
    requires DatabaseKey(c, missing) !in s
    ensures DatabaseKey(c, missing) !in DisableRounds(s, c, names).s
      && DatabaseKey(c, missing) !in DropRounds(s, c, names).s
    ensures missing in names ==>
      DisableRounds(s, c, names).GaveUp? && DropRounds(s, c, names).GaveUp? && ListRounds(s, c, names, deleted).None?
  {
    if names != [] {
      MissingGivesUp(s, c, names[..|names| - 1], missing, deleted);
      assert names == names[..|names| - 1] + [names[|names| - 1]];
    }
  }

  /** A single segment and a slash at its end. */
  predicate LoneSegment(below: string) {
    below != "" && FirstSlash(below) == |below| - 1
  }

  /** The targets that jam cluster c: those on its database path, except a single segment with a slash at its end. */
  predicate Jams(target: string, c: string) {
    && c + DATABASE_INFIX <= target + "/"
    && !(c + DATABASE_INFIX <= target && LoneSegment(target[|c + DATABASE_INFIX|..]))
  }

  /** Those that do so even if nothing is copied: there is a slash inside what follows the path. */
  predicate JamsBare(target: string, c: string) {
    c + DATABASE_INFIX <= target && !IsLeaf(target[|c + DATABASE_INFIX|..])
  }

  /** Without a slash but at the end: what a listing can show. */
  predicate IsLeaf(n: string) {
    FirstSlash(n) >= |n| - 1
  }

  /** Is anything copied? If the source has a database that is wanted, or if the target's own record is listed as one of
      the source's. */
  ghost predicate CopiesSome(s: Store, source: string, target: string, inheritDeleted: bool) {
    || (exists e :: Wanted(s, source, inheritDeleted, e))
    || (source + DATABASE_INFIX <= target && IsLeaf(target[|source + DATABASE_INFIX|..]))
  }

  /** Of any cluster, onto any target with a slash: which clusters a clone jams, the source included. */
  lemma SlashedCloneJams(s: Store, source: Name, target: string, rec: ClusterRecord, inheritDeleted: bool,
                         names: seq<string>, c: Name)
    requires WellKeyed(s) && '/' in target && !rec.disabled
    requires Listing(names, Children(s[ClusterKey(target) := ClusterRec(rec)].Keys, DatabaseKey(source, "")))
    ensures Jammed(CloneRounds(s, source, target, rec, inheritDeleted, names), c) <==>
      JamsBare(target, c) || (Jams(target, c) && CopiesSome(s, source, target, inheritDeleted))
  {
    var t := CloneRounds(s, source, target, rec, inheritDeleted, names);
    CloneLeavesThese(s, source, target, rec, inheritDeleted, names);
    NamesAreLeaves(s, source, target, rec, names);
    SomeAreCopied(s, source, target, rec, inheritDeleted, names);
    if Jammed(t, c) {
      var n :| n in Children(t.Keys, DatabaseKey(c, "")) && DatabaseKey(c, n) !in t;
      JamIsOnPath(s, t, target, names, c, n);
    }
    if JamsBare(target, c) { TargetJams(s, source, t, target, names, c); }
    if Jams(target, c) && CopiesSome(s, source, target, inheritDeleted) {
      var d :| d in names && DatabaseKey(target, d) in t;
      CopyJams(s, source, t, target, names, d, c);
    }
  }

  /** Which keys a clone leaves: the old ones, the target's, and keys of listed names below the target. */
  ghost predicate CloneLeaves(s: Store, t: Store, target: string, names: seq<string>) {
    && (forall k | k in s :: k in t) && ClusterKey(target) in t
    && (forall k | k in t :: k in s || k == ClusterKey(target) || exists d | d in names :: k == DatabaseKey(target, d))
  }

  lemma CloneLeavesThese(s: Store, source: string, target: string, rec: ClusterRecord, inheritDeleted: bool,
                         names: seq<string>)
    ensures CloneLeaves(s, CloneRounds(s, source, target, rec, inheritDeleted, names), target, names)
  {
    var u := s[ClusterKey(target) := ClusterRec(rec)];
    forall k | k in u ensures k in CopyRounds(u, source, target, inheritDeleted, names) {
      CopyKeys(u, source, target, inheritDeleted, names, k);
    }
    forall k | k in CopyRounds(u, source, target, inheritDeleted, names) && k !in u
      ensures exists d | d in names :: k == DatabaseKey(target, d)
    {
      CopyKeys(u, source, target, inheritDeleted, names, k);
    }
  }

  /** On the path of one cluster is not on the path of another. */
  lemma OnePath(target: string, c: Name)
    requires c + DATABASE_INFIX <= target + "/"
    ensures |c| < |target| && target[..|c|] == c && FirstSlash(target) == |c|
  {
    var root := c + DATABASE_INFIX;
    assert root[..|c|] == c && root[|c|] == '/' && |root| == |c| + 10;
    FirstOf(root, target, c);
  }

  lemma FirstOf(root: string, target: string, c: Name)
    requires root <= target + "/" && |c| + 1 < |root| && root[..|c|] == c && root[|c|] == '/'
    ensures |c| < |target| && target[..|c|] == c && FirstSlash(target) == |c|
  {
    assert target[..|c|] == root[..|c|] && target[|c|] == root[|c|];
    assert target == c + target[|c|..];
    FirstSlashAt(c, target[|c|..]);
  }

  /** A key below the target, seen from the cluster on whose path the target is. */
  lemma BelowPath(target: string, d: string, c: string)
    requires c + DATABASE_INFIX <= target + "/"
    ensures DatabaseKey(target, d) == DatabaseKey(c, "") + ((target + "/")[|c + DATABASE_INFIX|..] + "database/" + d)
  {
    var x := (target + "/")[|c + DATABASE_INFIX|..];
    assert target + "/" == c + DATABASE_INFIX + x;
    assert target + DATABASE_INFIX + d == target + "/" + "database/" + d;
    assert DatabaseKey(target, d) == CLUSTER_ROOT + (target + DATABASE_INFIX + d);
    assert DatabaseKey(c, "") + (x + "database/" + d) == CLUSTER_ROOT + (c + DATABASE_INFIX + x + "database/" + d);
  }

  lemma KeyIsTarget(target: string, c: string, below: string)
    ensures ClusterKey(target) == DatabaseKey(c, below) <==> target == c + DATABASE_INFIX + below
  {
    assert DatabaseKey(c, below) == CLUSTER_ROOT + (c + DATABASE_INFIX + below);
    DropRoot(CLUSTER_ROOT, target);
    DropRoot(CLUSTER_ROOT, c + DATABASE_INFIX + below);
  }

  /** So a clone onto the path of a registered database is refused as a duplicate; of any other it is not. */
  lemma TargetHitsDatabase(s: Store, c: Name, d: Name)
    requires WellKeyed(s)
    ensures ClusterKey(c + DATABASE_INFIX + d) in s <==> DbId(c, d) in View(s).dbs
  {
    KeyIsTarget(c + DATABASE_INFIX + d, c, d);
    GetDb(s, c, d);
  }

  /** For instance: every path of a database, registered or not, jams the cluster it is a path of. */
  lemma DatabasePathJams(c: Name, d: Name)
    ensures Jams(c + DATABASE_INFIX + d, c) && Jams("c/database/d", "c")
  {
    var target, root := c + DATABASE_INFIX + d, c + DATABASE_INFIX;
    assert target[|root|..] == d && root <= target + "/";
    assert FirstSlash(d) == |d| by { FirstSlashAt(d, ""); assert d + "" == d; }
    assert "c/database/d" == "c" + DATABASE_INFIX + "d" && "c/database/d"[|"c" + DATABASE_INFIX|..] == "d";
    assert FirstSlash("d") == 1;
  }

  /** So cloning onto the path of a database, which is refused only where that is registered, makes every later delete,
      purge and listing of its cluster give up: of any other cluster, provided a database is copied, and of the source
      itself, even where it has no databases. */
  lemma CloneOntoDatabasePath(s: Store, source: Name, c: Name, d: Name, rec: ClusterRecord, inheritDeleted: bool,
                              names: seq<string>, order: seq<string>, deleted: bool)
    requires WellKeyed(s) && !rec.disabled && (c == source || exists e :: Wanted(s, source, inheritDeleted, e))
    requires var target := c + DATABASE_INFIX + d;
      && Listing(names, Children(s[ClusterKey(target) := ClusterRec(rec)].Keys, DatabaseKey(source, "")))
      && Listing(order, Children(CloneRounds(s, source, target, rec, inheritDeleted, names).Keys, DatabaseKey(c, "")))
    ensures var t := CloneRounds(s, source, c + DATABASE_INFIX + d, rec, inheritDeleted, names);
      DisableRounds(t, c, order).GaveUp? && DropRounds(t, c, order).GaveUp? && ListRounds(t, c, order, deleted).None?
  {
    var target := c + DATABASE_INFIX + d;
    DatabasePathJams(c, d);
    NameIsLeaf(d);
    assert target[|c|] == '/' && target[|c + DATABASE_INFIX|..] == d;
    SlashedCloneJams(s, source, target, rec, inheritDeleted, names, c);
    JammedGivesUp(CloneRounds(s, source, target, rec, inheritDeleted, names), c, order, deleted);
  }

  // Leaves.

  lemma NameIsLeaf(d: string)
    requires '/' !in d
    ensures IsLeaf(d)
  {
    FirstSlashAt(d, "");
    assert d + "" == d;
  }

  lemma ChildIsLeaf(below: string)
    ensures IsLeaf(Child(below)) && (Child(below) == "" ==> below == "")
    ensures IsLeaf(below) <==> Child(below) == below
  {
    var i := FirstSlash(below);
    if i < |below| {
      FirstSlashAt(below[..i], "/");
      assert below[..i + 1] == below[..i] + "/";
      if i == |below| - 1 { assert below[..i + 1] == below; }
    }
  }

  lemma SlashEndsLeaf(n: string, i: nat)
    requires IsLeaf(n) && i < |n| && n[i] == '/'
    ensures i == |n| - 1
  {}

  /** The names a clone goes through. The empty one is among them only if the target is the source's own folder. */
  ghost predicate Leaves(source: string, target: string, names: seq<string>) {
    forall d | d in names :: IsLeaf(d) && (d == "" ==> target == source + DATABASE_INFIX)
  }

  lemma NamesAreLeaves(s: Store, source: Name, target: string, rec: ClusterRecord, names: seq<string>)
    requires WellKeyed(s)
    requires Listing(names, Children(s[ClusterKey(target) := ClusterRec(rec)].Keys, DatabaseKey(source, "")))
    ensures Leaves(source, target, names)
  {
    var keys := s[ClusterKey(target) := ClusterRec(rec)].Keys;
    forall d | d in names ensures IsLeaf(d) && (d == "" ==> target == source + DATABASE_INFIX) {
      var below := FromChildren(keys, DatabaseKey(source, ""), d);
      ChildIsLeaf(below);
      if d == "" {
        assert DatabaseKey(source, "") + below == DatabaseKey(source, "");
        EmptyIsTarget(s, source, target);
      }
    }
  }

  lemma EmptyIsTarget(s: Store, source: Name, target: string)
    requires WellKeyed(s) && (DatabaseKey(source, "") in s || DatabaseKey(source, "") == ClusterKey(target))
    ensures target == source + DATABASE_INFIX
  {
    GetDb(s, source, "");
    KeyIsTarget(target, source, "");
    assert source + DATABASE_INFIX + "" == source + DATABASE_INFIX;
  }

  /** A key below the target never ends in a leaf, seen from any cluster. */
  lemma CopyIsNoLeaf(target: string, d: string, source: Name, c: Name, n: string)
    requires '/' in target && IsLeaf(n) && (d == "" ==> target == source + DATABASE_INFIX)
    ensures DatabaseKey(target, d) != DatabaseKey(c, n)
  {
    if DatabaseKey(target, d) == DatabaseKey(c, n) {
      CopySeen(target, d, c, n);
      var x := (target + "/")[|c + DATABASE_INFIX|..];
      SlashEndsLeaf(n, |x| + 8);
      OwnFolder(target, source, c);
      assert false;
    }
  }

  lemma CopySeen(target: string, d: string, c: Name, n: string)
    requires '/' in target && DatabaseKey(target, d) == DatabaseKey(c, n)
    ensures c + DATABASE_INFIX <= target + "/"
    ensures var x := (target + "/")[|c + DATABASE_INFIX|..];
      n == x + "database/" + d && |n| == |x| + 9 + |d| && n[|x| + 8] == '/' && (x != "" ==> n[0] == x[0])
  {
    OnPathOf(target, d, c, n);
    BelowPath(target, d, c);
    assert DatabaseKey(c, n) == DatabaseKey(c, "") + n;
    SameTail(DatabaseKey(c, ""), n, (target + "/")[|c + DATABASE_INFIX|..] + "database/" + d);
  }

  lemma OwnFolder(target: string, source: Name, c: Name)
    requires target == source + DATABASE_INFIX && c + DATABASE_INFIX <= target + "/"
    ensures (target + "/")[|c + DATABASE_INFIX|..] == "/"
  {
    OnePath(target, c);
    assert source + DATABASE_INFIX <= target + "/";
    OnePath(target, source);
    assert c == source;
    assert (target + "/")[|target|..] == "/";
  }

  lemma CopiesApart(source: Name, target: string, names: seq<string>)
    requires '/' in target && Leaves(source, target, names)
    ensures Apart(source, target, names)
  {
    forall d, e | d in names && e in names ensures DatabaseKey(target, d) != DatabaseKey(source, e) {
      CopyIsNoLeaf(target, d, source, source, e);
    }
  }

  // What is copied.

  lemma SomeAreCopied(s: Store, source: Name, target: string, rec: ClusterRecord, inheritDeleted: bool,
                      names: seq<string>)
    requires WellKeyed(s) && '/' in target && !rec.disabled && Leaves(source, target, names)
    requires Listing(names, Children(s[ClusterKey(target) := ClusterRec(rec)].Keys, DatabaseKey(source, "")))
    ensures var t := CloneRounds(s, source, target, rec, inheritDeleted, names);
      CopiesSome(s, source, target, inheritDeleted) <==> exists d :: d in names && DatabaseKey(target, d) in t
  {
    var u, t := s[ClusterKey(target) := ClusterRec(rec)], CloneRounds(s, source, target, rec, inheritDeleted, names);
    CopiesApart(source, target, names);
    if CopiesSome(s, source, target, inheritDeleted) {
      var e := SomeIsListed(s, source, target, rec, inheritDeleted, names);
      CopyMade(u, source, target, inheritDeleted, names, e);
    }
    if d :| d in names && DatabaseKey(target, d) in t {
      NothingBelowPath(s, target, d);
      assert |DatabaseKey(target, d)| > |ClusterKey(target)|;
      var e := CopyWasWanted(u, source, target, inheritDeleted, names, DatabaseKey(target, d));
      WantedInStart(s, source, target, rec, inheritDeleted, e);
    }
  }

  lemma WantedInStart(s: Store, source: Name, target: string, rec: ClusterRecord, inheritDeleted: bool, e: string)
    requires IsLeaf(e) && Wanted(s[ClusterKey(target) := ClusterRec(rec)], source, inheritDeleted, e)
    ensures CopiesSome(s, source, target, inheritDeleted)
  {
    if DatabaseKey(source, e) == ClusterKey(target) {
      KeyIsTarget(target, source, e);
      assert target[|source + DATABASE_INFIX|..] == e;
    } else {
      assert Wanted(s, source, inheritDeleted, e);
    }
  }

  lemma SomeIsListed(s: Store, source: Name, target: string, rec: ClusterRecord, inheritDeleted: bool,
                     names: seq<string>) returns (e: string)
    requires WellKeyed(s) && !rec.disabled && CopiesSome(s, source, target, inheritDeleted)
    requires Listing(names, Children(s[ClusterKey(target) := ClusterRec(rec)].Keys, DatabaseKey(source, "")))
    ensures e in names && Wanted(s[ClusterKey(target) := ClusterRec(rec)], source, inheritDeleted, e)
  {
    var u := s[ClusterKey(target) := ClusterRec(rec)];
    if d :| Wanted(s, source, inheritDeleted, d) {
      e := d;
      IsListed(s, u.Keys, source, e);
    } else {
      e := target[|source + DATABASE_INFIX|..];
      assert target == source + DATABASE_INFIX + e;
      KeyIsTarget(target, source, e);
      ChildIsLeaf(e);
      LeafIsListed(u.Keys, source, e);
    }
  }

  // What is jammed.

  lemma JamIsOnPath(s: Store, t: Store, target: string, names: seq<string>, c: Name, n: string)
    requires WellKeyed(s) && '/' in target && CloneLeaves(s, t, target, names)
    requires n in Children(t.Keys, DatabaseKey(c, "")) && DatabaseKey(c, n) !in t
    ensures JamsBare(target, c) || (Jams(target, c) && exists d :: d in names && DatabaseKey(target, d) in t)
  {
    var below := FromChildren(t.Keys, DatabaseKey(c, ""), n);
    assert DatabaseKey(c, "") + below == DatabaseKey(c, below);
    KeyIsTarget(target, c, n);
    if DatabaseKey(c, below) in s {
      OldKeyIsLeaf(s, c, below);
      assert false;
    } else if DatabaseKey(c, below) == ClusterKey(target) {
      KeyIsTarget(target, c, below);
      ChildIsLeaf(below);
      assert target[|c + DATABASE_INFIX|..] == below;
    } else {
      var d :| d in names && DatabaseKey(c, below) == DatabaseKey(target, d);
      DeepTarget(target, d, c, below);
    }
  }

  /** The target's own record jams where it is not directly below the cluster's databases. */
  lemma TargetJams(s: Store, source: Name, t: Store, target: string, names: seq<string>, c: Name)
    requires WellKeyed(s) && '/' in target && CloneLeaves(s, t, target, names) && Leaves(source, target, names)
    requires JamsBare(target, c)
    ensures Jammed(t, c)
  {
    var below := target[|c + DATABASE_INFIX|..];
    assert target == c + DATABASE_INFIX + below;
    KeyIsTarget(target, c, below);
    ChildIsLeaf(below);
    KeyIsTarget(target, c, Child(below));
    assert DatabaseKey(c, "") + below == DatabaseKey(c, below);
    InChildren(t.Keys, DatabaseKey(c, ""), below);
    SameTail(c + DATABASE_INFIX, below, below);
    NoLeafThere(s, source, t, target, names, c, Child(below));
  }

  /** A copy jams where its folder is not the target. */
  lemma CopyJams(s: Store, source: Name, t: Store, target: string, names: seq<string>, e: string, c: Name)
    requires WellKeyed(s) && '/' in target && CloneLeaves(s, t, target, names) && Leaves(source, target, names)
    requires Jams(target, c) && DatabaseKey(target, e) in t
    ensures Jammed(t, c)
  {
    BelowPath(target, e, c);
    var x := (target + "/")[|c + DATABASE_INFIX|..];
    var below := x + "database/" + e;
    InChildren(t.Keys, DatabaseKey(c, ""), below);
    assert below == x + ("database" + "/") + e;
    HasFolder(x, "database", e);
    LoneChild(target, c, below);
    ChildIsLeaf(below);
    NoLeafThere(s, source, t, target, names, c, Child(below));
  }

  /** A folder's name is no key, unless it is the target's. */
  lemma NoLeafThere(s: Store, source: Name, t: Store, target: string, names: seq<string>, c: Name, n: string)
    requires WellKeyed(s) && '/' in target && CloneLeaves(s, t, target, names) && Leaves(source, target, names)
    requires IsLeaf(n) && IsFolder(n) && target != c + DATABASE_INFIX + n
    ensures DatabaseKey(c, n) !in t
  {
    GetDb(s, c, n);
    KeyIsTarget(target, c, n);
    forall d | d in names ensures DatabaseKey(c, n) != DatabaseKey(target, d) {
      CopyIsNoLeaf(target, d, source, c, n);
    }
  }

  lemma OldKeyIsLeaf(s: Store, c: Name, below: string)
    requires WellKeyed(s) && DatabaseKey(c, below) in s
    ensures Child(below) == below
  {
    GetDb(s, c, below);
    ChildOfName(below);
  }

  lemma DeepTarget(target: string, d: string, c: Name, below: string)
    requires '/' in target && DatabaseKey(target, d) == DatabaseKey(c, below)
      && target != c + DATABASE_INFIX + Child(below)
    ensures Jams(target, c)
  {
    OnPathOf(target, d, c, below);
    BelowPath(target, d, c);
    var root := c + DATABASE_INFIX;
    assert DatabaseKey(c, below) == DatabaseKey(c, "") + below;
    SameTail(DatabaseKey(c, ""), below, (target + "/")[|root|..] + "database/" + d);
    if root <= target && LoneSegment(target[|root|..]) {
      LoneFolder(root, target, "database/" + d, below);
    }
  }

  lemma LoneFolder(root: string, target: string, rest: string, below: string)
    requires root <= target && LoneSegment(target[|root|..]) && below == (target + "/")[|root|..] + rest
    ensures target == root + Child(below)
  {
    var x := target[|root|..];
    assert (target + "/")[|root|..] == x + "/";
    FolderOf(x, rest);
    assert x + "/" + rest == below;
  }

  lemma FolderOf(x: string, rest: string)
    requires LoneSegment(x)
    ensures Child(x + "/" + rest) == x
  {
    var head := x[..|x| - 1];
    assert x == head + "/";
    assert x + "/" + rest == head + ("//" + rest);
    ChildOfFolder(head, "//" + rest);
  }

  /** A target with a slash that reaches below a cluster's databases is on that cluster's path. */
  lemma OnPathOf(target: string, d: string, c: Name, below: string)
    requires '/' in target && DatabaseKey(target, d) == DatabaseKey(c, below)
    ensures c + DATABASE_INFIX <= target + "/"
  {
    var a, b := target + DATABASE_INFIX + d, c + DATABASE_INFIX + below;
    assert DatabaseKey(target, d) == CLUSTER_ROOT + a && DatabaseKey(c, below) == CLUSTER_ROOT + b;
    SameTail(CLUSTER_ROOT, a, b);
    SameHead(target, DATABASE_INFIX, d, c, below);
    ShortTarget(target, c, a);
  }

  lemma SameHead(target: string, infix: string, d: string, c: Name, below: string)
    requires '/' in target && infix != "" && infix[0] == '/' && target + infix + d == c + infix + below
    ensures |c| < |target|
  {
    var i := FirstSlash(target);
    assert target + infix + d == target + (infix + d);
    FirstOfBoth(target, infix + d);
    assert c + infix + below == c + (infix + below);
    FirstSlashAt(c, infix + below);
  }

  lemma FirstOfBoth(a: string, b: string)
    requires '/' in a
    ensures FirstSlash(a + b) == FirstSlash(a) < |a|
  {
    var i := FirstSlash(a);
    assert a[..i] + a[i..] == a;
    assert a + b == a[..i] + (a[i..] + b);
    FirstSlashAt(a[..i], a[i..] + b);
  }

  lemma ShortTarget(target: string, c: Name, a: string)
    requires |c| < |target| && target + "/" <= a && c + DATABASE_INFIX <= a
    ensures c + DATABASE_INFIX <= target + "/"
  {
    var m := |target| - |c|;
    if m < |DATABASE_INFIX| {
      assert (c + DATABASE_INFIX)[|target|] == a[|target|] == (target + "/")[|target|];
      SecondSlash(m);
    }
  }

  lemma SecondSlash(m: nat)
    requires 0 < m < |DATABASE_INFIX| && DATABASE_INFIX[m] == '/'
    ensures m == |DATABASE_INFIX| - 1
  {}

  lemma HasFolder(x: string, word: string, e: string)
    ensures FirstSlash(x + (word + "/") + e) < |x + (word + "/") + e| && IsFolder(Child(x + (word + "/") + e))
  {
    var below := x + (word + "/") + e;
    assert below[|x| + |word|] == '/';
    assert below[..|below|] == below;
  }

  lemma LoneChild(target: string, c: Name, below: string)
    requires Jams(target, c) && (target + "/")[|c + DATABASE_INFIX|..] <= below && FirstSlash(below) < |below|
    ensures target != c + DATABASE_INFIX + Child(below)
  {
    var root := c + DATABASE_INFIX;
    if root <= target { LoneIsChild(target[|root|..], below); }
    assert root <= root + Child(below) && (root + Child(below))[|root|..] == Child(below);
  }

  lemma LoneIsChild(x: string, below: string)
    requires FirstSlash(below) < |below|
    ensures x == Child(below) ==> LoneSegment(x)
  {
    var i := FirstSlash(below);
    if x == Child(below) {
      assert x == below[..i + 1] && x == x[..i] + x[i..] && x[..i] == below[..i];
      FirstSlashAt(x[..i], x[i..]);
    }
  }

  lemma IsListed(s: Store, keys: set<string>, source: Name, e: string)
    requires WellKeyed(s) && DatabaseKey(source, e) in s && DatabaseKey(source, e) in keys
    ensures e in Children(keys, DatabaseKey(source, ""))
  {
    OldKeyIsLeaf(s, source, e);
    LeafIsListed(keys, source, e);
  }

  lemma LeafIsListed(keys: set<string>, source: Name, e: string)
    requires DatabaseKey(source, e) in keys && Child(e) == e
    ensures e in Children(keys, DatabaseKey(source, ""))
  {
    assert DatabaseKey(source, "") + e == DatabaseKey(source, e);
    InChildren(keys, DatabaseKey(source, ""), e);
  }

  // Metadata.

  /** What pathMetadataUpdate finds where it looks for a cluster: a cluster of that name, or, given the path of a
      database, that database. */
  lemma FoundAsCluster(s: Store, x: string)
    requires WellKeyed(s)
    ensures ClusterKey(x) in s <==>
      (IsName(x) && x in View(s).clusters) || exists id | id in View(s).dbs ::
          x == id.cluster + DATABASE_INFIX + id.name
  {
    if '/' in x {
      SlashedIsPath(s, x);
    } else {
      if x == "" { NoEmptyName(s); } else { GetCluster(s, x); }
      forall id | id in View(s).dbs ensures x != id.cluster + DATABASE_INFIX + id.name {
        assert (id.cluster + DATABASE_INFIX + id.name)[|id.cluster|] == '/';
      }
    }
  }

  lemma SlashedIsPath(s: Store, x: string)
    requires WellKeyed(s) && '/' in x
    ensures ClusterKey(x) in s <==> exists id | id in View(s).dbs :: x == id.cluster + DATABASE_INFIX + id.name
  {
    var k := ClusterKey(x);
    if k in s {
      assert Fits(k, s[k]);
      DropRoot(CLUSTER_ROOT, x);
      var id := DbOf(k);
      GetDb(s, id.cluster, id.name);
      KeyIsTarget(x, id.cluster, id.name);
    }
    if id :| id in View(s).dbs && x == id.cluster + DATABASE_INFIX + id.name {
      ViewedDb(s, id);
      KeyIsTarget(x, id.cluster, id.name);
    }
  }

  /** With a database beside it nothing is found below a path, so such a request is refused. */
  lemma NothingBelowPath(s: Store, x: string, d: string)
    requires WellKeyed(s) && '/' in x
    ensures DatabaseKey(x, d) !in s
  {
    var k := DatabaseKey(x, d);
    if k in s {
      assert Fits(k, s[k]);
      FitsDatabase(x, d, s[k]);
      FolderBelow(x, d, DbOf(k).cluster, DbOf(k).name);
      assert false;
    }
  }

  lemma FitsDatabase(x: string, d: string, rec: Record)
    requires Fits(DatabaseKey(x, d), rec)
    ensures rec.DbRec?
  {
    var k, rest := DatabaseKey(x, d), x + DATABASE_INFIX + d;
    assert k == CLUSTER_ROOT + rest && rest[|x|] == '/';
    DropRoot(CLUSTER_ROOT, rest);
    KeysApart("", x, d, RoleOf(k), MetaOf(k));
  }

  lemma FolderBelow(x: string, d: string, c: Name, below: string)
    requires '/' in x && DatabaseKey(x, d) == DatabaseKey(c, below)
    ensures '/' in below
  {
    OnPathOf(x, d, c, below);
    BelowPath(x, d, c);
    var rest := (x + "/")[|c + DATABASE_INFIX|..];
    assert DatabaseKey(c, below) == DatabaseKey(c, "") + below;
    SameTail(DatabaseKey(c, ""), below, rest + "database/" + d);
    assert (rest + "database/" + d)[|rest| + 8] == '/';
  }

  /** An entry about such a path is stored, but no listing shows its name: it ends neither at a slash nor before one. */
  lemma EntryIsNeverListed(keys: set<string>, prefix: string, id: DbId)
    requires IsName(id.name)
    ensures id.cluster + DATABASE_INFIX + id.name !in Children(keys, prefix)
  {
    var x := id.cluster + DATABASE_INFIX + id.name;
    if x in Children(keys, prefix) {
      var below := FromChildren(keys, prefix, x);
      SlashEndsChild(below, |id.cluster|);
      assert false;
    }
  }

  lemma SlashEndsChild(below: string, i: nat)
    requires i < |Child(below)| && Child(below)[i] == '/'
    ensures i == |Child(below)| - 1
  {}
}
