/** How backend.go spells the keys of the storage, and what makes the spelling unambiguous. */
module Paths {

  /** What the route patterns guarantee of a cluster, database or role name. */
  predicate IsName(s: string) {
    s != "" && '/' !in s
  }

  type Name = s: string | IsName(s) witness "a"

  datatype DbId = DbId(cluster: string, name: string)

  const CLUSTER_ROOT := "config/cluster/"
  const DATABASE_INFIX := "/database/"
  const ROLE_ROOT := "config/role/"
  const META_ROOT := "meta/"

  // Path.For on the four path constants.

  function ClusterKey(c: string): string { CLUSTER_ROOT + c }
  function DatabaseKey(c: string, d: string): string { CLUSTER_ROOT + c + DATABASE_INFIX + d }
  function RoleKey(r: string): string { ROLE_ROOT + r }
  function MetaKey(addr: string): string { META_ROOT + addr }

  /** Position of the first '/', or the length when there is none. */
  function FirstSlash(s: string): (i: nat)
    ensures i <= |s| && '/' !in s[..i]
    ensures i < |s| ==> s[i] == '/'
  {
    if s == "" || s[0] == '/' then 0 else
    var i := 1 + FirstSlash(s[1..]);
    assert s[..i] == [s[0]] + s[1..][..i - 1];
    i
  }

  lemma FirstSlashAt(head: string, rest: string)
    requires '/' !in head && (rest == "" || rest[0] == '/')
    ensures FirstSlash(head + rest) == |head|
  {
    assert (head + rest)[..|head|] == head;
  }

  // The name (or names) a key was printed from.

  function ClusterOf(k: string): string { if CLUSTER_ROOT <= k then k[|CLUSTER_ROOT|..] else "" }
  function RoleOf(k: string): string { if ROLE_ROOT <= k then k[|ROLE_ROOT|..] else "" }
  function MetaOf(k: string): string { if META_ROOT <= k then k[|META_ROOT|..] else "" }

  function DbOf(k: string): DbId {
    var rest := ClusterOf(k);
    var i := FirstSlash(rest);
    if DATABASE_INFIX <= rest[i..] then DbId(rest[..i], rest[i + |DATABASE_INFIX|..]) else DbId("", "")
  }

  /** The keys, spelled out. */
  lemma KeysSpelled(c: string, d: string)
    ensures ClusterKey(c) == "config/cluster/" + c && DatabaseKey(c, d) == ClusterKey(c) + "/database/" + d
    ensures RoleKey(c) == "config/role/" + c && MetaKey(c) == "meta/" + c
  {}

  lemma DropRoot(root: string, rest: string)
    ensures root <= root + rest && (root + rest)[|root|..] == rest
  {}

  /** Reading a printed key back gives the names it was printed from. The database name may be anything, even "". */
  lemma KeyRoundTrip(c: string, d: string, other: string)
    requires IsName(c)
    ensures ClusterOf(ClusterKey(c)) == c
    ensures DbOf(DatabaseKey(c, d)) == DbId(c, d)
    ensures RoleOf(RoleKey(other)) == other
    ensures MetaOf(MetaKey(other)) == other
  {
    DropRoot(CLUSTER_ROOT, c);
    DropRoot(ROLE_ROOT, other);
    DropRoot(META_ROOT, other);
    DatabaseRoundTrip(c, d);
  }

  lemma DatabaseRoundTrip(c: string, d: string)
    requires '/' !in c
    ensures DbOf(DatabaseKey(c, d)) == DbId(c, d)
  {
    var below := DATABASE_INFIX + d;
    assert DatabaseKey(c, d) == CLUSTER_ROOT + (c + below);
    DropRoot(CLUSTER_ROOT, c + below);
    FirstSlashAt(c, below);
    DropRoot(c, below);
    DropRoot(DATABASE_INFIX, d);
    assert (c + below)[|c| + |DATABASE_INFIX|..] == below[|DATABASE_INFIX|..];
  }

  /** No key of one kind is a key of another kind, whatever the other names are. */
  lemma KeysApart(c: string, c': string, d: string, r: string, addr: string)
    requires '/' !in c
    ensures ClusterKey(c) != DatabaseKey(c', d)
    ensures ClusterKey(c) != RoleKey(r) && ClusterKey(c) != MetaKey(addr)
    ensures DatabaseKey(c', d) != RoleKey(r) && DatabaseKey(c', d) != MetaKey(addr)
    ensures RoleKey(r) != MetaKey(addr)
  {
    var rest := c' + DATABASE_INFIX + d;
    assert DatabaseKey(c', d) == CLUSTER_ROOT + rest && rest[|c'|] == '/';
    DropRoot(CLUSTER_ROOT, c);
    DropRoot(CLUSTER_ROOT, rest);
    assert ClusterKey(c)[7] == 'c' && RoleKey(r)[7] == 'r' && DatabaseKey(c', d)[7] == 'c';
    assert ClusterKey(c)[0] == 'c' && RoleKey(r)[0] == 'c' && MetaKey(addr)[0] == 'm' && DatabaseKey(c', d)[0] == 'c';
  }

  // What storage.List returns: the part of a key below the prefix, cut after the first '/'.

  function Child(below: string): string {
    var i := FirstSlash(below);
    if i < |below| then below[..i + 1] else below
  }

  ghost function Children(keys: set<string>, prefix: string): set<string> {
    set k | k in keys && prefix <= k :: Child(k[|prefix|..])
  }

  predicate IsFolder(name: string) {
    name != "" && name[|name| - 1] == '/'
  }

  lemma ChildOfName(name: string)
    requires '/' !in name
    ensures Child(name) == name
  {
    assert name[..|name|] == name;
  }

  lemma ChildOfFolder(head: string, rest: string)
    requires '/' !in head && rest != "" && rest[0] == '/'
    ensures Child(head + rest) == head + "/"
  {
    FirstSlashAt(head, rest);
    assert (head + rest)[..|head| + 1] == head + "/";
  }
}
