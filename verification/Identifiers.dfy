/** The names the backend makes up for server roles, cut to the 63 bytes PostgreSQL keeps. */
module Identifiers {

  /** What uuid.GenerateUUID returns. */
  type Uuid = s: string | |s| == 36 witness seq(36, _ => '0')

  function Cut(s: string, n: nat): string { if |s| > n then s[..n] else s }

  function ManagementRoleName(id: Uuid): string { Cut("v-manage-" + id, 63) }

  function UserName(displayName: string, id: Uuid): string { Cut(Cut(displayName, 26) + "-" + id, 63) }

  /** The owner role of a new database: the one asked for, or a generated one. */
  function OwnerName(requested: string, database: string, id: Uuid): string {
    Cut(if requested == "" then GeneratedOwner(database, id) else requested, 63)
  }

  function GeneratedOwner(database: string, id: Uuid): string { "v-objown-" + database + "-" + id }

  function Min(a: int, b: int): int { if a < b then a else b }
  function Max(a: int, b: int): int { if a < b then b else a }

  /** How many characters of the UUID survive the cut of a generated owner name. */
  function UuidKept(database: string): nat { Min(36, Max(0, 53 - |database|)) }

  /** A cut string is the beginning of the whole one, as long as it may be. */
  lemma CutKeeps(s: string, n: nat)
    ensures Cut(s, n) <= s && |Cut(s, n)| == Min(|s|, n)
  {}

  /** A requested owner is kept as it is, up to 63 characters. A generated one names the database and ends in the UUID,
      up
      to 63 characters. */
  predicate IsOwner(owner: string, requested: string, database: string, id: Uuid) {
    && (requested != "" ==> owner <= requested && (|requested| <= 63 ==> owner == requested)
                            && (|requested| > 63 ==> |owner| == 63))
    && (requested == "" ==> owner <= "v-objown-" + database + "-" + id && |owner| == Min(63, 46 + |database|))
  }

  lemma OwnerIs(owner: string, requested: string, database: string, id: Uuid)
    ensures IsOwner(owner, requested, database, id) <==> owner == OwnerName(requested, database, id)
  {
    var whole := "v-objown-" + database + "-" + id;
    CutKeeps(requested, 63);
    CutKeeps(whole, 63);
    assert |whole| == 46 + |database|;
    if IsOwner(owner, requested, database, id) {
      SamePart(owner, OwnerName(requested, database, id), if requested == "" then whole else requested);
    }
  }

  lemma SamePart(a: string, b: string, whole: string)
    requires a <= whole && b <= whole && |a| == |b|
    ensures a == b
  {
    assert a == whole[..|a|] && b == whole[..|a|];
  }

  /** The management role's name, whole. */
  lemma ManagementRoleIs(id: Uuid)
    ensures ManagementRoleName(id) == "v-manage-" + id
  {}

  /** A user name is its display name's first 26 characters, a hyphen and the UUID. */
  lemma UserNameIs(displayName: string, id: Uuid)
    ensures |displayName| <= 26 ==> UserName(displayName, id) == displayName + "-" + id
    ensures |displayName| > 26 ==> UserName(displayName, id) == displayName[..26] + "-" + id
  {}

  /** A user name is at most 63 long, and the cut never touches its UUID: 26 + 1 + 36 = 63. */
  lemma UserNameKeepsUuid(displayName: string, id: Uuid)
    ensures |UserName(displayName, id)| <= 63
    ensures UserName(displayName, id)[|UserName(displayName, id)| - 36..] == id
    ensures UserName(displayName, id)[..|UserName(displayName, id)| - 37] == Cut(displayName, 26)
  {
    var d := Cut(displayName, 26);
    assert UserName(displayName, id) == d + "-" + id;
  }

  /** So distinct UUIDs give distinct users, whatever the display names. */
  lemma UserNamesDistinct(d1: string, id1: Uuid, d2: string, id2: Uuid)
    requires id1 != id2
    ensures UserName(d1, id1) != UserName(d2, id2)
  {
    UserNameKeepsUuid(d1, id1);
    UserNameKeepsUuid(d2, id2);
  }

  lemma ManagementRoleNamesDistinct(id1: Uuid, id2: Uuid)
    requires id1 != id2
    ensures ManagementRoleName(id1) != ManagementRoleName(id2)
  {
    assert ("v-manage-" + id1)[9..] == id1 && ("v-manage-" + id2)[9..] == id2;
  }

  /** A generated owner name is at most 63 long and keeps exactly UuidKept(database) characters of its UUID. */
  lemma OwnerNameKeeps(database: string, id: Uuid)
    ensures var n := OwnerName("", database, id);
      |n| == Min(63, 46 + |database|) && n[|n| - UuidKept(database)..] == id[..UuidKept(database)]
  {
    var whole, k := GeneratedOwner(database, id), UuidKept(database);
    var head := "v-objown-" + database + "-";
    var n := OwnerName("", database, id);
    assert whole == head + id && |head| == 10 + |database|;
    if k > 0 {
      assert n == head + id[..k];
    }
  }

  /** Two registrations of a database get the same generated owner exactly when their UUIDs agree on the kept
      characters: always from 53 characters of database name on, and never, for distinct UUIDs, up to 17. */
  lemma OwnerNamesCollide(database: string, id1: Uuid, id2: Uuid)
    ensures OwnerName("", database, id1) == OwnerName("", database, id2) <==>
      id1[..UuidKept(database)] == id2[..UuidKept(database)]
    ensures |database| >= 53 ==> OwnerName("", database, id1) == OwnerName("", database, id2)
    ensures |database| <= 17 && id1 != id2 ==> OwnerName("", database, id1) != OwnerName("", database, id2)
  {
    OwnerNameKeeps(database, id1);
    OwnerNameKeeps(database, id2);
    var head, k := "v-objown-" + database + "-", UuidKept(database);
    if k > 0 {
      assert OwnerName("", database, id1) == head + id1[..k] && OwnerName("", database, id2) == head + id2[..k];
    } else {
      assert OwnerName("", database, id1) == head[..63] == OwnerName("", database, id2);
    }
    if |database| <= 17 {
      assert id1[..36] == id1 && id2[..36] == id2;
    }
  }

  /** What a generated owner keeps of name and UUID: 54 characters in all. */
  lemma OwnerIsCut(database: string, id: Uuid)
    ensures OwnerName("", database, id) == "v-objown-" + Cut(database + "-" + id, 54)
  {
    var rest := database + "-" + id;
    assert GeneratedOwner(database, id) == "v-objown-" + rest;
    if |rest| > 54 { assert ("v-objown-" + rest)[..63] == "v-objown-" + rest[..54]; }
  }

  /** Two databases, of whatever clusters and with whatever names, get the same generated owner exactly when the first
      54
      characters of name, hyphen and UUID agree. */
  lemma OwnersCollide(d1: string, id1: Uuid, d2: string, id2: Uuid)
    ensures OwnerName("", d1, id1) == OwnerName("", d2, id2) <==> Cut(d1 + "-" + id1, 54) == Cut(d2 + "-" + id2, 54)
  {
    OwnerIsCut(d1, id1);
    OwnerIsCut(d2, id2);
    SamePrefix("v-objown-", Cut(d1 + "-" + id1, 54), Cut(d2 + "-" + id2, 54));
  }

  lemma SamePrefix(head: string, a: string, b: string)
    ensures head + a == head + b <==> a == b
  {
    assert (head + a)[|head|..] == a && (head + b)[|head|..] == b;
  }

  /** Whatever the UUIDs: when both names are 54 long or longer, exactly when they agree so far; when one is 53 long and
      the other longer, exactly when the longer one continues it with a hyphen. */
  lemma LongNamesCollide(d1: string, id1: Uuid, d2: string, id2: Uuid)
    requires |d1| >= 53 && |d2| >= 54
    ensures OwnerName("", d1, id1) == OwnerName("", d2, id2) <==> (d1 + "-")[..54] == d2[..54]
    ensures |d1| >= 54 ==> (d1 + "-")[..54] == d1[..54]
  {
    OwnersCollide(d1, id1, d2, id2);
    assert Cut(d1 + "-" + id1, 54) == (d1 + "-")[..54] && Cut(d2 + "-" + id2, 54) == d2[..54];
  }

  /** Shorter names of one length share it exactly when they are equal and their UUIDs agree on the kept characters. */
  lemma EvenNamesCollide(d1: string, id1: Uuid, d2: string, id2: Uuid)
    requires |d1| == |d2| < 54
    ensures OwnerName("", d1, id1) == OwnerName("", d2, id2) <==> d1 == d2 && id1[..UuidKept(d1)] == id2[..UuidKept(d2)]
  {
    if d1 == d2 {
      OwnerNamesCollide(d1, id1, id2);
    } else {
      DatabaseIsKept(d1, id1);
      DatabaseIsKept(d2, id2);
    }
  }

  lemma DatabaseIsKept(database: string, id: Uuid)
    requires |database| < 54
    ensures |OwnerName("", database, id)| >= 9 + |database|
      && OwnerName("", database, id)[9..9 + |database|] == database
  {}

  /** Of two names of different lengths, the shorter one below 53: exactly when the longer one continues the shorter one
      with a hyphen and what its UUID begins with, as far as 54 characters go. */
  lemma UnevenNamesCollide(d1: string, id1: Uuid, d2: string, id2: Uuid)
    requires |d1| < |d2| && |d1| < 53
    ensures OwnerName("", d1, id1) == OwnerName("", d2, id2) <==> Meets(d1, id1, d2, id2, 54)
  {
    OwnersCollide(d1, id1, d2, id2);
    CutsMeet(d1, id1, d2, id2, 54);
  }

  /** Does the longer string continue the shorter one with a hyphen? */
  predicate Continues(long: string, short: string) {
    |short| < |long| && long[..|short|] == short && long[|short|] == '-'
  }

  /** Does it continue the shorter one with a hyphen and the shorter one's UUID, as far as the first n characters go? */
  predicate Meets(d1: string, id1: string, d2: string, id2: string, n: nat)
    requires |d1| < n
  {
    Continues(d2, d1) && Cut(id1, n - 1 - |d1|) == Cut(d2[|d1| + 1..] + "-" + id2, n - 1 - |d1|)
  }

  lemma CutsMeet(d1: string, id1: string, d2: string, id2: string, n: nat)
    requires |d1| < |d2| && |d1| < n
    ensures Cut(d1 + "-" + id1, n) == Cut(d2 + "-" + id2, n) <==> Meets(d1, id1, d2, id2, n)
  {
    if Continues(d2, d1) {
      SplitAt(d2, d1);
      Continued(d1, id1, d2, d2[|d1| + 1..], id2, n);
    } else {
      Diverging(d1, id1, d2, id2, n);
    }
  }

  lemma SplitAt(s: string, head: string)
    requires Continues(s, head)
    ensures s == head + "-" + s[|head| + 1..]
  {}

  lemma Continued(d1: string, id1: string, d2: string, rest: string, id2: string, n: nat)
    requires |d1| < n && d2 == d1 + "-" + rest
    ensures Cut(d1 + "-" + id1, n) == Cut(d2 + "-" + id2, n) <==>
      Cut(id1, n - 1 - |d1|) == Cut(rest + "-" + id2, n - 1 - |d1|)
  {
    var head, tail := d1 + "-", rest + "-" + id2;
    assert d2 + "-" + id2 == head + tail;
    CutAfter(head, tail, n);
    CutAfter(head, id1, n);
    SamePrefix(head, Cut(id1, n - |head|), Cut(tail, n - |head|));
  }

  lemma Diverging(d1: string, id1: string, d2: string, id2: string, n: nat)
    requires |d1| < n && |d1| < |d2| && !Continues(d2, d1)
    ensures Cut(d1 + "-" + id1, n) != Cut(d2 + "-" + id2, n)
  {
    var head1, head2 := d1 + "-", d2[..|d1| + 1];
    assert head1 <= d1 + "-" + id1 && head2 <= d2 + "-" + id2;
    StartsWith(d1 + "-" + id1, head1, n);
    StartsWith(d2 + "-" + id2, head2, n);
    assert head1[..|d1|] == d1 && head2[..|d1|] == d2[..|d1|] && head1[|d1|] == '-' && head2[|d1|] == d2[|d1|];
  }

  lemma StartsWith(s: string, head: string, n: nat)
    requires head <= s && |head| <= n
    ensures |Cut(s, n)| >= |head| && Cut(s, n)[..|head|] == head
  {}

  lemma CutAfter(head: string, rest: string, n: nat)
    requires |head| <= n
    ensures Cut(head + rest, n) == head + Cut(rest, n - |head|)
  {}

  /** An owner is never empty, so what pathDatabaseUpdate stores passes DbConfig.validate. */
  lemma OwnerNotEmpty(requested: string, database: string, id: Uuid)
    ensures OwnerName(requested, database, id) != ""
  {}
}
