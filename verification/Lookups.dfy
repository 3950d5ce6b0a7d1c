/** What a metadata lookup means, and when two databases share an address. */
module Lookups {
  import opened Paths
  import opened Records
  import opened Encoding
  import opened Operations
  import opened Listings
  import opened Protocol
  import opened Vault
  import opened Metadata

  /** The addresses of the entries of one type whose data contains the query. */
  function Matching(g: Config, folder: string, query: map<string, string>): set<string> {
    set addr | addr in g.meta && folder <= addr && Covers(g.meta[addr].data, query)
  }

  function NamesAt(g: Config, addrs: set<string>): set<string> {
    set addr | addr in addrs && addr in g.meta :: NameOf(g.meta[addr])
  }

  /** Every entry sits at an address of the two folders, and at the one its fields print to. */
  ghost predicate Indexed(g: Config) {
    WellFormed(g) && forall addr | addr in g.meta :: IsMetaAddr(addr)
  }

  /** As is the case in every storage whose writes all kept to the protocol. */
  lemma SoundIsIndexed(storage: Storage)
    requires storage.Sound()
    ensures Indexed(storage.Now())
  {
    storage.Replay();
    KeptIsInv(storage.log);
    AllAddressesListed(storage);
  }

  /** The listed name leads to a matching entry, and that entry's name is n. */
  ghost predicate Hit(g: Config, folder: string, query: map<string, string>, name: string, n: string) {
    folder + name in Matching(g, folder, query) && n == NameOf(g.meta[folder + name])
  }

  lemma {:induction false} FoundAre(g: Config, folder: string, query: map<string, string>, names: seq<string>,
                                    n: string)
    ensures n in Found(g, folder, query, names) <==> exists name | name in names :: Hit(g, folder, query, name, n)
  {
    if names != [] {
      var last := |names| - 1;
      FoundAre(g, folder, query, names[..last], n);
      assert names == names[..last] + [names[last]];
      DropRoot(folder, names[last]);
      assert n in FoundOne(g, folder, query, names[last]) <==> Hit(g, folder, query, names[last], n);
    }
  }

  /** Distinct entries have distinct names: a name tells its cluster and its database apart. */
  lemma NamesDistinct(g: Config, a: string, b: string)
    requires Indexed(g) && a in g.meta && b in g.meta && NameOf(g.meta[a]) == NameOf(g.meta[b])
    ensures a == b
  {
    var m, n := g.meta[a], g.meta[b];
    SlashFree(m.cluster, m.database);
    SlashFree(n.cluster, n.database);
    NameTells(m);
    NameTells(n);
  }

  lemma SlashFree(c: string, d: string)
    requires IsMetaAddr(MetaAddr(c, d))
    ensures '/' !in c && '/' !in d
  {
    if d != "" {
      assert MetaAddr(c, d) == "database/" + (c + "-" + d);
      MetaTail("database/", c + "-" + d);
      forall ch | ch in c ensures ch in c + "-" + d {}
      forall ch | ch in d ensures ch in c + "-" + d {}
    } else {
      MetaTail("cluster/", c);
    }
  }

  lemma NameTells(m: MetaRecord)
    requires '/' !in m.cluster
    ensures FirstSlash(NameOf(m)) == |m.cluster|
    ensures m.cluster == NameOf(m)[..|m.cluster|]
    ensures m.database == if |NameOf(m)| == |m.cluster| then "" else NameOf(m)[|m.cluster| + 1..]
  {
    if m.database != "" {
      assert NameOf(m) == m.cluster + ("/" + m.database);
      FirstSlashAt(m.cluster, "/" + m.database);
    } else {
      assert NameOf(m) == m.cluster + "";
      FirstSlashAt(m.cluster, "");
    }
  }

  lemma {:induction false} FoundOnce(g: Config, folder: string, query: map<string, string>, names: seq<string>)
    requires Indexed(g) && NoDuplicates(names)
    ensures NoDuplicates(Found(g, folder, query, names))
  {
    if names != [] {
      var last := |names| - 1;
      FoundOnce(g, folder, query, names[..last]);
      var one := FoundOne(g, folder, query, names[last]);
      if one != [] && one[0] in Found(g, folder, query, names[..last]) {
        FoundAre(g, folder, query, names[..last], one[0]);
        var name :| name in names[..last] && Hit(g, folder, query, name, one[0]);
        NamesDistinct(g, folder + name, folder + names[last]);
        DropRoot(folder, name);
        DropRoot(folder, names[last]);
      }
    }
  }

  lemma HitsAre(g: Config, folder: string, query: map<string, string>, order: seq<string>, n: string)
    requires Listing(order, MetaNames(g, folder))
    ensures n in NamesAt(g, Matching(g, folder, query)) <==>
      exists name | name in order :: Hit(g, folder, query, name, n)
  {
    if n in NamesAt(g, Matching(g, folder, query)) {
      var addr :| addr in Matching(g, folder, query) && n == NameOf(g.meta[addr]);
      assert addr == folder + addr[|folder|..];
      InMetaNames(g, folder, addr[|folder|..]);
      assert Hit(g, folder, query, addr[|folder|..], n);
    }
  }

  /** A lookup answers with exactly the names of the matching entries, each once, in whatever order they were listed. */
  lemma LookupExact(g: Config, folder: string, query: map<string, string>, order: seq<string>, found: seq<string>)
    requires Indexed(g) && LookedUp(g, folder, query, order, found)
    ensures Listing(found, NamesAt(g, Matching(g, folder, query)))
  {
    FoundOnce(g, folder, query, order);
    forall n ensures n in found <==> n in NamesAt(g, Matching(g, folder, query)) {
      FoundAre(g, folder, query, order, n);
      HitsAre(g, folder, query, order, n);
    }
  }

  /** The folder an entry sits in tells whether it is about a cluster or about a database. */
  lemma FolderTells(g: Config, addr: string)
    requires Indexed(g) && addr in g.meta
    ensures "cluster/" <= addr <==> g.meta[addr].database == ""
    ensures "database/" <= addr <==> g.meta[addr].database != ""
  {
    var m := g.meta[addr];
    AddressSpelled(m.cluster, if m.database == "" then None else Some(m.database));
  }

  /** n names an entry of the wanted type, about a cluster or about a database, whose data has all that is asked for. */
  ghost predicate Names(g: Config, addr: string, target: string, query: map<string, string>, n: string) {
    && addr in g.meta
    && (forall k | k in query :: k in g.meta[addr].data && g.meta[addr].data[k] == query[k])
    && (target == "cluster" ==> g.meta[addr].database == "" && n == g.meta[addr].cluster)
    && (target == "database" ==> g.meta[addr].database != ""
                                 && n == g.meta[addr].cluster + "/" + g.meta[addr].database)
  }

  /** So a lookup of type cluster answers with the clusters, and one of type database with the databases, that have
      matching entries: all of them, each once. */
  lemma LookupAnswers(g: Config, target: string, query: map<string, string>, order: seq<string>, found: seq<string>)
    requires Indexed(g) && target in {"cluster", "database"} && LookedUp(g, target + "/", query, order, found)
    ensures NoDuplicates(found) && forall n :: n in found <==> exists addr :: Names(g, addr, target, query, n)
  {
    LookupExact(g, target + "/", query, order, found);
    forall n ensures n in found <==> exists addr :: Names(g, addr, target, query, n) {
      forall addr | addr in g.meta {
        NamedOrNot(g, addr, target, query, n);
      }
    }
  }

  lemma NamedOrNot(g: Config, addr: string, target: string, query: map<string, string>, n: string)
    requires Indexed(g) && addr in g.meta && target in {"cluster", "database"}
    ensures Names(g, addr, target, query, n) <==> addr in Matching(g, target + "/", query) && n == NameOf(g.meta[addr])
  {
    FolderTells(g, addr);
    assert "cluster" + "/" == "cluster/" && "database" + "/" == "database/";
  }

  /** One name per matching entry. */
  lemma LookupCounts(g: Config, folder: string, query: map<string, string>, order: seq<string>, found: seq<string>)
    requires Indexed(g) && LookedUp(g, folder, query, order, found)
    ensures |found| == |Matching(g, folder, query)|
  {
    LookupExact(g, folder, query, order, found);
    ListingSize(found, NamesAt(g, Matching(g, folder, query)));
    NamesSize(g, Matching(g, folder, query));
  }

  lemma {:induction false} ListingSize(names: seq<string>, elements: set<string>)
    requires Listing(names, elements)
    ensures |names| == |elements|
  {
    if names == [] {
      assert elements == {};
    } else {
      var n := |names| - 1;
      assert names == names[..n] + [names[n]];
      ListingSize(names[..n], elements - {names[n]});
    }
  }

  lemma {:induction false} NamesSize(g: Config, addrs: set<string>)
    requires Indexed(g) && addrs <= g.meta.Keys
    ensures |NamesAt(g, addrs)| == |addrs|
  {
    if addrs != {} {
      var a :| a in addrs;
      NamesSize(g, addrs - {a});
      var n := NameOf(g.meta[a]);
      if n in NamesAt(g, addrs - {a}) {
        var b :| b in addrs - {a} && NameOf(g.meta[b]) == n;
        NamesDistinct(g, a, b);
      }
      assert NamesAt(g, addrs) == NamesAt(g, addrs - {a}) + {n};
    } else {
      assert NamesAt(g, addrs) == {};
    }
  }

  /** A larger query finds no more, whatever the two listings' orders. */
  lemma LargerQueryFindsLess(g: Config, folder: string, query: map<string, string>, larger: map<string, string>,
                             order: seq<string>, order': seq<string>, found: seq<string>, found': seq<string>)
    requires Indexed(g) && LookedUp(g, folder, query, order, found) && LookedUp(g, folder, larger, order', found')
    requires forall k | k in query :: k in larger && larger[k] == query[k]
    ensures forall n | n in found' :: n in found
  {
    LookupExact(g, folder, query, order, found);
    LookupExact(g, folder, larger, order', found');
    assert Matching(g, folder, larger) <= Matching(g, folder, query);
  }

  // Addresses.

  /** One cluster name continues the other over a hyphen into the database name. */
  ghost predicate Overlap(c1: string, d1: string, c2: string, d2: string) {
    |c1| < |c2| && c1 + "-" <= c2 && d1 == c2[|c1| + 1..] + "-" + d2
  }

  /** Two entries share an address exactly when they are about the same object, or about two databases whose
      names overlap: writing the metadata of one then replaces that of the other. */
  lemma AddressesCollide(c1: string, d1: string, c2: string, d2: string)
    ensures MetaAddr(c1, d1) == MetaAddr(c2, d2) <==>
      (c1 == c2 && d1 == d2) || (d1 != "" && d2 != "" && (Overlap(c1, d1, c2, d2) || Overlap(c2, d2, c1, d1)))
  {
    if d1 != "" && d2 != "" {
      DatabaseAddresses(c1, d1, c2, d2);
      Hyphenated(c1, d1, c2, d2);
      Hyphenated(c2, d2, c1, d1);
    } else {
      ClusterAddresses(c1, d1, c2, d2);
    }
  }

  lemma DatabaseAddresses(c1: string, d1: string, c2: string, d2: string)
    requires d1 != "" && d2 != ""
    ensures MetaAddr(c1, d1) == MetaAddr(c2, d2) <==> c1 + "-" + d1 == c2 + "-" + d2
  {
    var s1, s2 := c1 + "-" + d1, c2 + "-" + d2;
    assert MetaAddr(c1, d1) == "database/" + s1 && MetaAddr(c2, d2) == "database/" + s2;
    DropRoot("database/", s1);
    DropRoot("database/", s2);
  }

  lemma ClusterAddresses(c1: string, d1: string, c2: string, d2: string)
    requires d1 == "" || d2 == ""
    ensures MetaAddr(c1, d1) == MetaAddr(c2, d2) <==> c1 == c2 && d1 == d2
  {
    if d1 == d2 {
      DropRoot("cluster/", c1);
      DropRoot("cluster/", c2);
    } else {
      assert MetaAddr(c1, d1)[0] != MetaAddr(c2, d2)[0];
    }
  }

  lemma Hyphenated(c1: string, d1: string, c2: string, d2: string)
    ensures |c1| < |c2| ==> (c1 + "-" + d1 == c2 + "-" + d2 <==> Overlap(c1, d1, c2, d2))
    ensures |c1| == |c2| ==> (c1 + "-" + d1 == c2 + "-" + d2 <==> c1 == c2 && d1 == d2)
  {
    var s1, s2 := c1 + "-" + d1, c2 + "-" + d2;
    assert s1[..|c1|] == c1 && s1[|c1|] == '-' && s1[|c1| + 1..] == d1;
    assert s2[..|c2|] == c2 && s2[|c2|] == '-' && s2[|c2| + 1..] == d2;
    if |c1| < |c2| && s1 == s2 { OverlapFrom(c1, d1, c2, d2); }
    OverlapJoins(c1, d1, c2, d2);
  }

  lemma OverlapJoins(c1: string, d1: string, c2: string, d2: string)
    ensures Overlap(c1, d1, c2, d2) ==> c1 + "-" + d1 == c2 + "-" + d2 && '-' in c2
  {
    if Overlap(c1, d1, c2, d2) {
      assert c2 == c1 + "-" + c2[|c1| + 1..];
      assert c2[|c1|] == '-';
    }
  }

  lemma OverlapFrom(c1: string, d1: string, c2: string, d2: string)
    requires |c1| < |c2| && c1 + "-" + d1 == c2 + "-" + d2
    ensures Overlap(c1, d1, c2, d2)
  {
    var s, x := c1 + "-" + d1, c2[|c1| + 1..];
    assert c2 == s[..|c2|];
    assert c1 + "-" == s[..|c1| + 1] == c2[..|c1| + 1];
    assert d1 == s[|c1| + 1..] == x + "-" + d2;
  }

  /** When cluster names have no hyphen, every database has an address of its own. */
  lemma HyphenFreeAddressesDiffer(c1: string, d1: string, c2: string, d2: string)
    requires '-' !in c1 && '-' !in c2 && MetaAddr(c1, d1) == MetaAddr(c2, d2)
    ensures c1 == c2 && d1 == d2
  {
    AddressesCollide(c1, d1, c2, d2);
    OverlapJoins(c1, d1, c2, d2);
    OverlapJoins(c2, d2, c1, d1);
  }

  /** With hyphens they need not. */
  lemma HyphensCollide()
    ensures MetaAddr("a-b", "c") == MetaAddr("a", "b-c")
  {
    AddressesCollide("a-b", "c", "a", "b-c");
    assert Overlap("a", "b-c", "a-b", "c");
  }
}
