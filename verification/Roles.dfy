/** path-role.go */
module Roles {
  import opened Paths
  import opened Records
  import opened Encoding
  import opened Listings
  import opened Operations
  import opened Vault

  /** The keys of the role route's schema. */
  datatype Field = RoleName | MaxTTL | DefaultTTL | CreationStatement | RevocationStatement

  class RoleConfig {
    var maxTTL: int
    var defaultTTL: int
    var creationStatement: seq<string>
    var revocationStatement: seq<string>

    function Value(): RoleRecord
      reads this
    {
      RoleRecord(maxTTL, defaultTTL, creationStatement, revocationStatement)
    }

    constructor ()
      ensures Value() == RoleRecord(0, 0, [], [])
    {
      maxTTL, defaultTTL, creationStatement, revocationStatement := 0, 0, [], [];
    }

    predicate Loaded(data: RoleRecord, k: Field)
      reads this
    {
      match k
      case RoleName => true
      case MaxTTL => maxTTL == data.maxTTL
      case DefaultTTL => defaultTTL == data.defaultTTL
      case CreationStatement => creationStatement == data.creationStatement
      case RevocationStatement => revocationStatement == data.revocationStatement
    }

    /** Fills in the request's fields, whatever order the schema is walked in. */
    method LoadFromFields(data: RoleRecord, schema: seq<Field>)
      requires forall k: Field :: k in schema
      modifies this
      ensures Value() == data
    {
      var i := 0;
      while i < |schema|
        invariant i <= |schema|
        invariant forall k | k in schema[..i] :: Loaded(data, k)
      {
        assert schema[..i + 1] == schema[..i] + [schema[i]];
        match schema[i] {
          case RoleName =>
          case MaxTTL => maxTTL := data.maxTTL;
          case DefaultTTL => defaultTTL := data.defaultTTL;
          case CreationStatement => creationStatement := data.creationStatement;
          case RevocationStatement => revocationStatement := data.revocationStatement;
        }
        i := i + 1;
      }
      assert schema[..i] == schema;
      assert Loaded(data, MaxTTL) && Loaded(data, DefaultTTL) && Loaded(data, CreationStatement)
          && Loaded(data, RevocationStatement);
    }
  }

  /** loadRoleEntry */
  method FetchRole(storage: Storage, name: Name) returns (r: Outcome<RoleRecord>)
    requires storage.Valid()
    modifies storage`calls, storage`failures
    ensures storage.calls == old(storage.calls) + 1
    ensures r == Failed(StorageError) <==> storage.faults(old(storage.calls)) != Fine
    ensures storage.failures == old(storage.failures) + if r == Failed(StorageError) then 1 else 0
    ensures r == Failed(StorageError)
      || r == if name in storage.Now().roles then Done(storage.Now().roles[name]) else Failed(NotFound)
  {
    storage.Unfold();
    var entry := storage.Get(RoleKey(name));
    r := match entry
      case Err => Failed(StorageError)
      case Ok(None) => Failed(NotFound)
      case Ok(Some(rec)) => Done(rec.role);
  }

  method PathRoleUpdate(storage: Storage, name: Name, data: RoleRecord, schema: seq<Field>)
    returns (r: Outcome<()>, ghost op: Op, ghost ws: seq<Write>)
    requires storage.Valid() && forall k: Field :: k in schema
    modifies storage`data, storage`calls, storage`failures, storage`unacked, storage`log, storage`now
    ensures storage.Valid() && storage.log == old(storage.log) + ws && storage.Now() == ApplyAll(old(storage.Now()), ws)
    ensures op == WriteRole(name, data)
    ensures OnlyRole(old(storage.Now()), storage.Now(), name)
    ensures r.Done? || ws != [] ==>
      && name in storage.Now().roles && storage.Now().roles[name].maxTTL == data.maxTTL
      && storage.Now().roles[name].defaultTTL == data.defaultTTL
      && storage.Now().roles[name].creationStatement == data.creationStatement
      && storage.Now().roles[name].revocationStatement == data.revocationStatement
    ensures Handled(old(storage.Now()), op, ws, r, storage.failures == old(storage.failures))
    ensures old(storage.Sound()) ==> storage.Sound()
  {
    storage.Replay();
    ghost var g, log := storage.Now(), storage.log;
    op := WriteRole(name, data);
    var c := new RoleConfig();
    c.LoadFromFields(data, schema);
    var acked;
    acked, ws := storage.Put(RoleKey(name), RoleRec(c.Value()), PutRole(name, c.Value()));
    r := if acked then Done(()) else Failed(StorageError);
    ApplyOne(g, PutRole(name, c.Value()));
    StaysSound(g, log, op, ws);
  }

  method PathRoleRead(storage: Storage, name: Name) returns (r: Outcome<RoleRecord>)
    requires storage.Valid()
    modifies storage`calls, storage`failures
    ensures r == Failed(StorageError)
      || r == if name in storage.Now().roles then Done(storage.Now().roles[name]) else Refused(RoleMissing)
    ensures storage.failures == old(storage.failures) ==> r != Failed(StorageError)
  {
    r := FetchRole(storage, name);
    if r == Failed(NotFound) { r := Refused(RoleMissing); }
  }

  method PathRoleDelete(storage: Storage, name: Name)
    returns (r: Outcome<()>, ghost op: Op, ghost ws: seq<Write>)
    requires storage.Valid()
    modifies storage`data, storage`calls, storage`failures, storage`unacked, storage`log, storage`now
    ensures storage.Valid() && storage.log == old(storage.log) + ws && storage.Now() == ApplyAll(old(storage.Now()), ws)
    ensures op == DeleteRole(name)
    ensures OnlyRole(old(storage.Now()), storage.Now(), name)
    ensures r.Done? || ws != [] ==> name !in storage.Now().roles
    ensures Handled(old(storage.Now()), op, ws, r, storage.failures == old(storage.failures))
    ensures old(storage.Sound()) ==> storage.Sound()
  {
    storage.Replay();
    ghost var g, log := storage.Now(), storage.log;
    op := DeleteRole(name);
    var acked;
    acked, ws := storage.Delete(RoleKey(name), DelRole(name));
    r := if acked then Done(()) else Failed(StorageError);
    ApplyOne(g, DelRole(name));
    StaysSound(g, log, op, ws);
  }

  lemma RolesListed(storage: Storage)
    requires storage.Valid()
    ensures Children(storage.data.Keys, RoleKey("")) == storage.Now().roles.Keys
  {
    storage.Unfold();
    RoleListing(storage.data);
    HoldsIsView(storage.data, storage.Now());
  }

  method PathRoleList(storage: Storage) returns (r: Outcome<seq<string>>)
    requires storage.Valid()
    modifies storage`calls, storage`failures
    ensures r == Failed(StorageError) || (r.Done? && Listing(r.value, storage.Now().roles.Keys))
    ensures storage.failures == old(storage.failures) ==> r != Failed(StorageError)
  {
    RolesListed(storage);
    var listed := storage.List(RoleKey(""));
    if listed.Err? { return Failed(StorageError); }
    r := Done(listed.value);
  }
}
