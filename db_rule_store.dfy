/**
 * DBRequestRuleStore: the rule store kept in the user database. The
 * PERMISSIONS table holds one packed 32-bit row per (frameHost, requestHost)
 * pair; the GLOBALS table holds the `permissionsinitialized` flag that
 * guards the bootstrap.
 *
 * The database is a mutable object shared with the rest of the browser, so
 * it is a class (UserDB) whose two fields are the table and the flag; SQL,
 * record attachment and the privileged-action wrapper are transparent.
 */
module DBRuleStore {
  import opened Wrappers
  import opened Permissions
  import opened BitCodec
  import opened RuleStore

  type Table = map<HostPair, bv32>

  /** The part of the user database the store reads and writes. */
  class UserDB {
    /** PERMISSIONS: (FRAMEHOST, REQUESTHOST) -> PERMISSIONS */
    var permissions: Table
    /** GLOBALS.PERMISSIONSINITIALIZED */
    var permissionsInitialized: bool

    constructor (permissions: Table, permissionsInitialized: bool)
      ensures this.permissions == permissions
      ensures this.permissionsInitialized == permissionsInitialized
    {
      this.permissions := permissions;
      this.permissionsInitialized := permissionsInitialized;
    }
  }

  /** What a table means: every packed row decoded into its slots. */
  function Decoded(t: Table): (v: View)
    ensures ValidView(v)
    ensures v.Keys == t.Keys
    ensures forall key | key in t :: v[key] == DecodeRow(t[key])
  {
    map key | key in t :: DecodeRow(t[key])
  }

  /** Writing one packed row changes the decoded view at that key only. */
  lemma DecodedUpdate(t: Table, key: HostPair, bits: bv32)
    ensures Decoded(t[key := bits]) == Decoded(t)[key := DecodeRow(bits)]
  {
  }

  /**
   * The packed row storePermissions leaves for a key: the bare set mask for
   * a new row, the read-modify-write of the old row otherwise.
   */
  function StoredBits(t: Table, key: HostPair, kind: Option<Kind>, permission: Permission): (bits: bv32)
    ensures DecodeRow(bits) == (if key in t then DecodeRow(t[key]) else Undecideds(Slots))[SlotOf(kind) := permission]
  {
    if key in t then
      DecodeReplaceSlot(t[key], SlotOf(kind), permission);
      ReplaceSlot(t[key], FieldOf(SlotOf(kind)), permission)
    else
      DecodeSetMask(SlotOf(kind), permission);
      MakeBitSetMask(FieldOf(SlotOf(kind)), permission)
  }

  /**
   * The packed store refines the abstract one: decoding after the write is
   * the abstract store applied to the decoding before it. For an existing
   * row this is slot isolation (Undecided included, via 00); for a new row
   * it is that the set mask alone decodes to Undecided outside its slot.
   */
  lemma {:induction false} StoredBitsRefines(t: Table, key: HostPair, kind: Option<Kind>, permission: Permission)
    ensures Decoded(t[key := StoredBits(t, key, kind, permission)]) == Store(Decoded(t), key, kind, permission)
  {
    DecodedUpdate(t, key, StoredBits(t, key, kind, permission));
  }

  /**
   * decodeBitMask: slot 0 as the global decision and a fresh array of
   * NumKinds decisions whose element i is slot i+1.
   */
  method DecodeBitMask(existingPermissions: bv32) returns (global: Permission, perKind: array<Permission>)
    ensures fresh(perKind)
    ensures perKind.Length == NumKinds
    ensures [global] + perKind[..] == DecodeRow(existingPermissions)
  {
    perKind := new Permission[NumKinds];
    for i := 0 to perKind.Length
      invariant forall j :: 0 <= j < i ==> perKind[j] == DecodeBits(existingPermissions, FieldOf(j + 1))
    {
      perKind[i] := DecodeBits(existingPermissions, FieldOf(i + 1));
    }
    global := DecodeBits(existingPermissions, FieldOf(0));
    assert [global] + perKind[..] == DecodeRow(existingPermissions);
  }

  class DBRequestRuleStore {
    const userDB: UserDB
    /** The shared defaultPermissions array: NumKinds Undecided decisions. */
    const defaults: array<Permission>

    predicate Valid()
      reads this, defaults
    {
      defaults.Length == NumKinds && defaults[..] == Undecideds(NumKinds)
    }

    /** The rules the store currently holds. */
    function View(): (v: View)
      reads this, userDB
      ensures ValidView(v)
    {
      Decoded(userDB.permissions)
    }

    /**
     * The constructor: the bootstrap runs only when the database says the
     * permissions were never initialised. The flag is then set on a record
     * that is never written back, so the database flag stays as it was.
     */
    constructor (db: UserDB)
      modifies db`permissions
      ensures userDB == db && Valid() && fresh(defaults)
      ensures db.permissionsInitialized == old(db.permissionsInitialized)
      ensures View() == if old(db.permissionsInitialized) then old(Decoded(db.permissions))
                        else RuleStore.InitStore(old(Decoded(db.permissions)))
    {
      var defaultPermissions := UndecidedArray(NumKinds);
      userDB, defaults := db, defaultPermissions;
      new;
      if !userDB.permissionsInitialized {
        InitStore();
        // setPermissionsinitialized(true) on a record that is not stored: no effect on the database
      }
    }

    /**
     * getPermissions: the contract's lookup on the decoded table. An absent
     * key hands out the shared default array itself; a present one a fresh
     * decoding. The table is only read.
     */
    method GetPermissions(frameHost: string, requestHost: string) returns (global: Permission, perKind: array<Permission>)
      requires Valid()
      ensures (global, perKind[..]) == Lookup(View(), (frameHost, requestHost))
      ensures (frameHost, requestHost) !in userDB.permissions ==> perKind == defaults
      ensures (frameHost, requestHost) in userDB.permissions ==> fresh(perKind)
    {
      var key := (frameHost, requestHost);
      if key !in userDB.permissions {
        global, perKind := Undecided, defaults;
      } else {
        global, perKind := DecodeBitMask(userDB.permissions[key]);
        assert DecodeRow(userDB.permissions[key])[1..] == perKind[..];
      }
    }

    /**
     * storePermissions: insert the set mask as a new row, or replace the
     * slot of the existing row; the decoded view changes exactly as the
     * contract's Store says.
     */
    method StorePermissions(frameHost: string, requestHost: string, kind: Option<Kind>, permission: Permission)
      modifies userDB`permissions
      ensures userDB.permissions == old(userDB.permissions)[(frameHost, requestHost) :=
                StoredBits(old(userDB.permissions), (frameHost, requestHost), kind, permission)]
      ensures View() == Store(old(View()), (frameHost, requestHost), kind, permission)
    {
      var key := (frameHost, requestHost);
      var field := FieldOf(SlotOf(kind));
      if key !in userDB.permissions {
        userDB.permissions := userDB.permissions[key := MakeBitSetMask(field, permission)];
      } else {
        var existingPermissions := userDB.permissions[key];
        // (existing & makeBitBlockMask(kind)) | makeBitSetMask(kind, permission)
        userDB.permissions := userDB.permissions[key := ReplaceSlot(existingPermissions, field, permission)];
      }
      StoredBitsRefines(old(userDB.permissions), key, kind, permission);
    }

    /**
     * HelperPrivate.initStore applied to this store. Its Java assertion that
     * the bootstrap global decision is still undecided is checked only when
     * assertions are enabled, so it does not guard the three writes.
     */
    method InitStore()
      requires Valid()
      modifies userDB`permissions
      ensures View() == RuleStore.InitStore(old(View()))
    {
      var _, _ := GetPermissions("*", "");
      StorePermissions("*", "", None, Deny);
      StorePermissions("*", "", Some(Image), Allow);
      StorePermissions("*", "", Some(CSS), Allow);
    }
  }

  /**
   * Because the flag is never written back, the database still reads as
   * uninitialised after a first store has bootstrapped it, while the
   * bootstrap global decision is already Deny. A second store built on the
   * same database therefore runs initStore again, on a decided bootstrap
   * row (so initStore's assertion fails when assertions are enabled); its
   * writes repeat the first store's, and the rules stay as the first store
   * left them.
   */
  method BootstrapFlagNotPersisted(db: UserDB) returns (first: DBRequestRuleStore, second: DBRequestRuleStore)
    requires !db.permissionsInitialized
    modifies db`permissions
    ensures !db.permissionsInitialized
    ensures first.View() == second.View() == RuleStore.InitStore(old(Decoded(db.permissions)))
    ensures Lookup(second.View(), Bootstrap).0 == Deny
  {
    ghost var before := Decoded(db.permissions);
    first := new DBRequestRuleStore(db);
    InitStoreDecidesBootstrap(before);
    assert Lookup(Decoded(db.permissions), Bootstrap).0.IsDecided();
    second := new DBRequestRuleStore(db);
    InitStoreIdempotent(before);
  }

  /**
   * The harm the unpersisted flag does: a user's decision written at the
   * bootstrap key is in effect until the next store is built on the same
   * database, whose initStore puts the global, image and CSS slots back to
   * their seeded values. Other slots keep the user's decision.
   */
  method BootstrapOverwritesUserDecision(db: UserDB, kind: Option<Kind>, permission: Permission)
    returns (seen: Permission, afterRestart: Permission)
    requires !db.permissionsInitialized
    modifies db`permissions
    ensures seen == permission
    ensures afterRestart == if kind.None? then Deny
                            else if kind == Some(Image) || kind == Some(CSS) then Allow
                            else permission
  {
    seen := DecideAtBootstrap(db, kind, permission);
    ghost var written := Decoded(db.permissions);
    afterRestart := RestartDecision(db, kind);
    InitStoreDecision(written, Bootstrap, SlotOf(kind));
    if kind.Some? && kind != Some(Image) && kind != Some(CSS) {
      assert SlotOf(kind) != 0 && SlotOf(kind) != Image + 1 && SlotOf(kind) != CSS + 1;
    }
  }

  /** A first store is built and the user writes one slot of the bootstrap key, then reads it back. */
  method DecideAtBootstrap(db: UserDB, kind: Option<Kind>, permission: Permission) returns (seen: Permission)
    requires !db.permissionsInitialized
    modifies db`permissions
    ensures !db.permissionsInitialized
    ensures ValidView(Decoded(db.permissions))
    ensures seen == permission == Decision(Decoded(db.permissions), Bootstrap, SlotOf(kind))
  {
    var first := new DBRequestRuleStore(db);
    seen := DecideAndRead(first, kind, permission);
  }

  /** One store's storePermissions at the bootstrap key, then getPermissions there. */
  method DecideAndRead(store: DBRequestRuleStore, kind: Option<Kind>, permission: Permission) returns (seen: Permission)
    requires store.Valid()
    modifies store.userDB`permissions
    ensures seen == permission == Decision(store.View(), Bootstrap, SlotOf(kind))
  {
    ghost var seeded := store.View();
    store.StorePermissions("*", "", kind, permission);
    StoreDecision(seeded, Bootstrap, kind, permission, Bootstrap, SlotOf(kind));
    seen := BootstrapDecision(store, kind);
  }

  /** A later store is built on the same database and the same slot is read. */
  method RestartDecision(db: UserDB, kind: Option<Kind>) returns (p: Permission)
    requires !db.permissionsInitialized
    modifies db`permissions
    ensures p == Decision(RuleStore.InitStore(old(Decoded(db.permissions))), Bootstrap, SlotOf(kind))
  {
    var second := new DBRequestRuleStore(db);
    p := BootstrapDecision(second, kind);
  }

  /** The decision getPermissions("*", "") reports for a kind, or the global one. */
  method BootstrapDecision(store: DBRequestRuleStore, kind: Option<Kind>) returns (p: Permission)
    requires store.Valid()
    ensures p == Decision(store.View(), Bootstrap, SlotOf(kind))
  {
    var global, perKind := store.GetPermissions("*", "");
    p := if kind.None? then global else perKind[kind.value];
  }
}
