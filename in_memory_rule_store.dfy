/**
 * InMemoryRequestRuleStore: the rule store kept in a nested HashMap,
 * frameHost -> requestHost -> Permission[NumKinds+1], whose arrays are
 * overwritten in place.
 *
 * The inner HashMaps never leave the store, so they are modelled as map
 * values that the store field is reassigned with; the arrays, which the
 * store writes in place, stay arrays.
 */
module InMemoryRuleStore {
  import opened Wrappers
  import opened Permissions
  import opened RuleStore

  /** Arrays.copyOfRange: a fresh array holding a[from..to]. */
  method CopyOfRange(a: array<Permission>, from: nat, to: nat) returns (b: array<Permission>)
    requires from <= to <= a.Length
    ensures fresh(b)
    ensures b[..] == a[from..to]
  {
    b := new Permission[to - from];
    for i := 0 to to - from
      invariant forall j :: 0 <= j < i ==> b[j] == a[from + j]
    {
      b[i] := a[from + i];
    }
  }

  type NestedStore = map<string, map<string, array<Permission>>>

  /**
   * The flat map of arrays lists exactly the arrays of the nested store,
   * each under its (frameHost, requestHost); owner maps each array back to
   * its key, so no array appears under two keys.
   */
  ghost predicate Linked(store: NestedStore, cells: map<HostPair, array<Permission>>, owner: map<array<Permission>, HostPair>)
  {
    && (forall key | key in cells ::
          && key.0 in store && key.1 in store[key.0] && store[key.0][key.1] == cells[key]
          && cells[key] in owner && owner[cells[key]] == key)
    && (forall frameHost, requestHost | frameHost in store && requestHost in store[frameHost] ::
          (frameHost, requestHost) in cells)
  }

  /**
   * The nested store after an array was put under (frameHost, requestHost):
   * into the frame host's inner map, or into a new inner map holding only
   * it when the frame host was absent; every other entry as before.
   */
  ghost predicate AddedUnder(before: NestedStore, after: NestedStore, frameHost: string, requestHost: string)
  {
    && frameHost in after && requestHost in after[frameHost]
    && after == before[frameHost := (if frameHost in before then before[frameHost] else map[])[requestHost := after[frameHost][requestHost]]]
  }

  /** Two keys of linked maps hold two different arrays. */
  lemma LinkedDistinct(store: NestedStore, cells: map<HostPair, array<Permission>>, owner: map<array<Permission>, HostPair>,
                       key1: HostPair, key2: HostPair)
    requires Linked(store, cells, owner)
    requires key1 in cells && key2 in cells && key1 != key2
    ensures cells[key1] != cells[key2]
  {
  }

  /** Putting a new array under a new key keeps the two maps linked. */
  lemma LinkedPut(store: NestedStore, cells: map<HostPair, array<Permission>>, owner: map<array<Permission>, HostPair>,
                  frameHost: string, inner: map<string, array<Permission>>, requestHost: string, added: array<Permission>)
    requires Linked(store, cells, owner)
    requires (frameHost, requestHost) !in cells
    requires added !in cells.Values
    requires inner == (if frameHost in store then store[frameHost] else map[])[requestHost := added]
    ensures Linked(store[frameHost := inner], cells[(frameHost, requestHost) := added], owner[added := (frameHost, requestHost)])
  {
    var store', cells', owner' := store[frameHost := inner], cells[(frameHost, requestHost) := added], owner[added := (frameHost, requestHost)];
    forall key | key in cells'
      ensures key.0 in store' && key.1 in store'[key.0] && store'[key.0][key.1] == cells'[key]
      ensures cells'[key] in owner' && owner'[cells'[key]] == key
    {
      if key != (frameHost, requestHost) {
        assert cells[key] in cells.Values;
        if key.0 == frameHost {
          assert key.1 != requestHost;
        }
      }
    }
    forall fh, rh | fh in store' && rh in store'[fh] ensures (fh, rh) in cells' {
      if fh == frameHost && rh != requestHost {
        assert rh in store[fh];
      }
    }
  }

  /** The rules are the contents of the arrays: one array per key, one cell per slot. */
  ghost predicate Holds(cells: map<HostPair, array<Permission>>, rules: View)
    reads cells.Values
  {
    && cells.Keys == rules.Keys
    && forall key {:trigger rules[key]} | key in cells :: |rules[key]| == Slots && cells[key][..] == rules[key]
  }

  /** A new array holding a row, put under a key, holds that row there. */
  lemma HoldsPut(cells: map<HostPair, array<Permission>>, rules: View, key: HostPair, added: array<Permission>)
    requires Holds(cells, rules)
    requires added !in cells.Values && added.Length == Slots
    ensures Holds(cells[key := added], rules[key := added[..]])
  {
    var cells', rules' := cells[key := added], rules[key := added[..]];
    forall other | other in cells' ensures |rules'[other]| == Slots && cells'[other][..] == rules'[other] {
      if other != key {
        assert cells'[other] == cells[other];
      }
    }
  }

  class InMemoryRequestRuleStore {
    var store: NestedStore
    /** The shared defaultPermissions array: NumKinds+1 Undecided decisions. */
    const defaults: array<Permission>
    /** The rules the store holds, keyed by (frameHost, requestHost). */
    ghost var rules: View
    /** The stored arrays, keyed by (frameHost, requestHost): the nested map flattened. */
    ghost var cells: map<HostPair, array<Permission>>
    /** The key each stored array is kept under. */
    ghost var owner: map<array<Permission>, HostPair>
    /** This store, the default array and every stored array. */
    ghost var Repr: set<object>

    /**
     * The rules are the contents of the stored arrays (Holds). The arrays
     * are those of the nested store (Linked), none of them is the shared
     * default array, and no two keys share one, so writing one cell changes
     * one key's rules only.
     */
    ghost predicate Valid()
      reads this, Repr
    {
      && this in Repr && defaults in Repr
      && defaults.Length == Slots
      && defaults[..] == Undecideds(Slots)
      && Linked(store, cells, owner)
      && cells.Values <= Repr
      && defaults !in cells.Values
      && Holds(cells, rules)
    }

    /** The constructor: an empty store seeded by initStore. */
    constructor ()
      ensures Valid() && fresh(defaults)
      ensures ValidView(rules) && rules == RuleStore.InitStore(map[])
    {
      var defaultPermissions := UndecidedArray(Slots);
      store, defaults, rules, cells, owner := map[], defaultPermissions, map[], map[], map[];
      Repr := {this, defaultPermissions};
      new;
      InitStore();
    }

    /** Valid rules form a valid view: every row has one decision per slot. */
    lemma ValidRules()
      requires Valid()
      ensures ValidView(rules)
    {
    }

    /**
     * getPermissions: a stored key gives its slot 0 and a fresh copy of the
     * rest, as the contract's Lookup says. An absent frame host or request
     * host gives Undecided with the shared default array itself, which is
     * NumKinds+1 long, one longer than a stored row's per-kind part.
     */
    method GetPermissions(frameHostPattern: string, requestHost: string) returns (global: Permission, perKind: array<Permission>)
      requires Valid()
      ensures ValidView(rules)
      ensures (frameHostPattern, requestHost) in rules ==>
                fresh(perKind) && (global, perKind[..]) == Lookup(rules, (frameHostPattern, requestHost))
      ensures (frameHostPattern, requestHost) !in rules ==>
                global == Undecided && perKind == defaults && perKind[..] == Undecideds(NumKinds + 1)
    {
      ValidRules();
      if frameHostPattern in store {
        var reqHostMap := store[frameHostPattern];
        if requestHost in reqHostMap {
          var permissions := reqHostMap[requestHost];
          global := permissions[0];
          perKind := CopyOfRange(permissions, 1, permissions.Length);
          assert (frameHostPattern, requestHost) in cells;
          assert perKind[..] == rules[(frameHostPattern, requestHost)][1..];
        } else {
          global, perKind := Undecided, defaults;
        }
      } else {
        global, perKind := Undecided, defaults;
      }
    }

    /**
     * addPermission: a copy of the default array with one cell set, under
     * the request host, in the given inner map (which is returned updated).
     */
    method AddPermission(requestHost: string, index: Slot, permission: Permission,
                         reqHostMap: map<string, array<Permission>>) returns (updated: map<string, array<Permission>>)
      requires Valid()
      ensures requestHost in updated && fresh(updated[requestHost])
      ensures updated == reqHostMap[requestHost := updated[requestHost]]
      ensures updated[requestHost][..] == Undecideds(Slots)[index := permission]
    {
      var newPermissions := CopyOfRange(defaults, 0, defaults.Length);
      newPermissions[index] := permission;
      updated := reqHostMap[requestHost := newPermissions];
    }

    /**
     * storePermissions: an existing key's array is overwritten in place at
     * index ordinal+1 (0 for the global decision) and the maps stay as they
     * were; a new request host gets a fresh array; a new frame host gets a
     * new inner map holding only that request host. In every case the rules
     * change exactly as the contract's Store says.
     */
    method StorePermissions(frameHostPattern: string, requestHost: string, kind: Option<Kind>, permission: Permission)
      requires Valid()
      modifies Repr
      ensures Valid() && ValidView(old(rules))
      ensures fresh(Repr - old(Repr))
      ensures rules == Store(old(rules), (frameHostPattern, requestHost), kind, permission)
      ensures frameHostPattern in old(store) && requestHost in old(store)[frameHostPattern] ==>
                store == old(store) && Repr == old(Repr)
      ensures !(frameHostPattern in old(store) && requestHost in old(store)[frameHostPattern]) ==>
                AddedUnder(old(store), store, frameHostPattern, requestHost) && fresh(store[frameHostPattern][requestHost])
    {
      if frameHostPattern in store && requestHost in store[frameHostPattern] {
        WriteInPlace(frameHostPattern, requestHost, kind, permission, store[frameHostPattern][requestHost]);
      } else {
        AddNew(frameHostPattern, requestHost, kind, permission);
      }
    }

    /**
     * The two branches of storePermissions for a key without an array: a
     * fresh array from addPermission, put under the request host in the
     * frame host's inner map, or in a new inner map when the frame host is
     * new too.
     */
    method AddNew(frameHostPattern: string, requestHost: string, kind: Option<Kind>, permission: Permission)
      requires Valid()
      requires !(frameHostPattern in store && requestHost in store[frameHostPattern])
      modifies this
      ensures Valid() && ValidView(old(rules))
      ensures fresh(Repr - old(Repr))
      ensures rules == Store(old(rules), (frameHostPattern, requestHost), kind, permission)
      ensures AddedUnder(old(store), store, frameHostPattern, requestHost)
      ensures fresh(store[frameHostPattern][requestHost])
    {
      ValidRules();
      var index := SlotOf(kind);
      assert (frameHostPattern, requestHost) !in cells;
      if frameHostPattern in store {
        var reqHostMap := AddPermission(requestHost, index, permission, store[frameHostPattern]);
        PutRequestHostMap(frameHostPattern, requestHost, kind, permission, reqHostMap);
      } else {
        var newReqHostMap := AddPermission(requestHost, index, permission, map[]);
        PutRequestHostMap(frameHostPattern, requestHost, kind, permission, newReqHostMap);
      }
    }

    /**
     * permissions[index] = permission on the array already stored for the
     * key: only that array changes, and the rules of that key only.
     */
    method WriteInPlace(frameHostPattern: string, requestHost: string, kind: Option<Kind>, permission: Permission,
                        permissions: array<Permission>)
      requires Valid()
      requires frameHostPattern in store && requestHost in store[frameHostPattern]
      requires permissions == store[frameHostPattern][requestHost]
      modifies permissions, this`rules
      ensures store == old(store) && Repr == old(Repr)
      ensures Valid() && ValidView(old(rules))
      ensures rules == Store(old(rules), (frameHostPattern, requestHost), kind, permission)
    {
      ValidRules();
      var key := (frameHostPattern, requestHost);
      assert key in cells && cells[key] == permissions;
      permissions[SlotOf(kind)] := permission;
      rules := Store(rules, key, kind, permission);
      forall other | other in cells && other != key
        ensures cells[other][..] == rules[other]
      {
        LinkedDistinct(store, cells, owner, other, key);
      }
      assert Holds(cells, rules);
    }

    /**
     * store.put(frameHostPattern, reqHostMap) once reqHostMap holds a new
     * array for a request host the store did not have under that frame host.
     */
    method PutRequestHostMap(frameHostPattern: string, requestHost: string, kind: Option<Kind>, permission: Permission,
                             reqHostMap: map<string, array<Permission>>)
      requires Valid()
      requires (frameHostPattern, requestHost) !in rules
      requires requestHost in reqHostMap && reqHostMap[requestHost] !in Repr
      requires reqHostMap == (if frameHostPattern in store then store[frameHostPattern] else map[])[requestHost := reqHostMap[requestHost]]
      requires reqHostMap[requestHost][..] == Undecideds(Slots)[SlotOf(kind) := permission]
      modifies this
      ensures Valid() && ValidView(old(rules))
      ensures rules == Store(old(rules), (frameHostPattern, requestHost), kind, permission)
      ensures store == old(store)[frameHostPattern := reqHostMap]
      ensures Repr == old(Repr) + {reqHostMap[requestHost]}
    {
      ValidRules();
      var key := (frameHostPattern, requestHost);
      var added := reqHostMap[requestHost];
      ghost var store0, rules0, cells0, owner0, repr0 := store, rules, cells, owner, Repr;
      store, rules, cells, owner, Repr :=
        store[frameHostPattern := reqHostMap], rules[key := added[..]], cells[key := added], owner[added := key], Repr + {added};
      assert Holds(cells0, rules0) && defaults[..] == Undecideds(Slots);
      PutValid(store0, rules0, cells0, owner0, repr0, key, added, reqHostMap);
    }

    /**
     * The invariant after PutRequestHostMap's bookkeeping, from the
     * invariant's parts before it (the fields' old values, whose arrays the
     * bookkeeping does not touch).
     */
    lemma PutValid(store0: NestedStore, rules0: View, cells0: map<HostPair, array<Permission>>,
                   owner0: map<array<Permission>, HostPair>, repr0: set<object>,
                   key: HostPair, added: array<Permission>, inner: map<string, array<Permission>>)
      requires this in repr0 && defaults in repr0 && defaults.Length == Slots && defaults[..] == Undecideds(Slots)
      requires Linked(store0, cells0, owner0) && cells0.Values <= repr0 && defaults !in cells0.Values && Holds(cells0, rules0)
      requires key !in cells0 && added !in repr0 && added.Length == Slots
      requires inner == (if key.0 in store0 then store0[key.0] else map[])[key.1 := added]
      requires store == store0[key.0 := inner] && cells == cells0[key := added] && owner == owner0[added := key]
      requires rules == rules0[key := added[..]] && Repr == repr0 + {added}
      ensures Valid()
    {
      assert added !in cells0.Values;
      LinkedPut(store0, cells0, owner0, key.0, inner, key.1, added);
      HoldsPut(cells0, rules0, key, added);
    }

    /**
     * HelperPrivate.initStore applied to this store. Its Java assertion that
     * the bootstrap global decision is still undecided is checked only when
     * assertions are enabled, so it does not guard the three writes.
     */
    method InitStore()
      requires Valid()
      requires ValidView(rules)
      modifies Repr
      ensures Valid() && ValidView(old(rules))
      ensures rules == RuleStore.InitStore(old(rules))
    {
      var _, _ := GetPermissions("*", "");
      StorePermissions("*", "", None, Deny);
      StorePermissions("*", "", Some(Image), Allow);
      StorePermissions("*", "", Some(CSS), Allow);
    }
  }

  /**
   * After construction, getPermissions("*", "") yields global Deny, Image
   * and CSS Allow, and every other kind Undecided.
   */
  method ConstructedBootstrap() returns (global: Permission, perKind: array<Permission>)
    ensures global == Deny
    ensures perKind[..] == Undecideds(NumKinds)[Image := Allow][CSS := Allow]
  {
    var s := new InMemoryRequestRuleStore();
    InitStoreFreshBootstrap(map[]);
    global, perKind := s.GetPermissions("*", "");
  }
}
