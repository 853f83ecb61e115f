/**
 * The RequestRuleStore contract, stated once over an abstract view that both
 * backends refine: a finite map from the exact (frameHost, requestHost) pair
 * to a row of NumKinds+1 decisions, slot 0 holding the global decision and
 * slot k+1 the decision for request kind k.
 *
 * Both hosts are compared by exact string equality (a SQL `=` in the
 * database backend, HashMap lookups in the in-memory one), so a key is a
 * plain pair of strings; no pattern matching happens at this level.
 */
module RuleStore {
  import opened Wrappers
  import opened Permissions

  /** (frameHost, requestHost) */
  type HostPair = (string, string)

  /** The bootstrap key `("*", "")` seeded by initStore. */
  const Bootstrap: HostPair := ("*", "")

  type View = map<HostPair, seq<Permission>>

  /** Every stored row has one decision per slot. */
  predicate ValidView(v: View)
  {
    forall key | key in v :: |v[key]| == Slots
  }

  /** The decision held for a key in a slot; a key that was never stored decides nothing. */
  function Decision(v: View, key: HostPair, slot: Slot): Permission
    requires ValidView(v)
  {
    if key in v then v[key][slot] else Undecided
  }

  /**
   * storePermissions: the key's row (or an all-Undecided row when the key is
   * new) with the one slot overwritten. Storing Undecided overwrites too.
   */
  function Store(v: View, key: HostPair, kind: Option<Kind>, permission: Permission): (w: View)
    requires ValidView(v)
    ensures ValidView(w)
    ensures w.Keys == v.Keys + {key}
  {
    var row := if key in v then v[key] else Undecideds(Slots);
    v[key := row[SlotOf(kind) := permission]]
  }

  /**
   * getPermissions of the contract: the global decision and one decision per
   * kind. The database backend returns exactly this; the in-memory backend
   * differs on an absent key (see InMemoryRuleStore).
   */
  function Lookup(v: View, key: HostPair): (r: (Permission, seq<Permission>))
    requires ValidView(v)
    ensures r.0 == Decision(v, key, 0)
    ensures |r.1| == NumKinds
    ensures forall k: Kind :: r.1[k] == Decision(v, key, k + 1)
  {
    if key in v then (v[key][0], v[key][1..]) else (Undecided, Undecideds(NumKinds))
  }

  /**
   * Read after write, for every key and slot: a store changes exactly the
   * targeted slot of the targeted key and nothing else, whatever the
   * permission (Undecided included).
   */
  lemma {:induction false} StoreDecision(v: View, key: HostPair, kind: Option<Kind>, permission: Permission,
                                         other: HostPair, slot: Slot)
    requires ValidView(v)
    ensures Decision(Store(v, key, kind, permission), other, slot) ==
              if other == key && slot == SlotOf(kind) then permission else Decision(v, other, slot)
  {
    if other == key && key !in v {
      assert Undecideds(Slots)[slot] == Undecided;
    }
  }

  /** Two views holding the same keys and the same decisions are the same view. */
  lemma {:induction false} ViewExtensionality(v: View, w: View)
    requires ValidView(v) && ValidView(w)
    requires v.Keys == w.Keys
    requires forall key: HostPair, slot: Slot :: Decision(v, key, slot) == Decision(w, key, slot)
    ensures v == w
  {
    forall key | key in v ensures v[key] == w[key] {
      assert forall slot: Slot :: v[key][slot] == Decision(v, key, slot) == Decision(w, key, slot) == w[key][slot];
    }
  }

  /** initStore's three writes, in order, all to the bootstrap key. */
  function InitStore(v: View): (w: View)
    requires ValidView(v)
    ensures ValidView(w)
    ensures w.Keys == v.Keys + {Bootstrap}
  {
    var denyAll := Store(v, Bootstrap, None, Deny);
    var allowImages := Store(denyAll, Bootstrap, Some(Image), Allow);
    Store(allowImages, Bootstrap, Some(CSS), Allow)
  }

  /**
   * What initStore leaves behind, slot by slot: Deny globally and Allow for
   * images and style sheets at the bootstrap key; every other slot and every
   * other key as before.
   */
  lemma {:induction false} InitStoreDecision(v: View, key: HostPair, slot: Slot)
    requires ValidView(v)
    ensures Decision(InitStore(v), key, slot) ==
              if key == Bootstrap && slot == 0 then Deny
              else if key == Bootstrap && (slot == Image + 1 || slot == CSS + 1) then Allow
              else Decision(v, key, slot)
  {
    var denyAll := Store(v, Bootstrap, None, Deny);
    var allowImages := Store(denyAll, Bootstrap, Some(Image), Allow);
    StoreDecision(v, Bootstrap, None, Deny, key, slot);
    StoreDecision(denyAll, Bootstrap, Some(Image), Allow, key, slot);
    StoreDecision(allowImages, Bootstrap, Some(CSS), Allow, key, slot);
  }

  /** initStore touches no key other than the bootstrap key. */
  lemma InitStoreFrame(v: View, key: HostPair)
    requires ValidView(v)
    requires key != Bootstrap
    ensures key in InitStore(v) <==> key in v
    ensures key in v ==> InitStore(v)[key] == v[key]
  {
    if key in v {
      forall slot: Slot ensures InitStore(v)[key][slot] == v[key][slot] {
        InitStoreDecision(v, key, slot);
      }
    }
  }

  /**
   * On a store where the bootstrap key was absent, initStore leaves exactly
   * three decided slots there: global Deny, Image Allow, CSS Allow.
   */
  lemma InitStoreFreshBootstrap(v: View)
    requires ValidView(v)
    requires Bootstrap !in v
    ensures Lookup(InitStore(v), Bootstrap) == (Deny, Undecideds(NumKinds)[Image := Allow][CSS := Allow])
  {
    var r := Lookup(InitStore(v), Bootstrap);
    var expected := Undecideds(NumKinds)[Image := Allow][CSS := Allow];
    InitStoreDecision(v, Bootstrap, 0);
    forall k: Kind ensures r.1[k] == expected[k] {
      InitStoreDecision(v, Bootstrap, k + 1);
    }
    assert r.1 == expected;
  }

  /**
   * After initStore the bootstrap global decision is Deny, so the assertion
   * at the head of initStore fails for any second run on the same store.
   */
  lemma InitStoreDecidesBootstrap(v: View)
    requires ValidView(v)
    ensures Lookup(InitStore(v), Bootstrap).0 == Deny
    ensures Lookup(InitStore(v), Bootstrap).0.IsDecided()
  {
    InitStoreDecision(v, Bootstrap, 0);
  }

  /** Running the three writes twice leaves the same view as running them once. */
  lemma InitStoreIdempotent(v: View)
    requires ValidView(v)
    ensures InitStore(InitStore(v)) == InitStore(v)
  {
    var once := InitStore(v);
    forall key: HostPair, slot: Slot ensures Decision(InitStore(once), key, slot) == Decision(once, key, slot) {
      InitStoreDecision(once, key, slot);
      InitStoreDecision(v, key, slot);
    }
    ViewExtensionality(InitStore(once), once);
  }
}
