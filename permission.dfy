/**
 * The three-valued decision of the permission system and the request kinds
 * it is kept for.
 *
 * The request-kind enumeration, org.cobraparser.ua.UserAgentContext.RequestKind,
 * is not part of this model, so its size and the ordinals of Image and CSS are
 * left abstract. All the model relies on is that the kinds are the ordinals
 * 0 .. NumKinds-1 with at least two of them, that all NumKinds+1 two-bit
 * slots fit into a 32-bit int, and that Image and CSS are two different kinds.
 */
module Permissions {
  import opened Wrappers

  datatype Permission = Undecided | Allow | Deny {
    /** Allow and Deny are authoritative; Undecided falls through. */
    predicate IsDecided() {
      Allow? || Deny?
    }
  }

  type KindCount = n: nat | 2 <= n && 2 * (n + 1) <= 32 witness 2

  /** RequestKind.numKinds() */
  const NumKinds: KindCount

  /** A RequestKind, by its ordinal. */
  type Kind = k: nat | k < NumKinds witness 0

  type DistinctKinds = p: (nat, nat) | p.0 < NumKinds && p.1 < NumKinds && p.0 != p.1 witness (0, 1)

  const SeededKinds: DistinctKinds

  const Image: Kind := SeededKinds.0
  const CSS: Kind := SeededKinds.1

  /** Slot 0 holds the global decision, slot k+1 the decision for kind k. */
  const Slots: nat := NumKinds + 1

  type Slot = s: nat | s < Slots

  /** The slot a store writes for an optional kind: `kindOpt.map(k -> k.ordinal() + 1).orElse(0)`. */
  function SlotOf(kind: Option<Kind>): (s: Slot)
    ensures kind.None? <==> s == 0
    ensures kind.Some? ==> s - 1 == kind.value
  {
    match kind
    case None => 0
    case Some(k) => k + 1
  }

  /** A sequence of n Undecided decisions. */
  function Undecideds(n: nat): (r: seq<Permission>)
    ensures |r| == n
    ensures forall i :: 0 <= i < n ==> r[i] == Undecided
  {
    seq(n, _ => Undecided)
  }

  /**
   * The static initialiser of both stores' default arrays: a fresh array of
   * the given length filled with Undecided.
   */
  method UndecidedArray(length: nat) returns (a: array<Permission>)
    ensures fresh(a)
    ensures a[..] == Undecideds(length)
  {
    a := new Permission[length];
    for i := 0 to length
      invariant forall j :: 0 <= j < i ==> a[j] == Undecided
    {
      a[i] := Undecided;
    }
  }
}
