/**
 * The packed encoding DBRequestRuleStore keeps in the `permissions` column:
 * one 32-bit Java int, two bits per slot, slot 0 in the lowest two bits.
 * Per slot, 00 and 01 mean Undecided, 10 means Deny and 11 means Allow.
 *
 * Java's `int` is modelled as `bv32`, so `<<`, `>>`, `&`, `|` and `~` are
 * exact. Java's `>>` is arithmetic and Dafny's is logical; they differ only
 * in the bits shifted in at the top, which the `& 0x3` of every read throws
 * away (no slot reaches above bit 31).
 *
 * The codec itself works on a 5-bit field index (one of the sixteen two-bit
 * fields of an int), so that its proofs stay within bit-vector arithmetic;
 * the stores' integer slot index is converted once, by FieldOf.
 */
module BitCodec {
  import opened Permissions

  /** One of the sixteen two-bit fields of a 32-bit value. */
  type Field = f: bv5 | f < 16

  /** The field holding a store slot; every slot has one because 2 * (NumKinds + 1) <= 32. */
  function FieldOf(slot: Slot): Field
  {
    slot as bv5
  }

  /** The position of a field's low bit: `slot * BITS_PER_KIND`, with BITS_PER_KIND = 2. */
  function BitPos(field: Field): bv5
  {
    field * 2
  }

  /** Whether bit n of a packed value is set. */
  predicate BitSet(bits: bv32, n: bv5)
  {
    (bits >> n) & 1 == 1
  }

  /** Whether bit n is one of the two bits of the given field. */
  predicate InField(n: bv5, field: Field)
  {
    n == BitPos(field) || n == BitPos(field) + 1
  }

  /** decodeBits: the decision held in field i. Total: every bit pattern decodes. */
  function DecodeBits(bits: bv32, i: Field): (p: Permission)
    ensures p == Undecided <==> !BitSet(bits, BitPos(i) + 1)
    ensures p == Allow <==> BitSet(bits, BitPos(i) + 1) && BitSet(bits, BitPos(i))
    ensures p == Deny <==> BitSet(bits, BitPos(i) + 1) && !BitSet(bits, BitPos(i))
  {
    var permissionBits := (bits >> BitPos(i)) & 0x3;
    if permissionBits < 2 then Undecided
    else if permissionBits == 0x3 then Allow else Deny
  }

  /**
   * makeBitBlockMask: all bits set except the two of the targeted field,
   * including the bits above the last slot.
   */
  function MakeBitBlockMask(field: Field): (r: bv32)
    ensures forall n: bv5 :: BitSet(r, n) <==> !InField(n, field)
  {
    !(0x3 << BitPos(field))
  }

  /**
   * makeBitSetMask: 11 (Allow) or 10 (Deny) in the targeted field and nothing
   * elsewhere; 0 for Undecided.
   */
  function MakeBitSetMask(field: Field, permission: Permission): (r: bv32)
    ensures forall n: bv5 :: BitSet(r, n) ==> InField(n, field)
    ensures DecodeBits(r, field) == permission
  {
    if !permission.IsDecided() then 0
    else (if permission == Allow then 0x3 else 0x2) << BitPos(field)
  }

  /** The set mask is zero exactly when the permission is Undecided. */
  lemma SetMaskZero(field: Field, permission: Permission)
    ensures MakeBitSetMask(field, permission) == 0 <==> !permission.IsDecided()
  {
    if permission.IsDecided() {
      assert BitSet(MakeBitSetMask(field, permission), BitPos(field) + 1);
    }
  }

  /** A value with bits only inside one field decodes to Undecided in every other field. */
  lemma DecodeOutsideField(r: bv32, field: Field, j: Field)
    requires forall n: bv5 :: BitSet(r, n) ==> InField(n, field)
    requires j != field
    ensures DecodeBits(r, j) == Undecided
  {
    assert !InField(BitPos(j) + 1, field);
  }

  /** A set mask decodes to the stored permission in its field and to Undecided in every other. */
  lemma SetMaskFields(field: Field, permission: Permission)
    ensures forall j: Field :: DecodeBits(MakeBitSetMask(field, permission), j) ==
              if j == field then permission else Undecided
  {
    forall j: Field | j != field
      ensures DecodeBits(MakeBitSetMask(field, permission), j) == Undecided
    {
      DecodeOutsideField(MakeBitSetMask(field, permission), field, j);
    }
  }

  /**
   * The read-modify-write storePermissions applies to an existing row:
   * `(existing & makeBitBlockMask(kind)) | makeBitSetMask(kind, permission)`.
   */
  function ReplaceSlot(bits: bv32, field: Field, permission: Permission): bv32
  {
    (bits & MakeBitBlockMask(field)) | MakeBitSetMask(field, permission)
  }

  lemma BitOfAnd(a: bv32, b: bv32, n: bv5)
    ensures BitSet(a & b, n) <==> BitSet(a, n) && BitSet(b, n)
  {
  }

  lemma BitOfOr(a: bv32, b: bv32, n: bv5)
    ensures BitSet(a | b, n) <==> BitSet(a, n) || BitSet(b, n)
  {
  }

  /** One bit of `(bits & block) | setMask`, for any block mask clearing exactly a field and any set mask inside it. */
  lemma MaskedBit(bits: bv32, block: bv32, setMask: bv32, field: Field, n: bv5)
    requires BitSet(block, n) <==> !InField(n, field)
    requires BitSet(setMask, n) ==> InField(n, field)
    ensures BitSet((bits & block) | setMask, n) <==>
              if InField(n, field) then BitSet(setMask, n) else BitSet(bits, n)
  {
    BitOfOr(bits & block, setMask, n);
    BitOfAnd(bits, block, n);
  }

  /** One bit of a replaced row inside the targeted field: the set mask's bit. */
  lemma ReplaceSlotBitInside(bits: bv32, field: Field, permission: Permission, n: bv5)
    requires InField(n, field)
    ensures BitSet(ReplaceSlot(bits, field, permission), n) <==> BitSet(MakeBitSetMask(field, permission), n)
  {
    MaskedBit(bits, MakeBitBlockMask(field), MakeBitSetMask(field, permission), field, n);
  }

  /** One bit of a replaced row outside the targeted field: the old bit. */
  lemma ReplaceSlotBitOutside(bits: bv32, field: Field, permission: Permission, n: bv5)
    requires !InField(n, field)
    ensures BitSet(ReplaceSlot(bits, field, permission), n) <==> BitSet(bits, n)
  {
    var block, setMask := MakeBitBlockMask(field), MakeBitSetMask(field, permission);
    BitOfOr(bits & block, setMask, n);
    BitOfAnd(bits, block, n);
    assert BitSet(block, n);
    assert !BitSet(setMask, n);
  }

  /** One bit of a replaced row: the set mask's bit inside the field, the old bit outside it. */
  lemma ReplaceSlotBit(bits: bv32, field: Field, permission: Permission, n: bv5)
    ensures BitSet(ReplaceSlot(bits, field, permission), n) <==>
              if InField(n, field) then BitSet(MakeBitSetMask(field, permission), n) else BitSet(bits, n)
  {
    if InField(n, field) {
      ReplaceSlotBitInside(bits, field, permission, n);
    } else {
      ReplaceSlotBitOutside(bits, field, permission, n);
    }
  }

  /** Slot isolation at one field j: only the targeted field's decoding changes. */
  lemma ReplaceSlotAt(bits: bv32, field: Field, permission: Permission, j: Field)
    ensures DecodeBits(ReplaceSlot(bits, field, permission), j) ==
              if j == field then permission else DecodeBits(bits, j)
  {
    ReplaceSlotBit(bits, field, permission, BitPos(j));
    ReplaceSlotBit(bits, field, permission, BitPos(j) + 1);
    if j != field {
      assert !InField(BitPos(j), field) && !InField(BitPos(j) + 1, field);
    }
  }

  /**
   * Slot isolation: replacing one field leaves every bit outside it as it
   * was and makes the field decode to the stored permission. Storing
   * Undecided does not leave the field alone: it resets both bits to 00.
   */
  lemma ReplaceSlotIsolation(bits: bv32, field: Field, permission: Permission)
    ensures forall n: bv5 :: !InField(n, field) ==>
              (BitSet(ReplaceSlot(bits, field, permission), n) <==> BitSet(bits, n))
    ensures !permission.IsDecided() ==>
              !BitSet(ReplaceSlot(bits, field, permission), BitPos(field)) &&
              !BitSet(ReplaceSlot(bits, field, permission), BitPos(field) + 1)
    ensures forall j: Field :: DecodeBits(ReplaceSlot(bits, field, permission), j) ==
              if j == field then permission else DecodeBits(bits, j)
  {
    forall n: bv5 | !InField(n, field)
      ensures BitSet(ReplaceSlot(bits, field, permission), n) <==> BitSet(bits, n)
    {
      ReplaceSlotBit(bits, field, permission, n);
    }
    if !permission.IsDecided() {
      ReplaceSlotBit(bits, field, permission, BitPos(field));
      ReplaceSlotBit(bits, field, permission, BitPos(field) + 1);
    }
    forall j: Field
      ensures DecodeBits(ReplaceSlot(bits, field, permission), j) ==
                if j == field then permission else DecodeBits(bits, j)
    {
      ReplaceSlotAt(bits, field, permission, j);
    }
  }

  /** All NumKinds+1 decoded slots of a packed value, slot 0 first. */
  function DecodeRow(bits: bv32): (row: seq<Permission>)
    ensures |row| == Slots
    ensures forall i: Slot :: row[i] == DecodeBits(bits, FieldOf(i))
  {
    seq(Slots, (i: nat) requires i < Slots => DecodeBits(bits, FieldOf(i)))
  }

  lemma FieldOfInjective(i: Slot, slot: Slot)
    ensures FieldOf(i) == FieldOf(slot) <==> i == slot
  {
  }

  /** A value that agrees with `bits` on every field but one decodes to the row with that slot replaced. */
  lemma DecodeRowSlotwise(r: bv32, bits: bv32, slot: Slot, permission: Permission)
    requires forall j: Field :: DecodeBits(r, j) == if j == FieldOf(slot) then permission else DecodeBits(bits, j)
    ensures DecodeRow(r) == DecodeRow(bits)[slot := permission]
  {
    forall i: Slot ensures DecodeRow(r)[i] == DecodeRow(bits)[slot := permission][i] {
      FieldOfInjective(i, slot);
    }
  }

  /** A zero value, the implicit base of a row that does not exist yet, decodes to all Undecided. */
  lemma DecodeZero()
    ensures DecodeRow(0) == Undecideds(Slots)
  {
    forall i: Slot ensures DecodeRow(0)[i] == Undecided {
      assert !BitSet(0, BitPos(FieldOf(i)) + 1);
    }
  }

  /** Slot isolation, row-wise: replacing one slot changes that slot's decoding and no other. */
  lemma DecodeReplaceSlot(bits: bv32, slot: Slot, permission: Permission)
    ensures DecodeRow(ReplaceSlot(bits, FieldOf(slot), permission)) == DecodeRow(bits)[slot := permission]
  {
    ReplaceSlotIsolation(bits, FieldOf(slot), permission);
    DecodeRowSlotwise(ReplaceSlot(bits, FieldOf(slot), permission), bits, slot, permission);
  }

  /** A row inserted with just the set mask decodes to all Undecided except the targeted slot. */
  lemma DecodeSetMask(slot: Slot, permission: Permission)
    ensures DecodeRow(MakeBitSetMask(FieldOf(slot), permission)) == Undecideds(Slots)[slot := permission]
  {
    SetMaskFields(FieldOf(slot), permission);
    DecodeZero();
    DecodeRowSlotwise(MakeBitSetMask(FieldOf(slot), permission), 0, slot, permission);
  }
}
