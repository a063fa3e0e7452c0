/**
 * The PBAP attribute mask (`FilterVcard.checkbit` / `setFilter`): a byte
 * array holding a big-endian integer whose bit `b` says whether vCard
 * property `b` is wanted (section 5.1.4.1 of the Bluetooth Phone Book Access
 * Profile v1.1). Java bytes are signed, but `(x >> s) & 1` for `s < 8` reads
 * bit `s` of the byte either way, so bytes are modelled as 0..255.
 */
module FilterMask {

  type Byte = b: int | 0 <= b < 256

  // Attribute bit numbers used by FilterVcard.
  const FN_BIT: nat := 1
  const PHOTO_BIT: nat := 3
  const BDAY_BIT: nat := 4
  const ADR_BIT: nat := 5
  const EMAIL_BIT: nat := 8
  const TITLE_BIT: nat := 12
  const ORG_BIT: nat := 16
  const NOTES_BIT: nat := 17
  const URL_BIT: nat := 20
  const NICKNAME_BIT: nat := 23

  /** `((x >> s) & 0x01) != 0` for a non-negative `x`. */
  function Bit(x: int, s: nat): bool
    requires x >= 0
  {
    if s == 0 then x % 2 == 1 else Bit(x / 2, s - 1)
  }

  function Pow2(k: nat): (p: nat)
    ensures p >= 1
  {
    if k == 0 then 1 else 2 * Pow2(k - 1)
  }

  /** The mask read as one big-endian unsigned integer. */
  function MaskValue(f: seq<Byte>): (v: nat) {
    if f == [] then 0 else 256 * MaskValue(f[..|f| - 1]) + f[|f| - 1]
  }

  /**
   * `checkbit(attrBit, filter)`: bit `attrBit % 8` of byte
   * `filter[len - 1 - attrBit / 8]`, reached here one byte at a time from the
   * end of the array (`CheckBitIndex` states the index form).
   */
  function CheckBit(attrBit: nat, filter: seq<Byte>): bool
    requires Addressable(attrBit, filter)
  {
    if attrBit < 8 then Bit(filter[|filter| - 1], attrBit)
    else CheckBit(attrBit - 8, filter[..|filter| - 1])
  }

  /** Whether `checkbit(attrBit, filter)` stays inside the array (else Java throws): `attrBit / 8 < len`. */
  predicate Addressable(attrBit: nat, filter: seq<Byte>) {
    attrBit < 8 * |filter|
  }

  /** The ten property flags of a FilterVcard. */
  datatype Flags = Flags(fn: bool, photo: bool, bday: bool, adr: bool, email: bool,
                         title: bool, org: bool, notes: bool, url: bool, nickname: bool)

  /** The flags a new FilterVcard starts with: every property wanted. */
  const AllEnabled: Flags := Flags(true, true, true, true, true, true, true, true, true, true)

  /** The shortest mask `setFilter` accepts: NICKNAME_BIT (23) lives in the third byte from the end. */
  const MIN_MASK_LENGTH: nat := NICKNAME_BIT / 8 + 1

  /** The flags `setFilter` leaves when every `checkbit` succeeds. */
  function MaskFlags(filter: seq<Byte>): Flags
    requires |filter| >= MIN_MASK_LENGTH
  {
    Flags(CheckBit(FN_BIT, filter), CheckBit(PHOTO_BIT, filter), CheckBit(BDAY_BIT, filter),
          CheckBit(ADR_BIT, filter), CheckBit(EMAIL_BIT, filter), CheckBit(TITLE_BIT, filter),
          CheckBit(ORG_BIT, filter), CheckBit(NOTES_BIT, filter), CheckBit(URL_BIT, filter),
          CheckBit(NICKNAME_BIT, filter))
  }

  /**
   * The flags after `setFilter(filter)` starting from `prev`. The fields are
   * assigned in increasing bit order and the first `checkbit` that indexes
   * outside the array throws, which can only happen at the first bit of a
   * byte: a one-byte mask sets FN, PHOTO, BDAY and ADR, a two-byte mask also
   * EMAIL and TITLE, and a longer one every field.
   */
  function UpdatedFlags(prev: Flags, filter: seq<Byte>): (r: Flags) {
    if !Addressable(FN_BIT, filter) then prev
    else if !Addressable(EMAIL_BIT, filter) then
      prev.(fn := CheckBit(FN_BIT, filter), photo := CheckBit(PHOTO_BIT, filter),
            bday := CheckBit(BDAY_BIT, filter), adr := CheckBit(ADR_BIT, filter))
    else if !Addressable(ORG_BIT, filter) then
      prev.(fn := CheckBit(FN_BIT, filter), photo := CheckBit(PHOTO_BIT, filter),
            bday := CheckBit(BDAY_BIT, filter), adr := CheckBit(ADR_BIT, filter),
            email := CheckBit(EMAIL_BIT, filter), title := CheckBit(TITLE_BIT, filter))
    else MaskFlags(filter)
  }

  // ---------------------------------------------------------------------
  // Lemmas

  /** A mask of at least three bytes sets every flag from the mask, whatever was there before. */
  lemma FullMaskOverwrites(prev: Flags, filter: seq<Byte>)
    requires |filter| >= MIN_MASK_LENGTH
    ensures UpdatedFlags(prev, filter) == MaskFlags(filter)
  {
  }

  /** The ten bits live in the last three bytes: bits 1-5 in the last, 8 and 12 in the one before, 16-23 in the third from the end. */
  lemma AddressableBytes(filter: seq<Byte>)
    ensures Addressable(FN_BIT, filter) == Addressable(PHOTO_BIT, filter) == Addressable(BDAY_BIT, filter)
         == Addressable(ADR_BIT, filter) == (|filter| >= 1)
    ensures Addressable(EMAIL_BIT, filter) == Addressable(TITLE_BIT, filter) == (|filter| >= 2)
    ensures Addressable(ORG_BIT, filter) == Addressable(NOTES_BIT, filter) == Addressable(URL_BIT, filter)
         == Addressable(NICKNAME_BIT, filter) == (|filter| >= MIN_MASK_LENGTH) == (|filter| >= 3)
  {
  }

  /** `checkbit`'s own index arithmetic: bit `attrBit % 8` of byte `len - 1 - attrBit / 8`. */
  lemma {:induction false} CheckBitIndex(attrBit: nat, filter: seq<Byte>)
    requires Addressable(attrBit, filter)
    ensures CheckBit(attrBit, filter) == Bit(filter[|filter| - 1 - attrBit / 8], attrBit % 8)
  {
    if attrBit >= 8 {
      var front := filter[..|filter| - 1];
      CheckBitIndex(attrBit - 8, front);
      assert (attrBit - 8) / 8 == attrBit / 8 - 1 && (attrBit - 8) % 8 == attrBit % 8;
    }
  }

  /** Bits of `2^k * high + low`, `low < 2^k`: the low `k` bits come from `low`, the rest from `high`. */
  lemma {:induction false} BitOfShifted(k: nat, high: nat, low: nat, s: nat)
    requires low < Pow2(k)
    ensures Bit(Pow2(k) * high + low, s) == if s < k then Bit(low, s) else Bit(high, s - k)
  {
    if k > 0 {
      var m := Pow2(k - 1) * high;
      assert Pow2(k) * high == 2 * m;
      assert (2 * m + low) % 2 == low % 2;
      assert (2 * m + low) / 2 == m + low / 2;
      if s > 0 {
        BitOfShifted(k - 1, high, low / 2, s - 1);
      }
    }
  }

  /**
   * `checkbit(b, f)` reads bit `b` of the mask taken as a big-endian number:
   * byte `f[len - 1]` holds bits 0..7, `f[len - 2]` bits 8..15, and so on.
   */
  lemma {:induction false} CheckBitIsMaskBit(attrBit: nat, filter: seq<Byte>)
    requires attrBit / 8 < |filter|
    ensures CheckBit(attrBit, filter) == Bit(MaskValue(filter), attrBit)
  {
    var n := |filter|;
    var front := filter[..n - 1];
    assert Pow2(8) == 256;
    BitOfShifted(8, MaskValue(front), filter[n - 1], attrBit);
    if attrBit >= 8 {
      CheckBitIsMaskBit(attrBit - 8, front);
      assert front[|front| - 1 - (attrBit - 8) / 8] == filter[n - 1 - attrBit / 8];
    }
  }
}
