/**
 * `BluetoothPbapVcardManager.FilterVcard`: ten property flags set from the
 * peer's attribute mask, and `applyFilter`, which blanks lines of one
 * mutable `attr[]` array in nine passes and joins what is left.
 */
module VcardFilter {
  import opened Wrappers
  import opened JavaStrings
  import opened FilterMask
  import opened FilterSpec

  class FilterVcard {
    var fn: bool
    var photo: bool
    var bday: bool
    var adr: bool
    var email: bool
    var title: bool
    var org: bool
    var notes: bool
    var url: bool
    var nickname: bool

    /** The ten flags as one value. */
    function Flags(): Flags
      reads this
    {
      FilterMask.Flags(fn, photo, bday, adr, email, title, org, notes, url, nickname)
    }

    /** A new filter wants every property, so the photo is enabled. */
    constructor ()
      ensures Flags() == AllEnabled
      ensures IsPhotoEnabled()
    {
      fn, photo, bday, adr, email, title, org, notes, url, nickname :=
        true, true, true, true, true, true, true, true, true, true;
    }

    /**
     * `setFilter(filter)`. `thrown` stands for the exception Java raises: a
     * NullPointerException for a null mask, an ArrayIndexOutOfBounds
     * exception at the first bit whose byte lies outside the array; the fields
     * assigned before that keep their new values.
     */
    method SetFilter(filter: Option<seq<Byte>>) returns (thrown: bool)
      modifies this
      ensures thrown <==> filter.None? || |filter.value| < MIN_MASK_LENGTH
      ensures filter.None? ==> Flags() == old(Flags())
      ensures filter.Some? ==> Flags() == UpdatedFlags(old(Flags()), filter.value)
      ensures !thrown ==> Flags() == MaskFlags(filter.value)
    {
      if filter.None? {
        return true;
      }
      var f := filter.value;
      AddressableBytes(f);
      // checkbit indexes byte len - 1 - bit / 8; it can first fall outside the
      // array at the lowest bit of each byte: FN (byte 0), EMAIL (1), ORG (2).
      thrown := true;
      if !Addressable(FN_BIT, f) { return; }
      fn := CheckBit(FN_BIT, f);
      photo := CheckBit(PHOTO_BIT, f);
      bday := CheckBit(BDAY_BIT, f);
      adr := CheckBit(ADR_BIT, f);
      if !Addressable(EMAIL_BIT, f) { return; }
      email := CheckBit(EMAIL_BIT, f);
      title := CheckBit(TITLE_BIT, f);
      if !Addressable(ORG_BIT, f) { return; }
      org := CheckBit(ORG_BIT, f);
      notes := CheckBit(NOTES_BIT, f);
      url := CheckBit(URL_BIT, f);
      nickname := CheckBit(NICKNAME_BIT, f);
      assert Flags() == MaskFlags(f);
      FullMaskOverwrites(old(Flags()), f);
      thrown := false;
    }

    /** `isPhotoEnabled()` */
    predicate IsPhotoEnabled()
      reads this
    {
      photo
    }

    /**
     * `applyFilter(vCard, vCardType21)`: the fields are only read, so the
     * work is done by `FilterLines` on their current values.
     */
    method ApplyFilter(vCard: string, vCardType21: bool) returns (filteredVcard: string)
      ensures filteredVcard == FilteredVcard(vCard, Flags(), vCardType21)
    {
      filteredVcard := FilterLines(vCard, Flags(), vCardType21);
    }
  }

  /**
   * The body of applyFilter for flags `f`: split into lines, the nine
   * passes, the IM and SIP blocks, then the join of the non-empty lines.
   */
  method FilterLines(vCard: string, f: Flags, vCardType21: bool) returns (filteredVcard: string)
    ensures filteredVcard == FilteredVcard(vCard, f, vCardType21)
  {
    var attr := new string[|Split(vCard)|](k requires 0 <= k < |Split(vCard)| => Split(vCard)[k]);
    RunPasses(attr, vCard, f, vCardType21);
    var text := ScrubImSip(vCard, attr);
    filteredVcard := JoinNonEmpty(attr);
  }

  /**
   * The nine guarded passes, in the source's order. The source writes them
   * out one after another; here pass `k` strips `Pass(k)` under the guard
   * `Strips(f, vCardType21, Pass(k))`, which is the source's condition for
   * that block.
   */
  method RunPasses(attr: array<string>, vCard: string, f: Flags, vCardType21: bool)
    requires attr[..] == Split(vCard)
    modifies attr
    ensures attr[..] == Blank(Split(vCard), DisabledProperties(f, vCardType21))
  {
    BlankWithoutTags(Split(vCard), []);
    for k := 0 to PASS_COUNT
      invariant AfterPasses(attr[..], vCard, f, vCardType21, k)
    {
      FilterPass(attr, vCard, k, Strips(f, vCardType21, Pass(k)), f, vCardType21);
    }
  }

  /**
   * The IM and SIP blocks. No PBAP bit exists for them, and the source
   * "removes" their lines from its local copy of the vCard string only: the
   * returned `text` is that copy, which applyFilter never uses.
   */
  method ScrubImSip(vCard: string, attr: array<string>) returns (text: string)
  {
    text := vCard;
    if Contains(ToUpperAscii(text), "IM") {
      for i := 0 to attr.Length {
        if Contains(ToUpperAscii(attr[i]), "IM") {
          text := ReplaceAll(text, attr[i] + [NEWLINE], "");
        }
      }
    }
    if Contains(ToUpperAscii(text), "SIP") {
      for i := 0 to attr.Length {
        if Contains(ToUpperAscii(attr[i]), "SIP") {
          text := ReplaceAll(text, attr[i] + [NEWLINE], "");
        }
      }
    }
  }

  /** `attr` holds the closed form of the first `k` passes over the lines of `vCard`. */
  ghost predicate AfterPasses(attr: seq<string>, vCard: string, f: Flags, vCardType21: bool, k: nat)
    requires k <= PASS_COUNT
  {
    attr == Blank(Split(vCard), StrippedProperties(f, vCardType21, k))
  }

  /**
   * Pass `k` of applyFilter, for property `Pass(k)`:
   * `if (enabled && vCard.contains(TAG)) { ...blank TAG lines... }`.
   * Afterwards `attr` holds the closed form for the first `k + 1` passes,
   * whether or not the `contains` guard let this one run.
   */
  method FilterPass(attr: array<string>, vCard: string, k: nat, enabled: bool,
                    ghost f: Flags, ghost vCardType21: bool)
    requires k < PASS_COUNT && enabled == Strips(f, vCardType21, Pass(k))
    requires AfterPasses(attr[..], vCard, f, vCardType21, k)
    modifies attr
    ensures AfterPasses(attr[..], vCard, f, vCardType21, k + 1)
  {
    var p := Pass(k);
    ghost var lines := Split(vCard);
    ghost var dis := StrippedProperties(f, vCardType21, k);
    StrippedStep(f, vCardType21, k);
    if enabled {
      BlankStep(lines, dis, p);
      if Contains(vCard, Tag(p)) {
        RemoveProperty(attr, p);
      } else {
        forall j | 0 <= j < |lines|
          ensures !StartsWith(lines[j], Tag(p))
        {
          if StartsWith(lines[j], Tag(p)) {
            SplitOccur(vCard, j, Tag(p));
          }
        }
        BlankSkip(lines, dis, p);
      }
    }
  }

  /**
   * One pass of applyFilter: blank every line that starts with `Tag(p)` and
   * the unrecognised lines after it, stopping at a recognised line and never
   * reaching the last element (`j < attr.length - 1`).
   */
  method RemoveProperty(attr: array<string>, p: Property)
    modifies attr
    ensures attr[..] == Blank(old(attr[..]), [p])
  {
    ghost var a := attr[..];
    ghost var b := Blank(a, [p]);
    var n := attr.Length;
    // attr[i..reach) was blanked ahead by the previous inner loop.
    ghost var reach := 0;
    var i := 0;
    while i < n
      invariant 0 <= i <= reach <= n
      invariant forall k :: 0 <= k < i ==> attr[k] == b[k]
      invariant forall k :: i <= k < reach ==> attr[k] == "" == b[k]
      invariant forall k :: reach <= k < n ==> attr[k] == a[k]
      invariant reach < n - 1 ==> !Carry(a, [p], reach)
    {
      BlankOne(a, p, i);
      if StartsWith(attr[i], Tag(p)) {
        attr[i] := "";
        reach := BlankContinuation(attr, p, i, a);
      } else if i == reach {
        reach := i + 1;
      }
      i := i + 1;
    }
    assert attr[..] == b;
  }

  /**
   * The inner loop of a pass, once line `i` has matched: blank the following
   * lines until one that checkValidFilter recognises, stopping before the
   * last line. It returns where it stopped; the lines it blanked are exactly
   * the continuation lines the closed form drops.
   */
  method BlankContinuation(attr: array<string>, p: Property, i: nat, ghost a: seq<string>)
    returns (j: nat)
    requires attr.Length == |a| && i < |a| && StartsWith(a[i], Tag(p))
    requires forall k :: i < k < |a| ==> attr[k] == a[k]
    modifies attr
    ensures i + 1 <= j <= |a|
    ensures forall k :: 0 <= k <= i ==> attr[k] == old(attr[k])
    ensures forall k :: i < k < j ==> attr[k] == "" == Blank(a, [p])[k]
    ensures forall k :: j <= k < |a| ==> attr[k] == a[k]
    ensures j < |a| - 1 ==> !Carry(a, [p], j)
  {
    ghost var b := Blank(a, [p]);
    BlankOne(a, p, i);
    j := i + 1;
    while j < attr.Length - 1
      invariant i + 1 <= j <= |a|
      invariant forall k :: 0 <= k <= i ==> attr[k] == old(attr[k])
      invariant forall k :: i < k < j ==> attr[k] == "" == b[k]
      invariant forall k :: j <= k < |a| ==> attr[k] == a[k]
      invariant j < |a| && !CheckValidFilter(a[j]) ==> Carry(a, [p], j)
    {
      if CheckValidFilter(attr[j]) {
        break;
      }
      BlankOne(a, p, j);
      attr[j] := "";
      j := j + 1;
    }
  }
}
