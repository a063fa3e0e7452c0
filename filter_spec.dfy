/**
 * What `FilterVcard.applyFilter` computes, stated line by line.
 *
 * The vCard is split into lines; each disabled property's pass blanks every
 * line that starts with its tag together with the following lines that
 * `checkValidFilter` does not recognise, never touching the last line; the
 * surviving non-empty lines are joined, each followed by `"\n"`.
 *
 * `Blank(lines, dis)` is the closed form of running the passes for the
 * properties `dis`: a line is blanked exactly when it starts with a disabled
 * tag, or when it is not the last line, is not recognised, and the nearest
 * earlier recognised line starts with a disabled tag (`Carry`).
 */
module FilterSpec {
  import opened JavaStrings
  import opened FilterMask

  /** The properties applyFilter can strip, in the order of its passes. */
  datatype Property = Fn | Bday | Adr | Email | Title | Org | Note | Nickname | Url

  /** The line prefix each pass matches (case-sensitive `startsWith`). */
  function Tag(p: Property): string {
    match p
    case Fn => "FN"
    case Bday => "BDAY"
    case Adr => "ADR"
    case Email => "EMAIL"
    case Title => "TITLE"
    case Org => "ORG"
    case Note => "NOTE"
    case Nickname => "NICKNAME"
    case Url => "URL"
  }

  /** `checkValidFilter(attr)`: the line starts a property the filter knows. */
  predicate CheckValidFilter(attr: string) {
    StartsWith(attr, "N:") || StartsWith(attr, "TEL") || StartsWith(attr, "VERSION")
    || StartsWith(attr, "URL") || StartsWith(attr, "FN") || StartsWith(attr, "BDAY")
    || StartsWith(attr, "ADR") || StartsWith(attr, "EMAIL") || StartsWith(attr, "TITLE")
    || StartsWith(attr, "ORG") || StartsWith(attr, "NOTE") || StartsWith(attr, "NICKNAME")
  }

  /** The line starts with the tag of one of the properties `dis`. */
  predicate StartsWithAny(line: string, dis: seq<Property>) {
    exists q :: q in dis && StartsWith(line, Tag(q))
  }

  /**
   * Line `k` is an unrecognised line and the nearest recognised line before
   * it starts with a tag in `dis` (so it continues a stripped property).
   */
  predicate Carry(lines: seq<string>, dis: seq<Property>, k: nat)
    requires k < |lines|
  {
    0 < k && !CheckValidFilter(lines[k]) && (StartsWithAny(lines[k - 1], dis) || Carry(lines, dis, k - 1))
  }

  /** The passes for `dis` blank line `k`; the last line is only blanked for its own tag. */
  predicate Dropped(lines: seq<string>, dis: seq<Property>, k: nat)
    requires k < |lines|
  {
    StartsWithAny(lines[k], dis) || (k < |lines| - 1 && Carry(lines, dis, k))
  }

  /** The `attr[]` array after the passes for `dis`. */
  function Blank(lines: seq<string>, dis: seq<Property>): seq<string> {
    seq(|lines|, k requires 0 <= k < |lines| => if Dropped(lines, dis, k) then "" else lines[k])
  }

  /** The number of property passes in applyFilter. */
  const PASS_COUNT: nat := 9

  /** The property of pass `k`, in applyFilter's order. */
  function Pass(k: nat): Property
    requires k < PASS_COUNT
  {
    match k
    case 0 => Fn
    case 1 => Bday
    case 2 => Adr
    case 3 => Email
    case 4 => Title
    case 5 => Org
    case 6 => Note
    case 7 => Nickname
    case _ => Url
  }

  /** The position of the pass for `p`: the inverse of `Pass`. */
  function Rank(p: Property): (k: nat)
    ensures k < PASS_COUNT && Pass(k) == p
  {
    match p
    case Fn => 0
    case Bday => 1
    case Adr => 2
    case Email => 3
    case Title => 4
    case Org => 5
    case Note => 6
    case Nickname => 7
    case Url => 8
  }

  /**
   * Whether the pass for `p` runs (before its `vCard.contains` check): FN
   * only for a 2.1 vCard whose FN bit is clear, NICKNAME whenever the vCard
   * is 2.1 or its bit is clear, every other property when its bit is clear.
   */
  predicate Strips(f: Flags, vCardType21: bool, p: Property) {
    match p
    case Fn => !f.fn && vCardType21
    case Bday => !f.bday
    case Adr => !f.adr
    case Email => !f.email
    case Title => !f.title
    case Org => !f.org
    case Note => !f.notes
    case Nickname => !f.nickname || vCardType21
    case Url => !f.url
  }

  /** The properties among the first `k` passes that run, in pass order. */
  function StrippedProperties(f: Flags, vCardType21: bool, k: nat): seq<Property>
    requires k <= PASS_COUNT
  {
    if k == 0 then []
    else StrippedProperties(f, vCardType21, k - 1)
         + (if Strips(f, vCardType21, Pass(k - 1)) then [Pass(k - 1)] else [])
  }

  /** The passes applyFilter runs, in its order, for the given flags and vCard version. */
  function DisabledProperties(f: Flags, vCardType21: bool): seq<Property> {
    StrippedProperties(f, vCardType21, PASS_COUNT)
  }

  /** The lines applyFilter keeps, in order. */
  function KeptLines(vCard: string, f: Flags, vCardType21: bool): seq<string> {
    NonEmpty(Blank(Split(vCard), DisabledProperties(f, vCardType21)))
  }

  /** The string applyFilter returns. */
  function FilteredVcard(vCard: string, f: Flags, vCardType21: bool): string {
    JoinLines(KeptLines(vCard, f, vCardType21))
  }

  // ---------------------------------------------------------------------
  // Lemmas

  /** A line that starts with a pass tag is recognised by checkValidFilter; the empty line is not. */
  lemma TagIsRecognised(line: string, p: Property)
    requires StartsWith(line, Tag(p))
    ensures CheckValidFilter(line) && line != ""
  {
  }

  lemma StartsWithAnyRecognised(line: string, dis: seq<Property>)
    requires StartsWithAny(line, dis)
    ensures CheckValidFilter(line) && line != ""
  {
    var q :| q in dis && StartsWith(line, Tag(q));
    TagIsRecognised(line, q);
  }

  lemma StartsWithAnySnoc(line: string, dis: seq<Property>, p: Property)
    ensures StartsWithAny(line, dis + [p]) <==> StartsWithAny(line, dis) || StartsWith(line, Tag(p))
  {
    if StartsWith(line, Tag(p)) {
      assert p in dis + [p];
    }
    if StartsWithAny(line, dis) {
      var q :| q in dis && StartsWith(line, Tag(q));
      assert q in dis + [p];
    }
  }

  /** The single-pass form: what one pass for `p` does to line `k`, and how its continuation advances. */
  lemma BlankOne(lines: seq<string>, p: Property, k: nat)
    requires k < |lines|
    ensures Blank(lines, [p])[k] ==
      if StartsWith(lines[k], Tag(p)) || (k < |lines| - 1 && Carry(lines, [p], k)) then "" else lines[k]
    ensures k + 1 < |lines| ==>
      (Carry(lines, [p], k + 1) <==>
        !CheckValidFilter(lines[k + 1]) && (StartsWith(lines[k], Tag(p)) || Carry(lines, [p], k)))
  {
    assert [] + [p] == [p];
    StartsWithAnySnoc(lines[k], [], p);
  }

  /** Disabling one more property can only extend a continuation run. */
  lemma {:induction false} CarryMonotone(lines: seq<string>, dis: seq<Property>, p: Property, k: nat)
    requires k < |lines| && Carry(lines, dis, k)
    ensures Carry(lines, dis + [p], k)
  {
    StartsWithAnySnoc(lines[k - 1], dis, p);
    if !StartsWithAny(lines[k - 1], dis) {
      CarryMonotone(lines, dis, p, k - 1);
    }
  }

  /** Direction one of the pass step: a continuation seen by the new pass is one of the bigger set. */
  lemma {:induction false} PassCarrySound(lines: seq<string>, dis: seq<Property>, p: Property, k: nat)
    requires k < |lines| && Carry(Blank(lines, dis), [p], k)
    ensures StartsWithAny(lines[k], dis) || Carry(lines, dis + [p], k)
  {
    var b := Blank(lines, dis);
    StartsWithAnySnoc(lines[k - 1], dis, p);
    if Dropped(lines, dis, k) {
      if !StartsWithAny(lines[k], dis) {
        CarryMonotone(lines, dis, p, k);
      }
    } else {
      assert b[k] == lines[k];
      if StartsWithAny(b[k - 1], [p]) {
        var q :| q in [p] && StartsWith(b[k - 1], Tag(q));
        TagIsRecognised(b[k - 1], q);
        assert b[k - 1] == lines[k - 1];
      } else {
        PassCarrySound(lines, dis, p, k - 1);
      }
    }
  }

  /** Direction two of the pass step. */
  lemma {:induction false} PassCarryComplete(lines: seq<string>, dis: seq<Property>, p: Property, k: nat)
    requires k < |lines| && Carry(lines, dis + [p], k)
    ensures Carry(Blank(lines, dis), [p], k) || Carry(lines, dis, k)
  {
    var b := Blank(lines, dis);
    assert !CheckValidFilter(b[k]);
    StartsWithAnySnoc(lines[k - 1], dis, p);
    if StartsWithAny(lines[k - 1], dis) {
    } else if StartsWith(lines[k - 1], Tag(p)) {
      TagIsRecognised(lines[k - 1], p);
      assert !Dropped(lines, dis, k - 1);
      assert b[k - 1] == lines[k - 1];
      assert p in [p];
    } else {
      PassCarryComplete(lines, dis, p, k - 1);
    }
  }

  /**
   * Running the pass for `p` on the array the passes for `dis` left is the
   * same as running the passes for `dis + [p]` on the original lines: the
   * order-dependent details of the source (a later pass walking over lines an
   * earlier pass already blanked) never change the outcome.
   */
  lemma BlankStep(lines: seq<string>, dis: seq<Property>, p: Property)
    ensures Blank(Blank(lines, dis), [p]) == Blank(lines, dis + [p])
  {
    var b := Blank(lines, dis);
    forall k | 0 <= k < |lines|
      ensures Blank(b, [p])[k] == Blank(lines, dis + [p])[k]
    {
      StartsWithAnySnoc(lines[k], dis, p);
      StartsWithAnySnoc(b[k], [], p);
      assert [] + [p] == [p];
      if Dropped(b, [p], k) && !Dropped(lines, dis, k) {
        if !StartsWithAny(b[k], [p]) {
          PassCarrySound(lines, dis, p, k);
        }
      }
      if Dropped(lines, dis + [p], k) && !Dropped(lines, dis, k) {
        if !StartsWithAny(lines[k], dis + [p]) {
          PassCarryComplete(lines, dis, p, k);
        }
      }
      if Dropped(lines, dis, k) && !StartsWithAny(lines[k], dis) {
        CarryMonotone(lines, dis, p, k);
      }
    }
  }

  /** No line starts with a tag of `dis`: nothing is a continuation. */
  lemma {:induction false} NoCarryWithoutTags(lines: seq<string>, dis: seq<Property>, k: nat)
    requires k < |lines|
    requires forall j :: 0 <= j < |lines| ==> !StartsWithAny(lines[j], dis)
    ensures !Carry(lines, dis, k)
  {
    if k > 0 {
      NoCarryWithoutTags(lines, dis, k - 1);
    }
  }

  /** Passes whose tags start no line blank nothing (in particular, no pass at all). */
  lemma BlankWithoutTags(lines: seq<string>, dis: seq<Property>)
    requires forall j :: 0 <= j < |lines| ==> !StartsWithAny(lines[j], dis)
    ensures Blank(lines, dis) == lines
  {
    forall k | 0 <= k < |lines|
      ensures Blank(lines, dis)[k] == lines[k]
    {
      NoCarryWithoutTags(lines, dis, k);
    }
  }

  lemma {:induction false} CarrySkip(lines: seq<string>, dis: seq<Property>, p: Property, k: nat)
    requires k < |lines|
    requires forall j :: 0 <= j < |lines| ==> !StartsWith(lines[j], Tag(p))
    ensures Carry(lines, dis + [p], k) == Carry(lines, dis, k)
  {
    if k > 0 {
      StartsWithAnySnoc(lines[k - 1], dis, p);
      CarrySkip(lines, dis, p, k - 1);
    }
  }

  /** A pass whose tag starts no line leaves the result unchanged. */
  lemma BlankSkip(lines: seq<string>, dis: seq<Property>, p: Property)
    requires forall j :: 0 <= j < |lines| ==> !StartsWith(lines[j], Tag(p))
    ensures Blank(lines, dis + [p]) == Blank(lines, dis)
  {
    forall k | 0 <= k < |lines|
      ensures Blank(lines, dis + [p])[k] == Blank(lines, dis)[k]
    {
      StartsWithAnySnoc(lines[k], dis, p);
      CarrySkip(lines, dis, p, k);
    }
  }

  /** No line strictly between `lo` and `hi` is recognised by checkValidFilter. */
  predicate NoneRecognisedBetween(lines: seq<string>, lo: nat, hi: nat)
    requires hi <= |lines|
  {
    forall m :: lo < m < hi ==> !CheckValidFilter(lines[m])
  }

  /**
   * `Carry` is the "nearest earlier recognised line" rule: line `k` is not
   * recognised, and some earlier line `j` starts with a disabled tag with no
   * recognised line strictly between `j` and `k`.
   */
  lemma {:induction false} CarryIsNearestRecognised(lines: seq<string>, dis: seq<Property>, k: nat)
    requires k < |lines|
    ensures Carry(lines, dis, k) <==>
      !CheckValidFilter(lines[k]) &&
      (exists j :: 0 <= j < k && StartsWithAny(lines[j], dis) && NoneRecognisedBetween(lines, j, k))
  {
    if k > 0 {
      CarryIsNearestRecognised(lines, dis, k - 1);
      if Carry(lines, dis, k) {
        if StartsWithAny(lines[k - 1], dis) {
          assert NoneRecognisedBetween(lines, k - 1, k);
        } else {
          var j :| 0 <= j < k - 1 && StartsWithAny(lines[j], dis) && NoneRecognisedBetween(lines, j, k - 1);
          assert NoneRecognisedBetween(lines, j, k);
        }
      }
      if !CheckValidFilter(lines[k]) &&
         (exists j :: 0 <= j < k && StartsWithAny(lines[j], dis) && NoneRecognisedBetween(lines, j, k)) {
        var j :| 0 <= j < k && StartsWithAny(lines[j], dis) && NoneRecognisedBetween(lines, j, k);
        if j < k - 1 {
          assert !CheckValidFilter(lines[k - 1]);
          assert NoneRecognisedBetween(lines, j, k - 1);
          if StartsWithAny(lines[k - 1], dis) {
            StartsWithAnyRecognised(lines[k - 1], dis);
          }
        }
      }
    }
  }

  /** Pass `k` adds its property to the stripped ones exactly when it runs. */
  lemma StrippedStep(f: Flags, vCardType21: bool, k: nat)
    requires k < PASS_COUNT
    ensures StrippedProperties(f, vCardType21, k + 1) ==
      if Strips(f, vCardType21, Pass(k)) then StrippedProperties(f, vCardType21, k) + [Pass(k)]
      else StrippedProperties(f, vCardType21, k)
  {
    assert StrippedProperties(f, vCardType21, k) + [] == StrippedProperties(f, vCardType21, k);
  }

  /** Each pass has its own property: `Rank` undoes `Pass`. */
  lemma RankOfPass(k: nat)
    requires k < PASS_COUNT
    ensures Rank(Pass(k)) == k
  {
  }

  /** A property is among the first `k` stripped ones exactly when its pass is one of the first `k` and runs. */
  lemma {:induction false} StrippedPropertiesIff(f: Flags, vCardType21: bool, k: nat, p: Property)
    requires k <= PASS_COUNT
    ensures p in StrippedProperties(f, vCardType21, k) <==> Rank(p) < k && Strips(f, vCardType21, p)
  {
    if k > 0 {
      StrippedPropertiesIff(f, vCardType21, k - 1, p);
      RankOfPass(k - 1);
    }
  }

  /** applyFilter strips exactly the properties whose pass condition holds. */
  lemma DisabledPropertiesIff(f: Flags, vCardType21: bool, p: Property)
    ensures p in DisabledProperties(f, vCardType21) <==> Strips(f, vCardType21, p)
  {
    StrippedPropertiesIff(f, vCardType21, PASS_COUNT, p);
  }

  /** Every kept line is a non-empty input line that no pass matched, free of separators. */
  lemma KeptLinesFacts(vCard: string, f: Flags, vCardType21: bool)
    ensures forall x :: x in KeptLines(vCard, f, vCardType21) ==>
      x != "" && NEWLINE !in x && x in Split(vCard)
      && !StartsWithAny(x, DisabledProperties(f, vCardType21))
  {
    var lines := Split(vCard);
    var dis := DisabledProperties(f, vCardType21);
    NonEmptyElements(Blank(lines, dis));
    forall x | x in KeptLines(vCard, f, vCardType21)
      ensures x != "" && NEWLINE !in x && x in lines && !StartsWithAny(x, dis)
    {
      var k :| 0 <= k < |lines| && Blank(lines, dis)[k] == x;
    }
  }

  /** With every flag set and a 3.0 vCard no pass runs: the result is the non-empty lines re-joined. */
  lemma AllEnabledKeepsEveryLine(vCard: string)
    ensures FilteredVcard(vCard, AllEnabled, false) == JoinLines(NonEmpty(Split(vCard)))
  {
    var lines := Split(vCard);
    var dis := DisabledProperties(AllEnabled, false);
    if dis != [] {
      DisabledPropertiesIff(AllEnabled, false, dis[0]);
    }
    BlankWithoutTags(lines, []);
  }

  /** Filtering twice with the same flags and version is filtering once. */
  lemma FilterIdempotent(vCard: string, f: Flags, vCardType21: bool)
    ensures FilteredVcard(FilteredVcard(vCard, f, vCardType21), f, vCardType21)
         == FilteredVcard(vCard, f, vCardType21)
  {
    var dis := DisabledProperties(f, vCardType21);
    var kept := KeptLines(vCard, f, vCardType21);
    KeptLinesFacts(vCard, f, vCardType21);
    var once := JoinLines(kept);
    assert forall k :: 0 <= k < |kept| ==> kept[k] in kept;
    SplitJoinLines(kept);
    var again := Split(once);
    forall j | 0 <= j < |again|
      ensures !StartsWithAny(again[j], dis)
    {
      if kept == [] {
        assert again[j] == "";
        if StartsWithAny("", dis) {
          StartsWithAnyRecognised("", dis);
        }
      } else {
        assert again[j] in kept;
      }
    }
    BlankWithoutTags(again, dis);
    if kept == [] {
      assert NonEmpty(again) == [];
    } else {
      NonEmptyOfNonEmpty(kept);
    }
  }
}
