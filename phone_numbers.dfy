/**
 * Phone-number clean-up on the way out: `StripTelephoneNumber`, which
 * deletes formatting characters from `TEL` lines of a vCard, and the
 * phone-number translation callback installed on the contacts composer,
 * which spells the dial-string PAUSE and WAIT characters as `p` and `w`.
 */
module PhoneNumbers {
  import opened JavaStrings

  /** The prefix that marks a telephone line. */
  const TEL_PREFIX: string := "TEL"

  /** `PhoneNumberUtils.PAUSE` and `PhoneNumberUtils.WAIT`. */
  const PAUSE: char := ','
  const WAIT: char := ';'

  /** The characters `StripTelephoneNumber` deletes from a telephone line. */
  const FORMATTING: set<char> := {'(', ')', '-', ' '}

  /** The four `replace` calls applied to one `attr[i]` that starts with "TEL". */
  function StripLine(line: string): string {
    if StartsWith(line, TEL_PREFIX) then
      RemoveChar(RemoveChar(RemoveChar(RemoveChar(line, '('), ')'), '-'), ' ')
    else line
  }

  /** Reference definition: the characters of `s` outside `drop`, in order. */
  function Without(s: string, drop: set<char>): (r: string)
    ensures |r| <= |s|
  {
    if s == [] then []
    else (if s[0] in drop then [] else [s[0]]) + Without(s[1..], drop)
  }

  /** Every line of `ls` through `StripLine`. */
  function StripAll(ls: seq<string>): (r: seq<string>)
    ensures |r| == |ls|
  {
    seq(|ls|, k requires 0 <= k < |ls| => StripLine(ls[k]))
  }

  /** What `StripTelephoneNumber(vCard)` returns. */
  function StrippedVcard(vCard: string): string {
    JoinLines(NonEmpty(StripAll(Split(vCard))))
  }

  /**
   * `StripTelephoneNumber(vCard)`: split on the line separator, clean the
   * `TEL` lines of `attr[]` in place, then join the non-empty lines.
   */
  method StripTelephoneNumber(vCard: string) returns (result: string)
    ensures result == StrippedVcard(vCard)
  {
    var lines := Split(vCard);
    ghost var stripped := StripAll(lines);
    var attr := new string[|lines|](k requires 0 <= k < |lines| => lines[k]);
    for i := 0 to attr.Length
      invariant forall k :: 0 <= k < i ==> attr[k] == stripped[k]
      invariant forall k :: i <= k < attr.Length ==> attr[k] == lines[k]
    {
      attr[i] := CleanLine(attr[i]);
    }
    assert attr[..] == stripped;
    result := JoinNonEmpty(attr);
  }

  /** The body of the first loop of `StripTelephoneNumber`, for one line. */
  method CleanLine(line: string) returns (cleaned: string)
    ensures cleaned == StripLine(line)
  {
    cleaned := line;
    if StartsWith(cleaned, TEL_PREFIX) {
      cleaned := RemoveChar(cleaned, '(');
      cleaned := RemoveChar(cleaned, ')');
      cleaned := RemoveChar(cleaned, '-');
      cleaned := RemoveChar(cleaned, ' ');
    }
  }

  /**
   * The phone-number translation callback: `rawValue.replace(PAUSE, 'p')`
   * followed by `.replace(WAIT, 'w')`.
   */
  function TranslatePhoneNumber(rawValue: string): string {
    ReplaceChar(ReplaceChar(rawValue, PAUSE, 'p'), WAIT, 'w')
  }

  // ---------------------------------------------------------------------
  // Lemmas

  /** `Without` distributes over concatenation. */
  lemma {:induction false} WithoutAppend(a: string, b: string, drop: set<char>)
    ensures Without(a + b, drop) == Without(a, drop) + Without(b, drop)
  {
    if a != [] {
      assert (a + b)[1..] == a[1..] + b;
      WithoutAppend(a[1..], b, drop);
    } else {
      assert a + b == b;
    }
  }

  /** Deleting one more character from a filtered string filters by one more character. */
  lemma {:induction false} RemoveCharWithout(s: string, drop: set<char>, c: char)
    ensures RemoveChar(Without(s, drop), c) == Without(s, drop + {c})
  {
    if s != [] {
      RemoveCharWithout(s[1..], drop, c);
      var head := if s[0] in drop then [] else [s[0]];
      RemoveCharAppend(head, Without(s[1..], drop), c);
    }
  }

  /** A string with none of the dropped characters is left as it is. */
  lemma {:induction false} WithoutNothing(s: string, drop: set<char>)
    requires forall k :: 0 <= k < |s| ==> s[k] !in drop
    ensures Without(s, drop) == s
  {
    if s != [] {
      WithoutNothing(s[1..], drop);
      assert s == [s[0]] + s[1..];
    }
  }

  /** A prefix free of dropped characters survives filtering, as a prefix. */
  lemma KeptPrefix(s: string, prefix: string, drop: set<char>)
    requires StartsWith(s, prefix)
    requires forall k :: 0 <= k < |prefix| ==> prefix[k] !in drop
    ensures StartsWith(Without(s, drop), prefix)
  {
    var rest := s[|prefix|..];
    assert s == prefix + rest;
    WithoutAppend(prefix, rest, drop);
    WithoutNothing(prefix, drop);
    assert Without(s, drop)[..|prefix|] == prefix;
  }

  /** The four successive deletions are one pass that drops every formatting character. */
  lemma RemoveFourIsWithout(s: string)
    ensures RemoveChar(RemoveChar(RemoveChar(RemoveChar(s, '('), ')'), '-'), ' ') == Without(s, FORMATTING)
  {
    WithoutNothing(s, {});
    RemoveCharWithout(s, {}, '(');
    RemoveCharWithout(s, {'('}, ')');
    RemoveCharWithout(s, {'(', ')'}, '-');
    RemoveCharWithout(s, {'(', ')', '-'}, ' ');
    assert {} + {'('} == {'('};
    assert {'('} + {')'} == {'(', ')'};
    assert {'(', ')'} + {'-'} == {'(', ')', '-'};
    assert {'(', ')', '-'} + {' '} == FORMATTING;
  }

  /** `Without` keeps exactly the characters outside `drop`, so it has nothing left to drop the second time. */
  lemma {:induction false} WithoutFacts(s: string, drop: set<char>)
    ensures forall c :: c in Without(s, drop) <==> c in s && c !in drop
    ensures Without(Without(s, drop), drop) == Without(s, drop)
  {
    if s != [] {
      WithoutFacts(s[1..], drop);
      var head := if s[0] in drop then [] else [s[0]];
      assert s == [s[0]] + s[1..];
      WithoutAppend(head, Without(s[1..], drop), drop);
      assert Without(head, drop) == head;
    }
  }

  /**
   * A telephone line loses exactly its formatting characters and is still a
   * telephone line; every other line is left as it is.
   */
  lemma StripLineSpec(line: string)
    ensures StartsWith(line, TEL_PREFIX) ==>
      StripLine(line) == Without(line, FORMATTING) && StartsWith(StripLine(line), TEL_PREFIX)
    ensures !StartsWith(line, TEL_PREFIX) ==> StripLine(line) == line
    ensures forall c :: c in StripLine(line) ==> c in line
  {
    if StartsWith(line, TEL_PREFIX) {
      RemoveFourIsWithout(line);
      WithoutFacts(line, FORMATTING);
      KeptPrefix(line, TEL_PREFIX, FORMATTING);
    }
  }

  /** Stripping a line twice is stripping it once. */
  lemma StripLineIdempotent(line: string)
    ensures StripLine(StripLine(line)) == StripLine(line)
  {
    StripLineSpec(line);
    if StartsWith(line, TEL_PREFIX) {
      StripLineSpec(StripLine(line));
      WithoutFacts(line, FORMATTING);
    }
  }

  /**
   * The result read back as lines: the stripped, non-empty lines of `vCard`
   * in their original order, each of them newline-free; no lines read back
   * as the single empty line of `"".split`.
   */
  lemma StrippedVcardLines(vCard: string)
    ensures var kept := NonEmpty(StripAll(Split(vCard)));
      && (forall k :: 0 <= k < |kept| ==> kept[k] != "" && NEWLINE !in kept[k])
      && Split(StrippedVcard(vCard)) == if kept == [] then [""] else kept
  {
    var lines := Split(vCard);
    var all := StripAll(lines);
    var kept := NonEmpty(all);
    forall k | 0 <= k < |all|
      ensures NEWLINE !in all[k]
    {
      StripLineSpec(lines[k]);
    }
    NonEmptyElements(all);
    assert forall k :: 0 <= k < |kept| ==> kept[k] in kept;
    SplitJoinLines(kept);
  }

  /** `StripTelephoneNumber` is idempotent. */
  lemma StripIdempotent(vCard: string)
    ensures StrippedVcard(StrippedVcard(vCard)) == StrippedVcard(vCard)
  {
    var all := StripAll(Split(vCard));
    var kept := NonEmpty(all);
    StrippedVcardLines(vCard);
    NonEmptyElements(all);
    if kept == [] {
      assert StripAll([""]) == [""];
      assert NonEmpty([""]) == [];
    } else {
      forall k | 0 <= k < |kept|
        ensures StripLine(kept[k]) == kept[k]
      {
        assert kept[k] in all;
        var j :| 0 <= j < |all| && all[j] == kept[k];
        StripLineIdempotent(Split(vCard)[j]);
      }
      assert StripAll(kept) == kept;
      NonEmptyOfNonEmpty(kept);
    }
  }

  /**
   * The callback changes each PAUSE into `p` and each WAIT into `w`, keeps
   * every other character, and leaves no PAUSE or WAIT behind.
   */
  lemma TranslateSpec(rawValue: string)
    ensures var r := TranslatePhoneNumber(rawValue);
      && |r| == |rawValue|
      && (forall k :: 0 <= k < |r| ==>
            r[k] == if rawValue[k] == PAUSE then 'p' else if rawValue[k] == WAIT then 'w' else rawValue[k])
      && PAUSE !in r && WAIT !in r
  {
  }

  /** Translating an already translated number changes nothing. */
  lemma TranslateIdempotent(rawValue: string)
    ensures TranslatePhoneNumber(TranslatePhoneNumber(rawValue)) == TranslatePhoneNumber(rawValue)
  {
    TranslateSpec(rawValue);
    TranslateSpec(TranslatePhoneNumber(rawValue));
  }
}
