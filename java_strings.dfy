/**
 * The few `java.lang.String` operations the vCard manager relies on, over
 * `string` (= `seq<char>`): `startsWith`, `contains`, `split` on the line
 * separator, `replace` and the "keep non-empty lines, each followed by a
 * newline" join that closes `applyFilter` and `StripTelephoneNumber`.
 *
 * The line separator is Android's `line.separator` property, `"\n"`.
 */
module JavaStrings {

  const NEWLINE: char := '\n'

  /** `s.startsWith(p)` */
  predicate StartsWith(s: string, p: string) {
    |p| <= |s| && s[..|p|] == p
  }

  /** `s.contains(p)`: `p` occurs at some offset of `s` */
  predicate Contains(s: string, p: string) {
    exists o :: 0 <= o <= |s| && StartsWith(s[o..], p)
  }

  /** Index of the first occurrence of `c` in `s`. */
  function IndexOf(s: string, c: char): (i: nat)
    requires c in s
    ensures i < |s| && s[i] == c && c !in s[..i]
  {
    if s[0] == c then 0
    else
      var j := IndexOf(s[1..], c);
      assert s[..1 + j] == [s[0]] + s[1..][..j];
      1 + j
  }

  /**
   * Every piece of `s` between two separators, empty pieces included:
   * `Pieces("a\n\nb\n") == ["a", "", "b", ""]`.
   */
  function Pieces(s: string): (r: seq<string>)
    ensures |r| >= 1
    ensures forall k :: 0 <= k < |r| ==> NEWLINE !in r[k]
    decreases |s|
  {
    if NEWLINE in s then
      var i := IndexOf(s, NEWLINE);
      [s[..i]] + Pieces(s[i + 1..])
    else
      [s]
  }

  /** Removes the empty strings at the end of `ls`, as `split` with limit 0 does. */
  function DropTrailingEmpty(ls: seq<string>): (r: seq<string>)
    ensures |r| <= |ls| && r == ls[..|r|]
    ensures r != [] ==> r[|r| - 1] != ""
    ensures forall k :: |r| <= k < |ls| ==> ls[k] == ""
  {
    if ls != [] && ls[|ls| - 1] == "" then DropTrailingEmpty(ls[..|ls| - 1]) else ls
  }

  /**
   * `s.split("\n")`: when the separator does not occur the whole string is the
   * only element (so `"".split` is `[""]`); otherwise the pieces with trailing
   * empty pieces removed (so `"\n".split` is `[]`).
   */
  function Split(s: string): (r: seq<string>)
    ensures forall k :: 0 <= k < |r| ==> NEWLINE !in r[k]
  {
    if NEWLINE in s then DropTrailingEmpty(Pieces(s)) else [s]
  }

  /** Each string of `ls` followed by one newline, concatenated. */
  function JoinLines(ls: seq<string>): string {
    if ls == [] then "" else ls[0] + [NEWLINE] + JoinLines(ls[1..])
  }

  /** The non-empty strings of `ls`, in order. */
  function NonEmpty(ls: seq<string>): seq<string> {
    if ls == [] then [] else (if ls[0] == "" then [] else [ls[0]]) + NonEmpty(ls[1..])
  }

  /** Joins `ls` with a single separator between neighbours (the inverse of `Pieces`). */
  function JoinWith(ls: seq<string>): string
    requires |ls| >= 1
  {
    if |ls| == 1 then ls[0] else ls[0] + [NEWLINE] + JoinWith(ls[1..])
  }

  /** `s.replace(String.valueOf(c), "")`: every occurrence of `c` deleted. */
  function RemoveChar(s: string, c: char): (r: string)
    ensures c !in r
  {
    if s == [] then []
    else (if s[0] == c then [] else [s[0]]) + RemoveChar(s[1..], c)
  }

  /** `s.replace(from, to)` for characters: every occurrence of `from` becomes `to`. */
  function ReplaceChar(s: string, from: char, to: char): (r: string)
    ensures |r| == |s|
    ensures forall k :: 0 <= k < |s| ==> r[k] == if s[k] == from then to else s[k]
  {
    if s == [] then [] else [if s[0] == from then to else s[0]] + ReplaceChar(s[1..], from, to)
  }

  /** `s.replace(target, replacement)`: non-overlapping occurrences, left to right. */
  function ReplaceAll(s: string, target: string, replacement: string): string
    requires |target| > 0
    decreases |s|
  {
    if |s| < |target| then s
    else if StartsWith(s, target) then replacement + ReplaceAll(s[|target|..], target, replacement)
    else [s[0]] + ReplaceAll(s[1..], target, replacement)
  }

  /** `s.toUpperCase()` restricted to ASCII letters. */
  function ToUpperAscii(s: string): (r: string)
    ensures |r| == |s|
  {
    if s == [] then []
    else [if 'a' <= s[0] <= 'z' then (s[0] as int - 32) as char else s[0]] + ToUpperAscii(s[1..])
  }

  /** Java's `Long.toString(n)`. */
  function DecimalString(n: int): (r: string)
    ensures |r| >= 1
  {
    if n < 0 then "-" + NaturalDigits(-n) else NaturalDigits(n)
  }

  function NaturalDigits(n: nat): (r: string)
    ensures |r| >= 1
    ensures forall k :: 0 <= k < |r| ==> '0' <= r[k] <= '9'
  {
    var d := [(('0' as int) + n % 10) as char];
    if n < 10 then d else NaturalDigits(n / 10) + d
  }

  /**
   * The closing loop of `applyFilter` and `StripTelephoneNumber`: every
   * non-empty element of `attr`, in order, followed by `"\n"`.
   */
  method JoinNonEmpty(attr: array<string>) returns (joined: string)
    ensures joined == JoinLines(NonEmpty(attr[..]))
  {
    joined := "";
    for i := 0 to attr.Length
      invariant joined == JoinLines(NonEmpty(attr[..i]))
    {
      assert attr[..i + 1] == attr[..i] + [attr[i]];
      NonEmptySnoc(attr[..i], attr[i]);
      if attr[i] != "" {
        JoinLinesSnoc(NonEmpty(attr[..i]), attr[i]);
        joined := joined + (attr[i] + [NEWLINE]);
      } else {
        assert NonEmpty(attr[..i + 1]) == NonEmpty(attr[..i]);
      }
    }
    assert attr[..attr.Length] == attr[..];
  }

  // ---------------------------------------------------------------------
  // Lemmas

  lemma {:induction false} NonEmptySnoc(ls: seq<string>, x: string)
    ensures NonEmpty(ls + [x]) == NonEmpty(ls) + (if x == "" then [] else [x])
  {
    if ls == [] {
      assert ls + [x] == [x];
    } else {
      assert (ls + [x])[1..] == ls[1..] + [x];
      NonEmptySnoc(ls[1..], x);
    }
  }

  lemma {:induction false} JoinLinesSnoc(ls: seq<string>, x: string)
    ensures JoinLines(ls + [x]) == JoinLines(ls) + (x + [NEWLINE])
  {
    if ls == [] {
      assert ls + [x] == [x];
      assert JoinLines([x]) == x + [NEWLINE] + JoinLines([]);
    } else {
      assert (ls + [x])[1..] == ls[1..] + [x];
      JoinLinesSnoc(ls[1..], x);
    }
  }

  /** The elements `NonEmpty` keeps are non-empty elements of its input. */
  lemma {:induction false} NonEmptyElements(ls: seq<string>)
    ensures forall x :: x in NonEmpty(ls) <==> x in ls && x != ""
  {
    if ls != [] {
      NonEmptyElements(ls[1..]);
      assert ls == [ls[0]] + ls[1..];
    }
  }

  /** `NonEmpty` changes nothing on a list without empty strings. */
  lemma {:induction false} NonEmptyOfNonEmpty(ls: seq<string>)
    requires forall k :: 0 <= k < |ls| ==> ls[k] != ""
    ensures NonEmpty(ls) == ls
  {
    if ls != [] {
      NonEmptyOfNonEmpty(ls[1..]);
    }
  }

  /** `IndexOf` skips a prefix free of the character. */
  lemma {:induction false} IndexOfAfterPrefix(x: string, c: char, rest: string)
    requires c !in x
    ensures c in x + [c] + rest && IndexOf(x + [c] + rest, c) == |x|
  {
    var s := x + [c] + rest;
    assert s[|x|] == c;
    if x != [] {
      assert s[1..] == x[1..] + [c] + rest;
      IndexOfAfterPrefix(x[1..], c, rest);
    }
  }

  lemma PiecesCons(x: string, rest: string)
    requires NEWLINE !in x
    ensures Pieces(x + [NEWLINE] + rest) == [x] + Pieces(rest)
  {
    var s := x + [NEWLINE] + rest;
    IndexOfAfterPrefix(x, NEWLINE, rest);
    assert s[..|x|] == x;
    assert s[|x| + 1..] == rest;
  }

  /** Splitting the separator-joined pieces of `s` gives them back, and joining the pieces gives `s`. */
  lemma {:induction false} JoinWithPieces(s: string)
    ensures JoinWith(Pieces(s)) == s
    decreases |s|
  {
    if NEWLINE in s {
      var i := IndexOf(s, NEWLINE);
      JoinWithPieces(s[i + 1..]);
      assert s == s[..i] + [NEWLINE] + s[i + 1..];
    }
  }

  lemma {:induction false} PiecesOfJoinLines(ls: seq<string>)
    requires forall k :: 0 <= k < |ls| ==> NEWLINE !in ls[k]
    ensures Pieces(JoinLines(ls)) == ls + [""]
  {
    if ls == [] {
      assert NEWLINE !in "";
    } else {
      PiecesOfJoinLines(ls[1..]);
      PiecesCons(ls[0], JoinLines(ls[1..]));
      assert ls == [ls[0]] + ls[1..];
    }
  }

  /**
   * `split` undoes the join of non-empty, separator-free lines; an empty list
   * joins to `""`, which splits to `[""]`.
   */
  lemma SplitJoinLines(ls: seq<string>)
    requires forall k :: 0 <= k < |ls| ==> ls[k] != "" && NEWLINE !in ls[k]
    ensures Split(JoinLines(ls)) == if ls == [] then [""] else ls
  {
    if ls != [] {
      PiecesOfJoinLines(ls);
      var s := JoinLines(ls);
      assert s[|ls[0]|] == NEWLINE;
      assert NEWLINE in s;
      var ps := ls + [""];
      assert ps[..|ps| - 1] == ls;
      assert DropTrailingEmpty(ps) == DropTrailingEmpty(ls);
    } else {
      assert NEWLINE !in "";
    }
  }

  /** Deleting a character distributes over concatenation. */
  lemma {:induction false} RemoveCharAppend(a: string, b: string, c: char)
    ensures RemoveChar(a + b, c) == RemoveChar(a, c) + RemoveChar(b, c)
  {
    if a != [] {
      assert (a + b)[1..] == a[1..] + b;
      RemoveCharAppend(a[1..], b, c);
    } else {
      assert a + b == b;
    }
  }

  /** A line of `Pieces(s)` that starts with `t` makes `s` contain `t`. */
  lemma {:induction false} PiecesOccur(s: string, k: nat, t: string)
    requires k < |Pieces(s)| && StartsWith(Pieces(s)[k], t)
    ensures Contains(s, t)
    decreases |s|
  {
    if NEWLINE in s {
      var i := IndexOf(s, NEWLINE);
      if k == 0 {
        assert s[0..] == s;
        assert s[..i][..|t|] == s[..|t|];
      } else {
        PiecesOccur(s[i + 1..], k - 1, t);
        var o :| 0 <= o <= |s[i + 1..]| && StartsWith(s[i + 1..][o..], t);
        assert s[i + 1..][o..] == s[i + 1 + o..];
      }
    } else {
      assert s[0..] == s;
    }
  }

  /** Every element of `s.split("\n")` occurs in `s`, so a line that starts with `t` makes `s.contains(t)`. */
  lemma SplitOccur(s: string, k: nat, t: string)
    requires k < |Split(s)| && StartsWith(Split(s)[k], t)
    ensures Contains(s, t)
  {
    if NEWLINE in s {
      PiecesOccur(s, k, t);
    } else {
      assert s[0..] == s;
    }
  }
}
