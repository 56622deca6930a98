/**
 * The JavaScript string operations the client relies on: the `\s` class
 * and `trim()`, `split(' ')`, the initials badge built from them, ASCII
 * upper-casing, and the default comparison of `Array.prototype.sort`.
 */
module JsString {

  /**
   * The characters JavaScript's `\s` matches, which are also exactly the
   * characters `trim()` removes: the WhiteSpace and LineTerminator sets.
   */
  predicate IsSpace(c: char)
  {
    var n := c as int;
    (0x09 <= n <= 0x0D) || n == 0x20 || n == 0xA0 || n == 0x1680
    || (0x2000 <= n <= 0x200A) || n == 0x2028 || n == 0x2029
    || n == 0x202F || n == 0x205F || n == 0x3000 || n == 0xFEFF
  }

  /**
   * ECMAScript's WhiteSpace (section 12.2 of ECMA-262): tab, vertical tab,
   * form feed, the byte order mark and every Unicode space separator (Zs).
   */
  const WhiteSpaceChars: set<char> := {
    '\t', '\U{000B}', '\U{000C}', '\U{FEFF}',
    ' ', '\U{00A0}', '\U{1680}',
    '\U{2000}', '\U{2001}', '\U{2002}', '\U{2003}', '\U{2004}', '\U{2005}',
    '\U{2006}', '\U{2007}', '\U{2008}', '\U{2009}', '\U{200A}',
    '\U{202F}', '\U{205F}', '\U{3000}'
  }

  /** ECMAScript's LineTerminator (section 12.3 of ECMA-262). */
  const LineTerminatorChars: set<char> := {'\n', '\r', '\U{2028}', '\U{2029}'}

  /** `IsSpace` is exactly the union of the two sets the `\s` escape names. */
  lemma IsSpaceIsWhiteSpaceOrLineTerminator(c: char)
    ensures IsSpace(c) <==> c in WhiteSpaceChars || c in LineTerminatorChars
  {
  }

  /** Every character of `t[lo..hi]` is whitespace. */
  predicate AllSpace(t: string, lo: int, hi: int)
  {
    0 <= lo <= hi <= |t| && forall k :: lo <= k < hi ==> IsSpace(t[k])
  }

  predicate IsBlank(s: string)
  {
    AllSpace(s, 0, |s|)
  }

  // ---------------------------------------------------------------------
  // trim()

  function TrimStart(s: string): (r: string)
    ensures |r| <= |s| && r == s[|s| - |r|..]
    ensures AllSpace(s, 0, |s| - |r|)
    ensures r == [] || !IsSpace(r[0])
  {
    if |s| > 0 && IsSpace(s[0]) then TrimStart(s[1..]) else s
  }

  function TrimEnd(s: string): (r: string)
    ensures |r| <= |s| && r == s[..|r|]
    ensures AllSpace(s, |r|, |s|)
    ensures r == [] || !IsSpace(r[|r| - 1])
  {
    if |s| > 0 && IsSpace(s[|s| - 1]) then TrimEnd(s[..|s| - 1]) else s
  }

  /** `s` neither starts nor ends with whitespace. */
  predicate IsTrimmed(s: string)
  {
    s == [] || (!IsSpace(s[0]) && !IsSpace(s[|s| - 1]))
  }

  /**
   * `s.trim()`: `s` without its leading and trailing whitespace. It is
   * empty exactly when `s` is blank.
   */
  function Trim(s: string): (r: string)
    ensures r == [] <==> IsBlank(s)
    ensures IsTrimmed(r)
  {
    var front := TrimStart(s);
    var r := TrimEnd(front);
    assert r != [] ==> r[0] == front[0];
    assert r == [] <==> front == [];
    r
  }

  /**
   * `!s.trim()`: the trimmed text is the empty string, which is falsy, so
   * the test succeeds exactly for a blank `s`.
   */
  method TrimsToEmpty(s: string) returns (empty: bool)
    ensures empty <==> IsBlank(s)
  {
    var trimmed := Trim(s);
    empty := |trimmed| == 0;
  }

  // ---------------------------------------------------------------------
  // split(' ') and join(' ')

  /**
   * `s.split(' ')`: the pieces between single spaces, so `n` spaces give
   * `n + 1` pieces, some of which may be empty.
   */
  function Split(s: string): (r: seq<string>)
    ensures |r| >= 1
  {
    if |s| == 0 then [""]
    else
      var w := Split(s[..|s| - 1]);
      if s[|s| - 1] == ' ' then w + [""]
      else w[..|w| - 1] + [w[|w| - 1] + [s[|s| - 1]]]
  }

  /** `words.join(' ')`: the inverse of `Split`. */
  function JoinWithSpace(words: seq<string>): string
    requires |words| >= 1
  {
    if |words| == 1 then words[0]
    else JoinWithSpace(words[..|words| - 1]) + " " + words[|words| - 1]
  }

  /** Extending the last word extends the joined text by the same character. */
  lemma JoinExtendsLastWord(w: seq<string>, c: char)
    requires |w| >= 1
    ensures JoinWithSpace(w[..|w| - 1] + [w[|w| - 1] + [c]]) == JoinWithSpace(w) + [c]
  {
    var init, last := w[..|w| - 1], w[|w| - 1];
    var r := init + [last + [c]];
    assert r[..|r| - 1] == init && r[|r| - 1] == last + [c];
    if |w| > 1 {
      SpaceJoinExtends(JoinWithSpace(init), last, c);
    }
  }

  /** Appending to the second half of a space-joined pair appends to the pair. */
  lemma SpaceJoinExtends(front: string, last: string, c: char)
    ensures front + " " + (last + [c]) == front + " " + last + [c]
  {
  }

  /** An empty last word adds just its separating space. */
  lemma JoinEmptyLastWord(w: seq<string>)
    requires |w| >= 1
    ensures JoinWithSpace(w + [""]) == JoinWithSpace(w) + " "
  {
    assert (w + [""])[..|w|] == w;
  }

  /** Splitting at spaces loses nothing: joining the pieces gives the string back. */
  lemma {:induction false} SplitJoin(s: string)
    ensures JoinWithSpace(Split(s)) == s
  {
    if |s| > 0 {
      var init := s[..|s| - 1];
      var c := s[|s| - 1];
      assert s == init + [c];
      var w := Split(init);
      SplitJoin(init);
      if c == ' ' {
        assert Split(s) == w + [""];
        JoinEmptyLastWord(w);
      } else {
        assert Split(s) == w[..|w| - 1] + [w[|w| - 1] + [c]];
        JoinExtendsLastWord(w, c);
      }
    }
  }

  /** No piece of `Split(s)` contains a space. */
  lemma {:induction false} SplitPiecesHaveNoSpace(s: string)
    ensures forall i :: 0 <= i < |Split(s)| ==> ' ' !in Split(s)[i]
  {
    if |s| > 0 {
      SplitPiecesHaveNoSpace(s[..|s| - 1]);
    }
  }

  // ---------------------------------------------------------------------
  // Initials

  /**
   * `words.map(w => w[0]).join('')`: the first character of every word;
   * an empty word yields `undefined`, which `join` renders as nothing.
   */
  function FirstLetters(words: seq<string>): string
  {
    if |words| == 0 then []
    else
      var w := words[|words| - 1];
      FirstLetters(words[..|words| - 1]) + (if |w| > 0 then [w[0]] else [])
  }

  /** When no word is empty, the result holds each word's first character, in order. */
  lemma {:induction false} FirstLettersOfNonEmptyWords(words: seq<string>)
    requires forall i :: 0 <= i < |words| ==> words[i] != ""
    ensures |FirstLetters(words)| == |words|
    ensures forall i :: 0 <= i < |words| ==> FirstLetters(words)[i] == words[i][0]
  {
    if |words| > 0 {
      var front := words[..|words| - 1];
      FirstLettersOfNonEmptyWords(front);
      assert forall i :: 0 <= i < |front| ==> front[i] == words[i];
    }
  }

  /** Position `i` of `s` starts a word: a non-space after a space or at the start. */
  predicate WordStartAt(s: string, i: int)
  {
    0 <= i < |s| && s[i] != ' ' && (i == 0 || s[i - 1] == ' ')
  }

  /** The characters at the word-start positions of `s`, left to right. */
  function WordStartLetters(s: string): string
  {
    if |s| == 0 then []
    else WordStartLetters(s[..|s| - 1]) + (if WordStartAt(s, |s| - 1) then [s[|s| - 1]] else [])
  }

  /** The last piece of `Split(s)` is empty exactly when `s` is empty or ends in a space. */
  lemma {:induction false} SplitLastPiece(s: string)
    ensures Split(s)[|Split(s)| - 1] == [] <==> (|s| == 0 || s[|s| - 1] == ' ')
  {
  }

  /** The first letters of the split words are the letters at the word starts. */
  lemma {:induction false} FirstLettersOfSplit(s: string)
    ensures FirstLetters(Split(s)) == WordStartLetters(s)
  {
    if |s| > 0 {
      var init := s[..|s| - 1];
      var c := s[|s| - 1];
      var w := Split(init);
      FirstLettersOfSplit(init);
      assert s[..|s| - 1] == init;
      if c == ' ' {
        assert (w + [""])[..|w|] == w;
      } else {
        var r := w[..|w| - 1] + [w[|w| - 1] + [c]];
        assert r[..|r| - 1] == w[..|w| - 1];
        SplitLastPiece(init);
        if |init| > 0 {
          assert s[|s| - 2] == init[|init| - 1];
        }
      }
    }
  }

  /** `toUpperCase` on ASCII letters; every other character is kept. */
  function AsciiUpper(c: char): (r: char)
    ensures 'a' <= c <= 'z' ==> r == "ABCDEFGHIJKLMNOPQRSTUVWXYZ"[c as int - 'a' as int]
    ensures !('a' <= c <= 'z') ==> r == c
  {
    if 'a' <= c <= 'z' then (c as int - 32) as char else c
  }

  function UpperCase(s: string): (r: string)
    ensures |r| == |s|
    ensures forall i :: 0 <= i < |s| ==> r[i] == AsciiUpper(s[i])
  {
    seq(|s|, i requires 0 <= i < |s| => AsciiUpper(s[i]))
  }

  /**
   * `name.split(' ').map(w => w[0]).join('').substring(0, 2).toUpperCase()`:
   * the badge shown in place of a missing or broken image. It has at most
   * two characters.
   */
  function Initials(name: string): (r: string)
    ensures |r| <= 2
  {
    var letters := FirstLetters(Split(name));
    UpperCase(letters[..if |letters| < 2 then |letters| else 2])
  }

  /** The words of "ali khan" start with 'a' and 'k'. */
  lemma WordStartsExample(name: string)
    requires name == "ali khan"
    ensures WordStartLetters(name) == "ak"
  {
    assert WordStartLetters(name[..0]) == "";
    assert WordStartLetters(name[..1]) == "a" by { assert name[..1][..0] == name[..0]; }
    assert WordStartLetters(name[..2]) == "a" by { assert name[..2][..1] == name[..1]; }
    assert WordStartLetters(name[..3]) == "a" by { assert name[..3][..2] == name[..2]; }
    assert WordStartLetters(name[..4]) == "a" by { assert name[..4][..3] == name[..3]; }
    assert WordStartLetters(name[..5]) == "ak" by { assert name[..5][..4] == name[..4]; }
    assert WordStartLetters(name[..6]) == "ak" by { assert name[..6][..5] == name[..5]; }
    assert WordStartLetters(name[..7]) == "ak" by { assert name[..7][..6] == name[..6]; }
    assert WordStartLetters(name[..8]) == "ak" by { assert name[..8][..7] == name[..7]; }
    assert name[..8] == name;
  }

  /** A two-word name gives the capitals of its two words. */
  lemma InitialsExample(name: string)
    requires name == "ali khan"
    ensures Initials(name) == "AK"
  {
    InitialsAreWordStarts(name);
    WordStartsExample(name);
    var ak := "ak";
    assert ak[..2] == ak;
    assert UpperCase(ak) == "AK";
  }

  /**
   * The initials are the upper-cased characters that start the first two
   * words; runs of spaces, and leading or trailing spaces, add nothing.
   */
  lemma InitialsAreWordStarts(name: string)
    ensures var starts := WordStartLetters(name);
      Initials(name) == UpperCase(starts[..if |starts| < 2 then |starts| else 2])
    ensures forall i :: 0 <= i < |Initials(name)| ==> Initials(name)[i] != ' '
  {
    FirstLettersOfSplit(name);
    WordStartLettersHaveNoSpace(name);
  }

  lemma {:induction false} WordStartLettersHaveNoSpace(s: string)
    ensures ' ' !in WordStartLetters(s)
  {
    if |s| > 0 {
      WordStartLettersHaveNoSpace(s[..|s| - 1]);
    }
  }

  // ---------------------------------------------------------------------
  // The default order of Array.prototype.sort

  /** Lexicographic order of strings, character by character. */
  predicate StrLess(a: string, b: string)
  {
    if |a| == 0 then |b| > 0
    else if |b| == 0 then false
    else if a[0] != b[0] then a[0] < b[0]
    else StrLess(a[1..], b[1..])
  }

  /** A proper prefix comes first. */
  lemma {:induction false} StrLessProperPrefix(a: string, b: string)
    requires |a| < |b| && a == b[..|a|]
    ensures StrLess(a, b)
  {
    if |a| > 0 {
      assert a[0] == b[0];
      assert a[1..] == b[1..][..|a| - 1];
      StrLessProperPrefix(a[1..], b[1..]);
    }
  }

  /** Otherwise the first position where the strings differ decides. */
  lemma {:induction false} StrLessFirstDifference(a: string, b: string, k: nat)
    requires k < |a| && k < |b| && a[..k] == b[..k] && a[k] != b[k]
    ensures StrLess(a, b) <==> a[k] < b[k]
  {
    if k > 0 {
      assert a[0] == a[..k][0] && b[0] == b[..k][0];
      assert a[1..][..k - 1] == b[1..][..k - 1];
      StrLessFirstDifference(a[1..], b[1..], k - 1);
    }
  }

  lemma {:induction false} StrLessIrreflexive(a: string)
    ensures !StrLess(a, a)
  {
    if |a| > 0 {
      StrLessIrreflexive(a[1..]);
    }
  }

  lemma {:induction false} StrLessTransitive(a: string, b: string, c: string)
    requires StrLess(a, b) && StrLess(b, c)
    ensures StrLess(a, c)
  {
    if |a| > 0 && |b| > 0 && |c| > 0 && a[0] == b[0] && b[0] == c[0] {
      StrLessTransitive(a[1..], b[1..], c[1..]);
    }
  }

  lemma {:induction false} StrLessTotal(a: string, b: string)
    requires a != b
    ensures StrLess(a, b) || StrLess(b, a)
  {
    if |a| > 0 && |b| > 0 && a[0] == b[0] {
      assert a == [a[0]] + a[1..] && b == [b[0]] + b[1..];
      StrLessTotal(a[1..], b[1..]);
    }
  }

  lemma StrLessAsymmetric(a: string, b: string)
    ensures StrLess(a, b) ==> !StrLess(b, a)
  {
    if StrLess(a, b) && StrLess(b, a) {
      StrLessTransitive(a, b, a);
      StrLessIrreflexive(a);
    }
  }

  predicate StrictlySorted(s: seq<string>)
  {
    forall i, j :: 0 <= i < j < |s| ==> StrLess(s[i], s[j])
  }

  /** A strictly sorted arrangement of a set of strings is unique. */
  lemma {:induction false} StrictlySortedUnique(a: seq<string>, b: seq<string>)
    requires StrictlySorted(a) && StrictlySorted(b)
    requires forall x :: x in a <==> x in b
    ensures a == b
  {
    if |a| > 0 {
      assert a[0] in a;
    }
    if |b| > 0 {
      assert b[0] in b;
    }
    if |a| > 0 && |b| > 0 {
      var j :| 0 <= j < |b| && b[j] == a[0];
      var i :| 0 <= i < |a| && a[i] == b[0];
      StrLessAsymmetric(a[0], b[0]);
      assert a[0] == b[0];
      StrLessIrreflexive(a[0]);
      assert a[0] !in a[1..] && b[0] !in b[1..];
      assert forall x :: x in a[1..] <==> x in a && x != a[0];
      assert forall x :: x in b[1..] <==> x in b && x != b[0];
      StrictlySortedUnique(a[1..], b[1..]);
      assert a == [a[0]] + a[1..] && b == [b[0]] + b[1..];
    }
  }

  /** Insert `x` at its place in a sorted sequence. */
  function Insert(x: string, s: seq<string>): (r: seq<string>)
    ensures multiset(r) == multiset(s) + multiset{x}
  {
    if |s| == 0 then [x]
    else if StrLess(s[0], x) then
      assert s == [s[0]] + s[1..];
      [s[0]] + Insert(x, s[1..])
    else [x] + s
  }

  /** In a strictly sorted sequence, the head comes before every later element. */
  lemma HeadBelowRest(s: seq<string>, y: string)
    requires StrictlySorted(s) && |s| > 0 && y in s[1..]
    ensures StrLess(s[0], y)
  {
    var m :| 0 <= m < |s[1..]| && s[1..][m] == y;
    assert s[m + 1] == y;
  }

  /** Inserting a new element keeps a sequence strictly sorted. */
  lemma {:induction false} InsertKeepsSorted(x: string, s: seq<string>)
    requires StrictlySorted(s) && x !in s
    ensures StrictlySorted(Insert(x, s))
  {
    if |s| > 0 {
      var r := Insert(x, s);
      if StrLess(s[0], x) {
        var rest := Insert(x, s[1..]);
        assert x !in s[1..];
        InsertKeepsSorted(x, s[1..]);
        assert r == [s[0]] + rest;
        forall k | 0 <= k < |rest| ensures StrLess(s[0], rest[k]) {
          assert rest[k] in multiset(rest);
          if rest[k] != x {
            assert rest[k] in multiset(s[1..]);
            HeadBelowRest(s, rest[k]);
          }
        }
        forall i, j | 0 <= i < j < |r| ensures StrLess(r[i], r[j]) {
          assert r[j] == rest[j - 1];
          if i > 0 {
            assert r[i] == rest[i - 1];
          }
        }
      } else {
        assert r == [x] + s;
        assert s[0] in s;
        StrLessTotal(x, s[0]);
        forall i, j | 0 <= i < j < |r| ensures StrLess(r[i], r[j]) {
          assert r[j] == s[j - 1];
          if i > 0 {
            assert r[i] == s[i - 1];
          } else if j > 1 {
            StrLessTransitive(x, s[0], s[j - 1]);
          }
        }
      }
    }
  }

  /** `.sort()` with the default comparison: the same elements, rearranged. */
  function SortStrings(s: seq<string>): (r: seq<string>)
    ensures multiset(r) == multiset(s)
  {
    if |s| == 0 then []
    else
      assert s == [s[0]] + s[1..];
      Insert(s[0], SortStrings(s[1..]))
  }

  /** Sorting neither adds nor drops a string. */
  lemma SortStringsSameElements(s: seq<string>)
    ensures forall x :: x in SortStrings(s) <==> x in s
  {
    var r := SortStrings(s);
    forall x ensures x in r <==> x in s {
      assert x in r <==> x in multiset(r);
      assert x in s <==> x in multiset(s);
    }
  }

  /** Sorting distinct strings puts them in strictly ascending order. */
  lemma {:induction false} SortStringsSorted(s: seq<string>)
    requires forall i, j :: 0 <= i < j < |s| ==> s[i] != s[j]
    ensures StrictlySorted(SortStrings(s))
  {
    if |s| > 0 {
      assert s == [s[0]] + s[1..];
      var rest := SortStrings(s[1..]);
      SortStringsSorted(s[1..]);
      assert s[0] !in multiset(s[1..]);
      assert s[0] !in rest;
      InsertKeepsSorted(s[0], rest);
    }
  }
}
