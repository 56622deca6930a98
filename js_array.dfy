/**
 * `[...new Set(xs)]`: a JavaScript Set keeps its elements in insertion
 * order, so spreading it back into an array removes later duplicates and
 * keeps each element where it was first seen.
 */
module JsArray {

  predicate NoDups<T(==)>(s: seq<T>)
  {
    forall i, j :: 0 <= i < j < |s| ==> s[i] != s[j]
  }

  /** The index of the first occurrence of `x` in `s`. */
  function FirstIndex<T(==)>(s: seq<T>, x: T): (k: nat)
    requires x in s
    ensures k < |s| && s[k] == x && x !in s[..k]
  {
    if s[0] == x then 0
    else
      var k := 1 + FirstIndex(s[1..], x);
      assert s[..k] == [s[0]] + s[1..][..k - 1];
      k
  }

  /** Any position holding `x` with no earlier `x` is the first index of `x`. */
  lemma FirstIndexUnique<T>(s: seq<T>, x: T, k: nat)
    requires k < |s| && s[k] == x && x !in s[..k]
    ensures FirstIndex(s, x) == k
  {
    var f := FirstIndex(s, x);
    assert forall j :: 0 <= j < f ==> s[..f][j] == s[j];
    assert forall j :: 0 <= j < k ==> s[..k][j] == s[j];
  }

  /** `[...new Set(s)]`: the distinct elements of `s` in first-seen order. */
  function Dedupe<T(==)>(s: seq<T>): (r: seq<T>)
    ensures NoDups(r)
    ensures forall i :: 0 <= i < |r| ==> r[i] in s
    ensures forall i :: 0 <= i < |s| ==> s[i] in r
    ensures |r| <= |s|
  {
    if |s| == 0 then []
    else
      var d := Dedupe(s[..|s| - 1]);
      var x := s[|s| - 1];
      assert s == s[..|s| - 1] + [x];
      if x in d then d else d + [x]
  }

  /** Every element of `s` survives in `Dedupe(s)`. */
  lemma DedupeKeepsMember<T>(s: seq<T>, y: T)
    ensures y in s <==> y in Dedupe(s)
  {
    if y in s {
      var k :| 0 <= k < |s| && s[k] == y;
    }
    if y in Dedupe(s) {
      var k :| 0 <= k < |Dedupe(s)| && Dedupe(s)[k] == y;
    }
  }

  /** Appending an element moves no first occurrence of an earlier element. */
  lemma FirstIndexAfterAppend<T>(init: seq<T>, x: T, y: T)
    requires y in init
    ensures FirstIndex(init + [x], y) == FirstIndex(init, y)
  {
    var s := init + [x];
    var k := FirstIndex(init, y);
    assert s[..k] == init[..k];
    FirstIndexUnique(s, y, k);
  }

  /** Every element of `r` occurs in `s`, and `r` lists them in the order `s` first shows them. */
  predicate InFirstSeenOrder<T(==)>(s: seq<T>, r: seq<T>)
  {
    && (forall i :: 0 <= i < |r| ==> r[i] in s)
    && (forall i, j :: 0 <= i < j < |r| ==> FirstIndex(s, r[i]) < FirstIndex(s, r[j]))
  }

  /**
   * Appending `x` to `s` keeps an ordered listing of `s` ordered, and one
   * that lacks `x` stays ordered with `x` added at its end.
   */
  lemma FirstSeenOrderAfterAppend<T>(init: seq<T>, x: T, d: seq<T>)
    requires InFirstSeenOrder(init, d)
    ensures InFirstSeenOrder(init + [x], d)
    ensures x !in init ==> InFirstSeenOrder(init + [x], d + [x])
  {
    var s := init + [x];
    forall i | 0 <= i < |d| ensures d[i] in s && FirstIndex(s, d[i]) == FirstIndex(init, d[i]) {
      FirstIndexAfterAppend(init, x, d[i]);
    }
    if x !in init {
      var r := d + [x];
      assert s[..|init|] == init;
      FirstIndexUnique(s, x, |init|);
      forall i, j | 0 <= i < j < |r| ensures FirstIndex(s, r[i]) < FirstIndex(s, r[j]) {
        assert r[i] == d[i];
        if j < |d| {
          assert r[j] == d[j];
        }
      }
    }
  }

  /**
   * The elements of `Dedupe(s)` appear in the order of their first
   * occurrences in `s`. With `NoDups` and the membership clauses of
   * `Dedupe`, this determines the result completely.
   */
  lemma {:induction false} DedupeKeepsFirstSeenOrder<T>(s: seq<T>)
    ensures InFirstSeenOrder(s, Dedupe(s))
  {
    if |s| > 0 {
      var init := s[..|s| - 1];
      var x := s[|s| - 1];
      assert s == init + [x];
      var d := Dedupe(init);
      DedupeKeepsFirstSeenOrder(init);
      FirstSeenOrderAfterAppend(init, x, d);
      if x in d {
        assert Dedupe(s) == d;
      } else {
        DedupeKeepsMember(init, x);
        assert Dedupe(s) == d + [x];
      }
    }
  }

  /** A sequence without repetitions is its own deduplication. */
  lemma {:induction false} DedupeOfDistinct<T>(s: seq<T>)
    requires NoDups(s)
    ensures Dedupe(s) == s
  {
    if |s| > 0 {
      var init := s[..|s| - 1];
      DedupeOfDistinct(init);
      assert s[|s| - 1] !in init;
      assert s == init + [s[|s| - 1]];
    }
  }

  /** `s.slice(0, n)`: the first `n` elements, or all of them when there are fewer. */
  function Take<T>(s: seq<T>, n: nat): (r: seq<T>)
    ensures |r| == if |s| < n then |s| else n
    ensures r == s[..|r|]
  {
    s[..if |s| < n then |s| else n]
  }
}
