/**
 * Time periods as pairs of integer timestamps (seconds), and the two list
 * shapes every operation of the helper cares about: raw lists and canonical
 * lists (sorted, valid, pairwise disjoint and non-adjacent).
 *
 * A period [start, end] is read half-open: it covers t with start <= t < end.
 */
module Periods {

  datatype Period = Period(start: int, end: int)

  /** start < end: what the helper calls a well-formed period. */
  predicate ValidPeriod(p: Period) {
    p.start < p.end
  }

  predicate Contains(p: Period, t: int) {
    p.start <= t < p.end
  }

  predicate AllValid(l: seq<Period>) {
    forall i :: 0 <= i < |l| ==> ValidPeriod(l[i])
  }

  /** Some period of the list covers point t. */
  predicate Covers(l: seq<Period>, t: int) {
    exists i :: 0 <= i < |l| && Contains(l[i], t)
  }

  /** Two periods share at least one point (touching ends do not count). */
  predicate Overlap(a: Period, b: Period) {
    a.start < b.end && b.start < a.end
  }

  /** The sort key of the helper: by start, then by end. */
  predicate LexLe(a: Period, b: Period) {
    a.start < b.start || (a.start == b.start && a.end <= b.end)
  }

  predicate Sorted(l: seq<Period>) {
    forall i, j :: 0 <= i < j < |l| ==> LexLe(l[i], l[j])
  }

  predicate StartsSorted(l: seq<Period>) {
    forall i, j :: 0 <= i < j < |l| ==> l[i].start <= l[j].start
  }

  /**
   * Canonical form: every period valid, and each later period starts strictly
   * after every earlier one ends (so they are disjoint and not even touching).
   */
  predicate Canonical(l: seq<Period>) {
    && AllValid(l)
    && forall i, j :: 0 <= i < j < |l| ==> l[i].end < l[j].start
  }

  /** Length of a period in seconds (end - start). */
  function Len(p: Period): int {
    p.end - p.start
  }

  /** Sum of the lengths of all periods. */
  function TotalLen(l: seq<Period>): int {
    if l == [] then 0 else Len(l[0]) + TotalLen(l[1..])
  }

  lemma {:induction false} TotalLenConcat(a: seq<Period>, b: seq<Period>)
    ensures TotalLen(a + b) == TotalLen(a) + TotalLen(b)
  {
    if a == [] {
      assert a + b == b;
    } else {
      assert (a + b)[1..] == a[1..] + b;
      TotalLenConcat(a[1..], b);
    }
  }

  /** Concatenation of several lists (the helper's array_merge of its arguments). */
  function Flatten(ls: seq<seq<Period>>): seq<Period> {
    if ls == [] then [] else ls[0] + Flatten(ls[1..])
  }

  lemma CoversConcat(a: seq<Period>, b: seq<Period>, t: int)
    ensures Covers(a + b, t) <==> Covers(a, t) || Covers(b, t)
  {
    if Covers(a + b, t) {
      var i :| 0 <= i < |a + b| && Contains((a + b)[i], t);
      if i >= |a| {
        assert b[i - |a|] == (a + b)[i];
      }
    }
    if Covers(b, t) {
      var i :| 0 <= i < |b| && Contains(b[i], t);
      assert (a + b)[|a| + i] == b[i];
    }
    if Covers(a, t) {
      var i :| 0 <= i < |a| && Contains(a[i], t);
      assert (a + b)[i] == a[i];
    }
  }

  lemma CoversCons(p: Period, l: seq<Period>, t: int)
    ensures Covers([p] + l, t) <==> Contains(p, t) || Covers(l, t)
  {
    CoversConcat([p], l, t);
    assert Covers([p], t) <==> Contains(p, t) by {
      if Contains(p, t) { assert [p][0] == p; }
    }
  }

  lemma {:induction false} FlattenCovers(ls: seq<seq<Period>>, t: int)
    ensures Covers(Flatten(ls), t) <==> exists k :: 0 <= k < |ls| && Covers(ls[k], t)
  {
    if ls != [] {
      FlattenCovers(ls[1..], t);
      CoversConcat(ls[0], Flatten(ls[1..]), t);
      if Covers(Flatten(ls), t) && !Covers(ls[0], t) {
        var k :| 0 <= k < |ls[1..]| && Covers(ls[1..][k], t);
        assert ls[k + 1] == ls[1..][k];
      }
      if exists k :: 0 <= k < |ls| && Covers(ls[k], t) {
        var k :| 0 <= k < |ls| && Covers(ls[k], t);
        if k > 0 { assert ls[1..][k - 1] == ls[k]; }
      }
    }
  }

  lemma {:induction false} FlattenMultiset(a: seq<Period>, b: seq<Period>)
    ensures Flatten([a, b]) == a + b
    ensures multiset(Flatten([a, b])) == multiset(Flatten([b, a]))
  {
    assert [a, b][1..] == [b];
    assert [b][1..] == [];
    assert [b, a][1..] == [a];
    assert [a][1..] == [];
    assert Flatten([b]) == b;
    assert Flatten([a]) == a;
  }

  lemma AllValidConcat(a: seq<Period>, b: seq<Period>)
    requires AllValid(a) && AllValid(b)
    ensures AllValid(a + b)
  {
    forall k | 0 <= k < |a + b| ensures ValidPeriod((a + b)[k]) {
      if k < |a| { assert (a + b)[k] == a[k]; } else { assert (a + b)[k] == b[k - |a|]; }
    }
  }

  lemma FlattenSingle(l: seq<Period>)
    ensures Flatten([l]) == l
  {
    assert [l][1..] == [];
  }

  /** Canonical lists are sorted by the helper's key. */
  lemma CanonicalIsSorted(l: seq<Period>)
    requires Canonical(l)
    ensures Sorted(l) && StartsSorted(l)
  {
    forall i, j | 0 <= i < j < |l| ensures LexLe(l[i], l[j]) && l[i].start <= l[j].start {
      assert l[i].start < l[i].end < l[j].start;
    }
  }

  lemma CanonicalSuffix(l: seq<Period>, k: nat)
    requires Canonical(l) && k <= |l|
    ensures Canonical(l[k..])
  {
    forall i, j | 0 <= i < j < |l[k..]| ensures l[k..][i].end < l[k..][j].start {
      assert l[k..][i] == l[k + i] && l[k..][j] == l[k + j];
    }
  }

  lemma CoversUncons(l: seq<Period>, t: int)
    requires |l| > 0
    ensures Covers(l, t) <==> Contains(l[0], t) || Covers(l[1..], t)
  {
    assert l == [l[0]] + l[1..];
    CoversCons(l[0], l[1..], t);
  }
}
