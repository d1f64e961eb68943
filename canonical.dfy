/**
 * The canonicaliser: sort (order by start, then end), union (concatenate,
 * sort, merge overlapping or touching periods in one sweep) and dataSortOut,
 * which every other operation uses to canonicalise its inputs on demand.
 */
module Canonicalizer {
  import opened Periods
  import opened Base

  // ---------------------------------------------------------------------
  // sort

  /** Insert x into a sorted list in front of the first element not below it. */
  function Insert(x: Period, l: seq<Period>): (r: seq<Period>)
    requires Sorted(l)
    ensures Sorted(r)
    ensures multiset(r) == multiset(l) + multiset{x}
    ensures |r| == |l| + 1
  {
    if l == [] then [x]
    else if LexLe(x, l[0]) then
      assert forall j :: 0 <= j < |l| ==> LexLe(l[0], l[j]);
      [x] + l
    else
      var rest := Insert(x, l[1..]);
      InsertHeadBound(x, l, rest);
      assert l == [l[0]] + l[1..];
      [l[0]] + rest
  }

  /** Everything Insert places behind the head of l is at least that head. */
  lemma InsertHeadBound(x: Period, l: seq<Period>, rest: seq<Period>)
    requires Sorted(l) && |l| > 0 && !LexLe(x, l[0])
    requires Sorted(rest) && multiset(rest) == multiset(l[1..]) + multiset{x}
    ensures Sorted([l[0]] + rest)
  {
    forall j | 0 <= j < |rest| ensures LexLe(l[0], rest[j]) {
      assert rest[j] in multiset(rest);
      if rest[j] != x {
        assert rest[j] in multiset(l[1..]);
        var k :| 0 <= k < |l[1..]| && l[1..][k] == rest[j];
        assert l[k + 1] == rest[j];
      }
    }
    var r := [l[0]] + rest;
    forall i, j | 0 <= i < j < |r| ensures LexLe(r[i], r[j]) {
      if i > 0 { assert r[i] == rest[i - 1] && r[j] == rest[j - 1]; }
      else { assert r[j] == rest[j - 1]; }
    }
  }

  /**
   * sort: the helper's usort with a comparator ordering by start and then
   * by end. The result is the sorted permutation of the input, which is
   * unique (SortedUnique), so the comparator's never returning 0 is harmless.
   */
  function Sort(l: seq<Period>): (r: seq<Period>)
    ensures Sorted(r)
    ensures multiset(r) == multiset(l)
    ensures |r| == |l|
  {
    if l == [] then []
    else
      assert l == [l[0]] + l[1..];
      Insert(l[0], Sort(l[1..]))
  }

  /** The head of a sorted list is below every element of it. */
  lemma SortedHeadMin(a: seq<Period>, x: Period)
    requires Sorted(a) && x in multiset(a)
    ensures |a| > 0 && LexLe(a[0], x)
  {
    var i :| 0 <= i < |a| && a[i] == x;
    if i > 0 { assert LexLe(a[0], a[i]); }
  }

  /** Two sorted lists with the same elements are equal. */
  lemma {:induction false} SortedUnique(a: seq<Period>, b: seq<Period>)
    requires Sorted(a) && Sorted(b) && multiset(a) == multiset(b)
    ensures a == b
    decreases |a|
  {
    if a == [] {
      assert |multiset(b)| == 0;
    } else {
      SortedSameHead(a, b);
      SortedTailAfterHead(a);
      SortedTailAfterHead(b);
      SortedUnique(a[1..], b[1..]);
      assert a == [a[0]] + a[1..] && b == [b[0]] + b[1..];
    }
  }

  /** Two non-empty sorted lists with the same elements start with the same period. */
  lemma SortedSameHead(a: seq<Period>, b: seq<Period>)
    requires Sorted(a) && Sorted(b) && multiset(a) == multiset(b) && a != []
    ensures b != [] && a[0] == b[0]
  {
    assert a[0] in multiset(a);
    SortedHeadMin(b, a[0]);
    assert b[0] in multiset(b);
    SortedHeadMin(a, b[0]);
  }

  /** Dropping the head of a sorted list leaves it sorted and removes one copy of the head. */
  lemma SortedTailAfterHead(a: seq<Period>)
    requires Sorted(a) && a != []
    ensures Sorted(a[1..])
    ensures multiset(a[1..]) == multiset(a) - multiset{a[0]}
  {
    assert a == [a[0]] + a[1..];
  }

  /** Sorting a sorted list leaves it as it is. */
  lemma SortSorted(l: seq<Period>)
    requires Sorted(l)
    ensures Sort(l) == l
  {
    SortedUnique(Sort(l), l);
  }

  // ---------------------------------------------------------------------
  // union

  /**
   * The merge sweep of union, from the current period `tmp` over the rest of
   * the sorted list: a period starting strictly after tmp ends closes tmp;
   * otherwise it extends tmp's end when it reaches further.
   */
  function SweepFrom(tmp: Period, rest: seq<Period>): (r: seq<Period>)
    ensures r != [] && r[0].start == tmp.start
    decreases |rest|
  {
    if rest == [] then [tmp]
    else
      var tp := rest[0];
      if tp.start > tmp.end then [tmp] + SweepFrom(tp, rest[1..])
      else if tp.end > tmp.end then SweepFrom(Period(tmp.start, tp.end), rest[1..])
      else SweepFrom(tmp, rest[1..])
  }

  function Sweep(m: seq<Period>): seq<Period> {
    if m == [] then [] else SweepFrom(m[0], m[1..])
  }

  /**
   * union(l1, l2, ...): the lists concatenated, sorted and swept. The result
   * covers exactly the points the arguments cover, is empty exactly when
   * every argument is, and is canonical when every argument period is valid.
   */
  function UnionOf(ls: seq<seq<Period>>): (r: seq<Period>)
    ensures r == [] <==> Flatten(ls) == []
    ensures forall t :: Covers(r, t) <==> Covers(Flatten(ls), t)
    ensures AllValid(Flatten(ls)) ==> Canonical(r)
  {
    var m := Sort(Flatten(ls));
    if m == [] then
      assert |Flatten(ls)| == 0;
      []
    else
      SweepCovers(m[0], m[1..]);
      SortCovers(Flatten(ls));
      assert m == [m[0]] + m[1..];
      assert forall t :: Covers(m, t) <==> Contains(m[0], t) || Covers(m[1..], t) by {
        forall t ensures Covers(m, t) <==> Contains(m[0], t) || Covers(m[1..], t) {
          CoversUncons(m, t);
        }
      }
      if AllValid(Flatten(ls)) then
        SortValid(Flatten(ls));
        SweepCanonical(m[0], m[1..]);
        SweepFrom(m[0], m[1..])
      else
        SweepFrom(m[0], m[1..])
  }

  lemma SortCovers(l: seq<Period>)
    ensures forall t :: Covers(Sort(l), t) <==> Covers(l, t)
  {
    var s := Sort(l);
    forall t ensures Covers(s, t) <==> Covers(l, t) {
      if Covers(s, t) {
        var i :| 0 <= i < |s| && Contains(s[i], t);
        assert s[i] in multiset(l);
        var j :| 0 <= j < |l| && l[j] == s[i];
      }
      if Covers(l, t) {
        var i :| 0 <= i < |l| && Contains(l[i], t);
        assert l[i] in multiset(s);
        var j :| 0 <= j < |s| && s[j] == l[i];
      }
    }
  }

  lemma SortValid(l: seq<Period>)
    requires AllValid(l)
    ensures AllValid(Sort(l))
  {
    var s := Sort(l);
    forall i | 0 <= i < |s| ensures ValidPeriod(s[i]) {
      assert s[i] in multiset(l);
      var j :| 0 <= j < |l| && l[j] == s[i];
    }
  }

  /** The sweep neither gains nor loses a covered point. */
  lemma {:induction false} SweepCovers(tmp: Period, rest: seq<Period>)
    requires Sorted(rest)
    requires forall i :: 0 <= i < |rest| ==> tmp.start <= rest[i].start
    ensures forall t :: Covers(SweepFrom(tmp, rest), t) <==> Contains(tmp, t) || Covers(rest, t)
    decreases |rest|
  {
    if rest == [] {
      forall t ensures Covers([tmp], t) <==> Contains(tmp, t) {
        CoversCons(tmp, [], t);
      }
    } else {
      var tp := rest[0];
      assert forall i :: 0 <= i < |rest[1..]| ==> rest[1..][i] == rest[i + 1];
      assert forall i :: 0 <= i < |rest[1..]| ==> tp.start <= rest[1..][i].start by {
        forall i | 0 <= i < |rest[1..]| ensures tp.start <= rest[1..][i].start {
          assert LexLe(rest[0], rest[i + 1]);
        }
      }
      forall t ensures Covers(rest, t) <==> Contains(tp, t) || Covers(rest[1..], t) {
        CoversUncons(rest, t);
      }
      if tp.start > tmp.end {
        SweepCovers(tp, rest[1..]);
        forall t ensures Covers([tmp] + SweepFrom(tp, rest[1..]), t) <==> Contains(tmp, t) || Covers(SweepFrom(tp, rest[1..]), t) {
          CoversCons(tmp, SweepFrom(tp, rest[1..]), t);
        }
      } else if tp.end > tmp.end {
        SweepCovers(Period(tmp.start, tp.end), rest[1..]);
      } else {
        SweepCovers(tmp, rest[1..]);
      }
    }
  }

  /** With valid periods the sweep produces canonical form. */
  lemma {:induction false} SweepCanonical(tmp: Period, rest: seq<Period>)
    requires Sorted(rest) && AllValid(rest) && ValidPeriod(tmp)
    requires forall i :: 0 <= i < |rest| ==> tmp.start <= rest[i].start
    ensures Canonical(SweepFrom(tmp, rest))
    ensures forall i :: 0 <= i < |SweepFrom(tmp, rest)| ==> SweepFrom(tmp, rest)[i].start >= tmp.start
    decreases |rest|
  {
    if rest != [] {
      var tp := rest[0];
      assert forall i :: 0 <= i < |rest[1..]| ==> rest[1..][i] == rest[i + 1];
      assert forall i :: 0 <= i < |rest[1..]| ==> tp.start <= rest[1..][i].start by {
        forall i | 0 <= i < |rest[1..]| ensures tp.start <= rest[1..][i].start {
          assert LexLe(rest[0], rest[i + 1]);
        }
      }
      if tp.start > tmp.end {
        SweepCanonical(tp, rest[1..]);
        var tail := SweepFrom(tp, rest[1..]);
        var r := [tmp] + tail;
        forall i, j | 0 <= i < j < |r| ensures r[i].end < r[j].start {
          if i == 0 {
            assert r[j] == tail[j - 1];
          } else {
            assert r[i] == tail[i - 1] && r[j] == tail[j - 1];
          }
        }
      } else if tp.end > tmp.end {
        SweepCanonical(Period(tmp.start, tp.end), rest[1..]);
      } else {
        SweepCanonical(tmp, rest[1..]);
      }
    }
  }

  /** A canonical list passes through the sweep untouched. */
  lemma {:induction false} SweepCanonicalIdentity(l: seq<Period>)
    requires Canonical(l) && |l| > 0
    ensures SweepFrom(l[0], l[1..]) == l
    decreases |l|
  {
    if |l| > 1 {
      assert l[1] == l[1..][0];
      assert l[1..][1..] == l[2..];
      CanonicalSuffix(l, 1);
      SweepCanonicalIdentity(l[1..]);
      assert l == [l[0]] + l[1..];
    }
  }

  /** union(union(L)) == union(L) when the periods of L are valid. */
  lemma UnionIdempotent(ls: seq<seq<Period>>)
    requires AllValid(Flatten(ls))
    ensures UnionOf([UnionOf(ls)]) == UnionOf(ls)
  {
    UnionOfCanonical(UnionOf(ls));
  }

  /** The union of a single canonical list is that list. */
  lemma UnionOfCanonical(l: seq<Period>)
    requires Canonical(l)
    ensures UnionOf([l]) == l
  {
    FlattenSingle(l);
    CanonicalIsSorted(l);
    SortSorted(l);
    if l != [] {
      SweepCanonicalIdentity(l);
    }
  }

  /** union(A, B) == union(B, A). */
  lemma UnionCommutes(a: seq<Period>, b: seq<Period>)
    ensures UnionOf([a, b]) == UnionOf([b, a])
  {
    FlattenMultiset(a, b);
    SortedUnique(Sort(Flatten([a, b])), Sort(Flatten([b, a])));
  }

  /** union as the source writes it: the sweep is a loop over the sorted merge. */
  method Union(ls: seq<seq<Period>>) returns (opt: seq<Period>)
    ensures opt == UnionOf(ls)
  {
    var merge := Sort(Flatten(ls));
    opt := SweepLoop(merge);
  }

  /** The foreach of union over the sorted merge, carrying the open period tmp. */
  method SweepLoop(merge: seq<Period>) returns (opt: seq<Period>)
    ensures opt == Sweep(merge)
  {
    opt := [];
    if merge == [] {
      return;
    }
    var tmp := merge[0];
    var k := 1;
    while k < |merge|
      invariant 1 <= k <= |merge|
      invariant opt + SweepFrom(tmp, merge[k..]) == Sweep(merge)
    {
      var tp := merge[k];
      SweepFromStep(tmp, merge, k, opt);
      if tp.start > tmp.end {
        opt := opt + [tmp];
        tmp := tp;
      } else if tp.end > tmp.end {
        tmp := Period(tmp.start, tp.end);
      }
      k := k + 1;
    }
    assert merge[k..] == [];
    opt := opt + [tmp];
  }

  /** One period of union's foreach: it closes tmp and opens itself, or extends tmp, or is absorbed. */
  lemma SweepFromStep(tmp: Period, merge: seq<Period>, k: nat, done: seq<Period>)
    requires k < |merge|
    ensures merge[k].start > tmp.end ==>
              done + SweepFrom(tmp, merge[k..]) == (done + [tmp]) + SweepFrom(merge[k], merge[k + 1..])
    ensures merge[k].start <= tmp.end && merge[k].end > tmp.end ==>
              done + SweepFrom(tmp, merge[k..]) == done + SweepFrom(Period(tmp.start, merge[k].end), merge[k + 1..])
    ensures merge[k].start <= tmp.end && merge[k].end <= tmp.end ==>
              done + SweepFrom(tmp, merge[k..]) == done + SweepFrom(tmp, merge[k + 1..])
  {
    assert merge[k..][0] == merge[k] && merge[k..][1..] == merge[k + 1..];
  }

  // ---------------------------------------------------------------------
  // dataSortOut

  /**
   * dataSortOut(sortOut, l1, l2): when the resolved flag is on, replace l1
   * and (if given) l2 by their union; otherwise leave both as they are.
   */
  function DataSortOut(arg: SortOutArg, cfg: Config, l1: seq<Period>, l2: Option<seq<Period>>)
    : (r: (seq<Period>, Option<seq<Period>>))
    ensures !ResolveSortOut(arg, cfg) ==> r == (l1, l2)
    ensures r.1.Some? <==> l2.Some?
    ensures ResolveSortOut(arg, cfg) && AllValid(l1) ==> Canonical(r.0)
    ensures ResolveSortOut(arg, cfg) && l2.Some? && AllValid(l2.value) ==> Canonical(r.1.value)
    ensures forall t :: Covers(r.0, t) <==> Covers(l1, t)
    ensures l2.Some? ==> forall t :: Covers(r.1.value, t) <==> Covers(l2.value, t)
  {
    FlattenSingle(l1);
    if ResolveSortOut(arg, cfg) then
      (UnionOf([l1]), if l2.Some? then FlattenSingle(l2.value); Some(UnionOf([l2.value])) else None)
    else
      (l1, l2)
  }

  /** dataSortOut for the one-list operations. */
  function SortOut(arg: SortOutArg, cfg: Config, l: seq<Period>): (r: seq<Period>)
    ensures !ResolveSortOut(arg, cfg) ==> r == l
    ensures ResolveSortOut(arg, cfg) && AllValid(l) ==> Canonical(r)
    ensures forall t :: Covers(r, t) <==> Covers(l, t)
    ensures r == [] <==> l == []
  {
    FlattenSingle(l);
    DataSortOut(arg, cfg, l, None).0
  }
}
