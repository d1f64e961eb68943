/**
 * The selecting operations of the helper: contact, greaterThan and lessThan.
 * Each sorts out its input and then keeps, in order, the periods that pass a
 * test against a reference time (or a reference range, for contact).
 */
module Selection {
  import opened Periods
  import opened Base
  import opened Canonicalizer

  /** a can be obtained from b by deleting elements: the order of what remains is b's. */
  predicate SubsequenceOf(a: seq<Period>, b: seq<Period>)
    decreases |b|
  {
    a == [] || (b != [] && ((a[0] == b[0] && SubsequenceOf(a[1..], b[1..])) || SubsequenceOf(a, b[1..])))
  }

  /** The elements of l that pass `keep`, in their original order. */
  function Select(l: seq<Period>, keep: Period -> bool): (r: seq<Period>)
    ensures |r| <= |l|
    ensures forall x :: x in r <==> x in l && keep(x)
    ensures SubsequenceOf(r, l)
  {
    if l == [] then []
    else
      assert l == [l[0]] + l[1..];
      var rest := Select(l[1..], keep);
      if keep(l[0]) then
        assert ([l[0]] + rest)[1..] == rest;
        [l[0]] + rest
      else
        rest
  }

  /** Selecting from one more element of a prefix appends that element when it passes. */
  lemma SelectSnoc(l: seq<Period>, k: nat, keep: Period -> bool)
    requires k < |l|
    ensures Select(l[..k + 1], keep) == Select(l[..k], keep) + (if keep(l[k]) then [l[k]] else [])
  {
    assert l[..k + 1] == l[..k] + [l[k]];
    SelectConcat(l[..k], [l[k]], keep);
    assert Select([l[k]], keep) == (if keep(l[k]) then [l[k]] else []) + Select([], keep);
  }

  /** Selection keeps order: selecting from a concatenation concatenates the selections. */
  lemma {:induction false} SelectConcat(a: seq<Period>, b: seq<Period>, keep: Period -> bool)
    ensures Select(a + b, keep) == Select(a, keep) + Select(b, keep)
  {
    if a == [] {
      assert a + b == b;
    } else {
      assert (a + b)[0] == a[0];
      assert (a + b)[1..] == a[1..] + b;
      SelectConcat(a[1..], b, keep);
    }
  }

  /** Two tests that agree on every element of l select the same periods. */
  lemma {:induction false} SelectAgree(l: seq<Period>, f: Period -> bool, g: Period -> bool)
    requires forall x :: x in l ==> f(x) == g(x)
    ensures Select(l, f) == Select(l, g)
  {
    if l != [] {
      assert l[0] in l;
      forall x | x in l[1..] ensures f(x) == g(x) {
        assert x in l;
      }
      SelectAgree(l[1..], f, g);
    }
  }

  /** Filtering twice is filtering once by both tests. */
  lemma {:induction false} SelectTwice(l: seq<Period>, f: Period -> bool, g: Period -> bool)
    ensures Select(Select(l, f), g) == Select(l, x => f(x) && g(x))
  {
    if l != [] {
      SelectTwice(l[1..], f, g);
      var head := if f(l[0]) then [l[0]] else [];
      SelectConcat(head, Select(l[1..], f), g);
      if f(l[0]) {
        assert Select([l[0]], g) == (if g(l[0]) then [l[0]] else []) + Select([], g);
      }
    }
  }

  // ---------------------------------------------------------------------
  // contact

  /** The first array_filter of contact: drop periods that start after the reference range. */
  predicate NotAfter(p: Period, sTime: int, eTime: int) {
    !(eTime <= p.start && sTime < p.start)
  }

  /** The second array_filter of contact: drop periods that end by the reference start. */
  predicate NotBefore(p: Period, sTime: int) {
    !(p.end <= sTime)
  }

  /** What contact means: a period touches the reference time, or overlaps the reference range. */
  predicate Touches(p: Period, sTime: int, eTime: int) {
    if sTime == eTime then Contains(p, sTime) else Overlap(p, Period(sTime, eTime))
  }

  function TouchesTest(sTime: int, eTime: int): Period -> bool {
    p => Touches(p, sTime, eTime)
  }

  /**
   * contact(l, sDateTime, eDateTime, sortOut): the periods of the sorted-out
   * list that touch the reference. A missing eDateTime means sDateTime; the
   * two ends are put in order with min/max first.
   */
  function Contact(l: seq<Period>, sDateTime: int, eDateTime: Option<int>, arg: SortOutArg, cfg: Config): (r: seq<Period>)
    ensures l == [] ==> r == []
    ensures var e := if eDateTime.Some? then eDateTime.value else sDateTime;
            var sTime := if sDateTime <= e then sDateTime else e;
            var eTime := if sDateTime <= e then e else sDateTime;
            && (forall x :: x in r <==> x in SortOut(arg, cfg, l) && Touches(x, sTime, eTime))
            && (l != [] ==> r == Select(SortOut(arg, cfg, l), TouchesTest(sTime, eTime)))
            && SubsequenceOf(r, SortOut(arg, cfg, l))
  {
    if l == [] then []
    else
      var prepared := SortOut(arg, cfg, l);
      var e := if eDateTime.Some? then eDateTime.value else sDateTime;
      var sTime := if sDateTime <= e then sDateTime else e;
      var eTime := if sDateTime <= e then e else sDateTime;
      var f := p => NotAfter(p, sTime, eTime);
      var g := p => NotBefore(p, sTime);
      var first := Select(prepared, f);
      var second := Select(first, g);
      SelectTwice(prepared, f, g);
      SelectAgree(prepared, x => f(x) && g(x), TouchesTest(sTime, eTime));
      second
  }

  // ---------------------------------------------------------------------
  // greaterThan / lessThan

  /** greaterThan's test: intact periods start at or after ref; otherwise they end after it. */
  predicate After(p: Period, ref: int, full: bool) {
    if full then p.start >= ref else p.end > ref
  }

  /** lessThan's test: intact periods end at or before ref; otherwise they start before it. */
  predicate Before(p: Period, ref: int, full: bool) {
    if full then p.end <= ref else p.start < ref
  }

  function AfterTest(ref: int, full: bool): Period -> bool {
    p => After(p, ref, full)
  }

  function BeforeTest(ref: int, full: bool): Period -> bool {
    p => Before(p, ref, full)
  }

  function GreaterThan(l: seq<Period>, ref: int, full: bool, arg: SortOutArg, cfg: Config): (r: seq<Period>)
    ensures l == [] ==> r == []
    ensures forall x :: x in r ==> x in SortOut(arg, cfg, l)
    ensures SubsequenceOf(r, SortOut(arg, cfg, l))
    ensures l != [] ==> r == Select(SortOut(arg, cfg, l), AfterTest(ref, full))
  {
    if l == [] then [] else Select(SortOut(arg, cfg, l), AfterTest(ref, full))
  }

  /**
   * What greaterThan keeps, in terms of points: an intact match lies wholly
   * at or after ref; a partial match of a valid period has a point at or after ref.
   */
  lemma GreaterThanMeaning(l: seq<Period>, ref: int, full: bool, arg: SortOutArg, cfg: Config)
    ensures forall x :: x in GreaterThan(l, ref, full, arg, cfg) <==>
              (&& x in SortOut(arg, cfg, l)
               && (if full then forall t :: Contains(x, t) ==> t >= ref
                   else ValidPeriod(x) ==> exists t :: Contains(x, t) && t >= ref)
               && (full ==> x.start >= ref)
               && (!full ==> x.end > ref))
  {
    forall x | x in GreaterThan(l, ref, full, arg, cfg) && !full && ValidPeriod(x) ensures exists t :: Contains(x, t) && t >= ref {
      var t := if x.start < ref then ref else x.start;
      assert Contains(x, t);
    }
  }


  function LessThan(l: seq<Period>, ref: int, full: bool, arg: SortOutArg, cfg: Config): (r: seq<Period>)
    ensures l == [] ==> r == []
    ensures forall x :: x in r ==> x in SortOut(arg, cfg, l)
    ensures SubsequenceOf(r, SortOut(arg, cfg, l))
    ensures l != [] ==> r == Select(SortOut(arg, cfg, l), BeforeTest(ref, full))
  {
    if l == [] then [] else Select(SortOut(arg, cfg, l), BeforeTest(ref, full))
  }

  /**
   * What lessThan keeps, in terms of points: an intact match lies wholly
   * before ref; a partial match of a valid period has a point before ref.
   */
  lemma LessThanMeaning(l: seq<Period>, ref: int, full: bool, arg: SortOutArg, cfg: Config)
    ensures forall x :: x in LessThan(l, ref, full, arg, cfg) <==>
              (&& x in SortOut(arg, cfg, l)
               && (if full then forall t :: Contains(x, t) ==> t < ref
                   else ValidPeriod(x) ==> exists t :: Contains(x, t) && t < ref)
               && (full ==> x.end <= ref)
               && (!full ==> x.start < ref))
  {
    forall x | x in LessThan(l, ref, full, arg, cfg) && !full && ValidPeriod(x) ensures exists t :: Contains(x, t) && t < ref {
      assert Contains(x, x.start);
    }
  }


  /**
   * Every period of the sorted-out list lands in exactly one of
   * greaterThan(ref, intact) and lessThan(ref, not intact), and in exactly
   * one of greaterThan(ref, not intact) and lessThan(ref, intact).
   */
  lemma GreaterLessSplit(l: seq<Period>, ref: int, arg: SortOutArg, cfg: Config)
    ensures forall x :: x in SortOut(arg, cfg, l) ==>
              (x in GreaterThan(l, ref, true, arg, cfg) <==> x !in LessThan(l, ref, false, arg, cfg))
    ensures forall x :: x in SortOut(arg, cfg, l) ==>
              (x in GreaterThan(l, ref, false, arg, cfg) <==> x !in LessThan(l, ref, true, arg, cfg))
  {
    GreaterThanMeaning(l, ref, true, arg, cfg);
    GreaterThanMeaning(l, ref, false, arg, cfg);
    LessThanMeaning(l, ref, true, arg, cfg);
    LessThanMeaning(l, ref, false, arg, cfg);
  }

  /** For valid periods, an intact match is also a partial match. */
  lemma IntactIsPartial(l: seq<Period>, ref: int, arg: SortOutArg, cfg: Config)
    requires AllValid(l)
    ensures forall x :: x in GreaterThan(l, ref, true, arg, cfg) ==> x in GreaterThan(l, ref, false, arg, cfg)
    ensures forall x :: x in LessThan(l, ref, true, arg, cfg) ==> x in LessThan(l, ref, false, arg, cfg)
  {
    var s := SortOut(arg, cfg, l);
    assert AllValid(s) by {
      if !ResolveSortOut(arg, cfg) {
        assert s == l;
      }
    }
    forall x | x in s ensures ValidPeriod(x) {
      var i :| 0 <= i < |s| && s[i] == x;
    }
    GreaterThanMeaning(l, ref, true, arg, cfg);
    GreaterThanMeaning(l, ref, false, arg, cfg);
    LessThanMeaning(l, ref, true, arg, cfg);
    LessThanMeaning(l, ref, false, arg, cfg);
  }

  /** greaterThan's foreach loop. */
  method ComputeGreaterThan(l: seq<Period>, ref: int, full: bool, arg: SortOutArg, cfg: Config) returns (opt: seq<Period>)
    ensures opt == GreaterThan(l, ref, full, arg, cfg)
  {
    if l == [] {
      return [];
    }
    var tps := SortOut(arg, cfg, l);
    opt := GreaterThanLoop(tps, ref, full);
  }

  /** The foreach of greaterThan over the sorted-out list. */
  method GreaterThanLoop(tps: seq<Period>, ref: int, full: bool) returns (opt: seq<Period>)
    ensures opt == Select(tps, AfterTest(ref, full))
  {
    ghost var keep := AfterTest(ref, full);
    opt := [];
    var k := 0;
    while k < |tps|
      invariant 0 <= k <= |tps|
      invariant opt == Select(tps[..k], keep)
    {
      var tp := tps[k];
      SelectSnoc(tps, k, keep);
      if full {
        if tp.start >= ref {
          opt := opt + [tp];
        }
      } else {
        if tp.end > ref {
          opt := opt + [tp];
        }
      }
      k := k + 1;
    }
    assert tps[..k] == tps;
  }


  /** lessThan's foreach loop. */
  method ComputeLessThan(l: seq<Period>, ref: int, full: bool, arg: SortOutArg, cfg: Config) returns (opt: seq<Period>)
    ensures opt == LessThan(l, ref, full, arg, cfg)
  {
    if l == [] {
      return [];
    }
    var tps := SortOut(arg, cfg, l);
    opt := LessThanLoop(tps, ref, full);
  }

  /** The foreach of lessThan over the sorted-out list. */
  method LessThanLoop(tps: seq<Period>, ref: int, full: bool) returns (opt: seq<Period>)
    ensures opt == Select(tps, BeforeTest(ref, full))
  {
    ghost var keep := BeforeTest(ref, full);
    opt := [];
    var k := 0;
    while k < |tps|
      invariant 0 <= k <= |tps|
      invariant opt == Select(tps[..k], keep)
    {
      var tp := tps[k];
      SelectSnoc(tps, k, keep);
      if full {
        if tp.end <= ref {
          opt := opt + [tp];
        }
      } else {
        if tp.start < ref {
          opt := opt + [tp];
        }
      }
      k := k + 1;
    }
    assert tps[..k] == tps;
  }

}
