/**
 * The places where the self-contained facade class spells an operation
 * differently from the split classes: isOverlap with all six cases written
 * out, and contact as a foreach instead of two array_filter passes. The
 * other facade operations behave as their split counterparts and share
 * those models; validate and filter are modelled in Formatting. The README
 * lists where the text of the two copies differs.
 */
module Facade {
  import opened Periods
  import opened Base
  import opened Canonicalizer
  import opened SetAlgebra
  import opened Selection

  // ---------------------------------------------------------------------
  // isOverlap

  /** The facade's inner foreach of isOverlap, with its six cases. */
  function SixCaseOverlapPass(ori: Period, pats: seq<Period>): OverlapStep
    decreases |pats|
  {
    if pats == [] then OverlapStep(false, [])
    else
      var sub := pats[0];
      if sub.end <= ori.start then
        SixCaseOverlapPass(ori, pats[1..])
      else if ori.end <= sub.start then
        var d := SixCaseOverlapPass(ori, pats[1..]);
        d.(kept := [sub] + d.kept)
      else if sub.start <= ori.start && ori.end <= sub.end then
        OverlapStep(true, pats)
      else if ori.start < sub.start && sub.end < ori.end then
        OverlapStep(true, pats)
      else if sub.start <= ori.start then
        OverlapStep(true, pats)
      else
        OverlapStep(true, pats)
  }

  function SixCaseOverlapSweep(subjects: seq<Period>, pats: seq<Period>): bool
    decreases |subjects|
  {
    if subjects == [] then false
    else
      var d := SixCaseOverlapPass(subjects[0], pats);
      d.found || SixCaseOverlapSweep(subjects[1..], d.kept)
  }

  /** The facade's isOverlap: false when either list is empty, otherwise the six-case sweep. */
  function FacadeIsOverlap(l1: seq<Period>, l2: seq<Period>): (r: bool)
    ensures l1 == [] || l2 == [] ==> !r
  {
    if l1 == [] || l2 == [] then false else SixCaseOverlapSweep(l1, l2)
  }

  /** The four overlapping cases all answer true, so one pass is the split class's pass. */
  lemma {:induction false} SixCaseOverlapPassAgrees(ori: Period, pats: seq<Period>)
    ensures SixCaseOverlapPass(ori, pats) == OverlapPass(ori, pats)
    decreases |pats|
  {
    if pats != [] {
      SixCaseOverlapPassAgrees(ori, pats[1..]);
    }
  }

  lemma {:induction false} SixCaseOverlapSweepAgrees(subjects: seq<Period>, pats: seq<Period>)
    ensures SixCaseOverlapSweep(subjects, pats) == OverlapSweep(subjects, pats)
    decreases |subjects|
  {
    if subjects != [] {
      SixCaseOverlapPassAgrees(subjects[0], pats);
      SixCaseOverlapSweepAgrees(subjects[1..], OverlapPass(subjects[0], pats).kept);
    }
  }

  /**
   * The two copies of isOverlap answer alike on every input, so the facade's
   * answer is "some pair overlaps" for a start-sorted subject list.
   */
  lemma FacadeIsOverlapAgrees(l1: seq<Period>, l2: seq<Period>)
    ensures FacadeIsOverlap(l1, l2) == IsOverlap(l1, l2)
    ensures StartsSorted(l1) ==> (FacadeIsOverlap(l1, l2) <==> exists x, y :: x in l1 && y in l2 && Overlap(x, y))
  {
    SixCaseOverlapSweepAgrees(l1, l2);
  }

  // ---------------------------------------------------------------------
  // contact

  /**
   * The facade contact's test: a period that starts at or after the
   * reference end is kept only when it starts exactly at the reference
   * start; otherwise it is kept unless it ends by the reference start.
   */
  predicate LoopTouches(p: Period, sTime: int, eTime: int) {
    if eTime <= p.start then sTime == p.start else !(p.end <= sTime)
  }

  function LoopTouchesTest(sTime: int, eTime: int): Period -> bool {
    p => LoopTouches(p, sTime, eTime)
  }

  /** The reference range of contact: a missing end means the start, then min and max. */
  function RefRange(sDateTime: int, eDateTime: Option<int>): (r: (int, int))
    ensures r.0 <= r.1
    ensures eDateTime.None? ==> r == (sDateTime, sDateTime)
    ensures eDateTime.Some? ==> {r.0, r.1} == {sDateTime, eDateTime.value}
  {
    var e := if eDateTime.Some? then eDateTime.value else sDateTime;
    if sDateTime <= e then (sDateTime, e) else (e, sDateTime)
  }

  /** The facade's contact: a foreach over the sorted-out list appending the periods that touch. */
  method FacadeContact(l: seq<Period>, sDateTime: int, eDateTime: Option<int>, arg: SortOutArg, cfg: Config)
    returns (opt: seq<Period>)
    ensures l == [] ==> opt == []
    ensures l != [] ==> opt == Select(SortOut(arg, cfg, l), LoopTouchesTest(RefRange(sDateTime, eDateTime).0, RefRange(sDateTime, eDateTime).1))
  {
    if l == [] {
      return [];
    }
    var tps := SortOut(arg, cfg, l);
    var (sTime, eTime) := RefRange(sDateTime, eDateTime);
    opt := ContactLoop(tps, sTime, eTime);
  }

  /** The foreach of the facade's contact over the sorted-out list. */
  method ContactLoop(tps: seq<Period>, sTime: int, eTime: int) returns (opt: seq<Period>)
    ensures opt == Select(tps, LoopTouchesTest(sTime, eTime))
  {
    ghost var keep := LoopTouchesTest(sTime, eTime);
    opt := [];
    var k := 0;
    while k < |tps|
      invariant 0 <= k <= |tps|
      invariant opt == Select(tps[..k], keep)
    {
      var tp := tps[k];
      SelectSnoc(tps, k, keep);
      if eTime <= tp.start {
        if sTime == tp.start {
          opt := opt + [tp];
        }
      } else if tp.end <= sTime {
      } else {
        opt := opt + [tp];
      }
      k := k + 1;
    }
    assert tps[..k] == tps;
  }

  /**
   * On valid periods the facade's test and the split class's two filters
   * agree, so both copies of contact return the same list; in terms of
   * points, a kept period touches the reference.
   */
  lemma FacadeContactAgrees(l: seq<Period>, sDateTime: int, eDateTime: Option<int>, arg: SortOutArg, cfg: Config)
    requires AllValid(l)
    ensures l != [] ==>
              Select(SortOut(arg, cfg, l), LoopTouchesTest(RefRange(sDateTime, eDateTime).0, RefRange(sDateTime, eDateTime).1))
              == Contact(l, sDateTime, eDateTime, arg, cfg)
  {
    if l != [] {
      var prepared := SortOut(arg, cfg, l);
      var (sTime, eTime) := RefRange(sDateTime, eDateTime);
      assert AllValid(prepared) by {
        if !ResolveSortOut(arg, cfg) {
          assert prepared == l;
        }
      }
      var f := (p: Period) => NotAfter(p, sTime, eTime);
      var g := (p: Period) => NotBefore(p, sTime);
      SelectTwice(prepared, f, g);
      forall x | x in prepared ensures LoopTouchesTest(sTime, eTime)(x) == (f(x) && g(x)) {
        var i :| 0 <= i < |prepared| && prepared[i] == x;
        assert ValidPeriod(x);
      }
      SelectAgree(prepared, LoopTouchesTest(sTime, eTime), x => f(x) && g(x));
    }
  }

  /**
   * Where the copies part: a zero-length period that starts at the
   * reference instant is kept by the facade but dropped by the split class.
   */
  lemma FacadeContactEmptyPeriod(p: Period, t: int)
    requires p.start == p.end == t
    ensures LoopTouches(p, t, t)
    ensures !(NotAfter(p, t, t) && NotBefore(p, t))
  {
  }
}
