/**
 * The set-algebra sweeps of the helper: diff, intersect and isOverlap.
 *
 * Each walks the subject list and, for every subject, a snapshot of the
 * pattern list, classifying the pair into six ordered cases. Patterns that
 * end at or before the current subject's start are unset from the pattern
 * list, which only later subjects see. The pass functions below return the
 * patterns that survive ('kept') so that the next subject sees exactly what
 * the source's next inner foreach sees.
 */
module SetAlgebra {
  import opened Periods
  import opened Base
  import opened Canonicalizer

  /** The patterns left after unsetting the leading ones that end by x. */
  function DropBefore(pats: seq<Period>, x: int): (r: seq<Period>)
    ensures |r| <= |pats|
    ensures r == pats[|pats| - |r|..]
  {
    if pats == [] then []
    else if pats[0].end <= x then DropBefore(pats[1..], x)
    else pats
  }

  lemma {:induction false} DropBeforeCovers(pats: seq<Period>, x: int, t: int)
    requires t >= x
    ensures Covers(DropBefore(pats, x), t) <==> Covers(pats, t)
    decreases |pats|
  {
    if pats != [] && pats[0].end <= x {
      DropBeforeCovers(pats[1..], x, t);
      CoversUncons(pats, t);
    }
  }

  /** A point up to the end of the first period of a canonical list is not in its tail. */
  lemma CanonicalTailAfter(pats: seq<Period>, t: int)
    requires Canonical(pats) && |pats| > 0 && t <= pats[0].end
    ensures !Covers(pats[1..], t)
  {
    forall j | 0 <= j < |pats[1..]| ensures !Contains(pats[1..][j], t) {
      assert pats[1..][j] == pats[j + 1];
    }
  }

  /** Every start in the tail of a canonical list lies beyond the first end. */
  lemma CanonicalTailStarts(pats: seq<Period>)
    requires Canonical(pats) && |pats| > 0
    ensures Canonical(pats[1..])
    ensures |pats| > 1 ==> pats[1..][0].start > pats[0].end
    ensures forall j :: 0 <= j < |pats[1..]| ==> pats[1..][j].start > pats[0].end
  {
    CanonicalSuffix(pats, 1);
    forall j | 0 <= j < |pats[1..]| ensures pats[1..][j].start > pats[0].end {
      assert pats[1..][j] == pats[j + 1];
    }
  }

  /** The tail of a canonical list is canonical and starts beyond the first end. */
  lemma CanonicalStep(pats: seq<Period>)
    requires Canonical(pats) && |pats| > 0
    ensures Canonical(pats[1..])
    ensures |pats| > 1 ==> pats[1..][0].start > pats[0].end
  {
    CanonicalSuffix(pats, 1);
  }

  /** Prepending a period that ends before every start keeps a list canonical. */
  lemma CanonicalCons(p: Period, l: seq<Period>)
    requires ValidPeriod(p) && Canonical(l)
    requires forall j :: 0 <= j < |l| ==> p.end < l[j].start
    ensures Canonical([p] + l)
  {
    var r := [p] + l;
    forall i, j | 0 <= i < j < |r| ensures r[i].end < r[j].start {
      if i == 0 {
        assert r[j] == l[j - 1];
      } else {
        assert r[i] == l[i - 1] && r[j] == l[j - 1];
      }
    }
  }

  lemma CanonicalConcat(a: seq<Period>, b: seq<Period>)
    requires Canonical(a) && Canonical(b)
    requires forall i, j :: 0 <= i < |a| && 0 <= j < |b| ==> a[i].end < b[j].start
    ensures Canonical(a + b)
  {
    var r := a + b;
    forall i, j | 0 <= i < j < |r| ensures r[i].end < r[j].start {
      if j < |a| {
        assert r[i] == a[i] && r[j] == a[j];
      } else if i < |a| {
        assert r[i] == a[i] && r[j] == b[j - |a|];
      } else {
        assert r[i] == b[i - |a|] && r[j] == b[j - |a|];
      }
    }
  }

  /** Every period of l lies within [lo, hi]. */
  predicate Within(l: seq<Period>, lo: int, hi: int) {
    forall i :: 0 <= i < |l| ==> lo <= l[i].start && l[i].end <= hi
  }

  /** Two canonical lists in disjoint ranges, the first strictly before the second, join canonically. */
  lemma CanonicalJoin(a: seq<Period>, b: seq<Period>, lo: int, mid: int, mid2: int, hi: int)
    requires Canonical(a) && Within(a, lo, mid) && Canonical(b) && Within(b, mid2, hi)
    requires lo <= mid < mid2 <= hi
    ensures Canonical(a + b) && Within(a + b, lo, hi)
  {
    CanonicalConcat(a, b);
  }

  /**
   * The inputs an operation may rely on once dataSortOut has run: either the
   * flag is on and every period is valid, or the list is canonical already.
   */
  predicate Prepared(arg: SortOutArg, cfg: Config, l: seq<Period>) {
    (ResolveSortOut(arg, cfg) && AllValid(l)) || Canonical(l)
  }

  lemma SortOutPrepared(arg: SortOutArg, cfg: Config, l: seq<Period>)
    requires Prepared(arg, cfg, l)
    ensures Canonical(SortOut(arg, cfg, l))
  {
  }

  // ---------------------------------------------------------------------
  // diff

  /** What one subject leaves behind: emitted pieces, the remainder, the surviving patterns. */
  datatype DiffStep = DiffStep(pieces: seq<Period>, rest: Option<Period>, kept: seq<Period>)

  /** The output of one subject: its pieces, then its remainder unless it was consumed. */
  function DiffOut(d: DiffStep): seq<Period> {
    d.pieces + (if d.rest.Some? then [d.rest.value] else [])
  }

  /** The inner foreach of diff for one subject `ori` over the pattern snapshot. */
  function DiffPass(ori: Period, pats: seq<Period>): DiffStep
    decreases |pats|
  {
    if pats == [] then DiffStep([], Some(ori), [])
    else
      var sub := pats[0];
      if sub.end <= ori.start then
        // passed: unset this pattern
        DiffPass(ori, pats[1..])
      else if ori.end <= sub.start then
        var d := DiffPass(ori, pats[1..]);
        d.(kept := [sub] + d.kept)
      else if sub.start <= ori.start && ori.end <= sub.end then
        // subtract all
        DiffStep([], None, pats)
      else if ori.start < sub.start && sub.end < ori.end then
        // delete internal: emit the left part, go on with the right part
        var d := DiffPass(Period(sub.end, ori.end), pats[1..]);
        d.(pieces := [Period(ori.start, sub.start)] + d.pieces, kept := [sub] + d.kept)
      else if sub.start <= ori.start then
        var d := DiffPass(Period(sub.end, ori.end), pats[1..]);
        d.(kept := [sub] + d.kept)
      else
        var d := DiffPass(Period(ori.start, sub.start), pats[1..]);
        d.(kept := [sub] + d.kept)
  }

  /** The outer foreach of diff. */
  function DiffSweep(subjects: seq<Period>, pats: seq<Period>): seq<Period>
    decreases |subjects|
  {
    if subjects == [] then []
    else
      var d := DiffPass(subjects[0], pats);
      DiffOut(d) + DiffSweep(subjects[1..], d.kept)
  }

  /**
   * diff(l1, l2, sortOut): the parts of l1 not covered by l2. An empty l1 or
   * l2 returns l1 exactly as given; otherwise both are sorted out first.
   */
  function Diff(l1: seq<Period>, l2: seq<Period>, arg: SortOutArg, cfg: Config): (r: seq<Period>)
    ensures l1 == [] || l2 == [] ==> r == l1
    ensures l1 != [] && l2 != [] && Prepared(arg, cfg, l1) && Prepared(arg, cfg, l2) ==>
              Canonical(r) && forall t :: Covers(r, t) <==> Covers(l1, t) && !Covers(l2, t)
  {
    if l1 == [] || l2 == [] then l1
    else
      var prepared := DataSortOut(arg, cfg, l1, Some(l2));
      var r := DiffSweep(prepared.0, prepared.1.value);
      if Prepared(arg, cfg, l1) && Prepared(arg, cfg, l2) then
        DiffSweepCorrect(prepared.0, prepared.1.value);
        r
      else
        r
  }

  /** Nothing is unset when the first pattern ends after x. */
  lemma DropBeforeNone(pats: seq<Period>, x: int)
    requires pats != [] ==> pats[0].end > x
    ensures DropBefore(pats, x) == pats
  {
  }

  /** One subject unsets exactly the leading patterns that end by its start. */
  lemma {:induction false} DiffPassKept(ori: Period, pats: seq<Period>)
    requires ValidPeriod(ori) && Canonical(pats)
    ensures DiffPass(ori, pats).kept == DropBefore(pats, ori.start)
    decreases |pats|, 1
  {
    if pats != [] {
      if pats[0].end <= ori.start {
        CanonicalStep(pats);
        DiffPassKept(ori, pats[1..]);
      } else {
        DiffPassKeptLive(ori, pats);
      }
    }
  }

  /** When the first pattern is not passed, no pattern is unset. */
  lemma {:induction false} DiffPassKeptLive(ori: Period, pats: seq<Period>)
    requires ValidPeriod(ori) && Canonical(pats) && pats != [] && pats[0].end > ori.start
    ensures DiffPass(ori, pats).kept == pats
    decreases |pats|, 1
  {
    var sub := pats[0];
    var tail := pats[1..];
    CanonicalStep(pats);
    if ori.end <= sub.start {
      DiffPassKeptRest(ori, pats);
      assert DiffPass(ori, pats).kept == [sub] + DiffPass(ori, tail).kept;
    } else if sub.start <= ori.start && ori.end <= sub.end {
      assert DiffPass(ori, pats) == DiffStep([], None, pats);
    } else if sub.end < ori.end {
      var next := Period(sub.end, ori.end);
      DiffPassKeptRest(next, pats);
      assert DiffPass(ori, pats).kept == [sub] + DiffPass(next, tail).kept;
    } else {
      var next := Period(ori.start, sub.start);
      DiffPassKeptRest(next, pats);
      assert DiffPass(ori, pats).kept == [sub] + DiffPass(next, tail).kept;
    }
  }

  /** The subject carried past the first pattern keeps every later pattern. */
  lemma {:induction false} DiffPassKeptRest(next: Period, pats: seq<Period>)
    requires ValidPeriod(next) && Canonical(pats) && pats != [] && next.start <= pats[0].end
    ensures pats == [pats[0]] + DiffPass(next, pats[1..]).kept
    decreases |pats|, 0
  {
    CanonicalStep(pats);
    if |pats| > 1 {
      DiffPassKeptLive(next, pats[1..]);
    }
  }

  /** The output of one subject is canonical and lies within the subject. */
  lemma {:induction false} DiffPassShape(ori: Period, pats: seq<Period>)
    requires ValidPeriod(ori) && Canonical(pats)
    ensures Canonical(DiffOut(DiffPass(ori, pats)))
    ensures Within(DiffOut(DiffPass(ori, pats)), ori.start, ori.end)
    decreases |pats|, 1
  {
    if pats == [] {
      assert DiffOut(DiffPass(ori, pats)) == [ori];
    } else if pats[0].end <= ori.start || ori.end <= pats[0].start {
      CanonicalStep(pats);
      DiffPassShape(ori, pats[1..]);
      assert DiffOut(DiffPass(ori, pats)) == DiffOut(DiffPass(ori, pats[1..]));
    } else {
      DiffPassShapeOverlap(ori, pats);
    }
  }

  /** A valid period in front of a canonical list lying after it, all within [p.start, hi). */
  lemma CanonicalConsWithin(p: Period, l: seq<Period>, hi: int)
    requires ValidPeriod(p) && p.end <= hi && Canonical(l) && Within(l, p.end + 1, hi)
    ensures Canonical([p] + l) && Within([p] + l, p.start, hi)
  {
    CanonicalCons(p, l);
  }

  /** The four overlapping cases of DiffPassShape. */
  lemma {:induction false} DiffPassShapeOverlap(ori: Period, pats: seq<Period>)
    requires ValidPeriod(ori) && Canonical(pats) && pats != []
    requires Overlap(ori, pats[0])
    ensures Canonical(DiffOut(DiffPass(ori, pats)))
    ensures Within(DiffOut(DiffPass(ori, pats)), ori.start, ori.end)
    decreases |pats|, 0
  {
    var d := DiffPass(ori, pats);
    var sub := pats[0];
    var tail := pats[1..];
    CanonicalStep(pats);
    if sub.start <= ori.start && ori.end <= sub.end {
      assert DiffOut(d) == [];
    } else if ori.start < sub.start && sub.end < ori.end {
      var next := Period(sub.end, ori.end);
      var left := Period(ori.start, sub.start);
      var d' := DiffPass(next, tail);
      DiffPassShape(next, tail);
      assert DiffOut(d) == [left] + DiffOut(d');
      CanonicalConsWithin(left, DiffOut(d'), ori.end);
    } else if sub.start <= ori.start {
      var next := Period(sub.end, ori.end);
      DiffPassShape(next, tail);
      assert DiffOut(d) == DiffOut(DiffPass(next, tail));
    } else {
      var next := Period(ori.start, sub.start);
      DiffPassShape(next, tail);
      assert DiffOut(d) == DiffOut(DiffPass(next, tail));
    }
  }

  /** One subject against canonical patterns keeps exactly its points outside them. */
  lemma {:induction false} DiffPassCovers(ori: Period, pats: seq<Period>, t: int)
    requires ValidPeriod(ori) && Canonical(pats)
    ensures Covers(DiffOut(DiffPass(ori, pats)), t) <==> Contains(ori, t) && !Covers(pats, t)
    decreases |pats|, 1
  {
    if pats == [] {
      assert DiffOut(DiffPass(ori, pats)) == [ori];
      CoversCons(ori, [], t);
    } else if pats[0].end <= ori.start || ori.end <= pats[0].start {
      var tail := pats[1..];
      CanonicalStep(pats);
      CoversUncons(pats, t);
      DiffPassCovers(ori, tail, t);
      assert DiffOut(DiffPass(ori, pats)) == DiffOut(DiffPass(ori, tail));
    } else {
      DiffPassCoversOverlap(ori, pats, t);
    }
  }

  /** The four overlapping cases of DiffPassCovers. */
  lemma {:induction false} DiffPassCoversOverlap(ori: Period, pats: seq<Period>, t: int)
    requires ValidPeriod(ori) && Canonical(pats) && pats != []
    requires Overlap(ori, pats[0])
    ensures Covers(DiffOut(DiffPass(ori, pats)), t) <==> Contains(ori, t) && !Covers(pats, t)
    decreases |pats|, 0
  {
    var d := DiffPass(ori, pats);
    var sub := pats[0];
    var tail := pats[1..];
    CanonicalStep(pats);
    CoversUncons(pats, t);
    if sub.start <= ori.start && ori.end <= sub.end {
      assert DiffOut(d) == [];
    } else if ori.start < sub.start && sub.end < ori.end {
      var next := Period(sub.end, ori.end);
      var left := Period(ori.start, sub.start);
      var d' := DiffPass(next, tail);
      DiffPassCovers(next, tail, t);
      assert DiffOut(d) == [left] + DiffOut(d');
      CoversCons(left, DiffOut(d'), t);
      if t < sub.start { CanonicalTailAfter(pats, t); }
    } else if sub.start <= ori.start {
      var next := Period(sub.end, ori.end);
      DiffPassCovers(next, tail, t);
      assert DiffOut(d) == DiffOut(DiffPass(next, tail));
    } else {
      var next := Period(ori.start, sub.start);
      DiffPassCovers(next, tail, t);
      assert DiffOut(d) == DiffOut(DiffPass(next, tail));
      if t < sub.start { CanonicalTailAfter(pats, t); }
    }
  }

  /** diff's sweep on canonical operands: exactly the subject points outside the patterns. */
  lemma {:induction false} DiffSweepCorrect(subjects: seq<Period>, pats: seq<Period>)
    requires Canonical(subjects) && Canonical(pats)
    ensures forall t :: Covers(DiffSweep(subjects, pats), t) <==> Covers(subjects, t) && !Covers(pats, t)
    ensures Canonical(DiffSweep(subjects, pats))
    ensures |subjects| > 0 ==> Within(DiffSweep(subjects, pats), subjects[0].start, subjects[|subjects| - 1].end)
  {
    DiffSweepShape(subjects, pats);
    forall t ensures Covers(DiffSweep(subjects, pats), t) <==> Covers(subjects, t) && !Covers(pats, t) {
      DiffSweepCovers(subjects, pats, t);
    }
  }

  lemma {:induction false} DiffSweepShape(subjects: seq<Period>, pats: seq<Period>)
    requires Canonical(subjects) && Canonical(pats)
    ensures Canonical(DiffSweep(subjects, pats))
    ensures |subjects| > 0 ==> Within(DiffSweep(subjects, pats), subjects[0].start, subjects[|subjects| - 1].end)
    decreases |subjects|
  {
    if subjects != [] {
      var ori := subjects[0];
      var d := DiffPass(ori, pats);
      var rest := subjects[1..];
      DiffPassKept(ori, pats);
      DiffPassShape(ori, pats);
      CanonicalTailStarts(subjects);
      var kept := DropBefore(pats, ori.start);
      CanonicalSuffix(pats, |pats| - |kept|);
      DiffSweepShape(rest, kept);
      var tail := DiffSweep(rest, kept);
      assert DiffSweep(subjects, pats) == DiffOut(d) + tail;
      if rest != [] {
        assert rest[|rest| - 1] == subjects[|subjects| - 1];
        assert ori.end < rest[0].start;
        assert rest[0].start < subjects[|subjects| - 1].end by {
          assert rest[0].start <= rest[|rest| - 1].start;
        }
        CanonicalJoin(DiffOut(d), tail, ori.start, ori.end, rest[0].start, subjects[|subjects| - 1].end);
      } else {
        assert tail == [];
        assert DiffSweep(subjects, pats) == DiffOut(d);
      }
    }
  }

  lemma {:induction false} DiffSweepCovers(subjects: seq<Period>, pats: seq<Period>, t: int)
    requires Canonical(subjects) && Canonical(pats)
    ensures Covers(DiffSweep(subjects, pats), t) <==> Covers(subjects, t) && !Covers(pats, t)
    decreases |subjects|
  {
    if subjects != [] {
      var ori := subjects[0];
      var d := DiffPass(ori, pats);
      var rest := subjects[1..];
      DiffPassKept(ori, pats);
      CanonicalStep(subjects);
      var kept := DropBefore(pats, ori.start);
      CanonicalSuffix(pats, |pats| - |kept|);
      DiffSweepCovers(rest, kept, t);
      var tail := DiffSweep(rest, kept);
      assert DiffSweep(subjects, pats) == DiffOut(d) + tail;
      CoversConcat(DiffOut(d), tail, t);
      CoversUncons(subjects, t);
      DiffPassCovers(ori, pats, t);
      if Covers(rest, t) {
        var j :| 0 <= j < |rest| && Contains(rest[j], t);
        CanonicalTailStarts(subjects);
        DropBeforeCovers(pats, ori.start, t);
      }
      if Contains(ori, t) {
        CanonicalTailAfter(subjects, t);
      }
    }
  }

  // ---------------------------------------------------------------------
  // intersect

  /** What one subject leaves behind in intersect: emitted pieces and the surviving patterns. */
  datatype IntersectStep = IntersectStep(pieces: seq<Period>, kept: seq<Period>)

  /** The inner foreach of intersect for one subject `ori` over the pattern snapshot. */
  function IntersectPass(ori: Period, pats: seq<Period>): IntersectStep
    decreases |pats|
  {
    if pats == [] then IntersectStep([], [])
    else
      var sub := pats[0];
      if sub.end <= ori.start then
        IntersectPass(ori, pats[1..])
      else if ori.end <= sub.start then
        var d := IntersectPass(ori, pats[1..]);
        d.(kept := [sub] + d.kept)
      else if sub.start <= ori.start && ori.end <= sub.end then
        IntersectStep([ori], pats)
      else if ori.start < sub.start && sub.end < ori.end then
        var d := IntersectPass(Period(sub.end, ori.end), pats[1..]);
        IntersectStep([sub] + d.pieces, [sub] + d.kept)
      else if sub.start <= ori.start then
        var d := IntersectPass(Period(sub.end, ori.end), pats[1..]);
        IntersectStep([Period(ori.start, sub.end)] + d.pieces, [sub] + d.kept)
      else
        IntersectStep([Period(sub.start, ori.end)], pats)
  }

  /** The outer foreach of intersect. */
  function IntersectSweep(subjects: seq<Period>, pats: seq<Period>): seq<Period>
    decreases |subjects|
  {
    if subjects == [] then []
    else
      var d := IntersectPass(subjects[0], pats);
      d.pieces + IntersectSweep(subjects[1..], d.kept)
  }

  /**
   * intersect(l1, l2, sortOut): the parts common to both lists. An empty
   * operand gives the empty list; otherwise both are sorted out first.
   */
  function Intersect(l1: seq<Period>, l2: seq<Period>, arg: SortOutArg, cfg: Config): (r: seq<Period>)
    ensures l1 == [] || l2 == [] ==> r == []
    ensures Prepared(arg, cfg, l1) && Prepared(arg, cfg, l2) ==>
              Canonical(r) && forall t :: Covers(r, t) <==> Covers(l1, t) && Covers(l2, t)
  {
    if l1 == [] || l2 == [] then []
    else
      var prepared := DataSortOut(arg, cfg, l1, Some(l2));
      var r := IntersectSweep(prepared.0, prepared.1.value);
      if Prepared(arg, cfg, l1) && Prepared(arg, cfg, l2) then
        IntersectSweepCorrect(prepared.0, prepared.1.value);
        r
      else
        r
  }

  lemma {:induction false} IntersectPassKept(ori: Period, pats: seq<Period>)
    requires ValidPeriod(ori) && Canonical(pats)
    ensures IntersectPass(ori, pats).kept == DropBefore(pats, ori.start)
    decreases |pats|, 1
  {
    if pats != [] {
      if pats[0].end <= ori.start {
        CanonicalStep(pats);
        IntersectPassKept(ori, pats[1..]);
      } else {
        IntersectPassKeptLive(ori, pats);
      }
    }
  }

  /** When the first pattern is not passed, no pattern is unset. */
  lemma {:induction false} IntersectPassKeptLive(ori: Period, pats: seq<Period>)
    requires ValidPeriod(ori) && Canonical(pats) && pats != [] && pats[0].end > ori.start
    ensures IntersectPass(ori, pats).kept == pats
    decreases |pats|, 1
  {
    var sub := pats[0];
    var tail := pats[1..];
    CanonicalStep(pats);
    if ori.end <= sub.start {
      IntersectPassKeptRest(ori, pats);
      assert IntersectPass(ori, pats).kept == [sub] + IntersectPass(ori, tail).kept;
    } else if sub.start <= ori.start && ori.end <= sub.end {
      assert IntersectPass(ori, pats) == IntersectStep([ori], pats);
    } else if sub.end < ori.end {
      var next := Period(sub.end, ori.end);
      IntersectPassKeptRest(next, pats);
      assert IntersectPass(ori, pats).kept == [sub] + IntersectPass(next, tail).kept;
    } else {
      assert IntersectPass(ori, pats) == IntersectStep([Period(sub.start, ori.end)], pats);
    }
  }

  /** The subject carried past the first pattern keeps every later pattern. */
  lemma {:induction false} IntersectPassKeptRest(next: Period, pats: seq<Period>)
    requires ValidPeriod(next) && Canonical(pats) && pats != [] && next.start <= pats[0].end
    ensures pats == [pats[0]] + IntersectPass(next, pats[1..]).kept
    decreases |pats|, 0
  {
    CanonicalStep(pats);
    if |pats| > 1 {
      IntersectPassKeptLive(next, pats[1..]);
    }
  }

  /** The pieces of one subject are canonical, inside the subject, and start no earlier than the first pattern. */
  lemma {:induction false} IntersectPassShape(ori: Period, pats: seq<Period>)
    requires ValidPeriod(ori) && Canonical(pats)
    ensures Canonical(IntersectPass(ori, pats).pieces)
    ensures Within(IntersectPass(ori, pats).pieces, ori.start, ori.end)
    ensures |pats| > 0 ==> forall i :: 0 <= i < |IntersectPass(ori, pats).pieces| ==>
              IntersectPass(ori, pats).pieces[i].start >= pats[0].start
    decreases |pats|
  {
    if pats == [] {
      return;
    }
    var d := IntersectPass(ori, pats);
    var sub := pats[0];
    var tail := pats[1..];
    CanonicalTailStarts(pats);
    if sub.end <= ori.start || ori.end <= sub.start {
      IntersectPassShape(ori, tail);
    } else if sub.start <= ori.start && ori.end <= sub.end {
    } else if ori.start < sub.start && sub.end < ori.end {
      var next := Period(sub.end, ori.end);
      IntersectPassShape(next, tail);
      CanonicalCons(sub, IntersectPass(next, tail).pieces);
    } else if sub.start <= ori.start {
      var next := Period(sub.end, ori.end);
      IntersectPassShape(next, tail);
      CanonicalCons(Period(ori.start, sub.end), IntersectPass(next, tail).pieces);
    }
  }

  /** The part of IntersectPassShape the sweep needs: the pieces are canonical and inside the subject. */
  lemma IntersectPassWithin(ori: Period, pats: seq<Period>)
    requires ValidPeriod(ori) && Canonical(pats)
    ensures Canonical(IntersectPass(ori, pats).pieces)
    ensures Within(IntersectPass(ori, pats).pieces, ori.start, ori.end)
  {
    IntersectPassShape(ori, pats);
  }

  lemma {:induction false} IntersectPassCovers(ori: Period, pats: seq<Period>, t: int)
    requires ValidPeriod(ori) && Canonical(pats)
    ensures Covers(IntersectPass(ori, pats).pieces, t) <==> Contains(ori, t) && Covers(pats, t)
    decreases |pats|, 1
  {
    if pats == [] {
    } else if pats[0].end <= ori.start || ori.end <= pats[0].start {
      var tail := pats[1..];
      CanonicalStep(pats);
      CoversUncons(pats, t);
      IntersectPassCovers(ori, tail, t);
      assert IntersectPass(ori, pats).pieces == IntersectPass(ori, tail).pieces;
    } else {
      IntersectPassCoversOverlap(ori, pats, t);
    }
  }

  /** The four overlapping cases of IntersectPassCovers. */
  lemma {:induction false} IntersectPassCoversOverlap(ori: Period, pats: seq<Period>, t: int)
    requires ValidPeriod(ori) && Canonical(pats) && pats != []
    requires Overlap(ori, pats[0])
    ensures Covers(IntersectPass(ori, pats).pieces, t) <==> Contains(ori, t) && Covers(pats, t)
    decreases |pats|, 0
  {
    var d := IntersectPass(ori, pats);
    var sub := pats[0];
    var tail := pats[1..];
    CanonicalStep(pats);
    CoversUncons(pats, t);
    if sub.start <= ori.start && ori.end <= sub.end {
      assert d.pieces == [ori] + [];
      CoversCons(ori, [], t);
    } else if ori.start < sub.start && sub.end < ori.end {
      var next := Period(sub.end, ori.end);
      IntersectPassCovers(next, tail, t);
      assert d.pieces == [sub] + IntersectPass(next, tail).pieces;
      CoversCons(sub, IntersectPass(next, tail).pieces, t);
      if t < sub.end { CanonicalTailAfter(pats, t); }
    } else if sub.start <= ori.start {
      var next := Period(sub.end, ori.end);
      IntersectPassCovers(next, tail, t);
      assert d.pieces == [Period(ori.start, sub.end)] + IntersectPass(next, tail).pieces;
      CoversCons(Period(ori.start, sub.end), IntersectPass(next, tail).pieces, t);
      if t < sub.end { CanonicalTailAfter(pats, t); }
    } else {
      assert d.pieces == [Period(sub.start, ori.end)] + [];
      CoversCons(Period(sub.start, ori.end), [], t);
      if t < sub.end { CanonicalTailAfter(pats, t); }
    }
  }

  /** intersect's sweep on canonical operands: exactly the points of both. */
  lemma {:induction false} IntersectSweepCorrect(subjects: seq<Period>, pats: seq<Period>)
    requires Canonical(subjects) && Canonical(pats)
    ensures forall t :: Covers(IntersectSweep(subjects, pats), t) <==> Covers(subjects, t) && Covers(pats, t)
    ensures Canonical(IntersectSweep(subjects, pats))
    ensures |subjects| > 0 ==> Within(IntersectSweep(subjects, pats), subjects[0].start, subjects[|subjects| - 1].end)
  {
    IntersectSweepShape(subjects, pats);
    forall t ensures Covers(IntersectSweep(subjects, pats), t) <==> Covers(subjects, t) && Covers(pats, t) {
      IntersectSweepCovers(subjects, pats, t);
    }
  }

  lemma {:induction false} IntersectSweepShape(subjects: seq<Period>, pats: seq<Period>)
    requires Canonical(subjects) && Canonical(pats)
    ensures Canonical(IntersectSweep(subjects, pats))
    ensures |subjects| > 0 ==> Within(IntersectSweep(subjects, pats), subjects[0].start, subjects[|subjects| - 1].end)
    decreases |subjects|
  {
    if subjects != [] {
      var ori := subjects[0];
      var d := IntersectPass(ori, pats);
      var rest := subjects[1..];
      IntersectPassKept(ori, pats);
      IntersectPassWithin(ori, pats);
      CanonicalStep(subjects);
      var kept := DropBefore(pats, ori.start);
      CanonicalSuffix(pats, |pats| - |kept|);
      IntersectSweepShape(rest, kept);
      var tail := IntersectSweep(rest, kept);
      assert IntersectSweep(subjects, pats) == d.pieces + tail;
      if rest != [] {
        assert rest[|rest| - 1] == subjects[|subjects| - 1];
        assert ori.end < rest[0].start;
        assert rest[0].start < subjects[|subjects| - 1].end by {
          assert rest[0].start <= rest[|rest| - 1].start;
        }
        CanonicalJoin(d.pieces, tail, ori.start, ori.end, rest[0].start, subjects[|subjects| - 1].end);
      } else {
        assert tail == [];
        assert IntersectSweep(subjects, pats) == d.pieces;
      }
    }
  }

  lemma {:induction false} IntersectSweepCovers(subjects: seq<Period>, pats: seq<Period>, t: int)
    requires Canonical(subjects) && Canonical(pats)
    ensures Covers(IntersectSweep(subjects, pats), t) <==> Covers(subjects, t) && Covers(pats, t)
    decreases |subjects|
  {
    if subjects != [] {
      var ori := subjects[0];
      var d := IntersectPass(ori, pats);
      var rest := subjects[1..];
      IntersectPassKept(ori, pats);
      CanonicalStep(subjects);
      var kept := DropBefore(pats, ori.start);
      CanonicalSuffix(pats, |pats| - |kept|);
      IntersectSweepCovers(rest, kept, t);
      var tail := IntersectSweep(rest, kept);
      assert IntersectSweep(subjects, pats) == d.pieces + tail;
      CoversConcat(d.pieces, tail, t);
      CoversUncons(subjects, t);
      IntersectPassCovers(ori, pats, t);
      if Covers(rest, t) {
        var j :| 0 <= j < |rest| && Contains(rest[j], t);
        CanonicalTailStarts(subjects);
        DropBeforeCovers(pats, ori.start, t);
      }
      if Contains(ori, t) {
        CanonicalTailAfter(subjects, t);
      }
    }
  }


  // ---------------------------------------------------------------------
  // canonical lists are determined by the points they cover

  lemma CanonicalFirst(l: seq<Period>, t: int)
    requires Canonical(l) && |l| > 0
    ensures Covers(l, t) ==> l[0].start <= t
    ensures !Covers(l, l[0].end)
    ensures Covers(l[1..], t) <==> Covers(l, t) && t > l[0].end
  {
    CanonicalIsSorted(l);
    CanonicalTailStarts(l);
    CoversUncons(l, t);
    CoversUncons(l, l[0].end);
    CanonicalTailAfter(l, l[0].end);
    if Covers(l, t) {
      var i :| 0 <= i < |l| && Contains(l[i], t);
    }
    if Covers(l[1..], t) {
      var j :| 0 <= j < |l[1..]| && Contains(l[1..][j], t);
    }
    if t <= l[0].end {
      CanonicalTailAfter(l, t);
    }
  }

  /** Two canonical lists that cover the same points are the same list. */
  lemma {:induction false} CanonicalExtensional(a: seq<Period>, b: seq<Period>)
    requires Canonical(a) && Canonical(b)
    requires forall t :: Covers(a, t) <==> Covers(b, t)
    ensures a == b
    decreases |a|
  {
    if a != [] {
      assert Contains(a[0], a[0].start);
      assert Covers(b, a[0].start);
    }
    if b != [] {
      assert Contains(b[0], b[0].start);
      assert Covers(a, b[0].start);
    }
    if a != [] && b != [] {
      CanonicalFirst(a, b[0].start);
      CanonicalFirst(b, a[0].start);
      assert a[0].start == b[0].start;
      CanonicalFirst(a, a[0].end);
      CanonicalFirst(b, b[0].end);
      CoversUncons(a, b[0].end);
      CoversUncons(b, a[0].end);
      assert a[0] == b[0];
      forall t ensures Covers(a[1..], t) <==> Covers(b[1..], t) {
        CanonicalFirst(a, t);
        CanonicalFirst(b, t);
      }
      CanonicalTailStarts(a);
      CanonicalTailStarts(b);
      CanonicalExtensional(a[1..], b[1..]);
      assert a == [a[0]] + a[1..] && b == [b[0]] + b[1..];
    }
  }

  /** intersect of a canonical list with itself is that list. */
  lemma IntersectSelf(l: seq<Period>, arg: SortOutArg, cfg: Config)
    requires Canonical(l)
    ensures Intersect(l, l, arg, cfg) == l
  {
    if l != [] {
      CanonicalExtensional(Intersect(l, l, arg, cfg), l);
    }
  }

  /** diff of a canonical list with itself is empty. */
  lemma DiffSelf(l: seq<Period>, arg: SortOutArg, cfg: Config)
    requires Canonical(l)
    ensures Diff(l, l, arg, cfg) == []
  {
    if l != [] {
      CanonicalExtensional(Diff(l, l, arg, cfg), []);
    }
  }

  /**
   * diff and intersect split the subject: no point is in both, and their
   * union gives back the (canonical) subject.
   */
  lemma DiffIntersectPartition(a: seq<Period>, b: seq<Period>, arg: SortOutArg, cfg: Config)
    requires Canonical(a) && Canonical(b)
    ensures forall t :: !(Covers(Diff(a, b, arg, cfg), t) && Covers(Intersect(a, b, arg, cfg), t))
    ensures UnionOf([Diff(a, b, arg, cfg), Intersect(a, b, arg, cfg)]) == a
  {
    var d := Diff(a, b, arg, cfg);
    var i := Intersect(a, b, arg, cfg);
    FlattenMultiset(d, i);
    assert Canonical(d) && Canonical(i);
    AllValidConcat(d, i);
    var u := UnionOf([d, i]);
    forall t ensures Covers(u, t) <==> Covers(a, t) {
      CoversConcat(d, i, t);
    }
    CanonicalExtensional(u, a);
  }

  /** A subject that ends before every pattern starts passes through diff whole. */
  lemma {:induction false} DiffPassClear(ori: Period, pats: seq<Period>)
    requires forall j :: 0 <= j < |pats| ==> ori.end <= pats[j].start
    ensures DiffOut(DiffPass(ori, pats)) == [ori]
    decreases |pats|
  {
    if pats != [] {
      assert forall j :: 0 <= j < |pats[1..]| ==> pats[1..][j] == pats[j + 1];
      DiffPassClear(ori, pats[1..]);
    }
  }

  /** For one subject, the lengths of its diff and intersect pieces add up to its own length. */
  lemma {:induction false} DiffIntersectPassLen(ori: Period, pats: seq<Period>)
    requires ValidPeriod(ori) && Canonical(pats)
    ensures TotalLen(DiffOut(DiffPass(ori, pats))) + TotalLen(IntersectPass(ori, pats).pieces) == Len(ori)
    decreases |pats|, 2
  {
    if pats == [] {
      assert DiffOut(DiffPass(ori, pats)) == [ori];
    } else if pats[0].end <= ori.start || ori.end <= pats[0].start {
      var tail := pats[1..];
      CanonicalStep(pats);
      DiffIntersectPassLen(ori, tail);
      assert DiffOut(DiffPass(ori, pats)) == DiffOut(DiffPass(ori, tail));
      assert IntersectPass(ori, pats).pieces == IntersectPass(ori, tail).pieces;
    } else {
      DiffIntersectPassLenOverlap(ori, pats);
    }
  }

  /** The four overlapping cases of DiffIntersectPassLen. */
  lemma {:induction false} DiffIntersectPassLenOverlap(ori: Period, pats: seq<Period>)
    requires ValidPeriod(ori) && Canonical(pats) && pats != []
    requires Overlap(ori, pats[0])
    ensures TotalLen(DiffOut(DiffPass(ori, pats))) + TotalLen(IntersectPass(ori, pats).pieces) == Len(ori)
    decreases |pats|, 1
  {
    var sub := pats[0];
    var tail := pats[1..];
    CanonicalStep(pats);
    if sub.start <= ori.start && ori.end <= sub.end {
      assert DiffOut(DiffPass(ori, pats)) == [];
      assert IntersectPass(ori, pats).pieces == [ori];
    } else if ori.start < sub.start && sub.end < ori.end {
      DiffIntersectPassLenInside(ori, pats);
    } else if sub.start <= ori.start {
      DiffIntersectPassLenHead(ori, pats);
    } else {
      DiffIntersectPassLenTail(ori, pats);
    }
  }

  /** DiffIntersectPassLen when the first pattern covers the head of the subject. */
  lemma {:induction false} DiffIntersectPassLenHead(ori: Period, pats: seq<Period>)
    requires ValidPeriod(ori) && Canonical(pats) && pats != []
    requires pats[0].start <= ori.start < pats[0].end < ori.end
    ensures TotalLen(DiffOut(DiffPass(ori, pats))) + TotalLen(IntersectPass(ori, pats).pieces) == Len(ori)
    decreases |pats|, 0
  {
    var sub := pats[0];
    var tail := pats[1..];
    var next := Period(sub.end, ori.end);
    CanonicalStep(pats);
    DiffIntersectPassLen(next, tail);
    assert DiffOut(DiffPass(ori, pats)) == DiffOut(DiffPass(next, tail));
    assert IntersectPass(ori, pats).pieces == [Period(ori.start, sub.end)] + IntersectPass(next, tail).pieces;
  }

  /** DiffIntersectPassLen when the first pattern covers the tail of the subject: nothing later reaches it. */
  lemma DiffIntersectPassLenTail(ori: Period, pats: seq<Period>)
    requires ValidPeriod(ori) && Canonical(pats) && pats != []
    requires ori.start < pats[0].start < ori.end <= pats[0].end
    ensures TotalLen(DiffOut(DiffPass(ori, pats))) + TotalLen(IntersectPass(ori, pats).pieces) == Len(ori)
  {
    var sub := pats[0];
    var tail := pats[1..];
    var next := Period(ori.start, sub.start);
    CanonicalTailStarts(pats);
    DiffPassClear(next, tail);
    assert DiffOut(DiffPass(ori, pats)) == DiffOut(DiffPass(next, tail));
    assert IntersectPass(ori, pats).pieces == [Period(sub.start, ori.end)];
  }

  /** DiffIntersectPassLen when the first pattern lies strictly inside the subject. */
  lemma {:induction false} DiffIntersectPassLenInside(ori: Period, pats: seq<Period>)
    requires ValidPeriod(ori) && Canonical(pats) && pats != []
    requires ori.start < pats[0].start && pats[0].end < ori.end
    ensures TotalLen(DiffOut(DiffPass(ori, pats))) + TotalLen(IntersectPass(ori, pats).pieces) == Len(ori)
    decreases |pats|, 0
  {
    var sub := pats[0];
    var tail := pats[1..];
    var next := Period(sub.end, ori.end);
    CanonicalStep(pats);
    DiffIntersectPassLen(next, tail);
    assert DiffOut(DiffPass(ori, pats)) == [Period(ori.start, sub.start)] + DiffOut(DiffPass(next, tail));
    assert IntersectPass(ori, pats).pieces == [sub] + IntersectPass(next, tail).pieces;
  }

  lemma {:induction false} DiffIntersectSweepLen(subjects: seq<Period>, pats: seq<Period>)
    requires Canonical(subjects) && Canonical(pats)
    ensures TotalLen(DiffSweep(subjects, pats)) + TotalLen(IntersectSweep(subjects, pats)) == TotalLen(subjects)
    decreases |subjects|
  {
    if subjects != [] {
      var ori := subjects[0];
      DiffPassKept(ori, pats);
      IntersectPassKept(ori, pats);
      var kept := DropBefore(pats, ori.start);
      CanonicalSuffix(pats, |pats| - |kept|);
      CanonicalTailStarts(subjects);
      DiffIntersectSweepLen(subjects[1..], kept);
      DiffIntersectPassLen(ori, pats);
      TotalLenConcat(DiffOut(DiffPass(ori, pats)), DiffSweep(subjects[1..], kept));
      TotalLenConcat(IntersectPass(ori, pats).pieces, IntersectSweep(subjects[1..], kept));
    }
  }

  /** diff and intersect split the total length of canonical operands. */
  lemma DiffIntersectLen(a: seq<Period>, b: seq<Period>, arg: SortOutArg, cfg: Config)
    requires Canonical(a) && Canonical(b)
    ensures TotalLen(Diff(a, b, arg, cfg)) + TotalLen(Intersect(a, b, arg, cfg)) == TotalLen(a)
  {
    if a != [] && b != [] {
      UnionOfCanonical(a);
      UnionOfCanonical(b);
      FlattenSingle(a);
      FlattenSingle(b);
      DiffIntersectSweepLen(a, b);
    }
  }

  // ---------------------------------------------------------------------
  // isOverlap

  /** What one subject leaves behind in isOverlap: whether it met a pattern, and the surviving patterns. */
  datatype OverlapStep = OverlapStep(found: bool, kept: seq<Period>)

  /** The inner foreach of isOverlap for one subject over the pattern snapshot. */
  function OverlapPass(ori: Period, pats: seq<Period>): OverlapStep
    decreases |pats|
  {
    if pats == [] then OverlapStep(false, [])
    else
      var sub := pats[0];
      if sub.end <= ori.start then
        OverlapPass(ori, pats[1..])
      else if ori.end <= sub.start then
        var d := OverlapPass(ori, pats[1..]);
        d.(kept := [sub] + d.kept)
      else
        OverlapStep(true, pats)
  }

  /** The outer foreach of isOverlap; the first overlap returns true at once. */
  function OverlapSweep(subjects: seq<Period>, pats: seq<Period>): bool
    decreases |subjects|
  {
    if subjects == [] then false
    else
      var d := OverlapPass(subjects[0], pats);
      d.found || OverlapSweep(subjects[1..], d.kept)
  }

  /** isOverlap(l1, l2): false for an empty pattern list, otherwise the sweep (no sorting out). */
  function IsOverlap(l1: seq<Period>, l2: seq<Period>): (r: bool)
    ensures l1 == [] || l2 == [] ==> !r
    ensures StartsSorted(l1) ==> (r <==> exists x, y :: x in l1 && y in l2 && Overlap(x, y))
  {
    if l2 == [] then false
    else
      if StartsSorted(l1) then
        OverlapSweepCorrect(l1, l2);
        OverlapSweep(l1, l2)
      else
        OverlapSweep(l1, l2)
  }

  /** One subject: found iff it overlaps some pattern; otherwise exactly the passed patterns are unset. */
  lemma {:induction false} OverlapPassCorrect(ori: Period, pats: seq<Period>)
    ensures OverlapPass(ori, pats).found <==> exists y :: y in pats && Overlap(ori, y)
    ensures !OverlapPass(ori, pats).found ==>
              forall y :: y in OverlapPass(ori, pats).kept <==> y in pats && y.end > ori.start
    decreases |pats|
  {
    if pats != [] {
      var sub := pats[0];
      var tail := pats[1..];
      assert pats == [sub] + tail;
      if sub.end <= ori.start || ori.end <= sub.start {
        OverlapPassCorrect(ori, tail);
      } else {
        assert Overlap(ori, sub);
      }
    }
  }

  lemma {:induction false} OverlapSweepCorrect(subjects: seq<Period>, pats: seq<Period>)
    requires StartsSorted(subjects)
    ensures OverlapSweep(subjects, pats) <==> exists x, y :: x in subjects && y in pats && Overlap(x, y)
    decreases |subjects|
  {
    if subjects != [] {
      var ori := subjects[0];
      var rest := subjects[1..];
      var d := OverlapPass(ori, pats);
      OverlapPassCorrect(ori, pats);
      assert subjects == [ori] + rest;
      assert StartsSorted(rest) by {
        forall i, j | 0 <= i < j < |rest| ensures rest[i].start <= rest[j].start {
          assert rest[i] == subjects[i + 1] && rest[j] == subjects[j + 1];
        }
      }
      OverlapSweepCorrect(rest, d.kept);
      if !d.found {
        // a pattern that ended by ori's start cannot meet a later subject
        forall x, y | x in rest && y in pats && Overlap(x, y) ensures y in d.kept {
          var i :| 0 <= i < |rest| && rest[i] == x;
          assert subjects[i + 1] == x;
        }
      }
    }
  }

  lemma IntersectMeets(l1: seq<Period>, l2: seq<Period>, arg: SortOutArg, cfg: Config)
    requires Canonical(l1) && Canonical(l2)
    requires Intersect(l1, l2, arg, cfg) != []
    ensures exists x, y :: x in l1 && y in l2 && Overlap(x, y)
  {
    var r := Intersect(l1, l2, arg, cfg);
    var t := r[0].start;
    assert Contains(r[0], t);
    assert Covers(l1, t) && Covers(l2, t);
    var i :| 0 <= i < |l1| && Contains(l1[i], t);
    var j :| 0 <= j < |l2| && Contains(l2[j], t);
    assert l1[i] in l1 && l2[j] in l2 && Overlap(l1[i], l2[j]);
  }

  lemma OverlapMeets(l1: seq<Period>, l2: seq<Period>, x: Period, y: Period, arg: SortOutArg, cfg: Config)
    requires Canonical(l1) && Canonical(l2)
    requires x in l1 && y in l2 && Overlap(x, y)
    ensures Intersect(l1, l2, arg, cfg) != []
  {
    var t := if x.start < y.start then y.start else x.start;
    var i :| 0 <= i < |l1| && l1[i] == x;
    var j :| 0 <= j < |l2| && l2[j] == y;
    assert Contains(l1[i], t) && Contains(l2[j], t);
    assert Covers(Intersect(l1, l2, arg, cfg), t);
  }

  /** For canonical operands, isOverlap says exactly whether intersect is non-empty. */
  lemma IsOverlapIntersect(l1: seq<Period>, l2: seq<Period>, arg: SortOutArg, cfg: Config)
    requires Canonical(l1) && Canonical(l2)
    ensures IsOverlap(l1, l2) <==> Intersect(l1, l2, arg, cfg) != []
  {
    CanonicalIsSorted(l1);
    if Intersect(l1, l2, arg, cfg) != [] {
      IntersectMeets(l1, l2, arg, cfg);
    }
    if IsOverlap(l1, l2) {
      var x, y :| x in l1 && y in l2 && Overlap(x, y);
      OverlapMeets(l1, l2, x, y, arg, cfg);
    }
  }

  // ---------------------------------------------------------------------
  // the loops as the source runs them

  /** Pieces and kept patterns gathered so far, followed by what the rest of the pass yields. */
  function ResumeDiff(pieces: seq<Period>, kept: seq<Period>, d: DiffStep): DiffStep {
    DiffStep(pieces + d.pieces, d.rest, kept + d.kept)
  }

  lemma ResumeDiffThen(pieces: seq<Period>, kept: seq<Period>, x: seq<Period>, y: seq<Period>, d: DiffStep)
    ensures ResumeDiff(pieces, kept, ResumeDiff(x, y, d)) == ResumeDiff(pieces + x, kept + y, d)
  {
    assert pieces + (x + d.pieces) == (pieces + x) + d.pieces;
    assert kept + (y + d.kept) == (kept + y) + d.kept;
  }

  /**
   * The inner foreach of diff for one subject. `snapshot` is the copy of the
   * pattern list the foreach walks; the patterns it does not unset are
   * returned in `kept` and form the pattern list the next subject sees.
   */
  method DiffSubject(ori0: Period, snapshot: seq<Period>) returns (pieces: seq<Period>, rest: Option<Period>, kept: seq<Period>)
    ensures DiffStep(pieces, rest, kept) == DiffPass(ori0, snapshot)
  {
    var ori := ori0;
    pieces, kept := [], [];
    var ko := 0;
    while ko < |snapshot|
      invariant 0 <= ko <= |snapshot|
      invariant DiffPass(ori0, snapshot) == ResumeDiff(pieces, kept, DiffPass(ori, snapshot[ko..]))
    {
      var sub := snapshot[ko];
      ghost var next := snapshot[ko + 1..];
      assert snapshot[ko..] == [sub] + next;
      if sub.end <= ori.start {
        // passed: unset
        assert DiffPass(ori, snapshot[ko..]) == DiffPass(ori, next);
      } else if ori.end <= sub.start {
        assert DiffPass(ori, snapshot[ko..]) == ResumeDiff([], [sub], DiffPass(ori, next));
        ResumeDiffThen(pieces, kept, [], [sub], DiffPass(ori, next));
        kept := kept + [sub];
      } else if sub.start <= ori.start && ori.end <= sub.end {
        // subtract all: the subject is consumed
        return pieces, None, kept + snapshot[ko..];
      } else if ori.start < sub.start && sub.end < ori.end {
        var left, right := Period(ori.start, sub.start), Period(sub.end, ori.end);
        assert DiffPass(ori, snapshot[ko..]) == ResumeDiff([left], [sub], DiffPass(right, next));
        ResumeDiffThen(pieces, kept, [left], [sub], DiffPass(right, next));
        pieces := pieces + [left];
        ori := right;
        kept := kept + [sub];
      } else if sub.start <= ori.start {
        var right := Period(sub.end, ori.end);
        assert DiffPass(ori, snapshot[ko..]) == ResumeDiff([], [sub], DiffPass(right, next));
        ResumeDiffThen(pieces, kept, [], [sub], DiffPass(right, next));
        ori := right;
        kept := kept + [sub];
      } else {
        var left := Period(ori.start, sub.start);
        assert DiffPass(ori, snapshot[ko..]) == ResumeDiff([], [sub], DiffPass(left, next));
        ResumeDiffThen(pieces, kept, [], [sub], DiffPass(left, next));
        ori := left;
        kept := kept + [sub];
      }
      ko := ko + 1;
    }
    assert snapshot[ko..] == [];
    rest := Some(ori);
  }

  /** diff with its two nested foreach loops. */
  method ComputeDiff(l1: seq<Period>, l2: seq<Period>, arg: SortOutArg, cfg: Config) returns (opt: seq<Period>)
    ensures opt == Diff(l1, l2, arg, cfg)
  {
    if l1 == [] || l2 == [] {
      return l1;
    }
    var prepared := DataSortOut(arg, cfg, l1, Some(l2));
    opt := DiffLoop(prepared.0, prepared.1.value);
  }

  /** One subject of the outer foreach of diff: its output, then the sweep of the rest over what it kept. */
  lemma DiffSweepStep(subjects: seq<Period>, k: nat, pats: seq<Period>, done: seq<Period>)
    requires k < |subjects|
    ensures done + DiffSweep(subjects[k..], pats) ==
              (done + DiffOut(DiffPass(subjects[k], pats))) + DiffSweep(subjects[k + 1..], DiffPass(subjects[k], pats).kept)
  {
    assert subjects[k..] == [subjects[k]] + subjects[k + 1..];
  }

  /** The outer foreach of diff over the sorted-out subjects. */
  method DiffLoop(subjects: seq<Period>, pats0: seq<Period>) returns (opt: seq<Period>)
    ensures opt == DiffSweep(subjects, pats0)
  {
    var pats := pats0;
    opt := [];
    var k1 := 0;
    while k1 < |subjects|
      invariant 0 <= k1 <= |subjects|
      invariant opt + DiffSweep(subjects[k1..], pats) == DiffSweep(subjects, pats0)
    {
      var pieces, rest, kept := DiffSubject(subjects[k1], pats);
      var out := pieces + (if rest.Some? then [rest.value] else []);
      DiffSweepStep(subjects, k1, pats, opt);
      opt := opt + out;
      pats := kept;
      k1 := k1 + 1;
    }
  }

  function ResumeIntersect(pieces: seq<Period>, kept: seq<Period>, d: IntersectStep): IntersectStep {
    IntersectStep(pieces + d.pieces, kept + d.kept)
  }

  lemma ResumeIntersectThen(pieces: seq<Period>, kept: seq<Period>, x: seq<Period>, y: seq<Period>, d: IntersectStep)
    ensures ResumeIntersect(pieces, kept, ResumeIntersect(x, y, d)) == ResumeIntersect(pieces + x, kept + y, d)
  {
    assert pieces + (x + d.pieces) == (pieces + x) + d.pieces;
    assert kept + (y + d.kept) == (kept + y) + d.kept;
  }

  /** The inner foreach of intersect for one subject (see DiffSubject for `kept`). */
  method IntersectSubject(ori0: Period, snapshot: seq<Period>) returns (pieces: seq<Period>, kept: seq<Period>)
    ensures IntersectStep(pieces, kept) == IntersectPass(ori0, snapshot)
  {
    var ori := ori0;
    pieces, kept := [], [];
    var ko := 0;
    while ko < |snapshot|
      invariant 0 <= ko <= |snapshot|
      invariant IntersectPass(ori0, snapshot) == ResumeIntersect(pieces, kept, IntersectPass(ori, snapshot[ko..]))
    {
      var sub := snapshot[ko];
      ghost var next := snapshot[ko + 1..];
      assert snapshot[ko..] == [sub] + next;
      if sub.end <= ori.start {
        // passed: unset
        assert IntersectPass(ori, snapshot[ko..]) == IntersectPass(ori, next);
      } else if ori.end <= sub.start {
        assert IntersectPass(ori, snapshot[ko..]) == ResumeIntersect([], [sub], IntersectPass(ori, next));
        ResumeIntersectThen(pieces, kept, [], [sub], IntersectPass(ori, next));
        kept := kept + [sub];
      } else if sub.start <= ori.start && ori.end <= sub.end {
        pieces := pieces + [ori];
        kept := kept + snapshot[ko..];
        return;
      } else if ori.start < sub.start && sub.end < ori.end {
        var right := Period(sub.end, ori.end);
        assert IntersectPass(ori, snapshot[ko..]) == ResumeIntersect([sub], [sub], IntersectPass(right, next));
        ResumeIntersectThen(pieces, kept, [sub], [sub], IntersectPass(right, next));
        pieces := pieces + [sub];
        ori := right;
        kept := kept + [sub];
      } else if sub.start <= ori.start {
        var right := Period(sub.end, ori.end);
        assert IntersectPass(ori, snapshot[ko..]) == ResumeIntersect([Period(ori.start, sub.end)], [sub], IntersectPass(right, next));
        ResumeIntersectThen(pieces, kept, [Period(ori.start, sub.end)], [sub], IntersectPass(right, next));
        pieces := pieces + [Period(ori.start, sub.end)];
        ori := right;
        kept := kept + [sub];
      } else {
        pieces := pieces + [Period(sub.start, ori.end)];
        kept := kept + snapshot[ko..];
        return;
      }
      ko := ko + 1;
    }
    assert snapshot[ko..] == [];
  }

  /** intersect with its two nested foreach loops. */
  method ComputeIntersect(l1: seq<Period>, l2: seq<Period>, arg: SortOutArg, cfg: Config) returns (opt: seq<Period>)
    ensures opt == Intersect(l1, l2, arg, cfg)
  {
    if l1 == [] || l2 == [] {
      return [];
    }
    var prepared := DataSortOut(arg, cfg, l1, Some(l2));
    opt := IntersectLoop(prepared.0, prepared.1.value);
  }

  /** One subject of the outer foreach of intersect: its pieces, then the sweep of the rest over what it kept. */
  lemma IntersectSweepStep(subjects: seq<Period>, k: nat, pats: seq<Period>, done: seq<Period>)
    requires k < |subjects|
    ensures done + IntersectSweep(subjects[k..], pats) ==
              (done + IntersectPass(subjects[k], pats).pieces) + IntersectSweep(subjects[k + 1..], IntersectPass(subjects[k], pats).kept)
  {
    assert subjects[k..] == [subjects[k]] + subjects[k + 1..];
  }

  /** The outer foreach of intersect over the sorted-out subjects. */
  method IntersectLoop(subjects: seq<Period>, pats0: seq<Period>) returns (opt: seq<Period>)
    ensures opt == IntersectSweep(subjects, pats0)
  {
    var pats := pats0;
    opt := [];
    var k1 := 0;
    while k1 < |subjects|
      invariant 0 <= k1 <= |subjects|
      invariant opt + IntersectSweep(subjects[k1..], pats) == IntersectSweep(subjects, pats0)
    {
      var pieces, kept := IntersectSubject(subjects[k1], pats);
      IntersectSweepStep(subjects, k1, pats, opt);
      opt := opt + pieces;
      pats := kept;
      k1 := k1 + 1;
    }
  }

  /** The inner foreach of isOverlap for one subject. */
  method OverlapSubject(ori: Period, snapshot: seq<Period>) returns (found: bool, kept: seq<Period>)
    ensures OverlapStep(found, kept) == OverlapPass(ori, snapshot)
  {
    kept := [];
    var ko := 0;
    assert snapshot[ko..] == snapshot;
    while ko < |snapshot|
      invariant 0 <= ko <= |snapshot|
      invariant OverlapPass(ori, snapshot) == ResumeOverlap(kept, OverlapPass(ori, snapshot[ko..]))
    {
      var sub := snapshot[ko];
      OverlapPassStep(ori, snapshot, ko, kept);
      if sub.end <= ori.start {
        // passed: unset
      } else if ori.end <= sub.start {
        kept := kept + [sub];
      } else {
        return true, kept + snapshot[ko..];
      }
      ko := ko + 1;
    }
    assert snapshot[ko..] == [];
    assert kept + [] == kept;
    found := false;
  }

  /** What the inner foreach of isOverlap returns once it has kept `kept` and goes on with d. */
  function ResumeOverlap(kept: seq<Period>, d: OverlapStep): OverlapStep {
    d.(kept := kept + d.kept)
  }

  /** One pattern of isOverlap's inner foreach: unset, kept, or the overlap that ends the pass. */
  lemma OverlapPassStep(ori: Period, snapshot: seq<Period>, ko: nat, kept: seq<Period>)
    requires ko < |snapshot|
    ensures snapshot[ko].end <= ori.start ==>
              ResumeOverlap(kept, OverlapPass(ori, snapshot[ko..])) == ResumeOverlap(kept, OverlapPass(ori, snapshot[ko + 1..]))
    ensures ori.start < snapshot[ko].end && ori.end <= snapshot[ko].start ==>
              ResumeOverlap(kept, OverlapPass(ori, snapshot[ko..])) == ResumeOverlap(kept + [snapshot[ko]], OverlapPass(ori, snapshot[ko + 1..]))
    ensures ori.start < snapshot[ko].end && snapshot[ko].start < ori.end ==>
              ResumeOverlap(kept, OverlapPass(ori, snapshot[ko..])) == OverlapStep(true, kept + snapshot[ko..])
  {
    var next := snapshot[ko + 1..];
    assert snapshot[ko..] == [snapshot[ko]] + next;
    if ori.start < snapshot[ko].end && ori.end <= snapshot[ko].start {
      var d := OverlapPass(ori, next);
      assert kept + ([snapshot[ko]] + d.kept) == (kept + [snapshot[ko]]) + d.kept;
    }
  }

  /** isOverlap with its two nested foreach loops; the first overlap returns at once. */
  method ComputeIsOverlap(l1: seq<Period>, l2: seq<Period>) returns (r: bool)
    ensures r == IsOverlap(l1, l2)
  {
    if l2 == [] {
      return false;
    }
    var pats := l2;
    var k1 := 0;
    while k1 < |l1|
      invariant 0 <= k1 <= |l1|
      invariant OverlapSweep(l1[k1..], pats) == OverlapSweep(l1, l2)
    {
      var found, kept := OverlapSubject(l1[k1], pats);
      assert l1[k1..] == [l1[k1]] + l1[k1 + 1..];
      if found {
        return true;
      }
      pats := kept;
      k1 := k1 + 1;
    }
    return false;
  }
}
