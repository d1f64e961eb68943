/**
 * The measuring and reshaping operations of the helper: fill, gap, time,
 * cut, extend and shorten.
 *
 * Datetime strings become integer timestamps; every period of a list is
 * rendered at one width, whose granularity g (see Base.Granularity) is what
 * extendTime truncates to.
 */
module DataProcess {
  import opened Periods
  import opened Base
  import opened Canonicalizer
  import opened SetAlgebra

  /** Every timestamp of l can be written exactly at granularity g. */
  predicate AllAligned(l: seq<Period>, g: Grain) {
    forall i :: 0 <= i < |l| ==> Aligned(l[i].start, g) && Aligned(l[i].end, g)
  }

  lemma {:induction false} TotalLenNonneg(l: seq<Period>)
    requires AllValid(l)
    ensures TotalLen(l) >= 0
    ensures l != [] ==> TotalLen(l) > 0
  {
    if l != [] {
      assert AllValid(l[1..]) by {
        forall i | 0 <= i < |l[1..]| ensures ValidPeriod(l[1..][i]) {
          assert l[1..][i] == l[i + 1];
        }
      }
      TotalLenNonneg(l[1..]);
    }
  }

  // ---------------------------------------------------------------------
  // fill

  /** fill(l): one period from the earliest start to the latest end; nothing for an empty list. */
  method Fill(l: seq<Period>) returns (opt: seq<Period>)
    ensures l == [] ==> opt == []
    ensures l != [] ==> |opt| == 1
    ensures l != [] ==> forall i :: 0 <= i < |l| ==> opt[0].start <= l[i].start && l[i].end <= opt[0].end
    ensures l != [] ==> (exists i :: 0 <= i < |l| && opt[0].start == l[i].start)
    ensures l != [] ==> (exists i :: 0 <= i < |l| && opt[0].end == l[i].end)
    ensures forall t :: Covers(l, t) ==> Covers(opt, t)
  {
    opt := [];
    if l != [] {
      var start, end := l[0].start, l[0].end;
      var k := 1;
      ghost var si, ei := 0, 0;
      while k < |l|
        invariant 1 <= k <= |l|
        invariant 0 <= si < k && 0 <= ei < k
        invariant start == l[si].start && end == l[ei].end
        invariant forall i :: 0 <= i < k ==> start <= l[i].start && l[i].end <= end
      {
        if l[k].start < start {
          start, si := l[k].start, k;
        }
        if l[k].end > end {
          end, ei := l[k].end, k;
        }
        k := k + 1;
      }
      opt := [Period(start, end)];
      forall t | Covers(l, t) ensures Covers(opt, t) {
        var i :| 0 <= i < |l| && Contains(l[i], t);
        assert Contains(opt[0], t);
      }
    }
  }

  // ---------------------------------------------------------------------
  // gap

  /** The periods between neighbours: from each end to the next start. */
  function Gaps(l: seq<Period>): (r: seq<Period>)
    ensures |r| == if l == [] then 0 else |l| - 1
    ensures forall k :: 0 <= k < |r| ==> r[k] == Period(l[k].end, l[k + 1].start)
  {
    if |l| < 2 then [] else [Period(l[0].end, l[1].start)] + Gaps(l[1..])
  }

  /** gap(l, sortOut): the gaps of the sorted-out list. */
  function Gap(l: seq<Period>, arg: SortOutArg, cfg: Config): (r: seq<Period>)
    ensures l == [] ==> r == []
    ensures Prepared(arg, cfg, l) ==> Canonical(r)
    ensures Prepared(arg, cfg, l) && l != [] ==>
              forall t :: Covers(r, t) <==>
                var p := SortOut(arg, cfg, l);
                p[0].start <= t < p[|p| - 1].end && !Covers(l, t)
  {
    if l == [] then []
    else
      var p := SortOut(arg, cfg, l);
      if Prepared(arg, cfg, l) then
        SortOutPrepared(arg, cfg, l);
        GapsCanonical(p);
        forall t ensures Covers(Gaps(p), t) <==> p[0].start <= t < p[|p| - 1].end && !Covers(p, t) {
          GapsCovers(p, t);
        }
        Gaps(p)
      else
        Gaps(p)
  }

  lemma {:induction false} GapsCanonical(l: seq<Period>)
    requires Canonical(l)
    ensures Canonical(Gaps(l))
    ensures forall i :: 0 <= i < |Gaps(l)| ==> Gaps(l)[i].start >= l[0].end
  {
    if |l| >= 2 {
      CanonicalTailStarts(l);
      GapsCanonical(l[1..]);
      var g := Period(l[0].end, l[1].start);
      assert l[1..][0] == l[1];
      CanonicalCons(g, Gaps(l[1..]));
    }
  }

  /** Within the span of a canonical list, a point is in a gap exactly when no period covers it. */
  lemma {:induction false} GapsCovers(l: seq<Period>, t: int)
    requires Canonical(l) && l != []
    ensures Covers(Gaps(l), t) <==> l[0].start <= t < l[|l| - 1].end && !Covers(l, t)
  {
    CanonicalFirst(l, t);
    CoversUncons(l, t);
    if |l| == 1 {
      assert Gaps(l) == [];
    } else {
      var q := l[1..];
      CanonicalTailStarts(l);
      GapsCovers(q, t);
      CanonicalFirst(q, t);
      assert q[0] == l[1] && q[|q| - 1] == l[|l| - 1];
      CoversCons(Period(l[0].end, l[1].start), Gaps(q), t);
      assert l[0].end < l[|l| - 1].start;
    }
  }

  /** A point is in a canonical list or in one of its gaps exactly when it lies in the span. */
  lemma GapsFillPoint(l: seq<Period>, t: int)
    requires Canonical(l) && l != []
    ensures Covers(l, t) || Covers(Gaps(l), t) <==> l[0].start <= t < l[|l| - 1].end
  {
    GapsCovers(l, t);
    CanonicalFirst(l, t);
    if Covers(l, t) {
      var i :| 0 <= i < |l| && Contains(l[i], t);
      if i < |l| - 1 {
        assert l[i].end < l[|l| - 1].start;
      }
    }
  }

  lemma GapsFillCovers(l: seq<Period>)
    requires Canonical(l) && l != []
    ensures forall t :: Covers(UnionOf([l, Gaps(l)]), t) <==> Covers([Period(l[0].start, l[|l| - 1].end)], t)
  {
    forall t ensures Covers(UnionOf([l, Gaps(l)]), t) <==> Covers([Period(l[0].start, l[|l| - 1].end)], t) {
      GapsFillCoversAt(l, t);
    }
  }

  lemma GapsFillCoversAt(l: seq<Period>, t: int)
    requires Canonical(l) && l != []
    ensures Covers(UnionOf([l, Gaps(l)]), t) <==> Covers([Period(l[0].start, l[|l| - 1].end)], t)
  {
    var gs := Gaps(l);
    var span := Period(l[0].start, l[|l| - 1].end);
    FlattenMultiset(l, gs);
    assert Covers(UnionOf([l, gs]), t) <==> Covers(l + gs, t);
    CoversConcat(l, gs, t);
    GapsFillPoint(l, t);
    CoversCons(span, [], t);
    assert [span] + [] == [span];
  }

  /** The gaps close a canonical list into the single period that spans it. */
  lemma GapsFill(l: seq<Period>)
    requires Canonical(l) && l != []
    ensures UnionOf([l, Gaps(l)]) == [Period(l[0].start, l[|l| - 1].end)]
  {
    var span := Period(l[0].start, l[|l| - 1].end);
    assert AllValid(Gaps(l)) by {
      GapsCanonical(l);
    }
    UnionOfPairCanonical(l, Gaps(l));
    assert Canonical([span]) by {
      CanonicalIsSorted(l);
      assert l[0].start <= l[|l| - 1].start;
    }
    GapsFillCovers(l);
    CanonicalExtensional(UnionOf([l, Gaps(l)]), [span]);
  }

  /** The union of two lists of valid periods is canonical. */
  lemma UnionOfPairCanonical(a: seq<Period>, b: seq<Period>)
    requires AllValid(a) && AllValid(b)
    ensures Canonical(UnionOf([a, b]))
  {
    FlattenMultiset(a, b);
    AllValidConcat(a, b);
  }

  /** gap's foreach loop over the sorted-out list. */
  method ComputeGap(l: seq<Period>, arg: SortOutArg, cfg: Config) returns (opt: seq<Period>)
    ensures opt == Gap(l, arg, cfg)
  {
    if l == [] {
      return [];
    }
    opt := GapLoop(SortOut(arg, cfg, l));
  }

  /** gap's foreach: the space between each period and the next. */
  method GapLoop(tps: seq<Period>) returns (opt: seq<Period>)
    ensures opt == Gaps(tps)
  {
    opt := [];
    var k := 0;
    while k < |tps|
      invariant 0 <= k <= |tps|
      invariant opt + Gaps(tps[k..]) == Gaps(tps)
    {
      if k + 1 < |tps| {
        assert tps[k..][1..] == tps[k + 1..];
        opt := opt + [Period(tps[k].end, tps[k + 1].start)];
      }
      k := k + 1;
    }
  }

  // ---------------------------------------------------------------------
  // time

  /** The (int) cast of a / b: division truncated toward zero. */
  function TruncDiv(a: int, b: nat): (q: int)
    requires b in {1, 60, 3600}
    ensures a >= 0 ==> q >= 0 && q * b <= a < q * b + b
    ensures a < 0 ==> q <= 0 && q * b >= a > q * b - b
    ensures b == 1 ==> q == a
  {
    if a >= 0 then a / b else -((-a) / b)
  }

  /**
   * time(l): the summed lengths of the sorted-out list in seconds, expressed
   * in the configured time unit and cut toward zero (precision 0).
   */
  method Time(l: seq<Period>, arg: SortOutArg, cfg: Config) returns (n: int)
    ensures l == [] ==> n == 0
    ensures l != [] ==> n == TruncDiv(TotalLen(SortOut(arg, cfg, l)), Seconds(cfg.timeUnit))
  {
    if l == [] {
      return 0;
    }
    var tps := SortOut(arg, cfg, l);
    var time := 0;
    var k := 0;
    while k < |tps|
      invariant 0 <= k <= |tps|
      invariant time + TotalLen(tps[k..]) == TotalLen(tps)
    {
      assert tps[k..][1..] == tps[k + 1..];
      time := time + Len(tps[k]);
      k := k + 1;
    }
    assert tps[k..] == [];
    var unit := GetUnit(cfg, "time", "default");
    match unit.value
    case Minute => n := TruncDiv(time, 60);
    case Hour => n := TruncDiv(time, 3600);
    case Second => n := TruncDiv(time, 1);
  }

  // ---------------------------------------------------------------------
  // cut

  /**
   * cut's foreach from a running length timeLen: whole periods while they
   * fit the budget, then the start of the next one up to the budget
   * (rendered at granularity g, and dropped if that leaves it empty).
   */
  function CutFrom(l: seq<Period>, timeLen: int, budget: int, g: Grain): seq<Period>
    decreases |l|
  {
    if l == [] then []
    else
      var tlen := Len(l[0]);
      if timeLen + tlen <= budget then
        [l[0]] + CutFrom(l[1..], timeLen + tlen, budget, g)
      else if timeLen < budget then
        var tpe := ExtendTime(l[0].start, budget - timeLen, g);
        if l[0].start != tpe then [Period(l[0].start, tpe)] else []
      else
        []
  }

  /** cut(l, time, sortOut): the leading part of the sorted-out list whose length is time (in the time unit). */
  function Cut(l: seq<Period>, time: int, arg: SortOutArg, cfg: Config, g: Grain): (r: seq<Period>)
    ensures l == [] ==> r == []
    ensures Time2Second(cfg, time, "default") >= 0 ==> TotalLen(r) <= Time2Second(cfg, time, "default")
  {
    if l == [] then []
    else
      var budget := Time2Second(cfg, time, "default");
      if budget >= 0 then
        CutWithinBudget(SortOut(arg, cfg, l), 0, budget, g);
        CutFrom(SortOut(arg, cfg, l), 0, budget, g)
      else
        CutFrom(SortOut(arg, cfg, l), 0, budget, g)
  }

  /** What is cut never exceeds the budget. */
  lemma {:induction false} CutWithinBudget(l: seq<Period>, timeLen: int, budget: int, g: Grain)
    requires timeLen <= budget
    ensures timeLen + TotalLen(CutFrom(l, timeLen, budget, g)) <= budget
    decreases |l|
  {
    if l != [] && timeLen + Len(l[0]) <= budget {
      CutWithinBudget(l[1..], timeLen + Len(l[0]), budget, g);
    }
  }

  /** At second width, a budget that the valid periods can fill is met exactly. */
  lemma {:induction false} CutExact(l: seq<Period>, timeLen: int, budget: int, g: Grain)
    requires g == 1 && AllValid(l)
    requires timeLen <= budget <= timeLen + TotalLen(l)
    ensures timeLen + TotalLen(CutFrom(l, timeLen, budget, g)) == budget
    decreases |l|
  {
    if l != [] {
      assert AllValid(l[1..]) by {
        forall i | 0 <= i < |l[1..]| ensures ValidPeriod(l[1..][i]) { assert l[1..][i] == l[i + 1]; }
      }
      if timeLen + Len(l[0]) <= budget {
        CutExact(l[1..], timeLen + Len(l[0]), budget, g);
      } else if timeLen < budget {
        ExtendTimeExact(l[0].start, budget - timeLen, g);
      }
    }
  }

  /** A budget that covers every valid period keeps the list whole. */
  lemma {:induction false} CutWhole(l: seq<Period>, timeLen: int, budget: int, g: Grain)
    requires AllValid(l) && timeLen + TotalLen(l) <= budget
    ensures CutFrom(l, timeLen, budget, g) == l
    decreases |l|
  {
    if l != [] {
      assert AllValid(l[1..]) by {
        forall i | 0 <= i < |l[1..]| ensures ValidPeriod(l[1..][i]) { assert l[1..][i] == l[i + 1]; }
      }
      TotalLenNonneg(l[1..]);
      CutWhole(l[1..], timeLen + Len(l[0]), budget, g);
      assert l == [l[0]] + l[1..];
    }
  }

  /**
   * Re-rendering an aligned instant never moves it back: less than one step
   * is truncated away entirely, a whole step or more moves it forward.
   */
  lemma ExtendTimeFrom(s: int, n: int, g: Grain)
    requires Aligned(s, g) && n >= 0
    ensures ExtendTime(s, n, g) >= s
    ensures n < g ==> ExtendTime(s, n, g) == s
    ensures n >= g ==> ExtendTime(s, n, g) > s
  {
    var r := ExtendTime(s, n, g);
    AlignedGap(r, s, g);
    AlignedGap(s, r, g);
  }

  /** Two distinct aligned instants are at least one granularity apart. */
  lemma AlignedGap(a: int, b: int, g: Grain)
    requires Aligned(a, g) && Aligned(b, g)
    ensures a < b ==> a + g <= b
  {
    if g == 60 {
      MultiplesApart60(a, b);
    } else if g == 3600 {
      MultiplesApart3600(a, b);
    } else if g == 86400 {
      MultiplesApart86400(a, b);
    }
  }

  lemma MultiplesApart60(a: int, b: int)
    requires a % 60 == 0 && b % 60 == 0
    ensures a < b ==> a + 60 <= b
  {
    var qa, qb := a / 60, b / 60;
    assert a == 60 * qa && b == 60 * qb;
  }

  lemma MultiplesApart3600(a: int, b: int)
    requires a % 3600 == 0 && b % 3600 == 0
    ensures a < b ==> a + 3600 <= b
  {
    var qa, qb := a / 3600, b / 3600;
    assert a == 3600 * qa && b == 3600 * qb;
  }

  lemma MultiplesApart86400(a: int, b: int)
    requires a % 86400 == 0 && b % 86400 == 0
    ensures a < b ==> a + 86400 <= b
  {
    var qa, qb := a / 86400, b / 86400;
    assert a == 86400 * qa && b == 86400 * qb;
  }

  /**
   * What is cut is a prefix of the list, except that its last period may
   * be shortened (same start, earlier end).
   */
  lemma {:induction false} CutPrefix(l: seq<Period>, timeLen: int, budget: int, g: Grain)
    ensures |CutFrom(l, timeLen, budget, g)| <= |l|
    ensures forall i :: 0 <= i < |CutFrom(l, timeLen, budget, g)| ==>
              CutFrom(l, timeLen, budget, g)[i].start == l[i].start && CutFrom(l, timeLen, budget, g)[i].end <= l[i].end
    ensures forall i :: 0 <= i < |CutFrom(l, timeLen, budget, g)| - 1 ==> CutFrom(l, timeLen, budget, g)[i] == l[i]
    decreases |l|
  {
    if l != [] && timeLen + Len(l[0]) <= budget {
      CutPrefix(l[1..], timeLen + Len(l[0]), budget, g);
    }
  }

  /** With valid periods aligned to the granularity, every period that is cut is valid. */
  lemma {:induction false} CutValid(l: seq<Period>, timeLen: int, budget: int, g: Grain)
    requires AllValid(l) && AllAligned(l, g)
    ensures AllValid(CutFrom(l, timeLen, budget, g))
    decreases |l|
  {
    if l != [] {
      var tlen := Len(l[0]);
      if timeLen + tlen <= budget {
        assert forall i :: 0 <= i < |l[1..]| ==> l[1..][i] == l[i + 1];
        CutValid(l[1..], timeLen + tlen, budget, g);
      } else if timeLen < budget {
        ExtendTimeFrom(l[0].start, budget - timeLen, g);
      }
    }
  }

  /** Adding or subtracting a multiple of the granularity does not change a remainder. */
  lemma ModShift(a: int, c: int, g: Grain)
    requires Aligned(a, g)
    ensures (c + a) % g == c % g && (c - a) % g == c % g
  {
    if g == 60 {
      ModShift60(a, c);
    } else if g == 3600 {
      ModShift3600(a, c);
    } else if g == 86400 {
      ModShift86400(a, c);
    }
  }

  lemma ModShift60(a: int, c: int)
    requires a % 60 == 0
    ensures (c + a) % 60 == c % 60 && (c - a) % 60 == c % 60
  {
    var q, d := a / 60, c / 60;
    assert a == 60 * q && c == 60 * d + c % 60;
  }

  lemma ModShift3600(a: int, c: int)
    requires a % 3600 == 0
    ensures (c + a) % 3600 == c % 3600 && (c - a) % 3600 == c % 3600
  {
    var q, d := a / 3600, c / 3600;
    assert a == 3600 * q && c == 3600 * d + c % 3600;
  }

  lemma ModShift86400(a: int, c: int)
    requires a % 86400 == 0
    ensures (c + a) % 86400 == c % 86400 && (c - a) % 86400 == c % 86400
  {
    var q, d := a / 86400, c / 86400;
    assert a == 86400 * q && c == 86400 * d + c % 86400;
  }

  /**
   * At any granularity, with aligned periods and a budget the list can
   * fill, what is cut lasts the budget rounded down to the granularity: the
   * last partial period is re-rendered at the width of its start.
   */
  lemma {:induction false} CutRoundsDown(l: seq<Period>, timeLen: int, budget: int, g: Grain)
    requires AllValid(l) && AllAligned(l, g) && Aligned(timeLen, g)
    requires timeLen <= budget <= timeLen + TotalLen(l)
    ensures timeLen + TotalLen(CutFrom(l, timeLen, budget, g)) == budget - budget % g
    decreases |l|
  {
    if l != [] {
      var tlen := Len(l[0]);
      ModShift(l[0].start, l[0].end, g);
      if timeLen + tlen <= budget {
        ModShift(timeLen, tlen, g);
        assert AllValid(l[1..]) && AllAligned(l[1..], g) by {
          forall i | 0 <= i < |l[1..]| ensures l[1..][i] == l[i + 1] { }
        }
        CutRoundsDown(l[1..], timeLen + tlen, budget, g);
      } else if timeLen < budget {
        ModShift(timeLen, budget, g);
        ModShift(l[0].start, budget - timeLen, g);
      }
    }
  }

  /** Cutting a canonical aligned list leaves it canonical. */
  lemma CutCanonical(l: seq<Period>, timeLen: int, budget: int, g: Grain)
    requires Canonical(l) && AllAligned(l, g)
    ensures Canonical(CutFrom(l, timeLen, budget, g))
  {
    var r := CutFrom(l, timeLen, budget, g);
    CutPrefix(l, timeLen, budget, g);
    CutValid(l, timeLen, budget, g);
    forall i, j | 0 <= i < j < |r| ensures r[i].end < r[j].start {
      assert l[i].end < l[j].start;
    }
  }

  /** cut's foreach loop with its early exit. */
  method ComputeCut(l: seq<Period>, time: int, arg: SortOutArg, cfg: Config, g: Grain) returns (opt: seq<Period>)
    ensures opt == Cut(l, time, arg, cfg, g)
  {
    if l == [] {
      return [];
    }
    var tps := SortOut(arg, cfg, l);
    var budget := Time2Second(cfg, time, "default");
    opt := CutLoop(tps, budget, g);
  }

  /** The foreach of cut over the sorted-out list, accumulating timeLen. */
  method CutLoop(tps: seq<Period>, budget: int, g: Grain) returns (opt: seq<Period>)
    ensures opt == CutFrom(tps, 0, budget, g)
  {
    opt := [];
    var timeLen := 0;
    var k := 0;
    while k < |tps|
      invariant 0 <= k <= |tps|
      invariant opt + CutFrom(tps[k..], timeLen, budget, g) == CutFrom(tps, 0, budget, g)
    {
      var tp := tps[k];
      var tlen := Len(tp);
      CutFromStep(tps, k, timeLen, budget, g, opt);
      if timeLen + tlen <= budget {
        opt := opt + [tp];
        timeLen := timeLen + tlen;
        k := k + 1;
        continue;
      } else if timeLen < budget {
        var tpe := ExtendTime(tp.start, budget - timeLen, g);
        if tp.start != tpe {
          opt := opt + [Period(tp.start, tpe)];
          return;
        }
      }
      // over the limit: leave the loop
      assert opt + [] == opt;
      return;
    }
    assert tps[k..] == [];
    assert opt + [] == opt;
  }

  /** One element of cut's foreach: taken whole, cut to the remaining budget, or the end of the output. */
  lemma CutFromStep(tps: seq<Period>, k: nat, timeLen: int, budget: int, g: Grain, done: seq<Period>)
    requires k < |tps|
    ensures timeLen + Len(tps[k]) <= budget ==>
              done + CutFrom(tps[k..], timeLen, budget, g) ==
              (done + [tps[k]]) + CutFrom(tps[k + 1..], timeLen + Len(tps[k]), budget, g)
    ensures timeLen + Len(tps[k]) > budget ==>
              done + CutFrom(tps[k..], timeLen, budget, g) ==
              done + (if timeLen < budget && tps[k].start != ExtendTime(tps[k].start, budget - timeLen, g)
                      then [Period(tps[k].start, ExtendTime(tps[k].start, budget - timeLen, g))] else [])
  {
    assert tps[k..] == [tps[k]] + tps[k + 1..];
  }

  // ---------------------------------------------------------------------
  // extend

  /**
   * extend on a sorted-out, non-empty list p, with time d and interval iv in
   * seconds: with no interval push the last end later by d; otherwise add a
   * period of length d, iv after the last end (only if it is not empty at
   * granularity g).
   */
  function ExtendLast(p: seq<Period>, d: int, iv: int, g: Grain): (r: seq<Period>)
    requires p != []
    ensures |p| <= |r| <= |p| + 1
    ensures r[..|p| - 1] == p[..|p| - 1]
    ensures iv == 0 ==> |r| == |p| && r[|p| - 1].start == p[|p| - 1].start
    ensures iv != 0 ==> r[..|p|] == p
    ensures iv == 0 ==> r[|p| - 1].end == ExtendTime(p[|p| - 1].end, d, g)
    ensures iv != 0 ==>
              var tps := ExtendTime(p[|p| - 1].end, iv, g);
              var tpe := ExtendTime(tps, d, g);
              (|r| == |p| + 1 <==> tps != tpe) && (|r| == |p| + 1 ==> r[|p|] == Period(tps, tpe))
  {
    var e := |p| - 1;
    if iv == 0 then
      p[e := Period(p[e].start, ExtendTime(p[e].end, d, g))]
    else
      var tps := ExtendTime(p[e].end, iv, g);
      var tpe := ExtendTime(tps, d, g);
      if tps != tpe then p + [Period(tps, tpe)] else p
  }

  /** extend(l, time, interval, sortOut). */
  function Extend(l: seq<Period>, time: int, interval: int, arg: SortOutArg, cfg: Config, g: Grain): (r: seq<Period>)
    ensures l == [] ==> r == []
    ensures l != [] ==> |SortOut(arg, cfg, l)| <= |r| <= |SortOut(arg, cfg, l)| + 1
    ensures forall i :: 0 <= i < |SortOut(arg, cfg, l)| - 1 ==> r[i] == SortOut(arg, cfg, l)[i]
    ensures l != [] && Time2Second(cfg, interval, "default") == 0 ==>
              var p := SortOut(arg, cfg, l);
              |r| == |p| && r[|p| - 1] == Period(p[|p| - 1].start, ExtendTime(p[|p| - 1].end, Time2Second(cfg, time, "default"), g))
    ensures l != [] && Time2Second(cfg, interval, "default") != 0 ==>
              var p := SortOut(arg, cfg, l);
              var tps := ExtendTime(p[|p| - 1].end, Time2Second(cfg, interval, "default"), g);
              var tpe := ExtendTime(tps, Time2Second(cfg, time, "default"), g);
              r == if tps != tpe then p + [Period(tps, tpe)] else p
  {
    if l == [] then []
    else ExtendLast(SortOut(arg, cfg, l), Time2Second(cfg, time, "default"), Time2Second(cfg, interval, "default"), g)
  }

  /** At second width, extending with no interval adds exactly d to the total length. */
  lemma ExtendTotal(p: seq<Period>, d: int)
    requires p != []
    ensures TotalLen(ExtendLast(p, d, 0, 1)) == TotalLen(p) + d
  {
    var e := |p| - 1;
    var r := ExtendLast(p, d, 0, 1);
    assert r == p[..e] + [r[e]] && p == p[..e] + [p[e]];
    TotalLenConcat(p[..e], [r[e]]);
    TotalLenConcat(p[..e], [p[e]]);
  }

  /** At second width, extending with an interval appends exactly [end + iv, end + iv + d]. */
  lemma ExtendAppends(p: seq<Period>, d: int, iv: int)
    requires p != [] && iv != 0 && d != 0
    ensures ExtendLast(p, d, iv, 1) == p + [Period(p[|p| - 1].end + iv, p[|p| - 1].end + iv + d)]
  {
  }

  /**
   * Extending a canonical aligned list forward keeps it canonical, provided
   * an interval is at least one step of the granularity.
   */
  lemma ExtendCanonical(p: seq<Period>, d: int, iv: int, g: Grain)
    requires p != [] && Canonical(p) && AllAligned(p, g) && d >= 0 && (iv == 0 || iv >= g)
    ensures Canonical(ExtendLast(p, d, iv, g))
  {
    var e := |p| - 1;
    assert Aligned(p[e].end, g);
    if iv == 0 {
      ExtendCanonicalInPlace(p, d, g);
    } else {
      ExtendCanonicalAppend(p, d, iv, g);
    }
  }

  lemma ExtendCanonicalInPlace(p: seq<Period>, d: int, g: Grain)
    requires p != [] && Canonical(p) && Aligned(p[|p| - 1].end, g) && d >= 0
    ensures Canonical(ExtendLast(p, d, 0, g))
  {
    var e := |p| - 1;
    var r := ExtendLast(p, d, 0, g);
    ExtendTimeFrom(p[e].end, d, g);
    assert r == p[e := Period(p[e].start, ExtendTime(p[e].end, d, g))];
    forall i, j | 0 <= i < j < |r| ensures r[i].end < r[j].start {
      assert p[i].end < p[j].start;
    }
  }

  lemma ExtendCanonicalAppend(p: seq<Period>, d: int, iv: int, g: Grain)
    requires p != [] && Canonical(p) && Aligned(p[|p| - 1].end, g) && d >= 0 && iv >= g
    ensures Canonical(ExtendLast(p, d, iv, g))
  {
    var e := |p| - 1;
    var tps := ExtendTime(p[e].end, iv, g);
    var tpe := ExtendTime(tps, d, g);
    if tps != tpe {
      ExtendTimeFrom(p[e].end, iv, g);
      ExtendTimeFrom(tps, d, g);
      forall i | 0 <= i < |p| ensures p[i].end < tps {
        if i < e { assert p[i].end < p[e].start; }
      }
      CanonicalConcat(p, [Period(tps, tpe)]);
    }
  }

  /**
   * An interval shorter than one step of the granularity is truncated away:
   * a new period, if any, starts exactly where the last one ends, so the
   * result is no longer canonical.
   */
  lemma ExtendShortInterval(p: seq<Period>, d: int, iv: int, g: Grain)
    requires p != [] && Aligned(p[|p| - 1].end, g) && 0 < iv < g
    ensures var r := ExtendLast(p, d, iv, g);
            r == p || (|r| == |p| + 1 && r[|p|].start == p[|p| - 1].end && !Canonical(r))
  {
    var e := |p| - 1;
    ExtendTimeFrom(p[e].end, iv, g);
    var r := ExtendLast(p, d, iv, g);
    if r != p {
      assert r[e].end == r[e + 1].start;
    }
  }

  // ---------------------------------------------------------------------
  // shorten

  /**
   * shorten's backward for loop: drop whole periods from the end while the
   * amount t covers them (stopping once t is used up, or after one period
   * when not crossing periods); the period that is longer than what is left
   * keeps its start and loses t from its end.
   */
  function ShortenBack(p: seq<Period>, t: int, cross: bool, g: Grain): seq<Period>
    decreases |p|
  {
    if p == [] then []
    else
      var i := |p| - 1;
      var tTime := Len(p[i]);
      if tTime <= t then
        if t - tTime <= 0 || !cross then p[..i] else ShortenBack(p[..i], t - tTime, cross, g)
      else
        p[i := Period(p[i].start, ExtendTime(p[i].start, tTime - t, g))]
  }

  /** shorten(l, time, crossperiod, sortOut): the sorted-out list with time cut off its end. */
  function Shorten(l: seq<Period>, time: int, cross: bool, arg: SortOutArg, cfg: Config, g: Grain): (r: seq<Period>)
    ensures l == [] ==> r == []
    ensures |r| <= |SortOut(arg, cfg, l)|
    ensures forall i :: 0 <= i < |r| - 1 ==> r[i] == SortOut(arg, cfg, l)[i]
  {
    if l == [] then []
    else
      ShortenShape(SortOut(arg, cfg, l), Time2Second(cfg, time, "default"), cross, g);
      ShortenBack(SortOut(arg, cfg, l), Time2Second(cfg, time, "default"), cross, g)
  }

  /**
   * Shortening keeps every period but the last it touches, keeps that one's
   * start, and never lengthens it for a non-negative amount; without
   * crossing periods at most the last period is affected.
   */
  lemma {:induction false} ShortenShape(p: seq<Period>, t: int, cross: bool, g: Grain)
    ensures |ShortenBack(p, t, cross, g)| <= |p|
    ensures forall i :: 0 <= i < |ShortenBack(p, t, cross, g)| - 1 ==> ShortenBack(p, t, cross, g)[i] == p[i]
    ensures var r := ShortenBack(p, t, cross, g);
            r != [] ==> r[|r| - 1].start == p[|r| - 1].start && (t >= 0 ==> r[|r| - 1].end <= p[|r| - 1].end)
    ensures !cross ==> |ShortenBack(p, t, cross, g)| >= |p| - 1
    ensures !cross && p != [] ==> ShortenBack(p, t, cross, g)[..|p| - 1] == p[..|p| - 1]
    decreases |p|
  {
    if p != [] {
      var i := |p| - 1;
      var tTime := Len(p[i]);
      if tTime <= t && !(t - tTime <= 0 || !cross) {
        ShortenShape(p[..i], t - tTime, cross, g);
      }
    }
  }

  /** At second width with crossing, shortening valid periods removes exactly t (or everything). */
  lemma {:induction false} ShortenTotal(p: seq<Period>, t: int, g: Grain)
    requires g == 1 && AllValid(p) && t >= 0
    ensures TotalLen(ShortenBack(p, t, true, g)) == if TotalLen(p) <= t then 0 else TotalLen(p) - t
    decreases |p|
  {
    if p != [] {
      var i := |p| - 1;
      var q := p[..i];
      assert p == q + [p[i]];
      TotalLenConcat(q, [p[i]]);
      assert AllValid(q);
      TotalLenNonneg(q);
      var tTime := Len(p[i]);
      if tTime <= t {
        if t - tTime > 0 {
          ShortenTotal(q, t - tTime, g);
        }
      } else {
        var r := ShortenBack(p, t, true, g);
        assert r == q + [r[i]];
        TotalLenConcat(q, [r[i]]);
      }
    }
  }

  /** Without crossing, only the last period loses length: all of it, or t. */
  lemma ShortenOne(p: seq<Period>, t: int, g: Grain)
    requires g == 1 && AllValid(p) && t >= 0 && p != []
    ensures var last := p[|p| - 1];
            TotalLen(ShortenBack(p, t, false, g)) == TotalLen(p) - (if Len(last) <= t then Len(last) else t)
  {
    var i := |p| - 1;
    var q := p[..i];
    var r := ShortenBack(p, t, false, g);
    assert p == q + [p[i]];
    TotalLenConcat(q, [p[i]]);
    if Len(p[i]) > t {
      assert r == q + [r[i]];
      TotalLenConcat(q, [r[i]]);
    }
  }

  /**
   * When the last period is longer than t it keeps its start and its end is
   * re-rendered from start + (length - t): if less than one step of the
   * granularity is left the period becomes empty (start equals end), and
   * otherwise it stays valid.
   */
  lemma ShortenPartial(p: seq<Period>, t: int, cross: bool, g: Grain)
    requires p != [] && Aligned(p[|p| - 1].start, g) && 0 <= t < Len(p[|p| - 1])
    ensures var i := |p| - 1;
            ShortenBack(p, t, cross, g) == p[i := Period(p[i].start, ExtendTime(p[i].start, Len(p[i]) - t, g))]
    ensures var i := |p| - 1; var r := ShortenBack(p, t, cross, g);
            (Len(p[i]) - t < g ==> r[i].start == r[i].end) && (Len(p[i]) - t >= g ==> ValidPeriod(r[i]))
  {
    var i := |p| - 1;
    ExtendTimeFrom(p[i].start, Len(p[i]) - t, g);
  }

  /** t rounded up to the granularity: the one aligned instant in [t, t + g). */
  function RoundUp(t: int, g: Grain): (r: int)
    ensures Aligned(r, g) && t <= r < t + g
  {
    if Aligned(t, g) then t
    else
      var x := ExtendTime(t, 0, g);
      ModShift(g, x, g);
      x + g
  }

  /** Two aligned instants less than one granularity apart are equal. */
  lemma AlignedUnique(a: int, b: int, t: int, g: Grain)
    requires Aligned(a, g) && Aligned(b, g) && t <= a < t + g && t <= b < t + g
    ensures a == b
  {
    AlignedGap(a, b, g);
    AlignedGap(b, a, g);
  }

  /**
   * At any granularity, with crossing, shortening aligned valid periods by
   * t removes t rounded up to the granularity (the partial period's end is
   * re-rendered at the width of its start), or everything when that is more
   * than the list holds.
   */
  lemma {:induction false} ShortenRoundsUp(p: seq<Period>, t: int, g: Grain)
    requires AllValid(p) && AllAligned(p, g) && t >= 0
    ensures TotalLen(p) - TotalLen(ShortenBack(p, t, true, g)) ==
              if TotalLen(p) <= RoundUp(t, g) then TotalLen(p) else RoundUp(t, g)
    decreases |p|, 1
  {
    if p != [] {
      if Len(p[|p| - 1]) <= t {
        ShortenRoundsUpDrop(p, t, g);
      } else {
        ShortenRoundsUpPartial(p, t, g);
      }
    }
  }

  /** Splitting off the last period of an aligned valid list. */
  lemma ShortenSplitLast(p: seq<Period>, g: Grain)
    requires p != [] && AllValid(p) && AllAligned(p, g)
    ensures var q := p[..|p| - 1];
            && AllValid(q) && AllAligned(q, g) && TotalLen(q) >= 0
            && TotalLen(p) == TotalLen(q) + Len(p[|p| - 1])
            && Aligned(Len(p[|p| - 1]), g) && Len(p[|p| - 1]) > 0
  {
    var i := |p| - 1;
    var q := p[..i];
    assert p == q + [p[i]];
    TotalLenConcat(q, [p[i]]);
    assert AllValid(q) && AllAligned(q, g) by {
      forall j | 0 <= j < |q| ensures q[j] == p[j] { }
    }
    TotalLenNonneg(q);
    ModShift(p[i].start, p[i].end, g);
  }

  /** The last period is dropped whole, and the rest of t goes on to the others. */
  lemma {:induction false} ShortenRoundsUpDrop(p: seq<Period>, t: int, g: Grain)
    requires AllValid(p) && AllAligned(p, g) && t >= 0
    requires p != [] && Len(p[|p| - 1]) <= t
    ensures TotalLen(p) - TotalLen(ShortenBack(p, t, true, g)) ==
              if TotalLen(p) <= RoundUp(t, g) then TotalLen(p) else RoundUp(t, g)
    decreases |p|, 0
  {
    ShortenSplitLast(p, g);
    var q := p[..|p| - 1];
    var tTime := Len(p[|p| - 1]);
    if t - tTime > 0 {
      assert ShortenBack(p, t, true, g) == ShortenBack(q, t - tTime, true, g);
      assert RoundUp(t - tTime, g) == RoundUp(t, g) - tTime by {
        ModShift(tTime, RoundUp(t, g), g);
        AlignedUnique(RoundUp(t - tTime, g), RoundUp(t, g) - tTime, t - tTime, g);
      }
      ShortenRoundsUp(q, t - tTime, g);
    }
  }

  /** The last period is longer than t: its end is re-rendered t (rounded up) earlier. */
  lemma ShortenRoundsUpPartial(p: seq<Period>, t: int, g: Grain)
    requires AllValid(p) && AllAligned(p, g) && t >= 0
    requires p != [] && Len(p[|p| - 1]) > t
    ensures TotalLen(p) - TotalLen(ShortenBack(p, t, true, g)) ==
              if TotalLen(p) <= RoundUp(t, g) then TotalLen(p) else RoundUp(t, g)
  {
    var r := RoundUp(t, g);
    assert TotalLen(p) - TotalLen(ShortenBack(p, t, true, g)) == r <= TotalLen(p) by {
      var i := |p| - 1;
      ShortenSplitLast(p, g);
      ShortenBackPartial(p, t, g);
      PeriodEndRoundsUp(p[i].start, p[i].end, t, g);
    }
  }

  /** When the last period outlasts t, shortening only moves that period's end. */
  lemma ShortenBackPartial(p: seq<Period>, t: int, g: Grain)
    requires p != [] && Len(p[|p| - 1]) > t
    ensures TotalLen(ShortenBack(p, t, true, g)) ==
              TotalLen(p[..|p| - 1]) + ExtendTime(p[|p| - 1].start, Len(p[|p| - 1]) - t, g) - p[|p| - 1].start
  {
    var i := |p| - 1;
    var last := Period(p[i].start, ExtendTime(p[i].start, Len(p[i]) - t, g));
    assert ShortenBack(p, t, true, g) == p[..i] + [last];
    TotalLenConcat(p[..i], [last]);
  }

  /** Re-rendering the end of one aligned period t seconds earlier takes off t rounded up. */
  lemma PeriodEndRoundsUp(s: int, e: int, t: int, g: Grain)
    requires Aligned(s, g) && Aligned(e, g) && 0 <= t < e - s
    ensures e - ExtendTime(s, e - s - t, g) == RoundUp(t, g) <= e - s
  {
    var ne := ExtendTime(s, e - s - t, g);
    ModShift(ne, e, g);
    ModShift(s, e, g);
    AlignedUnique(e - ne, RoundUp(t, g), t, g);
    AlignedGap(e - s, RoundUp(t, g), g);
  }

  /** Extending the last period by d >= 0 seconds and shortening by d again gives back a valid list. */
  lemma ExtendShortenBack(p: seq<Period>, d: int, cross: bool)
    requires AllValid(p) && p != [] && d >= 0
    ensures ShortenBack(ExtendLast(p, d, 0, 1), d, cross, 1) == p
  {
    var i := |p| - 1;
    var x := ExtendLast(p, d, 0, 1);
    assert x == p[i := Period(p[i].start, p[i].end + d)];
    assert ValidPeriod(p[i]);
    assert ExtendTime(p[i].start, Len(x[i]) - d, 1) == p[i].end;
    assert ShortenBack(x, d, cross, 1) == x[i := Period(p[i].start, p[i].end)];
  }

  /** On a canonical list at second width, shorten undoes extend without an interval. */
  lemma ExtendShortenRoundTrip(l: seq<Period>, time: int, cross: bool, arg: SortOutArg, cfg: Config)
    requires Canonical(l) && l != [] && Time2Second(cfg, time, "default") >= 0
    ensures Shorten(Extend(l, time, 0, arg, cfg, 1), time, cross, arg, cfg, 1) == l
  {
    var d := Time2Second(cfg, time, "default");
    UnionOfCanonical(l);
    FlattenSingle(l);
    assert SortOut(arg, cfg, l) == l;
    assert Time2Second(cfg, 0, "default") == 0;
    var x := ExtendLast(l, d, 0, 1);
    assert Extend(l, time, 0, arg, cfg, 1) == x;
    ExtendCanonical(l, d, 0, 1);
    UnionOfCanonical(x);
    FlattenSingle(x);
    assert SortOut(arg, cfg, x) == x;
    ExtendShortenBack(l, d, cross);
  }

  /** shorten's backward for loop, unsetting whole periods from the end. */
  method ComputeShorten(l: seq<Period>, time: int, cross: bool, arg: SortOutArg, cfg: Config, g: Grain) returns (tps: seq<Period>)
    ensures tps == Shorten(l, time, cross, arg, cfg, g)
  {
    if l == [] {
      return [];
    }
    tps := ShortenLoop(SortOut(arg, cfg, l), Time2Second(cfg, time, "default"), cross, g);
  }

  /** shorten's loop from the last period backwards, unsetting or shortening in place. */
  method ShortenLoop(p: seq<Period>, t0: int, cross: bool, g: Grain) returns (tps: seq<Period>)
    ensures tps == ShortenBack(p, t0, cross, g)
  {
    tps := p;
    var t := t0;
    var i := |tps| - 1;
    while i >= 0
      invariant i == |tps| - 1
      invariant ShortenBack(tps, t, cross, g) == ShortenBack(p, t0, cross, g)
    {
      var tTime := Len(tps[i]);
      if tTime <= t {
        // not enough: unset this period
        tps := tps[..i];
        t := t - tTime;
      } else {
        // enough: shorten its end
        tps := tps[i := Period(tps[i].start, ExtendTime(tps[i].start, tTime - t, g))];
        return;
      }
      if t <= 0 || !cross {
        return;
      }
      i := i - 1;
    }
  }
}
