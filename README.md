# TimePeriodHelper in Dafny

A model of the core of TimePeriodHelper, a PHP helper for lists of time
periods. A time period is a pair `[start, end]` of datetime strings. A list
of them can be sorted, merged (union), subtracted (diff), intersected,
tested for overlap, filtered against a reference time (contact,
greaterThan, lessThan), measured (time), and trimmed or grown to a length
(cut, extend, shorten). The helper also renders the ends of the periods in
a unit (format), validates raw input (validate) and filters it (filter). A
process-wide option record holds the calculation unit, the format unit,
datetime filtering and automatic sort-out.

The repository carries the operations twice. `src/TimePeriodHelper.php` is
one self-contained facade class. `src/classes/` splits the same operations
into `Base`, `LogicalProcess` and `DataProcess`. Where the two copies
behave alike, they share one model, and the table cites the split class.
Some copies are written differently but behave the same: cut, getUnit,
timeFormatConv and time2Second (see "Where the two copies differ"). The
facade's isOverlap, contact, validate and filter have models of their own.
Each of those has a lemma relating it to the split class.

How times are represented:

- The algebra works on instants as integer seconds since the epoch.
- A period is the half-open interval `Period(start, end)`.
- A list is *canonical* when every period is non-empty and each period ends
  strictly before the next one starts. When every period is valid
  (start < end), this is the shape `union` produces, and the shape every
  operation's "sort out" step (`dataSortOut`) produces when that step is
  switched on. Zero-length and inverted pairs pass through `union` as they
  are.
- The width of a datetime string is 10, 13, 16 or 19 characters. Its
  granularity (`Grain`) is the number of seconds one step of the last field
  stands for: 86400, 3600, 60 or 1. `extendTime` renders `t + n` back at the
  width of `t`, which rounds down to a multiple of that grain
  (`Base.ExtendTime`).
- The string operations (isDatetime, timeFormatConv, format, validate,
  filter) work on `seq<char>`.

Files:

- `periods.dfy`: periods, coverage, canonical lists and total length.
- `base.dfy`: `Base`, the option record as class `Options`, the unit table,
  isDatetime, timeFormatConv, extendTime and time2Second.
- `canonical.dfy`: `Canonicalizer`, the sort, the union sweep and
  dataSortOut.
- `setalgebra.dfy`: `SetAlgebra`, diff, intersect and isOverlap, including
  the patterns `unset` removes along the way.
- `selection.dfy`: `Selection`, contact, greaterThan and lessThan.
- `data.dfy`: `DataProcess`, fill, gap, time, cut, extend and shorten.
- `formatting.dfy`: `Formatting`, format, validate and filter.
- `facade.dfy`: `Facade`, the facade's own isOverlap and contact.

The algebra is stated in terms of points. For example, diff covers exactly
the points of the first list that the second does not cover. The loops of
the source are methods proved equal to the functions that specify them.

## Model

| member | source | states |
|---|---|---|
| Base.Seconds | src/classes/Base.php:224-238 | one hour is 3600 seconds, one minute 60, one second 1; only the second unit is 1 |
| Base.UnitAlias | src/classes/Base.php:24-35 | the ten accepted unit spellings, each mapped to its unit; every other name is unknown |
| Base.ResolveSortOut | src/classes/LogicalProcess.php:344-354 | the 'default' sort-out argument means the configured flag; an explicit flag wins |
| Base.GetUnit | src/classes/Base.php:94-101 | an error exactly when the target is not 'time' or 'format'; otherwise the configured unit of that target (a known unit name given directly resolves to itself) |
| Base.Options.constructor | src/classes/Base.php:17-41 | the option record starts at second/second, datetime filtering on, sort-out on |
| Base.Options.SetUnit | src/classes/Base.php:61-84 | an unknown unit is an 'Error Unit' and a bad target an 'Error Target', each leaving the options unchanged; 'all' sets both units, 'time' or 'format' sets only that one |
| Base.Options.SetSortOut | src/classes/Base.php:140-145 | only the sort-out flag changes, to the given value |
| Base.Options.SetFilterDatetime | src/classes/Base.php:114-119 | only the datetime-filter flag changes, to the given value |
| Base.Options.GetSortOut | src/classes/Base.php:152-155 | returns the stored sort-out flag |
| Base.Options.GetFilterDatetime | src/classes/Base.php:126-129 | returns the stored datetime-filter flag |
| Base.Time2Second | src/classes/Base.php:224-238 | the amount times the seconds of the named unit, or of the configured time unit when the name is not a unit |
| Base.Granularity | src/classes/Base.php:211-215 | a 19-character datetime has one-second granularity and the shorter widths coarser ones |
| Base.ExtendTime | src/classes/Base.php:211-215 | the result lies on the grain of the original string and is the last such instant at or before t + n |
| Base.ExtendTimeZero | src/classes/Base.php:211-215 | extending an aligned time by zero gives it back |
| Base.ExtendTimeExact | src/classes/Base.php:211-215 | when t + n lies on the grain, extendTime adds exactly n |
| Base.SubstrFrom | src/classes/Base.php:187-202 | PHP substr with one offset: a non-negative offset drops a prefix, a negative one keeps that many trailing characters (the whole string when it is longer), past the end gives empty |
| Base.SubstrReplace | src/classes/Base.php:187-202 | substr_replace: the prefix before start and the tail after start + len are kept, and the replacement sits between them |
| Base.IsDatetime | src/classes/Base.php:172-175 | true only for 'YYYY-MM-DD HH:ii:ss' (digits in every digit place, the separators in place), and for exactly those 19-character strings; a 20-character string is accepted exactly when it is such a datetime followed by a newline |
| Base.PadDatetime | src/classes/Base.php:187-202 | a 10 to 19 character datetime keeps its characters and is completed from '0000-00-00 00:00:00' to 19 characters |
| Base.TimeFormatConv | src/classes/Base.php:187-202 | a 10 to 19 character datetime becomes 19 characters: padded as is for seconds, with ':00' seconds for minutes, with ':00:00' for hours |
| Base.TimeFormatConvIdempotent | src/classes/Base.php:187-202 | converting a converted datetime again changes nothing |
| Base.TimeFormatConvSecondGrain | src/classes/Base.php:187-202 | a converted datetime is 19 characters wide, so it is exact to the second |
| Canonicalizer.Insert | src/classes/DataProcess.php:32-48 | inserting into a sorted list keeps it sorted and adds exactly one element |
| Canonicalizer.Sort | src/classes/DataProcess.php:32-48 | the result is ordered by start and then by end, and is a permutation of the input |
| Canonicalizer.SortedUnique | src/classes/DataProcess.php:32-48 | two sorted permutations of the same multiset are equal, so the sort's result does not depend on how ties are broken |
| Canonicalizer.SortSorted | src/classes/DataProcess.php:32-48 | sorting a sorted list leaves it unchanged |
| Canonicalizer.SortCovers | src/classes/DataProcess.php:32-48 | sorting changes no point's coverage |
| Canonicalizer.SweepCovers | src/classes/LogicalProcess.php:44-57 | the merge sweep covers exactly the points of the held period and the rest of the list |
| Canonicalizer.SweepCanonical | src/classes/LogicalProcess.php:44-57 | over sorted valid periods the sweep produces a canonical list starting no earlier than the held period |
| Canonicalizer.SweepCanonicalIdentity | src/classes/LogicalProcess.php:44-57 | sweeping a canonical list leaves it unchanged |
| Canonicalizer.UnionOf | src/classes/LogicalProcess.php:32-58 | union covers exactly the points its arguments cover, is empty exactly when they all are, and is canonical when every period is valid |
| Canonicalizer.UnionIdempotent | src/classes/LogicalProcess.php:32-58 | the union of a union is that union |
| Canonicalizer.UnionOfCanonical | src/classes/LogicalProcess.php:32-58 | a canonical list is its own union |
| Canonicalizer.UnionCommutes | src/classes/LogicalProcess.php:32-58 | the order of two arguments does not matter |
| Canonicalizer.Union | src/classes/LogicalProcess.php:32-58 | the foreach over the sorted merge produces the union |
| Canonicalizer.SweepLoop | src/classes/LogicalProcess.php:44-57 | the foreach with its held period computes the sweep |
| Canonicalizer.DataSortOut | src/classes/LogicalProcess.php:344-354 | when sort-out is off both lists are returned untouched; when on, each list of valid periods becomes canonical; coverage never changes and a missing second list stays missing |
| Canonicalizer.SortOut | src/classes/LogicalProcess.php:344-354 | the one-list case: untouched when off, canonical when on and valid, same coverage, empty exactly when the input is |
| SetAlgebra.DropBeforeCovers | src/classes/LogicalProcess.php:86-89 | the patterns that unset drops, those ending by the current start, cover no point still to be examined |
| SetAlgebra.SortOutPrepared | src/classes/LogicalProcess.php:72-83 | a list that is sorted out with valid periods, or already canonical, is canonical after sort-out |
| SetAlgebra.Diff | src/classes/LogicalProcess.php:72-120 | with an empty side the first list comes back; otherwise, on prepared input, the result is canonical and covers exactly the points of the first list not covered by the second |
| SetAlgebra.DiffSweepCorrect | src/classes/LogicalProcess.php:84-117 | the nested loops with unset compute the point difference, canonical and inside the first list's span |
| SetAlgebra.ComputeDiff | src/classes/LogicalProcess.php:72-120 | the imperative diff returns what Diff specifies |
| SetAlgebra.DiffLoop | src/classes/LogicalProcess.php:84-117 | the outer foreach over the subjects computes the sweep |
| SetAlgebra.DiffSubject | src/classes/LogicalProcess.php:85-111 | the inner foreach returns the emitted pieces, the remainder of the subject and the patterns unset leaves |
| SetAlgebra.Intersect | src/classes/LogicalProcess.php:133-177 | empty when either side is empty; otherwise, on prepared input, canonical and covering exactly the points both lists cover |
| SetAlgebra.IntersectSweepCorrect | src/classes/LogicalProcess.php:144-174 | the nested loops with unset compute the point intersection, canonical and inside the first list's span |
| SetAlgebra.ComputeIntersect | src/classes/LogicalProcess.php:133-177 | the imperative intersect returns what Intersect specifies |
| SetAlgebra.IntersectLoop | src/classes/LogicalProcess.php:144-174 | the outer foreach over the subjects computes the sweep |
| SetAlgebra.IntersectSubject | src/classes/LogicalProcess.php:145-171 | the inner foreach returns the overlapping pieces and the patterns unset leaves |
| SetAlgebra.IntersectSelf | src/classes/LogicalProcess.php:133-177 | a canonical list intersected with itself is itself |
| SetAlgebra.DiffSelf | src/classes/LogicalProcess.php:72-120 | a canonical list minus itself is empty |
| SetAlgebra.DiffIntersectPartition | src/classes/LogicalProcess.php:72-177 | diff and intersect share no point, and their union is the first list |
| SetAlgebra.DiffIntersectLen | src/classes/LogicalProcess.php:72-177 | the total lengths of diff and intersect add up to the total length of the first list |
| SetAlgebra.IsOverlap | src/classes/LogicalProcess.php:190-216 | false when either list is empty; for a start-sorted first list, true exactly when some period of one overlaps some period of the other |
| SetAlgebra.OverlapSweepCorrect | src/classes/LogicalProcess.php:197-213 | the nested loops with unset find an overlapping pair exactly when one exists |
| SetAlgebra.IntersectMeets | src/classes/LogicalProcess.php:133-177 | a non-empty intersection comes from an overlapping pair |
| SetAlgebra.OverlapMeets | src/classes/LogicalProcess.php:133-177 | an overlapping pair makes the intersection non-empty |
| SetAlgebra.IsOverlapIntersect | src/classes/LogicalProcess.php:190-216 | on canonical lists isOverlap is true exactly when intersect is non-empty |
| SetAlgebra.ComputeIsOverlap | src/classes/LogicalProcess.php:190-216 | the imperative isOverlap returns what IsOverlap specifies |
| SetAlgebra.OverlapSubject | src/classes/LogicalProcess.php:198-211 | the inner foreach returns whether the subject overlaps a pattern and the patterns unset leaves |
| Selection.Select | src/classes/LogicalProcess.php:242-249 | array_filter keeps exactly the elements that pass the test, in their input order (a subsequence of the input) |
| Selection.SelectTwice | src/classes/LogicalProcess.php:242-249 | two successive filters are one filter on both tests |
| Selection.Contact | src/classes/LogicalProcess.php:227-252 | the periods of the sorted-out list that contain the reference instant, or overlap the reference range once its ends are put in order; they are exactly the ordered selection of that list by the touch test, so they keep its order and multiplicity |
| Selection.GreaterThan | src/classes/LogicalProcess.php:263-290 | empty for empty input; otherwise the periods of the sorted-out list that pass the greater-than test, in their order (an order-preserving subsequence) |
| Selection.GreaterThanMeaning | src/classes/LogicalProcess.php:263-290 | intact: kept exactly when every point is at or after the reference; partial: kept exactly when some point is |
| Selection.LessThan | src/classes/LogicalProcess.php:301-328 | empty for empty input; otherwise the periods of the sorted-out list that pass the less-than test, in their order (an order-preserving subsequence) |
| Selection.LessThanMeaning | src/classes/LogicalProcess.php:301-328 | intact: kept exactly when every point is before the reference; partial: kept exactly when some point is |
| Selection.GreaterLessSplit | src/classes/LogicalProcess.php:263-328 | intact-greater and partial-less split every period between them, and so do partial-greater and intact-less |
| Selection.IntactIsPartial | src/classes/LogicalProcess.php:263-328 | on valid periods an intact match is also a partial match |
| Selection.ComputeGreaterThan | src/classes/LogicalProcess.php:263-290 | the imperative greaterThan returns what GreaterThan specifies |
| Selection.GreaterThanLoop | src/classes/LogicalProcess.php:275-287 | the foreach keeps the periods passing the greater-than test, in order |
| Selection.ComputeLessThan | src/classes/LogicalProcess.php:301-328 | the imperative lessThan returns what LessThan specifies |
| Selection.LessThanLoop | src/classes/LogicalProcess.php:313-325 | the foreach keeps the periods passing the less-than test, in order |
| DataProcess.TotalLenNonneg | src/classes/DataProcess.php:118-153 | the total length of valid periods is never negative, and positive when the list is not empty |
| DataProcess.Fill | src/classes/DataProcess.php:58-74 | one period from the earliest start to the latest end: it contains every input period and covers every point they cover; empty input stays empty |
| DataProcess.Gaps | src/classes/DataProcess.php:94-101 | one gap per pair of neighbours: gap k runs from the end of period k to the start of period k + 1 |
| DataProcess.Gap | src/classes/DataProcess.php:85-103 | on prepared input, canonical and covering exactly the points of the list's span that the list does not cover |
| DataProcess.GapsCanonical | src/classes/DataProcess.php:94-101 | the gaps of a canonical list are canonical and start after its first period |
| DataProcess.GapsCovers | src/classes/DataProcess.php:94-101 | a point is in a gap exactly when it lies in the span and outside the list |
| DataProcess.GapsFill | src/classes/DataProcess.php:58-103 | the union of a canonical list with its gaps is the single period fill returns |
| DataProcess.ComputeGap | src/classes/DataProcess.php:85-103 | the imperative gap returns what Gap specifies |
| DataProcess.GapLoop | src/classes/DataProcess.php:94-101 | the foreach computes the gaps between neighbours |
| DataProcess.TruncDiv | src/classes/DataProcess.php:133-150 | division by the unit truncated toward zero, as the (int) cast does |
| DataProcess.Time | src/classes/DataProcess.php:118-153 | zero for empty input; otherwise the total length of the sorted-out list in the configured unit, truncated toward zero |
| DataProcess.Cut | src/classes/DataProcess.php:167-203 | empty for empty input; the result never lasts longer than the requested time (how long it lasts: `DataProcess.CutExact`, `DataProcess.CutRoundsDown`) |
| DataProcess.CutWithinBudget | src/classes/DataProcess.php:181-200 | the kept length never exceeds the budget |
| DataProcess.CutExact | src/classes/DataProcess.php:181-200 | at one-second granularity and with enough material, the result lasts exactly the budget |
| DataProcess.CutRoundsDown | src/classes/DataProcess.php:181-200 | at any granularity, with aligned periods and enough material, the result lasts the budget rounded down to the granularity |
| DataProcess.CutWhole | src/classes/DataProcess.php:181-200 | a list no longer than the budget comes back whole |
| DataProcess.CutPrefix | src/classes/DataProcess.php:181-200 | the result is a prefix of the list whose last period may be shortened at its end |
| DataProcess.CutValid | src/classes/DataProcess.php:181-200 | aligned valid periods stay valid: a cut that would be empty is dropped |
| DataProcess.CutCanonical | src/classes/DataProcess.php:181-200 | cutting a canonical aligned list keeps it canonical |
| DataProcess.ComputeCut | src/classes/DataProcess.php:167-203 | the imperative cut returns what Cut specifies |
| DataProcess.CutLoop | src/classes/DataProcess.php:181-200 | the foreach with its running length computes the cut |
| DataProcess.ExtendTimeFrom | src/classes/Base.php:211-215 | extending an aligned time by less than one grain leaves it alone, by at least one grain moves it forward |
| DataProcess.ExtendLast | src/classes/DataProcess.php:236-246 | all periods but the last are unchanged; with no interval the last end becomes extendTime(end, d); otherwise [tps, tpe] with tps = extendTime(end, interval) and tpe = extendTime(tps, d) is appended exactly when tps != tpe |
| DataProcess.Extend | src/classes/DataProcess.php:219-249 | empty for empty input; the sorted-out list keeps all but its last period; with no interval its last end becomes extendTime(end, time), otherwise the period [tps, tpe] is appended unless it is empty |
| DataProcess.ExtendTotal | src/classes/DataProcess.php:219-249 | at one-second granularity, extending in place adds exactly the requested time |
| DataProcess.ExtendAppends | src/classes/DataProcess.php:219-249 | at one-second granularity, with an interval, the new period starts that interval after the last end and lasts exactly the requested time |
| DataProcess.ExtendCanonical | src/classes/DataProcess.php:219-249 | a canonical aligned list stays canonical when the interval is zero or at least one grain |
| DataProcess.ExtendShortInterval | src/classes/DataProcess.php:219-249 | an interval shorter than one grain either changes nothing or appends a period that touches the last one, which is not canonical |
| DataProcess.Shorten | src/classes/DataProcess.php:265-303 | empty for empty input; no longer than the sorted-out list, and equal to it except possibly at the end (how much it removes: `DataProcess.ShortenTotal`, `DataProcess.ShortenRoundsUp`) |
| DataProcess.ShortenShape | src/classes/DataProcess.php:276-300 | shortening removes periods from the back and may pull in the end of the last one kept; without crossperiod at most one period is touched |
| DataProcess.ShortenTotal | src/classes/DataProcess.php:276-300 | at one-second granularity with crossperiod, the total length drops by the requested time, or to zero |
| DataProcess.ShortenRoundsUp | src/classes/DataProcess.php:276-300 | at any granularity, with aligned periods and crossperiod, the total length drops by the requested time rounded up to the granularity, or to zero |
| DataProcess.PeriodEndRoundsUp | src/classes/DataProcess.php:287-290 | re-rendering an aligned period's end with extendTime(start, tTime - time) takes off the time rounded up to the granularity, and no more than the period's length |
| DataProcess.ShortenOne | src/classes/DataProcess.php:276-300 | without crossperiod only the last period loses time, at most its own length |
| DataProcess.ShortenPartial | src/classes/DataProcess.php:290-293 | a partial shorten replaces the last end by extendTime of its start, which is an empty period when less than one grain remains |
| DataProcess.ExtendShortenBack | src/classes/DataProcess.php:219-303 | at one-second granularity, shortening by the time just added in place gives the original list back |
| DataProcess.ExtendShortenRoundTrip | src/classes/DataProcess.php:219-303 | for a canonical list at one-second granularity, shorten(extend(l, time), time) == l |
| DataProcess.ComputeShorten | src/classes/DataProcess.php:265-303 | the imperative shorten returns what Shorten specifies |
| DataProcess.ShortenLoop | src/classes/DataProcess.php:276-300 | the backward for loop computes the shortened list |
| Formatting.StrLessIrreflexive | src/classes/DataProcess.php:343-344 | the string comparison of validate rejects a period whose ends are equal |
| Formatting.ConvPeriodIdempotent | src/classes/DataProcess.php:312-320 | a converted period has 19-character ends, and converting it again changes nothing |
| Formatting.Format | src/classes/DataProcess.php:312-320 | each period's ends are converted with timeFormatConv, in order; a 10 to 19 character input becomes full width and stays put on a second format |
| Formatting.FormatPads | src/classes/DataProcess.php:312-320 | the converted list is full width and a fixed point of format |
| Formatting.AllAccepted | src/classes/DataProcess.php:331-351 | array_walk throws for no element exactly when every element is accepted |
| Formatting.Validate | src/classes/DataProcess.php:331-351 | true exactly when the input is a list of pairs, each start before its end and, with datetime filtering on, both ends datetimes; otherwise 'Time periods format error' |
| Formatting.ValidateLoop | src/TimePeriodHelper.php:698-721 | the facade's foreach gives the same answer as validate |
| Formatting.AcceptedPairs | src/classes/DataProcess.php:363-393 | the accepted pairs, and only those, no more of them than there were inputs (their order: `Formatting.AcceptedPairsConcat`) |
| Formatting.AcceptedPairsConcat | src/classes/DataProcess.php:363-393 | filtering works element by element in input order: the pairs kept from a + b are those kept from a followed by those kept from b |
| Formatting.AcceptedPairsAll | src/classes/DataProcess.php:363-393 | nothing is dropped exactly when every element is accepted |
| Formatting.CarryAll | src/classes/DataProcess.php:385-390 | each period of the list gets the hour-24 carry, and only that |
| Formatting.Filter | src/classes/DataProcess.php:363-393 | a non-list gives an empty list; otherwise the accepted pairs, in order, with hour-24 ends carried to the next day |
| Formatting.FilterValidate | src/classes/DataProcess.php:331-393 | filter keeps every element exactly when validate accepts the input; without hour-24 ends filter changes nothing it keeps |
| Formatting.FilterCarriesDatetimes | src/classes/DataProcess.php:363-393 | with datetime filtering on, every kept end is a datetime, so the hour-24 test reads real hour digits |
| Formatting.FacadeFilter | src/TimePeriodHelper.php:733-770 | the facade's foreach keeps the accepted pairs in order, carrying the ends only when the start has 13 or more characters; with datetime filtering on it agrees with filter |
| Formatting.FacadeFilterOne | src/TimePeriodHelper.php:740-766 | one element is kept exactly when it is accepted, and is then carried by the facade's rule |
| Formatting.FacadeCarryAgrees | src/TimePeriodHelper.php:733-770 | on pairs accepted with datetime filtering on, the two carry rules agree |
| Formatting.FacadeCarryDiffers | src/TimePeriodHelper.php:733-770 | with a short start and an hour-24 end, the facade leaves the end alone while the split class carries it |
| Facade.FacadeIsOverlap | src/TimePeriodHelper.php:258-294 | false when either list is empty |
| Facade.SixCaseOverlapPassAgrees | src/TimePeriodHelper.php:266-290 | the six-case inner foreach is the split class's inner foreach |
| Facade.FacadeIsOverlapAgrees | src/TimePeriodHelper.php:258-294 | both copies of isOverlap give the same answer on every input; for a start-sorted first list, the facade finds an overlapping pair exactly when one exists |
| Facade.RefRange | src/TimePeriodHelper.php:313-316 | a missing end means the start; the two ends are put in order |
| Facade.FacadeContact | src/TimePeriodHelper.php:305-337 | the facade's foreach keeps the sorted-out periods that pass its touch test, in order |
| Facade.ContactLoop | src/TimePeriodHelper.php:318-334 | the foreach keeps exactly the periods passing the touch test |
| Facade.FacadeContactAgrees | src/TimePeriodHelper.php:305-337 | on valid periods the facade's contact equals the split class's contact |
| Facade.FacadeContactEmptyPeriod | src/TimePeriodHelper.php:321-334 | a zero-length period at the reference instant is kept by the facade and dropped by the split class |

## Where the two copies differ

- contact: the facade keeps a zero-length period that starts at the
  reference instant; the split class drops it (`Facade.FacadeContactEmptyPeriod`).
  On valid periods the two agree (`Facade.FacadeContactAgrees`).
- filter: the facade carries hour 24 only when the start has at least 13
  characters. The split class carries both ends whenever each has hour 24.
  With datetime filtering on the two agree (`Formatting.FacadeCarryAgrees`).
  With filtering off they can differ (`Formatting.FacadeCarryDiffers`).
- cut: the facade (src/TimePeriodHelper.php:555-566) computes
  `$lastTime = $time - $timeLen` in an `else` branch and cuts when it is
  positive. The split class (src/classes/DataProcess.php:186-200) tests
  `$timeLen < $time` in an `elseif`. The conditions are the same, so both
  copies share `DataProcess.Cut`.
- getUnit: the facade's getUnit takes only the target. Its timeFormatConv and
  time2Second look the unit alias up inline. The split class passes the unit
  to `getUnit`, which does the same lookup. The results agree, and
  `Base.GetUnit` models both.

## Left out

- strtotime and date: the calendar, time zones and leap seconds are not modelled. Instants are integer seconds, and `Base.ExtendTime` truncates `t + n` to the grain of the string's width, as rendering through date() at that width does in UTC.
- The string-to-instant conversion between the string operations and the algebra is not modelled. The algebra takes instants; isDatetime, timeFormatConv, format, validate and filter take strings.
- time() with precision > 0: the result is a float rounded to decimals, and floating point is not modelled. Only the integer (precision 0) path is.
- Non-numeric or fractional durations given to cut, extend, shorten and time2Second: durations are integers.
- The `?:` defaults of the source (`$eDateTime ?: $sDateTime` and the like) are modelled for a missing value only. PHP's other falsy values (0, '0', '') are not.
- PHP array keys: unset leaves holes in the keys. The model rebuilds the list, which has the same elements in the same order.
- String comparison in validate (`Formatting.StrLess`) is byte order. PHP compares two numeric strings as numbers, which is not modelled.
- Mixed widths: each list has one granularity `g`. The source allows the ends of one list to have different widths.
- The hour-24 carry of filter (`extendTime($tp[x], 0)`) is a parameter `carry`. Its result depends on strtotime's calendar.
- The option record is shared by all calls in one PHP process. Concurrency is not modelled; each operation reads a `Config` snapshot.
- Sort: usort is not stable. The model sorts by (start, end), and `Canonicalizer.SortedUnique` shows that ties cannot change the result.
- Raw input to validate and filter is a list of `RawPeriod` (a pair of strings or something else) or not a list. Nested values and arrays with more than two elements are not distinguished further.
- Exceptions are modelled as the `Err` case of a `Result`.
- DataProcess.CutExact: stated at one-second granularity only. At a coarser grain the last piece is rounded down, so the result can be shorter than the budget; `DataProcess.CutRoundsDown` states that case.
- DataProcess.ExtendTotal: stated at one-second granularity only, for the same rounding reason.
- DataProcess.ShortenTotal: stated at one-second granularity only, for the same rounding reason; `DataProcess.ShortenRoundsUp` states the general grain.
- DataProcess.ShortenOne: stated at one-second granularity only, for the same rounding reason.
- DataProcess.ExtendShortenRoundTrip: stated at one-second granularity and for an in-place extend (interval 0) only.
- Facade.FacadeIsOverlap: its own contract says only the empty case. Its meaning is stated through `Facade.FacadeIsOverlapAgrees`.
- The remaining facade operations behave as the split classes do and share their models. These are sort, union, diff, intersect, greaterThan, lessThan, fill, gap, time, cut, extend, shorten, format and the option functions. Where their text differs, the section "Where the two copies differ" names it.
- DataProcess.ExtendAppends: stated at one-second granularity only. The general grain is stated by `DataProcess.ExtendLast` through `Base.ExtendTime`.
- DataProcess.ExtendShortenBack: stated at one-second granularity only. At a coarser grain extendTime rounds, so the round trip need not hold.
