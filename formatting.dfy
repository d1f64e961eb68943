/**
 * The string-level list operations of the helper: format, validate and
 * filter. Here a period is a pair of datetime strings, and an input list
 * may hold elements that are not pairs at all.
 */
module Formatting {
  import opened Base

  /** A period as the caller writes it: two datetime strings. */
  datatype StrPeriod = StrPeriod(start: string, end: string)

  /** One element of an input list: a two-element array, an array of another size, or not an array. */
  datatype RawPeriod = Pair(tp: StrPeriod) | WrongArity | NotArray

  /** The whole input: a list of elements, or a value that is not an array. */
  datatype RawInput = Items(items: seq<RawPeriod>) | NotList

  /**
   * PHP's `<` on two non-numeric strings: byte order, and a proper prefix
   * sorts first.
   */
  predicate StrLess(a: string, b: string)
    decreases |a|
  {
    if a == [] then b != []
    else if b == [] then false
    else if a[0] != b[0] then a[0] < b[0]
    else StrLess(a[1..], b[1..])
  }

  lemma {:induction false} StrLessIrreflexive(a: string)
    ensures !StrLess(a, a)
    decreases |a|
  {
    if a != [] {
      StrLessIrreflexive(a[1..]);
    }
  }

  // ---------------------------------------------------------------------
  // format

  /** Both endpoints of one period through timeFormatConv. */
  function ConvPeriod(cfg: Config, p: StrPeriod, unit: string): StrPeriod {
    StrPeriod(TimeFormatConv(cfg, p.start, unit), TimeFormatConv(cfg, p.end, unit))
  }

  /** Both endpoints have the lengths timeFormatConv pads from. */
  predicate Paddable(p: StrPeriod) {
    10 <= |p.start| <= 19 && 10 <= |p.end| <= 19
  }

  /** Converting a paddable period gives full-width endpoints that a second conversion leaves alone. */
  lemma ConvPeriodIdempotent(cfg: Config, p: StrPeriod, unit: string)
    requires Paddable(p)
    ensures |ConvPeriod(cfg, p, unit).start| == 19 && |ConvPeriod(cfg, p, unit).end| == 19
    ensures ConvPeriod(cfg, ConvPeriod(cfg, p, unit), unit) == ConvPeriod(cfg, p, unit)
  {
    TimeFormatConvIdempotent(cfg, p.start, unit);
    TimeFormatConvIdempotent(cfg, p.end, unit);
  }

  /**
   * format(l, unit): the by-reference foreach that converts every endpoint.
   * The configuration is a value parameter, so an explicit unit argument
   * cannot change the configured unit seen by later calls.
   */
  method Format(cfg: Config, l: seq<StrPeriod>, unit: string) returns (r: seq<StrPeriod>)
    ensures |r| == |l|
    ensures forall k :: 0 <= k < |l| ==> r[k] == ConvPeriod(cfg, l[k], unit)
    ensures forall k :: 0 <= k < |l| && Paddable(l[k]) ==>
              |r[k].start| == 19 && |r[k].end| == 19 && ConvPeriod(cfg, r[k], unit) == r[k]
  {
    r := l;
    var k := 0;
    while k < |r|
      invariant 0 <= k <= |r| == |l|
      invariant forall j :: 0 <= j < k ==> r[j] == ConvPeriod(cfg, l[j], unit)
      invariant forall j :: k <= j < |r| ==> r[j] == l[j]
    {
      var tp := r[k];
      tp := tp.(start := TimeFormatConv(cfg, tp.start, unit));
      tp := tp.(end := TimeFormatConv(cfg, tp.end, unit));
      assert tp == ConvPeriod(cfg, l[k], unit);
      r := r[k := tp];
      k := k + 1;
    }
    FormatPads(cfg, l, r, unit);
  }

  /** Converting every pair leaves each paddable pair padded to full datetimes, a fixed point. */
  lemma FormatPads(cfg: Config, l: seq<StrPeriod>, r: seq<StrPeriod>, unit: string)
    requires |r| == |l|
    requires forall k :: 0 <= k < |l| ==> r[k] == ConvPeriod(cfg, l[k], unit)
    ensures forall k :: 0 <= k < |l| && Paddable(l[k]) ==>
              |r[k].start| == 19 && |r[k].end| == 19 && ConvPeriod(cfg, r[k], unit) == r[k]
  {
    forall j | 0 <= j < |l| && Paddable(l[j])
      ensures |r[j].start| == 19 && |r[j].end| == 19 && ConvPeriod(cfg, r[j], unit) == r[j]
    {
      ConvPeriodIdempotent(cfg, l[j], unit);
    }
  }

  // ---------------------------------------------------------------------
  // validate

  /**
   * The test validate applies to one element (and filter keeps): a pair
   * whose start sorts before its end and, when datetime filtering is on,
   * whose endpoints are both datetimes.
   */
  predicate Accepted(cfg: Config, x: RawPeriod) {
    && x.Pair?
    && StrLess(x.tp.start, x.tp.end)
    && !(cfg.filterDatetime && (!IsDatetime(x.tp.start) || !IsDatetime(x.tp.end)))
  }

  /** The array_walk of validate: true when no element throws. */
  function AllAccepted(cfg: Config, items: seq<RawPeriod>): (r: bool)
    ensures r <==> forall x :: x in items ==> Accepted(cfg, x)
    decreases |items|
  {
    if items == [] then true
    else
      assert forall x :: x in items <==> x == items[0] || x in items[1..];
      Accepted(cfg, items[0]) && AllAccepted(cfg, items[1..])
  }

  /** validate(input): true, or the format error when any element (or the input itself) is malformed. */
  function Validate(cfg: Config, input: RawInput): (r: Result<bool>)
    ensures r.Ok? <==> input.Items? && forall x :: x in input.items ==> Accepted(cfg, x)
    ensures r.Ok? ==> r.value
    ensures r.Err? ==> r.error == FormatError
  {
    if input.NotList? then Err(FormatError)
    else if AllAccepted(cfg, input.items) then Ok(true)
    else Err(FormatError)
  }

  /** The facade's validate: a foreach that throws at the first malformed element. */
  method ValidateLoop(cfg: Config, input: RawInput) returns (r: Result<bool>)
    ensures r == Validate(cfg, input)
  {
    if input.NotList? {
      return Err(FormatError);
    }
    var items := input.items;
    var k := 0;
    while k < |items|
      invariant 0 <= k <= |items|
      invariant forall j :: 0 <= j < k ==> Accepted(cfg, items[j])
    {
      var tp := items[k];
      assert tp in items;
      if !tp.Pair? {
        return Err(FormatError);
      }
      if !StrLess(tp.tp.start, tp.tp.end) {
        return Err(FormatError);
      }
      if cfg.filterDatetime && (!IsDatetime(tp.tp.start) || !IsDatetime(tp.tp.end)) {
        return Err(FormatError);
      }
      k := k + 1;
    }
    return Ok(true);
  }

  // ---------------------------------------------------------------------
  // filter

  /** The three array_filter passes of filter: the accepted pairs, in order. */
  function AcceptedPairs(cfg: Config, items: seq<RawPeriod>): (r: seq<StrPeriod>)
    ensures |r| <= |items|
    ensures forall p :: p in r <==> Pair(p) in items && Accepted(cfg, Pair(p))
    decreases |items|
  {
    if items == [] then []
    else
      assert forall x :: x in items <==> x == items[0] || x in items[1..];
      (if Accepted(cfg, items[0]) then [items[0].tp] else []) + AcceptedPairs(cfg, items[1..])
  }

  /** Nothing is dropped exactly when every element is accepted. */
  lemma {:induction false} AcceptedPairsAll(cfg: Config, items: seq<RawPeriod>)
    ensures |AcceptedPairs(cfg, items)| == |items| <==> forall x :: x in items ==> Accepted(cfg, x)
    decreases |items|
  {
    if items != [] {
      AcceptedPairsAll(cfg, items[1..]);
      assert forall x :: x in items <==> x == items[0] || x in items[1..];
    }
  }

  /** substr(s, 11, 2) == '24': the hour field reads 24. */
  predicate HourIs24(s: string) {
    |s| >= 13 && s[11..13] == "24"
  }

  /**
   * The hour-24 carry: `carry` stands for extendTime(s, 0), which renders
   * 'YYYY-MM-DD 24:..' as the next day at hour 00.
   */
  function Carry(s: string, carry: string -> string): string {
    if HourIs24(s) then carry(s) else s
  }

  function CarryPeriod(p: StrPeriod, carry: string -> string): StrPeriod {
    StrPeriod(Carry(p.start, carry), Carry(p.end, carry))
  }

  function CarryAll(l: seq<StrPeriod>, carry: string -> string): (r: seq<StrPeriod>)
    ensures |r| == |l|
    ensures forall k :: 0 <= k < |l| ==> r[k] == CarryPeriod(l[k], carry)
    decreases |l|
  {
    if l == [] then [] else [CarryPeriod(l[0], carry)] + CarryAll(l[1..], carry)
  }

  /** filter(input): the accepted pairs, in order, each endpoint at hour 24 carried. */
  function Filter(cfg: Config, input: RawInput, carry: string -> string): (r: seq<StrPeriod>)
    ensures input.NotList? ==> r == []
    ensures input.Items? ==> |r| == |AcceptedPairs(cfg, input.items)| <= |input.items|
    ensures input.Items? ==> forall k :: 0 <= k < |r| ==> r[k] == CarryPeriod(AcceptedPairs(cfg, input.items)[k], carry)
  {
    if input.NotList? then [] else CarryAll(AcceptedPairs(cfg, input.items), carry)
  }

  /**
   * filter and validate agree: filter drops nothing exactly when validate
   * succeeds; and when no accepted endpoint reads hour 24 the kept pairs
   * come back unchanged.
   */
  lemma FilterValidate(cfg: Config, input: RawInput, carry: string -> string)
    requires input.Items?
    ensures |Filter(cfg, input, carry)| == |input.items| <==> Validate(cfg, input).Ok?
    ensures (forall p :: p in AcceptedPairs(cfg, input.items) ==> !HourIs24(p.start) && !HourIs24(p.end)) ==>
              Filter(cfg, input, carry) == AcceptedPairs(cfg, input.items)
  {
    AcceptedPairsAll(cfg, input.items);
    var a := AcceptedPairs(cfg, input.items);
    if forall p :: p in a ==> !HourIs24(p.start) && !HourIs24(p.end) {
      forall k | 0 <= k < |a| ensures Filter(cfg, input, carry)[k] == a[k] {
        assert a[k] in a;
      }
    }
  }

  /** With datetime filtering on, only full datetimes reach the carry. */
  lemma FilterCarriesDatetimes(cfg: Config, input: RawInput, p: StrPeriod)
    requires cfg.filterDatetime && input.Items? && p in AcceptedPairs(cfg, input.items)
    ensures IsDatetime(p.start) && IsDatetime(p.end)
    ensures HourIs24(p.start) ==> |p.start| >= 19 && p.start[11..13] == "24"
  {
  }

  /**
   * The facade's carry: only when the start is at least 13 characters
   * long, and then for each endpoint on its own.
   */
  function FacadeCarryPeriod(p: StrPeriod, carry: string -> string): StrPeriod {
    if |p.start| >= 13 then CarryPeriod(p, carry) else p
  }

  /** The two carries agree on pairs accepted with datetime filtering on. */
  lemma FacadeCarryAgrees(cfg: Config, p: StrPeriod, carry: string -> string)
    requires cfg.filterDatetime && Accepted(cfg, Pair(p))
    ensures FacadeCarryPeriod(p, carry) == CarryPeriod(p, carry)
  {
  }

  /**
   * With datetime filtering off they can differ: a short start leaves an
   * hour-24 end uncarried in the facade.
   */
  lemma FacadeCarryDiffers(p: StrPeriod, carry: string -> string)
    requires |p.start| < 13 && HourIs24(p.end) && carry(p.end) != p.end
    ensures FacadeCarryPeriod(p, carry) != CarryPeriod(p, carry)
  {
  }

  /**
   * The facade's filter: one foreach that unsets rejected elements and
   * carries the others in place.
   */
  method FacadeFilter(cfg: Config, input: RawInput, carry: string -> string) returns (opt: seq<StrPeriod>)
    ensures input.NotList? ==> opt == []
    ensures input.Items? ==> |opt| == |AcceptedPairs(cfg, input.items)|
    ensures input.Items? ==> forall k :: 0 <= k < |opt| ==> opt[k] == FacadeCarryPeriod(AcceptedPairs(cfg, input.items)[k], carry)
    ensures cfg.filterDatetime ==> opt == Filter(cfg, input, carry)
  {
    if input.NotList? {
      return [];
    }
    var items := input.items;
    opt := [];
    var k := 0;
    while k < |items|
      invariant 0 <= k <= |items|
      invariant FacadeCarried(opt, AcceptedPairs(cfg, items[..k]), carry)
    {
      AcceptedPairsStep(cfg, items, k);
      var keep, p := FacadeFilterOne(cfg, items[k], carry);
      if keep {
        FacadeCarriedSnoc(opt, AcceptedPairs(cfg, items[..k]), items[k].tp, carry);
        opt := opt + [p];
      }
      k := k + 1;
    }
    assert items[..k] == items;
    if cfg.filterDatetime {
      FacadeFilterAgrees(cfg, input, carry, opt);
    }
  }

  /** opt holds the pairs of a, in order, each carried as the facade carries. */
  predicate FacadeCarried(opt: seq<StrPeriod>, a: seq<StrPeriod>, carry: string -> string) {
    |opt| == |a| && forall j :: 0 <= j < |opt| ==> opt[j] == FacadeCarryPeriod(a[j], carry)
  }

  lemma FacadeCarriedSnoc(opt: seq<StrPeriod>, a: seq<StrPeriod>, x: StrPeriod, carry: string -> string)
    requires FacadeCarried(opt, a, carry)
    ensures FacadeCarried(opt + [FacadeCarryPeriod(x, carry)], a + [x], carry)
  {
  }

  /** With datetime filtering on, what the facade's filter builds is what filter returns. */
  lemma FacadeFilterAgrees(cfg: Config, input: RawInput, carry: string -> string, opt: seq<StrPeriod>)
    requires cfg.filterDatetime && input.Items?
    requires |opt| == |AcceptedPairs(cfg, input.items)|
    requires forall k :: 0 <= k < |opt| ==> opt[k] == FacadeCarryPeriod(AcceptedPairs(cfg, input.items)[k], carry)
    ensures opt == Filter(cfg, input, carry)
  {
    var a := AcceptedPairs(cfg, input.items);
    forall j | 0 <= j < |a| ensures opt[j] == CarryPeriod(a[j], carry) {
      assert a[j] in a;
      FacadeCarryAgrees(cfg, a[j], carry);
    }
  }

  /** The body of the facade's filter loop for one element: keep it (carried) or unset it. */
  method FacadeFilterOne(cfg: Config, tp: RawPeriod, carry: string -> string) returns (keep: bool, p: StrPeriod)
    ensures keep == Accepted(cfg, tp)
    ensures keep ==> p == FacadeCarryPeriod(tp.tp, carry)
  {
    if !tp.Pair? {
      return false, StrPeriod([], []);
    }
    p := tp.tp;
    if !StrLess(p.start, p.end) {
      return false, p;
    }
    if cfg.filterDatetime && (!IsDatetime(p.start) || !IsDatetime(p.end)) {
      return false, p;
    }
    if |p.start| >= 13 {
      if HourIs24(p.start) {
        p := p.(start := carry(p.start));
      }
      if HourIs24(tp.tp.end) {
        p := p.(end := carry(p.end));
      }
    }
    keep := true;
  }

  /** One more element of the prefix adds its accepted pair, if any, at the end. */
  lemma AcceptedPairsStep(cfg: Config, items: seq<RawPeriod>, k: nat)
    requires k < |items|
    ensures AcceptedPairs(cfg, items[..k + 1]) ==
              AcceptedPairs(cfg, items[..k]) + (if Accepted(cfg, items[k]) then [items[k].tp] else [])
  {
    assert items[..k + 1] == items[..k] + [items[k]];
    AcceptedPairsConcat(cfg, items[..k], [items[k]]);
  }

  lemma {:induction false} AcceptedPairsConcat(cfg: Config, a: seq<RawPeriod>, b: seq<RawPeriod>)
    ensures AcceptedPairs(cfg, a + b) == AcceptedPairs(cfg, a) + AcceptedPairs(cfg, b)
    decreases |a|
  {
    if a == [] {
      assert a + b == b;
    } else {
      assert (a + b)[0] == a[0];
      assert (a + b)[1..] == a[1..] + b;
      AcceptedPairsConcat(cfg, a[1..], b);
    }
  }
}
