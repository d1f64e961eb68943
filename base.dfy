/**
 * The option record of the helper (calculation unit, format unit, datetime
 * filtering, automatic sort-out), the unit alias table, and the small string
 * and time tools every operation shares: isDatetime, timeFormatConv,
 * extendTime and time2Second.
 *
 * The process-wide option array of the source is an object of class Options;
 * the operations read a snapshot of it, a Config value, passed explicitly.
 */
module Base {

  datatype Option<T> = None | Some(value: T)

  datatype Error =
    | ErrorUnit(unit: string)       // 'Error Unit: ...', code 400
    | ErrorTarget(target: string)   // 'Error Target: ...', code 400
    | FormatError                   // 'Time periods format error !', code 400

  datatype Result<T> = Ok(value: T) | Err(error: Error)

  datatype Unit = Hour | Minute | Second

  /** Seconds in one unit. */
  function Seconds(u: Unit): (n: nat)
    ensures n in {1, 60, 3600}
    ensures u == Second <==> n == 1
  {
    match u
    case Hour => 3600
    case Minute => 60
    case Second => 1
  }

  /** The unit alias table ('unitMap'): ten accepted spellings, three units. */
  function UnitAlias(name: string): (u: Option<Unit>)
    ensures u == Some(Hour) <==> name in {"hour", "hours", "h"}
    ensures u == Some(Minute) <==> name in {"minute", "minutes", "i", "m"}
    ensures u == Some(Second) <==> name in {"second", "seconds", "s"}
  {
    if name == "hour" || name == "hours" || name == "h" then Some(Hour)
    else if name == "minute" || name == "minutes" || name == "i" || name == "m" then Some(Minute)
    else if name == "second" || name == "seconds" || name == "s" then Some(Second)
    else None
  }

  /** A snapshot of the option record. */
  datatype Config = Config(timeUnit: Unit, formatUnit: Unit, filterDatetime: bool, sortOut: bool)

  const Defaults := Config(Second, Second, true, true)

  /** The per-call sort-out argument: 'default' or an explicit flag. */
  datatype SortOutArg = Default | Explicit(on: bool)

  /** The sort-out argument resolved against the configured default. */
  function ResolveSortOut(arg: SortOutArg, cfg: Config): (on: bool)
    ensures arg.Default? ==> on == cfg.sortOut
    ensures arg.Explicit? ==> on == arg.on
  {
    if arg.Default? then cfg.sortOut else arg.on
  }

  /**
   * getUnit(target, unit): the unit a function uses. Only the targets 'time'
   * and 'format' exist; a known alias given as unit wins over the configured
   * unit, anything else (such as 'default') falls back to it.
   */
  function GetUnit(cfg: Config, target: string, unit: string): (r: Result<Unit>)
    ensures r.Err? <==> target !in {"time", "format"}
    ensures r.Err? ==> r.error == ErrorTarget(target)
    ensures r.Ok? && UnitAlias(unit).Some? ==> r.value == UnitAlias(unit).value
    ensures r.Ok? && UnitAlias(unit).None? && target == "time" ==> r.value == cfg.timeUnit
    ensures r.Ok? && UnitAlias(unit).None? && target == "format" ==> r.value == cfg.formatUnit
  {
    if target == "time" || target == "format" then
      match UnitAlias(unit)
      case Some(u) => Ok(u)
      case None => Ok(if target == "time" then cfg.timeUnit else cfg.formatUnit)
    else
      Err(ErrorTarget(target))
  }

  /**
   * The mutable option store. The source keeps it in a static array; here it
   * is one object whose setters change its fields.
   */
  class Options {
    var timeUnit: Unit
    var formatUnit: Unit
    var filterDatetime: bool
    var sortOut: bool

    function Current(): Config
      reads this
    {
      Config(timeUnit, formatUnit, filterDatetime, sortOut)
    }

    constructor ()
      ensures Current() == Defaults
    {
      timeUnit, formatUnit := Second, Second;
      filterDatetime, sortOut := true, true;
    }

    /**
     * setUnit(unit, target): an unknown alias, then an unknown target, fail
     * before anything changes; 'all' sets both targets, a named target only
     * its own entry.
     */
    method SetUnit(unit: string, target: string) returns (r: Result<()>)
      modifies this
      ensures UnitAlias(unit).None? ==> r == Err(ErrorUnit(unit)) && Current() == old(Current())
      ensures UnitAlias(unit).Some? && target !in {"all", "time", "format"} ==>
                r == Err(ErrorTarget(target)) && Current() == old(Current())
      ensures UnitAlias(unit).Some? && target == "all" ==>
                r.Ok? && Current() == old(Current()).(timeUnit := UnitAlias(unit).value, formatUnit := UnitAlias(unit).value)
      ensures UnitAlias(unit).Some? && target == "time" ==>
                r.Ok? && Current() == old(Current()).(timeUnit := UnitAlias(unit).value)
      ensures UnitAlias(unit).Some? && target == "format" ==>
                r.Ok? && Current() == old(Current()).(formatUnit := UnitAlias(unit).value)
    {
      var alias := UnitAlias(unit);
      if alias.None? {
        return Err(ErrorUnit(unit));
      }
      var u := alias.value;
      if target != "all" && target != "time" && target != "format" {
        return Err(ErrorTarget(target));
      }
      if target == "time" {
        timeUnit := u;
      } else if target == "format" {
        formatUnit := u;
      } else {
        timeUnit, formatUnit := u, u;
      }
      r := Ok(());
    }

    /** setSortOut stores the flag (the source's `!!` coercion is the caller's bool here). */
    method SetSortOut(on: bool)
      modifies this
      ensures Current() == old(Current()).(sortOut := on)
    {
      sortOut := on;
    }

    method SetFilterDatetime(on: bool)
      modifies this
      ensures Current() == old(Current()).(filterDatetime := on)
    {
      filterDatetime := on;
    }

    method GetSortOut() returns (on: bool)
      ensures on == Current().sortOut
    {
      on := sortOut;
    }

    method GetFilterDatetime() returns (on: bool)
      ensures on == Current().filterDatetime
    {
      on := filterDatetime;
    }
  }

  /**
   * time2Second: a duration in the given (or else configured) time unit,
   * converted to seconds. Durations are whole numbers here, so the final
   * integer cast changes nothing.
   */
  function Time2Second(cfg: Config, time: int, unit: string): (sec: int)
    ensures UnitAlias(unit).Some? ==> sec == time * Seconds(UnitAlias(unit).value)
    ensures UnitAlias(unit).None? ==> sec == time * Seconds(cfg.timeUnit)
  {
    var u := GetUnit(cfg, "time", unit).value;
    match u
    case Minute => time * 60
    case Hour => time * 3600
    case Second => time
  }

  // ---------------------------------------------------------------------
  // Timestamps rendered at a string width

  /** The steps a datetime string can resolve: second, minute, hour, day. */
  type Grain = g: nat | g in {1, 60, 3600, 86400} witness 1

  /**
   * The granularity implied by a datetime string's width: 'Y-m-d H:i:s' (19)
   * is exact to the second, 'Y-m-d H:i' (16) to the minute, 'Y-m-d H' (13)
   * to the hour and 'Y-m-d' (10) to the day.
   */
  function Granularity(width: nat): (g: Grain)
    requires width in {10, 13, 16, 19}
    ensures width == 19 <==> g == 1
  {
    if width == 19 then 1 else if width == 16 then 60 else if width == 13 then 3600 else 86400
  }

  /** A timestamp that a string of granularity g can denote exactly. */
  predicate Aligned(t: int, g: Grain) {
    t % g == 0
  }

  /**
   * extendTime(t, n): render t + n and keep as many characters as t had,
   * i.e. truncate t + n down to the granularity of t's string.
   */
  function ExtendTime(t: int, n: int, g: Grain): (r: int)
    ensures Aligned(r, g)
    ensures r <= t + n < r + g
  {
    (t + n) - (t + n) % g
  }

  /** With n = 0 an aligned instant is re-rendered unchanged. */
  lemma ExtendTimeZero(t: int, g: Grain)
    requires Aligned(t, g)
    ensures ExtendTime(t, 0, g) == t
  {
  }

  /** When t + n is itself aligned the addition is exact. */
  lemma ExtendTimeExact(t: int, n: int, g: Grain)
    requires Aligned(t + n, g)
    ensures ExtendTime(t, n, g) == t + n
  {
  }

  // ---------------------------------------------------------------------
  // Datetime strings

  /** PHP substr(s, start) with no length: negative starts count from the end. */
  function SubstrFrom(s: string, start: int): (r: string)
    ensures 0 <= start <= |s| ==> r == s[start..]
    ensures start < 0 && -start <= |s| ==> r == s[|s| + start..]
    ensures start < 0 && -start > |s| ==> r == s
    ensures start >= |s| ==> r == []
  {
    if start >= 0 then (if start >= |s| then [] else s[start..])
    else if -start >= |s| then s
    else s[|s| + start..]
  }

  /** PHP substr_replace(s, rep, start, len) for non-negative start and len. */
  function SubstrReplace(s: string, rep: string, start: nat, len: nat): (r: string)
    ensures start + len <= |s| ==> |r| == |s| - len + |rep|
    ensures start + len <= |s| ==> r[..start] == s[..start] && r[start..start + |rep|] == rep
    ensures start + len <= |s| ==> r[start + |rep|..] == s[start + len..]
  {
    var st := if start > |s| then |s| else start;
    var en := if st + len > |s| then |s| else st + len;
    s[..st] + rep + s[en..]
  }

  predicate IsDigit(c: char) {
    '0' <= c <= '9'
  }

  /** The datetime template: 'D' is an ASCII digit, everything else literal. */
  const DatetimeTemplate: string := "DDDD-DD-DD DD:DD:DD"

  predicate MatchesTemplate(s: string)
    requires |s| == |DatetimeTemplate|
  {
    forall i :: 0 <= i < |s| ==>
      if DatetimeTemplate[i] == 'D' then IsDigit(s[i]) else s[i] == DatetimeTemplate[i]
  }

  /**
   * isDatetime: the string is 'YYYY-MM-DD HH:MM:SS' in ASCII digits; the
   * pattern's `$` also lets one final newline through.
   */
  function IsDatetime(s: string): (r: bool)
    ensures r ==> |s| == 19 || (|s| == 20 && s[19] == '\n')
    ensures r ==> s[4] == '-' && s[7] == '-' && s[10] == ' ' && s[13] == ':' && s[16] == ':'
    ensures r ==> forall i :: i in {0, 1, 2, 3, 5, 6, 8, 9, 11, 12, 14, 15, 17, 18} ==> IsDigit(s[i])
    ensures |s| == 19 ==> (r <==> MatchesTemplate(s))
    ensures |s| !in {19, 20} ==> !r
    ensures |s| == 20 ==> (r <==> s[19] == '\n' && IsDatetime(s[..19]))
    decreases |s|
  {
    if |s| == 19 then MatchesTemplate(s)
    else if |s| == 20 then s[19] == '\n' && MatchesTemplate(s[..19])
    else false
  }

  const TimePadding: string := " 00:00:00"

  /** The fill step of timeFormatConv: append the missing ' 00:00:00' tail. */
  function PadDatetime(s: string): (r: string)
    ensures 10 <= |s| <= 19 ==> |r| == 19 && r[..|s|] == s && r[|s|..] == TimePadding[|s| - 10..]
  {
    s + SubstrFrom(TimePadding, |s| - 10)
  }

  /**
   * timeFormatConv(s, unit): pad s to full width, then zero the fields below
   * the format unit (resolved like getUnit('format', unit)).
   */
  function TimeFormatConv(cfg: Config, s: string, unit: string): (r: string)
    ensures 10 <= |s| <= 19 ==> |r| == 19
    ensures 10 <= |s| <= 19 && GetUnit(cfg, "format", unit).value == Second ==>
              r[..|s|] == s && r[|s|..] == TimePadding[|s| - 10..]
    ensures 10 <= |s| <= 19 && GetUnit(cfg, "format", unit).value == Minute ==>
              r[..17] == PadDatetime(s)[..17] && r[17..] == "00"
    ensures 10 <= |s| <= 19 && GetUnit(cfg, "format", unit).value == Hour ==>
              r[..14] == PadDatetime(s)[..14] && r[14..] == "00:00"
  {
    var padded := PadDatetime(s);
    match GetUnit(cfg, "format", unit).value
    case Minute => SubstrReplace(padded, "00", 17, 2)
    case Hour => SubstrReplace(padded, "00:00", 14, 5)
    case Second => padded
  }

  /** Converting twice with the same unit is converting once. */
  lemma TimeFormatConvIdempotent(cfg: Config, s: string, unit: string)
    requires 10 <= |s| <= 19
    ensures TimeFormatConv(cfg, TimeFormatConv(cfg, s, unit), unit) == TimeFormatConv(cfg, s, unit)
  {
    var once := TimeFormatConv(cfg, s, unit);
    var u := GetUnit(cfg, "format", unit).value;
    assert PadDatetime(once) == once;
    match u
    case Minute => {
      assert once[17..] == "00";
      assert SubstrReplace(once, "00", 17, 2) == once[..17] + "00";
      assert once == once[..17] + once[17..];
    }
    case Hour => {
      assert once[14..] == "00:00";
      assert SubstrReplace(once, "00:00", 14, 5) == once[..14] + "00:00";
      assert once == once[..14] + once[14..];
    }
    case Second => {}
  }

  /**
   * Every converted datetime is full width, so a list of formatted periods
   * is exact to the second: its granularity is one second.
   */
  lemma TimeFormatConvSecondGrain(cfg: Config, s: string, unit: string)
    requires 10 <= |s| <= 19
    ensures |TimeFormatConv(cfg, s, unit)| == 19
    ensures Granularity(|TimeFormatConv(cfg, s, unit)|) == 1
  {
  }
}
