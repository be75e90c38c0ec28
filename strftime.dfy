/** Rendering a timestamp through a format string: the output formatters, their
    dispatch table and the Strftime loop. */
module Formatting {
  import opened Outcomes
  import opened Decimal
  import opened Names
  import opened Scanner

  /** A timestamp already taken apart into the fields the formatters read from Go's
      time.Time (Year, Month, Day, Hour, Minute, Second, Nanosecond, Weekday, YearDay,
      the week of ISOWeek, and the name and offset in seconds of Zone). */
  datatype Timestamp = Timestamp(
    year: int, month: int, day: int,
    hour: int, minute: int, second: int, nanosecond: int,
    weekday: int, yearDay: int, isoWeek: int,
    zoneName: string, zoneOffset: int)
  {
    /** The ranges time.Time's accessors keep to. */
    predicate Valid()
    {
      1 <= month <= 12 && 1 <= day <= 31 &&
      0 <= hour <= 23 && 0 <= minute <= 59 && 0 <= second <= 59 &&
      0 <= nanosecond <= 999_999_999 &&
      0 <= weekday <= 6 && 1 <= yearDay <= 366 && 1 <= isoWeek <= 53
    }
  }

  /** "%d" when the '-' flag is present, "%0<width>d" otherwise. */
  function Numeric(v: int, width: nat, noPad: bool): string
  {
    if noPad then ZeroPad(v, 0) else ZeroPad(v, width)
  }

  // The output formatters, one per directive code. Each takes the no-pad flag; most
  // ignore it.

  function ShortWeekday(t: Timestamp, noPad: bool): string requires t.Valid() { ShortDayNames[t.weekday] }
  function LongWeekday(t: Timestamp, noPad: bool): string requires t.Valid() { LongDayNames[t.weekday] }
  function WeekdayNumber(t: Timestamp, noPad: bool): string { ZeroPad(t.weekday, 0) }
  function DayOfMonth(t: Timestamp, noPad: bool): string { Numeric(t.day, 2, noPad) }
  function ShortMonth(t: Timestamp, noPad: bool): string requires t.Valid() { ShortMonthNames[t.month] }
  function LongMonth(t: Timestamp, noPad: bool): string requires t.Valid() { LongMonthNames[t.month] }
  function MonthNumber(t: Timestamp, noPad: bool): string { Numeric(t.month, 2, noPad) }
  function ShortYear(t: Timestamp, noPad: bool): string { ZeroPad(GoRem100(t.year), 2) }
  function FullYear(t: Timestamp, noPad: bool): string { ZeroPad(t.year, 0) }
  function Hour24(t: Timestamp, noPad: bool): string { Numeric(t.hour, 2, noPad) }
  function Hour12(t: Timestamp, noPad: bool): string { Numeric(t.hour % 12, 2, noPad) }
  function AmPm(t: Timestamp, noPad: bool): string { if t.hour > 12 then "PM" else "AM" }
  function MinuteNumber(t: Timestamp, noPad: bool): string { Numeric(t.minute, 2, noPad) }
  function SecondNumber(t: Timestamp, noPad: bool): string { Numeric(t.second, 2, noPad) }
  function Microsecond(t: Timestamp, noPad: bool): string requires t.Valid() { ZeroPad(t.nanosecond / 1000, 6) }

  /** "%s%02d%02d" of the sign, the whole hours and the remainder modulo 60 of the
      offset's absolute value (the seconds, not the minutes, as the Go code has it). */
  function UtcOffset(t: Timestamp, noPad: bool): string
  {
    var sign := if t.zoneOffset >= 0 then "+" else "-";
    var o: nat := if t.zoneOffset >= 0 then t.zoneOffset else -t.zoneOffset;
    sign + ZeroPad(o / 3600, 2) + ZeroPad(o % 60, 2)
  }

  function ZoneName(t: Timestamp, noPad: bool): string { t.zoneName }
  function DayOfYear(t: Timestamp, noPad: bool): string { Numeric(t.yearDay, 3, noPad) }
  /** Both week numbers print the ISO week, whatever the flag. */
  function WeekOfYearSunday(t: Timestamp, noPad: bool): string { ZeroPad(t.isoWeek, 2) }
  function WeekOfYearMonday(t: Timestamp, noPad: bool): string { ZeroPad(t.isoWeek, 2) }

  /** "%a %b %d %H:%M:%S %Y", forwarding the flag to every part. */
  function DateAndTime(t: Timestamp, noPad: bool): string
    requires t.Valid()
  {
    ShortWeekday(t, noPad) + " " + ShortMonth(t, noPad) + " " + DayOfMonth(t, noPad) + " " +
    Hour24(t, noPad) + ":" + MinuteNumber(t, noPad) + ":" + SecondNumber(t, noPad) + " " +
    FullYear(t, noPad)
  }

  /** "%m/%d/%y", forwarding the flag. */
  function LocaleDate(t: Timestamp, noPad: bool): string
  {
    MonthNumber(t, noPad) + "/" + DayOfMonth(t, noPad) + "/" + ShortYear(t, noPad)
  }

  /** "%H:%M:%S", forwarding the flag. */
  function LocaleTime(t: Timestamp, noPad: bool): string
  {
    Hour24(t, noPad) + ":" + MinuteNumber(t, noPad) + ":" + SecondNumber(t, noPad)
  }

  function Percent(t: Timestamp, noPad: bool): string { "%" }

  /** The output dispatch table: the formatter for a code byte, if it has one. */
  function Formatter(t: Timestamp, code: char, noPad: bool): Option<string>
    requires t.Valid()
  {
    match code
    case 'a' => Some(ShortWeekday(t, noPad))
    case 'A' => Some(LongWeekday(t, noPad))
    case 'w' => Some(WeekdayNumber(t, noPad))
    case 'd' => Some(DayOfMonth(t, noPad))
    case 'b' => Some(ShortMonth(t, noPad))
    case 'B' => Some(LongMonth(t, noPad))
    case 'm' => Some(MonthNumber(t, noPad))
    case 'y' => Some(ShortYear(t, noPad))
    case 'Y' => Some(FullYear(t, noPad))
    case 'H' => Some(Hour24(t, noPad))
    case 'I' => Some(Hour12(t, noPad))
    case 'p' => Some(AmPm(t, noPad))
    case 'M' => Some(MinuteNumber(t, noPad))
    case 'S' => Some(SecondNumber(t, noPad))
    case 'f' => Some(Microsecond(t, noPad))
    case 'z' => Some(UtcOffset(t, noPad))
    case 'Z' => Some(ZoneName(t, noPad))
    case 'j' => Some(DayOfYear(t, noPad))
    case 'U' => Some(WeekOfYearSunday(t, noPad))
    case 'W' => Some(WeekOfYearMonday(t, noPad))
    case 'c' => Some(DateAndTime(t, noPad))
    case 'x' => Some(LocaleDate(t, noPad))
    case 'X' => Some(LocaleTime(t, noPad))
    case '%' => Some(Percent(t, noPad))
    case _ => None
  }

  /** The codes the output table has an entry for. */
  predicate HasFormatter(code: char)
  {
    match code
    case 'a' | 'A' | 'w' | 'd' | 'b' | 'B' | 'm' | 'y' | 'Y' | 'H' | 'I' | 'p' | 'M' | 'S' | 'f' | 'z' | 'Z' | 'j' | 'U' | 'W' | 'c' | 'x' | 'X' | '%' => true
    case _ => false
  }

  /** What the rendering of a token sequence comes to: literal bytes and formatter
      outputs concatenated in order, or the first unknown code's error. */
  function RenderTokens(t: Timestamp, toks: seq<Token>): Result<string>
    requires t.Valid()
  {
    if toks == [] then Ok("")
    else
      match toks[0]
      case Literal(c) => Prefixed([c], RenderTokens(t, toks[1..]))
      case Directive(code, noPad, marker) =>
        match Formatter(t, code, noPad)
        case None => Err(UnknownCode(marker))
        case Some(s) => Prefixed(s, RenderTokens(t, toks[1..]))
  }

  function Render(t: Timestamp, format: string): Result<string>
    requires t.Valid()
  {
    RenderTokens(t, Scan(format))
  }

  /** Go's Strftime: one pass over the bytes of the format, appending to a buffer and
      returning "" with the error at the first unknown code. */
  method Strftime(t: Timestamp, format: string) returns (r: Result<string>)
    requires t.Valid()
    ensures r == Render(t, format)
  {
    var buf := "";
    var length := |format|;
    var i := 0;
    assert Prefixed(buf, Render(t, format)) == Render(t, format) by {
      if Render(t, format).Ok? { assert buf + Render(t, format).value == Render(t, format).value; }
    }
    while i < length
      invariant 0 <= i <= length
      invariant Render(t, format) == Prefixed(buf, RenderTokens(t, ScanFrom(format, i)))
      decreases length - i
    {
      var c := format[i];
      var j := 0;
      var flag := false;
      ghost var rest := ScanFrom(format, Step(format, i).1);
      assert ScanFrom(format, i) == [Step(format, i).0] + rest;
      if c != '%' || i + 1 >= length {
        PrefixedTwice(buf, [c], RenderTokens(t, rest));
        buf := buf + [c];
      } else {
        if format[i + 1] == '-' {
          flag := true;
          j := j + 1;
        }
        if i + j + 1 < length {
          var s := Formatter(t, format[i + j + 1], flag);
          if s.None? {
            return Err(UnknownCode(format[i + j]));
          }
          PrefixedTwice(buf, s.value, RenderTokens(t, rest));
          buf := buf + s.value;
          j := j + 1;
        } else {
          PrefixedTwice(buf, [format[i + 1]], RenderTokens(t, rest));
          buf := buf + [format[i + 1]];
        }
      }
      i := i + j + 1;
    }
    assert buf + "" == buf;
    return Ok(buf);
  }
}
