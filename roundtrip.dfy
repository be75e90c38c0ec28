/** How the two directions fit together: which codes each table knows, and what the
    decoders make of the text the formatters print. */
module RoundTrips {
  import opened Outcomes
  import opened Decimal
  import opened Names
  import opened Formatting
  import opened Parsing
  import opened FormattingProperties
  import opened ParsingProperties

  /** Every code that can be decoded can be matched, and every code that can be matched
      can be printed; %w, %j, %U and %W can be printed but not matched. */
  lemma CodeTables(code: char)
    ensures HasDecoder(code) ==> HasRegex(code)
    ensures HasRegex(code) ==> HasFormatter(code)
    ensures HasFormatter('w') && HasFormatter('j') && HasFormatter('U') && HasFormatter('W')
    ensures !HasRegex('w') && !HasRegex('j') && !HasRegex('U') && !HasRegex('W')
  {
    match code
    case 'a' => case 'A' => case 'd' => case 'b' => case 'B' => case 'm' => case 'y' =>
    case 'Y' => case 'H' => case 'I' => case 'p' => case 'M' => case 'S' => case 'f' =>
    case 'z' => case 'Z' => case 'c' => case 'x' => case 'X' => case '%' =>
    case _ =>
  }

  /** Atoi reads back what Numeric printed, padded or not. */
  lemma NumericDecodes(v: int, width: nat, noPad: bool)
    ensures Atoi(Numeric(v, width, noPad)) == (v, None)
  {
    if noPad {
      AtoiZeroPad(v, 0);
    } else {
      AtoiZeroPad(v, width);
    }
  }

  /** %d, %m, %H, %M, %S and %Y, padded or not, decode to the very field they printed,
      for any value of it. */
  lemma NumericRoundTrip(t: Timestamp, f: Fields, noPad: bool, tzdb: string -> bool)
    ensures Decode(f, 'd', DayOfMonth(t, noPad), tzdb) == (f.(day := t.day), None)
    ensures Decode(f, 'm', MonthNumber(t, noPad), tzdb) == (f.(month := t.month), None)
    ensures Decode(f, 'H', Hour24(t, noPad), tzdb) == (f.(hour := t.hour), None)
    ensures Decode(f, 'M', MinuteNumber(t, noPad), tzdb) == (f.(min := t.minute), None)
    ensures Decode(f, 'S', SecondNumber(t, noPad), tzdb) == (f.(sec := t.second), None)
    ensures Decode(f, 'Y', FullYear(t, noPad), tzdb) == (f.(year := t.year), None)
  {
    NumericDecodes(t.day, 2, noPad);
    DecodeNumber(f, DayOfMonth(t, noPad), t.day, tzdb);
    NumericDecodes(t.month, 2, noPad);
    DecodeNumber(f, MonthNumber(t, noPad), t.month, tzdb);
    NumericDecodes(t.hour, 2, noPad);
    DecodeNumber(f, Hour24(t, noPad), t.hour, tzdb);
    NumericDecodes(t.minute, 2, noPad);
    DecodeNumber(f, MinuteNumber(t, noPad), t.minute, tzdb);
    NumericDecodes(t.second, 2, noPad);
    DecodeNumber(f, SecondNumber(t, noPad), t.second, tzdb);
    NumericDecodes(t.year, 0, true);
    DecodeNumber(f, FullYear(t, noPad), t.year, tzdb);
  }

  /** The pivot at 70 maps the last two digits of a year into 1970..2069, and it is the
      identity on those years. */
  lemma Pivot(year: int, r: int)
    requires year >= 0 && r == year % 100
    ensures var y := if r < 70 then r + 2000 else r + 1900;
      1970 <= y < 2070 && y % 100 == r && (1970 <= year < 2070 ==> y == year)
  {
    assert (r + 2000) % 100 == r && (r + 1900) % 100 == r;
    if 1970 <= year < 2000 {
      assert year == 1900 + (year - 1900) && 70 <= year - 1900 < 100;
    } else if 2000 <= year < 2070 {
      assert year == 2000 + (year - 2000) && 0 <= year - 2000 < 70;
    }
  }

  /** %y gives back the year for the years 1970..2069 that the pivot covers, and maps
      every other non-negative year into that range with the same last two digits. */
  lemma ShortYearRoundTrip(t: Timestamp, f: Fields, noPad: bool, tzdb: string -> bool)
    requires t.year >= 0
    ensures var y := if t.year % 100 < 70 then t.year % 100 + 2000 else t.year % 100 + 1900;
      Decode(f, 'y', ShortYear(t, noPad), tzdb) == (f.(year := y), None) &&
      1970 <= y < 2070 && y % 100 == t.year % 100
    ensures 1970 <= t.year < 2070 ==> Decode(f, 'y', ShortYear(t, noPad), tzdb) == (f.(year := t.year), None)
  {
    var r := t.year % 100;
    assert GoRem100(t.year) == r;
    AtoiZeroPad(r, 2);
    DecodeNumber(f, ShortYear(t, noPad), r, tzdb);
    Pivot(t.year, r);
  }

  /** %b and %B decode to the month they printed. */
  lemma MonthNameRoundTrip(t: Timestamp, f: Fields, noPad: bool, tzdb: string -> bool)
    requires t.Valid()
    ensures Decode(f, 'b', ShortMonth(t, noPad), tzdb) == (f.(month := t.month), None)
    ensures Decode(f, 'B', LongMonth(t, noPad), tzdb) == (f.(month := t.month), None)
  {
    ShortMonthDecoder(f, t.month, tzdb);
    LongMonthDecoder(f, t.month, tzdb);
  }

  /** %f keeps the microseconds: what comes back is the nanoseconds truncated to a
      multiple of 1000. */
  lemma MicrosecondRoundTrip(t: Timestamp, f: Fields, noPad: bool, tzdb: string -> bool)
    requires t.Valid()
    ensures Decode(f, 'f', Microsecond(t, noPad), tzdb) == (f.(nsec := t.nanosecond / 1000 * 1000), None)
    ensures t.nanosecond - 1000 < t.nanosecond / 1000 * 1000 <= t.nanosecond
  {
    AtoiZeroPad(t.nanosecond / 1000, 6);
    DecodeNumber(f, Microsecond(t, noPad), t.nanosecond / 1000, tzdb);
  }

  /** %I followed by %p, then the PM correction, gives back every hour except 12, which
      prints as "00" with "AM" and so comes back as 0. */
  lemma TwelveHourRoundTrip(t: Timestamp, f: Fields, noPad: bool, tzdb: string -> bool)
    requires t.Valid()
    ensures var g := Decode(Decode(f, 'I', Hour12(t, noPad), tzdb).0, 'p', AmPm(t, noPad), tzdb).0;
      PmCorrected(g) == f.(hour := if t.hour == 12 then 0 else t.hour, pm := t.hour > 12)
  {
    var h := t.hour % 12;
    NumericDecodes(h, 2, noPad);
    DecodeNumber(f, Hour12(t, noPad), h, tzdb);
    var g := f.(hour := h);
    AmPmDecoder(g, AmPm(t, noPad), tzdb);
    var p := Decode(g, 'p', AmPm(t, noPad), tzdb).0;
    assert p == f.(hour := h, pm := t.hour > 12);
    if t.hour > 12 {
      assert h == t.hour - 12;
    } else if t.hour == 12 {
      assert h == 0;
    } else {
      assert h == t.hour;
    }
  }

  /** 2 PM prints "02" and "PM", and the two decode back to hour 14. */
  lemma AfternoonExample(t: Timestamp, f: Fields, tzdb: string -> bool)
    requires t.Valid() && t.hour == 14
    ensures Hour12(t, false) == "02" && AmPm(t, false) == "PM"
    ensures PmCorrected(Decode(Decode(f, 'I', "02", tzdb).0, 'p', "PM", tzdb).0).hour == 14
  {
    ZeroPadTwoDigits(2);
    TwelveHourRoundTrip(t, f, false, tzdb);
  }

  /** An unknown code fails both ways, with the error quoting the '%'. */
  lemma UnknownCodeBothWays(t: Timestamp)
    requires t.Valid()
    ensures Render(t, "%q") == Err(UnknownCode('%'))
    ensures Pattern("%q") == Err(UnknownCode('%'))
  {
    RenderUnknownCode(t, "", 'q', "");
    PatternUnknownCode("", 'q', "");
    assert "" + ['%', 'q'] + "" == "%q";
  }

  /** A capture for a numeric code whose text Atoi reads as a number stores it and hands
      the fields on to the rest of the captures. */
  lemma NumberCapture(f: Fields, code: char, text: string, n: int, rest: seq<Capture>, tzdb: string -> bool)
    requires code == 'Y' || code == 'm' || code == 'd' || code == 'H' || code == 'M' || code == 'S'
    requires Atoi(text) == (n, None)
    ensures var g := match code
        case 'Y' => f.(year := n) case 'm' => f.(month := n) case 'd' => f.(day := n)
        case 'H' => f.(hour := n) case 'M' => f.(min := n) case _ => f.(sec := n);
      ApplyAll(f, [Capture([code], text)] + rest, tzdb) == ApplyAll(g, rest, tzdb)
  {
    DecodeNumber(f, text, n, tzdb);
    ApplyAllStep(f, Capture([code], text), rest, tzdb);
  }

  /** Captures Y, m and d whose texts Atoi reads as numbers set the date fields. */
  lemma DateCaptures(f: Fields, y: string, mo: string, d: string, ny: int, nmo: int, nd: int,
                     tzdb: string -> bool)
    requires Atoi(y) == (ny, None) && Atoi(mo) == (nmo, None) && Atoi(d) == (nd, None)
    ensures ApplyAll(f, [Capture("Y", y), Capture("m", mo), Capture("d", d)], tzdb)
      == Ok(f.(year := ny, month := nmo, day := nd))
  {
    var c1, c2, c3 := Capture("Y", y), Capture("m", mo), Capture("d", d);
    var f1 := f.(year := ny);
    var f2 := f1.(month := nmo);
    assert ApplyAll(f2.(day := nd), [], tzdb) == Ok(f2.(day := nd));
    NumberCapture(f2, 'd', d, nd, [], tzdb);
    assert [c3] + [] == [c3];
    NumberCapture(f1, 'm', mo, nmo, [c3], tzdb);
    assert [c2] + [c3] == [c2, c3];
    NumberCapture(f, 'Y', y, ny, [c2, c3], tzdb);
    assert [c1] + [c2, c3] == [c1, c2, c3];
  }

  /** Captures H, M and S whose texts Atoi reads as numbers set the time fields. */
  lemma TimeCaptures(f: Fields, h: string, mi: string, s: string, nh: int, nmi: int, ns: int,
                     tzdb: string -> bool)
    requires Atoi(h) == (nh, None) && Atoi(mi) == (nmi, None) && Atoi(s) == (ns, None)
    ensures ApplyAll(f, [Capture("H", h), Capture("M", mi), Capture("S", s)], tzdb)
      == Ok(f.(hour := nh, min := nmi, sec := ns))
  {
    var c1, c2, c3 := Capture("H", h), Capture("M", mi), Capture("S", s);
    var f1 := f.(hour := nh);
    var f2 := f1.(min := nmi);
    assert ApplyAll(f2.(sec := ns), [], tzdb) == Ok(f2.(sec := ns));
    NumberCapture(f2, 'S', s, ns, [], tzdb);
    assert [c3] + [] == [c3];
    NumberCapture(f1, 'M', mi, nmi, [c3], tzdb);
    assert [c2] + [c3] == [c2, c3];
    NumberCapture(f, 'H', h, nh, [c2, c3], tzdb);
    assert [c1] + [c2, c3] == [c1, c2, c3];
  }

  /** Six captures Y, m, d, H, M and S whose texts Atoi reads as numbers set exactly those
      six fields. */
  lemma NumericCaptures(f: Fields, y: string, mo: string, d: string, h: string, mi: string, s: string,
                        ny: int, nmo: int, nd: int, nh: int, nmi: int, ns: int, tzdb: string -> bool)
    requires Atoi(y) == (ny, None) && Atoi(mo) == (nmo, None) && Atoi(d) == (nd, None)
    requires Atoi(h) == (nh, None) && Atoi(mi) == (nmi, None) && Atoi(s) == (ns, None)
    ensures ApplyAll(f, [Capture("Y", y), Capture("m", mo), Capture("d", d),
                         Capture("H", h), Capture("M", mi), Capture("S", s)], tzdb)
      == Ok(f.(year := ny, month := nmo, day := nd, hour := nh, min := nmi, sec := ns))
  {
    var date := [Capture("Y", y), Capture("m", mo), Capture("d", d)];
    var time := [Capture("H", h), Capture("M", mi), Capture("S", s)];
    DateCaptures(f, y, mo, d, ny, nmo, nd, tzdb);
    TimeCaptures(f.(year := ny, month := nmo, day := nd), h, mi, s, nh, nmi, ns, tzdb);
    ApplyAllAppend(f, date, time, tzdb);
    assert date + time == [Capture("Y", y), Capture("m", mo), Capture("d", d),
                           Capture("H", h), Capture("M", mi), Capture("S", s)];
  }

  /** Captures named Y, m, d, H, M and S, in that order, holding what the six numeric
      formatters print for a timestamp, set exactly those six fields of any starting
      fields and nothing else; IsoRoundTrip puts this to work for IsoFormat. */
  lemma RenderedFieldsParseBack(t: Timestamp, f: Fields, noPad: bool, tzdb: string -> bool)
    ensures ApplyAll(f, [Capture("Y", FullYear(t, noPad)), Capture("m", MonthNumber(t, noPad)),
                         Capture("d", DayOfMonth(t, noPad)), Capture("H", Hour24(t, noPad)),
                         Capture("M", MinuteNumber(t, noPad)), Capture("S", SecondNumber(t, noPad))], tzdb)
      == Ok(f.(year := t.year, month := t.month, day := t.day, hour := t.hour, min := t.minute, sec := t.second))
  {
    NumericDecodes(t.year, 0, true);
    NumericDecodes(t.month, 2, noPad);
    NumericDecodes(t.day, 2, noPad);
    NumericDecodes(t.hour, 2, noPad);
    NumericDecodes(t.minute, 2, noPad);
    NumericDecodes(t.second, 2, noPad);
    NumericCaptures(f, FullYear(t, noPad), MonthNumber(t, noPad), DayOfMonth(t, noPad),
                    Hour24(t, noPad), MinuteNumber(t, noPad), SecondNumber(t, noPad),
                    t.year, t.month, t.day, t.hour, t.minute, t.second, tzdb);
  }

  /** A directive followed by one plain character renders as the formatter's text and
      that character, ahead of whatever the rest of the format renders to. */
  lemma RenderDirectiveThen(t: Timestamp, code: char, s: string, sep: char, q: string, rest: string)
    requires t.Valid() && code != '-' && sep != '%' && Formatter(t, code, false) == Some(s)
    requires Render(t, q) == Ok(rest)
    ensures Render(t, ['%', code, sep] + q) == Ok(s + [sep] + rest)
  {
    assert ['%', code, sep] + q == ['%', code] + ([sep] + q);
    RenderDirective(t, code, [sep] + q);
    RenderLiteralRun(t, [sep], q);
    PrefixedTwice(s, [sep], Render(t, q));
  }

  /** The same for the input pattern: the code's fragment, then the character as it is. */
  lemma PatternDirectiveThen(code: char, p: string, sep: char, q: string, rest: string)
    requires code != '-' && sep != '%' && InputRegex(code) == Some(p)
    requires Pattern(q) == Ok(rest)
    ensures Pattern(['%', code, sep] + q) == Ok(p + [sep] + rest)
  {
    assert ['%', code, sep] + q == ['%', code] + ([sep] + q);
    PatternDirective(code, [sep] + q);
    PatternLiteralRun([sep], q);
    PrefixedTwice(p, [sep], Pattern(q));
  }

  /** IsoFormat as five directive-and-separator pieces and a closing directive. */
  lemma IsoFormatPieces()
    ensures IsoFormat == ['%', 'Y', '-'] + (['%', 'm', '-'] + (['%', 'd', 'T'] +
      (['%', 'H', ':'] + (['%', 'M', ':'] + (['%', 'S'] + "")))))
  {
  }

  /** Six texts joined by five separators, grouped from the right or from the left. */
  lemma JoinSix(y: string, m: string, d: string, h: string, mi: string, s: string)
    ensures y + "-" + (m + "-" + (d + "T" + (h + ":" + (mi + ":" + s)))) ==
            y + "-" + m + "-" + d + "T" + h + ":" + mi + ":" + s
  {
  }

  /** The ISO-style format of the package's own examples. */
  const IsoFormat := "%Y-%m-%dT%H:%M:%S"

  /** The text IsoFormat stands for: the six numeric fields with their separators. */
  function IsoText(t: Timestamp): string
  {
    FullYear(t, false) + "-" + MonthNumber(t, false) + "-" + DayOfMonth(t, false) + "T" +
    Hour24(t, false) + ":" + MinuteNumber(t, false) + ":" + SecondNumber(t, false)
  }

  /** The pattern IsoFormat stands for: six groups named by their codes, with the same
      separators. */
  const IsoPattern :=
    Group('Y', "[0-9]{4}") + "-" + Group('m', "[0-9]{1,2}") + "-" + Group('d', "[0-9]{1,2}") + "T" +
    Group('H', "[0-9]{1,2}") + ":" + Group('M', "[0-9]{1,2}") + ":" + Group('S', "[0-9]{1,2}")

  /** The captures a match of IsoPattern against IsoText(t) hands over, in group order. */
  function IsoCaptures(t: Timestamp): seq<Capture>
  {
    [Capture("Y", FullYear(t, false)), Capture("m", MonthNumber(t, false)),
     Capture("d", DayOfMonth(t, false)), Capture("H", Hour24(t, false)),
     Capture("M", MinuteNumber(t, false)), Capture("S", SecondNumber(t, false))]
  }

  /** Strftime with IsoFormat prints the six fields, each directive by its formatter,
      with the literal separators copied between them. */
  lemma IsoFormatRenders(t: Timestamp)
    requires t.Valid()
    ensures Render(t, IsoFormat) == Ok(IsoText(t))
  {
    DateEntries(t);
    TimeEntries(t);
    IsoRenderChain(t, FullYear(t, false), MonthNumber(t, false), DayOfMonth(t, false),
                   Hour24(t, false), MinuteNumber(t, false), SecondNumber(t, false));
  }

  /** The output table's entries for the numeric date codes. */
  lemma DateEntries(t: Timestamp)
    requires t.Valid()
    ensures Formatter(t, 'Y', false) == Some(FullYear(t, false))
    ensures Formatter(t, 'm', false) == Some(MonthNumber(t, false))
    ensures Formatter(t, 'd', false) == Some(DayOfMonth(t, false))
  {
  }

  /** The output table's entries for the numeric time-of-day codes. */
  lemma TimeEntries(t: Timestamp)
    requires t.Valid()
    ensures Formatter(t, 'H', false) == Some(Hour24(t, false))
    ensures Formatter(t, 'M', false) == Some(MinuteNumber(t, false))
    ensures Formatter(t, 'S', false) == Some(SecondNumber(t, false))
  {
  }

  /** IsoFormatRenders over the six formatter texts, whatever they are. */
  lemma IsoRenderChain(t: Timestamp, y: string, m: string, d: string, h: string, mi: string, sec: string)
    requires t.Valid()
    requires Formatter(t, 'Y', false) == Some(y) && Formatter(t, 'm', false) == Some(m)
    requires Formatter(t, 'd', false) == Some(d) && Formatter(t, 'H', false) == Some(h)
    requires Formatter(t, 'M', false) == Some(mi) && Formatter(t, 'S', false) == Some(sec)
    ensures Render(t, IsoFormat) == Ok(y + "-" + m + "-" + d + "T" + h + ":" + mi + ":" + sec)
  {
    var qS := ['%', 'S'] + "";
    var qM := ['%', 'M', ':'] + qS;
    var qH := ['%', 'H', ':'] + qM;
    var qd := ['%', 'd', 'T'] + qH;
    var qm := ['%', 'm', '-'] + qd;
    IsoFormatPieces();
    RenderWithoutMarker(t, "");
    RenderDirective(t, 'S', "");
    assert sec + "" == sec;
    RenderDirectiveThen(t, 'M', mi, ':', qS, sec);
    RenderDirectiveThen(t, 'H', h, ':', qM, mi + ":" + sec);
    RenderDirectiveThen(t, 'd', d, 'T', qH, h + ":" + (mi + ":" + sec));
    RenderDirectiveThen(t, 'm', m, '-', qd, d + "T" + (h + ":" + (mi + ":" + sec)));
    RenderDirectiveThen(t, 'Y', y, '-', qm, m + "-" + (d + "T" + (h + ":" + (mi + ":" + sec))));
    JoinSix(y, m, d, h, mi, sec);
  }

  /** BuildRegexp with IsoFormat gives IsoPattern. */
  lemma IsoFormatPattern()
    ensures Pattern(IsoFormat) == Ok(IsoPattern)
  {
    IsoPatternChain(Group('Y', "[0-9]{4}"), Group('m', "[0-9]{1,2}"), Group('d', "[0-9]{1,2}"),
                    Group('H', "[0-9]{1,2}"), Group('M', "[0-9]{1,2}"), Group('S', "[0-9]{1,2}"));
  }

  /** IsoFormatPattern over the six fragments, whatever they are. */
  lemma IsoPatternChain(y: string, m: string, d: string, h: string, mi: string, sec: string)
    requires InputRegex('Y') == Some(y) && InputRegex('m') == Some(m) && InputRegex('d') == Some(d)
    requires InputRegex('H') == Some(h) && InputRegex('M') == Some(mi) && InputRegex('S') == Some(sec)
    ensures Pattern(IsoFormat) == Ok(y + "-" + m + "-" + d + "T" + h + ":" + mi + ":" + sec)
  {
    var qS := ['%', 'S'] + "";
    var qM := ['%', 'M', ':'] + qS;
    var qH := ['%', 'H', ':'] + qM;
    var qd := ['%', 'd', 'T'] + qH;
    var qm := ['%', 'm', '-'] + qd;
    IsoFormatPieces();
    PatternWithoutMarker("");
    PatternDirective('S', "");
    assert sec + "" == sec;
    PatternDirectiveThen('M', mi, ':', qS, sec);
    PatternDirectiveThen('H', h, ':', qM, mi + ":" + sec);
    PatternDirectiveThen('d', d, 'T', qH, h + ":" + (mi + ":" + sec));
    PatternDirectiveThen('m', m, '-', qd, d + "T" + (h + ":" + (mi + ":" + sec)));
    PatternDirectiveThen('Y', y, '-', qm, m + "-" + (d + "T" + (h + ":" + (mi + ":" + sec))));
    JoinSix(y, m, d, h, mi, sec);
  }

  /** Strftime then Strptime with IsoFormat: rendering t gives IsoText(t), the pattern is
      IsoPattern, and whenever the regular-expression engine matches IsoPattern against
      IsoText(t) with the six rendered texts, Strptime hands time.Date t's date and time
      of day in UTC, with no fraction of a second. */
  lemma IsoRoundTrip(t: Timestamp, engine: (string, string) -> Search, tzdb: string -> bool)
    requires t.Valid()
    requires engine(IsoPattern, IsoText(t)) == Matched(IsoCaptures(t))
    ensures Render(t, IsoFormat) == Ok(IsoText(t))
    ensures Pattern(IsoFormat) == Ok(IsoPattern)
    ensures Parse(IsoText(t), IsoFormat, engine, tzdb) ==
      Ok(Fields(t.year, t.month, t.day, t.hour, t.minute, t.second, 0, Some(UTC), false))
  {
    IsoFormatRenders(t);
    IsoFormatPattern();
    RenderedFieldsParseBack(t, Start(tzdb), false, tzdb);
  }

  /** "%d" of 2016. */
  lemma YearText()
    ensures ZeroPad(2016, 0) == "2016"
  {
    assert Digits(2) == "2";
    assert Digits(20) == "20";
    assert Digits(201) == "201";
    assert Digits(2016) == "2016";
    assert Zeros(0) == "";
  }

  /** The package's own example, 2016-09-22 14:04:26 UTC: whatever the weekday, day of
      the year, week, zone and fraction of a second, IsoFormat renders it as
      "2016-09-22T14:04:26". */
  lemma IsoExample(t: Timestamp)
    requires t.Valid()
    requires t.year == 2016 && t.month == 9 && t.day == 22
    requires t.hour == 14 && t.minute == 4 && t.second == 26
    ensures Render(t, IsoFormat) == Ok("2016-09-22T14:04:26")
  {
    IsoFormatRenders(t);
    IsoExampleText(t);
  }

  /** The six field texts of the example joined by IsoFormat's separators. */
  lemma IsoExampleText(t: Timestamp)
    requires t.year == 2016 && t.month == 9 && t.day == 22
    requires t.hour == 14 && t.minute == 4 && t.second == 26
    ensures IsoText(t) == "2016-09-22T14:04:26"
  {
    YearText();
    ZeroPadTwoDigits(9);
    ZeroPadTwoDigits(22);
    ZeroPadTwoDigits(14);
    ZeroPadTwoDigits(4);
    ZeroPadTwoDigits(26);
  }
}
