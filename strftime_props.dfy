/** What rendering promises: the shape of the output as a function of the format, and
    the text of each directive. */
module FormattingProperties {
  import opened Outcomes
  import opened Decimal
  import opened Names
  import opened Scanner
  import opened Formatting

  /** Rendering is compositional: the output of a token sequence is the output of its
      first part followed by that of the rest, and the first error wins. */
  lemma {:induction false} RenderAppend(t: Timestamp, a: seq<Token>, b: seq<Token>)
    requires t.Valid()
    ensures RenderTokens(t, a + b) == Then(RenderTokens(t, a), RenderTokens(t, b))
    decreases |a|
  {
    if a == [] {
      assert a + b == b;
      var r := RenderTokens(t, b);
      if r.Ok? { assert "" + r.value == r.value; }
    } else {
      assert (a + b)[0] == a[0] && (a + b)[1..] == a[1..] + b;
      RenderAppend(t, a[1..], b);
      var tail := RenderTokens(t, a[1..]);
      if tail.Ok? {
        match a[0]
        case Literal(c) =>
          PrefixedTwice([c], tail.value, RenderTokens(t, b));
        case Directive(code, noPad, marker) =>
          if Formatter(t, code, noPad).Some? {
            PrefixedTwice(Formatter(t, code, noPad).value, tail.value, RenderTokens(t, b));
          }
      }
    }
  }

  lemma {:induction false} RenderLiterals(t: Timestamp, s: string)
    requires t.Valid()
    ensures RenderTokens(t, Literals(s)) == Ok(s)
    decreases |s|
  {
    if s != [] {
      RenderLiterals(t, s[1..]);
      assert [s[0]] + s[1..] == s;
    }
  }

  /** Bytes before the first '%' are copied to the output unchanged. */
  lemma RenderLiteralRun(t: Timestamp, p: string, q: string)
    requires t.Valid() && '%' !in p
    ensures Render(t, p + q) == Prefixed(p, Render(t, q))
  {
    ScanLiteralRun(p, q);
    RenderAppend(t, Literals(p), Scan(q));
    RenderLiterals(t, p);
  }

  /** A format without '%' renders to itself. */
  lemma RenderWithoutMarker(t: Timestamp, f: string)
    requires t.Valid() && '%' !in f
    ensures Render(t, f) == Ok(f)
  {
    RenderLiteralRun(t, f, "");
    assert f + "" == f;
  }

  /** A '%' as the last byte is written as '%'; a "%-" at the end is written as "-". */
  lemma RenderTrailingMarker(t: Timestamp, p: string)
    requires t.Valid() && '%' !in p
    ensures Render(t, p + "%") == Ok(p + "%")
    ensures Render(t, p + "%-") == Ok(p + "-")
  {
    ScanTrailingMarker(p);
    RenderAppend(t, Literals(p), [Literal('%')]);
    RenderAppend(t, Literals(p), [Literal('-')]);
    RenderLiterals(t, p);
    assert "%" + "" == "%" && "-" + "" == "-";
  }

  /** A directive without flag hands the formatter noPad = false; an unknown code is an
      error quoting the '%'. */
  lemma RenderDirective(t: Timestamp, code: char, q: string)
    requires t.Valid() && code != '-'
    ensures Render(t, ['%', code] + q) ==
      match Formatter(t, code, false)
      case None => Err(UnknownCode('%'))
      case Some(s) => Prefixed(s, Render(t, q))
  {
    ScanDirective(code, q);
  }

  /** A directive with the '-' flag hands the formatter noPad = true; an unknown code is
      an error quoting the '-', not the code. */
  lemma RenderFlaggedDirective(t: Timestamp, code: char, q: string)
    requires t.Valid()
    ensures Render(t, ['%', '-', code] + q) ==
      match Formatter(t, code, true)
      case None => Err(UnknownCode('-'))
      case Some(s) => Prefixed(s, Render(t, q))
  {
    ScanFlaggedDirective(code, q);
  }

  /** The output table has an entry for exactly these 24 codes. */
  lemma FormatterDomain(t: Timestamp, code: char, noPad: bool)
    requires t.Valid()
    ensures Formatter(t, code, noPad).Some? <==> HasFormatter(code)
  {
  }

  /** An unknown code anywhere after a literal run makes the whole rendering fail: all or
      nothing, with the marker byte in the error. */
  lemma RenderUnknownCode(t: Timestamp, p: string, code: char, q: string)
    requires t.Valid() && '%' !in p && !HasFormatter(code) && code != '-'
    ensures Render(t, p + ['%', code] + q) == Err(UnknownCode('%'))
    ensures Render(t, p + ['%', '-', code] + q) == Err(UnknownCode('-'))
  {
    FormatterDomain(t, code, false);
    FormatterDomain(t, code, true);
    assert p + ['%', code] + q == p + (['%', code] + q);
    assert p + ['%', '-', code] + q == p + (['%', '-', code] + q);
    RenderLiteralRun(t, p, ['%', code] + q);
    RenderLiteralRun(t, p, ['%', '-', code] + q);
    RenderDirective(t, code, q);
    RenderFlaggedDirective(t, code, q);
  }

  /** "%0<w>d" of a number with at most w digits is exactly w digits; "%d" is the digits
      without any leading zero. Both denote the number. */
  lemma NumericForms(v: nat, width: nat)
    requires 1 <= width && v < Pow10(width)
    ensures var padded := Numeric(v, width, false);
      |padded| == width && AllDigits(padded) && DigitsValue(padded) == v
    ensures var plain := Numeric(v, width, true);
      1 <= |plain| <= width && AllDigits(plain) && DigitsValue(plain) == v &&
      (plain[0] == '0' ==> plain == "0")
  {
    ZeroPadWidth(v, width);
    DigitsLength(v, width);
  }

  /** The two forms of a number below 100 that %d, %m, %H, %M and %S print: exactly two
      digits, or with the flag one digit below 10 and no leading zero. */
  lemma TwoDigitForms(v: nat, noPad: bool)
    requires v < 100
    ensures var s := Numeric(v, 2, noPad);
      AllDigits(s) && DigitsValue(s) == v &&
      (!noPad ==> |s| == 2) &&
      (noPad ==> (|s| == 1 <==> v < 10) && (s[0] == '0' ==> v == 0))
  {
    NumericForms(v, 2);
    if noPad {
      assert Numeric(v, 2, noPad) == Digits(v);
      SingleDigit(v);
    }
  }

  /** %j is the day of the year in exactly three digits, or unpadded with the flag. */
  lemma DayOfYearDirective(t: Timestamp, noPad: bool)
    requires t.Valid()
    ensures var s := DayOfYear(t, noPad);
      AllDigits(s) && DigitsValue(s) == t.yearDay &&
      (!noPad ==> |s| == 3) && (noPad ==> |s| <= 3 && s[0] != '0')
  {
    NumericForms(t.yearDay, 3);
  }

  /** %Y is the plain decimal year; %y is the year modulo 100 (Go's truncating `%`) in
      two digits; neither looks at the flag. */
  lemma YearDirectives(t: Timestamp)
    ensures FullYear(t, true) == FullYear(t, false)
    ensures ShortYear(t, true) == ShortYear(t, false)
    ensures Atoi(FullYear(t, false)) == (t.year, None)
    ensures Atoi(ShortYear(t, false)) == (GoRem100(t.year), None)
    ensures t.year >= 0 ==>
      var s := ShortYear(t, false);
      |s| == 2 && AllDigits(s) && DigitsValue(s) == t.year % 100
  {
    AtoiZeroPad(t.year, 0);
    AtoiZeroPad(GoRem100(t.year), 2);
    if t.year >= 0 {
      ZeroPadWidth(t.year % 100, 2);
    }
  }

  /** %I is the hour modulo 12 in two digits, so hours 0 and 12 both print "00". */
  lemma TwelveHourDirective(t: Timestamp)
    requires t.Valid()
    ensures var s := Hour12(t, false);
      |s| == 2 && AllDigits(s) && DigitsValue(s) == t.hour % 12
    ensures t.hour == 0 || t.hour == 12 ==> Hour12(t, false) == "00"
  {
    var h := t.hour % 12;
    assert Hour12(t, false) == ZeroPad(h, 2);
    ZeroPadWidth(h, 2);
    if t.hour == 0 || t.hour == 12 {
      assert h == 0;
      ZeroPadTwoDigits(0);
    }
  }

  /** %p is "PM" exactly when the hour is past 12, so 12 o'clock prints "AM"; it ignores
      the flag. */
  lemma AmPmDirective(t: Timestamp, noPad: bool)
    ensures AmPm(t, noPad) == AmPm(t, !noPad)
    ensures AmPm(t, noPad) == "PM" <==> t.hour > 12
    ensures AmPm(t, noPad) == "PM" || AmPm(t, noPad) == "AM"
  {
  }

  /** %f is the nanoseconds divided by 1000, in exactly six digits. */
  lemma MicrosecondDirective(t: Timestamp, noPad: bool)
    requires t.Valid()
    ensures var s := Microsecond(t, noPad);
      |s| == 6 && AllDigits(s) && DigitsValue(s) == t.nanosecond / 1000
  {
    ZeroPadWidth(t.nanosecond / 1000, 6);
  }

  /** %z is a sign ('+' for offsets of zero and above), the whole hours of the absolute
      offset in two digits, and that offset modulo 60 in two digits. */
  lemma OffsetDirective(t: Timestamp, noPad: bool)
    requires -360_000 < t.zoneOffset < 360_000
    ensures var s := UtcOffset(t, noPad);
      var o := if t.zoneOffset >= 0 then t.zoneOffset else -t.zoneOffset;
      |s| == 5 && (s[0] == '+' <==> t.zoneOffset >= 0) && (s[0] == '+' || s[0] == '-') &&
      AllDigits(s[1..3]) && DigitsValue(s[1..3]) == o / 3600 &&
      AllDigits(s[3..]) && DigitsValue(s[3..]) == o % 60
  {
    var o: nat := if t.zoneOffset >= 0 then t.zoneOffset else -t.zoneOffset;
    ZeroPadWidth(o / 3600, 2);
    ZeroPadWidth(o % 60, 2);
    var sign := if t.zoneOffset >= 0 then "+" else "-";
    var s := sign + ZeroPad(o / 3600, 2) + ZeroPad(o % 60, 2);
    assert s[1..3] == ZeroPad(o / 3600, 2);
    assert s[3..] == ZeroPad(o % 60, 2);
  }

  /** Because the last two digits are the seconds remainder, an offset of +05:30 prints
      as "+0500" and one of -01:00:30 as "-0130". */
  lemma OffsetUsesSecondsRemainder(t: Timestamp)
    ensures t.zoneOffset == 19_800 ==> UtcOffset(t, false) == "+0500"
    ensures t.zoneOffset == -3_630 ==> UtcOffset(t, false) == "-0130"
  {
    if t.zoneOffset == 19_800 {
      assert 19_800 / 3600 == 5 && 19_800 % 60 == 0;
      ZeroPadTwoDigits(5);
      ZeroPadTwoDigits(0);
      assert UtcOffset(t, false) == "+" + ZeroPad(5, 2) + ZeroPad(0, 2);
    }
    if t.zoneOffset == -3_630 {
      assert 3_630 / 3600 == 1 && 3_630 % 60 == 30;
      ZeroPadTwoDigits(1);
      ZeroPadTwoDigits(30);
      assert UtcOffset(t, false) == "-" + ZeroPad(1, 2) + ZeroPad(30, 2);
    }
  }

  /** Three two-character fields joined by a separator, and where each one sits. */
  lemma JoinedPairs(a: string, b: string, c: string, sep: string)
    requires |a| == 2 && |b| == 2 && |c| == 2 && |sep| == 1
    ensures var s := a + sep + b + sep + c;
      |s| == 8 && s[2] == sep[0] && s[5] == sep[0] && s[..2] == a && s[3..5] == b && s[6..] == c
  {
    var s := a + sep + b + sep + c;
    assert s[..2] == a && s[3..5] == b && s[6..] == c;
  }

  /** %X is three two-digit fields separated by ':'. */
  lemma LocaleTimeShape(t: Timestamp)
    requires t.Valid()
    ensures var s := LocaleTime(t, false);
      |s| == 8 && s[2] == ':' && s[5] == ':' &&
      s[..2] == Hour24(t, false) && s[3..5] == MinuteNumber(t, false) && s[6..] == SecondNumber(t, false)
  {
    ZeroPadWidth(t.hour, 2);
    ZeroPadWidth(t.minute, 2);
    ZeroPadWidth(t.second, 2);
    JoinedPairs(Hour24(t, false), MinuteNumber(t, false), SecondNumber(t, false), ":");
  }

  /** %x, for a year of zero or above, is three two-digit fields separated by '/'. */
  lemma LocaleDateShape(t: Timestamp)
    requires t.Valid() && t.year >= 0
    ensures var s := LocaleDate(t, false);
      |s| == 8 && s[2] == '/' && s[5] == '/' &&
      s[..2] == MonthNumber(t, false) && s[3..5] == DayOfMonth(t, false) && s[6..] == ShortYear(t, false)
  {
    ZeroPadWidth(t.month, 2);
    ZeroPadWidth(t.day, 2);
    assert GoRem100(t.year) == t.year % 100;
    ZeroPadWidth(t.year % 100, 2);
    JoinedPairs(MonthNumber(t, false), DayOfMonth(t, false), ShortYear(t, false), "/");
  }

  /** %% prints one '%'. */
  lemma PercentDirective(t: Timestamp, q: string)
    requires t.Valid()
    ensures Render(t, "%%" + q) == Prefixed("%", Render(t, q))
  {
    RenderDirective(t, '%', q);
  }
}
