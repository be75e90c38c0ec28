/** What parsing promises: the shape of the pattern as a function of the format, what
    each decoder does to the fields, and how the capture loop combines them. */
module ParsingProperties {
  import opened Outcomes
  import opened Decimal
  import opened Names
  import opened Scanner
  import opened Parsing

  // The pattern builder.

  /** The pattern of a token sequence is the pattern of its first part followed by that
      of the rest, and the first unknown code wins. */
  lemma {:induction false} PatternAppend(a: seq<Token>, b: seq<Token>)
    ensures PatternTokens(a + b) == Then(PatternTokens(a), PatternTokens(b))
    decreases |a|
  {
    if a == [] {
      assert a + b == b;
      var r := PatternTokens(b);
      if r.Ok? { assert "" + r.value == r.value; }
    } else {
      assert (a + b)[0] == a[0] && (a + b)[1..] == a[1..] + b;
      PatternAppend(a[1..], b);
      var tail := PatternTokens(a[1..]);
      if tail.Ok? {
        match a[0]
        case Literal(c) =>
          PrefixedTwice([c], tail.value, PatternTokens(b));
        case Directive(code, _, _) =>
          if InputRegex(code).Some? {
            PrefixedTwice(InputRegex(code).value, tail.value, PatternTokens(b));
          }
      }
    }
  }

  lemma {:induction false} PatternLiterals(s: string)
    ensures PatternTokens(Literals(s)) == Ok(s)
    decreases |s|
  {
    if s != [] {
      PatternLiterals(s[1..]);
      assert [s[0]] + s[1..] == s;
    }
  }

  /** Bytes before the first '%' are copied into the pattern as they are. */
  lemma PatternLiteralRun(p: string, q: string)
    requires '%' !in p
    ensures Pattern(p + q) == Prefixed(p, Pattern(q))
  {
    ScanLiteralRun(p, q);
    PatternAppend(Literals(p), Scan(q));
    PatternLiterals(p);
  }

  /** A format without '%' is its own pattern: its bytes are not escaped, so a '.' or a
      '(' in it keeps its regular-expression meaning. */
  lemma PatternWithoutMarker(f: string)
    requires '%' !in f
    ensures Pattern(f) == Ok(f)
  {
    PatternLiteralRun(f, "");
    assert f + "" == f;
  }

  /** A directive contributes its code's fragment; an unknown code is an error quoting
      the '%'. */
  lemma PatternDirective(code: char, q: string)
    requires code != '-'
    ensures Pattern(['%', code] + q) ==
      match InputRegex(code)
      case None => Err(UnknownCode('%'))
      case Some(p) => Prefixed(p, Pattern(q))
  {
    ScanDirective(code, q);
  }

  /** The '-' flag is read and then ignored: "%-c" gives the pattern "%c" gives, except
      that an unknown code's error quotes the '-'. */
  lemma PatternFlagIgnored(code: char, q: string)
    requires code != '-'
    ensures InputRegex(code).Some? ==> Pattern(['%', '-', code] + q) == Pattern(['%', code] + q)
    ensures InputRegex(code).None? ==> Pattern(['%', '-', code] + q) == Err(UnknownCode('-'))
  {
    ScanDirective(code, q);
    ScanFlaggedDirective(code, q);
  }

  /** The input table has an entry for exactly these 20 codes: not for %w, %j, %U and
      %W, although Strftime prints them. */
  lemma RegexDomain(code: char)
    ensures InputRegex(code).Some? <==> HasRegex(code)
  {
    match code
    case 'a' | 'A' | 'd' | 'b' | 'B' | 'm' | 'y' | 'Y' | 'H' | 'I' | 'p' | 'M' | 'S' | 'f' | 'z' | 'Z' | 'c' | 'x' | 'X' | '%' =>
    case _ =>
  }

  /** %% contributes nothing to the pattern, not even a '%'. */
  lemma PatternPercent(q: string)
    ensures Pattern("%%" + q) == Pattern(q)
  {
    PatternDirective('%', q);
    var r := Pattern(q);
    if r.Ok? { assert "" + r.value == r.value; }
  }

  /** A code without an input fragment anywhere after a literal run leaves no pattern at
      all, only the error. */
  lemma PatternUnknownCode(p: string, code: char, q: string)
    requires '%' !in p && !HasRegex(code) && code != '-'
    ensures Pattern(p + ['%', code] + q) == Err(UnknownCode('%'))
    ensures Pattern(p + ['%', '-', code] + q) == Err(UnknownCode('-'))
  {
    RegexDomain(code);
    assert p + ['%', code] + q == p + (['%', code] + q);
    assert p + ['%', '-', code] + q == p + (['%', '-', code] + q);
    PatternLiteralRun(p, ['%', code] + q);
    PatternLiteralRun(p, ['%', '-', code] + q);
    PatternDirective(code, q);
    PatternFlagIgnored(code, q);
  }

  /** A single-field fragment is one group named by its own code. */
  lemma FragmentGroupNames(code: char)
    requires FieldRegex(code).Some?
    ensures InputRegex(code) == Some(Group(code, FieldRegex(code).value))
  {
  }

  /** Every code with a decoder has a single-field fragment, so what its group captures
      comes back to that code's decoder; %a and %A have single-field fragments too, but
      no decoder. */
  lemma DecodersHaveFields(code: char)
    ensures HasDecoder(code) ==> FieldRegex(code).Some?
    ensures FieldRegex('a').Some? && FieldRegex('A').Some? && !HasDecoder('a') && !HasDecoder('A')
  {
  }

  /** The %c fragment opens with the group named "a", which has no decoder. */
  lemma CompositeFragmentOpensWithA()
    ensures InputRegex('c').Some? && Group('a', DayAbbrevs) <= InputRegex('c').value
    ensures InputRegex('c').value[..6] == "(?P<a>" && !HasDecoder('a')
  {
  }

  // The decoders.

  /** The decoder table has an entry for exactly these 14 codes, every one of them in the
      input table; a code without decoder fails and leaves the fields alone. */
  lemma DecodeDomain(f: Fields, code: char, val: string, tzdb: string -> bool)
    ensures Decode(f, code, val, tzdb).1 == Some(InvalidDirective(code)) <==> !HasDecoder(code)
    ensures !HasDecoder(code) ==> Decode(f, code, val, tzdb).0 == f
    ensures HasDecoder(code) ==> HasRegex(code)
  {
    var r := Decode(f, code, val, tzdb);
    if HasDecoder(code) {
      assert r.1 != Some(InvalidDirective(code)) by {
        if code == 'Z' {
          assert r.1.None? || r.1 == Some(UnknownTimeZone(val));
        }
      }
    }
  }

  /** The numeric decoders store the number Atoi read from the text: %f scaled by 1000,
      %y pivoted, the others as they are. */
  lemma DecodeNumber(f: Fields, val: string, n: int, tzdb: string -> bool)
    requires Atoi(val) == (n, None)
    ensures Decode(f, 'd', val, tzdb) == (f.(day := n), None)
    ensures Decode(f, 'm', val, tzdb) == (f.(month := n), None)
    ensures Decode(f, 'y', val, tzdb) == (f.(year := if n < 70 then n + 2000 else n + 1900), None)
    ensures Decode(f, 'Y', val, tzdb) == (f.(year := n), None)
    ensures Decode(f, 'H', val, tzdb) == (f.(hour := n), None)
    ensures Decode(f, 'I', val, tzdb) == (f.(hour := n), None)
    ensures Decode(f, 'M', val, tzdb) == (f.(min := n), None)
    ensures Decode(f, 'S', val, tzdb) == (f.(sec := n), None)
    ensures Decode(f, 'f', val, tzdb) == (f.(nsec := n * 1000), None)
  {
  }

  /** On text Atoi rejects, every numeric decoder fails with Atoi's error; all but %m
      have already stored Atoi's 0 (so %y has stored 2000), while %m leaves the month
      alone. */
  lemma DecodeBadNumber(f: Fields, val: string, tzdb: string -> bool)
    requires Atoi(val).1.Some?
    ensures Decode(f, 'd', val, tzdb) == (f.(day := 0), Some(AtoiSyntax(val)))
    ensures Decode(f, 'm', val, tzdb) == (f, Some(AtoiSyntax(val)))
    ensures Decode(f, 'y', val, tzdb) == (f.(year := 2000), Some(AtoiSyntax(val)))
    ensures Decode(f, 'Y', val, tzdb) == (f.(year := 0), Some(AtoiSyntax(val)))
    ensures Decode(f, 'H', val, tzdb) == (f.(hour := 0), Some(AtoiSyntax(val)))
    ensures Decode(f, 'I', val, tzdb) == (f.(hour := 0), Some(AtoiSyntax(val)))
    ensures Decode(f, 'M', val, tzdb) == (f.(min := 0), Some(AtoiSyntax(val)))
    ensures Decode(f, 'S', val, tzdb) == (f.(sec := 0), Some(AtoiSyntax(val)))
    ensures Decode(f, 'f', val, tzdb) == (f.(nsec := 0), Some(AtoiSyntax(val)))
  {
    AtoiAccepts(val);
  }

  /** One step of the capture loop: a capture whose decoder succeeds hands the fields it
      produced to the rest. */
  lemma ApplyAllStep(f: Fields, c: Capture, rest: seq<Capture>, tzdb: string -> bool)
    requires c.name != "" && Decode(f, c.name[0], c.text, tzdb).1.None?
    ensures ApplyAll(f, [c] + rest, tzdb) == ApplyAll(Decode(f, c.name[0], c.text, tzdb).0, rest, tzdb)
  {
    assert ([c] + rest)[0] == c && ([c] + rest)[1..] == rest;
  }

  /** %y reads two digits and pivots at 70: the year lies in 1970..2069 and its last two
      digits are the ones read. */
  lemma ShortYearPivot(f: Fields, val: string, tzdb: string -> bool)
    requires |val| == 2 && AllDigits(val)
    ensures Decode(f, 'y', val, tzdb).1.None?
    ensures var g := Decode(f, 'y', val, tzdb).0;
      1970 <= g.year < 2070 && g.year % 100 == DigitsValue(val) && g == f.(year := g.year)
    ensures DigitsValue(val) < 70 <==> Decode(f, 'y', val, tzdb).0.year >= 2000
  {
    assert val[..1][..0] == [];
    assert DigitsValue(val[..1]) == DigitValue(val[0]);
    assert DigitsValue(val) == 10 * DigitValue(val[0]) + DigitValue(val[1]);
    AtoiAccepts(val);
  }

  /** "65" decodes to 2065 and "75" to 1975. */
  lemma PivotExamples(f: Fields, tzdb: string -> bool)
    ensures Decode(f, 'y', "65", tzdb) == (f.(year := 2065), None)
    ensures Decode(f, 'y', "75", tzdb) == (f.(year := 1975), None)
  {
    ShortYearPivot(f, "65", tzdb);
    ShortYearPivot(f, "75", tzdb);
  }

  /** In a table without repeated entries, looking up entry m finds m. */
  lemma IndexOfDistinct(names: seq<string>, m: nat)
    requires m < |names|
    requires forall i, j :: 0 <= i < j < |names| ==> names[i] != names[j]
    ensures IndexOf(names, names[m]) == Some(m)
  {
  }

  /** %b sets the month to m for the abbreviated name of month m. */
  lemma ShortMonthDecoder(f: Fields, m: int, tzdb: string -> bool)
    requires 1 <= m <= 12
    ensures Decode(f, 'b', ShortMonthNames[m], tzdb) == (f.(month := m), None)
  {
    MonthTables();
    IndexOfDistinct(ShortMonthNames, m);
  }

  /** %B sets the month to m for the full name of month m. */
  lemma LongMonthDecoder(f: Fields, m: int, tzdb: string -> bool)
    requires 1 <= m <= 12
    ensures Decode(f, 'B', LongMonthNames[m], tzdb) == (f.(month := m), None)
  {
    MonthTables();
    IndexOfDistinct(LongMonthNames, m);
  }

  /** %b and %B fail without changing anything for text that is not in their table. */
  lemma MonthNameMismatch(f: Fields, val: string, tzdb: string -> bool)
    ensures val !in ShortMonthNames ==> Decode(f, 'b', val, tzdb) == (f, Some(MonthAbbrevNotMatch))
    ensures val !in LongMonthNames ==> Decode(f, 'B', val, tzdb) == (f, Some(MonthNameNotMatch))
  {
  }

  /** The table's placeholder is a name like the others: "---" sets month 0. */
  lemma MonthPlaceholderDecodes(f: Fields, tzdb: string -> bool)
    ensures Decode(f, 'b', "---", tzdb) == (f.(month := 0), None)
    ensures Decode(f, 'B', "---", tzdb) == (f.(month := 0), None)
  {
    MonthTables();
    assert IndexOf(ShortMonthNames, "---") == Some(0);
    assert IndexOf(LongMonthNames, "---") == Some(0);
  }

  /** %p never fails and changes only the PM mark: set by "PM", cleared by "AM", kept
      otherwise; it never touches the hour. */
  lemma AmPmDecoder(f: Fields, val: string, tzdb: string -> bool)
    ensures Decode(f, 'p', val, tzdb).1.None?
    ensures Decode(f, 'p', val, tzdb).0.(pm := f.pm) == f
    ensures Decode(f, 'p', val, tzdb).0.pm <==> val == "PM" || (val != "AM" && f.pm)
  {
  }

  /** %z is matched but decoded to nothing; %f stores the number read times 1000. */
  lemma OffsetAndMicrosecondDecoders(f: Fields, val: string, tzdb: string -> bool)
    ensures Decode(f, 'z', val, tzdb) == (f, None)
    ensures Decode(f, 'f', val, tzdb).0 == f.(nsec := 1000 * Atoi(val).0)
    ensures Atoi(val).1.None? ==> Decode(f, 'f', val, tzdb).1.None? && Decode(f, 'f', val, tzdb).0.nsec % 1000 == 0
  {
  }

  /** %Z succeeds exactly when the name loads, and then the location is the loaded one. */
  lemma ZoneDecoder(f: Fields, val: string, tzdb: string -> bool)
    ensures Decode(f, 'Z', val, tzdb).1.None? <==> LoadLocation(val, tzdb).Some?
    ensures Decode(f, 'Z', val, tzdb).1.None? ==> Decode(f, 'Z', val, tzdb).0 == f.(loc := LoadLocation(val, tzdb))
    ensures val == "UTC" || val == "" ==> Decode(f, 'Z', val, tzdb) == (f.(loc := Some(UTC)), None)
  {
  }

  /** Whether a decoder fails depends on the code and the text only, not on the fields
      it is handed. */
  lemma DecodeErrorIgnoresFields(f: Fields, g: Fields, code: char, val: string, tzdb: string -> bool)
    ensures Decode(f, code, val, tzdb).1 == Decode(g, code, val, tzdb).1
  {
  }

  /** Every decoder but %p overwrites: decoding y after x for the same code gives what
      decoding y alone gives, whatever x was and whether or not x failed; for %m, %b and
      %B, which leave the month alone when they fail, this holds once y decodes. */
  lemma DecodeOverwrites(f: Fields, code: char, x: string, y: string, tzdb: string -> bool)
    requires code != 'p'
    ensures Decode(f, code, y, tzdb).1.None? ==>
      Decode(Decode(f, code, x, tzdb).0, code, y, tzdb) == Decode(f, code, y, tzdb)
    ensures code != 'm' && code != 'b' && code != 'B' ==>
      Decode(Decode(f, code, x, tzdb).0, code, y, tzdb) == Decode(f, code, y, tzdb)
  {
  }

  /** %p overwrites too, when the later text is "AM" or "PM"; any other text keeps the
      earlier mark. */
  lemma AmPmOverwrites(f: Fields, x: string, y: string, tzdb: string -> bool)
    ensures y == "AM" || y == "PM" ==> Decode(Decode(f, 'p', x, tzdb).0, 'p', y, tzdb) == Decode(f, 'p', y, tzdb)
    ensures y != "AM" && y != "PM" ==> Decode(Decode(f, 'p', x, tzdb).0, 'p', y, tzdb) == Decode(f, 'p', x, tzdb)
  {
  }

  // The capture loop.

  /** Running two lists of captures is running the first and, if it succeeds, the second
      from where the first left the fields. */
  lemma {:induction false} ApplyAllAppend(f: Fields, a: seq<Capture>, b: seq<Capture>, tzdb: string -> bool)
    ensures ApplyAll(f, a + b, tzdb) ==
      match ApplyAll(f, a, tzdb)
      case Err(e) => Err(e)
      case Ok(g) => ApplyAll(g, b, tzdb)
    decreases |a|
  {
    if a == [] {
      assert a + b == b;
    } else {
      assert (a + b)[0] == a[0] && (a + b)[1..] == a[1..] + b;
      if a[0].name != "" {
        var (g, e) := Decode(f, a[0].name[0], a[0].text, tzdb);
        ApplyAllAppend(g, a[1..], b, tzdb);
      }
    }
  }

  /** When a field is captured twice, the later capture is the one that counts, once
      the earlier one decoded without error. */
  lemma LaterCaptureWins(f: Fields, name: string, x: string, y: string, tzdb: string -> bool)
    requires name != "" && name[0] != 'p'
    requires Decode(f, name[0], x, tzdb).1.None?
    ensures ApplyAll(f, [Capture(name, x), Capture(name, y)], tzdb) == ApplyAll(f, [Capture(name, y)], tzdb)
  {
    DecodeOverwrites(f, name[0], x, y, tzdb);
    var g := Decode(f, name[0], x, tzdb).0;
    DecodeErrorIgnoresFields(f, g, name[0], y, tzdb);
    assert [Capture(name, x), Capture(name, y)][1..] == [Capture(name, y)];
    assert ApplyAll(g, [Capture(name, y)], tzdb) == ApplyAll(f, [Capture(name, y)], tzdb);
  }

  /** A group whose name starts with a byte without decoder fails the whole parse at that
      group, whatever follows; an unnamed group has no first byte at all. */
  lemma ApplyAllStopsAtUndecodable(f: Fields, a: seq<Capture>, c: Capture, rest: seq<Capture>, tzdb: string -> bool)
    requires ApplyAll(f, a, tzdb).Ok?
    ensures c.name == "" ==> ApplyAll(f, a + [c] + rest, tzdb) == Err(UnnamedGroupPanic)
    ensures c.name != "" && !HasDecoder(c.name[0]) ==>
      ApplyAll(f, a + [c] + rest, tzdb) == Err(InvalidDirective(c.name[0]))
  {
    assert a + [c] + rest == a + ([c] + rest);
    ApplyAllAppend(f, a, [c] + rest, tzdb);
    var g := ApplyAll(f, a, tzdb).value;
    if c.name != "" {
      DecodeDomain(g, c.name[0], c.text, tzdb);
    }
  }

  /** Captures none of whose names start with 'Z' leave the location as it was. */
  lemma {:induction false} ApplyAllKeepsLocation(f: Fields, caps: seq<Capture>, tzdb: string -> bool)
    requires forall k :: 0 <= k < |caps| && caps[k].name != "" ==> caps[k].name[0] != 'Z'
    ensures ApplyAll(f, caps, tzdb).Ok? ==> ApplyAll(f, caps, tzdb).value.loc == f.loc
    decreases |caps|
  {
    if caps != [] && caps[0].name != "" {
      var (g, e) := Decode(f, caps[0].name[0], caps[0].text, tzdb);
      if e.None? {
        assert g.loc == f.loc;
        ApplyAllKeepsLocation(g, caps[1..], tzdb);
      }
    }
  }

  /** A successful run of captures never ends with Go's nil location when it started
      with a location. */
  lemma {:induction false} ApplyAllLocated(f: Fields, caps: seq<Capture>, tzdb: string -> bool)
    requires f.loc.Some?
    ensures ApplyAll(f, caps, tzdb).Ok? ==> ApplyAll(f, caps, tzdb).value.loc.Some?
    decreases |caps|
  {
    if caps != [] && caps[0].name != "" {
      var (g, e) := Decode(f, caps[0].name[0], caps[0].text, tzdb);
      if e.None? {
        assert g.loc.Some?;
        ApplyAllLocated(g, caps[1..], tzdb);
      }
    }
  }

  /** PM correction: a PM hour in 0..11 moves to 12..23; 12 stays 12 under AM and PM
      alike; an AM hour is kept; and on non-negative hours correcting twice is
      correcting once. Nothing but the hour changes. */
  lemma PmCorrection(f: Fields)
    ensures PmCorrected(f).(hour := f.hour) == f
    ensures f.pm && 0 <= f.hour < 12 ==> 12 <= PmCorrected(f).hour < 24 && PmCorrected(f).hour - 12 == f.hour
    ensures f.hour == 12 || !f.pm ==> PmCorrected(f) == f
    ensures 0 <= f.hour <= 23 ==> 0 <= PmCorrected(f).hour <= 23
    ensures f.hour >= 0 ==> PmCorrected(PmCorrected(f)) == PmCorrected(f)
  {
  }

  // Strptime as a whole.

  /** A format with an unknown code fails before the value is searched: the engine is
      not consulted and the error is the pattern builder's. */
  lemma ParseFailsBeforeSearch(value: string, format: string, e1: (string, string) -> Search,
                               e2: (string, string) -> Search, tzdb: string -> bool)
    requires Pattern(format).Err?
    ensures Parse(value, format, e1, tzdb) == Parse(value, format, e2, tzdb) == Err(Pattern(format).error)
  {
  }

  /** A successful parse always has a location, and it is UTC when no group name starts
      with 'Z'. */
  lemma ParseLocation(value: string, format: string, engine: (string, string) -> Search, tzdb: string -> bool)
    requires Parse(value, format, engine, tzdb).Ok?
    ensures Parse(value, format, engine, tzdb).value.loc.Some?
    ensures var caps := engine(Pattern(format).value, value).groups;
      (forall k :: 0 <= k < |caps| && caps[k].name != "" ==> caps[k].name[0] != 'Z') ==>
      Parse(value, format, engine, tzdb).value.loc == Some(UTC)
  {
    var caps := engine(Pattern(format).value, value).groups;
    ApplyAllLocated(Start(tzdb), caps, tzdb);
    if forall k :: 0 <= k < |caps| && caps[k].name != "" ==> caps[k].name[0] != 'Z' {
      ApplyAllKeepsLocation(Start(tzdb), caps, tzdb);
    }
  }

  /** When the first group the engine reports is named "a", as it is for a match of a
      format that starts with %c, the parse fails, since "a" has no decoder. */
  lemma CompositeNeverParses(value: string, format: string, engine: (string, string) -> Search, tzdb: string -> bool)
    requires Pattern(format).Ok? && engine(Pattern(format).value, value).Matched?
    requires var caps := engine(Pattern(format).value, value).groups;
      |caps| > 0 && caps[0].name == "a"
    ensures Parse(value, format, engine, tzdb) == Err(InvalidDirective('a'))
  {
  }
}
