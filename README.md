# go.timefmt directive engine, in Dafny

A model of the directive engine of `go.timefmt`, a Go port of Python's `strftime` and
`strptime`. Both directions read the same format-string grammar: a `%` marker, an
optional `-` no-pad flag, then one code byte.

- **Scanner** (`scanner.dfy`) states that grammar once, as the token sequence the Go
  loops read: `Step` is one iteration of the byte loop, `Scan` the whole pass.
- **Formatting** (`strftime.dfy`) is the renderer. It holds one formatter per output
  code, the `ontput_converters` dispatch table (`Formatter`) and `Strftime`. `Strftime`
  is the imperative byte loop, proved to compute `Render`, the token-level
  specification. A timestamp is a record of fields that are already taken apart
  (`Timestamp`).
- **Decimal** (`decimal.dfy`) holds Go's `%0<w>d` (`ZeroPad`) and `strconv.Atoi`, with
  the proof that the one reads back what the other prints.
- **Names** (`names.dfy`) holds the four English name tables.
- **Parsing** (`strptime.dfy`) holds:
  - the `input_regexes` table (`InputRegex`);
  - `BuildRegexp`, the imperative loop, up to `regexp.Compile`, proved to compute
    `Pattern`;
  - the `_DateTime` accumulator, a class whose decoder methods update its fields in
    place, specified by the value-level `Decode`;
  - `Strptime`, whose capture loop is proved to compute `Parse`.
- **FormattingProperties**, **ParsingProperties** and **RoundTrips** hold the lemmas:
  - the shape of the output and of the pattern;
  - the text of each directive;
  - what each decoder does;
  - how the capture loop combines captures;
  - what the decoders give back from what the formatters print.

Two collaborators are passed in as functions, because their behaviour is outside the
core:

- Go's regular-expression engine is `engine: (pattern, value) -> Search`. A `Search` is
  a compile error, no match, or the ordered `(group name, text)` submatches.
- The timezone database behind `time.LoadLocation` is `tzdb: name -> bool`.

Strings are `seq<char>`, one `char` per byte of the Go string.

Where the Go code departs from the usual strftime/strptime conventions, the model follows the code:

- Literal bytes of the format go into the pattern unescaped.
- An unknown code's error quotes the byte before the code (the `%` or `-`), not the code.
- `%I` at 12 o'clock prints `00` and `%p` prints `AM`.
- `%z` prints the offset's remainder modulo 60 (the seconds) as its last two digits.
- The numeric decoders use `strconv.Atoi`, which also accepts a sign. They store Atoi's
  0 before failing on bad text; `%m` is the exception and keeps the month.

## Model

| member | source | states |
|---|---|---|
| Outcomes.PrefixedLaws | strftime.go:272-283 | writing nothing to the buffer changes nothing; an error discards whatever was written before it; the result succeeds exactly when the rest does |
| Outcomes.ThenLaws | strftime.go:254-283 | output pieces in sequence form a monoid: the empty output is a unit on both sides, sequencing is associative, and an error absorbs what follows |
| Outcomes.PrefixedTwice | strftime.go:274 | two successive buffer writes equal one write of their concatenation |
| Decimal.Digits | strftime.go:22 | `%d` of a non-negative number: at least one digit, no leading zero except for "0", and it denotes the number |
| Decimal.ZeroPad | strftime.go:28-32 | `%0<w>d`: at least w bytes and never empty; for v >= 0 all digits denoting v; for v < 0 a '-' then the digits of -v; zeros only up to the width |
| Decimal.ZeroPadLength | strftime.go:28-32 | `%0<w>d` is exactly max(w, the sign plus the digits of |v|) bytes long |
| Decimal.AtoiAccepts | strptime.go:106 | `strconv.Atoi` succeeds exactly on an optionally signed non-empty digit string, returns 0 on failure, and reads a digit string as its value |
| Decimal.AtoiDigits | strptime.go:106 | `strconv.Atoi` reads a non-empty digit string as its value and a '-' before one as its negation |
| Decimal.AtoiZeroPad | strptime.go:102-108 | Atoi reads back every number `ZeroPad` prints, whatever the width and sign |
| Decimal.DigitsLength | strftime.go:31 | a number below 10^k prints in at most k digits |
| Decimal.ZeroPadWidth | strftime.go:116 | padding a number of at most w digits gives exactly w bytes |
| Decimal.SingleDigit | strftime.go:29 | `%d` gives one byte exactly for numbers below 10 |
| Decimal.ZeroPadTwoDigits | strftime.go:129 | `%02d` of a number below 100 is its tens digit then its units digit |
| Decimal.GoRem100 | strftime.go:57 | Go's `% 100`: the remainder truncated towards zero, with the sign of the dividend, in -99..99 |
| Names.DayTables | timefmt.go:38-56 | 7 entries each, Sunday at 0 and Saturday at 6, each short name the first 3 letters of the long one, no repeats |
| Names.MonthTables | timefmt.go:58-88 | 13 entries each with "---" at 0, January at 1 and December at 12, short name = first 3 letters of the long one, no repeats |
| Scanner.Step | strftime.go:254-282 | one loop iteration advances 1 to 3 bytes without passing the end; a literal exactly for a non-'%' byte, a final '%' or a final "%-", and then the step is 2 bytes after a '%' and 1 otherwise; a directive's flag is set exactly when '-' follows '%', and its marker is the byte before the code |
| Scanner.ScanShift | strftime.go:254 | the scan of a suffix, started where the suffix begins, does not depend on what precedes it |
| Scanner.ScanLiteralRun | strftime.go:259-262 | bytes before the first '%' are read as one literal each |
| Scanner.ScanDirective | strftime.go:263-278 | "%c" with c other than '-' is one unflagged directive with marker '%' |
| Scanner.ScanFlaggedDirective | strftime.go:263-278 | "%-c" is one flagged directive with marker '-', for every byte c |
| Scanner.ScanTrailingMarker | strftime.go:279-281 | a final '%' is the literal '%'; a final "%-" is the literal '-' |
| Formatting.Strftime | strftime.go:251-284 | the byte loop returns exactly `Render`: the formatter outputs and literal bytes in order, or the first unknown code's error |
| FormattingProperties.RenderAppend | strftime.go:269-274 | rendering is compositional over token sequences and the first error wins |
| FormattingProperties.RenderLiterals | strftime.go:259-261 | literal tokens render to their bytes |
| FormattingProperties.RenderLiteralRun | timefmt.go:154-161 | bytes before the first '%' are copied unchanged in front of the rest of the output |
| FormattingProperties.RenderWithoutMarker | timefmt.go:154-161 | a format without '%' renders to itself |
| FormattingProperties.RenderTrailingMarker | timefmt.go:158-180 | a final '%' is output as '%'; a final "%-" is output as "-" |
| FormattingProperties.RenderDirective | strftime.go:263-274 | "%c" hands the formatter noPad = false and prefixes its output; an unknown code is UnknownCode('%') |
| FormattingProperties.RenderFlaggedDirective | strftime.go:263-270 | "%-c" hands the formatter noPad = true; an unknown code is UnknownCode('-') |
| FormattingProperties.FormatterDomain | strftime.go:193-249 | the output table has an entry exactly for the 24 codes of `HasFormatter` |
| FormattingProperties.RenderUnknownCode | timefmt.go:166-177 | an unknown code after a literal run fails the whole rendering, with the marker byte and not the code in the error |
| FormattingProperties.NumericForms | strftime.go:27-33 | padded form: exactly w digits denoting v; unpadded form: 1..w digits denoting v, with no leading zero |
| FormattingProperties.TwoDigitForms | strftime.go:96-112 | %d/%m/%H/%M/%S of a value below 100: two digits, or with the flag one digit exactly below 10; both denote the value |
| FormattingProperties.DayOfYearDirective | strftime.go:140-146 | %j denotes the year day, in exactly 3 digits, or with the flag at most 3 and no leading zero |
| FormattingProperties.YearDirectives | strftime.go:56-63 | %Y and %y ignore the flag; %Y reads back as the year; %y reads back as Go's year % 100 and, for years >= 0, is exactly 2 digits |
| FormattingProperties.TwelveHourDirective | strftime.go:77-83 | %I is two digits denoting hour mod 12, so hours 0 and 12 both give "00" |
| FormattingProperties.AmPmDirective | strftime.go:86-92 | %p ignores the flag, is "AM" or "PM", and is "PM" exactly for hours past 12 |
| FormattingProperties.MicrosecondDirective | strftime.go:115-117 | %f is exactly 6 digits denoting nanosecond / 1000 |
| FormattingProperties.OffsetDirective | strftime.go:120-130 | %z is 5 bytes: '+' exactly for offsets >= 0, else '-', then two digits of the whole hours and two of the absolute offset mod 60 |
| FormattingProperties.OffsetUsesSecondsRemainder | strftime.go:129 | offset +05:30 prints "+0500" and -01:00:30 prints "-0130" |
| FormattingProperties.LocaleTimeShape | strftime.go:181-186 | %X is 8 bytes: the %H, %M and %S texts separated by ':' |
| FormattingProperties.LocaleDateShape | strftime.go:173-178 | %x of a year >= 0 is 8 bytes: the %m, %d and %y texts separated by '/' |
| FormattingProperties.PercentDirective | strftime.go:189-191 | "%%" outputs a single '%' |
| Parsing.Group | strptime.go:14 | a fragment opens with `(?P<` + its one-byte name + `>` |
| Parsing.BuildRegexp | strptime.go:271-298 | the byte loop returns exactly `Pattern`: the literal bytes and fragments in order, or the first unknown code's error |
| Parsing.LoadLocation | strptime.go:239 | "" and "UTC" load UTC and "Local" loads Local; any other name loads exactly when the database has it, as a zone of that name |
| Parsing.IndexOf | strptime.go:114-119 | the index found holds the value and no earlier index does; nothing is found exactly when the value is not in the table |
| Parsing.DateTime.constructor | strptime.go:306 | the new accumulator has every field zero, no location and PM unset |
| Parsing.DateTime.SetMonthByName | strptime.go:110-134 | a name in the table sets the month to its first index and succeeds; any other text fails with the given error and changes nothing |
| Parsing.DateTime.Apply | strptime.go:78-269 | the accumulator and the error after the decoder are exactly `Decode` of the old accumulator |
| Parsing.Strptime | strptime.go:301-330 | the function returns exactly `Parse`: the pattern error, the compile error, NoMatch, the first capture error, or the PM-corrected fields |
| ParsingProperties.PatternAppend | strptime.go:274-297 | the pattern is compositional over token sequences and the first error wins |
| ParsingProperties.PatternLiterals | strptime.go:278-280 | literal tokens contribute their bytes to the pattern |
| ParsingProperties.PatternLiteralRun | strptime.go:278-281 | bytes before the first '%' are copied into the pattern unescaped |
| ParsingProperties.PatternWithoutMarker | strptime.go:278-281 | a format without '%' is its own pattern |
| ParsingProperties.PatternDirective | strptime.go:285-293 | a directive contributes its code's fragment, or fails with UnknownCode('%') |
| ParsingProperties.PatternFlagIgnored | strptime.go:282-289 | "%-c" gives the same pattern as "%c"; an unknown code then quotes '-' |
| ParsingProperties.RegexDomain | strptime.go:12-68 | the input table has an entry exactly for the 20 codes of `HasRegex`, so not for w, j, U and W |
| ParsingProperties.PatternPercent | strptime.go:67 | "%%" contributes nothing to the pattern |
| ParsingProperties.PatternUnknownCode | strptime.go:287-292 | a code without fragment after a literal run leaves no pattern, only the error |
| ParsingProperties.FragmentGroupNames | strptime.go:14-52 | a single-field fragment is one group named by its own code |
| ParsingProperties.DecodersHaveFields | strptime.go:78-269 | every decoded code has a single-field fragment; a and A have fragments but no decoder |
| ParsingProperties.CompositeFragmentOpensWithA | strptime.go:61 | the %c fragment begins with the group "a", which has no decoder |
| ParsingProperties.DecodeDomain | strptime.go:313-321 | a code fails with "Invalid directive" exactly when it has no decoder, and then the fields are unchanged; every decoded code has a fragment |
| ParsingProperties.DecodeNumber | strptime.go:102-226 | on number text, d/m/Y/H/I/M/S store the number, y pivots it, f multiplies it by 1000 |
| ParsingProperties.DecodeBadNumber | strptime.go:102-226 | on bad text the numeric decoders fail with Atoi's error after storing 0 (2000 for y), except m, which changes nothing |
| ParsingProperties.ApplyAllStep | strptime.go:310-318 | a capture whose decoder succeeds hands its fields to the rest of the loop |
| ParsingProperties.ShortYearPivot | strptime.go:149-160 | two digits decode to a year in 1970..2069 with the same last two digits, at or after 2000 exactly below 70 |
| ParsingProperties.PivotExamples | strptime.go:154-158 | "65" decodes to 2065 and "75" to 1975 |
| ParsingProperties.IndexOfDistinct | strptime.go:114-119 | in a table without repeats, looking up entry m finds m |
| ParsingProperties.ShortMonthDecoder | strptime.go:110-121 | %b sets month m for the abbreviated name of month m |
| ParsingProperties.LongMonthDecoder | strptime.go:123-134 | %B sets month m for the full name of month m |
| ParsingProperties.MonthNameMismatch | strptime.go:110-134 | %b and %B fail on a name not in their table, with their own error, and change nothing |
| ParsingProperties.MonthPlaceholderDecodes | strptime.go:114-119 | the placeholder "---" decodes to month 0 with both %b and %B |
| ParsingProperties.AmPmDecoder | strptime.go:188-199 | %p never fails and changes only pm: set by "PM", cleared by "AM", kept otherwise |
| ParsingProperties.OffsetAndMicrosecondDecoders | strptime.go:219-233 | %z changes nothing; %f stores 1000 times the number, a multiple of 1000 on success |
| ParsingProperties.ZoneDecoder | strptime.go:235-246 | %Z succeeds exactly when the name loads and then stores that location; "UTC" and "" give UTC |
| ParsingProperties.DecodeErrorIgnoresFields | strptime.go:78-269 | whether a decoder fails does not depend on the accumulator |
| ParsingProperties.DecodeOverwrites | strptime.go:102-246 | a second decode of the same code (not p) gives what decoding alone gives: always, or for m, b and B once the second one succeeds |
| ParsingProperties.AmPmOverwrites | strptime.go:192-197 | a later "AM"/"PM" overrides an earlier %p; any other later text keeps it |
| ParsingProperties.ApplyAllAppend | strptime.go:310-323 | running two lists of captures is running the first and, on success, the second from its result |
| ParsingProperties.LaterCaptureWins | strptime.go:310-318 | of two captures of the same field, the later one counts once the earlier one succeeded |
| ParsingProperties.ApplyAllStopsAtUndecodable | strptime.go:313-321 | an unnamed group, or a name whose first byte has no decoder, fails the loop at that group whatever follows |
| ParsingProperties.ApplyAllKeepsLocation | strptime.go:307 | captures without a 'Z' group leave the location as it was |
| ParsingProperties.ApplyAllLocated | strptime.go:235-246 | a successful loop that starts with a location ends with one |
| ParsingProperties.PmCorrection | strptime.go:328-330 | only the hour changes; a PM hour in 0..11 moves to 12..23; 12 and AM hours stay; hours stay in 0..23; correcting twice is correcting once |
| ParsingProperties.ParseFailsBeforeSearch | strptime.go:302-305 | a pattern error is returned without consulting the engine |
| ParsingProperties.ParseLocation | strptime.go:307 | a successful parse has a location, UTC when no group name starts with 'Z' |
| ParsingProperties.CompositeNeverParses | strptime.go:61 | when the first group reported is "a", as for a format starting with %c, the parse fails with Invalid directive 'a' |
| RoundTrips.CodeTables | strptime.go:12-68 | decodable codes are matchable and matchable codes are printable; w, j, U and W are printable but not matchable |
| RoundTrips.NumericDecodes | strftime.go:27-33 | Atoi reads back every padded or unpadded numeric output |
| RoundTrips.NumericRoundTrip | strptime.go:102-217 | %d, %m, %H, %M, %S and %Y, with or without the flag, decode to the field they printed, for every value |
| RoundTrips.Pivot | strptime.go:154-158 | the pivot maps the last two digits into 1970..2069 and is the identity on those years |
| RoundTrips.ShortYearRoundTrip | strptime.go:149-160 | %y of a year >= 0 decodes to the year in 1970..2069 with the same last two digits, and to the year itself when it lies there |
| RoundTrips.MonthNameRoundTrip | strptime.go:110-134 | %b and %B decode to the month they printed |
| RoundTrips.MicrosecondRoundTrip | strptime.go:219-226 | %f decodes to the nanoseconds truncated to a multiple of 1000, less than 1000 below them |
| RoundTrips.TwelveHourRoundTrip | strptime.go:328-330 | %I then %p then the PM correction give back every hour except 12, which comes back as 0 |
| RoundTrips.AfternoonExample | strftime.go:77-92 | 14:00 prints "02" and "PM", and these decode back to hour 14 |
| RoundTrips.UnknownCodeBothWays | strptime.go:287-292 | "%q" fails both to render and to build a pattern, with UnknownCode('%') |
| RoundTrips.NumericCaptures | strptime.go:310-323 | captures Y, m, d, H, M, S of number texts set exactly those six fields |
| RoundTrips.RenderedFieldsParseBack | strptime.go:310-323 | captures named Y, m, d, H, M, S holding the six numeric formatters' output for a timestamp set exactly those six fields to the timestamp's values |
| RoundTrips.RenderDirectiveThen | strftime.go:254-283 | a directive followed by a plain byte prints the formatter's text, then the byte, then the rest |
| RoundTrips.PatternDirectiveThen | strptime.go:281-296 | a directive followed by a plain byte contributes its fragment, then the byte, then the rest |
| RoundTrips.DateEntries | strftime.go:202-213 | the output table maps Y, m and d to the year, month and day formatters |
| RoundTrips.TimeEntries | strftime.go:216-227 | the output table maps H, M and S to the hour, minute and second formatters |
| RoundTrips.IsoFormatRenders | strftime.go:251-284 | "%Y-%m-%dT%H:%M:%S" renders as the six formatter texts joined by "-", "-", "T", ":", ":" |
| RoundTrips.IsoFormatPattern | strptime.go:271-298 | "%Y-%m-%dT%H:%M:%S" builds the pattern of six groups named Y, m, d, H, M, S joined by the same separators |
| RoundTrips.IsoRoundTrip | strptime.go:301-330 | rendering with "%Y-%m-%dT%H:%M:%S" and parsing the text back with an engine that matches the six groups gives the timestamp's six fields, zero nanoseconds and UTC |
| RoundTrips.IsoExample | strftime.go:251-284 | 2016-09-22 14:04:26 renders with "%Y-%m-%dT%H:%M:%S" as "2016-09-22T14:04:26" |

## Left out

- `regexp.Compile`, `FindStringSubmatch` and `SubexpNames` (strptime.go:298, 308-310) are Go's regular-expression engine. They are the `engine` parameter. So the model does not capture that the match is unanchored, that the `z` fragment `+|-[0-9]{4}` does not compile, or that a parse with a `%c` pattern cannot get past group "a".
- `time.LoadLocation` (strptime.go:239, 307) is a timezone-database lookup. Only its special cases ("", "UTC", "Local") are modelled; the database is the `tzdb` parameter.
- `time.Time`'s accessors (Weekday, YearDay, ISOWeek, Zone, Nanosecond) are calendar arithmetic. The timestamp is given as its fields.
- `time.Date` and its normalisation of out-of-range fields (strptime.go:332): `Strptime` returns the fields it would hand to `time.Date`.
- The nil checks at the start of every decoder (e.g. strptime.go:103-105) are left out: `Strptime` always passes a non-nil accumulator.
- The formatter-error branch of `Strftime` (strftime.go:271-273) is left out: no formatter returns an error, so formatters are total functions.
- Decimal.AtoiAccepts: `strconv.Atoi`'s range error for numbers outside 64 bits is not modelled, because integers are unbounded. Such texts can reach it: the literal bytes of a format go into the pattern unescaped, so a format may carry its own group, such as `(?P<d>[0-9]+)`, that captures any number of digits.
- Parsing.Decode: the 64-bit wrap-around of `t.nsec *= 1000` (strptime.go:224) is not modelled, because integers are unbounded. Six digits from `%f` stay far below it, but a format's own group named `f` can capture a number whose product wraps.
- `time.Month` is an int in the accumulator: `Decode` stores any int as the month, as Go does, without a range check.
- The panic on an unnamed group's empty name (strptime.go:313) is the error value UnnamedGroupPanic.
- `timefmt.go:92-183` repeats strftime.go:193-284, the table and the loop, so one copy is modelled. `timefmt.go:185-188`, a `Strptime` stub, is not part of this model. Nor is `cvt_output.go`, an older stub copy of the formatters.
- `Check` and the tests in `timefmt_test.go` are not part of this model: `Check` is defined in none of the files, and the tests depend on the local time zone.
- `%c`, `%x` and `%X` are defined by composing the other formatters, as the Go code does. Only the fixed-width shapes of `%X` and `%x` are proved; `%c`'s text is its definition.
- FormattingProperties.FormatterDomain is stated per code, as membership of `HasFormatter`. The text of each entry is stated by one lemma per formatter function, not through the table.
