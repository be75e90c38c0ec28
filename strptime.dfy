/** Parsing a value against a format: the regular-expression pattern built from the
    format, the decoders that turn captured text into fields, and the capture loop
    of Strptime. The regular-expression engine and the timezone database are outside
    the model and are passed in as functions. */
module Parsing {
  import opened Outcomes
  import opened Decimal
  import opened Names
  import opened Scanner

  /** A named capture group, "(?P<name>body)". */
  function Group(name: char, body: string): (r: string)
    ensures |r| > 6 && r[..6] == "(?P<" + [name] + ">"
  {
    var open := "(?P<" + [name] + ">";
    assert (open + body + ")")[..6] == open;
    open + body + ")"
  }

  const DayAbbrevs := "Mon|Tue|Wed|Thu|Fri|Sat|Sun"
  const MonthAbbrevs := "Jan|Feb|Mar|Apr|May|Jun|Jul|Aug|Sep|Oct|Nov|Dec"

  /** What the group of a single-field code matches. */
  function FieldRegex(code: char): Option<string>
  {
    match code
    case 'a' => Some(DayAbbrevs)
    case 'A' => Some("Monday|Tuesday|Wednsday|Thursday|Friday|Saturday|Sunday")
    case 'd' => Some("[0-9]{1,2}")
    case 'b' => Some(MonthAbbrevs)
    case 'B' => Some("January|February|March|April|May|June|July|August|September|October|November|December")
    case 'm' => Some("[0-9]{1,2}")
    case 'y' => Some("[0-9]{2}")
    case 'Y' => Some("[0-9]{4}")
    case 'H' => Some("[0-9]{1,2}")
    case 'I' => Some("[0-9]{1,2}")
    case 'p' => Some("AM|PM")
    case 'M' => Some("[0-9]{1,2}")
    case 'S' => Some("[0-9]{1,2}")
    case 'f' => Some("[0-9]{6}")
    case 'z' => Some("+|-[0-9]{4}")
    case 'Z' => Some("[a-zA-Z/_]{3,}")
    case _ => None
  }

  /** The input pattern table: the regular-expression fragment each code contributes.
      A single-field code's fragment is one group named by the code itself; %c, %x and
      %X chain the groups of their parts with the same separators Strftime prints; %%
      contributes nothing; %w, %j, %U and %W have no entry. */
  function InputRegex(code: char): Option<string>
  {
    match code
    case 'c' =>
      Some(Group('a', DayAbbrevs) + " " + Group('b', MonthAbbrevs) + " " + Group('d', "[0-9]{2}") + " " +
           Group('H', "[0-9]{2}") + ":" + Group('M', "[0-9]{2}") + ":" + Group('S', "[0-9]{2}") + " " +
           Group('Y', "[0-9]{4}"))
    case 'x' => Some(Group('m', "[0-9]{2}") + "/" + Group('d', "[0-9]{2}") + "/" + Group('y', "[0-9]{2}"))
    case 'X' => Some(Group('H', "[0-9]{2}") + ":" + Group('M', "[0-9]{2}") + ":" + Group('S', "[0-9]{2}"))
    case '%' => Some("")
    case _ =>
      match FieldRegex(code)
      case None => None
      case Some(body) => Some(Group(code, body))
  }

  /** The codes the input pattern table has an entry for. */
  predicate HasRegex(code: char)
  {
    match code
    case 'a' | 'A' | 'd' | 'b' | 'B' | 'm' | 'y' | 'Y' | 'H' | 'I' | 'p' | 'M' | 'S' | 'f' | 'z' | 'Z' | 'c' | 'x' | 'X' | '%' => true
    case _ => false
  }

  /** What the pattern of a token sequence comes to: literal bytes copied as they are
      (not escaped) and fragments concatenated in order, or the first unknown code's
      error. The flag of a directive plays no part. */
  function PatternTokens(toks: seq<Token>): Result<string>
  {
    if toks == [] then Ok("")
    else
      match toks[0]
      case Literal(c) => Prefixed([c], PatternTokens(toks[1..]))
      case Directive(code, _, marker) =>
        match InputRegex(code)
        case None => Err(UnknownCode(marker))
        case Some(p) => Prefixed(p, PatternTokens(toks[1..]))
  }

  function Pattern(format: string): Result<string>
  {
    PatternTokens(Scan(format))
  }

  /** Go's buildRegexp up to the call of regexp.Compile: the same scan as Strftime,
      appending fragments instead of formatter outputs. */
  method BuildRegexp(format: string) returns (r: Result<string>)
    ensures r == Pattern(format)
  {
    var buf := "";
    var length := |format|;
    var i := 0;
    assert Prefixed(buf, Pattern(format)) == Pattern(format) by {
      if Pattern(format).Ok? { assert buf + Pattern(format).value == Pattern(format).value; }
    }
    while i < length
      invariant 0 <= i <= length
      invariant Pattern(format) == Prefixed(buf, PatternTokens(ScanFrom(format, i)))
      decreases length - i
    {
      var c := format[i];
      var j := 0;
      ghost var rest := ScanFrom(format, Step(format, i).1);
      assert ScanFrom(format, i) == [Step(format, i).0] + rest;
      if c != '%' || i + 1 >= length {
        PrefixedTwice(buf, [c], PatternTokens(rest));
        buf := buf + [c];
      } else {
        if format[i + 1] == '-' {
          j := j + 1;
        }
        if i + j + 1 < length {
          var pattern := InputRegex(format[i + j + 1]);
          if pattern.None? {
            return Err(UnknownCode(format[i + j]));
          }
          PrefixedTwice(buf, pattern.value, PatternTokens(rest));
          buf := buf + pattern.value;
          j := j + 1;
        } else {
          PrefixedTwice(buf, [format[i + 1]], PatternTokens(rest));
          buf := buf + [format[i + 1]];
        }
      }
      i := i + j + 1;
    }
    assert buf + "" == buf;
    return Ok(buf);
  }

  /** A *time.Location: the two built-in ones and a zone found in the database. */
  datatype Location = UTC | Local | Zone(name: string)

  /** Go's time.LoadLocation: "" and "UTC" are UTC, "Local" is the local zone, any
      other name is looked up in the timezone database `tzdb`. */
  function LoadLocation(name: string, tzdb: string -> bool): (r: Option<Location>)
    ensures name == "" || name == "UTC" ==> r == Some(UTC)
    ensures name == "Local" ==> r == Some(Local)
    ensures name != "" && name != "UTC" && name != "Local" ==> (r.Some? <==> tzdb(name))
    ensures r.Some? && r.value.Zone? ==> r.value.name == name && tzdb(name)
  {
    if name == "" || name == "UTC" then Some(UTC)
    else if name == "Local" then Some(Local)
    else if tzdb(name) then Some(Zone(name))
    else None
  }

  /** The fields of the accumulator, as a value. `loc` is None for Go's nil location. */
  datatype Fields = Fields(
    year: int, month: int, day: int, hour: int, min: int, sec: int, nsec: int,
    loc: Option<Location>, pm: bool)

  /** The first index at which `names` holds `val`. */
  function IndexOf(names: seq<string>, val: string): (r: Option<nat>)
    ensures r.Some? ==>
      r.value < |names| && names[r.value] == val && forall k :: 0 <= k < r.value ==> names[k] != val
    ensures r.None? <==> val !in names
  {
    if names == [] then None
    else if names[0] == val then Some(0)
    else
      match IndexOf(names[1..], val)
      case None => None
      case Some(k) => Some(k + 1)
  }

  /** The codes the decoder table has an entry for. */
  predicate HasDecoder(code: char)
  {
    match code
    case 'd' | 'b' | 'B' | 'm' | 'y' | 'Y' | 'H' | 'I' | 'p' | 'M' | 'S' | 'f' | 'z' | 'Z' => true
    case _ => false
  }

  /** What looking a code up in the decoder table and running the decoder on captured
      text does to the fields: the new fields and the error, if any. A code without
      decoder is the capture loop's "Invalid directive" error. */
  function Decode(f: Fields, code: char, val: string, tzdb: string -> bool): (Fields, Option<Error>)
  {
    match code
    case 'd' => (f.(day := Atoi(val).0), Atoi(val).1)
    case 'b' =>
      (match IndexOf(ShortMonthNames, val)
       case Some(k) => (f.(month := k), None)
       case None => (f, Some(MonthAbbrevNotMatch)))
    case 'B' =>
      (match IndexOf(LongMonthNames, val)
       case Some(k) => (f.(month := k), None)
       case None => (f, Some(MonthNameNotMatch)))
    case 'm' => if Atoi(val).1.None? then (f.(month := Atoi(val).0), None) else (f, Atoi(val).1)
    case 'y' =>
      var n := Atoi(val).0;
      (f.(year := if n < 70 then n + 2000 else n + 1900), Atoi(val).1)
    case 'Y' => (f.(year := Atoi(val).0), Atoi(val).1)
    case 'H' => (f.(hour := Atoi(val).0), Atoi(val).1)
    case 'I' => (f.(hour := Atoi(val).0), Atoi(val).1)
    case 'p' => (if val == "PM" then f.(pm := true) else if val == "AM" then f.(pm := false) else f, None)
    case 'M' => (f.(min := Atoi(val).0), Atoi(val).1)
    case 'S' => (f.(sec := Atoi(val).0), Atoi(val).1)
    case 'f' => (f.(nsec := Atoi(val).0 * 1000), Atoi(val).1)
    case 'z' => (f, None)
    case 'Z' =>
      var loc := LoadLocation(val, tzdb);
      (f.(loc := loc), if loc.None? then Some(UnknownTimeZone(val)) else None)
    case _ => (f, Some(InvalidDirective(code)))
  }

  /** Go's _DateTime, updated in place by the decoders. */
  class DateTime {
    var year: int
    var month: int
    var day: int
    var hour: int
    var min: int
    var sec: int
    var nsec: int
    var loc: Option<Location>
    var pm: bool

    function Value(): Fields
      reads this
    {
      Fields(year, month, day, hour, min, sec, nsec, loc, pm)
    }

    /** `&_DateTime{}`: every field zero, no location, not PM. */
    constructor ()
      ensures Value() == Fields(0, 0, 0, 0, 0, 0, 0, None, false)
    {
      year, month, day, hour, min, sec, nsec := 0, 0, 0, 0, 0, 0, 0;
      loc, pm := None, false;
    }

    /** The %b and %B decoders: scan the table for the text and set the month to its
        index, or fail with `failure` and change nothing. */
    method SetMonthByName(names: seq<string>, val: string, failure: Error) returns (e: Option<Error>)
      modifies this
      ensures IndexOf(names, val).Some? ==> Value() == old(Value()).(month := IndexOf(names, val).value) && e.None?
      ensures IndexOf(names, val).None? ==> Value() == old(Value()) && e == Some(failure)
    {
      var k := 0;
      while k < |names|
        invariant 0 <= k <= |names|
        invariant forall i :: 0 <= i < k ==> names[i] != val
      {
        if names[k] == val {
          month := k;
          return None;
        }
        k := k + 1;
      }
      return Some(failure);
    }

    /** Look the code up in the decoder table and run the decoder on the captured text. */
    method Apply(code: char, val: string, tzdb: string -> bool) returns (e: Option<Error>)
      modifies this
      ensures (Value(), e) == Decode(old(Value()), code, val, tzdb)
    {
      match code
      case 'd' =>
        day, e := Atoi(val).0, Atoi(val).1;
      case 'b' =>
        e := SetMonthByName(ShortMonthNames, val, MonthAbbrevNotMatch);
      case 'B' =>
        e := SetMonthByName(LongMonthNames, val, MonthNameNotMatch);
      case 'm' =>
        var (n, err) := Atoi(val);
        if err.None? {
          month := n;
        }
        e := err;
      case 'y' =>
        year, e := Atoi(val).0, Atoi(val).1;
        if year < 70 {
          year := year + 2000;
        } else {
          year := year + 1900;
        }
      case 'Y' =>
        year, e := Atoi(val).0, Atoi(val).1;
      case 'H' =>
        hour, e := Atoi(val).0, Atoi(val).1;
      case 'I' =>
        hour, e := Atoi(val).0, Atoi(val).1;
      case 'p' =>
        if val == "PM" {
          pm := true;
        } else if val == "AM" {
          pm := false;
        }
        e := None;
      case 'M' =>
        min, e := Atoi(val).0, Atoi(val).1;
      case 'S' =>
        sec, e := Atoi(val).0, Atoi(val).1;
      case 'f' =>
        nsec, e := Atoi(val).0, Atoi(val).1;
        nsec := nsec * 1000;
      case 'z' =>
        e := None;
      case 'Z' =>
        loc := LoadLocation(val, tzdb);
        e := if loc.None? then Some(UnknownTimeZone(val)) else None;
      case _ =>
        e := Some(InvalidDirective(code));
    }
  }

  /** One submatch as the regular-expression engine reports it: the group's name ("" for
      an unnamed group) and the text it captured. */
  datatype Capture = Capture(name: string, text: string)

  /** What regexp.Compile and FindStringSubmatch together give for a pattern and a value:
      a compile error, no match, or the submatches of groups 1, 2, ... in order. */
  datatype Search = CompileError(message: string) | Unmatched | Matched(groups: seq<Capture>)

  /** The capture loop: each capture in group order, selected by the first byte of its
      group name, stopping at the first error. */
  function ApplyAll(f: Fields, caps: seq<Capture>, tzdb: string -> bool): Result<Fields>
    decreases |caps|
  {
    if caps == [] then Ok(f)
    else if caps[0].name == "" then Err(UnnamedGroupPanic)
    else
      var (g, e) := Decode(f, caps[0].name[0], caps[0].text, tzdb);
      if e.Some? then Err(e.value) else ApplyAll(g, caps[1..], tzdb)
  }

  /** The accumulator before the first capture: zero fields, the location that
      LoadLocation("UTC") gives, not PM. */
  function Start(tzdb: string -> bool): Fields
  {
    Fields(0, 0, 0, 0, 0, 0, 0, LoadLocation("UTC", tzdb), false)
  }

  /** After all captures: a PM hour below 12 moves to the afternoon. */
  function PmCorrected(f: Fields): Fields
  {
    if f.pm && f.hour < 12 then f.(hour := f.hour + 12) else f
  }

  /** What Strptime comes to, before time.Date: build the pattern, search the value with
      it, run the captures over the starting fields, then correct for PM. */
  function Parse(value: string, format: string, engine: (string, string) -> Search, tzdb: string -> bool): Result<Fields>
  {
    match Pattern(format)
    case Err(e) => Err(e)
    case Ok(p) =>
      match engine(p, value)
      case CompileError(m) => Err(PatternCompile(m))
      case Unmatched => Err(NoMatch)
      case Matched(caps) =>
        match ApplyAll(Start(tzdb), caps, tzdb)
        case Err(e) => Err(e)
        case Ok(f) => Ok(PmCorrected(f))
  }

  /** Go's Strptime, up to the time.Date call: the fields it hands to time.Date. */
  method Strptime(value: string, format: string, engine: (string, string) -> Search, tzdb: string -> bool)
    returns (r: Result<Fields>)
    ensures r == Parse(value, format, engine, tzdb)
  {
    var re := BuildRegexp(format);
    if re.Err? {
      return Err(re.error);
    }
    var search := engine(re.value, value);
    if search.CompileError? {
      return Err(PatternCompile(search.message));
    }
    var dt := new DateTime();
    dt.loc := LoadLocation("UTC", tzdb);
    if search.Unmatched? {
      return Err(NoMatch);
    }
    var caps := search.groups;
    var i := 0;
    while i < |caps|
      invariant 0 <= i <= |caps|
      invariant ApplyAll(Start(tzdb), caps, tzdb) == ApplyAll(dt.Value(), caps[i..], tzdb)
      decreases |caps| - i
    {
      var name := caps[i].name;
      if name == "" {
        return Err(UnnamedGroupPanic);
      }
      var e := dt.Apply(name[0], caps[i].text, tzdb);
      if e.Some? {
        return Err(e.value);
      }
      assert caps[i..][1..] == caps[i + 1..];
      i := i + 1;
    }
    if dt.pm && dt.hour < 12 {
      dt.hour := dt.hour + 12;
    }
    return Ok(dt.Value());
  }
}
