/** Optional values, results and the error values the directive engine can report. */
module Outcomes {

  datatype Option<T> = None | Some(value: T)

  /** The `(value, error)` pair a Go function returns, with exactly one side meaningful. */
  datatype Result<T> = Ok(value: T) | Err(error: Error)

  /** One constructor per distinct `error` the core can return. The doc line
      gives the text the Go code builds for it. */
  datatype Error =
    /** "Unknown Code:" followed by the byte at index i+j: the '%' or the '-' before the code */
    | UnknownCode(at: char)
    /** "Invalid directive:" followed by the first byte of a capture-group name without decoder */
    | InvalidDirective(code: char)
    /** "Can not match string with given format!" */
    | NoMatch
    /** whatever the regular-expression compiler reports */
    | PatternCompile(message: string)
    /** strconv.Atoi's syntax error for the given text */
    | AtoiSyntax(text: string)
    /** "Month abbreviated name not match!" */
    | MonthAbbrevNotMatch
    /** "Month name not match!" */
    | MonthNameNotMatch
    /** time.LoadLocation's failure for the given zone name */
    | UnknownTimeZone(name: string)
    /** not an error value in Go: `name[0]` on an unnamed group's "" name panics */
    | UnnamedGroupPanic

  /** What appending `prefix` to a buffer before the rest of the output does to the
      final outcome: an error discards the buffer. */
  function Prefixed(prefix: string, rest: Result<string>): Result<string>
  {
    match rest
    case Ok(s) => Ok(prefix + s)
    case Err(e) => Err(e)
  }

  /** Sequencing of two pieces of output: the first error wins. */
  function Then(first: Result<string>, second: Result<string>): Result<string>
  {
    match first
    case Ok(s) => Prefixed(s, second)
    case Err(e) => Err(e)
  }

  lemma PrefixedTwice(a: string, b: string, rest: Result<string>)
    ensures Prefixed(a, Prefixed(b, rest)) == Prefixed(a + b, rest)
  {
    if rest.Ok? {
      assert a + (b + rest.value) == (a + b) + rest.value;
    }
  }

  /** Writing nothing changes nothing, and an error stays the same error whatever was
      written before it. */
  lemma PrefixedLaws(prefix: string, rest: Result<string>)
    ensures Prefixed("", rest) == rest
    ensures rest.Err? ==> Prefixed(prefix, rest) == rest
    ensures Prefixed(prefix, rest).Ok? <==> rest.Ok?
  {
    if rest.Ok? {
      assert "" + rest.value == rest.value;
    }
  }

  /** Output pieces in sequence form a monoid: the empty output is a unit on both sides,
      sequencing is associative, and an error absorbs whatever follows it. */
  lemma ThenLaws(a: Result<string>, b: Result<string>, c: Result<string>)
    ensures Then(Ok(""), a) == a
    ensures Then(a, Ok("")) == a
    ensures Then(Then(a, b), c) == Then(a, Then(b, c))
    ensures a.Err? ==> Then(a, b) == a
  {
    PrefixedLaws("", a);
    if a.Ok? {
      assert a.value + "" == a.value;
      if b.Ok? {
        PrefixedTwice(a.value, b.value, c);
      }
    }
  }
}
