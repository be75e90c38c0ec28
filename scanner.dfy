/** The format-string grammar shared by Strftime and buildRegexp: a '%' marker, an
    optional '-' no-pad flag, then one code byte. Both Go functions run this scan inline
    over the bytes of the format; here it is stated once, as the token sequence it reads,
    and each of the two loops is proved to follow it. */
module Scanner {

  datatype Token =
    /** a byte written to the output as it is */
    | Literal(c: char)
    /** a directive: its code byte, whether the '-' flag was present, and the byte just
        before the code (the '%' or the '-'), which is what an error message quotes */
    | Directive(code: char, noPad: bool, marker: char)

  /** One iteration of the Go loop at index i: the token read there and the index of
      the next iteration (i + j + 1 in the Go code). */
  function Step(f: string, i: nat): (r: (Token, nat))
    requires i < |f|
    ensures i + 1 <= r.1 <= i + 3 && r.1 <= |f|
    ensures r.0.Literal? <==> f[i] != '%' || i + 1 == |f| || (f[i + 1] == '-' && i + 2 == |f|)
    ensures r.0.Literal? ==> r.0.c == f[r.1 - 1]
    ensures r.0.Literal? ==> r.1 == (if f[i] == '%' && i + 1 < |f| then i + 2 else i + 1)
    ensures r.0.Directive? ==>
      f[i] == '%' && r.0.noPad == (f[i + 1] == '-') &&
      r.1 == i + (if r.0.noPad then 3 else 2) &&
      r.0.code == f[r.1 - 1] && r.0.marker == f[r.1 - 2]
  {
    if f[i] != '%' || i + 1 >= |f| then (Literal(f[i]), i + 1)
    else
      var j := if f[i + 1] == '-' then 1 else 0;
      if i + j + 1 < |f| then (Directive(f[i + j + 1], j == 1, f[i + j]), i + j + 2)
      else (Literal(f[i + 1]), i + j + 1)
  }

  /** The tokens read from index i to the end. */
  function ScanFrom(f: string, i: nat): seq<Token>
    requires i <= |f|
    decreases |f| - i
  {
    if i == |f| then []
    else
      var (tok, next) := Step(f, i);
      [tok] + ScanFrom(f, next)
  }

  function Scan(f: string): seq<Token>
  {
    ScanFrom(f, 0)
  }

  function Literals(s: string): (r: seq<Token>)
    ensures |r| == |s| && forall k :: 0 <= k < |s| ==> r[k] == Literal(s[k])
  {
    if s == [] then [] else [Literal(s[0])] + Literals(s[1..])
  }

  /** What follows a prefix is scanned as if the prefix were not there, once the scan
      has reached the end of the prefix. */
  lemma {:induction false} ScanShift(p: string, q: string, k: nat)
    requires k <= |q|
    ensures ScanFrom(p + q, |p| + k) == ScanFrom(q, k)
    decreases |q| - k
  {
    if k < |q| {
      var f, i := p + q, |p| + k;
      assert |f| - i == |q| - k;
      assert f[i] == q[k];
      assert i + 1 < |f| ==> f[i + 1] == q[k + 1];
      assert i + 2 < |f| ==> f[i + 2] == q[k + 2];
      assert Step(f, i).0 == Step(q, k).0 && Step(f, i).1 == |p| + Step(q, k).1;
      ScanShift(p, q, Step(q, k).1);
    }
  }

  /** A run of bytes without '%' is read as literals, one per byte. */
  lemma {:induction false} ScanLiteralRun(p: string, q: string)
    requires '%' !in p
    ensures Scan(p + q) == Literals(p) + Scan(q)
    decreases |p|
  {
    if p == [] {
      assert p + q == q;
    } else {
      var c, rest := p[0], p[1..] + q;
      var f := p + q;
      assert f == [c] + rest;
      assert ScanFrom(f, 0) == [Literal(c)] + ScanFrom(f, 1);
      ScanShift([c], rest, 0);
      ScanLiteralRun(p[1..], q);
    }
  }

  /** "%c" is one directive without flag, for any code byte other than '-'. */
  lemma ScanDirective(code: char, q: string)
    requires code != '-'
    ensures Scan(['%', code] + q) == [Directive(code, false, '%')] + Scan(q)
  {
    ScanShift(['%', code], q, 0);
  }

  /** "%-c" is one directive with the flag, for any code byte at all. */
  lemma ScanFlaggedDirective(code: char, q: string)
    ensures Scan(['%', '-', code] + q) == [Directive(code, true, '-')] + Scan(q)
  {
    ScanShift(['%', '-', code], q, 0);
  }

  /** A '%' that is the last byte is a literal '%'; a "%-" at the end is a literal '-'. */
  lemma ScanTrailingMarker(p: string)
    requires '%' !in p
    ensures Scan(p + "%") == Literals(p) + [Literal('%')]
    ensures Scan(p + "%-") == Literals(p) + [Literal('-')]
  {
    ScanLiteralRun(p, "%");
    ScanLiteralRun(p, "%-");
  }
}
