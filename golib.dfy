/**
  Stand-ins for the parts of Go's standard library that the checker calls:
  `strings.HasPrefix`/`HasSuffix`, the byte length `len` of a string, the
  `regexp` package and `strconv.Unquote`.

  Strings are sequences of Unicode code points.  Go strings are UTF-8 bytes:
  `Utf8Len` gives their byte length, and a prefix or suffix test against an
  ASCII string gives the same answer on bytes and on code points, because an
  ASCII byte never occurs inside the encoding of a wider code point.

  The regular-expression engine and the unquoting of Go literals are foreign
  code: they are the fields of a `Lib` value supplied by the caller.  The one
  pattern the checker itself fixes, `[^\x00-\xff]`, is given its meaning here.
*/
module GoLib {
  import opened Wrappers

  /** The errors the checker can run into. */
  datatype Error =
    | RegexpError(expr: string)   // the error from compiling the pattern expr
    | OsError(path: string)       // a directory could not be read
    | SyntaxError(path: string)   // go/parser could not parse a file
    | Fatal(cause: Error)         // log.Fatal was called: the process stops

  predicate HasPrefix(s: string, prefix: string)
  {
    |prefix| <= |s| && s[..|prefix|] == prefix
  }

  predicate HasSuffix(s: string, suffix: string)
  {
    |suffix| <= |s| && s[|s| - |suffix|..] == suffix
  }

  /** Number of bytes UTF-8 uses for one code point. */
  function RuneLen(c: char): (n: nat)
    ensures 1 <= n <= 4
    ensures n == 1 <==> c as int < 0x80
  {
    if c as int < 0x80 then 1
    else if c as int < 0x800 then 2
    else if c as int < 0x1_0000 then 3
    else 4
  }

  /** Go's `len(s)`: the length of the UTF-8 encoding of `s`. */
  function Utf8Len(s: string): (n: nat)
    ensures n >= |s|
    ensures n == 0 <==> s == []
    ensures n == |s| <==> forall i | 0 <= i < |s| :: s[i] as int < 0x80
  {
    if s == [] then 0 else RuneLen(s[0]) + Utf8Len(s[1..])
  }

  lemma {:induction false} Utf8LenAppend(a: string, b: string)
    ensures Utf8Len(a + b) == Utf8Len(a) + Utf8Len(b)
  {
    if a != [] {
      assert (a + b)[0] == a[0];
      assert (a + b)[1..] == a[1..] + b;
      Utf8LenAppend(a[1..], b);
    } else {
      assert a + b == b;
    }
  }

  /** The regexp and strconv packages the program is linked against. */
  datatype Lib = Lib(
    compiles: string -> bool,              // regexp.Compile(expr) succeeds
    matches: (string, string) -> bool,      // (*Regexp).MatchString for a compiled expr
    unquote: string -> Option<string>       // strconv.Unquote; None for its error
  )

  /** A compiled regular expression, identified by its source text. */
  datatype Regexp = Regexp(source: string)

  /** The pattern used when none is configured: any code point outside U+0000..U+00FF. */
  const DefaultPattern: string := "[^\\x00-\\xff]"

  /** What `DefaultPattern` matches: Go's regexp works on code points, so this
      holds iff some code point of `s` is above U+00FF.  Latin-1 letters such
      as 'é' (U+00E9) do not count. */
  predicate AboveLatin1(s: string)
  {
    s != [] && (s[0] as int > 0xFF || AboveLatin1(s[1..]))
  }

  lemma {:induction false} AboveLatin1Iff(s: string)
    ensures AboveLatin1(s) <==> exists i :: 0 <= i < |s| && s[i] as int > 0xFF
  {
    if s != [] {
      AboveLatin1Iff(s[1..]);
      if AboveLatin1(s[1..]) {
        var i :| 0 <= i < |s[1..]| && s[1..][i] as int > 0xFF;
        assert s[i + 1] as int > 0xFF;
      }
      if exists i :: 0 <= i < |s| && s[i] as int > 0xFF {
        var i :| 0 <= i < |s| && s[i] as int > 0xFF;
        if i > 0 {
          assert s[1..][i - 1] as int > 0xFF;
        }
      }
    }
  }

  /** `regexp.Compile(expr)`.  The default pattern always compiles. */
  function Compile(lib: Lib, expr: string): (r: Result<Regexp, Error>)
    ensures r.Success? <==> expr == DefaultPattern || lib.compiles(expr)
    ensures r.Success? ==> r.value.source == expr
    ensures r.Failure? ==> r.error == RegexpError(expr)
  {
    if expr == DefaultPattern || lib.compiles(expr) then Success(Regexp(expr))
    else Failure(RegexpError(expr))
  }

  /** `re.MatchString(s)`. */
  predicate MatchString(lib: Lib, re: Regexp, s: string)
  {
    if re.source == DefaultPattern then AboveLatin1(s) else lib.matches(re.source, s)
  }

  /** `regexp.MatchString(expr, s)`: compile, then match. */
  function MatchPattern(lib: Lib, expr: string, s: string): (r: Result<bool, Error>)
    ensures r.Failure? <==> Compile(lib, expr).Failure?
    ensures r.Success? ==> r.value == MatchString(lib, Regexp(expr), s)
  {
    match Compile(lib, expr)
    case Failure(e) => Failure(e)
    case Success(re) => Success(MatchString(lib, re, s))
  }

  /** `str, _ = strconv.Unquote(raw)`: on failure Unquote returns "". */
  function Unquote(lib: Lib, raw: string): string
  {
    match lib.unquote(raw)
    case None => ""
    case Some(v) => v
  }
}
