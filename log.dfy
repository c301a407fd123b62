/**
 * The engine log: a printf-like formatter that checks its format string
 * against the number of arguments it is given, a store that the caller
 * pushes formatted entries onto at the front and a writer thread drains
 * from the back, and the start/stop guards around that writer.
 *
 * A format is a C string: position `|fmt|` holds its terminator, and
 * reading beyond that is reading past the end. Argument values are not
 * modelled; the formatted text records, for each argument, its index and
 * the specifier that formats it.
 */
module Logging {
  import opened Common

  /** `INT_MAX`: the largest value `std::stoi` returns. */
  const INT_MAX: nat := 0x7FFF_FFFF

  /** The ways a `Log` call ends in an exception (or, for `ReadPastEnd`, in undefined behaviour). */
  datatype LogError =
    | NotEnoughArgs   // "Not enough args provided to Log function"
    | TooManyArgs     // "Too many args provided to Log"
    | InvalidNumber   // `std::stoi` throws `std::invalid_argument`
    | OutOfRange      // `std::stoi` throws `std::out_of_range`
    | ReadPastEnd     // the format position has been moved past the terminator

  /** How an argument is put on the stream: the `switch` over the conversion character. */
  datatype Conv = Plain | Hex(upper: bool) | Scientific(upper: bool) | HexFloat(upper: bool)

  /** What one conversion specifier asks of the stream. */
  datatype FormatSpec = FormatSpec(showbase: bool, zeroFill: bool, width: Option<nat>, precision: Option<nat>, conv: Conv)

  /** A piece of the formatted entry: a literal character, or argument `index` formatted by `spec`. */
  datatype Piece = Lit(c: char) | Arg(index: nat, spec: FormatSpec)

  /** The result of formatting: the entry's text, or the error that stopped it. */
  datatype Outcome = Logged(text: seq<Piece>) | Failed(error: LogError)

  /**
   * The behaviour of the specifier parser: as written, or with the two defects
   * recorded as findings repaired (precision digits `0` and `9` accepted,
   * and a specifier that ends the string leaving the position on the
   * terminator).
   */
  datatype Dialect = AsWritten | Corrected

  /** The character at `p`, the terminator at `|fmt|`. */
  function At(fmt: seq<char>, p: nat): char
    requires p <= |fmt|
  {
    if p == |fmt| then '\0' else fmt[p]
  }

  /** Text before an outcome: a failure stays a failure. */
  function Prefix(pre: seq<Piece>, o: Outcome): Outcome
  {
    if o.Logged? then Logged(pre + o.text) else o
  }

  lemma PrefixAssoc(a: seq<Piece>, b: seq<Piece>, o: Outcome)
    ensures Prefix(a, Prefix(b, o)) == Prefix(a + b, o)
  {
    if o.Logged? {
      assert a + (b + o.text) == (a + b) + o.text;
    }
  }

  /** The character classes the parser scans runs of. */
  datatype CharClass = FlagChars | DecimalDigits | PrecisionDigits(d: Dialect)

  predicate IsDigit(c: char)
  {
    '0' <= c <= '9'
  }

  predicate InClass(cls: CharClass, c: char)
  {
    match cls
    case FlagChars => c == '#' || IsDigit(c)
    case DecimalDigits => IsDigit(c)
    // As written the precision loop tests `> '0'` and `< '9'`.
    case PrecisionDigits(d) => if d == AsWritten then '0' < c < '9' else IsDigit(c)
  }

  /** The end of the longest run of `cls` characters starting at `q`. */
  function RunEnd(cls: CharClass, s: seq<char>, q: nat): (e: nat)
    requires q <= |s|
    ensures q <= e <= |s|
    decreases |s| - q
  {
    if q < |s| && InClass(cls, s[q]) then RunEnd(cls, s, q + 1) else q
  }

  /** The value of a string of decimal digits. */
  function DecimalValue(ds: seq<char>): nat
  {
    if ds == [] then 0 else DecimalValue(ds[..|ds| - 1]) * 10 + (ds[|ds| - 1] as int - '0' as int) % 10
  }

  /** `std::stoi` on a string of flag characters: the leading digits, which must exist and fit an `int`. */
  datatype Number = Number(value: nat) | NumberError(error: LogError)

  function Stoi(s: seq<char>): (r: Number)
    ensures r.Number? ==> r.value <= INT_MAX
    ensures r.NumberError? ==> r.error == InvalidNumber || r.error == OutOfRange
    ensures s == [] || !IsDigit(s[0]) ==> r == NumberError(InvalidNumber)
  {
    var e := RunEnd(DecimalDigits, s, 0);
    if e == 0 then NumberError(InvalidNumber)
    else if DecimalValue(s[..e]) > INT_MAX then NumberError(OutOfRange)
    else Number(DecimalValue(s[..e]))
  }

  /** The conversion a character selects; upper-case letters add `std::uppercase`. */
  function ConvOf(c: char): Conv
  {
    match c
    case 'X' => Hex(true)
    case 'x' => Hex(false)
    case 'E' => Scientific(true)
    case 'e' => Scientific(false)
    case 'A' => HexFloat(true)
    case 'a' => HexFloat(false)
    case _ => Plain
  }

  /** The last position the cleanup loop reaches: it stops before a space, before the terminator, or on it. */
  function CleanupEnd(fmt: seq<char>, p: nat): (e: nat)
    requires p <= |fmt|
    ensures p <= e <= |fmt|
    decreases |fmt| - p
  {
    if At(fmt, p) != '\0' && At(fmt, p + 1) != ' ' && At(fmt, p + 1) != '\0' then CleanupEnd(fmt, p + 1) else p
  }

  /** Where the scan resumes after a specifier whose cleanup stopped at `e`. */
  function ResumeAt(d: Dialect, fmt: seq<char>, e: nat): nat
    requires e <= |fmt|
  {
    if d == Corrected && At(fmt, e) == '\0' then e else e + 1
  }

  /** The precision part: absent without a `.`, or the run of precision digits after it. */
  datatype PrecisionParse = Precision(value: Option<nat>, end: nat) | PrecisionError(error: LogError)

  function ParsePrecision(d: Dialect, fmt: seq<char>, p: nat): (r: PrecisionParse)
    requires p <= |fmt|
    ensures r.Precision? ==> p <= r.end <= |fmt|
    ensures r.PrecisionError? ==> r.error == InvalidNumber || r.error == OutOfRange
  {
    if At(fmt, p) != '.' then Precision(None, p)
    else
      var e := RunEnd(PrecisionDigits(d), fmt, p + 1);
      if e == p + 1 then Precision(None, e)
      else
        var n := Stoi(fmt[p + 1..e]);
        if n.NumberError? then PrecisionError(n.error) else Precision(Some(n.value), e)
  }

  /**
   * The run of `#` and digits after the `%`: a leading `#` asks for the
   * base, then a leading `0` for zero fill, and what remains must start
   * with the width.
   */
  datatype FlagsParse = Flags(showbase: bool, zeroFill: bool, width: Option<nat>, end: nat) | FlagsError(error: LogError)

  function ParseFlags(fmt: seq<char>, q: nat): (r: FlagsParse)
    requires q <= |fmt|
    ensures r.Flags? ==> q <= r.end <= |fmt|
    ensures r.FlagsError? ==> r.error == InvalidNumber || r.error == OutOfRange
  {
    var flagsEnd := RunEnd(FlagChars, fmt, q);
    var numSpecs := fmt[q..flagsEnd];
    var showbase := |numSpecs| > 0 && numSpecs[0] == '#';
    var widthSpec := if showbase then numSpecs[1..] else numSpecs;
    if widthSpec == [] then Flags(showbase, false, None, flagsEnd)
    else
      var zeroFill := widthSpec[0] == '0';
      var width := Stoi(if zeroFill then widthSpec[1..] else widthSpec);
      if width.NumberError? then FlagsError(width.error) else Flags(showbase, zeroFill, Some(width.value), flagsEnd)
  }

  /** A parsed specifier and the position after it, or the error its numbers raised. */
  datatype SpecParse = Parsed(spec: FormatSpec, next: nat) | SpecError(error: LogError)

  /**
   * One conversion specifier starting just after its `%`: the flags and
   * width, an optional precision, the conversion character, and the
   * characters the cleanup loop skips.
   */
  function ParseSpec(d: Dialect, fmt: seq<char>, q: nat): (r: SpecParse)
    requires q <= |fmt|
    ensures r.Parsed? ==> r.next <= |fmt| + 1
    ensures d == Corrected && r.Parsed? ==> r.next <= |fmt|
    ensures r.SpecError? ==> r.error == InvalidNumber || r.error == OutOfRange
  {
    var flags := ParseFlags(fmt, q);
    if flags.FlagsError? then SpecError(flags.error)
    else
      var precision := ParsePrecision(d, fmt, flags.end);
      if precision.PrecisionError? then SpecError(precision.error)
      else
        var spec := FormatSpec(flags.showbase, flags.zeroFill, flags.width, precision.value, ConvOf(At(fmt, precision.end)));
        Parsed(spec, ResumeAt(d, fmt, CleanupEnd(fmt, precision.end)))
  }

  /** A `%` not followed by another `%` starts a conversion specifier. */
  predicate IsSpecStart(fmt: seq<char>, p: nat)
    requires p < |fmt|
  {
    fmt[p] == '%' && At(fmt, p + 1) != '%'
  }

  /** The position after a literal character; `%%` is one literal `%` two characters long. */
  function LitNext(fmt: seq<char>, p: nat): (q: nat)
    requires p < |fmt| && !IsSpecStart(fmt, p)
    ensures p < q <= |fmt|
  {
    if fmt[p] == '%' then p + 2 else p + 1
  }

  /**
   * The overload without arguments, from position `p`: characters are
   * copied, `%%` gives one `%`, any other `%` means an argument is missing.
   */
  function Scan0(fmt: seq<char>, p: nat): Outcome
    decreases |fmt| + 1 - p
  {
    if p > |fmt| then Failed(ReadPastEnd)
    else if At(fmt, p) == '\0' then Logged([])
    else if IsSpecStart(fmt, p) then Failed(NotEnoughArgs)
    else Prefix([Lit(fmt[p])], Scan0(fmt, LitNext(fmt, p)))
  }

  /**
   * The overload with `n >= 1` arguments, the first of them argument `k`:
   * literals are copied as without arguments; reaching the terminator
   * first means there were too many arguments.
   */
  function ScanN(d: Dialect, fmt: seq<char>, p: nat, k: nat, n: nat): Outcome
    requires n >= 1
    decreases n, |fmt| + 1 - p, 2
  {
    if p > |fmt| then Failed(ReadPastEnd)
    else if At(fmt, p) == '\0' then Failed(TooManyArgs)
    else if IsSpecStart(fmt, p) then ArgStep(d, fmt, p, k, n)
    else Prefix([Lit(fmt[p])], ScanN(d, fmt, LitNext(fmt, p), k, n))
  }

  /**
   * A specifier at `p` formats argument `k`, and the rest of the string is
   * handed on with one argument fewer.
   */
  function ArgStep(d: Dialect, fmt: seq<char>, p: nat, k: nat, n: nat): Outcome
    requires n >= 1 && p < |fmt|
    decreases n, 0, 1
  {
    var s := ParseSpec(d, fmt, p + 1);
    if s.SpecError? then Failed(s.error)
    else Prefix([Arg(k, s.spec)], Continue(d, fmt, s.next, k, n))
  }

  /** The rest of the string after argument `k` of `n` remaining: without arguments when it was the last. */
  function Continue(d: Dialect, fmt: seq<char>, q: nat, k: nat, n: nat): Outcome
    requires n >= 1
    decreases n, 0, 0
  {
    if n == 1 then Scan0(fmt, q) else ScanN(d, fmt, q, k + 1, n - 1)
  }

  /** `Log(format, args...)` with `n` arguments. */
  function Format(d: Dialect, fmt: seq<char>, n: nat): Outcome
  {
    if n == 0 then Scan0(fmt, 0) else ScanN(d, fmt, 0, 0, n)
  }

  // ---------------------------------------------------------------------
  // The formatter as written: character loops and one recursive call per argument.

  /** The scan loop over a run of `cls` characters. */
  method ScanRun(cls: CharClass, fmt: seq<char>, q: nat) returns (p: nat)
    requires q <= |fmt|
    ensures p == RunEnd(cls, fmt, q)
  {
    p := q;
    while p < |fmt| && InClass(cls, fmt[p])
      invariant q <= p <= |fmt|
      invariant RunEnd(cls, fmt, p) == RunEnd(cls, fmt, q)
      decreases |fmt| - p
    {
      p := p + 1;
    }
  }

  /** The flag loop of the specifier branch and the width conversion after it. */
  method ScanFlags(fmt: seq<char>, q: nat) returns (r: FlagsParse)
    requires q <= |fmt|
    ensures r == ParseFlags(fmt, q)
  {
    var p := ScanRun(FlagChars, fmt, q);
    var numSpecs := fmt[q..p];
    var showbase := false;
    if |numSpecs| > 0 && numSpecs[0] == '#' {
      showbase := true;
      numSpecs := numSpecs[1..];
    }
    var zeroFill := false;
    var width: Option<nat> := None;
    if numSpecs != [] {
      if numSpecs[0] == '0' {
        zeroFill := true;
        numSpecs := numSpecs[1..];
      }
      var w := Stoi(numSpecs);
      if w.NumberError? {
        return FlagsError(w.error);
      }
      width := Some(w.value);
    }
    r := Flags(showbase, zeroFill, width, p);
  }

  /** The precision branch: after a `.`, the loop over precision digits and their conversion. */
  method ScanPrecision(fmt: seq<char>, p: nat) returns (r: PrecisionParse)
    requires p <= |fmt|
    ensures r == ParsePrecision(AsWritten, fmt, p)
  {
    if At(fmt, p) != '.' {
      return Precision(None, p);
    }
    var start := p + 1;
    var e := ScanRun(PrecisionDigits(AsWritten), fmt, start);
    if e == start {
      return Precision(None, e);
    }
    var n := Stoi(fmt[start..e]);
    if n.NumberError? {
      return PrecisionError(n.error);
    }
    r := Precision(Some(n.value), e);
  }

  /** The cleanup loop: skips to the last character before a space or the terminator. */
  method SkipSpecifierTail(fmt: seq<char>, p0: nat) returns (p: nat)
    requires p0 <= |fmt|
    ensures p == CleanupEnd(fmt, p0)
  {
    p := p0;
    while At(fmt, p) != '\0' && At(fmt, p + 1) != ' ' && At(fmt, p + 1) != '\0'
      invariant p <= |fmt|
      invariant CleanupEnd(fmt, p) == CleanupEnd(fmt, p0)
      decreases |fmt| - p
    {
      p := p + 1;
    }
  }

  /** The specifier branch of the overload with arguments, up to the recursive call. */
  method ParseSpecifier(fmt: seq<char>, q: nat) returns (r: SpecParse)
    requires q <= |fmt|
    ensures r == ParseSpec(AsWritten, fmt, q)
  {
    var flags := ScanFlags(fmt, q);
    if flags.FlagsError? {
      return SpecError(flags.error);
    }
    var precision := ScanPrecision(fmt, flags.end);
    if precision.PrecisionError? {
      return SpecError(precision.error);
    }
    var spec := FormatSpec(flags.showbase, flags.zeroFill, flags.width, precision.value, ConvOf(At(fmt, precision.end)));
    var p := SkipSpecifierTail(fmt, precision.end);
    r := Parsed(spec, p + 1);
  }

  /** `Log(format, logEntry)`: the overload with no arguments left, from position `start`. */
  method LogNoArgs(fmt: seq<char>, start: nat, entry: seq<Piece>) returns (r: Outcome)
    ensures r == Prefix(entry, Scan0(fmt, start))
  {
    if start > |fmt| {
      return Failed(ReadPastEnd);
    }
    var p := start;
    var text := entry;
    while At(fmt, p) != '\0'
      invariant p <= |fmt|
      invariant Prefix(text, Scan0(fmt, p)) == Prefix(entry, Scan0(fmt, start))
      decreases |fmt| - p
    {
      if fmt[p] == '%' {
        p := p + 1;
        if At(fmt, p) != '%' {
          return Failed(NotEnoughArgs);
        }
      }
      PrefixAssoc(text, [Lit(fmt[p])], Scan0(fmt, p + 1));
      text := text + [Lit(fmt[p])];
      p := p + 1;
    }
    r := Logged(text);
  }

  /** `Log(format, logEntry, value, args...)` with `n >= 1` arguments, the first being argument `k`. */
  method LogArgs(fmt: seq<char>, start: nat, entry: seq<Piece>, k: nat, n: nat) returns (r: Outcome)
    requires n >= 1
    ensures r == Prefix(entry, ScanN(AsWritten, fmt, start, k, n))
    decreases n
  {
    if start > |fmt| {
      return Failed(ReadPastEnd);
    }
    var p := start;
    var text := entry;
    while At(fmt, p) != '\0'
      invariant p <= |fmt|
      invariant Prefix(text, ScanN(AsWritten, fmt, p, k, n)) == Prefix(entry, ScanN(AsWritten, fmt, start, k, n))
      decreases |fmt| - p
    {
      if fmt[p] == '%' && At(fmt, p + 1) != '%' {
        var s := ParseSpecifier(fmt, p + 1);
        if s.SpecError? {
          return Failed(s.error);
        }
        PrefixAssoc(text, [Arg(k, s.spec)], Continue(AsWritten, fmt, s.next, k, n));
        text := text + [Arg(k, s.spec)];
        if n == 1 {
          r := LogNoArgs(fmt, s.next, text);
        } else {
          r := LogArgs(fmt, s.next, text, k + 1, n - 1);
        }
        return;
      }
      if fmt[p] == '%' {
        p := p + 1;
      }
      PrefixAssoc(text, [Lit(fmt[p])], ScanN(AsWritten, fmt, p + 1, k, n));
      text := text + [Lit(fmt[p])];
      p := p + 1;
    }
    r := Failed(TooManyArgs);
  }

  /** The entry `Log(format, args...)` produces with `n` arguments. */
  method FormatEntry(fmt: seq<char>, n: nat) returns (r: Outcome)
    ensures r == Format(AsWritten, fmt, n)
  {
    if n == 0 {
      r := LogNoArgs(fmt, 0, []);
    } else {
      r := LogArgs(fmt, 0, [], 0, n);
    }
  }

  // ---------------------------------------------------------------------
  // Argument-count checking.

  /** Arguments are never missing past a point the no-argument overload gets through. */
  lemma {:induction false} Scan0ThenTooMany(d: Dialect, fmt: seq<char>, p: nat, k: nat, n: nat)
    requires n >= 1 && Scan0(fmt, p).Logged?
    ensures ScanN(d, fmt, p, k, n) == Failed(TooManyArgs)
    decreases |fmt| + 1 - p
  {
    if At(fmt, p) != '\0' {
      Scan0ThenTooMany(d, fmt, LitNext(fmt, p), k, n);
    }
  }

  /** Where the overload with arguments still finds a specifier, the one without finds it first. */
  lemma {:induction false} ScanNThenNotEnough(d: Dialect, fmt: seq<char>, p: nat, k: nat, n: nat)
    requires n >= 1 && ScanN(d, fmt, p, k, n).Logged?
    ensures Scan0(fmt, p) == Failed(NotEnoughArgs)
    decreases |fmt| + 1 - p
  {
    if !IsSpecStart(fmt, p) {
      ScanNThenNotEnough(d, fmt, LitNext(fmt, p), k, n);
    }
  }

  /** Fewer arguments than a successful call: the scan runs out at a specifier. */
  lemma {:induction false} FewerArgs(d: Dialect, fmt: seq<char>, p: nat, k: nat, n: nat, k': nat, m: nat)
    requires 1 <= m < n && ScanN(d, fmt, p, k, n).Logged?
    ensures ScanN(d, fmt, p, k', m) == Failed(NotEnoughArgs)
    decreases n, |fmt| + 1 - p, 2
  {
    if IsSpecStart(fmt, p) {
      FewerArgStep(d, fmt, p, k, n, k', m);
    } else {
      FewerArgs(d, fmt, LitNext(fmt, p), k, n, k', m);
    }
  }

  lemma {:induction false} FewerArgStep(d: Dialect, fmt: seq<char>, p: nat, k: nat, n: nat, k': nat, m: nat)
    requires p < |fmt| && 1 <= m < n && ArgStep(d, fmt, p, k, n).Logged?
    ensures ArgStep(d, fmt, p, k', m) == Failed(NotEnoughArgs)
    decreases n, 0, 1
  {
    FewerContinue(d, fmt, ParseSpec(d, fmt, p + 1).next, k, n, k', m);
  }

  lemma {:induction false} FewerContinue(d: Dialect, fmt: seq<char>, q: nat, k: nat, n: nat, k': nat, m: nat)
    requires 1 <= m < n && Continue(d, fmt, q, k, n).Logged?
    ensures Continue(d, fmt, q, k', m) == Failed(NotEnoughArgs)
    decreases n, 0, 0
  {
    if m == 1 {
      ScanNThenNotEnough(d, fmt, q, k + 1, n - 1);
    } else {
      FewerArgs(d, fmt, q, k + 1, n - 1, k' + 1, m - 1);
    }
  }

  /** More arguments than a successful call: the scan reaches the terminator with some left. */
  lemma {:induction false} MoreArgs(d: Dialect, fmt: seq<char>, p: nat, k: nat, n: nat, k': nat, m: nat)
    requires 1 <= n < m && ScanN(d, fmt, p, k, n).Logged?
    ensures ScanN(d, fmt, p, k', m) == Failed(TooManyArgs)
    decreases n, |fmt| + 1 - p, 2
  {
    if IsSpecStart(fmt, p) {
      MoreArgStep(d, fmt, p, k, n, k', m);
    } else {
      MoreArgs(d, fmt, LitNext(fmt, p), k, n, k', m);
    }
  }

  lemma {:induction false} MoreArgStep(d: Dialect, fmt: seq<char>, p: nat, k: nat, n: nat, k': nat, m: nat)
    requires p < |fmt| && 1 <= n < m && ArgStep(d, fmt, p, k, n).Logged?
    ensures ArgStep(d, fmt, p, k', m) == Failed(TooManyArgs)
    decreases n, 0, 1
  {
    MoreContinue(d, fmt, ParseSpec(d, fmt, p + 1).next, k, n, k', m);
  }

  lemma {:induction false} MoreContinue(d: Dialect, fmt: seq<char>, q: nat, k: nat, n: nat, k': nat, m: nat)
    requires 1 <= n < m && Continue(d, fmt, q, k, n).Logged?
    ensures Continue(d, fmt, q, k', m) == Failed(TooManyArgs)
    decreases n, 0, 0
  {
    if n == 1 {
      Scan0ThenTooMany(d, fmt, q, k' + 1, m - 1);
    } else {
      MoreArgs(d, fmt, q, k + 1, n - 1, k' + 1, m - 1);
    }
  }

  /**
   * A format accepts exactly one argument count: with fewer arguments the
   * call throws "Not enough args", with more it throws "Too many args".
   */
  lemma ArgCountExact(d: Dialect, fmt: seq<char>, n: nat, m: nat)
    requires Format(d, fmt, n).Logged?
    ensures m < n ==> Format(d, fmt, m) == Failed(NotEnoughArgs)
    ensures n < m ==> Format(d, fmt, m) == Failed(TooManyArgs)
  {
    if m < n {
      if m == 0 {
        ScanNThenNotEnough(d, fmt, 0, 0, n);
      } else {
        FewerArgs(d, fmt, 0, 0, n, 0, m);
      }
    } else if n < m {
      if n == 0 {
        Scan0ThenTooMany(d, fmt, 0, 0, m);
      } else {
        MoreArgs(d, fmt, 0, 0, n, 0, m);
      }
    }
  }

  /** The argument indices of a text, in order. */
  function ArgIndices(text: seq<Piece>): seq<nat>
  {
    if text == [] then []
    else (if text[0].Arg? then [text[0].index] else []) + ArgIndices(text[1..])
  }

  lemma {:induction false} ArgIndicesAppend(a: seq<Piece>, b: seq<Piece>)
    ensures ArgIndices(a + b) == ArgIndices(a) + ArgIndices(b)
  {
    if a != [] {
      assert (a + b)[0] == a[0] && (a + b)[1..] == a[1..] + b;
      ArgIndicesAppend(a[1..], b);
    } else {
      assert a + b == b;
    }
  }

  /** `k, k+1, ..., k+n-1`. */
  function Indices(k: nat, n: nat): (r: seq<nat>)
    ensures |r| == n && forall i :: 0 <= i < n ==> r[i] == k + i
    decreases n
  {
    if n == 0 then [] else [k] + Indices(k + 1, n - 1)
  }

  lemma {:induction false} Scan0NoArgs(fmt: seq<char>, p: nat)
    requires Scan0(fmt, p).Logged?
    ensures ArgIndices(Scan0(fmt, p).text) == []
    decreases |fmt| + 1 - p
  {
    if At(fmt, p) != '\0' {
      var q := LitNext(fmt, p);
      Scan0NoArgs(fmt, q);
      ArgIndicesAppend([Lit(fmt[p])], Scan0(fmt, q).text);
    }
  }

  lemma {:induction false} ScanNArgsInOrder(d: Dialect, fmt: seq<char>, p: nat, k: nat, n: nat)
    requires n >= 1 && ScanN(d, fmt, p, k, n).Logged?
    ensures ArgIndices(ScanN(d, fmt, p, k, n).text) == Indices(k, n)
    decreases n, |fmt| + 1 - p, 2
  {
    if IsSpecStart(fmt, p) {
      ArgStepArgsInOrder(d, fmt, p, k, n);
    } else {
      var q := LitNext(fmt, p);
      ScanNArgsInOrder(d, fmt, q, k, n);
      ArgIndicesAppend([Lit(fmt[p])], ScanN(d, fmt, q, k, n).text);
    }
  }

  lemma {:induction false} ArgStepArgsInOrder(d: Dialect, fmt: seq<char>, p: nat, k: nat, n: nat)
    requires n >= 1 && p < |fmt| && ArgStep(d, fmt, p, k, n).Logged?
    ensures ArgIndices(ArgStep(d, fmt, p, k, n).text) == Indices(k, n)
    decreases n, 0, 1
  {
    var s := ParseSpec(d, fmt, p + 1);
    ContinueArgsInOrder(d, fmt, s.next, k, n);
    ArgIndicesAppend([Arg(k, s.spec)], Continue(d, fmt, s.next, k, n).text);
  }

  lemma {:induction false} ContinueArgsInOrder(d: Dialect, fmt: seq<char>, q: nat, k: nat, n: nat)
    requires n >= 1 && Continue(d, fmt, q, k, n).Logged?
    ensures ArgIndices(Continue(d, fmt, q, k, n).text) == Indices(k + 1, n - 1)
    decreases n, 0, 0
  {
    if n == 1 {
      Scan0NoArgs(fmt, q);
    } else {
      ScanNArgsInOrder(d, fmt, q, k + 1, n - 1);
    }
  }

  /** A successful call formats every argument exactly once, in the order given. */
  lemma ArgsInOrder(d: Dialect, fmt: seq<char>, n: nat)
    requires Format(d, fmt, n).Logged?
    ensures ArgIndices(Format(d, fmt, n).text) == Indices(0, n)
  {
    if n == 0 {
      Scan0NoArgs(fmt, 0);
    } else {
      ScanNArgsInOrder(d, fmt, 0, 0, n);
    }
  }

  /** The text of a plain string: one literal per character. */
  function Lits(s: seq<char>): (r: seq<Piece>)
    ensures |r| == |s| && forall i :: 0 <= i < |s| ==> r[i] == Lit(s[i])
  {
    if s == [] then [] else [Lit(s[0])] + Lits(s[1..])
  }

  lemma {:induction false} PlainTail(fmt: seq<char>, p: nat)
    requires p <= |fmt| && '%' !in fmt && '\0' !in fmt
    ensures Scan0(fmt, p) == Logged(Lits(fmt[p..]))
    decreases |fmt| - p
  {
    if p < |fmt| {
      PlainTail(fmt, p + 1);
      assert fmt[p..] == [fmt[p]] + fmt[p + 1..];
    }
  }

  /** A string without `%` is logged as it stands, and only without arguments. */
  lemma PlainFormat(d: Dialect, fmt: seq<char>, n: nat)
    requires '%' !in fmt && '\0' !in fmt
    ensures n == 0 ==> Format(d, fmt, n) == Logged(Lits(fmt))
    ensures n > 0 ==> Format(d, fmt, n) == Failed(TooManyArgs)
  {
    PlainTail(fmt, 0);
    assert fmt[0..] == fmt;
    if n > 0 {
      Scan0ThenTooMany(d, fmt, 0, 0, n);
    }
  }

  /** One character as a format string writes it: `%` doubled, anything else as it is. */
  function EscapeChar(c: char): seq<char>
  {
    if c == '%' then "%%" else [c]
  }

  /** `t` with every `%` doubled: the format string that logs `t` as it stands. */
  function Escape(t: seq<char>): seq<char>
  {
    if t == [] then [] else EscapeChar(t[0]) + Escape(t[1..])
  }

  /** Both overloads copy one escaped character: `%%` gives one `%`, any other character gives itself. */
  lemma EscapedChar(d: Dialect, c: char, s: seq<char>, p: nat, k: nat, n: nat)
    requires c != '\0'
    requires p + |EscapeChar(c)| <= |s| && s[p..p + |EscapeChar(c)|] == EscapeChar(c)
    ensures Scan0(s, p) == Prefix([Lit(c)], Scan0(s, p + |EscapeChar(c)|))
    ensures n >= 1 ==> ScanN(d, s, p, k, n) == Prefix([Lit(c)], ScanN(d, s, p + |EscapeChar(c)|, k, n))
  {
    assert s[p] == EscapeChar(c)[0];
    if c == '%' {
      assert s[p + 1] == EscapeChar(c)[1];
    }
    assert !IsSpecStart(s, p) && LitNext(s, p) == p + |EscapeChar(c)|;
  }

  /**
   * Both overloads copy an escaped run of text, each `%%` as one `%`, and
   * the scan goes on after the run.
   */
  lemma {:induction false} EscapedRun(d: Dialect, t: seq<char>, s: seq<char>, p: nat, k: nat, n: nat)
    requires '\0' !in t
    requires p + |Escape(t)| <= |s| && s[p..p + |Escape(t)|] == Escape(t)
    ensures Scan0(s, p) == Prefix(Lits(t), Scan0(s, p + |Escape(t)|))
    ensures n >= 1 ==> ScanN(d, s, p, k, n) == Prefix(Lits(t), ScanN(d, s, p + |Escape(t)|, k, n))
    decreases |t|
  {
    if t != [] {
      var head := EscapeChar(t[0]);
      var q := p + |head|;
      var e := q + |Escape(t[1..])|;
      assert Escape(t) == head + Escape(t[1..]);
      assert s[p..q] == head && s[q..e] == Escape(t[1..]) by {
        assert s[p..q] == Escape(t)[..|head|];
        assert s[q..e] == Escape(t)[|head|..];
      }
      EscapedChar(d, t[0], s, p, k, n);
      EscapedRun(d, t[1..], s, q, k, n);
      assert Lits(t) == [Lit(t[0])] + Lits(t[1..]);
      PrefixAssoc([Lit(t[0])], Lits(t[1..]), Scan0(s, e));
      if n >= 1 {
        PrefixAssoc([Lit(t[0])], Lits(t[1..]), ScanN(d, s, e, k, n));
      }
    }
  }

  /** An escaped text is logged as it stands without arguments, and throws "Too many args" with any. */
  lemma EscapedFormat(d: Dialect, t: seq<char>, n: nat)
    requires '\0' !in t
    ensures n == 0 ==> Format(d, Escape(t), n) == Logged(Lits(t))
    ensures n > 0 ==> Format(d, Escape(t), n) == Failed(TooManyArgs)
  {
    var s := Escape(t);
    assert s[0..|s|] == s;
    EscapedRun(d, t, s, 0, 0, 1);
    assert Lits(t) + [] == Lits(t);
    if n > 0 {
      Scan0ThenTooMany(d, s, 0, 0, n);
    }
  }

  /** Without arguments, the first `%` that is not doubled throws "Not enough args", whatever follows. */
  lemma LoneSpecifierNeedsArgument(t: seq<char>, rest: seq<char>)
    requires '\0' !in t
    requires rest == [] || rest[0] != '%'
    ensures Format(AsWritten, Escape(t) + ['%'] + rest, 0) == Failed(NotEnoughArgs)
  {
    var s := Escape(t) + ['%'] + rest;
    var e := |Escape(t)|;
    assert s[0..e] == Escape(t);
    EscapedRun(AsWritten, t, s, 0, 0, 1);
    assert s[e] == '%';
    assert e + 1 < |s| ==> s[e + 1] == rest[0];
    assert IsSpecStart(s, e);
  }

  /**
   * The flag run of a specifier: a leading `#` asks for the base, a `0`
   * after it for zero fill, and the digits after those are the width.
   */
  lemma FlagsWithWidth(fmt: seq<char>, q: nat, showbase: bool, zeroFill: bool, e: nat)
    requires q + (if showbase then 1 else 0) + (if zeroFill then 1 else 0) < e <= |fmt|
    requires fmt[q] == '#' <==> showbase
    requires fmt[q + (if showbase then 1 else 0)] == '0' <==> zeroFill
    requires forall i :: q + (if showbase then 1 else 0) + (if zeroFill then 1 else 0) <= i < e ==> IsDigit(fmt[i])
    requires e == |fmt| || !InClass(FlagChars, fmt[e])
    requires DecimalValue(fmt[q + (if showbase then 1 else 0) + (if zeroFill then 1 else 0)..e]) <= INT_MAX
    ensures ParseFlags(fmt, q) ==
      Flags(showbase, zeroFill, Some(DecimalValue(fmt[q + (if showbase then 1 else 0) + (if zeroFill then 1 else 0)..e])), e)
  {
    var a := q + (if showbase then 1 else 0);
    var b := a + (if zeroFill then 1 else 0);
    RunEndAt(FlagChars, fmt, q, e);
    var numSpecs := fmt[q..e];
    assert numSpecs[0] == fmt[q];
    var widthSpec := if showbase then numSpecs[1..] else numSpecs;
    assert widthSpec == fmt[a..e];
    assert widthSpec[0] == fmt[a];
    assert (if zeroFill then widthSpec[1..] else widthSpec) == fmt[b..e];
    StoiDigits(fmt[b..e]);
  }

  /** Without digits after the optional `#` there is no width and no zero fill. */
  lemma FlagsWithoutWidth(fmt: seq<char>, q: nat, showbase: bool)
    requires q + (if showbase then 1 else 0) <= |fmt|
    requires showbase ==> fmt[q] == '#'
    requires q + (if showbase then 1 else 0) == |fmt| || !InClass(FlagChars, fmt[q + (if showbase then 1 else 0)])
    ensures ParseFlags(fmt, q) == Flags(showbase, false, None, q + (if showbase then 1 else 0))
  {
    RunEndAt(FlagChars, fmt, q, q + (if showbase then 1 else 0));
  }

  // ---------------------------------------------------------------------
  // Findings.

  /**
   * As written, the precision loop accepts only `1` to `8`: `%.9f` is
   * formatted with no precision, and `%.10f` with precision 1.
   */
  lemma PrecisionDigitsAsWritten()
    ensures ParsePrecision(AsWritten, ".9f", 0) == Precision(None, 1)
    ensures ParsePrecision(AsWritten, ".10f", 0) == Precision(Some(1), 2)
    ensures ParsePrecision(Corrected, ".9f", 0) == Precision(Some(9), 2)
  {
    assert ".10f"[1..2] == "1";
    assert ".9f"[1..2] == "9";
    assert DecimalValue("1") == 1 && DecimalValue("9") == 9 by {
      assert "1"[..0] == [] && "9"[..0] == [];
    }
  }

  /** A run of `cls` characters ending where the class ends is exactly what `RunEnd` finds. */
  lemma {:induction false} RunEndAt(cls: CharClass, s: seq<char>, q: nat, e: nat)
    requires q <= e <= |s|
    requires forall i :: q <= i < e ==> InClass(cls, s[i])
    requires e == |s| || !InClass(cls, s[e])
    ensures RunEnd(cls, s, q) == e
    decreases e - q
  {
    if q < e {
      RunEndAt(cls, s, q + 1, e);
    }
  }

  /** `Stoi` on a string of digits that fits an `int` is its decimal value. */
  lemma StoiDigits(ds: seq<char>)
    requires ds != [] && forall i :: 0 <= i < |ds| ==> IsDigit(ds[i])
    requires DecimalValue(ds) <= INT_MAX
    ensures Stoi(ds) == Number(DecimalValue(ds))
  {
    RunEndAt(DecimalDigits, ds, 0, |ds|);
    assert ds[..|ds|] == ds;
  }

  /** The corrected precision loop reads every digit after the `.`, up to the first non-digit at `e`. */
  lemma CorrectedPrecision(fmt: seq<char>, e: nat)
    requires 1 < e <= |fmt| && fmt[0] == '.'
    requires forall i :: 1 <= i < e ==> IsDigit(fmt[i])
    requires e == |fmt| || !IsDigit(fmt[e])
    requires DecimalValue(fmt[1..e]) <= INT_MAX
    ensures ParsePrecision(Corrected, fmt, 0) == Precision(Some(DecimalValue(fmt[1..e])), e)
  {
    RunEndAt(PrecisionDigits(Corrected), fmt, 1, e);
    StoiDigits(fmt[1..e]);
  }

  /**
   * As written, a `%` that ends the string makes the cleanup step past the
   * terminator: the next scan starts beyond the end of the string.
   */
  lemma TrailingPercentAsWritten()
    ensures Format(AsWritten, "%", 1) == Failed(ReadPastEnd)
    ensures Format(Corrected, "%", 1) == Logged([Arg(0, FormatSpec(false, false, None, None, Plain))])
  {
    assert "%"[1..1] == [];
  }

  /** The no-argument scan never leaves the string. */
  lemma {:induction false} Scan0InBounds(fmt: seq<char>, p: nat)
    requires p <= |fmt|
    ensures Scan0(fmt, p) != Failed(ReadPastEnd)
    decreases |fmt| + 1 - p
  {
    if At(fmt, p) != '\0' && !IsSpecStart(fmt, p) {
      Scan0InBounds(fmt, LitNext(fmt, p));
    }
  }

  lemma {:induction false} ScanNInBounds(fmt: seq<char>, p: nat, k: nat, n: nat)
    requires n >= 1 && p <= |fmt|
    ensures ScanN(Corrected, fmt, p, k, n) != Failed(ReadPastEnd)
    decreases n, |fmt| + 1 - p, 2
  {
    if At(fmt, p) != '\0' {
      if IsSpecStart(fmt, p) {
        ArgStepInBounds(fmt, p, k, n);
      } else {
        ScanNInBounds(fmt, LitNext(fmt, p), k, n);
      }
    }
  }

  lemma {:induction false} ArgStepInBounds(fmt: seq<char>, p: nat, k: nat, n: nat)
    requires n >= 1 && p < |fmt|
    ensures ArgStep(Corrected, fmt, p, k, n) != Failed(ReadPastEnd)
    decreases n, 0, 1
  {
    var s := ParseSpec(Corrected, fmt, p + 1);
    if s.Parsed? {
      ContinueInBounds(fmt, s.next, k, n);
    }
  }

  lemma {:induction false} ContinueInBounds(fmt: seq<char>, q: nat, k: nat, n: nat)
    requires n >= 1 && q <= |fmt|
    ensures Continue(Corrected, fmt, q, k, n) != Failed(ReadPastEnd)
    decreases n, 0, 0
  {
    if n == 1 {
      Scan0InBounds(fmt, q);
    } else {
      ScanNInBounds(fmt, q, k + 1, n - 1);
    }
  }

  /** With the corrected resume, no format string and no argument count reads past the terminator. */
  lemma NeverReadsPastEnd(fmt: seq<char>, n: nat)
    ensures Format(Corrected, fmt, n) != Failed(ReadPastEnd)
  {
    if n == 0 {
      Scan0InBounds(fmt, 0);
    } else {
      ScanNInBounds(fmt, 0, 0, n);
    }
  }

  // ---------------------------------------------------------------------
  // The store and its writer.

  /** The order the writer emits a store in: from the back. */
  function Drain(store: seq<seq<Piece>>): (r: seq<seq<Piece>>)
    ensures |r| == |store|
  {
    if store == [] then [] else [store[|store| - 1]] + Drain(store[..|store| - 1])
  }

  lemma DrainSnoc(store: seq<seq<Piece>>, y: seq<Piece>)
    ensures Drain(store + [y]) == [y] + Drain(store)
  {
    assert (store + [y])[..|store|] == store;
  }

  /** Entries pushed at the front come out after everything already stored. */
  lemma {:induction false} DrainPushFront(x: seq<Piece>, store: seq<seq<Piece>>)
    ensures Drain([x] + store) == Drain(store) + [x]
    decreases |store|
  {
    if store == [] {
      assert [x] + store == [] + [x];
      DrainSnoc([], x);
    } else {
      var init, y := store[..|store| - 1], store[|store| - 1];
      assert store == init + [y];
      assert [x] + store == ([x] + init) + [y];
      DrainSnoc([x] + init, y);
      DrainSnoc(init, y);
      DrainPushFront(x, init);
    }
  }

  /** The store after pushing `entries` at the front, one after another. */
  function PushAll(entries: seq<seq<Piece>>, store: seq<seq<Piece>>): seq<seq<Piece>>
  {
    if entries == [] then store else PushAll(entries[1..], [entries[0]] + store)
  }

  /** The store is first in, first out: draining what was pushed gives it back in push order. */
  lemma {:induction false} DrainPushAll(entries: seq<seq<Piece>>, store: seq<seq<Piece>>)
    ensures Drain(PushAll(entries, store)) == Drain(store) + entries
    decreases |entries|
  {
    if entries != [] {
      DrainPushAll(entries[1..], [entries[0]] + store);
      DrainPushFront(entries[0], store);
      assert entries == [entries[0]] + entries[1..];
    }
  }

  /** A log directory argument: none, or one that exists (as a directory or not) or does not. */
  datatype LogDir = NoDir | Dir(present: bool, isDirectory: bool)

  /** The logger's static state. */
  class Logger {
    /** `s_logEnabled`. */
    var logEnabled: bool
    /** `s_stdoutEnabled`. */
    var stdoutEnabled: bool
    /** Whether `s_logFileStream` is open. */
    var fileOpen: bool
    /** `s_logStore`, front first. */
    var store: seq<seq<Piece>>
    /** The entries the writer thread has emitted, in order. */
    var written: seq<seq<Piece>>

    /** The statics before the first `InitLog`. */
    constructor ()
      ensures !logEnabled && !stdoutEnabled && !fileOpen && store == [] && written == []
    {
      logEnabled := false;
      stdoutEnabled := false;
      fileOpen := false;
      store := [];
      written := [];
    }

    /**
     * `InitLog`: only when logging is off. The stdout flag is taken first;
     * a directory path that names something other than a directory throws;
     * otherwise the file is opened (when a directory is given), the store
     * emptied and logging switched on. When logging is already on, nothing
     * changes.
     */
    method InitLog(stdout: bool, dir: LogDir) returns (ok: bool)
      modifies this
      ensures written == old(written)
      ensures old(logEnabled) ==>
        ok && logEnabled && stdoutEnabled == old(stdoutEnabled) && fileOpen == old(fileOpen) && store == old(store)
      ensures !old(logEnabled) ==> stdoutEnabled == stdout
      ensures !old(logEnabled) ==> (ok <==> !(dir.Dir? && dir.present && !dir.isDirectory))
      ensures !old(logEnabled) && !ok ==> !logEnabled && fileOpen == old(fileOpen) && store == old(store)
      ensures !old(logEnabled) && ok ==> logEnabled && store == [] && fileOpen == (dir.Dir? || old(fileOpen))
    {
      ok := true;
      if !logEnabled {
        stdoutEnabled := stdout;
        if dir.Dir? {
          if dir.present && !dir.isDirectory {
            ok := false;
            return;
          }
          fileOpen := true;
        }
        store := [];
        logEnabled := true;
      }
    }

    /**
     * `DeInitLog`: only when logging is on. Logging is switched off and the
     * writer joined, which drains every stored entry, oldest first, before
     * the file is closed.
     */
    method DeInitLog()
      modifies this
      ensures !logEnabled && stdoutEnabled == old(stdoutEnabled)
      ensures old(logEnabled) ==> written == old(written) + Drain(old(store)) && store == [] && !fileOpen
      ensures !old(logEnabled) ==> written == old(written) && store == old(store) && fileOpen == old(fileOpen)
    {
      if logEnabled {
        logEnabled := false;
        while store != []
          invariant written + Drain(store) == old(written) + Drain(old(store))
          invariant !logEnabled && stdoutEnabled == old(stdoutEnabled)
          decreases |store|
        {
          WriteOldest();
        }
        fileOpen := false;
      }
    }

    /** One step of `LogLoop`: the entry at the back of the store is removed and emitted. */
    method WriteOldest()
      requires store != []
      modifies this
      ensures store == old(store)[..|old(store)| - 1]
      ensures written == old(written) + [old(store)[|old(store)| - 1]]
      ensures written + Drain(store) == old(written) + Drain(old(store))
      ensures logEnabled == old(logEnabled) && stdoutEnabled == old(stdoutEnabled) && fileOpen == old(fileOpen)
    {
      var entry := store[|store| - 1];
      store := store[..|store| - 1];
      written := written + [entry];
    }

    /**
     * `Log(format, args...)` with `n` arguments: a formatted entry is pushed
     * at the front of the store, whether or not logging is on; a failed
     * call stores nothing.
     */
    method Log(fmt: seq<char>, n: nat) returns (r: Outcome)
      modifies this
      ensures r == Format(AsWritten, fmt, n)
      ensures r.Logged? ==> store == [r.text] + old(store)
      ensures r.Failed? ==> store == old(store)
      ensures written == old(written) && logEnabled == old(logEnabled) &&
        stdoutEnabled == old(stdoutEnabled) && fileOpen == old(fileOpen)
    {
      r := FormatEntry(fmt, n);
      if r.Logged? {
        store := [r.text] + store;
      }
    }
  }
}
