/** `__box_cbprintf` of the jumptable-hello superbox: a minimal printf that
    hands its output, piece by piece, to a write callback.  The variadic
    arguments are a list of values, and the callback appends to a sequence
    and reports everything as written. */
module Printf {
  import opened Common

  //// arithmetic ////

  function Pow(b: nat, n: nat): (r: nat)
    ensures b > 0 ==> r > 0
  {
    if n == 0 then 1 else b * Pow(b, n - 1)
  }

  lemma MulDistrib(d: int, x: int, y: int)
    ensures d * (x - y) == d * x - d * y
  {
  }

  lemma MulPos(d: nat, k: nat)
    requires k >= 1
    ensures d * k >= d
  {
  }

  lemma MulMono(a: nat, x: nat, y: nat)
    requires x <= y
    ensures a * x <= a * y
  {
    MulDistrib(a, y, x);
  }

  /** Division is determined by quotient and remainder. */
  lemma DivUnique(v: nat, d: nat, q: nat, r: nat)
    requires d > 0 && v == d * q + r && r < d
    ensures v / d == q && v % d == r
  {
    var q', r' := v / d, v % d;
    assert v == d * q' + r';
    MulDistrib(d, q, q');
    MulDistrib(d, q', q);
    if q > q' {
      MulPos(d, q - q');
    } else if q' > q {
      MulPos(d, q' - q);
    }
  }

  /** v = a*x + r1 and x = c*q + r2 with small remainders put v in the
      q-th block of a*c. */
  lemma Compose(v: nat, a: nat, c: nat, x: nat, q: nat, r1: nat, r2: nat)
    requires a > 0 && c > 0 && r1 < a && r2 < c
    requires v == a * x + r1 && x == c * q + r2
    ensures v == (a * c) * q + (a * r2 + r1) && a * r2 + r1 < a * c
  {
    assert a * x == a * (c * q) + a * r2;
    assert a * (c * q) == (a * c) * q;
    MulMono(a, r2, c - 1);
    MulDistrib(a, c, 1);
  }

  /** Dividing twice is dividing by the product. */
  lemma DivDiv(v: nat, a: nat, c: nat)
    requires a > 0 && c > 0
    ensures v / (a * c) == (v / a) / c
  {
    var x := v / a;
    Compose(v, a, c, x, x / c, v % a, x % c);
    DivUnique(v, a * c, x / c, a * (x % c) + v % a);
  }

  /** Dividing by b >= 2 shrinks a number that has a second digit, and
      leaves at least 1. */
  lemma DivShrinks(v: nat, b: nat)
    requires b >= 2 && v >= b
    ensures 1 <= v / b < v && v == b * (v / b) + v % b
  {
    var q := v / b;
    assert v == b * q + v % b && v % b < b;
    assert b * q > 0;
    MulMono(q, 2, b);
    assert b * q >= 2 * q;
  }

  /** Dividing a positive number by b >= 2 makes it smaller. */
  lemma DivLess(t: nat, b: nat)
    requires t > 0 && b >= 2
    ensures t / b < t
  {
    assert t == b * (t / b) + t % b;
  }

  //// digits ////

  /** The value of a digit character, 16 for anything that is not one. */
  function DigitValue(c: char): nat {
    if '0' <= c <= '9' then c as int - '0' as int
    else if 'a' <= c <= 'f' then c as int - 'a' as int + 10
    else 16
  }

  /** The character the C code writes for a digit: `'0' + digit`, and
      `'a' - 10 + digit` from ten on. */
  function DigitChar(d: nat): (c: char)
    requires d < 16
    ensures DigitValue(c) == d
  {
    if d < 10 then ('0' as int + d) as char else ('a' as int - 10 + d) as char
  }

  /** What `for (t = v; t > 0; t /= b) size += 1` counts. */
  function CountDigits(v: nat, b: nat): nat
    requires b >= 2
    decreases v
  {
    if v == 0 then 0 else 1 + CountDigits(v / b, b)
  }

  /** The digit count with the C code's `if (size == 0) size += 1`. */
  function NumDigits(v: nat, b: nat): nat
    requires b >= 2
  {
    var n := CountDigits(v, b);
    if n == 0 then 1 else n
  }

  /** A number below the base has one digit. */
  lemma OneDigit(v: nat, b: nat)
    requires 2 <= b && v < b
    ensures NumDigits(v, b) == 1 && v / b == 0 && v % b == v
  {
    DivUnique(v, b, 0, v);
    assert CountDigits(v / b, b) == 0;
  }

  /** A digit string as a numeral is written: at least one digit, every
      character a digit below `b`, and no leading zero. */
  ghost predicate Canonical(s: string, b: nat) {
    && |s| >= 1
    && (forall i :: 0 <= i < |s| ==> DigitValue(s[i]) < b)
    && (s[0] == '0' ==> |s| == 1)
  }

  /** The base-`b` numeral of `v`. */
  function Digits(v: nat, b: nat): (r: string)
    requires 2 <= b <= 16
    ensures |r| == NumDigits(v, b)
    ensures Canonical(r, b)
    ensures r[0] == '0' <==> v == 0
    decreases v
  {
    if v < b then
      OneDigit(v, b);
      assert DigitChar(v) == '0' <==> v == 0;
      [DigitChar(v)]
    else
      DivShrinks(v, b);
      var r := Digits(v / b, b) + [DigitChar(v % b)];
      assert r[0] == Digits(v / b, b)[0];
      r
  }

  /** The number a digit string denotes. */
  function ValueOf(s: string, b: nat): nat
    decreases |s|
  {
    if s == [] then 0 else ValueOf(s[..|s| - 1], b) * b + DigitValue(s[|s| - 1])
  }

  /** Reading the numeral of `v` back gives `v`. */
  lemma {:induction false} ValueOfDigits(v: nat, b: nat)
    requires 2 <= b <= 16
    ensures ValueOf(Digits(v, b), b) == v
    decreases v
  {
    var s := Digits(v, b);
    if v < b {
      assert s[..0] == [];
    } else {
      DivShrinks(v, b);
      assert s[..|s| - 1] == Digits(v / b, b);
      ValueOfDigits(v / b, b);
      assert s[|s| - 1] == DigitChar(v % b);
      calc {
        ValueOf(s, b);
        ValueOf(Digits(v / b, b), b) * b + DigitValue(DigitChar(v % b));
        (v / b) * b + v % b;
        v;
      }
    }
  }

  lemma {:induction false} ValuePositive(s: string, b: nat)
    requires b >= 1 && s != [] && 0 < DigitValue(s[0])
    ensures ValueOf(s, b) > 0
    decreases |s|
  {
    if |s| > 1 {
      var t := s[..|s| - 1];
      assert t[0] == s[0];
      ValuePositive(t, b);
      MulPos(b, ValueOf(t, b));
    }
  }

  /** Every numeral is the numeral of the number it denotes. */
  lemma {:induction false} DigitsOfValue(s: string, b: nat)
    requires 2 <= b <= 16 && Canonical(s, b)
    ensures Digits(ValueOf(s, b), b) == s
    decreases |s|
  {
    var v := ValueOf(s, b);
    var c := s[|s| - 1];
    if |s| == 1 {
      assert s[..|s| - 1] == [];
      assert ValueOf(s, b) == ValueOf(s[..|s| - 1], b) * b + DigitValue(c);
      assert v == DigitValue(c);
      DivUnique(v, b, 0, v);
      assert DigitChar(DigitValue(c)) == c;
    } else {
      var t := s[..|s| - 1];
      assert t[0] == s[0] && DigitValue(s[0]) > 0;
      ValuePositive(t, b);
      assert Canonical(t, b);
      DigitsOfValue(t, b);
      MulPos(b, ValueOf(t, b));
      DivUnique(v, b, ValueOf(t, b), DigitValue(c));
      assert DigitChar(DigitValue(c)) == c;
      assert s == t + [c];
    }
  }

  /** The digits at positions hi-1 down to lo, most significant first, each
      taken as (v / b^i) % b the way the C code extracts digit i. */
  function Positions(v: nat, b: nat, hi: int, lo: nat): (r: string)
    requires 2 <= b <= 16
    ensures |r| == if hi > lo then hi - lo else 0
    decreases hi - lo
  {
    if hi <= lo then [] else Positions(v, b, hi, lo + 1) + [DigitChar(v / Pow(b, lo) % b)]
  }

  /** Dropping the lowest digit of `v` shifts every position down by one. */
  lemma {:induction false} PositionsShift(v: nat, b: nat, hi: int, lo: nat)
    requires 2 <= b <= 16
    ensures Positions(v, b, hi, lo + 1) == Positions(v / b, b, hi - 1, lo)
    decreases hi - lo
  {
    if hi > lo + 1 {
      PositionsShift(v, b, hi, lo + 1);
      DivDiv(v, b, Pow(b, lo));
    }
  }

  /** Position 0 is the last digit, v % b. */
  lemma PositionsLow(v: nat, b: nat, hi: int)
    requires 2 <= b <= 16 && hi >= 1
    ensures Positions(v, b, hi, 0) == Positions(v, b, hi, 1) + [DigitChar(v % b)]
  {
    assert Pow(b, 0) == 1;
    assert v / 1 == v;
  }

  /** A numeral of two or more digits is the numeral of v / b followed by
      the digit v % b. */
  lemma DigitsStep(v: nat, b: nat)
    requires 2 <= b <= 16 && v >= b
    ensures Digits(v, b) == Digits(v / b, b) + [DigitChar(v % b)]
    ensures NumDigits(v, b) == NumDigits(v / b, b) + 1
  {
    DivShrinks(v, b);
  }

  /** Extracting NumDigits positions yields the numeral. */
  lemma {:induction false} PositionsAreDigits(v: nat, b: nat)
    requires 2 <= b <= 16
    ensures Positions(v, b, NumDigits(v, b), 0) == Digits(v, b)
    decreases v
  {
    if v < b {
      OneDigit(v, b);
      PositionsLow(v, b, 1);
    } else {
      DivShrinks(v, b);
      DigitsStep(v, b);
      PositionsAreDigits(v / b, b);
      PositionsShift(v, b, NumDigits(v, b), 0);
      PositionsLow(v, b, NumDigits(v, b));
    }
  }

  //// arguments and the format string ////

  /** One variadic argument: a 32-bit word (`int`, `int32_t`, `uint32_t`,
      `size_t` on the target) or a C string. */
  datatype VaArg = Word(bits: uint32) | Str(chars: string)

  /** `va_arg` of a word; a missing or mismatched argument reads as 0. */
  function WordAt(args: seq<VaArg>, k: nat): uint32 {
    if k < |args| && args[k].Word? then args[k].bits else 0
  }

  /** `va_arg` of a string; a missing or mismatched argument reads as "". */
  function StrAt(args: seq<VaArg>, k: nat): string {
    if k < |args| && args[k].Str? then args[k].chars else ""
  }

  /** The character at `i` of a NUL-terminated string held as `s`. */
  function At(s: string, i: nat): char {
    if i < |s| then s[i] else '\0'
  }

  /** `strcspn(p, "%")`: the length of the run from `p` up to the first
      '%' or the terminator. */
  function SkipLen(f: string, p: nat): (r: nat)
    requires p <= |f|
    ensures p + r <= |f|
    ensures forall i :: p <= i < p + r ==> f[i] != '%' && f[i] != '\0'
    ensures At(f, p + r) == '%' || At(f, p + r) == '\0'
    decreases |f| - p
  {
    if At(f, p) == '%' || At(f, p) == '\0' then 0 else 1 + SkipLen(f, p + 1)
  }

  /** The `%s` length loop from `n` on: stop at the terminator, or once
      `precision` characters are taken.  A precision of 0 means no limit. */
  function StrSize(s: string, precision: uint32, n: nat): (r: nat)
    requires n <= |s|
    ensures n <= r <= |s|
    ensures forall i :: n <= i < r ==> s[i] != '\0'
    ensures At(s, r) == '\0' || (precision != 0 && r >= precision)
    ensures precision != 0 && n <= precision ==> r <= precision
    decreases |s| - n
  {
    if At(s, n) != '\0' && (precision == 0 || n < precision) then StrSize(s, precision, n + 1) else n
  }

  //// conversion parsing ////

  /** The width that makes a `%p` (and any unknown conversion) print a full
      pointer: `2*sizeof(void*)` on the 32-bit target. */
  const PointerWidth: uint32 := 8

  /** The parser's state between characters of a conversion. */
  datatype Flags = Flags(zero: bool, left: bool, precisionMode: bool, width: uint32, precision: uint32)

  const NoFlags: Flags := Flags(false, false, false, 0, 0)

  /** What the parser makes of the character after the one it stands on. */
  datatype Token =
    | DigitTok(d: nat) | StarTok | DotTok | MinusTok | IgnoredTok
    | PercentTok | CharTok | StrTok | SignedTok | UnsignedTok | HexTok(pointer: bool)
    | EndTok

  /** The branch chain of the C parser.  Its last branch takes every
      character not matched before, the terminating NUL included, as a hex
      conversion, padded to pointer width unless it is 'x' or 'X'. */
  function ClassifyAsWritten(c: char): (t: Token)
    ensures c == '\0' ==> t == HexTok(true)
  {
    if '0' <= c <= '9' then DigitTok(c as int - '0' as int)
    else if c == '*' then StarTok
    else if c == '.' then DotTok
    else if c == '-' then MinusTok
    else if c == '%' then PercentTok
    else if c == 'c' then CharTok
    else if c == 's' then StrTok
    else if c == 'd' || c == 'i' then SignedTok
    else if c == 'u' then UnsignedTok
    else if ' ' <= c <= '?' then IgnoredTok
    else HexTok(!(c == 'x' || c == 'X'))
  }

  /** The chain with the terminator recognised: a conversion cut short by
      the end of the format ends the output. */
  function Classify(c: char): (t: Token)
    ensures t.EndTok? <==> c == '\0'
  {
    if c == '\0' then EndTok else ClassifyAsWritten(c)
  }

  predicate Terminal(t: Token) {
    t.PercentTok? || t.CharTok? || t.StrTok? || t.SignedTok? || t.UnsignedTok? || t.HexTok?
  }

  /** A digit of the width or precision: in precision mode it extends the
      precision; otherwise a leading '0' asks for zero fill and any other
      digit extends the width (both `size_t`, so they wrap). */
  function WithDigit(fl: Flags, d: nat): Flags {
    if fl.precisionMode then fl.(precision := WrapU32(fl.precision * 10 + d))
    else if d > 0 || fl.width > 0 then fl.(width := WrapU32(fl.width * 10 + d))
    else fl.(zero := true)
  }

  /** A '*' takes the width, or in precision mode the precision, from the
      arguments. */
  function WithStar(fl: Flags, n: uint32): Flags {
    if fl.precisionMode then fl.(precision := n) else fl.(width := n)
  }

  datatype Mode = CharMode | TextMode | SignedMode | UnsignedMode | HexMode

  /** A parsed conversion, as the C code holds it when the parser breaks
      out: mode, value, size, width and the two justification flags.  For
      `%s` the code keeps a pointer in `value`; here the bytes are `text`. */
  datatype Conv = Conv(mode: Mode, value: uint32, text: string, size: nat, width: uint32, zero: bool, left: bool)

  /** `size` is the length of what the body of the conversion writes. */
  predicate WellSized(c: Conv) {
    && (c.mode == CharMode ==> c.size == 1)
    && (c.mode == TextMode ==> |c.text| == c.size)
    && (c.mode == SignedMode && Wrap32(c.value) < 0 ==> c.size >= 2)
  }

  /** The conversion a terminal token makes from the flags and the next
      argument: its value and the size the C code counts for it. */
  function Finish(tok: Token, fl: Flags, args: seq<VaArg>, k: nat): (c: Conv)
    requires Terminal(tok)
    ensures WellSized(c)
  {
    match tok
    case PercentTok => Conv(CharMode, '%' as int, [], 1, fl.width, fl.zero, fl.left)
    case CharTok => Conv(CharMode, WordAt(args, k), [], 1, fl.width, fl.zero, fl.left)
    case StrTok =>
      var s := StrAt(args, k);
      var n := StrSize(s, fl.precision, 0);
      Conv(TextMode, 0, s[..n], n, fl.width, fl.zero, fl.left)
    case SignedTok =>
      var bits := WordAt(args, k);
      var d: int := Wrap32(bits);
      var n := (if d < 0 then 1 else 0) + CountDigits(if d < 0 then -d else d, 10);
      Conv(SignedMode, bits, [], if n == 0 then 1 else n, fl.width, fl.zero, fl.left)
    case UnsignedTok =>
      var bits := WordAt(args, k);
      Conv(UnsignedMode, bits, [], NumDigits(bits, 10), fl.width, fl.zero, fl.left)
    case HexTok(pointer) =>
      var fl' := if pointer then fl.(zero := true, width := PointerWidth) else fl;
      var bits := WordAt(args, k);
      Conv(HexMode, bits, [], NumDigits(bits, 16), fl'.width, fl'.zero, fl'.left)
  }

  /** The outcome of parsing a conversion: the conversion, where the format
      resumes and how many arguments are used up; or a conversion cut short
      by the terminator. */
  datatype Parsed = Done(conv: Conv, next: nat, used: nat) | Unterminated

  /** The `for (;; p++)` parser standing on position `j`, which looks at
      the character after it.  `asWritten` selects the C branch chain
      as written; otherwise the terminator stops the parse. */
  function Parse(f: string, j: nat, fl: Flags, args: seq<VaArg>, k: nat, asWritten: bool): (r: Parsed)
    ensures r.Done? ==> j + 2 <= r.next && k <= r.used && WellSized(r.conv)
    ensures r.Done? && !asWritten ==> r.next <= |f|
    decreases |f| - j
  {
    var tok := if asWritten then ClassifyAsWritten(At(f, j + 1)) else Classify(At(f, j + 1));
    match tok
    case DigitTok(d) => Parse(f, j + 1, WithDigit(fl, d), args, k, asWritten)
    case StarTok => Parse(f, j + 1, WithStar(fl, WordAt(args, k)), args, k + 1, asWritten)
    case DotTok => Parse(f, j + 1, fl.(precisionMode := true), args, k, asWritten)
    case MinusTok => Parse(f, j + 1, fl.(left := true), args, k, asWritten)
    case IgnoredTok => Parse(f, j + 1, fl, args, k, asWritten)
    case EndTok => Unterminated
    case PercentTok => Done(Finish(tok, fl, args, k), j + 2, k)
    case _ => Done(Finish(tok, fl, args, k), j + 2, k + 1)
  }

  /** As written, a format that ends inside a conversion (a trailing '%')
      sends the terminating NUL down the hex branch, which takes an argument
      that was never passed, and the format resumes two characters on: one
      past the terminator, outside the string.  The corrected parser stops. */
  lemma TrailingPercentOverruns(f: string)
    requires |f| >= 1 && f[|f| - 1] == '%'
    ensures Parse(f, |f| - 1, NoFlags, [], 0, true).Done?
    ensures Parse(f, |f| - 1, NoFlags, [], 0, true).next == |f| + 1
    ensures Parse(f, |f| - 1, NoFlags, [], 0, true).used == 1
    ensures Parse(f, |f| - 1, NoFlags, [], 0, false) == Unterminated
  {
    assert At(f, |f|) == '\0';
  }

  //// rendering ////

  /** `count` copies of `ch`, none when `count` is not positive. */
  function Fill(count: int, ch: char): (r: string)
    ensures |r| == if count > 0 then count else 0
    ensures forall i :: 0 <= i < |r| ==> r[i] == ch
    decreases count
  {
    if count <= 0 then [] else Fill(count - 1, ch) + [ch]
  }

  /** What the padding loops compare against: `(ssize_t)width -
      (ssize_t)size`. */
  function PadCount(width: uint32, size: nat): int {
    Wrap32(width) - size
  }

  /** What the body of a conversion writes: one byte (the low byte of the
      word on the little-endian target), the string, the hex digits, or the
      decimal digits with a '-' for a negative `%d`. */
  function Body(c: Conv): string {
    match c.mode
    case CharMode => [(c.value % 256) as char]
    case TextMode => c.text
    case HexMode => Positions(c.value, 16, c.size, 0)
    case SignedMode =>
      if Wrap32(c.value) < 0 then "-" + Positions(WrapU32(-(c.value as int)), 10, c.size - 1, 0)
      else Positions(c.value, 10, c.size, 0)
    case UnsignedMode => Positions(c.value, 10, c.size, 0)
  }

  /** The body with its padding: in front (zeros or spaces), or behind
      (always spaces) when left-justified. */
  function Render(c: Conv): string {
    var pad := PadCount(c.width, c.size);
    (if c.left then [] else Fill(pad, if c.zero then '0' else ' '))
    + Body(c)
    + (if c.left then Fill(pad, ' ') else [])
  }

  /** A conversion writes exactly `size` characters of body, padded up to
      the width. */
  lemma RenderLength(c: Conv)
    requires WellSized(c)
    ensures |Body(c)| == c.size
    ensures Wrap32(c.width) > c.size ==> |Render(c)| == Wrap32(c.width)
    ensures Wrap32(c.width) <= c.size ==> Render(c) == Body(c)
  {
  }

  /** What the printer writes from position `p` of `format` on, having
      used `k` arguments. */
  function Format(f: string, p: nat, args: seq<VaArg>, k: nat): string
    requires p <= |f|
    decreases |f| - p, 1
  {
    var q := p + SkipLen(f, p);
    f[p..q] + Resume(f, q, args, k)
  }

  /** A run with neither '%' nor the terminator, followed by the
      terminator, is exactly what `strcspn` skips. */
  lemma RunEnds(f: string, p: nat, e: nat)
    requires p <= e <= |f|
    ensures At(f, e) == '\0' && '%' !in f[p..e] && '\0' !in f[p..e] ==> p + SkipLen(f, p) == e
  {
    forall j | p <= j < e
      ensures f[j] == f[p..e][j - p]
    {
    }
  }

  /** What the printer writes from the '%' or the terminator at `q`. */
  function Resume(f: string, q: nat, args: seq<VaArg>, k: nat): string
    requires q <= |f|
    decreases |f| - q, 0
  {
    if At(f, q) == '\0' then [] else Continue(f, Parse(f, q, NoFlags, args, k, false), args)
  }

  /** What the printer writes once the conversion at a '%' is parsed:
      nothing when the terminator cut it short, else the conversion and
      the rest of the format after it. */
  function Continue(f: string, r: Parsed, args: seq<VaArg>): string
    requires r.Done? ==> r.next <= |f|
    decreases if r.Done? then |f| - r.next else 0, 2
  {
    match r
    case Unterminated => []
    case Done(c, next, used) => Render(c) + Format(f, next, args, used)
  }

  /** The two characters after a '%' that decide the parse at once: a
      second '%' prints one, and the terminator cuts the conversion short. */
  lemma ParseFirst(f: string, q: nat, args: seq<VaArg>, k: nat)
    ensures At(f, q + 1) == '%' ==>
      && Parse(f, q, NoFlags, args, k, false) == Done(Finish(PercentTok, NoFlags, args, k), q + 2, k)
      && Render(Finish(PercentTok, NoFlags, args, k)) == "%"
    ensures At(f, q + 1) == '\0' ==> Parse(f, q, NoFlags, args, k, false) == Unterminated
  {
    var c := Finish(PercentTok, NoFlags, args, k);
    assert PadCount(c.width, c.size) == -1;
    assert Body(c) == "%";
  }

  /** The printer writes nothing from the terminator, nor from a '%' that
      the terminator follows at once. */
  lemma ResumeAtEnd(f: string, q: nat, args: seq<VaArg>, k: nat)
    requires q <= |f|
    ensures At(f, q) == '\0' ==> Resume(f, q, args, k) == []
    ensures At(f, q) == '%' && At(f, q + 1) == '\0' ==> Resume(f, q, args, k) == []
  {
    ParseFirst(f, q, args, k);
  }

  /** A text run that reaches the end of the format is printed as it
      stands. */
  lemma FormatRunToEnd(f: string, p: nat, args: seq<VaArg>, k: nat)
    requires p <= |f|
    ensures p + SkipLen(f, p) == |f| ==> Format(f, p, args, k) == f[p..]
  {
    ResumeAtEnd(f, |f|, args, k);
  }

  /** Wherever it stands in the format, `%%` prints one '%' and printing
      goes on right after it, with no argument used. */
  lemma ResumePercent(f: string, q: nat, args: seq<VaArg>, k: nat)
    requires q + 2 <= |f| && f[q] == '%' && f[q + 1] == '%'
    ensures Resume(f, q, args, k) == "%" + Format(f, q + 2, args, k)
  {
    ParseFirst(f, q, args, k);
  }

  /** Everything `__box_cbprintf` writes for `format` and `args`. */
  function Printed(format: string, args: seq<VaArg>): (r: string)
    ensures '%' !in format && '\0' !in format ==> r == format
  {
    RunEnds(format, 0, |format|);
    FormatRunToEnd(format, 0, args, 0);
    Format(format, 0, args, 0)
  }

  /** Nothing after the terminator is printed: a format whose first NUL
      comes before any '%' prints exactly the text up to that NUL. */
  lemma PrintedStopsAtTerminator(format: string, args: seq<VaArg>, e: nat)
    requires e < |format| && format[e] == '\0'
    requires '%' !in format[..e] && '\0' !in format[..e]
    ensures Printed(format, args) == format[..e]
  {
    RunEnds(format, 0, e);
    ResumeAtEnd(format, e, args, 0);
    assert format[0..e] == format[..e];
  }

  //// what a format prints ////

  /** The decimal numeral of a signed number. */
  function SignedDecimal(d: int): string {
    if d < 0 then "-" + Digits(-d, 10) else Digits(d, 10)
  }

  /** Reading a signed numeral back. */
  function SignedValue(s: string): int {
    if |s| > 0 && s[0] == '-' then -(ValueOf(s[1..], 10) as int) else ValueOf(s, 10)
  }

  /** A format that is a single conversion prints that conversion. */
  lemma PrintOne(f: string, args: seq<VaArg>, c: Conv, used: nat)
    requires |f| >= 2 && f[0] == '%'
    requires Parse(f, 0, NoFlags, args, 0, false) == Done(c, |f|, used)
    ensures Printed(f, args) == Render(c)
  {
    assert SkipLen(f, 0) == 0 && SkipLen(f, |f|) == 0;
    assert Resume(f, |f|, args, used) == [];
    assert Resume(f, 0, args, 0) == Render(c) + Format(f, |f|, args, used);
  }

  /** A two-character format `%` `ch` prints the conversion `ch` makes
      with no flags from the first argument. */
  lemma PrintSingle(ch: char, args: seq<VaArg>)
    requires Terminal(Classify(ch))
    ensures Printed(['%', ch], args) == Render(Finish(Classify(ch), NoFlags, args, 0))
  {
    var f := ['%', ch];
    var c := Finish(Classify(ch), NoFlags, args, 0);
    assert At(f, 1) == ch;
    var used := if ch == '%' then 0 else 1;
    assert Parse(f, 0, NoFlags, args, 0, false) == Done(c, 2, used);
    PrintOne(f, args, c, used);
  }

  /** `%%` writes one '%' and uses no argument. */
  lemma PrintPercent(f: string, args: seq<VaArg>)
    requires f == "%%"
    ensures Printed(f, args) == "%"
  {
    assert SkipLen(f, 0) == 0;
    ResumePercent(f, 0, args, 0);
    assert Format(f, 2, args, 0) == [] by {
      assert f[2..] == [];
    }
  }

  /** `%d` writes the signed decimal numeral of the argument's int32 value,
      INT32_MIN included, and the numeral reads back as that value. */
  lemma PrintSigned(f: string, bits: uint32)
    requires f == "%d"
    ensures Printed(f, [Word(bits)]) == SignedDecimal(Wrap32(bits))
    ensures SignedValue(Printed(f, [Word(bits)])) == Wrap32(bits)
  {
    var args := [Word(bits)];
    var c := Finish(SignedTok, NoFlags, args, 0);
    assert Parse(f, 0, NoFlags, args, 0, false) == Done(c, 2, 1);
    PrintOne(f, args, c, 1);
    RenderSigned(args, bits);
    SignedRoundTrip(Wrap32(bits));
  }

  /** A signed numeral reads back as the number it was made from. */
  lemma SignedRoundTrip(d: int)
    ensures SignedValue(SignedDecimal(d)) == d
  {
    var s := SignedDecimal(d);
    if d < 0 {
      var t := Digits(-d, 10);
      assert s == ['-'] + t;
      assert s[1..] == t;
      ValueOfDigits(-d, 10);
    } else {
      assert s == Digits(d, 10);
      assert DigitValue(s[0]) < 10;
      ValueOfDigits(d, 10);
    }
  }

  lemma RenderSigned(args: seq<VaArg>, bits: uint32)
    requires args == [Word(bits)]
    ensures Render(Finish(SignedTok, NoFlags, args, 0)) == SignedDecimal(Wrap32(bits))
  {
    var c := Finish(SignedTok, NoFlags, args, 0);
    RenderLength(c);
    WrapSign(bits);
    if bits > MaxInt32 {
      var m: nat := TwoTo32 - bits;
      assert c.size == 1 + NumDigits(m, 10);
      SignedBody(c, m);
    } else {
      assert c.size == NumDigits(bits, 10);
      PositionsAreDigits(bits, 10);
    }
  }

  /** A word read as int32: itself below 2^31, negative from there on,
      and then its negation is back in uint32 range. */
  lemma WrapSign(bits: uint32)
    ensures bits <= MaxInt32 ==> Wrap32(bits) == bits
    ensures bits > MaxInt32 ==> Wrap32(bits) == bits - TwoTo32 && WrapU32(-(bits as int)) == TwoTo32 - bits
  {
    if bits > MaxInt32 {
      assert -(bits as int) == -1 * TwoTo32 + (TwoTo32 - bits);
    }
  }

  /** The body of a negative `%d`: the sign, then the magnitude `m`. */
  lemma SignedBody(c: Conv, m: nat)
    requires c.mode == SignedMode && Wrap32(c.value) < 0
    requires WrapU32(-(c.value as int)) == m && c.size == 1 + NumDigits(m, 10)
    ensures Body(c) == "-" + Digits(m, 10)
  {
    PositionsAreDigits(m, 10);
  }

  /** `%u` writes the decimal numeral of the argument, which reads back as
      the argument. */
  lemma PrintUnsigned(f: string, v: uint32)
    requires f == "%u"
    ensures Printed(f, [Word(v)]) == Digits(v, 10)
    ensures ValueOf(Printed(f, [Word(v)]), 10) == v
  {
    var args := [Word(v)];
    var c := Finish(UnsignedTok, NoFlags, args, 0);
    assert Parse(f, 0, NoFlags, args, 0, false) == Done(c, 2, 1);
    PrintOne(f, args, c, 1);
    RenderUnsigned(args, v);
    ValueOfDigits(v, 10);
  }

  lemma RenderUnsigned(args: seq<VaArg>, v: uint32)
    requires args == [Word(v)]
    ensures Render(Finish(UnsignedTok, NoFlags, args, 0)) == Digits(v, 10)
  {
    RenderLength(Finish(UnsignedTok, NoFlags, args, 0));
    PositionsAreDigits(v, 10);
  }

  /** `%x` writes the lower-case hexadecimal numeral of the argument, which
      reads back as the argument. */
  lemma PrintHex(f: string, v: uint32)
    requires f == "%x"
    ensures Printed(f, [Word(v)]) == Digits(v, 16)
    ensures ValueOf(Printed(f, [Word(v)]), 16) == v
  {
    var args := [Word(v)];
    var c := Finish(HexTok(false), NoFlags, args, 0);
    assert Parse(f, 0, NoFlags, args, 0, false) == Done(c, 2, 1);
    PrintOne(f, args, c, 1);
    RenderHex(args, v);
    ValueOfDigits(v, 16);
  }

  lemma RenderHex(args: seq<VaArg>, v: uint32)
    requires args == [Word(v)]
    ensures Render(Finish(HexTok(false), NoFlags, args, 0)) == Digits(v, 16)
  {
    RenderLength(Finish(HexTok(false), NoFlags, args, 0));
    PositionsAreDigits(v, 16);
  }

  /** `%p`, like every conversion character the parser does not know,
      writes the hex numeral zero-filled to the eight digits of a pointer. */
  lemma PrintPointer(f: string, v: uint32)
    requires |f| == 2 && f[0] == '%' && Classify(f[1]) == HexTok(true)
    ensures Printed(f, [Word(v)]) == Fill(8 - |Digits(v, 16)|, '0') + Digits(v, 16)
    ensures |Printed(f, [Word(v)])| == 8
  {
    var args := [Word(v)];
    assert f == ['%', f[1]];
    PrintSingle(f[1], args);
    RenderPointer(args, v);
  }

  lemma RenderPointer(args: seq<VaArg>, v: uint32)
    requires args == [Word(v)]
    ensures Render(Finish(HexTok(true), NoFlags, args, 0)) == Fill(8 - |Digits(v, 16)|, '0') + Digits(v, 16)
    ensures |Digits(v, 16)| <= 8
  {
    var c := Finish(HexTok(true), NoFlags, args, 0);
    assert c == Conv(HexMode, v, [], NumDigits(v, 16), 8, true, false);
    PositionsAreDigits(v, 16);
    DigitsFit(v);
    assert Body(c) == Digits(v, 16);
    assert Wrap32(8) == 8;
    assert PadCount(c.width, c.size) == 8 - |Digits(v, 16)|;
  }

  /** A number below b^n has at most n digits. */
  lemma {:induction false} CountBelowPow(v: nat, b: nat, n: nat)
    requires b >= 2 && v < Pow(b, n)
    ensures CountDigits(v, b) <= n
    decreases n
  {
    if v > 0 {
      if n > 0 {
        var q := v / b;
        assert v == b * q + v % b;
        if q >= Pow(b, n - 1) {
          MulMono(b, Pow(b, n - 1), q);
        }
        CountBelowPow(q, b, n - 1);
      }
    }
  }

  /** A 32-bit word has at most eight hex digits. */
  lemma DigitsFit(v: uint32)
    ensures NumDigits(v, 16) <= 8
  {
    assert Pow(16, 2) == 0x100;
    assert Pow(16, 4) == 0x1_0000 by {
      assert Pow(16, 3) == 0x1000;
    }
    assert Pow(16, 8) == TwoTo32 by {
      assert Pow(16, 5) == 0x10_0000;
      assert Pow(16, 6) == 0x100_0000;
      assert Pow(16, 7) == 0x1000_0000;
    }
    CountBelowPow(v, 16, 8);
  }

  /** `%s` writes the string up to its terminator. */
  lemma PrintString(f: string, s: string)
    requires f == "%s" && '\0' !in s
    ensures Printed(f, [Str(s)]) == s
  {
    var args := [Str(s)];
    var c := Finish(StrTok, NoFlags, args, 0);
    PrintSingle('s', args);
    RenderLength(c);
    assert c.text == s;
  }

  /** `%.*s` writes at most `n` characters of the string (all of it when
      `n` is 0, which the parser takes as no precision). */
  lemma PrintStringPrecision(f: string, s: string, n: uint32)
    requires f == "%.*s" && '\0' !in s
    ensures n > 0 && n < |s| ==> Printed(f, [Word(n), Str(s)]) == s[..n]
    ensures n == 0 || n >= |s| ==> Printed(f, [Word(n), Str(s)]) == s
  {
    var args := [Word(n), Str(s)];
    var fl := NoFlags.(precisionMode := true, precision := n);
    var c := Finish(StrTok, fl, args, 1);
    assert Parse(f, 2, fl, args, 1, false) == Done(c, 4, 2);
    assert Parse(f, 0, NoFlags, args, 0, false) == Done(c, 4, 2);
    PrintOne(f, args, c, 2);
    RenderLength(c);
  }

  /** An unsigned conversion whose width is a non-negative int32 renders
      as the numeral padded up to that width: on the right with spaces
      when left-justified, otherwise on the left with zeros or spaces. */
  lemma RenderPadded(c: Conv, v: uint32)
    requires c.mode == UnsignedMode && c.value == v && c.size == NumDigits(v, 10)
    requires c.width <= MaxInt32
    ensures c.left ==> Render(c) == Digits(v, 10) + Fill(c.width - |Digits(v, 10)|, ' ')
    ensures !c.left ==> Render(c) == Fill(c.width - |Digits(v, 10)|, if c.zero then '0' else ' ') + Digits(v, 10)
  {
    PositionsAreDigits(v, 10);
    assert Body(c) == Digits(v, 10);
    assert Wrap32(c.width) == c.width;
  }

  /** `%*u` pads the numeral on the left with spaces up to the width taken
      from the arguments; a narrower width leaves it as it is. */
  lemma PrintWidth(f: string, w: uint32, v: uint32)
    requires f == "%*u" && w <= MaxInt32
    ensures Printed(f, [Word(w), Word(v)]) == Fill(w - |Digits(v, 10)|, ' ') + Digits(v, 10)
  {
    var args := [Word(w), Word(v)];
    var c := Finish(UnsignedTok, NoFlags.(width := w), args, 1);
    ParseWidth(f, args, c);
    PrintOne(f, args, c, 2);
    RenderPadded(c, v);
  }

  lemma ParseWidth(f: string, args: seq<VaArg>, c: Conv)
    requires f == "%*u" && |args| == 2 && c == Finish(UnsignedTok, NoFlags.(width := WordAt(args, 0)), args, 1)
    ensures Parse(f, 0, NoFlags, args, 0, false) == Done(c, 3, 2)
  {
    assert Parse(f, 1, NoFlags.(width := WordAt(args, 0)), args, 1, false) == Done(c, 3, 2);
  }

  /** `%0*u` pads the numeral on the left with zeros. */
  lemma PrintZeroWidth(f: string, w: uint32, v: uint32)
    requires f == "%0*u" && w <= MaxInt32
    ensures Printed(f, [Word(w), Word(v)]) == Fill(w - |Digits(v, 10)|, '0') + Digits(v, 10)
  {
    var args := [Word(w), Word(v)];
    var c := Finish(UnsignedTok, NoFlags.(zero := true, width := w), args, 1);
    assert Parse(f, 2, NoFlags.(zero := true, width := w), args, 1, false) == Done(c, 4, 2);
    assert Parse(f, 1, NoFlags.(zero := true), args, 0, false) == Done(c, 4, 2);
    assert Parse(f, 0, NoFlags, args, 0, false) == Done(c, 4, 2);
    PrintOne(f, args, c, 2);
    RenderPadded(c, v);
  }

  /** `%-*u` pads the numeral on the right with spaces. */
  lemma PrintLeftWidth(f: string, w: uint32, v: uint32)
    requires f == "%-*u" && w <= MaxInt32
    ensures Printed(f, [Word(w), Word(v)]) == Digits(v, 10) + Fill(w - |Digits(v, 10)|, ' ')
  {
    var args := [Word(w), Word(v)];
    var c := Finish(UnsignedTok, NoFlags.(left := true, width := w), args, 1);
    assert Parse(f, 2, NoFlags.(left := true, width := w), args, 1, false) == Done(c, 4, 2);
    assert Parse(f, 1, NoFlags.(left := true), args, 0, false) == Done(c, 4, 2);
    assert Parse(f, 0, NoFlags, args, 0, false) == Done(c, 4, 2);
    PrintOne(f, args, c, 2);
    RenderPadded(c, v);
  }

  //// the printer ////

  /** The context of the write callback: it keeps what it is given and
      reports every byte as written. */
  class Sink {
    var written: string

    constructor ()
      ensures written == []
    {
      written := [];
    }

    method Write(buf: string) returns (n: int)
      modifies this
      ensures written == old(written) + buf && n == |buf|
    {
      written := written + buf;
      n := |buf|;
    }
  }

  /** `strcspn(p, "%")` */
  method Strcspn(f: string, p: nat) returns (skip: nat)
    requires p <= |f|
    ensures skip == SkipLen(f, p)
  {
    skip := 0;
    while At(f, p + skip) != '%' && At(f, p + skip) != '\0'
      invariant p + skip <= |f|
      invariant SkipLen(f, p) == skip + SkipLen(f, p + skip)
      decreases |f| - (p + skip)
    {
      skip := skip + 1;
    }
  }

  /** `for (uint32_t t = value; t > 0; t /= b) size += 1;` */
  method CountLoop(value: nat, b: nat) returns (size: nat)
    requires b >= 2
    ensures size == CountDigits(value, b)
  {
    size := 0;
    var t: nat := value;
    while t > 0
      invariant size + CountDigits(t, b) == CountDigits(value, b)
      decreases t
    {
      DivLess(t, b);
      size := size + 1;
      t := t / b;
    }
  }

  /** The `%s` length loop. */
  method StrSizeLoop(s: string, precision: uint32) returns (size: nat)
    ensures size == StrSize(s, precision, 0)
  {
    size := 0;
    while At(s, size) != '\0' && (precision == 0 || size < precision)
      invariant size <= |s|
      invariant StrSize(s, precision, size) == StrSize(s, precision, 0)
      decreases |s| - size
    {
      size := size + 1;
    }
  }

  /** `%s`: the string argument and its length. */
  method ConvertString(fl: Flags, args: seq<VaArg>, used: nat) returns (c: Conv)
    ensures c == Finish(StrTok, fl, args, used)
  {
    var s := StrAt(args, used);
    var size := StrSizeLoop(s, fl.precision);
    c := Conv(TextMode, 0, s[..size], size, fl.width, fl.zero, fl.left);
  }

  /** `%d`/`%i`: the int32 argument, with one more character for a sign. */
  method ConvertSigned(fl: Flags, args: seq<VaArg>, used: nat) returns (c: Conv)
    ensures c == Finish(SignedTok, fl, args, used)
  {
    var bits := WordAt(args, used);
    var d: int := Wrap32(bits);
    var size := 0;
    if d < 0 {
      size := size + 1;
      d := -d;
    }
    var n := CountLoop(d, 10);
    size := size + n;
    if size == 0 {
      size := size + 1;
    }
    c := Conv(SignedMode, bits, [], size, fl.width, fl.zero, fl.left);
  }

  /** `%u`: the uint32 argument. */
  method ConvertUnsigned(fl: Flags, args: seq<VaArg>, used: nat) returns (c: Conv)
    ensures c == Finish(UnsignedTok, fl, args, used)
  {
    var value := WordAt(args, used);
    var size := CountLoop(value, 10);
    if size == 0 {
      size := size + 1;
    }
    c := Conv(UnsignedMode, value, [], size, fl.width, fl.zero, fl.left);
  }

  /** `%x`, `%X`, and any other conversion character, which is printed as
      a zero-filled pointer. */
  method ConvertHex(ch: char, fl: Flags, args: seq<VaArg>, used: nat) returns (c: Conv)
    requires ClassifyAsWritten(ch).HexTok?
    ensures c == Finish(ClassifyAsWritten(ch), fl, args, used)
  {
    var fl' := fl;
    if !(ch == 'x' || ch == 'X') {
      fl' := fl'.(zero := true, width := PointerWidth);
    }
    var value := WordAt(args, used);
    var size := CountLoop(value, 16);
    if size == 0 {
      size := size + 1;
    }
    c := Conv(HexMode, value, [], size, fl'.width, fl'.zero, fl'.left);
  }

  /** A character that changes the parser's state without ending the
      conversion: a digit, '*', '.', '-' or an ignored modifier. */
  predicate IsModifier(c: char) {
    var t := Classify(c);
    t.DigitTok? || t.StarTok? || t.DotTok? || t.MinusTok? || t.IgnoredTok?
  }

  /** One step of the parser on a modifier: the state after it. */
  method ParseModifier(f: string, j: nat, fl: Flags, args: seq<VaArg>, used: nat)
    returns (fl': Flags, used': nat)
    requires IsModifier(At(f, j + 1))
    ensures Parse(f, j, fl, args, used, false) == Parse(f, j + 1, fl', args, used', false)
  {
    var c := At(f, j + 1);
    fl', used' := fl, used;
    if '0' <= c <= '9' {
      var d := c as int - '0' as int;
      if fl.precisionMode {
        fl' := fl.(precision := WrapU32(fl.precision * 10 + d));
      } else if d > 0 || fl.width > 0 {
        fl' := fl.(width := WrapU32(fl.width * 10 + d));
      } else {
        fl' := fl.(zero := true);
      }
      assert fl' == WithDigit(fl, d);
    } else if c == '*' {
      if fl.precisionMode {
        fl' := fl.(precision := WordAt(args, used));
      } else {
        fl' := fl.(width := WordAt(args, used));
      }
      used' := used + 1;
    } else if c == '.' {
      fl' := fl.(precisionMode := true);
    } else if c == '-' {
      fl' := fl.(left := true);
    }
    // otherwise an unknown modifier, which is skipped
  }

  /** The parser on the character that ends a conversion. */
  method ParseTerminal(f: string, j: nat, fl: Flags, args: seq<VaArg>, used: nat) returns (r: Parsed)
    requires Terminal(Classify(At(f, j + 1)))
    ensures r == Parse(f, j, fl, args, used, false)
  {
    var c := At(f, j + 1);
    if c == '%' {
      r := Done(Conv(CharMode, '%' as int, [], 1, fl.width, fl.zero, fl.left), j + 2, used);
    } else if c == 'c' {
      r := Done(Conv(CharMode, WordAt(args, used), [], 1, fl.width, fl.zero, fl.left), j + 2, used + 1);
    } else if c == 's' {
      var conv := ConvertString(fl, args, used);
      r := Done(conv, j + 2, used + 1);
    } else if c == 'd' || c == 'i' {
      var conv := ConvertSigned(fl, args, used);
      r := Done(conv, j + 2, used + 1);
    } else if c == 'u' {
      var conv := ConvertUnsigned(fl, args, used);
      r := Done(conv, j + 2, used + 1);
    } else {
      var conv := ConvertHex(c, fl, args, used);
      r := Done(conv, j + 2, used + 1);
    }
  }

  /** The format parser, from the '%' at `q` on, with the terminator
      check the C code lacks. */
  method ParseConv(f: string, q: nat, args: seq<VaArg>, k: nat) returns (r: Parsed)
    ensures r == Parse(f, q, NoFlags, args, k, false)
  {
    var fl := NoFlags;
    var j := q;
    var used := k;
    while true
      invariant Parse(f, j, fl, args, used, false) == Parse(f, q, NoFlags, args, k, false)
      decreases |f| - j
    {
      var c := At(f, j + 1);
      if c == '\0' {
        return Unterminated;
      } else if IsModifier(c) {
        fl, used := ParseModifier(f, j, fl, args, used);
      } else {
        r := ParseTerminal(f, j, fl, args, used);
        return;
      }
      j := j + 1;
    }
  }

  /** A padding loop: `count` writes of `ch`. */
  method WritePad(w: Sink, count: int, ch: char) returns (n: int)
    modifies w
    ensures w.written == old(w.written) + Fill(count, ch) && n == |Fill(count, ch)|
  {
    n := 0;
    var i := 0;
    while i < count
      invariant i <= count || i == 0
      invariant w.written == old(w.written) + Fill(i, ch) && n == i
      decreases count - i
    {
      var nres := w.Write([ch]);
      n := n + nres;
      i := i + 1;
    }
  }

  /** The hex digit loop: digit i is `(value >> 4*i) & 0xf`, that is
      value / 16^i % 16. */
  method WriteHex(w: Sink, value: nat, top: int) returns (n: int)
    requires top >= -1
    modifies w
    ensures w.written == old(w.written) + Positions(value, 16, top + 1, 0)
    ensures n == |Positions(value, 16, top + 1, 0)|
  {
    n := 0;
    var i := top;
    while i >= 0
      invariant -1 <= i <= top
      invariant w.written == old(w.written) + Positions(value, 16, top + 1, i + 1)
      invariant n == |Positions(value, 16, top + 1, i + 1)|
      decreases i
    {
      var digit := value / Pow(16, i) % 16;
      var nres := w.Write([DigitChar(digit)]);
      n := n + nres;
      i := i - 1;
    }
  }

  /** `for (int j = 0; j < i; j++) temp /= 10;` from `temp = value`. */
  method DivideByTen(value: nat, i: nat) returns (temp: nat)
    ensures temp == value / Pow(10, i)
  {
    temp := value;
    var j := 0;
    while j < i
      invariant j <= i && temp == value / Pow(10, j)
    {
      DivDiv(value, Pow(10, j), 10);
      assert Pow(10, j + 1) == Pow(10, j) * 10;
      temp := temp / 10;
      j := j + 1;
    }
  }

  /** The decimal digit loop: digit i divides by ten i times. */
  method WriteDecimal(w: Sink, value: nat, top: int) returns (n: int)
    requires top >= -1
    modifies w
    ensures w.written == old(w.written) + Positions(value, 10, top + 1, 0)
    ensures n == |Positions(value, 10, top + 1, 0)|
  {
    n := 0;
    var i := top;
    while i >= 0
      invariant -1 <= i <= top
      invariant w.written == old(w.written) + Positions(value, 10, top + 1, i + 1)
      invariant n == |Positions(value, 10, top + 1, i + 1)|
      decreases i
    {
      var temp := DivideByTen(value, i);
      var nres := w.Write([DigitChar(temp % 10)]);
      n := n + nres;
      i := i - 1;
    }
  }

  /** The body of one conversion: the character, the string, or the
      digits, with the '-' of a negative `%d` in front. */
  method EmitBody(w: Sink, c: Conv) returns (n: int)
    requires WellSized(c)
    modifies w
    ensures w.written == old(w.written) + Body(c) && n == |Body(c)|
  {
    if c.mode == CharMode {
      n := w.Write([(c.value % 256) as char]);
    } else if c.mode == TextMode {
      n := w.Write(c.text);
    } else if c.mode == HexMode {
      n := WriteHex(w, c.value, c.size - 1);
    } else if c.mode == SignedMode && Wrap32(c.value) < 0 {
      ghost var digits := Positions(WrapU32(-(c.value as int)), 10, c.size - 1, 0);
      n := w.Write("-");
      var m := WriteDecimal(w, WrapU32(-(c.value as int)), c.size - 2);
      assert w.written == old(w.written) + ("-" + digits);
      n := n + m;
    } else {
      n := WriteDecimal(w, c.value, c.size - 1);
    }
  }

  /** The printing half of one conversion: padding, body, padding. */
  method Emit(w: Sink, c: Conv) returns (n: int)
    requires WellSized(c)
    modifies w
    ensures w.written == old(w.written) + Render(c) && n == |Render(c)|
  {
    var pad := PadCount(c.width, c.size);
    var front := 0;
    if !c.left {
      front := WritePad(w, pad, if c.zero then '0' else ' ');
    }
    var body := EmitBody(w, c);
    var back := 0;
    if c.left {
      back := WritePad(w, pad, ' ');
    }
    n := front + body + back;
  }

  /** The printer copies the text up to the next '%' or the terminator
      and resumes there. */
  lemma FormatText(f: string, p: nat, args: seq<VaArg>, k: nat)
    requires p <= |f|
    ensures Format(f, p, args, k) == f[p..p + SkipLen(f, p)] + Resume(f, p + SkipLen(f, p), args, k)
  {
  }

  /** The printer stops at the terminator and at a conversion the
      terminator cuts short. */
  lemma ResumeStops(f: string, q: nat, args: seq<VaArg>, k: nat)
    requires q <= |f|
    requires At(f, q) == '\0' || Parse(f, q, NoFlags, args, k, false).Unterminated?
    ensures Resume(f, q, args, k) == []
  {
  }

  /** Otherwise it renders the conversion and goes on after it. */
  lemma ResumeGoesOn(f: string, q: nat, args: seq<VaArg>, k: nat, r: Parsed)
    requires q <= |f| && At(f, q) != '\0'
    requires r == Parse(f, q, NoFlags, args, k, false) && r.Done?
    ensures Resume(f, q, args, k) == Render(r.conv) + Format(f, r.next, args, r.used)
  {
  }

  /** The second half of a round, standing on the '%' or the terminator
      at `q`: parse the conversion and print it. */
  method ResumeRound(w: Sink, format: string, q: nat, args: seq<VaArg>, k: nat)
    returns (next: nat, used: nat, n: int, stop: bool)
    requires q <= |format|
    modifies w
    ensures next <= |format| && n == |w.written| - |old(w.written)|
    ensures stop ==> w.written == old(w.written) + Resume(format, q, args, k)
    ensures !stop ==> q < next && w.written + Format(format, next, args, used) == old(w.written) + Resume(format, q, args, k)
  {
    ghost var tail := Resume(format, q, args, k);
    next, used, n, stop := q, k, 0, true;
    if At(format, q) == '\0' {
      ResumeStops(format, q, args, k);
      AppendNothing(w.written, tail);
      return;
    }
    var parsed := ParseConv(format, q, args, k);
    if parsed.Unterminated? {
      ResumeStops(format, q, args, k);
      AppendNothing(w.written, tail);
      return;
    }
    ResumeGoesOn(format, q, args, k, parsed);
    next, used, stop := parsed.next, parsed.used, false;
    ghost var body := Render(parsed.conv);
    ghost var after := Format(format, next, args, used);
    n := Emit(w, parsed.conv);
    AppendThen(old(w.written), body, after, tail, w.written);
  }

  lemma AppendNothing(out: string, tail: string)
    requires tail == []
    ensures out == out + tail
  {
  }

  lemma AppendThen(out: string, body: string, after: string, tail: string, now: string)
    requires tail == body + after && now == out + body
    ensures now + after == out + tail
  {
  }

  /** Appending a round's text and then the rest of the output is
      appending the whole. */
  lemma AppendInTwo(out: string, text: string, tail: string, whole: string, mid: string, now: string)
    requires mid == out + text && whole == text + tail && now == mid + tail
    ensures now == out + whole
  {
  }

  lemma AppendInTwoThen(out: string, text: string, tail: string, whole: string, mid: string, now: string, after: string)
    requires mid == out + text && whole == text + tail && now + after == mid + tail
    ensures now + after == out + whole
  {
  }

  /** The first half of a round: `strcspn` and one write of the text
      before the next '%' or the terminator, when there is any. */
  method CopyText(w: Sink, format: string, p: nat) returns (skip: nat, n: int)
    requires p <= |format|
    modifies w
    ensures skip == SkipLen(format, p) && n == skip
    ensures w.written == old(w.written) + format[p..p + skip]
  {
    skip := Strcspn(format, p);
    n := 0;
    if skip > 0 {
      n := w.Write(format[p..p + skip]);
    } else {
      assert format[p..p + skip] == [];
    }
  }

  /** One round of the printer loop from position `p`: the text up to the
      next '%', then the conversion there unless the format ends first. */
  method PrintRound(w: Sink, format: string, p: nat, args: seq<VaArg>, k: nat)
    returns (next: nat, used: nat, n: int, stop: bool)
    requires p <= |format|
    modifies w
    ensures next <= |format| && n == |w.written| - |old(w.written)|
    ensures stop ==> w.written == old(w.written) + Format(format, p, args, k)
    ensures !stop ==> p < next && w.written + Format(format, next, args, used) == old(w.written) + Format(format, p, args, k)
  {
    var skip, m := CopyText(w, format, p);
    ghost var mid := w.written;
    next, used, n, stop := ResumeRound(w, format, p + skip, args, k);
    RoundGlue(format, p, args, k, skip, old(w.written), mid, w.written, stop, next, used);
    n := m + n;
  }

  /** A round's two writes make up the output from `p` on: the text run,
      then what the printer writes from the '%' or the terminator. */
  lemma RoundGlue(format: string, p: nat, args: seq<VaArg>, k: nat, skip: nat,
                  out: string, mid: string, now: string, stop: bool, next: nat, used: nat)
    requires p <= |format| && skip == SkipLen(format, p) && mid == out + format[p..p + skip]
    requires stop ==> now == mid + Resume(format, p + skip, args, k)
    requires !stop ==> next <= |format| && now + Format(format, next, args, used) == mid + Resume(format, p + skip, args, k)
    ensures stop ==> now == out + Format(format, p, args, k)
    ensures !stop ==> next <= |format| && now + Format(format, next, args, used) == out + Format(format, p, args, k)
  {
    var text := format[p..p + skip];
    var tail := Resume(format, p + skip, args, k);
    FormatText(format, p, args, k);
    if stop {
      AppendInTwo(out, text, tail, Format(format, p, args, k), mid, now);
    } else {
      AppendInTwoThen(out, text, tail, Format(format, p, args, k), mid, now, Format(format, next, args, used));
    }
  }

  /** `__box_cbprintf`: copy the text between conversions, and render each
      conversion with the arguments it takes, until the terminator. */
  method CbPrintf(w: Sink, format: string, args: seq<VaArg>) returns (res: int)
    modifies w
    ensures w.written == old(w.written) + Printed(format, args)
    ensures res == |Printed(format, args)|
  {
    var p := 0;
    var k := 0;
    res := 0;
    while true
      invariant p <= |format|
      invariant w.written + Format(format, p, args, k) == old(w.written) + Printed(format, args)
      invariant res == |w.written| - |old(w.written)|
      decreases |format| - p
    {
      var next, used, n, stop := PrintRound(w, format, p, args, k);
      res := res + n;
      if stop {
        return;
      }
      p, k := next, used;
    }
  }
}
