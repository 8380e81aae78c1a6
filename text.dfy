/**
 * Character classes and string helpers shared by the browser client and the
 * Python server: trimming, ASCII lower-casing, substring search, decimal
 * rendering of integers and Python's `int(str)` parser.
 */
module Text {
  import opened Wrappers

  /** The whitespace that both `str.strip()` and `String.prototype.trim()` remove (ASCII part). */
  predicate IsSpace(c: char) {
    c == ' ' || c == '\t' || c == '\n' || c == '\r' || c == '\U{000B}' || c == '\U{000C}'
  }

  predicate IsBlank(s: string) {
    forall i :: 0 <= i < |s| ==> IsSpace(s[i])
  }

  predicate IsAsciiDigit(c: char) {
    '0' <= c <= '9'
  }

  predicate IsAsciiUpper(c: char) {
    'A' <= c <= 'Z'
  }

  predicate IsAsciiLetterOrDigit(c: char) {
    IsAsciiUpper(c) || 'a' <= c <= 'z' || IsAsciiDigit(c)
  }

  predicate IsAscii(s: string) {
    forall i :: 0 <= i < |s| ==> s[i] as int < 0x80
  }

  /** Removes leading whitespace. */
  function TrimStart(s: string): (r: string)
    ensures |r| <= |s| && r == s[|s| - |r|..]
    ensures IsBlank(s[..|s| - |r|])
    ensures r == [] || !IsSpace(r[0])
  {
    if s != [] && IsSpace(s[0]) then TrimStart(s[1..]) else s
  }

  /** Removes trailing whitespace. */
  function TrimEnd(s: string): (r: string)
    ensures |r| <= |s| && r == s[..|r|]
    ensures IsBlank(s[|r|..])
    ensures r == [] || !IsSpace(r[|r| - 1])
  {
    if s != [] && IsSpace(s[|s| - 1]) then TrimEnd(s[..|s| - 1]) else s
  }

  /** `str.strip()` / `String.prototype.trim()`: a slice of the input with no whitespace at either end. */
  function Trim(s: string): (r: string)
    ensures |r| <= |s|
    ensures r == [] || (!IsSpace(r[0]) && !IsSpace(r[|r| - 1]))
  {
    TrimEnd(TrimStart(s))
  }

  /** A string trims to nothing exactly when it is all whitespace. */
  lemma {:induction false} TrimEmptyIffBlank(s: string)
    ensures Trim(s) == [] <==> IsBlank(s)
  {
    var t := TrimStart(s);
    assert t != [] ==> t[0] == s[|s| - |t|];
    if TrimEnd(t) == [] {
      assert t[0..] == t;
      assert s[..|s|] == s;
    }
  }

  function LowerChar(c: char): char {
    if IsAsciiUpper(c) then (c as int + 32) as char else c
  }

  /** ASCII lower-casing, character by character. */
  function ToLower(s: string): (r: string)
    ensures |r| == |s|
    ensures forall i :: 0 <= i < |s| ==> r[i] == LowerChar(s[i])
  {
    if s == [] then [] else [LowerChar(s[0])] + ToLower(s[1..])
  }

  /** Lower-casing twice is lower-casing once. */
  lemma ToLowerIdempotent(s: string)
    ensures ToLower(ToLower(s)) == ToLower(s)
  {
    var once := ToLower(s);
    assert forall i :: 0 <= i < |s| ==> ToLower(once)[i] == once[i];
  }

  /** `needle in hay` for Python strings, `hay.includes(needle)` for JavaScript ones. */
  predicate Contains(hay: string, needle: string)
    decreases |hay|
  {
    needle <= hay || (hay != [] && Contains(hay[1..], needle))
  }

  /** Every string contains itself, and so the empty string. */
  lemma {:induction false} ContainsItself(s: string)
    ensures Contains(s, s) && Contains(s, [])
  {
  }

  /** A needle found in a suffix is found in the whole string. */
  lemma {:induction false} ContainsSuffix(hay: string, k: nat, needle: string)
    requires k <= |hay|
    requires Contains(hay[k..], needle)
    ensures Contains(hay, needle)
    decreases k
  {
    if k > 0 {
      assert hay[1..][k - 1..] == hay[k..];
      ContainsSuffix(hay[1..], k - 1, needle);
    }
  }

  /** The UTF-16 code units a string occupies: what a JavaScript `length` and a regex `.` count. */
  function Utf16Length(s: string): (n: nat)
    ensures n >= |s|
  {
    if s == [] then 0 else (if s[0] as int > 0xFFFF then 2 else 1) + Utf16Length(s[1..])
  }

  /** ASCII text has one UTF-16 code unit per character. */
  lemma {:induction false} AsciiUtf16Length(s: string)
    requires IsAscii(s)
    ensures Utf16Length(s) == |s|
  {
    if s != [] {
      assert IsAscii(s[1..]) by {
        forall i | 0 <= i < |s| - 1 ensures s[1..][i] as int < 0x80 {
          assert s[1..][i] == s[i + 1];
        }
      }
      AsciiUtf16Length(s[1..]);
    }
  }

  function DigitChar(d: int): (c: char)
    requires 0 <= d < 10
    ensures IsAsciiDigit(c)
  {
    ('0' as int + d) as char
  }

  /** The value of an ASCII digit. */
  function DigitValue(c: char): (d: int)
    requires IsAsciiDigit(c)
    ensures 0 <= d < 10 && DigitChar(d) == c
  {
    c as int - '0' as int
  }

  /**
   * The first code point of every run of ten decimal digits (general category
   * Nd) in Unicode 15.0, the version Python 3.12 ships: the runs inside the
   * Basic Multilingual Plane, then those above it.
   */
  const BmpDigitZeros: seq<int> := [
    0x30, 0x660, 0x6F0, 0x7C0, 0x966, 0x9E6, 0xA66, 0xAE6,
    0xB66, 0xBE6, 0xC66, 0xCE6, 0xD66, 0xDE6, 0xE50, 0xED0,
    0xF20, 0x1040, 0x1090, 0x17E0, 0x1810, 0x1946, 0x19D0, 0x1A80,
    0x1A90, 0x1B50, 0x1BB0, 0x1C40, 0x1C50, 0xA620, 0xA8D0, 0xA900,
    0xA9D0, 0xA9F0, 0xAA50, 0xABF0, 0xFF10
  ]

  const AstralDigitZeros: seq<int> := [
    0x104A0, 0x10D30, 0x11066, 0x110F0, 0x11136, 0x111D0, 0x112F0, 0x11450,
    0x114D0, 0x11650, 0x116C0, 0x11730, 0x118E0, 0x11950, 0x11C50, 0x11D50,
    0x11DA0, 0x11F50, 0x16A60, 0x16AC0, 0x16B50, 0x1D7CE, 0x1D7D8, 0x1D7E2,
    0x1D7EC, 0x1D7F6, 0x1E140, 0x1E2F0, 0x1E4F0, 0x1E950, 0x1FBF0
  ]

  /** A code point that is the digit zero of some script. */
  predicate IsDigitZero(z: int) {
    z in BmpDigitZeros || z in AstralDigitZeros
  }

  /** The ASCII run is the only one below U+0660, and no run straddles the edge of the Basic Multilingual Plane. */
  lemma DigitZeroBounds()
    ensures forall z :: z in BmpDigitZeros ==> (z == 0x30 || 0x660 <= z) && z + 10 <= 0x10000
    ensures forall z :: z in AstralDigitZeros ==> 0x10000 <= z
  {
  }

  /** The first listed zero, from the `k`-th on, whose run of ten holds `c`. */
  function RunZero(zeros: seq<int>, c: int, k: nat): (z: Option<int>)
    requires k <= |zeros|
    ensures z.Some? ==> z.value in zeros && z.value <= c < z.value + 10
    ensures z.None? ==> forall j :: k <= j < |zeros| ==> !(zeros[j] <= c < zeros[j] + 10)
    decreases |zeros| - k
  {
    if k == |zeros| then None
    else if zeros[k] <= c < zeros[k] + 10 then Some(zeros[k])
    else RunZero(zeros, c, k + 1)
  }

  /**
   * `unicodedata.decimal(c)`: the value of a decimal digit of any script,
   * `None` for a character that is not one.
   */
  function DecimalValue(c: char): (d: Option<nat>)
    ensures d.Some? ==> d.value < 10 && IsDigitZero(c as int - d.value)
    ensures d.None? ==> forall z :: IsDigitZero(z) ==> !(z <= c as int < z + 10)
  {
    DigitZeroBounds();
    var z := if c as int < 0x10000 then RunZero(BmpDigitZeros, c as int, 0) else RunZero(AstralDigitZeros, c as int, 0);
    if z.Some? then Some(c as int - z.value) else None
  }

  predicate IsDecimalDigit(c: char) {
    DecimalValue(c).Some?
  }

  /** Below U+0660 the decimal digits are exactly the ASCII ones, with their usual values. */
  lemma AsciiDecimalValue(c: char)
    requires c as int < 0x660
    ensures DecimalValue(c) == if IsAsciiDigit(c) then Some(DigitValue(c)) else None
  {
    DigitZeroBounds();
    if IsAsciiDigit(c) {
      assert IsDigitZero(0x30);
    }
  }

  /** What Python's `int` reads in place of `c`: a decimal digit of any script becomes the ASCII digit of the same value. */
  function AsciiDigitOf(c: char): (a: char)
    ensures IsDecimalDigit(c) ==> IsAsciiDigit(a) && DigitValue(a) == DecimalValue(c).value
    ensures !IsDecimalDigit(c) ==> a == c
  {
    match DecimalValue(c)
    case Some(d) => DigitChar(d)
    case None => c
  }

  function AsciiDigits(s: string): (r: string)
    ensures |r| == |s| && forall i :: 0 <= i < |s| ==> r[i] == AsciiDigitOf(s[i])
  {
    seq(|s|, i requires 0 <= i < |s| => AsciiDigitOf(s[i]))
  }

  /** Converting digits twice is converting them once: an ASCII digit stands for itself. */
  lemma AsciiDigitsIdempotent(s: string)
    ensures AsciiDigits(AsciiDigits(s)) == AsciiDigits(s)
  {
    forall i | 0 <= i < |s|
      ensures AsciiDigitOf(AsciiDigitOf(s[i])) == AsciiDigitOf(s[i])
    {
      var a := AsciiDigitOf(s[i]);
      if IsDecimalDigit(s[i]) {
        AsciiDecimalValue(a);
      }
    }
  }

  /** Decimal digits of a natural number, most significant first, without leading zeros. */
  function NatString(n: nat): (r: string)
    ensures r != [] && forall i :: 0 <= i < |r| ==> IsAsciiDigit(r[i])
  {
    if n < 10 then [DigitChar(n)] else NatString(n / 10) + [DigitChar(n % 10)]
  }

  /** `String(n)` in JavaScript, `str(n)` in Python, for an integer. */
  function DecimalString(n: int): string {
    if n < 0 then "-" + NatString(-n) else NatString(n)
  }

  /** Digits with single underscores between them: Python's grammar for an integer literal body. */
  predicate IsDigitGroups(d: string) {
    && |d| > 0
    && DigitsOrUnderscores(d)
    && forall i :: 0 <= i < |d| && d[i] == '_' ==> 0 < i < |d| - 1 && IsAsciiDigit(d[i - 1]) && IsAsciiDigit(d[i + 1])
  }

  predicate DigitsOrUnderscores(d: string) {
    forall i :: 0 <= i < |d| ==> IsAsciiDigit(d[i]) || d[i] == '_'
  }

  /** The number denoted by a run of digits and underscores (underscores are skipped). */
  function DigitsValue(d: string): nat
    requires DigitsOrUnderscores(d)
  {
    if d == [] then 0
    else if d[|d| - 1] == '_' then DigitsValue(d[..|d| - 1])
    else DigitsValue(d[..|d| - 1]) * 10 + DigitValue(d[|d| - 1])
  }

  /** Python's default `sys.get_int_max_str_digits()`: `int(str)` refuses more decimal digits than this. */
  const MaxIntDigits := 4300

  /** The digits of a run of digits and underscores, not counting the underscores. */
  function DigitCount(d: string): (n: nat)
    ensures n <= |d|
  {
    if d == [] then 0 else DigitCount(d[..|d| - 1]) + (if d[|d| - 1] == '_' then 0 else 1)
  }

  function Pow10(k: nat): (p: nat)
    ensures p >= 1
  {
    if k == 0 then 1 else 10 * Pow10(k - 1)
  }

  /** A run of `n` digits denotes a number below ten to the `n`. */
  lemma {:induction false} DigitsValueBound(d: string)
    requires DigitsOrUnderscores(d)
    ensures DigitsValue(d) < Pow10(DigitCount(d))
    decreases |d|
  {
    if d != [] {
      DigitsValueBound(d[..|d| - 1]);
    }
  }

  /** A number below ten to the `k` renders in at most `k` digits. */
  lemma {:induction false} NatStringLength(m: nat, k: nat)
    requires 1 <= k && m < Pow10(k)
    ensures |NatString(m)| <= k
    decreases k
  {
    if m >= 10 {
      NatStringLength(m / 10, k - 1);
    }
  }

  function Abs(n: int): nat {
    if n < 0 then -n else n
  }

  /** A run of digit groups of at most `MaxIntDigits` digits, read as a number. */
  function ParseDigits(body: string): (r: Option<nat>)
    ensures r.Some? ==> |NatString(r.value)| <= MaxIntDigits
  {
    if !IsDigitGroups(body) || DigitCount(body) > MaxIntDigits then None
    else
      DigitsValueBound(body);
      assert body[|body| - 1] != '_';
      NatStringLength(DigitsValue(body), DigitCount(body));
      Some(DigitsValue(body))
  }

  /**
   * Python's `int(text)` once every digit is ASCII: surrounding whitespace,
   * an optional sign, then digit groups of at most `MaxIntDigits` digits.
   */
  function ParseAscii(text: string): (r: Option<int>)
    ensures r.Some? ==> |NatString(Abs(r.value))| <= MaxIntDigits
  {
    var t := Trim(text);
    var signed := |t| > 0 && (t[0] == '+' || t[0] == '-');
    match ParseDigits(if signed then t[1..] else t)
    case None => None
    case Some(v) =>
      var n: int := v;
      Some(if signed && t[0] == '-' then -n else n)
  }

  /**
   * Python's `int(text)` on a `str`: decimal digits of any script read as
   * their ASCII counterparts, then `ParseAscii`; `None` where Python raises
   * `ValueError`.
   */
  function ParseInt(text: string): (r: Option<int>)
    ensures r.Some? ==> |NatString(Abs(r.value))| <= MaxIntDigits
  {
    ParseAscii(AsciiDigits(text))
  }

  /** `int()` reads the digits of every script as the ASCII digits of the same value. */
  lemma ParseIntReadsEveryScript(text: string)
    ensures ParseInt(text) == ParseInt(AsciiDigits(text))
  {
    AsciiDigitsIdempotent(text);
  }

  /** The search stops at the first run, from the `i`-th on, that holds `c`. */
  lemma {:induction false} RunZeroFirst(zeros: seq<int>, c: int, i: nat, k: nat)
    requires i <= k < |zeros| && zeros[k] <= c < zeros[k] + 10
    requires forall j :: i <= j < k ==> !(zeros[j] <= c < zeros[j] + 10)
    ensures RunZero(zeros, c, i) == Some(zeros[k])
    decreases k - i
  {
    if i < k {
      RunZeroFirst(zeros, c, i + 1, k);
    }
  }

  /** The Arabic-Indic digit of value `d` (U+0660 to U+0669) is a decimal digit of value `d`. */
  lemma ArabicIndicDigit(d: nat)
    requires d < 10
    ensures DecimalValue((0x660 + d) as char) == Some(d)
  {
    var zeros := BmpDigitZeros;
    assert zeros[0] == 0x30 && zeros[1] == 0x660;
    RunZeroFirst(zeros, 0x660 + d, 0, 1);
  }

  /** Two Arabic-Indic digits read as the two-digit number they spell. */
  lemma ArabicIndicTwoDigits(a: nat, b: nat)
    requires 1 <= a < 10 && b < 10
    ensures ParseInt([(0x660 + a) as char, (0x660 + b) as char]) == Some(10 * a + b)
  {
    var s := [(0x660 + a) as char, (0x660 + b) as char];
    ArabicIndicDigit(a);
    ArabicIndicDigit(b);
    var n := 10 * a + b;
    assert n / 10 == a && n % 10 == b;
    assert NatString(n) == [DigitChar(a), DigitChar(b)];
    assert AsciiDigits(s) == DecimalString(n);
    ParseAsciiDecimalString(n);
  }

  lemma {:induction false} NatStringValue(n: nat)
    ensures IsDigitGroups(NatString(n)) && DigitsValue(NatString(n)) == n
  {
    if n >= 10 {
      NatStringValue(n / 10);
      var p := NatString(n / 10);
      var r := NatString(n);
      assert r == p + [DigitChar(n % 10)];
      assert r[..|r| - 1] == p;
    }
  }

  lemma TrimNoSpaceEnds(s: string)
    requires s != [] && !IsSpace(s[0]) && !IsSpace(s[|s| - 1])
    ensures Trim(s) == s
  {
    assert TrimStart(s) == s;
    assert TrimEnd(s) == s;
  }

  /** Without underscores every character is a digit that counts. */
  lemma {:induction false} DigitCountOfDigits(d: string)
    requires forall i :: 0 <= i < |d| ==> IsAsciiDigit(d[i])
    ensures DigitCount(d) == |d|
    decreases |d|
  {
    if d != [] {
      DigitCountOfDigits(d[..|d| - 1]);
    }
  }

  /** Text below U+0660 has no digits but the ASCII ones, so the digit conversion keeps it as it is. */
  lemma AsciiDigitsKeepLow(s: string)
    requires forall i :: 0 <= i < |s| ==> s[i] as int < 0x660
    ensures AsciiDigits(s) == s
  {
    forall i | 0 <= i < |s| ensures AsciiDigitOf(s[i]) == s[i] {
      AsciiDecimalValue(s[i]);
    }
  }

  /** The digits of a natural number read back as that number. */
  lemma ParseNatString(m: nat)
    requires |NatString(m)| <= MaxIntDigits
    ensures ParseDigits(NatString(m)) == Some(m)
  {
    NatStringValue(m);
    DigitCountOfDigits(NatString(m));
  }

  /** Digit groups with nothing around them read as their value. */
  lemma ParseAsciiUnsigned(d: string, v: nat)
    requires d != [] && IsAsciiDigit(d[0]) && !IsSpace(d[|d| - 1]) && ParseDigits(d) == Some(v)
    ensures ParseAscii(d) == Some(v as int)
  {
    TrimNoSpaceEnds(d);
  }

  /** A minus sign before digit groups negates their value. */
  lemma ParseAsciiNegative(d: string, v: nat)
    requires d != [] && !IsSpace(d[|d| - 1]) && ParseDigits(d) == Some(v)
    ensures ParseAscii("-" + d) == Some(-(v as int))
  {
    var s := "-" + d;
    TrimNoSpaceEnds(s);
    assert s[1..] == d;
  }

  /** `ParseAscii` reads back a decimal rendering within the digit limit. */
  lemma ParseAsciiDecimalString(n: int)
    requires |NatString(Abs(n))| <= MaxIntDigits
    ensures ParseAscii(DecimalString(n)) == Some(n)
  {
    var digits := NatString(Abs(n));
    ParseNatString(Abs(n));
    assert IsAsciiDigit(digits[0]) && IsAsciiDigit(digits[|digits| - 1]);
    if n < 0 {
      ParseAsciiNegative(digits, Abs(n));
    } else {
      ParseAsciiUnsigned(digits, Abs(n));
    }
  }

  /** Python's `int()` reads back what `String(n)` renders, for every number within its digit limit. */
  lemma ParseDecimalString(n: int)
    requires |NatString(Abs(n))| <= MaxIntDigits
    ensures ParseInt(DecimalString(n)) == Some(n)
  {
    var s := DecimalString(n);
    var digits := NatString(Abs(n));
    assert forall i :: 0 <= i < |s| ==> s[i] as int < 0x660 by {
      if n < 0 {
        assert forall i :: 1 <= i < |s| ==> s[i] == digits[i - 1];
      }
    }
    AsciiDigitsKeepLow(s);
    ParseAsciiDecimalString(n);
  }
}
