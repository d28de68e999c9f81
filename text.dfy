// Text helpers standing in for the parts of Python's `str` type that the
// task analyzer relies on: `str.strip()`, `int(<str>)`, decimal formatting
// of integers (f-strings) and `sep.join(...)`.

module Opt {
  datatype Option<+T> = None | Some(value: T) {
    function GetOr(default: T): T {
      match this
      case Some(v) => v
      case None => default
    }
  }
}

module Text {
  import opened Opt

  /** The ASCII file, group, record and unit separators U+001C to U+001F:
      whitespace to `str.strip()`, but not to `int()`, which skips only the
      ASCII whitespace below U+0021 outside this range and the non-ASCII
      whitespace. */
  predicate IsSeparator(c: char) {
    '\U{1c}' <= c <= '\U{1f}'
  }

  /** Python's `str.isspace()` on one character: the characters `str.strip()` removes. */
  predicate IsSpace(c: char) {
    || ('\t' <= c <= '\r')
    || IsSeparator(c)
    || c == ' ' || c == '\U{85}' || c == '\U{a0}' || c == '\U{1680}'
    || ('\U{2000}' <= c <= '\U{200a}')
    || c == '\U{2028}' || c == '\U{2029}' || c == '\U{202f}' || c == '\U{205f}' || c == '\U{3000}'
  }

  /** `s.lstrip()`: drops the longest all-whitespace prefix. */
  function StripLeft(s: string): (r: string)
    ensures |r| <= |s| && r == s[|s| - |r|..]
    ensures forall k :: 0 <= k < |s| - |r| ==> IsSpace(s[k])
    ensures r != [] ==> !IsSpace(r[0])
  {
    if s != [] && IsSpace(s[0]) then StripLeft(s[1..]) else s
  }

  /** `s.rstrip()`: drops the longest all-whitespace suffix. */
  function StripRight(s: string): (r: string)
    ensures |r| <= |s| && r == s[..|r|]
    ensures forall k :: |r| <= k < |s| ==> IsSpace(s[k])
    ensures r != [] ==> !IsSpace(r[|r| - 1])
  {
    if s != [] && IsSpace(s[|s| - 1]) then StripRight(s[..|s| - 1]) else s
  }

  /** `s.strip()`: no whitespace is left at either end, and nothing is left
      exactly when the text is all whitespace. */
  function Strip(s: string): (r: string)
    ensures |r| <= |s|
    ensures r != [] ==> !IsSpace(r[0]) && !IsSpace(r[|r| - 1])
    ensures r == [] <==> forall k :: 0 <= k < |s| ==> IsSpace(s[k])
  {
    StripRight(StripLeft(s))
  }

  lemma StripIdempotent(s: string)
    ensures Strip(Strip(s)) == Strip(s)
  {
    var r := Strip(s);
    if r != [] {
      assert !IsSpace(r[0]) by {
        var l := StripLeft(s);
        assert r == l[..|r|];
      }
    }
  }

  /** The zero of every run of ten decimal digits (general category Nd) of
      Unicode 15.0, the digits `int()` reads: ASCII, Arabic-Indic, Devanagari,
      fullwidth, mathematical and the others. Each run holds the digits zero
      to nine in order. */
  const DecimalZeros: seq<int> :=
    [0x30, 0x660, 0x6F0, 0x7C0, 0x966, 0x9E6, 0xA66, 0xAE6, 0xB66]
    + [0xBE6, 0xC66, 0xCE6, 0xD66, 0xDE6, 0xE50, 0xED0, 0xF20, 0x1040]
    + [0x1090, 0x17E0, 0x1810, 0x1946, 0x19D0, 0x1A80, 0x1A90, 0x1B50, 0x1BB0]
    + [0x1C40, 0x1C50, 0xA620, 0xA8D0, 0xA900, 0xA9D0, 0xA9F0, 0xAA50, 0xABF0]
    + [0xFF10, 0x104A0, 0x10D30, 0x11066, 0x110F0, 0x11136, 0x111D0, 0x112F0, 0x11450]
    + [0x114D0, 0x11650, 0x116C0, 0x11730, 0x118E0, 0x11950, 0x11C50, 0x11D50, 0x11DA0]
    + [0x11F50, 0x16A60, 0x16AC0, 0x16B50, 0x1D7CE, 0x1D7D8, 0x1D7E2, 0x1D7EC, 0x1D7F6]
    + [0x1E140, 0x1E2F0, 0x1E4F0, 0x1E950, 0x1FBF0]

  /** The value of the code point `cp` as a digit of one of the runs
      starting at `DecimalZeros[i..]`. */
  function DigitValueFrom(cp: int, i: nat): (r: Option<int>)
    ensures r.Some? ==> 0 <= r.value < 10
    decreases |DecimalZeros| - i
  {
    if i >= |DecimalZeros| then None
    else if DecimalZeros[i] <= cp < DecimalZeros[i] + 10 then Some(cp - DecimalZeros[i])
    else DigitValueFrom(cp, i + 1)
  }

  /** `unicodedata.decimal(c)`: the digit value of a Unicode decimal digit. */
  function DigitValue(c: char): Option<int> {
    DigitValueFrom(c as int, 0)
  }

  /** A character `int()` reads as a digit. */
  predicate IsDigit(c: char) {
    DigitValue(c).Some?
  }

  /** The digits `str(n)` writes. */
  predicate IsAsciiDigit(c: char) {
    '0' <= c <= '9'
  }

  lemma AsciiDigitValue(c: char)
    requires IsAsciiDigit(c)
    ensures IsDigit(c) && DigitValue(c) == Some(c as int - '0' as int)
  {
  }

  function DigitChar(d: int): (c: char)
    requires 0 <= d < 10
    ensures IsAsciiDigit(c) && c as int - '0' as int == d
  {
    ('0' as int + d) as char
  }

  /** The decimal digits of `n`, most significant first, no leading zeros. */
  function ShowNat(n: nat): (r: string)
    ensures r != [] && forall k :: 0 <= k < |r| ==> IsAsciiDigit(r[k])
    ensures n > 0 ==> r[0] != '0'
  {
    if n < 10 then [DigitChar(n)] else ShowNat(n / 10) + [DigitChar(n % 10)]
  }

  /** What `str(n)` (and `f"{n}"`) gives for a Python int. */
  function Show(n: int): (r: string)
    ensures r != [] && (r[0] == '-' <==> n < 0)
    ensures forall k :: 0 < k < |r| ==> IsAsciiDigit(r[k])
  {
    if n < 0 then "-" + ShowNat(-n) else ShowNat(n)
  }

  /** The value of a run of digits and underscores, underscores ignored. */
  function DigitsValue(b: string): nat
    requires forall k :: 0 <= k < |b| ==> IsDigit(b[k]) || b[k] == '_'
  {
    if b == [] then 0
    else if b[|b| - 1] == '_' then DigitsValue(b[..|b| - 1])
    else
      assert IsDigit(b[|b| - 1]);
      DigitsValue(b[..|b| - 1]) * 10 + DigitValue(b[|b| - 1]).value
  }

  /** A base-10 literal as `int()` accepts it: decimal digits of any script,
      with single underscores allowed between two digits. */
  predicate IsDigitRun(b: string) {
    && b != []
    && (forall k :: 0 <= k < |b| ==> IsDigit(b[k]) || b[k] == '_')
    && IsDigit(b[0]) && IsDigit(b[|b| - 1])
    && (forall k :: 0 <= k < |b| - 1 ==> !(b[k] == '_' && b[k + 1] == '_'))
  }

  predicate HasSeparator(s: string) {
    exists k :: 0 <= k < |s| && IsSeparator(s[k])
  }

  /** A signed base-10 literal with nothing around it, as `int()` reads it
      once the surrounding whitespace is skipped. */
  function ParseLiteral(t: string): Option<int> {
    if t == [] then None
    else
      var sign := if t[0] == '-' then -1 else 1;
      var body := if t[0] == '-' || t[0] == '+' then t[1..] else t;
      if IsDigitRun(body) then Some(sign * DigitsValue(body)) else None
  }

  /** Python's `int(s)` on a string: `None` where Python raises ValueError.
      A separator is neither skipped as whitespace nor a sign, digit or
      underscore, so `int()` rejects the text wherever one occurs; without
      one, the whitespace `int()` skips is the whitespace `str.strip()`
      removes. */
  function ParseInt(s: string): (r: Option<int>)
    ensures r.Some? ==> Strip(s) != []
    ensures r.Some? ==> forall k :: 0 <= k < |s| ==> !IsSeparator(s[k])
  {
    if HasSeparator(s) then None else ParseLiteral(Strip(s))
  }

  lemma {:induction false} ShowNatValue(n: nat)
    ensures IsDigitRun(ShowNat(n)) && DigitsValue(ShowNat(n)) == n
  {
    var r := ShowNat(n);
    forall k | 0 <= k < |r| ensures IsDigit(r[k]) {
      AsciiDigitValue(r[k]);
    }
    AsciiDigitValue(r[|r| - 1]);
    if n >= 10 {
      ShowNatValue(n / 10);
      assert r[..|r| - 1] == ShowNat(n / 10);
    }
  }

  lemma ShowHasNoSpace(n: int)
    ensures forall k :: 0 <= k < |Show(n)| ==> !IsSpace(Show(n)[k])
  {
    var d := ShowNat(if n < 0 then -n else n);
    assert forall k :: 0 <= k < |d| ==> !IsSpace(d[k]);
  }

  lemma NoSpaceStripsToItself(s: string)
    requires forall k :: 0 <= k < |s| ==> !IsSpace(s[k])
    ensures Strip(s) == s
  {
  }

  /** Formatting an int and reading it back with `int()` gives the int back. */
  lemma ParseShow(n: int)
    ensures ParseInt(Show(n)) == Some(n)
  {
    var s := Show(n);
    ShowHasNoSpace(n);
    assert !HasSeparator(s);
    NoSpaceStripsToItself(s);
    assert ParseInt(s) == ParseLiteral(s);
    var m: nat := if n < 0 then -n else n;
    ShowNatValue(m);
    if n < 0 {
      assert s[1..] == ShowNat(m);
    } else {
      assert s[0] != '-' && s[0] != '+';
    }
  }

  /** `int()` skips less than `str.strip()` removes: the file separator
      U+001C is stripped by `str.strip()` but makes `int()` raise. */
  lemma IntRejectsSeparator()
    ensures Strip("\U{1c}7") == "7"
    ensures ParseInt("\U{1c}7") == None
  {
    var s := "\U{1c}7";
    assert Strip(s) == StripRight(s[1..]);
    assert IsSeparator(s[0]);
  }

  lemma StripDropsLeadingSpace(c: char, s: string)
    requires IsSpace(c)
    ensures Strip([c] + s) == Strip(s)
  {
    assert ([c] + s)[1..] == s;
  }

  lemma HasSeparatorCons(c: char, s: string)
    requires !IsSeparator(c)
    ensures HasSeparator([c] + s) == HasSeparator(s)
  {
    var cs := [c] + s;
    if HasSeparator(cs) {
      var k :| 0 <= k < |cs| && IsSeparator(cs[k]);
      assert IsSeparator(s[k - 1]);
    }
    if HasSeparator(s) {
      var k :| 0 <= k < |s| && IsSeparator(s[k]);
      assert IsSeparator(cs[k + 1]);
    }
  }

  /** `int()` skips a leading whitespace character that is not a separator. */
  lemma ParseIntSkipsSpace(c: char, s: string)
    requires IsSpace(c) && !IsSeparator(c)
    ensures ParseInt([c] + s) == ParseInt(s)
  {
    StripDropsLeadingSpace(c, s);
    HasSeparatorCons(c, s);
  }

  /** A no-break space, like the other non-ASCII whitespace, is skipped by
      `int()`. */
  lemma IntSkipsNoBreakSpace()
    ensures ParseInt("\U{a0}7") == Some(7)
  {
    assert "\U{a0}7" == ['\U{a0}'] + "7";
    ParseIntSkipsSpace('\U{a0}', "7");
    assert Show(7) == ShowNat(7) == "7";
    ParseShow(7);
  }

  /** `sep.join(xs)`. */
  function Join(sep: string, xs: seq<string>): (r: string)
    ensures xs == [] ==> r == []
    ensures |xs| == 1 ==> r == xs[0]
    ensures xs != [] ==> |r| >= |xs[0]| && r[..|xs[0]|] == xs[0]
  {
    if xs == [] then ""
    else if |xs| == 1 then xs[0]
    else xs[0] + sep + Join(sep, xs[1..])
  }
}
