// What the three server programs share on their command lines: the C
// library's decimal conversions (atoi, and stoi's stricter variant) and
// the launch configuration of the TCP streaming server, which phase 4 and
// phase 4B fill in from their arguments.

module CommandLine {
  import opened Wire
  import opened Wrappers

  /** isspace in the C locale: blank, tab, newline, vertical tab, form feed, carriage return. */
  predicate IsSpace(c: char)
  {
    c == ' ' || 9 <= c as int <= 13
  }

  predicate IsDigit(c: char)
  {
    '0' <= c <= '9'
  }

  predicate AllDigits(s: string)
  {
    forall i :: 0 <= i < |s| ==> IsDigit(s[i])
  }

  function DigitValue(c: char): nat
    requires IsDigit(c)
  {
    c as int - '0' as int
  }

  function DigitChar(d: nat): (c: char)
    requires d < 10
    ensures IsDigit(c) && DigitValue(c) == d
  {
    ('0' as int + d) as char
  }

  /** The text after any leading white space. */
  function SkipSpaces(s: string): (t: string)
    ensures |t| <= |s| && t == s[|s| - |t|..]
    ensures |t| > 0 ==> !IsSpace(t[0])
  {
    if |s| > 0 && IsSpace(s[0]) then SkipSpaces(s[1..]) else s
  }

  /** The longest prefix of s made of decimal digits. */
  function DigitRun(s: string): (ds: string)
    ensures ds <= s && AllDigits(ds)
    ensures |ds| < |s| ==> !IsDigit(s[|ds|])
  {
    if |s| > 0 && IsDigit(s[0]) then [s[0]] + DigitRun(s[1..]) else []
  }

  /** The value of a digit string, most significant digit first. */
  function Decimal(ds: string): nat
    requires AllDigits(ds)
  {
    if ds == [] then 0 else 10 * Decimal(ds[..|ds| - 1]) + DigitValue(ds[|ds| - 1])
  }

  /** What the conversion reads: white space, then an optional sign, then the digits that follow. */
  function Numeral(s: string): (r: (bool, string))
    ensures AllDigits(r.1)
  {
    var t := SkipSpaces(s);
    if |t| > 0 && t[0] == '-' then (true, DigitRun(t[1..]))
    else if |t| > 0 && t[0] == '+' then (false, DigitRun(t[1..]))
    else (false, DigitRun(t))
  }

  /** std::atoi: the signed value of the numeral at the head of s, 0 when there is none. */
  function Atoi(s: string): int
  {
    var (negative, ds) := Numeral(s);
    var magnitude: int := Decimal(ds);
    if negative then -magnitude else magnitude
  }

  /** The values of a 32-bit int. */
  predicate InIntRange(n: int)
  {
    -0x8000_0000 <= n < 0x8000_0000
  }

  /**
   * std::stoi: like atoi, but a text with no digits is an error
   * (std::invalid_argument), and so is a value an int cannot hold
   * (std::out_of_range).
   */
  function Stoi(s: string): Option<int>
  {
    if Numeral(s).1 == [] then None
    else if !InIntRange(Atoi(s)) then None
    else Some(Atoi(s))
  }

  /** The decimal digits of n, without leading zeros. */
  function DecimalText(n: nat): (s: string)
    ensures |s| > 0 && AllDigits(s)
  {
    if n < 10 then [DigitChar(n)] else DecimalText(n / 10) + [DigitChar(n % 10)]
  }

  /** std::to_string on an int: a minus sign for negatives, then the digits. */
  function IntText(n: int): string
  {
    if n < 0 then "-" + DecimalText(-n) else DecimalText(n)
  }

  lemma {:induction false} DecimalOfText(n: nat)
    ensures Decimal(DecimalText(n)) == n
  {
    if n >= 10 {
      var s := DecimalText(n);
      assert s[..|s| - 1] == DecimalText(n / 10);
      DecimalOfText(n / 10);
    }
  }

  lemma {:induction false} DigitRunOfDigits(ds: string, rest: string)
    requires AllDigits(ds)
    requires rest == [] || !IsDigit(rest[0])
    ensures DigitRun(ds + rest) == ds
  {
    if ds != [] {
      assert (ds + rest)[1..] == ds[1..] + rest;
      DigitRunOfDigits(ds[1..], rest);
    } else {
      assert ds + rest == rest;
    }
  }

  lemma NumeralOfDigits(ds: string, rest: string)
    requires AllDigits(ds) && ds != []
    requires rest == [] || !IsDigit(rest[0])
    ensures Numeral(ds + rest) == (false, ds)
  {
    var s := ds + rest;
    assert s[0] == ds[0];
    assert SkipSpaces(s) == s;
    DigitRunOfDigits(ds, rest);
  }

  lemma NumeralOfNegative(ds: string, rest: string)
    requires AllDigits(ds) && ds != []
    requires rest == [] || !IsDigit(rest[0])
    ensures Numeral("-" + ds + rest) == (true, ds)
  {
    var s := "-" + ds + rest;
    assert s[0] == '-';
    assert SkipSpaces(s) == s;
    assert s[1..] == ds + rest;
    DigitRunOfDigits(ds, rest);
  }

  /**
   * Conversions read back what to_string writes, and stop at the first
   * character that is not a digit; stoi refuses a number an int cannot hold.
   */
  lemma AtoiOfText(n: int, rest: string)
    requires rest == [] || !IsDigit(rest[0])
    ensures Atoi(IntText(n) + rest) == n
    ensures Stoi(IntText(n) + rest) == if InIntRange(n) then Some(n) else None
  {
    if n < 0 {
      DecimalOfText(-n);
      NumeralOfNegative(DecimalText(-n), rest);
    } else {
      DecimalOfText(n);
      NumeralOfDigits(DecimalText(n), rest);
    }
  }

  /** Leading white space is skipped. */
  lemma AtoiSkipsSpace(c: char, s: string)
    requires IsSpace(c)
    ensures Atoi([c] + s) == Atoi(s) && Stoi([c] + s) == Stoi(s)
  {
    assert ([c] + s)[1..] == s;
  }

  /** A text that starts with anything but white space, a sign or a digit converts to 0 under atoi and fails under stoi. */
  lemma NoNumeral(s: string)
    requires s == [] || (!IsSpace(s[0]) && !IsDigit(s[0]) && s[0] != '-' && s[0] != '+')
    ensures Atoi(s) == 0 && Stoi(s) == None
  {
    assert SkipSpaces(s) == s;
    assert DigitRun(s) == [];
    assert Numeral(s) == (false, []);
  }

  const ThirtyFps: Float32 := Float32(0x41F0_0000)
  const SixtyFps: Float32 := Float32(0x4270_0000)

  /** The TCP streaming server's launch configuration, as the phase 4 and 4B programs fill it in. */
  datatype LaunchConfig = LaunchConfig(
    port: int,
    renderWidth: int,
    renderHeight: int,
    targetFps: Float32,
    bitrateKbps: int,
    encoder: string,
    preset: string,
    maxClients: int,
    vdsPath: string,
    sliceOrientation: string,
    animateSlice: bool,
    animationDuration: Float32)
}
