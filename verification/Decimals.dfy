/** Decimal numbers as fmt prints and scans them. */
module Decimals {
  import opened Core
  import opened Radix
  import opened Texts

  function DigitChar(d: nat): char
    requires d < 10
  {
    '0' + d as char
  }

  predicate IsDigit(c: char) { '0' <= c <= '9' }

  predicate AllDigits(s: string) {
    forall i :: 0 <= i < |s| ==> IsDigit(s[i])
  }

  /** %d of a natural number. */
  function Decimal(n: nat): (s: string)
    ensures |s| > 0 && AllDigits(s)
  {
    if n < 10 then [DigitChar(n)] else Decimal(n / 10) + [DigitChar(n % 10)]
  }

  /** What a run of digits denotes. */
  function Value(s: string): nat
    requires AllDigits(s)
  {
    if s == "" then 0 else Value(s[..|s| - 1]) * 10 + (s[|s| - 1] - '0') as nat
  }

  lemma {:induction false} ValueOfDecimal(n: nat)
    ensures Value(Decimal(n)) == n
  {
    if n >= 10 {
      ValueOfDecimal(n / 10);
      assert Decimal(n)[..|Decimal(n)| - 1] == Decimal(n / 10);
    }
  }

  /** Digits with no zero in front. */
  predicate Numeral(s: string) {
    s != "" && AllDigits(s) && (|s| > 1 ==> s[0] != '0')
  }

  lemma {:induction false} DecimalIsNumeral(n: nat)
    ensures Numeral(Decimal(n)) && (n > 0 ==> Decimal(n)[0] != '0')
  {
    if n >= 10 { DecimalIsNumeral(n / 10); }
  }

  lemma {:induction false} PositiveValue(s: string)
    requires AllDigits(s) && s != "" && s[0] != '0'
    ensures Value(s) > 0
  {
    if |s| > 1 { PositiveValue(s[..|s| - 1]); }
  }

  /** A numeral is how its value is printed. */
  lemma {:induction false} DecimalOfValue(s: string)
    requires Numeral(s)
    ensures Decimal(Value(s)) == s
  {
    if |s| > 1 {
      var p := s[..|s| - 1];
      DecimalOfValue(p);
      PositiveValue(p);
      assert s == p + [s[|s| - 1]];
    } else {
      assert Value(s[..0]) == 0;
      assert s == [s[0]];
    }
  }

  /** %0*d: zeros in front up to the width. */
  function Zeros(k: nat): string {
    if k == 0 then "" else ['0'] + Zeros(k - 1)
  }

  function Padded(width: nat, n: nat): string {
    var s := Decimal(n);
    if |s| >= width then s else Zeros(width - |s|) + s
  }

  lemma {:induction false} DecimalFits(width: nat, n: nat)
    requires width > 0 && n < Pow(10, width)
    ensures |Decimal(n)| <= width
  {
    if n >= 10 {
      Shrunk(10, n, Pow(10, width - 1));
      DecimalFits(width - 1, n / 10);
    }
  }

  lemma {:induction false} LeadingZeros(k: nat, s: string)
    requires AllDigits(s)
    ensures |Zeros(k)| == k && AllDigits(Zeros(k) + s) && Value(Zeros(k) + s) == Value(s)
  {
    if s != "" {
      LeadingZeros(k, s[..|s| - 1]);
      assert (Zeros(k) + s)[..k + |s| - 1] == Zeros(k) + s[..|s| - 1];
    } else if k > 0 {
      LeadingZeros(k - 1, "");
      ZerosEnd(k);
      assert (Zeros(k) + "")[..k - 1] == Zeros(k - 1) + "";
    }
  }

  lemma {:induction false} ZerosEnd(k: nat)
    requires k > 0
    ensures Zeros(k) == Zeros(k - 1) + ['0']
  {
    if k > 1 { ZerosEnd(k - 1); }
  }

  /** A number that fits the width prints as exactly that many digits denoting it. */
  lemma PaddedExactly(width: nat, n: nat)
    requires width > 0 && n < Pow(10, width)
    ensures var s := Padded(width, n); |s| == width && AllDigits(s) && Value(s) == n
  {
    DecimalFits(width, n);
    ValueOfDecimal(n);
    LeadingZeros(width - |Decimal(n)|, Decimal(n));
  }

  // Scanning, as fmt.Sscanf does it: the result is the number and what is left to read.

  /** Blanks before a number are skipped, but a line feed is an error. */
  function SkipSpace(s: string): Option<string> {
    if s == "" || !IsSpace(s[0]) then Some(s)
    else if s[0] == '\n' then None
    else SkipSpace(s[1..])
  }

  /** The length of the run of digits a string starts with. */
  function DigitRun(s: string): (k: nat)
    ensures k <= |s| && AllDigits(s[..k]) && (k < |s| ==> !IsDigit(s[k]))
  {
    if s == "" || !IsDigit(s[0]) then 0 else
    var k := DigitRun(s[1..]);
    assert s[..k + 1] == [s[0]] + s[1..][..k];
    k + 1
  }

  datatype Scanned = Scanned(value: int, rest: string)

  /** %d into an unsigned integer no greater than `max`. */
  function ScanUint(s: string, max: nat): Option<Scanned> {
    var t := SkipSpace(s);
    if t.None? then None else
    var k := DigitRun(t.value);
    if k == 0 || Value(t.value[..k]) > max then None else Some(Scanned(Value(t.value[..k]), t.value[k..]))
  }

  const MAX_INT64: nat := 0x7FFF_FFFF_FFFF_FFFF

  /** %d into a signed integer, which may carry a sign. */
  function ScanInt(s: string): Option<Scanned> {
    var t := SkipSpace(s);
    if t.None? then None else
    var signed := t.value != "" && (t.value[0] == '+' || t.value[0] == '-');
    var negative := signed && t.value[0] == '-';
    var u := if signed then t.value[1..] else t.value;
    var k := DigitRun(u);
    if k == 0 || Value(u[..k]) > (if negative then MAX_INT64 + 1 else MAX_INT64) then None
    else Some(Scanned(if negative then 0 - Value(u[..k]) else Value(u[..k]), u[k..]))
  }

  /** A literal of the format must be what comes next. */
  function ScanLiteral(s: string, literal: string): Option<string> {
    if literal <= s then Some(s[|literal|..]) else None
  }

  lemma {:induction false} RunOf(s: string, rest: string)
    requires AllDigits(s) && (rest != "" ==> !IsDigit(rest[0]))
    ensures DigitRun(s + rest) == |s|
  {
    if s == "" {
      assert s + rest == rest;
    } else {
      RunOf(s[1..], rest);
      assert (s + rest)[1..] == s[1..] + rest;
    }
  }

  /** A printed number scans back, whatever follows it. */
  lemma ScanDecimal(n: nat, rest: string, max: nat)
    requires n <= max && (rest != "" ==> !IsDigit(rest[0]))
    ensures ScanUint(Decimal(n) + rest, max) == Some(Scanned(n, rest))
    ensures n <= MAX_INT64 ==> ScanInt(Decimal(n) + rest) == Some(Scanned(n, rest))
  {
    var s := Decimal(n) + rest;
    assert IsDigit(s[0]);
    RunOf(Decimal(n), rest);
    ValueOfDecimal(n);
    assert s[..|Decimal(n)|] == Decimal(n) && s[|Decimal(n)|..] == rest;
  }
}
