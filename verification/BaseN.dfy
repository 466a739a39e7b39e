/** The unpadded base64 and base32 encodings (sections 4 and 6 of RFC 4648), as Go reads
    and writes them: base64 strictly, base32 leniently. */
module BaseN {
  import opened Core
  import opened Radix

  type Bytes = s: seq<nat> | InBase(256, s) witness []

  datatype Base = Base64 | Base32

  function Size(b: Base): nat { if b.Base64? then 64 else 32 }

  /** Bytes in a full block. */
  function Block(b: Base): nat { if b.Base64? then 3 else 5 }

  /** Digits that carry `k` bytes of a last block. */
  function Carry(b: Base, k: nat): nat
    requires k <= Block(b)
  {
    if b.Base64? then [0, 2, 3, 4][k] else [0, 2, 4, 5, 7, 8][k]
  }

  /** The factor by which those digits exceed the bytes: two to the unused bits. */
  function Slack(b: Base, k: nat): nat
    requires k <= Block(b)
  {
    if b.Base64? then [1, 16, 4, 1][k] else [1, 4, 16, 2, 8, 1][k]
  }

  /** What Go makes of `j` digits left at the end: so many bytes, or an error. Base32 drops
      a count no encoder produces without complaint. */
  function Carried(b: Base, j: nat): Option<nat>
    requires j <= Carry(b, Block(b))
  {
    if b.Base64? then [Some(0), None, Some(1), Some(2), Some(3)][j]
    else [Some(0), Some(0), Some(1), Some(0), Some(2), Some(3), Some(0), Some(4), Some(5)][j]
  }

  lemma Fits(b: Base, k: nat)
    requires k <= Block(b)
    ensures Pow(256, k) * Slack(b, k) == Pow(Size(b), Carry(b, k))
    ensures Carried(b, Carry(b, k)) == Some(k)
  {
  }

  // Digits.

  function EncodeTail(b: Base, bytes: Bytes): (ds: seq<nat>)
    requires |bytes| <= Block(b)
    ensures |ds| == Carry(b, |bytes|) && InBase(Size(b), ds)
  {
    Digits(Size(b), Carry(b, |bytes|), Num(256, bytes) * Slack(b, |bytes|))
  }

  function EncodeDigits(b: Base, bytes: Bytes): (ds: seq<nat>)
    ensures InBase(Size(b), ds) && (|bytes| > 0 ==> |ds| > 0)
    decreases |bytes|
  {
    if |bytes| <= Block(b) then EncodeTail(b, bytes)
    else EncodeTail(b, bytes[..Block(b)]) + EncodeDigits(b, bytes[Block(b)..])
  }

  function DecodeTail(b: Base, ds: seq<nat>): Option<Bytes>
    requires |ds| <= Carry(b, Block(b))
  {
    var k := Carried(b, |ds|);
    if k.None? then None else if k.value == 0 then Some([]) else
    var n := Num(Size(b), ds);
    if b.Base64? && n % Slack(b, k.value) != 0 then None
    else Some(Digits(256, k.value, n / Slack(b, k.value)))
  }

  function DecodeDigits(b: Base, ds: seq<nat>): Option<Bytes>
    decreases |ds|
  {
    var full := Carry(b, Block(b));
    if |ds| <= full then DecodeTail(b, ds) else
    var head, rest := DecodeTail(b, ds[..full]), DecodeDigits(b, ds[full..]);
    if head.None? || rest.None? then None else Some(head.value + rest.value)
  }

  lemma TailRoundTrip(b: Base, bytes: Bytes)
    requires |bytes| <= Block(b)
    ensures DecodeTail(b, EncodeTail(b, bytes)) == Some(bytes)
  {
    var k, n := |bytes|, Num(256, bytes);
    Fits(b, k);
    if k > 0 {
      NumBound(256, bytes);
      Unique(Slack(b, k), n, 0);
      NumOfDigits(Size(b), Carry(b, k), n * Slack(b, k));
      DigitsOfNum(256, bytes);
    }
  }

  lemma {:induction false} DigitsRoundTrip(b: Base, bytes: Bytes)
    ensures DecodeDigits(b, EncodeDigits(b, bytes)) == Some(bytes)
    decreases |bytes|
  {
    if |bytes| <= Block(b) {
      TailRoundTrip(b, bytes);
    } else {
      var head, rest := bytes[..Block(b)], bytes[Block(b)..];
      TailRoundTrip(b, head);
      DigitsRoundTrip(b, rest);
      var ds, full := EncodeDigits(b, bytes), Carry(b, Block(b));
      assert ds[..full] == EncodeTail(b, head) && ds[full..] == EncodeDigits(b, rest);
      assert bytes == head + rest;
    }
  }

  /** Strictness: an accepted last block is the one the encoder writes. */
  lemma StrictTail(ds: seq<nat>)
    requires |ds| <= 4 && InBase(64, ds) && DecodeTail(Base64, ds).Some?
    ensures var bytes := DecodeTail(Base64, ds).value;
      |bytes| <= 3 && Carry(Base64, |bytes|) == |ds| && EncodeTail(Base64, bytes) == ds
  {
    var k, n := Carried(Base64, |ds|).value, Num(64, ds);
    if k > 0 {
      Fits(Base64, k);
      NumBound(64, ds);
      Divided(Slack(Base64, k), n);
      Shrunk(Slack(Base64, k), n, Pow(256, k));
      NumOfDigits(256, k, n / Slack(Base64, k));
      DigitsOfNum(64, ds);
    }
  }

  lemma {:induction false} StrictDigits(ds: seq<nat>)
    requires InBase(64, ds) && DecodeDigits(Base64, ds).Some?
    ensures EncodeDigits(Base64, DecodeDigits(Base64, ds).value) == ds
    decreases |ds|
  {
    if |ds| <= 4 {
      StrictTail(ds);
    } else {
      StrictTail(ds[..4]);
      StrictDigits(ds[4..]);
      var bytes := DecodeDigits(Base64, ds).value;
      assert bytes[..3] == DecodeTail(Base64, ds[..4]).value && bytes[3..] == DecodeDigits(Base64, ds[4..]).value;
      assert ds == ds[..4] + ds[4..];
    }
  }

  // The digits denote the number the bytes denote, shifted by the unused bits.

  function Shift(b: Base, n: nat): nat {
    Slack(b, n % Block(b))
  }

  lemma {:induction false} PowerOfBytes(b: Base, n: nat)
    requires n <= Block(b)
    ensures Pow(Size(b), Carry(b, n)) == Pow(256, n) * Shift(b, n)
  {
    Fits(b, n);
    if n == Block(b) { assert n % Block(b) == 0; }
  }

  lemma TailDenotes(b: Base, bytes: Bytes)
    requires |bytes| <= Block(b)
    ensures Num(Size(b), EncodeTail(b, bytes)) == Num(256, bytes) * Shift(b, |bytes|)
  {
    var k := |bytes|;
    Fits(b, k);
    ShiftIsSlack(b, k);
    DigitsDenote(Size(b), Carry(b, k), Slack(b, k), bytes);
  }

  lemma ShiftIsSlack(b: Base, k: nat)
    requires k <= Block(b)
    ensures Shift(b, k) == Slack(b, k) > 0
  {
  }

  lemma DigitsDenote(size: nat, carry: nat, slack: nat, bytes: Bytes)
    requires size > 0 && slack > 0 && Pow(256, |bytes|) * slack == Pow(size, carry)
    ensures Num(size, Digits(size, carry, Num(256, bytes) * slack)) == Num(256, bytes) * slack
  {
    NumBound(256, bytes);
    Smaller(Num(256, bytes), Pow(256, |bytes|), slack);
    NumOfDigits(size, carry, Num(256, bytes) * slack);
  }

  lemma Smaller(a: nat, b: nat, c: nat)
    requires a < b && c > 0
    ensures a * c < b * c
  {
  }

  lemma ShiftOfRest(b: Base, n: nat)
    requires n > Block(b)
    ensures Shift(b, n) == Shift(b, n - Block(b))
  {
  }

  /** For bytes of every length: read in base 64 or 32, the digits are the number that the
      bytes are in base 256, with zero bits appended up to a whole digit. */
  lemma {:induction false} DigitsDenoteBytes(b: Base, bytes: Bytes)
    ensures Num(Size(b), EncodeDigits(b, bytes)) == Num(256, bytes) * Shift(b, |bytes|)
    ensures Pow(Size(b), |EncodeDigits(b, bytes)|) == Pow(256, |bytes|) * Shift(b, |bytes|)
    decreases |bytes|
  {
    if |bytes| <= Block(b) {
      TailDenotes(b, bytes);
      PowerOfBytes(b, |bytes|);
    } else {
      var head, rest := bytes[..Block(b)], bytes[Block(b)..];
      DigitsDenoteBytes(b, rest);
      FullBlock(b, head);
      ShiftOfRest(b, |bytes|);
      assert bytes == head + rest;
      var t, ds := EncodeTail(b, head), EncodeDigits(b, rest);
      BlocksNum(Size(b), t, ds, head, rest, Shift(b, |rest|));
      BlocksPow(Size(b), |t|, |ds|, |head|, |rest|, Shift(b, |rest|));
    }
  }

  lemma FullBlock(b: Base, head: Bytes)
    requires |head| == Block(b)
    ensures Num(Size(b), EncodeTail(b, head)) == Num(256, head)
    ensures Pow(Size(b), |EncodeTail(b, head)|) == Pow(256, |head|)
  {
    TailDenotes(b, head);
    PowerOfBytes(b, |head|);
  }

  lemma BlocksNum(size: nat, t: seq<nat>, ds: seq<nat>, head: Bytes, rest: Bytes, shift: nat)
    requires Num(size, t) == Num(256, head)
    requires Num(size, ds) == Num(256, rest) * shift && Pow(size, |ds|) == Pow(256, |rest|) * shift
    ensures Num(size, t + ds) == Num(256, head + rest) * shift
  {
    NumConcat(size, t, ds);
    NumConcat(256, head, rest);
    CombineNum(Num(256, head), Pow(256, |rest|), Num(256, rest), shift,
               Pow(size, |ds|), Num(size, ds), Num(size, t + ds), Num(256, head + rest));
  }

  lemma BlocksPow(size: nat, t: nat, ds: nat, head: nat, rest: nat, shift: nat)
    requires Pow(size, t) == Pow(256, head) && Pow(size, ds) == Pow(256, rest) * shift
    ensures Pow(size, t + ds) == Pow(256, head + rest) * shift
  {
    PowAdd(size, t, ds);
    PowAdd(256, head, rest);
    CombinePow(Pow(256, head), Pow(256, rest), shift, Pow(size, ds), Pow(size, t + ds), Pow(256, head + rest));
  }

  lemma CombineNum(h: nat, p: nat, r: nat, shift: nat, ps: nat, rs: nat, whole: nat, bytes: nat)
    requires ps == p * shift && rs == r * shift && whole == h * ps + rs && bytes == h * p + r
    ensures whole == bytes * shift
  {
    Shifted(h, p, r, shift, ps, rs);
  }

  lemma CombinePow(h: nat, p: nat, shift: nat, ps: nat, whole: nat, bytes: nat)
    requires ps == p * shift && whole == h * ps && bytes == h * p
    ensures whole == bytes * shift
  {
    Raised(h, p, shift, ps);
  }

  lemma Shifted(h: nat, p: nat, r: nat, shift: nat, ps: nat, rs: nat)
    requires ps == p * shift && rs == r * shift
    ensures h * ps + rs == (h * p + r) * shift
  {
  }

  lemma Raised(h: nat, p: nat, shift: nat, ps: nat)
    requires ps == p * shift
    ensures h * ps == h * p * shift
  {
  }

  // Text.

  function CharOf(b: Base, d: nat): char
    requires d < Size(b)
  {
    if d < 26 then 'A' + d as char
    else if b.Base32? then '2' + (d - 26) as char
    else if d < 52 then 'a' + (d - 26) as char
    else if d < 62 then '0' + (d - 52) as char
    else if d == 62 then '+' else '/'
  }

  function DigitOf(b: Base, c: char): Option<nat> {
    if 'A' <= c <= 'Z' then Some((c - 'A') as nat)
    else if b.Base32? then (if '2' <= c <= '7' then Some((c - '2') as nat + 26) else None)
    else if 'a' <= c <= 'z' then Some((c - 'a') as nat + 26)
    else if '0' <= c <= '9' then Some((c - '0') as nat + 52)
    else if c == '+' then Some(62) else if c == '/' then Some(63) else None
  }

  lemma CharRoundTrip(b: Base, d: nat)
    requires d < Size(b)
    ensures DigitOf(b, CharOf(b, d)) == Some(d) && CharOf(b, d) != '\r' && CharOf(b, d) != '\n'
  {
  }

  lemma DigitRoundTrip(b: Base, c: char)
    requires DigitOf(b, c).Some?
    ensures DigitOf(b, c).value < Size(b) && CharOf(b, DigitOf(b, c).value) == c
  {
  }

  function Print(b: Base, ds: seq<nat>): string
    requires InBase(Size(b), ds)
  {
    if ds == [] then "" else [CharOf(b, ds[0])] + Print(b, ds[1..])
  }

  /** The digits of a text, line breaks skipped. */
  function Scan(b: Base, s: string): Option<seq<nat>> {
    if s == "" then Some([]) else
    var rest := Scan(b, s[1..]);
    if s[0] == '\r' || s[0] == '\n' then rest else
    var d := DigitOf(b, s[0]);
    if d.None? || rest.None? then None else Some([d.value] + rest.value)
  }

  function Encode(b: Base, bytes: Bytes): string {
    Print(b, EncodeDigits(b, bytes))
  }

  function Decode(b: Base, s: string): Option<Bytes> {
    var ds := Scan(b, s);
    if ds.None? then None else DecodeDigits(b, ds.value)
  }

  function Unbroken(s: string): string {
    if s == "" then "" else if s[0] == '\r' || s[0] == '\n' then Unbroken(s[1..]) else [s[0]] + Unbroken(s[1..])
  }

  predicate NoBreaks(s: string) {
    forall i :: 0 <= i < |s| ==> s[i] != '\r' && s[i] != '\n'
  }

  lemma {:induction false} UnbrokenWhole(s: string)
    requires NoBreaks(s)
    ensures Unbroken(s) == s
  {
    if s != "" { UnbrokenWhole(s[1..]); }
  }

  lemma {:induction false} PrintUnbroken(b: Base, ds: seq<nat>)
    requires InBase(Size(b), ds)
    ensures NoBreaks(Print(b, ds))
  {
    if ds != [] {
      CharRoundTrip(b, ds[0]);
      PrintUnbroken(b, ds[1..]);
    }
  }

  lemma {:induction false} ScanPrint(b: Base, ds: seq<nat>)
    requires InBase(Size(b), ds)
    ensures Scan(b, Print(b, ds)) == Some(ds)
  {
    if ds != [] {
      CharRoundTrip(b, ds[0]);
      ScanPrint(b, ds[1..]);
      assert Print(b, ds)[1..] == Print(b, ds[1..]);
      assert [ds[0]] + ds[1..] == ds;
    }
  }

  lemma {:induction false} PrintScan(b: Base, s: string)
    requires Scan(b, s).Some?
    ensures InBase(Size(b), Scan(b, s).value) && Print(b, Scan(b, s).value) == Unbroken(s)
  {
    if s != "" {
      PrintScan(b, s[1..]);
      if s[0] != '\r' && s[0] != '\n' { DigitRoundTrip(b, s[0]); }
    }
  }

  /** Decoding undoes encoding, for bytes of every length. */
  lemma DecodeEncode(b: Base, bytes: Bytes)
    ensures Decode(b, Encode(b, bytes)) == Some(bytes)
  {
    ScanPrint(b, EncodeDigits(b, bytes));
    DigitsRoundTrip(b, bytes);
  }

  /** Strict base64 accepts, line breaks aside, only what the encoder writes. */
  lemma EncodeDecode(s: string)
    requires Decode(Base64, s).Some?
    ensures Encode(Base64, Decode(Base64, s).value) == Unbroken(s)
  {
    PrintScan(Base64, s);
    StrictDigits(Scan(Base64, s).value);
  }
}
