/** One-time codes: HOTP truncation (section 5.3 of RFC 4226) and the TOTP check around it. */
module OneTimeCodes {
  import opened Core
  import opened Radix
  import opened Decimals
  import opened Texts
  import opened BaseN
  import Totp

  const DIGITS: nat := 6

  /** uint32: an assignment of this type is proved not to overflow. */
  newtype Word = x: int | 0 <= x < 0x1_0000_0000

  /** Dynamic truncation: the low 31 bits of the four bytes the last nibble points at. */
  function Truncation(sum: Bytes): nat
    requires |sum| == 20
  {
    var o := sum[19] % 16;
    sum[o] % 128 * 0x100_0000 + sum[o + 1] * 0x1_0000 + sum[o + 2] * 0x100 + sum[o + 3]
  }

  lemma FourBytes(bs: Bytes)
    requires |bs| == 4
    ensures Num(256, bs) == bs[0] * 0x100_0000 + bs[1] * 0x1_0000 + bs[2] * 0x100 + bs[3]
    ensures Num(256, bs) % 0x8000_0000 == bs[0] % 128 * 0x100_0000 + bs[1] * 0x1_0000 + bs[2] * 0x100 + bs[3]
  {
    assert bs[..3][..2] == bs[..2] && bs[..2][..1] == bs[..1] && bs[..1][..0] == [];
    assert Num(256, bs[..1]) == bs[0];
    assert Num(256, bs[..2]) == bs[0] * 256 + bs[1];
    assert Num(256, bs[..3]) == (bs[0] * 256 + bs[1]) * 256 + bs[2];
    var low := bs[0] % 128 * 0x100_0000 + bs[1] * 0x1_0000 + bs[2] * 0x100 + bs[3];
    Divided(128, bs[0]);
    Unique(0x8000_0000, bs[0] / 128, low);
  }

  /** The code for a MAC. */
  function CodeOf(sum: Bytes, digits: nat): string
    requires |sum| == 20
  {
    Padded(digits, Truncation(sum) % Pow(10, digits))
  }

  lemma PowersOfTen(k: nat)
    requires k <= 9
    ensures Pow(10, k) <= 1_000_000_000
    ensures k < 9 ==> Pow(10, k + 1) <= 1_000_000_000
    decreases 9 - k
  {
    assert Pow(10, 9) == 1_000_000_000;
    if k < 9 { PowersOfTen(k + 1); }
  }

  method PowerOfTen(digits: nat) returns (modulus: Word)
    requires digits <= 9
    ensures modulus as nat == Pow(10, digits)
  {
    modulus := 1;
    for i := 0 to digits
      invariant modulus as nat == Pow(10, i)
    {
      PowersOfTen(i);
      modulus := modulus * 10;
    }
  }

  /** The four bytes, their top bit masked off; the slice stays within the MAC. */
  method Truncate(sum: Bytes) returns (value: nat)
    requires |sum| == 20
    ensures value == Truncation(sum)
  {
    var offset := sum[|sum| - 1] % 16;
    FourBytes(sum[offset..offset + 4]);
    value := Num(256, sum[offset..offset + 4]) % 0x8000_0000;
  }

  lemma CodeDenotes(value: nat, digits: nat)
    requires digits > 0
    ensures var code := Padded(digits, value % Pow(10, digits));
      |code| == digits && AllDigits(code) && Value(code) == value % Pow(10, digits)
  {
    PaddedExactly(digits, value % Pow(10, digits));
  }

  /** For every MAC and every digit count up to nine the slice stays within the MAC, the
      modulus within 32 bits, and the code is that many decimal digits denoting the
      truncated value modulo the power of ten. */
  method Hotp(sum: Bytes, digits: nat) returns (code: string)
    requires |sum| == 20 && 1 <= digits <= 9
    ensures code == CodeOf(sum, digits)
    ensures |code| == digits && AllDigits(code) && Value(code) == Truncation(sum) % Pow(10, digits)
  {
    var value := Truncate(sum);
    var modulus := PowerOfTen(digits);
    code := Padded(digits, value % modulus as nat);
    CodeDenotes(value, digits);
  }

  /** HMAC-SHA1 of the secret and the counter. */
  type Mac = (Bytes, nat) -> Bytes

  ghost predicate IsSha1(mac: Mac) {
    forall secret, counter :: |mac(secret, counter)| == 20
  }

  function Secret(text: string): Option<Bytes> {
    Decode(Base32, Upper(Trim(text)))
  }

  /** The step produces the code. */
  ghost predicate Produces(mac: Mac, key: Bytes, step: int, code: string)
    requires IsSha1(mac)
  {
    step >= 0 && CodeOf(mac(key, step), 6) == code
  }

  /** The step produces the code for the secret, and is one of those tried now. */
  ghost predicate Accepts(mac: Mac, secret: string, code: string, seconds: int, step: int)
    requires IsSha1(mac)
  {
    && Secret(secret).Some? && Secret(secret).value != []
    && |code| == 6
    && Totp.InWindow(step, seconds)
    && Produces(mac, Secret(secret).value, step, code)
  }

  method Matches(mac: Mac, key: Bytes, step: nat, code: string) returns (same: bool)
    requires IsSha1(mac)
    ensures same <==> Produces(mac, key, step, code)
  {
    var expected := Hotp(mac(key, step), DIGITS);
    same := expected == code;
  }

  /** The scan of the window, earliest step first. */
  method Search(mac: Mac, key: Bytes, code: string, seconds: int) returns (step: int, ok: bool)
    requires IsSha1(mac)
    ensures ok ==> Totp.InWindow(step, seconds) && Produces(mac, key, step, code)
    ensures forall s :: Totp.InWindow(s, seconds) && (ok ==> s < step) ==> !Produces(mac, key, s, code)
    ensures !ok ==> step == 0
  {
    var current := Totp.Quotient(seconds);
    for offset := -Totp.WINDOW to Totp.WINDOW + 1
      invariant forall s :: current - Totp.WINDOW <= s < current + offset ==> !Produces(mac, key, s, code)
    {
      if current + offset >= 0 {
        var same := Matches(mac, key, current + offset, code);
        if same { return current + offset, true; }
      }
    }
    return 0, false;
  }

  /** The least accepted step, if there is one. */
  method ValidateTotp(mac: Mac, secret: string, code: string, seconds: int) returns (step: int, ok: bool)
    requires IsSha1(mac)
    ensures ok <==> exists s :: Accepts(mac, secret, code, seconds, s)
    ensures ok ==> Accepts(mac, secret, code, seconds, step)
    ensures ok ==> forall s :: Accepts(mac, secret, code, seconds, s) ==> step <= s
    ensures !ok ==> step == 0
  {
    var key := Secret(secret);
    if key.None? || |key.value| == 0 || |code| != DIGITS { return 0, false; }
    step, ok := Search(mac, key.value, code, seconds);
    assert ok ==> Accepts(mac, secret, code, seconds, step);
  }

  /** At or after the epoch the window is the current thirty-second step and its neighbours. */
  lemma WindowAfterEpoch(seconds: nat, step: int)
    ensures Totp.InWindow(step, seconds) <==> step >= 0 && seconds / 30 - 1 <= step <= seconds / 30 + 1
  {
  }

  // Secrets.

  /** A generated secret is read back as the random bytes it was made from, with any case
      and any white space around it. */
  lemma GeneratedSecret(raw: Bytes, before: string, text: string, after: string)
    requires Blank(before) && Blank(after) && Bare(text) && Upper(text) == Encode(Base32, raw)
    ensures Secret(before + text + after) == Some(raw)
  {
    TrimSpaced(before, text, after);
    DecodeEncode(Base32, raw);
  }
}
