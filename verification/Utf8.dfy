/** UTF-8 (section 3 of RFC 3629) and cutting a text to a number of bytes. */
module Utf8 {
  import opened BaseN

  predicate Within(b: nat, lo: nat, hi: nat) { lo <= b <= hi }

  predicate Follows(b: nat) { Within(b, 0x80, 0xBF) }

  /** The length of the character a text starts with, or zero if it starts with none. */
  function CharLength(s: Bytes): (k: nat)
    ensures k <= 4 && k <= |s|
  {
    if |s| >= 1 && s[0] <= 0x7F then 1
    else if |s| >= 2 && Within(s[0], 0xC2, 0xDF) && Follows(s[1]) then 2
    else if |s| >= 3 && Within(s[0], 0xE0, 0xEF) && SecondOfThree(s[0], s[1]) && Follows(s[2]) then 3
    else if |s| >= 4 && Within(s[0], 0xF0, 0xF4) && SecondOfFour(s[0], s[1]) && Follows(s[2]) && Follows(s[3]) then 4
    else 0
  }

  /** No overlong forms and no surrogates. */
  predicate SecondOfThree(first: nat, second: nat) {
    if first == 0xE0 then Within(second, 0xA0, 0xBF)
    else if first == 0xED then Within(second, 0x80, 0x9F)
    else Follows(second)
  }

  /** No overlong forms and nothing above U+10FFFF. */
  predicate SecondOfFour(first: nat, second: nat) {
    if first == 0xF0 then Within(second, 0x90, 0xBF)
    else if first == 0xF4 then Within(second, 0x80, 0x8F)
    else Follows(second)
  }

  predicate Valid(s: Bytes)
    decreases |s|
  {
    s == [] || (CharLength(s) > 0 && Valid(s[CharLength(s)..]))
  }

  // Characters.

  /** A Unicode scalar value. */
  predicate Scalar(c: nat) {
    c <= 0x10FFFF && !(0xD800 <= c <= 0xDFFF)
  }

  predicate Scalars(cs: seq<nat>) {
    forall i :: 0 <= i < |cs| ==> Scalar(cs[i])
  }

  function EncodeChar(c: nat): (s: Bytes)
    requires Scalar(c)
    ensures 1 <= |s| <= 4
  {
    if c <= 0x7F then [c]
    else if c <= 0x7FF then [0xC0 + c / 64, 0x80 + c % 64]
    else if c <= 0xFFFF then [0xE0 + c / 4096, 0x80 + c / 64 % 64, 0x80 + c % 64]
    else [0xF0 + c / 262144, 0x80 + c / 4096 % 64, 0x80 + c / 64 % 64, 0x80 + c % 64]
  }

  function EncodeChars(cs: seq<nat>): Bytes
    requires Scalars(cs)
  {
    if cs == [] then [] else EncodeChar(cs[0]) + EncodeChars(cs[1..])
  }

  function DecodeChar(s: Bytes): nat
    requires CharLength(s) > 0
  {
    var k := CharLength(s);
    if k == 1 then s[0]
    else if k == 2 then (s[0] - 0xC0) * 64 + (s[1] - 0x80)
    else if k == 3 then (s[0] - 0xE0) * 4096 + (s[1] - 0x80) * 64 + (s[2] - 0x80)
    else (s[0] - 0xF0) * 262144 + (s[1] - 0x80) * 4096 + (s[2] - 0x80) * 64 + (s[3] - 0x80)
  }

  /** The base-64 digits of a character. */
  lemma Sextets(c: nat)
    ensures c == c / 64 * 64 + c % 64
    ensures c / 64 == c / 4096 * 64 + c / 64 % 64
    ensures c / 4096 == c / 262144 * 64 + c / 4096 % 64
  {
    assert c / 4096 == c / 64 / 64;
    assert c / 262144 == c / 4096 / 64;
  }

  lemma Joined(a: nat, x: nat)
    requires x < 64
    ensures (a * 64 + x) / 64 == a && (a * 64 + x) % 64 == x
  {
  }

  lemma EncodedLength(c: nat, rest: Bytes)
    requires Scalar(c)
    ensures CharLength(EncodeChar(c) + rest) == |EncodeChar(c)|
  {
    Sextets(c);
    if 0x7FF < c <= 0xFFFF {
      ThreeBytes(c / 4096, c / 64 % 64, c % 64, c);
    } else if 0xFFFF < c {
      FourBytesOf(c / 262144, c / 4096 % 64, c / 64 % 64, c % 64, c);
    }
  }

  lemma ThreeBytes(x: nat, y: nat, z: nat, c: nat)
    requires y < 64 && z < 64 && c == (x * 64 + y) * 64 + z && 0x7FF < c <= 0xFFFF && Scalar(c)
    ensures x < 16 && SecondOfThree(0xE0 + x, 0x80 + y) && Follows(0x80 + z)
  {
  }

  lemma FourBytesOf(x: nat, y: nat, z: nat, u: nat, c: nat)
    requires y < 64 && z < 64 && u < 64 && c == ((x * 64 + y) * 64 + z) * 64 + u && 0xFFFF < c <= 0x10FFFF
    ensures x <= 4 && SecondOfFour(0xF0 + x, 0x80 + y) && Follows(0x80 + z) && Follows(0x80 + u)
  {
  }

  /** What starts a text is the encoding of one scalar value. */
  lemma StartsWithChar(s: Bytes)
    requires CharLength(s) > 0
    ensures Scalar(DecodeChar(s)) && EncodeChar(DecodeChar(s)) == s[..CharLength(s)]
  {
    var k := CharLength(s);
    if k == 2 {
      Joined(s[0] - 0xC0, s[1] - 0x80);
    } else if k == 3 {
      var a := (s[0] - 0xE0) * 64 + (s[1] - 0x80);
      Joined(s[0] - 0xE0, s[1] - 0x80);
      Joined(a, s[2] - 0x80);
      Decoded3(s[0] - 0xE0, s[1] - 0x80, s[2] - 0x80, DecodeChar(s));
    } else if k == 4 {
      Decoded4(s[0] - 0xF0, s[1] - 0x80, s[2] - 0x80, s[3] - 0x80, DecodeChar(s));
    }
  }

  lemma Decoded3(x: nat, y: nat, z: nat, c: nat)
    requires x < 16 && y < 64 && z < 64 && SecondOfThree(0xE0 + x, 0x80 + y)
    requires c == x * 4096 + y * 64 + z
    ensures 0x7FF < c <= 0xFFFF && Scalar(c) && c / 4096 == x && c / 64 % 64 == y && c % 64 == z
  {
    Joined(x, y);
    Joined(x * 64 + y, z);
    assert c / 64 == x * 64 + y;
  }

  lemma Decoded4(x: nat, y: nat, z: nat, u: nat, c: nat)
    requires x <= 4 && y < 64 && z < 64 && u < 64 && SecondOfFour(0xF0 + x, 0x80 + y)
    requires c == x * 262144 + y * 4096 + z * 64 + u
    ensures 0xFFFF < c <= 0x10FFFF
    ensures c / 262144 == x && c / 4096 % 64 == y && c / 64 % 64 == z && c % 64 == u
  {
    Joined(x, y);
    Joined(x * 64 + y, z);
    Joined((x * 64 + y) * 64 + z, u);
    assert c / 64 == (x * 64 + y) * 64 + z;
    assert c / 4096 == x * 64 + y;
  }

  lemma {:induction false} EncodedValid(cs: seq<nat>)
    requires Scalars(cs)
    ensures Valid(EncodeChars(cs))
  {
    if cs != [] {
      var c, rest := EncodeChar(cs[0]), EncodeChars(cs[1..]);
      EncodedLength(cs[0], rest);
      EncodedValid(cs[1..]);
      assert (c + rest)[|c|..] == rest;
    }
  }

  lemma {:induction false} ValidDecoded(s: Bytes) returns (cs: seq<nat>)
    requires Valid(s)
    ensures Scalars(cs) && EncodeChars(cs) == s
    decreases |s|
  {
    cs := [];
    if s != [] {
      StartsWithChar(s);
      var rest := ValidDecoded(s[CharLength(s)..]);
      cs := [DecodeChar(s)] + rest;
      assert cs[1..] == rest;
      assert s == s[..CharLength(s)] + s[CharLength(s)..];
    }
  }

  ghost predicate Encodes(cs: seq<nat>, s: Bytes) {
    Scalars(cs) && EncodeChars(cs) == s
  }

  /** The valid texts are exactly the encodings of sequences of scalar values. */
  lemma ValidExactly(s: Bytes)
    ensures Valid(s) <==> exists cs :: Encodes(cs, s)
  {
    if Valid(s) {
      var cs := ValidDecoded(s);
      assert Encodes(cs, s);
    }
    forall cs | Encodes(cs, s) ensures Valid(s) { EncodedValid(cs); }
  }

  lemma FirstChar(c: Bytes, rest: Bytes, k: nat)
    requires |c| > 0 && CharLength(c + rest) == |c| && 0 < k <= |c + rest| && Valid((c + rest)[..k])
    ensures |c| <= k && Valid(rest[..k - |c|]) && (c + rest)[..k] == c + rest[..k - |c|]
  {
    CharIsLocal(c + rest, k);
    assert (c + rest)[..k][|c|..] == rest[..k - |c|];
  }

  /** A valid prefix of an encoded text is its first few characters. */
  lemma {:induction false} PrefixOfChars(cs: seq<nat>, k: nat) returns (j: nat)
    requires Scalars(cs) && k <= |EncodeChars(cs)| && Valid(EncodeChars(cs)[..k])
    ensures j <= |cs| && Encodes(cs[..j], EncodeChars(cs)[..k])
  {
    j := 0;
    if k > 0 {
      var c, rest := EncodeChar(cs[0]), EncodeChars(cs[1..]);
      EncodedLength(cs[0], rest);
      FirstChar(c, rest, k);
      var i := PrefixOfChars(cs[1..], k - |c|);
      j := i + 1;
      OneMoreChar(cs, i, rest[..k - |c|]);
    }
  }

  lemma OneMoreChar(cs: seq<nat>, i: nat, s: Bytes)
    requires Scalars(cs) && i < |cs| && Encodes(cs[1..][..i], s)
    ensures Encodes(cs[..i + 1], EncodeChar(cs[0]) + s)
  {
    assert cs[..i + 1][0] == cs[0] && cs[..i + 1][1..] == cs[1..][..i];
  }

  /** `r` is the first few characters of `s`. */
  ghost predicate CutBetweenChars(s: Bytes, r: Bytes) {
    exists cs, j: nat :: Encodes(cs, s) && j <= |cs| && Encodes(cs[..j], r)
  }

  lemma BoundaryCutsChars(s: Bytes, k: nat)
    requires k <= |s| && Valid(s) && Valid(s[..k])
    ensures CutBetweenChars(s, s[..k])
  {
    var cs := ValidDecoded(s);
    var j := PrefixOfChars(cs, k);
    assert Encodes(cs, s) && Encodes(cs[..j], s[..k]);
  }

  /** Cutting at `k` falls between two characters. */
  predicate Boundary(s: Bytes, k: nat)
    requires k <= |s|
  {
    Valid(s[..k]) && Valid(s[k..])
  }

  /** A character is told by its own bytes alone. */
  lemma CharIsLocal(s: Bytes, k: nat)
    requires k <= |s| && CharLength(s[..k]) > 0
    ensures CharLength(s) == CharLength(s[..k])
  {
  }

  lemma CharFits(s: Bytes, k: nat)
    requires CharLength(s) <= k <= |s| && CharLength(s) > 0
    ensures CharLength(s[..k]) == CharLength(s)
  {
  }

  /** What is left of a valid text after a valid prefix is valid. */
  lemma {:induction false} ValidPrefix(s: Bytes, k: nat)
    requires k <= |s| && Valid(s) && Valid(s[..k])
    ensures Boundary(s, k)
    decreases |s|
  {
    if k > 0 {
      CharIsLocal(s, k);
      var n := CharLength(s);
      assert s[..k][n..] == s[n..][..k - n];
      ValidPrefix(s[n..], k - n);
      assert s[n..][k - n..] == s[k..];
    } else {
      assert s[k..] == s;
    }
  }

  /** Within any three bytes below a limit a valid text has a boundary. */
  lemma {:induction false} BoundaryNear(s: Bytes, limit: nat) returns (k: nat)
    requires Valid(s) && limit <= |s|
    ensures limit - 3 <= k <= limit && Boundary(s, k)
    decreases |s|
  {
    var n := CharLength(s);
    if limit < n || s == [] {
      assert s[..0] == [] && s[0..] == s;
      return 0;
    }
    var rest := BoundaryNear(s[n..], limit - n);
    k := n + rest;
    CharFits(s, k);
    assert s[..k][n..] == s[n..][..rest] && s[n..][rest..] == s[k..];
  }

  /** The whole text if it fits, and otherwise its longest valid prefix within the limit.
      A valid text is cut between characters, at most three bytes short of the limit. */
  method TruncateUtf8(value: Bytes, maxBytes: nat) returns (r: Bytes)
    ensures |value| <= maxBytes ==> r == value
    ensures |value| > maxBytes ==>
      && |r| <= maxBytes && r == value[..|r|] && Valid(r)
      && (forall k :: |r| < k <= maxBytes ==> !Valid(value[..k]))
    ensures Valid(value) ==> |r| <= |value| && Boundary(value, |r|) && CutBetweenChars(value, r)
    ensures Valid(value) && |value| > maxBytes ==> |r| >= maxBytes - 3
  {
    if |value| <= maxBytes {
      assert value[..|value|] == value && value[|value|..] == [];
      if Valid(value) { BoundaryCutsChars(value, |value|); }
      return value;
    }
    var cut := maxBytes;
    while cut > 0 && !Valid(value[..cut])
      invariant 0 <= cut <= maxBytes
      invariant forall k :: cut < k <= maxBytes ==> !Valid(value[..k])
    {
      cut := cut - 1;
    }
    r := value[..cut];
    if Valid(value) {
      ValidPrefix(value, cut);
      BoundaryCutsChars(value, cut);
      ghost var near := BoundaryNear(value, maxBytes);
    }
  }
}
