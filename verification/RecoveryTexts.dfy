/** Recovery codes as text: how they are written, and what counts as the same code. */
module RecoveryTexts {
  import opened Core
  import opened Radix
  import opened Texts
  import opened BaseN

  const RAW_BYTES: nat := 10
  const COMPACT_LENGTH: nat := 16

  predicate Raw(raw: Bytes) { |raw| == RAW_BYTES }

  /** The sixteen base32 characters of a code. */
  function Compact(raw: Bytes): string { Encode(Base32, raw) }

  predicate Plain(c: char) { 'A' <= c <= 'Z' || '2' <= c <= '7' }

  predicate AllPlain(s: string) { forall i :: 0 <= i < |s| ==> Plain(s[i]) }

  lemma {:induction false} PrintedPlain(ds: seq<nat>)
    requires InBase(32, ds)
    ensures |Print(Base32, ds)| == |ds| && AllPlain(Print(Base32, ds))
  {
    if ds != [] { PrintedPlain(ds[1..]); }
  }

  lemma CompactShape(raw: Bytes)
    requires Raw(raw)
    ensures |Compact(raw)| == COMPACT_LENGTH && AllPlain(Compact(raw))
  {
    assert |EncodeDigits(Base32, raw[5..])| == 8;
    PrintedPlain(EncodeDigits(Base32, raw));
  }

  function Group(a: string, rest: string): string { a + "-" + rest }

  /** Four groups of four, with dashes between. */
  function Dashed(compact: string): string
    requires |compact| == COMPACT_LENGTH
  {
    Group(compact[..4], Group(compact[4..8], Group(compact[8..12], compact[12..])))
  }

  function Dashless(s: string): string {
    if s == "" then "" else if s[0] == '-' then Dashless(s[1..]) else [s[0]] + Dashless(s[1..])
  }

  /** What is hashed and compared. */
  function Normalized(code: string): string {
    Upper(Dashless(Trim(code)))
  }

  /** The character is the given one, or its small letter, or one of the two characters
      outside ASCII whose capital it is. */
  predicate Writes(c: char, plain: char) {
    || c == plain
    || ('A' <= plain <= 'Z' && c as int == plain as int + 32)
    || (plain == 'I' && c == '\U{0131}')
    || (plain == 'S' && c == '\U{017F}')
  }

  /** The text is the code in some mixture of cases with dashes put anywhere. */
  predicate Spells(s: string, compact: string) {
    if s == "" then compact == ""
    else if s[0] == '-' then Spells(s[1..], compact)
    else compact != "" && Writes(s[0], compact[0]) && Spells(s[1..], compact[1..])
  }

  lemma {:induction false} SpellsExactly(s: string, compact: string)
    requires AllPlain(compact)
    ensures Spells(s, compact) <==> Upper(Dashless(s)) == compact
  {
    if s != "" {
      if s[0] == '-' {
        SpellsExactly(s[1..], compact);
      } else if compact != "" {
        SpellsExactly(s[1..], compact[1..]);
        assert Plain(compact[0]);
        assert Upper(Dashless(s)) == [UpperChar(s[0])] + Upper(Dashless(s[1..])) by {
          assert Dashless(s)[1..] == Dashless(s[1..]);
        }
        assert compact == [compact[0]] + compact[1..];
      }
    }
  }

  /** Any text is accepted as a code exactly when, the white space around it taken off, it
      spells the code. */
  lemma SameCode(before: string, s: string, after: string, raw: Bytes)
    requires Raw(raw) && Blank(before) && Blank(after) && Bare(s)
    ensures Normalized(before + s + after) == Compact(raw) <==> Spells(s, Compact(raw))
  {
    TrimSpaced(before, s, after);
    CompactShape(raw);
    SpellsExactly(s, Compact(raw));
  }

  lemma {:induction false} SpellsGroup(a: string, s: string, compact: string)
    requires AllPlain(a) && Spells(s, compact)
    ensures Spells(Group(a, s), a + compact)
  {
    if a == "" {
      assert Group(a, s)[1..] == s && a + compact == compact;
    } else {
      SpellsGroup(a[1..], s, compact);
      assert Group(a, s)[1..] == Group(a[1..], s) && (a + compact)[1..] == a[1..] + compact;
    }
  }

  lemma {:induction false} SpellsItself(a: string)
    requires AllPlain(a)
    ensures Spells(a, a)
  {
    if a != "" { SpellsItself(a[1..]); }
  }

  lemma DashedSpells(c: string)
    requires |c| == COMPACT_LENGTH && AllPlain(c)
    ensures Spells(Dashed(c), c)
  {
    SpellsGroups(c[..4], c[4..8], c[8..12], c[12..]);
    assert c[..4] + (c[4..8] + (c[8..12] + c[12..])) == c;
  }

  lemma SpellsGroups(a: string, b: string, c: string, d: string)
    requires AllPlain(a) && AllPlain(b) && AllPlain(c) && AllPlain(d)
    ensures Spells(Group(a, Group(b, Group(c, d))), a + (b + (c + d)))
  {
    SpellsItself(d);
    SpellsGroup(c, d, d);
    SpellsGroup(b, Group(c, d), c + d);
    SpellsGroup(a, Group(b, Group(c, d)), b + (c + d));
  }

  predicate InGroups(code: string) {
    |code| == 19 && forall i :: 0 <= i < 19 ==> if i in {4, 9, 14} then code[i] == '-' else Plain(code[i])
  }

  lemma DashedInGroups(c: string)
    requires |c| == COMPACT_LENGTH && AllPlain(c)
    ensures InGroups(Dashed(c))
  {
  }

  /** A code as shown is nineteen characters in four dashed groups, and spells itself. */
  lemma DashedShape(raw: Bytes)
    requires Raw(raw)
    ensures |Compact(raw)| == COMPACT_LENGTH
    ensures InGroups(Dashed(Compact(raw))) && Spells(Dashed(Compact(raw)), Compact(raw))
  {
    CompactShape(raw);
    DashedSpells(Compact(raw));
    DashedInGroups(Compact(raw));
  }

  /** Distinct random values never share a normal form. */
  lemma DistinctCodes(a: Bytes, b: Bytes)
    requires Compact(a) == Compact(b)
    ensures a == b
  {
    DecodeEncode(Base32, a);
    DecodeEncode(Base32, b);
  }

  /** HMAC under the recovery pepper. */
  type Hash = string -> Atom

  /** The codes shown to the user and the hashes stored, one pair per random value. */
  method GenerateRecoveryCodes(raws: seq<Bytes>, hash: Hash) returns (codes: seq<string>, hashes: seq<Atom>)
    requires forall i :: 0 <= i < |raws| ==> Raw(raws[i])
    ensures |codes| == |raws| && |hashes| == |raws|
    ensures forall i :: 0 <= i < |raws| ==> InGroups(codes[i]) && Spells(codes[i], Compact(raws[i]))
    ensures forall i :: 0 <= i < |raws| ==> hashes[i] == hash(Compact(raws[i]))
  {
    codes, hashes := [], [];
    for k := 0 to |raws|
      invariant |codes| == k && |hashes| == k
      invariant forall i :: 0 <= i < k ==> InGroups(codes[i]) && Spells(codes[i], Compact(raws[i]))
      invariant forall i :: 0 <= i < k ==> hashes[i] == hash(Compact(raws[i]))
    {
      DashedShape(raws[k]);
      var code := Dashed(Compact(raws[k]));
      SameCode("", code, "", raws[k]);
      assert "" + code + "" == code;
      codes := codes + [code];
      hashes := hashes + [hash(Normalized(code))];
    }
  }

  /** With no two random values and no two hashes colliding, the stored hashes are distinct,
      as the primary key of the recovery-code table asks. */
  lemma HashesDistinct(raws: seq<Bytes>, hash: Hash, hashes: seq<Atom>)
    requires forall i, j :: 0 <= i < j < |raws| ==> raws[i] != raws[j]
    requires forall s, t :: hash(s) == hash(t) ==> s == t
    requires |hashes| == |raws| && forall i :: 0 <= i < |raws| ==> hashes[i] == hash(Compact(raws[i]))
    ensures Distinct(hashes)
  {
    forall i, j | 0 <= i < j < |hashes| ensures hashes[i] != hashes[j] {
      if hashes[i] == hashes[j] { DistinctCodes(raws[i], raws[j]); }
    }
  }
}
