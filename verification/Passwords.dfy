/** Password hashes: the printed form, its parser, and what verification says. */
module Passwords {
  import opened Core
  import opened Decimals
  import opened BaseN

  const MAX_UINT32: nat := 0xFFFF_FFFF
  const MAX_UINT8: nat := 0xFF
  const ARGON2_VERSION: nat := 19

  type Uint32 = n: nat | n <= MAX_UINT32
  type Uint8 = n: nat | n <= MAX_UINT8

  datatype Parameters = Parameters(
    memory: Uint32,
    iterations: Uint32,
    parallelism: Uint8,
    saltLength: Uint32,
    keyLength: Uint32)

  /** NewPasswordHasher accepts the parameters. */
  predicate Safe(p: Parameters) {
    p.memory >= 8 * 1024 && p.iterations != 0 && p.parallelism != 0 && p.saltLength >= 16 && p.keyLength >= 16
  }

  datatype Result<+T> = Ok(value: T) | Err(reason: Failure)

  datatype Failure = BadLength | BadFormat | BadVersion | BadParameters | BadSalt | BadKey | Unsafe

  datatype Parsed = Parsed(parameters: Parameters, salt: Bytes, key: Bytes)

  // Fields between dollar signs.

  function Field(a: string, rest: string): string { a + "$" + rest }

  function Split(s: string): (parts: seq<string>)
    ensures |parts| > 0
  {
    if s == "" then [""]
    else if s[0] == '$' then [""] + Split(s[1..])
    else var rest := Split(s[1..]); [[s[0]] + rest[0]] + rest[1..]
  }

  lemma {:induction false} SplitField(a: string, rest: string)
    requires '$' !in a
    ensures Split(Field(a, rest)) == [a] + Split(rest)
  {
    if a == "" {
      assert Field(a, rest)[1..] == rest;
    } else {
      SplitField(a[1..], rest);
      assert Field(a, rest)[1..] == Field(a[1..], rest);
      assert [a[0]] + a[1..] == a;
    }
  }

  lemma {:induction false} SplitLast(a: string)
    requires '$' !in a
    ensures Split(a) == [a]
  {
    if a != "" {
      SplitLast(a[1..]);
      assert [a[0]] + a[1..] == a;
    }
  }

  // The printed form.

  function PrintCosts(p: Parameters): string {
    "m=" + (Decimal(p.memory) + (",t=" + (Decimal(p.iterations) + (",p=" + Decimal(p.parallelism)))))
  }

  function PrintFields(version: string, p: Parameters, salt: Bytes, key: Bytes): string {
    Field("", Field("argon2id", Field(version,
      Field(PrintCosts(p), Field(Encode(Base64, salt), Encode(Base64, key))))))
  }

  function PrintHash(p: Parameters, salt: Bytes, key: Bytes): string {
    PrintFields("v=" + Decimal(ARGON2_VERSION), p, salt, key)
  }

  // The parser.

  function ScanVersion(s: string): Option<int> {
    var t := ScanLiteral(s, "v=");
    if t.None? then None else
    var n := ScanInt(t.value);
    if n.None? then None else Some(n.value.value)
  }

  /** A literal, then a number. */
  function ScanNamed(s: string, name: string, max: nat): Option<Scanned> {
    var t := ScanLiteral(s, name);
    if t.None? then None else ScanUint(t.value, max)
  }

  datatype Costs = Costs(memory: Uint32, iterations: Uint32, parallelism: Uint8)

  function ScanCosts(s: string): Option<Costs> {
    var m := ScanNamed(s, "m=", MAX_UINT32);
    if m.None? then None else
    var t := ScanNamed(m.value.rest, ",t=", MAX_UINT32);
    if t.None? then None else
    var p := ScanNamed(t.value.rest, ",p=", MAX_UINT8);
    if p.None? then None else Some(Costs(m.value.value, t.value.value, p.value.value))
  }

  /** uint32(n) */
  function Truncated(n: nat): Uint32 { n % 0x1_0000_0000 }

  /** What the fields amount to; the first bad one decides the error. */
  function Assemble(version: Option<int>, costs: Option<Costs>, salt: Option<Bytes>, key: Option<Bytes>)
    : Result<Parsed>
  {
    if version != Some(ARGON2_VERSION) then Err(BadVersion)
    else if costs.None? then Err(BadParameters)
    else if salt.None? then Err(BadSalt)
    else if key.None? then Err(BadKey) else
    var p := Parameters(costs.value.memory, costs.value.iterations, costs.value.parallelism,
                        Truncated(|salt.value|), Truncated(|key.value|));
    if !Safe(p) then Err(Unsafe) else Ok(Parsed(p, salt.value, key.value))
  }

  function ParseFields(version: string, costs: string, salt: string, key: string): Result<Parsed> {
    Assemble(ScanVersion(version), ScanCosts(costs), Decode(Base64, salt), Decode(Base64, key))
  }

  function ParseHash(encoded: string): Result<Parsed> {
    var parts := Split(encoded);
    if |parts| != 6 || parts[1] != "argon2id" then Err(BadFormat)
    else ParseFields(parts[2], parts[3], parts[4], parts[5])
  }

  lemma ScanNamedDecimal(name: string, n: nat, rest: string, max: nat)
    requires n <= max && (rest != "" ==> !IsDigit(rest[0]))
    ensures ScanNamed(name + (Decimal(n) + rest), name, max) == Some(Scanned(n, rest))
  {
    var s := name + (Decimal(n) + rest);
    assert s[..|name|] == name && s[|name|..] == Decimal(n) + rest;
    ScanDecimal(n, rest, max);
  }

  lemma CostsRoundTrip(p: Parameters)
    ensures ScanCosts(PrintCosts(p)) == Some(Costs(p.memory, p.iterations, p.parallelism))
  {
    var ps := ",p=" + Decimal(p.parallelism);
    var ts := ",t=" + (Decimal(p.iterations) + ps);
    ScanNamedDecimal("m=", p.memory, ts, MAX_UINT32);
    ScanNamedDecimal(",t=", p.iterations, ps, MAX_UINT32);
    ScanNamedDecimal(",p=", p.parallelism, "", MAX_UINT8);
    assert Decimal(p.parallelism) + "" == Decimal(p.parallelism);
  }

  lemma VersionRoundTrip()
    ensures ScanVersion("v=" + Decimal(ARGON2_VERSION)) == Some(ARGON2_VERSION)
  {
    var s := "v=" + Decimal(ARGON2_VERSION);
    assert s[2..] == Decimal(ARGON2_VERSION) + "";
    ScanDecimal(ARGON2_VERSION, "", MAX_UINT32);
  }

  lemma {:induction false} NoDollarInDecimal(n: nat)
    ensures '$' !in Decimal(n)
  {
    if n >= 10 { NoDollarInDecimal(n / 10); }
  }

  lemma {:induction false} NoDollarInPrint(ds: seq<nat>)
    requires Radix.InBase(64, ds)
    ensures '$' !in Print(Base64, ds)
  {
    if ds != [] { NoDollarInPrint(ds[1..]); }
  }

  lemma HashSplits(version: string, p: Parameters, salt: Bytes, key: Bytes)
    requires '$' !in version
    ensures Split(PrintFields(version, p, salt, key)) ==
      ["", "argon2id", version, PrintCosts(p), Encode(Base64, salt), Encode(Base64, key)]
  {
    NoDollarInCosts(p);
    NoDollarInPrint(EncodeDigits(Base64, salt));
    NoDollarInPrint(EncodeDigits(Base64, key));
    SplitFields("argon2id", version, PrintCosts(p), Encode(Base64, salt), Encode(Base64, key));
  }

  lemma NoDollarInCosts(p: Parameters)
    ensures '$' !in PrintCosts(p)
  {
    NoDollarInDecimal(p.memory);
    NoDollarInDecimal(p.iterations);
    NoDollarInDecimal(p.parallelism);
  }

  lemma SplitFields(a: string, b: string, c: string, d: string, e: string)
    requires '$' !in a && '$' !in b && '$' !in c && '$' !in d && '$' !in e
    ensures Split(Field("", Field(a, Field(b, Field(c, Field(d, e)))))) == ["", a, b, c, d, e]
  {
    SplitLast(e);
    SplitField(d, e);
    SplitField(c, Field(d, e));
    SplitField(b, Field(c, Field(d, e)));
    SplitField(a, Field(b, Field(c, Field(d, e))));
    SplitField("", Field(a, Field(b, Field(c, Field(d, e)))));
  }

  /** Parsing undoes printing, for every accepted parameter set and all salts and keys of
      the lengths it states. */
  lemma ParsePrint(p: Parameters, salt: Bytes, key: Bytes)
    requires Safe(p) && |salt| == p.saltLength && |key| == p.keyLength
    ensures ParseHash(PrintHash(p, salt, key)) == Ok(Parsed(p, salt, key))
  {
    VersionRoundTrip();
    NoDollarInDecimal(ARGON2_VERSION);
    ParseWithVersion("v=" + Decimal(ARGON2_VERSION), p, salt, key);
  }

  lemma ParseWithVersion(version: string, p: Parameters, salt: Bytes, key: Bytes)
    requires |salt| == p.saltLength && |key| == p.keyLength
    requires '$' !in version && ScanVersion(version) == Some(ARGON2_VERSION)
    ensures ParseHash(PrintFields(version, p, salt, key)) == if Safe(p) then Ok(Parsed(p, salt, key)) else Err(Unsafe)
  {
    FieldsRoundTrip(version, p, salt, key);
    AssembleParts(p, salt, key);
    HashSplits(version, p, salt, key);
    SplitParses(PrintFields(version, p, salt, key), version, PrintCosts(p), Encode(Base64, salt), Encode(Base64, key));
  }

  lemma SplitParses(encoded: string, version: string, costs: string, salt: string, key: string)
    requires Split(encoded) == ["", "argon2id", version, costs, salt, key]
    ensures ParseHash(encoded) == ParseFields(version, costs, salt, key)
  {
  }

  lemma FieldsRoundTrip(version: string, p: Parameters, salt: Bytes, key: Bytes)
    requires ScanVersion(version) == Some(ARGON2_VERSION)
    ensures ParseFields(version, PrintCosts(p), Encode(Base64, salt), Encode(Base64, key)) ==
      Assemble(Some(ARGON2_VERSION), Some(Costs(p.memory, p.iterations, p.parallelism)), Some(salt), Some(key))
  {
    CostsRoundTrip(p);
    DecodeEncode(Base64, salt);
    DecodeEncode(Base64, key);
  }

  lemma AssembleParts(p: Parameters, salt: Bytes, key: Bytes)
    requires |salt| == p.saltLength && |key| == p.keyLength
    ensures Assemble(Some(ARGON2_VERSION), Some(Costs(p.memory, p.iterations, p.parallelism)), Some(salt), Some(key)) ==
      if Safe(p) then Ok(Parsed(p, salt, key)) else Err(Unsafe)
  {
    Fits32(|salt|);
    Fits32(|key|);
  }

  lemma Fits32(n: nat)
    ensures n <= MAX_UINT32 ==> Truncated(n) == n
  {
  }

  /** A printed hash is read back exactly when its costs and lengths are safe ones: eight
      mebibytes, one pass, one lane, sixteen bytes of salt and of key at least. */
  lemma PrintedAcceptedExactly(p: Parameters, salt: Bytes, key: Bytes)
    requires |salt| == p.saltLength && |key| == p.keyLength
    ensures ParseHash(PrintHash(p, salt, key)).Ok? <==>
      p.memory >= 8192 && p.iterations >= 1 && p.parallelism >= 1 && |salt| >= 16 && |key| >= 16
  {
    VersionRoundTrip();
    NoDollarInDecimal(ARGON2_VERSION);
    ParseWithVersion("v=" + Decimal(ARGON2_VERSION), p, salt, key);
  }

  /** Printing does not undo parsing: a text the printer never writes, here one with a plus
      sign before the version, is read like the one it does write. */
  lemma ParserIsLenient(p: Parameters, salt: Bytes, key: Bytes)
    requires Safe(p) && |salt| == p.saltLength && |key| == p.keyLength
    ensures var encoded := PrintFields("v=+" + Decimal(ARGON2_VERSION), p, salt, key);
      ParseHash(encoded) == Ok(Parsed(p, salt, key)) && encoded != PrintHash(p, salt, key)
  {
    NoDollarInDecimal(ARGON2_VERSION);
    SignedVersion();
    ParseWithVersion("v=+" + Decimal(ARGON2_VERSION), p, salt, key);
    VersionsDiffer("v=+" + Decimal(ARGON2_VERSION), "v=" + Decimal(ARGON2_VERSION), p, salt, key);
  }

  lemma VersionsDiffer(a: string, b: string, p: Parameters, salt: Bytes, key: Bytes)
    requires |a| != |b|
    ensures PrintFields(a, p, salt, key) != PrintFields(b, p, salt, key)
  {
    var rest := Field(PrintCosts(p), Field(Encode(Base64, salt), Encode(Base64, key)));
    assert |PrintFields(a, p, salt, key)| == 10 + |a| + 1 + |rest|;
    assert |PrintFields(b, p, salt, key)| == 10 + |b| + 1 + |rest|;
  }

  lemma SignedVersion()
    ensures ScanVersion("v=+" + Decimal(ARGON2_VERSION)) == Some(ARGON2_VERSION)
  {
    var s := "v=+" + Decimal(ARGON2_VERSION);
    assert s[2..] == "+" + Decimal(ARGON2_VERSION) && s[2..][1..] == Decimal(ARGON2_VERSION) + "";
    RunOf(Decimal(ARGON2_VERSION), "");
    ValueOfDecimal(ARGON2_VERSION);
    assert (Decimal(ARGON2_VERSION) + "")[..|Decimal(ARGON2_VERSION)|] == Decimal(ARGON2_VERSION);
  }

  /** But what it accepts it reads as the printer would write it. */
  lemma ParseIsCanonical(encoded: string, r: Parsed)
    requires ParseHash(encoded) == Ok(r) && |r.salt| <= MAX_UINT32 && |r.key| <= MAX_UINT32
    ensures ParseHash(PrintHash(r.parameters, r.salt, r.key)) == Ok(r)
  {
    ParsedLengths(encoded);
    Fits32(|r.salt|);
    Fits32(|r.key|);
    ParsePrint(r.parameters, r.salt, r.key);
  }

  lemma ParsedLengths(encoded: string)
    requires ParseHash(encoded).Ok?
    ensures var r := ParseHash(encoded).value;
      && Safe(r.parameters)
      && r.parameters.saltLength == Truncated(|r.salt|) && r.parameters.keyLength == Truncated(|r.key|)
  {
  }

  // Exactly when printing undoes parsing.

  function Join(parts: seq<string>): string
    requires |parts| > 0
  {
    if |parts| == 1 then parts[0] else Field(parts[0], Join(parts[1..]))
  }

  lemma {:induction false} JoinSplit(s: string)
    ensures Join(Split(s)) == s
  {
    if s != "" {
      JoinSplit(s[1..]);
      var rest := Split(s[1..]);
      if s[0] == '$' {
        assert Split(s)[1..] == rest;
        assert s == "$" + s[1..];
      } else {
        assert Split(s)[1..] == rest[1..];
        assert s == [s[0]] + s[1..];
        if |rest| > 1 { assert [s[0]] + Field(rest[0], Join(rest[1..])) == Field([s[0]] + rest[0], Join(rest[1..])); }
      }
    }
  }

  /** The text starts with the name and, right behind it, a numeral. */
  predicate PlainNamed(s: string, name: string) {
    name <= s && Numeral(s[|name|..][..DigitRun(s[|name|..])])
  }

  function AfterNamed(s: string, name: string): string
    requires name <= s
  {
    s[|name|..][DigitRun(s[|name|..])..]
  }

  /** The three costs with no blanks, no zeros in front and nothing behind. */
  predicate PlainCosts(s: string) {
    && PlainNamed(s, "m=")
    && PlainNamed(AfterNamed(s, "m="), ",t=")
    && PlainNamed(AfterNamed(AfterNamed(s, "m="), ",t="), ",p=")
    && AfterNamed(AfterNamed(AfterNamed(s, "m="), ",t="), ",p=") == ""
  }

  /** A text without the liberties the parser allows: nothing before the first dollar sign,
      the version as printed, plain costs, no line breaks in salt and key. */
  predicate Plain(encoded: string) {
    PlainParts(Split(encoded))
  }

  predicate PlainParts(parts: seq<string>) {
    && |parts| == 6
    && parts[0] == ""
    && parts[2] == "v=19"
    && PlainCosts(parts[3])
    && NoBreaks(parts[4]) && NoBreaks(parts[5])
  }

  lemma ScanPlain(s: string, name: string, max: nat)
    requires PlainNamed(s, name) && ScanNamed(s, name, max).Some?
    ensures var n := ScanNamed(s, name, max).value;
      n.value >= 0 && n.rest == AfterNamed(s, name) && s == name + (Decimal(n.value) + n.rest)
  {
    var t := s[|name|..];
    var k := DigitRun(t);
    assert t[..k][0] == t[0];
    DecimalOfValue(t[..k]);
    assert t == t[..k] + t[k..];
    assert s == name + t;
  }

  lemma CostsPlain(s: string, p: Parameters)
    requires PlainCosts(s) && ScanCosts(s) == Some(Costs(p.memory, p.iterations, p.parallelism))
    ensures PrintCosts(p) == s
  {
    ScanPlain(s, "m=", MAX_UINT32);
    ScanPlain(AfterNamed(s, "m="), ",t=", MAX_UINT32);
    ScanPlain(AfterNamed(AfterNamed(s, "m="), ",t="), ",p=", MAX_UINT8);
    assert Decimal(p.parallelism) + "" == Decimal(p.parallelism);
  }

  lemma NamedPlain(name: string, n: nat, rest: string)
    requires rest != "" ==> !IsDigit(rest[0])
    ensures var s := name + (Decimal(n) + rest); PlainNamed(s, name) && AfterNamed(s, name) == rest
  {
    var s := name + (Decimal(n) + rest);
    assert s[|name|..] == Decimal(n) + rest;
    RunOf(Decimal(n), rest);
    DecimalIsNumeral(n);
    assert (Decimal(n) + rest)[..|Decimal(n)|] == Decimal(n);
  }

  lemma PrintedCostsPlain(p: Parameters)
    ensures PlainCosts(PrintCosts(p))
  {
    var ps := ",p=" + Decimal(p.parallelism);
    var ts := ",t=" + (Decimal(p.iterations) + ps);
    assert Decimal(p.parallelism) + "" == Decimal(p.parallelism);
    NamedPlain("m=", p.memory, ts);
    NamedPlain(",t=", p.iterations, ps);
    NamedPlain(",p=", p.parallelism, "");
  }

  lemma PrintedVersion()
    ensures "v=" + Decimal(ARGON2_VERSION) == "v=19" && '$' !in "v=19"
  {
    assert Decimal(19) == Decimal(1) + ['9'];
  }

  lemma PrintedPlain(p: Parameters, salt: Bytes, key: Bytes)
    ensures Plain(PrintHash(p, salt, key))
  {
    PrintedVersion();
    HashSplits("v=19", p, salt, key);
    PrintedCostsPlain(p);
    PrintUnbroken(Base64, EncodeDigits(Base64, salt));
    PrintUnbroken(Base64, EncodeDigits(Base64, key));
    PartsPlain("v=19", PrintCosts(p), Encode(Base64, salt), Encode(Base64, key));
  }

  lemma PartsPlain(version: string, costs: string, salt: string, key: string)
    requires version == "v=19" && PlainCosts(costs) && NoBreaks(salt) && NoBreaks(key)
    ensures PlainParts(["", "argon2id", version, costs, salt, key])
  {
  }

  /** The fields of a plain text are the ones printed for what they parse to. */
  lemma FieldsPrint(version: string, costs: string, salt: string, key: string, r: Parsed)
    requires ParseFields(version, costs, salt, key) == Ok(r)
    requires PlainCosts(costs) && NoBreaks(salt) && NoBreaks(key)
    ensures PrintCosts(r.parameters) == costs
    ensures Encode(Base64, r.salt) == salt && Encode(Base64, r.key) == key
  {
    AssembledFrom(ScanVersion(version), ScanCosts(costs), Decode(Base64, salt), Decode(Base64, key), r);
    CostsPlain(costs, r.parameters);
    EncodeDecode(salt);
    EncodeDecode(key);
    UnbrokenWhole(salt);
    UnbrokenWhole(key);
  }

  lemma AssembledFrom(version: Option<int>, costs: Option<Costs>, salt: Option<Bytes>, key: Option<Bytes>, r: Parsed)
    requires Assemble(version, costs, salt, key) == Ok(r)
    ensures costs == Some(Costs(r.parameters.memory, r.parameters.iterations, r.parameters.parallelism))
    ensures salt == Some(r.salt) && key == Some(r.key)
  {
  }

  lemma PlainPrints(encoded: string, parts: seq<string>, r: Parsed)
    requires parts == Split(encoded) && |parts| == 6 && parts[1] == "argon2id" && PlainParts(parts)
    requires ParseFields(parts[2], parts[3], parts[4], parts[5]) == Ok(r)
    ensures PrintHash(r.parameters, r.salt, r.key) == encoded
  {
    JoinSplit(encoded);
    SixParts(parts);
    PrintedVersion();
    FieldsPrint(parts[2], parts[3], parts[4], parts[5], r);
  }

  lemma SixParts(parts: seq<string>)
    requires |parts| == 6
    ensures Join(parts) == Field(parts[0], Field(parts[1], Field(parts[2], Field(parts[3], Field(parts[4], parts[5])))))
  {
    var b, c, d, e := parts[1..], parts[2..], parts[3..], parts[4..];
    assert b[1..] == c && c[1..] == d && d[1..] == e && e[1..] == [parts[5]];
    assert Join(e) == Field(parts[4], parts[5]);
    assert Join(d) == Field(parts[3], Join(e));
    assert Join(c) == Field(parts[2], Join(d));
    assert Join(b) == Field(parts[1], Join(c));
  }

  /** Of the texts the parser accepts, printing gives back exactly the plain ones. */
  lemma PrintUndoesParseExactly(encoded: string, r: Parsed)
    requires ParseHash(encoded) == Ok(r)
    ensures PrintHash(r.parameters, r.salt, r.key) == encoded <==> Plain(encoded)
  {
    PrintedPlain(r.parameters, r.salt, r.key);
    if Plain(encoded) { PlainPrints(encoded, Split(encoded), r); }
  }

  // Hashing and verifying, over Argon2id as an unknown function of its inputs.

  /** The password, the salt, iterations, memory, parallelism and the length asked for. */
  type IdKey = (Bytes, Bytes, nat, nat, nat, nat) -> Bytes

  ghost predicate KeepsLength(idKey: IdKey) {
    forall password, salt, t, m, p, length :: |idKey(password, salt, t, m, p, length)| == length
  }

  function HashPassword(idKey: IdKey, h: Parameters, password: Bytes, salt: Bytes): Result<string> {
    if |password| < 12 || |password| > 1024 then Err(BadLength)
    else Ok(PrintHash(h, salt, idKey(password, salt, h.iterations, h.memory, h.parallelism, h.keyLength)))
  }

  /** Passwords of 12 to 1024 bytes are hashed, and no others. */
  lemma HashedExactly(idKey: IdKey, h: Parameters, password: Bytes, salt: Bytes)
    ensures HashPassword(idKey, h, password, salt).Ok? <==> 12 <= |password| <= 1024
  {
  }

  lemma FieldsJoined(version: string, costs: string, salt: string, key: string)
    ensures Field("", Field("argon2id", Field(version, Field(costs, Field(salt, key))))) ==
      "$argon2id$" + version + "$" + costs + "$" + salt + "$" + key
  {
  }

  /** What a hash by the default hasher looks like. */
  lemma DefaultHash(salt: Bytes, key: Bytes)
    ensures PrintHash(Parameters(65536, 3, 2, 16, 32), salt, key) ==
      "$argon2id$" + "v=19" + "$" + "m=65536,t=3,p=2" + "$" + Encode(Base64, salt) + "$" + Encode(Base64, key)
  {
    PrintedVersion();
    DefaultCosts();
    FieldsJoined("v=19", "m=65536,t=3,p=2", Encode(Base64, salt), Encode(Base64, key));
  }

  lemma DefaultCosts()
    ensures PrintCosts(Parameters(65536, 3, 2, 16, 32)) == "m=65536,t=3,p=2"
  {
    DefaultMemory();
  }

  lemma DefaultMemory()
    ensures Decimal(65536) == "65536"
  {
    assert Decimal(65) == "65";
    assert Decimal(655) == "65" + "5";
    assert Decimal(6553) == "655" + "3";
    assert Decimal(65536) == "6553" + "6";
  }

  datatype Verdict = Verdict(valid: bool, needsRehash: bool)

  function VerifyPassword(idKey: IdKey, h: Parameters, password: Bytes, encoded: string): Result<Verdict> {
    match ParseHash(encoded)
    case Err(reason) => Err(reason)
    case Ok(r) =>
      var actual := idKey(password, r.salt, r.parameters.iterations, r.parameters.memory, r.parameters.parallelism,
                          Truncated(|r.key|));
      Ok(Verdict(actual == r.key, actual == r.key && r.parameters != h))
  }

  lemma VerifiesParsed(idKey: IdKey, h: Parameters, password: Bytes, encoded: string, r: Parsed)
    requires ParseHash(encoded) == Ok(r) && |r.key| == r.parameters.keyLength
    ensures var p := r.parameters;
      var valid := idKey(password, r.salt, p.iterations, p.memory, p.parallelism, p.keyLength) == r.key;
      VerifyPassword(idKey, h, password, encoded) == Ok(Verdict(valid, valid && p != h))
  {
  }

  /** A hash made by any accepted hasher, verified by any hasher: another password passes
      only when Argon2id maps both to the same key, and a rehash is asked for exactly when
      the password passes and the parameters differ. */
  lemma VerifyHash(
      idKey: IdKey, made: Parameters, h: Parameters, password: Bytes, other: Bytes, salt: Bytes, hash: string)
    requires KeepsLength(idKey) && Safe(made) && |salt| == made.saltLength
    requires HashPassword(idKey, made, password, salt) == Ok(hash)
    ensures var same := idKey(other, salt, made.iterations, made.memory, made.parallelism, made.keyLength)
                        == idKey(password, salt, made.iterations, made.memory, made.parallelism, made.keyLength);
      VerifyPassword(idKey, h, other, hash) == Ok(Verdict(same, same && made != h))
  {
    var key := idKey(password, salt, made.iterations, made.memory, made.parallelism, made.keyLength);
    ParsePrint(made, salt, key);
    VerifiesParsed(idKey, h, other, hash, Parsed(made, salt, key));
  }

  /** In particular the password a hash was made from passes, and the hasher that made it
      asks for no rehash. */
  lemma HashVerifies(idKey: IdKey, h: Parameters, password: Bytes, salt: Bytes, hash: string)
    requires KeepsLength(idKey) && Safe(h) && |salt| == h.saltLength
    requires HashPassword(idKey, h, password, salt) == Ok(hash)
    ensures VerifyPassword(idKey, h, password, hash) == Ok(Verdict(true, false))
  {
    VerifyHash(idKey, h, h, password, password, salt, hash);
  }
}
