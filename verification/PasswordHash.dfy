/**
 Password hashes in PHC form: how they are printed, how they are parsed, and that verifying inverts hashing. The key
 derivation is any function; base64 is the unpadded standard alphabet of section 4 of RFC 4648.
 */
module PasswordHash {
  import opened Basics

  // ---------- decimal numbers ----------

  predicate IsDigit(c: char) {
    '0' <= c <= '9'
  }

  function Digit(n: nat): (c: char)
    requires n < 10
    ensures IsDigit(c)
  {
    '0' + n as char
  }

  /** The `%d` verb, printing. */
  function Show(n: nat): string {
    if n < 10 then [Digit(n)] else Show(n / 10) + [Digit(n % 10)]
  }

  predicate AllDigits(s: string) {
    forall i :: 0 <= i < |s| ==> IsDigit(s[i])
  }

  function Value(s: string): nat
    requires AllDigits(s)
  {
    if s == [] then 0 else Value(s[..|s| - 1]) * 10 + (s[|s| - 1] as int - '0' as int)
  }

  lemma {:induction false} ValueOfShow(n: nat)
    ensures Show(n) != [] && AllDigits(Show(n)) && Value(Show(n)) == n
  {
    if n < 10 {
      assert Value([]) == 0;
      assert [Digit(n)][..0] == [];
    } else {
      ValueOfShow(n / 10);
      assert Show(n)[..|Show(n)| - 1] == Show(n / 10);
    }
  }

  // ---------- scanning ----------

  /** What Go's scanner skips before a number, the line feed apart. */
  predicate IsSpace(c: char) {
    || '\t' <= c <= '\r' || c == ' '
    || c in {'\U{0085}', '\U{00A0}', '\U{1680}', '\U{2028}', '\U{2029}', '\U{202F}', '\U{205F}', '\U{3000}'}
    || '\U{2000}' <= c <= '\U{200A}'
  }

  /** A line feed where a number is due is an error, with or without a carriage return. */
  function SkipSpace(s: string): Option<string> {
    if s == [] then Some([])
    else if s[0] == '\n' then None
    else if IsSpace(s[0]) then SkipSpace(s[1..])
    else Some(s)
  }

  /** The digits `s` starts with, and the rest. */
  function SpanDigits(s: string): (r: (string, string))
    ensures AllDigits(r.0)
  {
    if s == [] || !IsDigit(s[0]) then ([], s) else
    var (digits, rest) := SpanDigits(s[1..]);
    ([s[0]] + digits, rest)
  }

  /** `%d` into an unsigned integer up to `max`. */
  function ScanUint(s: string, max: nat): Option<(nat, string)> {
    match SkipSpace(s)
    case None => None
    case Some(t) =>
      var (digits, rest) := SpanDigits(t);
      if digits == [] || Value(digits) > max then None else Some((Value(digits), rest))
  }

  const INT64_MAX := 0x7FFF_FFFF_FFFF_FFFF

  /** `%d` into an int: a sign may come first. */
  function ScanInt(s: string): Option<(int, string)> {
    match SkipSpace(s)
    case None => None
    case Some(t) =>
      var negative := t != [] && t[0] == '-';
      var (digits, rest) := SpanDigits(if negative || (t != [] && t[0] == '+') then t[1..] else t);
      if digits == [] || Value(digits) > INT64_MAX + (if negative then 1 else 0) then None
      else
        var v: int := if negative then 0 - Value(digits) else Value(digits);
        Some((v, rest))
  }

  function ScanLiteral(s: string, literal: string): Option<string> {
    if literal <= s then Some(s[|literal|..]) else None
  }

  /** The string goes on, but not with a digit. */
  predicate DigitsEnd(rest: string) {
    rest == [] || !IsDigit(rest[0])
  }

  lemma {:induction false} SpanShown(digits: string, rest: string)
    requires AllDigits(digits) && DigitsEnd(rest)
    ensures SpanDigits(digits + rest) == (digits, rest)
  {
    if digits == [] {
      assert digits + rest == rest;
    } else {
      SpanShown(digits[1..], rest);
      assert (digits + rest)[1..] == digits[1..] + rest;
      assert digits == [digits[0]] + digits[1..];
    }
  }

  lemma DigitsFirst(n: nat, rest: string)
    requires DigitsEnd(rest)
    ensures SkipSpace(Show(n) + rest) == Some(Show(n) + rest) && IsDigit((Show(n) + rest)[0])
    ensures SpanDigits(Show(n) + rest) == (Show(n), rest) && Value(Show(n)) == n
  {
    ValueOfShow(n);
    SpanShown(Show(n), rest);
    assert IsDigit(Show(n)[0]);
  }

  lemma ScanShown(n: nat, max: nat, rest: string)
    requires n <= max && DigitsEnd(rest)
    ensures ScanUint(Show(n) + rest, max) == Some((n, rest))
    ensures n <= INT64_MAX ==> ScanInt(Show(n) + rest) == Some((n, rest))
  {
    ValueOfShow(n);
    DigitsFirst(n, rest);
  }

  // ---------- base64 ----------

  predicate NoDollar(s: string) {
    '$' !in s
  }

  function EncodeSextet(n: nat): char
    requires n < 64
  {
    if n < 26 then 'A' + n as char
    else if n < 52 then 'a' + (n - 26) as char
    else if n < 62 then '0' + (n - 52) as char
    else if n == 62 then '+' else '/'
  }

  function DecodeSextet(c: char): (n: Option<nat>)
    ensures n.Some? ==> n.value < 64
  {
    if 'A' <= c <= 'Z' then Some(c as int - 'A' as int)
    else if 'a' <= c <= 'z' then Some(c as int - 'a' as int + 26)
    else if '0' <= c <= '9' then Some(c as int - '0' as int + 52)
    else if c == '+' then Some(62) else if c == '/' then Some(63) else None
  }

  /** The alphabet has 64 distinct characters, none a separator or a line break. */
  lemma SextetRoundTrip(n: nat)
    requires n < 64
    ensures DecodeSextet(EncodeSextet(n)) == Some(n)
    ensures EncodeSextet(n) !in {'$', '\r', '\n'}
  {
  }

  /** The six-bit groups of `b`, most significant first, the last one filled up with zero bits. */
  function Groups(b: bytes): (v: seq<nat>)
    ensures forall i :: 0 <= i < |v| ==> v[i] < 64
  {
    if |b| == 0 then []
    else if |b| == 1 then [b[0] / 4, b[0] % 4 * 16]
    else if |b| == 2 then [b[0] / 4, b[0] % 4 * 16 + b[1] / 16, b[1] % 16 * 4]
    else [b[0] / 4, b[0] % 4 * 16 + b[1] / 16, b[1] % 16 * 4 + b[2] / 64, b[2] % 64] + Groups(b[3..])
  }

  function EncodeSextets(v: seq<nat>): string
    requires forall i :: 0 <= i < |v| ==> v[i] < 64
  {
    if v == [] then [] else [EncodeSextet(v[0])] + EncodeSextets(v[1..])
  }

  function EncodeBase64(b: bytes): string {
    EncodeSextets(Groups(b))
  }

  /** Left-over bits of the last character are ignored; a single left-over character is an error. */
  function DecodeSextets(v: seq<nat>): Option<bytes>
    requires forall i :: 0 <= i < |v| ==> v[i] < 64
  {
    if |v| == 0 then Some([])
    else if |v| == 1 then None
    else if |v| == 2 then Some([v[0] * 4 + v[1] / 16])
    else if |v| == 3 then Some([v[0] * 4 + v[1] / 16, v[1] % 16 * 16 + v[2] / 4])
    else match DecodeSextets(v[4..])
      case None => None
      case Some(rest) => Some([v[0] * 4 + v[1] / 16, v[1] % 16 * 16 + v[2] / 4, v[2] % 4 * 64 + v[3]] + rest)
  }

  /** The characters' values, line breaks skipped, or None if one is outside the alphabet. */
  function Sextets(s: string): (v: Option<seq<nat>>)
    ensures v.Some? ==> forall i :: 0 <= i < |v.value| ==> v.value[i] < 64
  {
    if s == [] then Some([])
    else if s[0] == '\r' || s[0] == '\n' then Sextets(s[1..])
    else match DecodeSextet(s[0])
      case None => None
      case Some(n) =>
        match Sextets(s[1..])
        case None => None
        case Some(rest) => Some([n] + rest)
  }

  function DecodeBase64(s: string): Option<bytes> {
    match Sextets(s)
    case None => None
    case Some(v) => DecodeSextets(v)
  }

  lemma {:induction false} SextetsRoundTrip(v: seq<nat>)
    requires forall i :: 0 <= i < |v| ==> v[i] < 64
    ensures Sextets(EncodeSextets(v)) == Some(v) && NoDollar(EncodeSextets(v))
  {
    if v != [] {
      SextetsRoundTrip(v[1..]);
      SextetRoundTrip(v[0]);
      assert EncodeSextets(v)[1..] == EncodeSextets(v[1..]);
      assert v == [v[0]] + v[1..];
    }
  }

  lemma ThreeBytes(x: byte, y: byte, z: byte)
    ensures x / 4 * 4 + (x % 4 * 16 + y / 16) / 16 == x
    ensures (x % 4 * 16 + y / 16) % 16 * 16 + (y % 16 * 4 + z / 64) / 4 == y
    ensures (y % 16 * 4 + z / 64) % 4 * 64 + z % 64 == z
  {
  }

  lemma {:induction false} GroupsRoundTrip(b: bytes)
    ensures DecodeSextets(Groups(b)) == Some(b)
  {
    if |b| == 1 {
      ThreeBytes(b[0], 0, 0);
      assert b == [b[0]];
    } else if |b| == 2 {
      ThreeBytes(b[0], b[1], 0);
      assert b == [b[0], b[1]];
    } else if |b| >= 3 {
      ThreeBytes(b[0], b[1], b[2]);
      GroupsRoundTrip(b[3..]);
      assert Groups(b)[4..] == Groups(b[3..]);
      assert b == [b[0], b[1], b[2]] + b[3..];
    }
  }

  lemma Base64RoundTrip(b: bytes)
    ensures DecodeBase64(EncodeBase64(b)) == Some(b) && NoDollar(EncodeBase64(b))
  {
    SextetsRoundTrip(Groups(b));
    GroupsRoundTrip(b);
  }

  // ---------- the hash string ----------

  datatype Params = Params(memory: u32, iterations: u32, parallelism: u8, saltLength: u32, keyLength: u32)

  /** `Panic` is what the key derivation does on parameters it cannot use. */
  datatype HashError = EmptyPassword | InvalidHash | IncompatibleVersion | Panic

  datatype Decoded = Decoded(params: Params, salt: bytes, key: bytes)

  const ARGON2_VERSION := 19

  /** `strings.Split(s, "$")` */
  function Split(s: string): (parts: seq<string>)
    ensures |parts| >= 1
  {
    if s == [] then [[]] else
    var rest := Split(s[1..]);
    if s[0] == '$' then [[]] + rest else [[s[0]] + rest[0]] + rest[1..]
  }

  function VersionField(): string {
    "v=" + Show(ARGON2_VERSION)
  }

  function ParamsField(p: Params): string {
    "m=" + (Show(p.memory) + (",t=" + (Show(p.iterations) + (",p=" + Show(p.parallelism)))))
  }

  const NAME := "argon2id"

  /** The parts with a dollar sign between each two. */
  function Join(parts: seq<string>): string
    requires |parts| >= 1
  {
    if |parts| == 1 then parts[0] else parts[0] + ("$" + Join(parts[1..]))
  }

  /** The format "$argon2id$v=%d$m=%d,t=%d,p=%d$%s$%s". */
  function Encode(p: Params, salt: bytes, key: bytes): string {
    Join(["", NAME, VersionField(), ParamsField(p), EncodeBase64(salt), EncodeBase64(key)])
  }

  /** `Sscanf(s, "v=%d", ...)`; input after the number is ignored. */
  function ScanVersion(s: string): Option<int> {
    match ScanLiteral(s, "v=")
    case None => None
    case Some(t) => match ScanInt(t) case None => None case Some((v, _)) => Some(v)
  }

  function ScanField(s: string, literal: string, max: nat): Option<(nat, string)> {
    match ScanLiteral(s, literal)
    case None => None
    case Some(t) => ScanUint(t, max)
  }

  /** `Sscanf(s, "m=%d,t=%d,p=%d", ...)` into two 32-bit and one 8-bit unsigned integer. */
  function ScanParams(s: string): (r: Option<(nat, nat, nat)>)
    ensures r.Some? ==> r.value.0 <= U32_MAX && r.value.1 <= U32_MAX && r.value.2 <= 0xFF
  {
    match ScanField(s, "m=", U32_MAX)
    case None => None
    case Some((m, s1)) =>
      match ScanField(s1, ",t=", U32_MAX)
      case None => None
      case Some((t, s2)) =>
        match ScanField(s2, ",p=", 0xFF)
        case None => None
        case Some((p, _)) => Some((m, t, p))
  }

  function DecodeParts(version: string, params: string, salt64: string, key64: string): Result<Decoded, HashError> {
    if ScanVersion(version).None? then Err(InvalidHash)
    else if ScanVersion(version).value != ARGON2_VERSION then Err(IncompatibleVersion)
    else
      var scanned, salt, key := ScanParams(params), DecodeBase64(salt64), DecodeBase64(key64);
      if scanned.None? || salt.None? || key.None? then Err(InvalidHash)
      else
        var (m, t, p) := scanned.value;
        Ok(Decoded(Params(m, t, p, |salt.value| % 0x1_0000_0000, |key.value| % 0x1_0000_0000), salt.value, key.value))
  }

  function DecodeHash(encoded: string): Result<Decoded, HashError> {
    var parts := Split(encoded);
    if |parts| != 6 || parts[1] != NAME then Err(InvalidHash)
    else DecodeParts(parts[2], parts[3], parts[4], parts[5])
  }

  /** Argon2id: password, salt, iterations, memory, parallelism, key length. None when it panics. */
  type Kdf = (bytes, bytes, u32, u32, u8, u32) -> Option<bytes>

  /** Keys have the length asked for. */
  ghost predicate Sized(kdf: Kdf) {
    forall pw, salt, t, m, p, len :: kdf(pw, salt, t, m, p, len).Some? ==> |kdf(pw, salt, t, m, p, len).value| == len
  }

  /** `salt` is what the random source filled `p.saltLength` bytes with. */
  function HashPassword(kdf: Kdf, password: bytes, p: Params, salt: bytes): Result<string, HashError>
    requires |salt| == p.saltLength
  {
    if password == [] then Err(EmptyPassword) else
    match kdf(password, salt, p.iterations, p.memory, p.parallelism, p.keyLength)
    case None => Err(Panic)
    case Some(key) => Ok(Encode(p, salt, key))
  }

  function VerifyPassword(kdf: Kdf, password: bytes, encoded: string): Result<bool, HashError> {
    match DecodeHash(encoded)
    case Err(e) => Err(e)
    case Ok(Decoded(p, salt, key)) =>
      match kdf(password, salt, p.iterations, p.memory, p.parallelism, p.keyLength)
      case None => Err(Panic)
      case Some(other) => Ok(|key| == |other| && key == other)
  }

  // ---------- splitting what was printed ----------

  lemma {:induction false} SplitField(field: string, rest: string)
    requires NoDollar(field)
    ensures Split(field) == [field]
    ensures Split(field + ("$" + rest)) == [field] + Split(rest)
  {
    if field == [] {
      assert field + ("$" + rest) == "$" + rest;
      assert ("$" + rest)[1..] == rest;
    } else {
      SplitField(field[1..], rest);
      assert (field + ("$" + rest))[1..] == field[1..] + ("$" + rest);
      assert field[0] != '$' && field == [field[0]] + field[1..];
    }
  }

  lemma DigitsNoDollar(s: string)
    requires AllDigits(s)
    ensures NoDollar(s)
  {
  }

  lemma ParamsNoDollar(p: Params)
    ensures NoDollar(VersionField()) && NoDollar(ParamsField(p))
  {
    ValueOfShow(ARGON2_VERSION);
    ValueOfShow(p.memory);
    ValueOfShow(p.iterations);
    ValueOfShow(p.parallelism);
    DigitsNoDollar(Show(ARGON2_VERSION));
    DigitsNoDollar(Show(p.memory));
    DigitsNoDollar(Show(p.iterations));
    DigitsNoDollar(Show(p.parallelism));
  }

  lemma {:induction false} SplitInvertsJoin(parts: seq<string>)
    requires |parts| >= 1 && forall i :: 0 <= i < |parts| ==> NoDollar(parts[i])
    ensures Split(Join(parts)) == parts
  {
    if |parts| == 1 {
      SplitField(parts[0], []);
    } else {
      SplitInvertsJoin(parts[1..]);
      SplitField(parts[0], Join(parts[1..]));
    }
  }

  lemma SplitEncoded(p: Params, salt: bytes, key: bytes)
    ensures Split(Encode(p, salt, key)) == ["", NAME, VersionField(), ParamsField(p), EncodeBase64(salt), EncodeBase64(key)]
  {
    ParamsNoDollar(p);
    Base64RoundTrip(salt);
    Base64RoundTrip(key);
    SplitInvertsJoin(["", NAME, VersionField(), ParamsField(p), EncodeBase64(salt), EncodeBase64(key)]);
  }

  // ---------- scanning what was printed ----------

  lemma ScanFieldShown(literal: string, n: nat, max: nat, rest: string)
    requires n <= max && DigitsEnd(rest)
    ensures ScanField(literal + (Show(n) + rest), literal, max) == Some((n, rest))
  {
    assert (literal + (Show(n) + rest))[|literal|..] == Show(n) + rest;
    ScanShown(n, max, rest);
  }

  lemma ScanParamsShown(p: Params)
    ensures ScanParams(ParamsField(p)) == Some((p.memory, p.iterations, p.parallelism))
  {
    var afterT := ",p=" + Show(p.parallelism);
    var afterM := ",t=" + (Show(p.iterations) + afterT);
    ScanFieldShown("m=", p.memory, U32_MAX, afterM);
    ScanFieldShown(",t=", p.iterations, U32_MAX, afterT);
    ScanFieldShown(",p=", p.parallelism, 0xFF, []);
    assert Show(p.parallelism) + [] == Show(p.parallelism);
  }

  lemma ScanVersionShown(v: nat)
    requires v <= INT64_MAX
    ensures ScanVersion("v=" + Show(v)) == Some(v)
  {
    ScanShown(v, v, []);
    assert Show(v) + [] == Show(v);
    assert ("v=" + Show(v))[2..] == Show(v);
  }

  lemma DecodePartsShown(p: Params, salt: bytes, key: bytes, version: string, params: string, salt64: string, key64: string)
    requires |salt| == p.saltLength && |key| == p.keyLength
    requires ScanVersion(version) == Some(ARGON2_VERSION) && ScanParams(params) == Some((p.memory, p.iterations, p.parallelism))
    requires DecodeBase64(salt64) == Some(salt) && DecodeBase64(key64) == Some(key)
    ensures DecodeParts(version, params, salt64, key64) == Ok(Decoded(p, salt, key))
  {
  }

  /** Parsing inverts printing, for all parameters, salts and keys whose lengths fit 32 bits. */
  lemma DecodeInvertsEncode(p: Params, salt: bytes, key: bytes)
    requires |salt| == p.saltLength && |key| == p.keyLength
    ensures DecodeHash(Encode(p, salt, key)) == Ok(Decoded(p, salt, key))
  {
    SplitEncoded(p, salt, key);
    ScanVersionShown(ARGON2_VERSION);
    ScanParamsShown(p);
    Base64RoundTrip(salt);
    Base64RoundTrip(key);
    DecodePartsShown(p, salt, key, VersionField(), ParamsField(p), EncodeBase64(salt), EncodeBase64(key));
    assert |Split(Encode(p, salt, key))| == 6;
  }

  /** A hash made from a password accepts exactly the passwords with the same derived key, that password among them. */
  lemma VerifyAcceptsIff(kdf: Kdf, password: bytes, p: Params, salt: bytes, attempt: bytes)
    requires Sized(kdf) && |salt| == p.saltLength && HashPassword(kdf, password, p, salt).Ok?
    ensures var hash := HashPassword(kdf, password, p, salt).value;
      && VerifyPassword(kdf, password, hash) == Ok(true)
      && (VerifyPassword(kdf, attempt, hash) == Ok(true) <==>
          kdf(attempt, salt, p.iterations, p.memory, p.parallelism, p.keyLength)
          == kdf(password, salt, p.iterations, p.memory, p.parallelism, p.keyLength))
      && VerifyPassword(kdf, attempt, hash) !in {Err(InvalidHash), Err(IncompatibleVersion), Err(EmptyPassword)}
  {
    DecodeInvertsEncode(p, salt, kdf(password, salt, p.iterations, p.memory, p.parallelism, p.keyLength).value);
  }

  /** A password gets a hash that accepts it exactly when it is not empty and the derivation takes the parameters. */
  lemma HashVerifiesIff(kdf: Kdf, password: bytes, p: Params, salt: bytes)
    requires Sized(kdf) && |salt| == p.saltLength
    ensures var made := HashPassword(kdf, password, p, salt);
      made.Ok? && VerifyPassword(kdf, password, made.value) == Ok(true) <==>
        password != [] && kdf(password, salt, p.iterations, p.memory, p.parallelism, p.keyLength).Some?
  {
    if HashPassword(kdf, password, p, salt).Ok? { VerifyAcceptsIff(kdf, password, p, salt, password); }
  }

  /** Distinct parameters, salts or keys are printed differently. */
  lemma EncodeInjective(p: Params, salt: bytes, key: bytes, p': Params, salt': bytes, key': bytes)
    requires |salt| == p.saltLength && |key| == p.keyLength && |salt'| == p'.saltLength && |key'| == p'.keyLength
    requires Encode(p, salt, key) == Encode(p', salt', key')
    ensures p == p' && salt == salt' && key == key'
  {
    DecodeInvertsEncode(p, salt, key);
    DecodeInvertsEncode(p', salt', key');
  }

  /**
   A printed hash under another name, with another version or with a part too many is refused for that reason; what stands
   before the first dollar sign is ignored.
   */
  lemma TamperedHash(before: string, name: string, v: nat, p: Params, salt: bytes, key: bytes, more: seq<string>)
    requires NoDollar(before) && NoDollar(name) && v <= INT64_MAX && |salt| == p.saltLength && |key| == p.keyLength
    requires forall i :: 0 <= i < |more| ==> NoDollar(more[i])
    ensures var parts := [before, name, "v=" + Show(v), ParamsField(p), EncodeBase64(salt), EncodeBase64(key)] + more;
      DecodeHash(Join(parts)) ==
        if more != [] || name != "argon2id" then Err(InvalidHash)
        else if v != 19 then Err(IncompatibleVersion)
        else Ok(Decoded(p, salt, key))
  {
    var parts := [before, name, "v=" + Show(v), ParamsField(p), EncodeBase64(salt), EncodeBase64(key)] + more;
    TamperedParts(before, name, v, p, salt, key, more);
    if more == [] && name == "argon2id" { DecodeOtherVersion(v, p, salt, key); }
    assert |more| > 0 ==> |parts| > 6;
  }

  lemma TamperedParts(before: string, name: string, v: nat, p: Params, salt: bytes, key: bytes, more: seq<string>)
    requires NoDollar(before) && NoDollar(name) && forall i :: 0 <= i < |more| ==> NoDollar(more[i])
    ensures var parts := [before, name, "v=" + Show(v), ParamsField(p), EncodeBase64(salt), EncodeBase64(key)] + more;
      Split(Join(parts)) == parts
  {
    ParamsNoDollar(p);
    ValueOfShow(v);
    DigitsNoDollar(Show(v));
    Base64RoundTrip(salt);
    Base64RoundTrip(key);
    SplitInvertsJoin([before, name, "v=" + Show(v), ParamsField(p), EncodeBase64(salt), EncodeBase64(key)] + more);
  }

  lemma DecodeOtherVersion(v: nat, p: Params, salt: bytes, key: bytes)
    requires v <= INT64_MAX && |salt| == p.saltLength && |key| == p.keyLength
    ensures DecodeParts("v=" + Show(v), ParamsField(p), EncodeBase64(salt), EncodeBase64(key)) ==
      if v != 19 then Err(IncompatibleVersion) else Ok(Decoded(p, salt, key))
  {
    ScanVersionShown(v);
    ScanParamsShown(p);
    Base64RoundTrip(salt);
    Base64RoundTrip(key);
    if v == 19 { DecodePartsShown(p, salt, key, "v=" + Show(v), ParamsField(p), EncodeBase64(salt), EncodeBase64(key)); }
  }
}
