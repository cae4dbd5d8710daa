/**
 The password string: how HashPassword prints configuration, salt and hash, and how VerifyPassword
 splits and scans the string again.  Argon2id itself is a function from its inputs to as many bytes
 as it is asked for; nothing else is assumed of it.
 */
module Password {
  import opened Base64
  import opened Octets
  import opened Options

  // password, salt, iterations, memory, parallelism, key length
  type KeyFunction = (seq<byte>, seq<byte>, nat, nat, nat, nat) -> seq<byte>

  const UINT32: nat := 0x1_0000_0000
  const UINT8: nat := 0x100

  datatype Config = Config(memory: nat, iterations: nat, parallelism: nat, keyLength: nat)

  // The fields of the configuration are uint32, uint32, uint8 and uint32.
  predicate ValidConfig(cfg: Config) {
    cfg.memory < UINT32 && cfg.iterations < UINT32 && cfg.parallelism < UINT8 && cfg.keyLength < UINT32
  }

  ghost predicate GivesKeyLength(key: KeyFunction) {
    forall password, salt, t, m, p, n :: |key(password, salt, t, m, p, n)| == n
  }

  // ----- Decimal numbers -----

  function Digit(d: nat): char
    requires d < 10
  {
    '0' + d as char
  }

  predicate IsDigit(c: char) {
    '0' <= c <= '9'
  }

  function DigitValue(c: char): nat
    requires IsDigit(c)
  {
    (c - '0') as nat
  }

  // fmt's %d
  function Decimal(n: nat): string {
    if n < 10 then [Digit(n)] else Decimal(n / 10) + [Digit(n % 10)]
  }

  function LeadingDigits(s: string): nat {
    if s == "" || !IsDigit(s[0]) then 0 else 1 + LeadingDigits(s[1..])
  }

  lemma {:induction false} LeadingDigitsAreDigits(s: string)
    ensures LeadingDigits(s) <= |s|
    ensures forall i :: 0 <= i < LeadingDigits(s) ==> IsDigit(s[i])
    decreases s
  {
    if s != "" && IsDigit(s[0]) {
      LeadingDigitsAreDigits(s[1..]);
      forall i | 0 <= i < LeadingDigits(s)
        ensures IsDigit(s[i])
      {
        if i > 0 {
          assert s[i] == s[1..][i - 1];
        }
      }
    }
  }

  function NumberOf(digits: string): nat
    requires forall i :: 0 <= i < |digits| ==> IsDigit(digits[i])
  {
    if digits == "" then 0
    else NumberOf(digits[..|digits| - 1]) * 10 + DigitValue(digits[|digits| - 1])
  }

  // What Sscanf skips before a number; a line feed makes it fail instead.
  predicate IsBlank(c: char) {
    c in " \t\r\U{0b}\U{0c}"
  }

  function SkipBlanks(s: string): string {
    if s != "" && IsBlank(s[0]) then SkipBlanks(s[1..]) else s
  }

  // The value scanned and the rest of the input.
  datatype Scanned = Scanned(value: nat, rest: string)

  // Sscanf's %d into an unsigned integer below the limit: blanks, then as many digits as there are.
  function ScanUint(s: string, limit: nat): Option<Scanned> {
    var t := SkipBlanks(s);
    LeadingDigitsAreDigits(t);
    var n := LeadingDigits(t);
    if n == 0 then None
    else
      var value := NumberOf(t[..n]);
      if value < limit then Some(Scanned(value, t[n..])) else None
  }

  // A literal part of the format.
  function ScanLiteral(s: string, literal: string): Option<string> {
    if literal <= s then Some(s[|literal|..]) else None
  }

  function ScanField(s: string, literal: string, limit: nat): Option<Scanned> {
    var rest := ScanLiteral(s, literal);
    if rest.None? then None else ScanUint(rest.value, limit)
  }

  datatype Params = Params(memory: nat, iterations: nat, parallelism: nat)

  // Sscanf with "m=%d,t=%d,p=%d"; input left over at the end is ignored.
  function ScanParams(s: string): Option<Params> {
    var m := ScanField(s, "m=", UINT32);
    if m.None? then None
    else
      var t := ScanField(m.value.rest, ",t=", UINT32);
      if t.None? then None
      else
        var p := ScanField(t.value.rest, ",p=", UINT8);
        if p.None? then None else Some(Params(m.value.value, t.value.value, p.value.value))
  }

  // ----- Splitting -----

  // strings.Split: one part more than there are separators.
  function Split(s: string, sep: char): (parts: seq<string>)
    ensures parts != []
  {
    if s == "" then [""]
    else
      var rest := Split(s[1..], sep);
      if s[0] == sep then [""] + rest else [[s[0]] + rest[0]] + rest[1..]
  }

  function Count(s: string, c: char): nat {
    if s == "" then 0 else Count(s[1..], c) + if s[0] == c then 1 else 0
  }

  lemma {:induction false} SplitCount(s: string, sep: char)
    ensures |Split(s, sep)| == Count(s, sep) + 1
    decreases s
  {
    if s != "" {
      SplitCount(s[1..], sep);
    }
  }

  // The first separator ends the first part.
  lemma {:induction false} SplitFirst(part: string, rest: string, sep: char)
    requires sep !in part
    ensures Split(part + [sep] + rest, sep) == [part] + Split(rest, sep)
    decreases part
  {
    var s := part + [sep] + rest;
    if part == "" {
      assert s[1..] == rest;
    } else {
      SplitFirst(part[1..], rest, sep);
      assert s[1..] == part[1..] + [sep] + rest;
      assert [part[0]] + part[1..] == part;
    }
  }

  lemma {:induction false} SplitWhole(part: string, sep: char)
    requires sep !in part
    ensures Split(part, sep) == [part]
    decreases part
  {
    if part != "" {
      SplitWhole(part[1..], sep);
      assert [part[0]] + part[1..] == part;
    }
  }

  // ----- Printing and parsing a hash -----

  function ParamsString(cfg: Config): string {
    "m=" + Decimal(cfg.memory) + ",t=" + Decimal(cfg.iterations) + ",p=" + Decimal(cfg.parallelism)
  }

  function HashString(cfg: Config, salt: seq<byte>, hash: seq<byte>): string {
    "$argon2id$v=19$" + ParamsString(cfg) + "$" + Encode(salt) + "$" + Encode(hash)
  }

  // The salt is drawn at random, so it is an input here.
  function HashPassword(key: KeyFunction, password: seq<byte>, cfg: Config, salt: seq<byte>): string {
    HashString(cfg, salt, key(password, salt, cfg.iterations, cfg.memory, cfg.parallelism, cfg.keyLength))
  }

  datatype Parsed =
    | Fields(params: Params, salt: seq<byte>, hash: seq<byte>)
    | BadFormat
    | BadParams
    | BadSalt
    | BadHash

  function ParseHash(encoded: string): Parsed {
    var parts := Split(encoded, '$');
    if |parts| != 6 then BadFormat
    else if ScanParams(parts[3]).None? then BadParams
    else if Decode(parts[4]).None? then BadSalt
    else if Decode(parts[5]).None? then BadHash
    else Fields(ScanParams(parts[3]).value, Decode(parts[4]).value, Decode(parts[5]).value)
  }

  // None for the errors; they all are refusals to the caller.
  function VerifyPassword(key: KeyFunction, encoded: string, password: seq<byte>): Option<bool> {
    var parsed := ParseHash(encoded);
    if !parsed.Fields? then None
    else
      var p := parsed.params;
      var keyLen := |parsed.hash| % UINT32;
      Some(key(password, parsed.salt, p.iterations, p.memory, p.parallelism, keyLen) == parsed.hash)
  }

  // ----- The round trip -----

  lemma {:induction false} DecimalDigits(n: nat)
    ensures Decimal(n) != ""
    ensures forall i :: 0 <= i < |Decimal(n)| ==> IsDigit(Decimal(n)[i])
    ensures NumberOf(Decimal(n)) == n
    decreases n
  {
    if n >= 10 {
      DecimalDigits(n / 10);
      assert Decimal(n)[..|Decimal(n)| - 1] == Decimal(n / 10);
    }
  }

  lemma {:induction false} LeadingDigitsStop(digits: string, rest: string)
    requires forall i :: 0 <= i < |digits| ==> IsDigit(digits[i])
    requires rest == "" || !IsDigit(rest[0])
    ensures LeadingDigits(digits + rest) == |digits|
    decreases digits
  {
    if digits == "" {
      assert digits + rest == rest;
    } else {
      LeadingDigitsStop(digits[1..], rest);
      assert (digits + rest)[1..] == digits[1..] + rest;
    }
  }

  // Scanning a printed number gives it back and stops right behind it.
  lemma ScanDecimal(literal: string, n: nat, rest: string, limit: nat)
    requires n < limit && (rest == "" || !IsDigit(rest[0]))
    ensures ScanField(literal + Decimal(n) + rest, literal, limit) == Some(Scanned(n, rest))
  {
    var s := literal + Decimal(n) + rest;
    DecimalDigits(n);
    LeadingDigitsStop(Decimal(n), rest);
    assert s[|literal|..] == Decimal(n) + rest;
    assert !IsBlank(Decimal(n)[0]);
    assert (Decimal(n) + rest)[..|Decimal(n)|] == Decimal(n);
    assert (Decimal(n) + rest)[|Decimal(n)|..] == rest;
  }

  lemma ScanPrintedParams(cfg: Config)
    requires ValidConfig(cfg)
    ensures ScanParams(ParamsString(cfg)) == Some(Params(cfg.memory, cfg.iterations, cfg.parallelism))
  {
    var p := ",p=" + Decimal(cfg.parallelism);
    var t := ",t=" + Decimal(cfg.iterations) + p;
    assert ParamsString(cfg) == "m=" + Decimal(cfg.memory) + t;
    ScanDecimal("m=", cfg.memory, t, UINT32);
    ScanDecimal(",t=", cfg.iterations, p, UINT32);
    assert p == ",p=" + Decimal(cfg.parallelism) + "";
    ScanDecimal(",p=", cfg.parallelism, "", UINT8);
  }

  // Printed parameters scan back exactly when each fits the width of its field.
  lemma ScanPrintedIff(cfg: Config)
    ensures ScanParams(ParamsString(cfg))
         == if cfg.memory < 4_294_967_296 && cfg.iterations < 4_294_967_296 && cfg.parallelism < 256
            then Some(Params(cfg.memory, cfg.iterations, cfg.parallelism)) else None
  {
    var p := ",p=" + Decimal(cfg.parallelism);
    var t := ",t=" + Decimal(cfg.iterations) + p;
    assert ParamsString(cfg) == "m=" + Decimal(cfg.memory) + t;
    assert p == ",p=" + Decimal(cfg.parallelism) + "";
    ScanPrinted("m=", cfg.memory, t, UINT32);
    ScanPrinted(",t=", cfg.iterations, p, UINT32);
    ScanPrinted(",p=", cfg.parallelism, "", UINT8);
  }

  lemma ScanPrinted(literal: string, n: nat, rest: string, limit: nat)
    requires rest == "" || !IsDigit(rest[0])
    ensures ScanField(literal + Decimal(n) + rest, literal, limit) == if n < limit then Some(Scanned(n, rest)) else None
  {
    if n < limit {
      ScanDecimal(literal, n, rest, limit);
    } else {
      ScanDecimal(literal, n, rest, n + 1);
    }
  }

  // The default configuration, as it is printed.
  lemma PrintedParams()
    ensures ParamsString(Config(65536, 3, 2, 32)) == "m=65536,t=3,p=2"
  {
    assert Decimal(3) == "3" && Decimal(2) == "2";
    Decimal65536();
  }

  lemma Decimal65536()
    ensures Decimal(65536) == "65536"
  {
    assert Decimal(6) == "6" && Decimal(65) == "65" && Decimal(655) == "655" && Decimal(6553) == "6553";
  }

  lemma {:induction false} NoDollarInDecimal(n: nat)
    ensures '$' !in Decimal(n)
    decreases n
  {
    if n >= 10 {
      NoDollarInDecimal(n / 10);
    }
  }

  lemma NoDollarInParams(cfg: Config)
    ensures '$' !in ParamsString(cfg)
  {
    NoDollarInDecimal(cfg.memory);
    NoDollarInDecimal(cfg.iterations);
    NoDollarInDecimal(cfg.parallelism);
  }

  // Six parts with the separator between them, read from the left.
  lemma SplitSix(a: string, b: string, c: string, d: string, e: string, f: string, sep: char)
    requires sep !in a && sep !in b && sep !in c && sep !in d && sep !in e && sep !in f
    ensures Split(a + [sep] + (b + [sep] + (c + [sep] + (d + [sep] + (e + [sep] + f)))), sep) == [a, b, c, d, e, f]
  {
    var s5 := e + [sep] + f;
    var s4 := d + [sep] + s5;
    var s3 := c + [sep] + s4;
    var s2 := b + [sep] + s3;
    SplitFirst(a, s2, sep);
    SplitFirst(b, s3, sep);
    SplitFirst(c, s4, sep);
    SplitFirst(d, s5, sep);
    SplitFirst(e, f, sep);
    SplitWhole(f, sep);
  }

  lemma HashStringParts(params: string, salt: string, hash: string)
    ensures "$argon2id$v=19$" + params + "$" + salt + "$" + hash
         == "" + ['$'] + ("argon2id" + ['$'] + ("v=19" + ['$'] + (params + ['$'] + (salt + ['$'] + hash))))
  {
  }

  lemma SplitHashString(cfg: Config, salt: seq<byte>, hash: seq<byte>)
    ensures Split(HashString(cfg, salt, hash), '$')
         == ["", "argon2id", "v=19", ParamsString(cfg), Encode(salt), Encode(hash)]
  {
    DecodeEncode(salt);
    DecodeEncode(hash);
    NoDollarInParams(cfg);
    HashStringParts(ParamsString(cfg), Encode(salt), Encode(hash));
    SplitSix("", "argon2id", "v=19", ParamsString(cfg), Encode(salt), Encode(hash), '$');
  }

  // Parsing a printed hash recovers every field, for every configuration, salt and hash.
  lemma ParsePrinted(cfg: Config, salt: seq<byte>, hash: seq<byte>)
    requires ValidConfig(cfg)
    ensures ParseHash(HashString(cfg, salt, hash))
         == Fields(Params(cfg.memory, cfg.iterations, cfg.parallelism), salt, hash)
  {
    SplitHashString(cfg, salt, hash);
    ScanPrintedParams(cfg);
    DecodeEncode(salt);
    DecodeEncode(hash);
  }

  // Verifying a password against the string made for another one succeeds exactly when the two give
  // the same key, so it succeeds for the same password.
  lemma VerifyHashed(key: KeyFunction, password: seq<byte>, cfg: Config, salt: seq<byte>, attempt: seq<byte>)
    requires ValidConfig(cfg) && GivesKeyLength(key)
    ensures VerifyPassword(key, HashPassword(key, password, cfg, salt), attempt)
         == Some(key(attempt, salt, cfg.iterations, cfg.memory, cfg.parallelism, cfg.keyLength)
              == key(password, salt, cfg.iterations, cfg.memory, cfg.parallelism, cfg.keyLength))
    ensures attempt == password ==> VerifyPassword(key, HashPassword(key, password, cfg, salt), attempt) == Some(true)
  {
    var hash := key(password, salt, cfg.iterations, cfg.memory, cfg.parallelism, cfg.keyLength);
    ParsePrinted(cfg, salt, hash);
    assert |hash| == cfg.keyLength;
    VerifyParsed(key, HashString(cfg, salt, hash), cfg, salt, hash, attempt);
  }

  lemma VerifyParsed(key: KeyFunction, encoded: string, cfg: Config, salt: seq<byte>, hash: seq<byte>,
                     attempt: seq<byte>)
    requires ParseHash(encoded) == Fields(Params(cfg.memory, cfg.iterations, cfg.parallelism), salt, hash)
    requires |hash| < UINT32
    ensures VerifyPassword(key, encoded, attempt)
         == Some(key(attempt, salt, cfg.iterations, cfg.memory, cfg.parallelism, |hash|) == hash)
  {
    assert |hash| % UINT32 == |hash|;
    assert VerifyPassword(key, encoded, attempt).Some?;
  }

  // What verification makes of any six fields: it reads the last three, refuses when the parameters do
  // not scan or either of the two is no base64, and otherwise compares the keys.
  lemma VerifyFields(key: KeyFunction, a: string, b: string, c: string, params: string, salt: string, hash: string,
                     attempt: seq<byte>)
    requires '$' !in a && '$' !in b && '$' !in c && '$' !in params && '$' !in salt && '$' !in hash
    ensures var encoded := a + ['$'] + (b + ['$'] + (c + ['$'] + (params + ['$'] + (salt + ['$'] + hash))));
      var p, s, h := ScanParams(params), Decode(salt), Decode(hash);
      && (VerifyPassword(key, encoded, attempt).None? <==> p.None? || s.None? || h.None?)
      && (p.Some? && s.Some? && h.Some? ==>
            VerifyPassword(key, encoded, attempt).value
            == (key(attempt, s.value, p.value.iterations, p.value.memory, p.value.parallelism,
                    |h.value| % 4_294_967_296) == h.value))
  {
    SplitSix(a, b, c, params, salt, hash, '$');
  }

  // A string without exactly five dollar signs is refused whatever else it holds.
  lemma FormatNeedsFiveDollars(encoded: string)
    ensures ParseHash(encoded) == BadFormat <==> Count(encoded, '$') != 5
  {
    SplitCount(encoded, '$');
  }
}
