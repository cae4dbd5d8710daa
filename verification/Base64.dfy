/**
 The unpadded standard base64 encoding (sections 3.2 and 4 of RFC 4648), as the password strings use
 it.  The decoder is the lenient one: it skips line breaks and ignores leftover bits.
 */
module Base64 {
  import opened Octets
  import opened Options

  type sextet = x: int | 0 <= x < 64

  function Symbol(v: sextet): char {
    if v < 26 then 'A' + v as char
    else if v < 52 then 'a' + (v - 26) as char
    else if v < 62 then '0' + (v - 52) as char
    else if v == 62 then '+'
    else '/'
  }

  function Value(c: char): Option<sextet> {
    if 'A' <= c <= 'Z' then Some((c - 'A') as int)
    else if 'a' <= c <= 'z' then Some((c - 'a') as int + 26)
    else if '0' <= c <= '9' then Some((c - '0') as int + 52)
    else if c == '+' then Some(62)
    else if c == '/' then Some(63)
    else None
  }

  function Encode(bytes: seq<byte>): string {
    if |bytes| == 0 then ""
    else if |bytes| == 1 then [Symbol(bytes[0] / 4), Symbol(bytes[0] % 4 * 16)]
    else if |bytes| == 2 then
      [Symbol(bytes[0] / 4), Symbol(bytes[0] % 4 * 16 + bytes[1] / 16), Symbol(bytes[1] % 16 * 4)]
    else
      [Symbol(bytes[0] / 4), Symbol(bytes[0] % 4 * 16 + bytes[1] / 16),
       Symbol(bytes[1] % 16 * 4 + bytes[2] / 64), Symbol(bytes[2] % 64)] + Encode(bytes[3..])
  }

  // The values of the symbols, line breaks skipped.
  function Values(s: string): Option<seq<sextet>> {
    if s == "" then Some([])
    else if s[0] == '\n' || s[0] == '\r' then Values(s[1..])
    else
      var rest := Values(s[1..]);
      if Value(s[0]).None? || rest.None? then None else Some([Value(s[0]).value] + rest.value)
  }

  function High(a: sextet, b: sextet): byte {
    a * 4 + b / 16
  }

  function Middle(b: sextet, c: sextet): byte {
    b % 16 * 16 + c / 4
  }

  function Low(c: sextet, d: sextet): byte {
    c % 4 * 64 + d
  }

  function Bytes(values: seq<sextet>): Option<seq<byte>> {
    if |values| == 0 then Some([])
    else if |values| == 1 then None
    else if |values| == 2 then Some([High(values[0], values[1])])
    else if |values| == 3 then Some([High(values[0], values[1]), Middle(values[1], values[2])])
    else
      var rest := Bytes(values[4..]);
      if rest.None? then None
      else Some([High(values[0], values[1]), Middle(values[1], values[2]), Low(values[2], values[3])] + rest.value)
  }

  function Decode(s: string): Option<seq<byte>> {
    var values := Values(s);
    if values.None? then None else Bytes(values.value)
  }

  // ----- Inversion -----

  // The alphabet of table 1 in section 4 of RFC 4648, by the codes of the characters.
  lemma Alphabet(v: sextet)
    ensures Symbol(v) as int == if v < 26 then 65 + v else if v < 52 then 71 + v else if v < 62 then v - 4
                                else if v == 62 then 43 else 47
  {
  }

  // Three bytes are the same 24 bits as their four symbols; one or two bytes are encoded like three of
  // which the rest is zero, and cut off; and longer strings piece by piece (section 4).
  lemma SameBits(x: byte, y: byte, z: byte) returns (a: sextet, b: sextet, c: sextet, d: sextet)
    ensures Encode([x, y, z]) == [Symbol(a), Symbol(b), Symbol(c), Symbol(d)]
    ensures 262_144 * a + 4096 * b + 64 * c + d == 65_536 * x + 256 * y + z
  {
    a, b := x / 4, x % 4 * 16 + y / 16;
    c, d := y % 16 * 4 + z / 64, z % 64;
    EncodeOnce(x, y, z, []);
    assert [x, y, z] + [] == [x, y, z];
  }

  lemma EncodeOnce(x: byte, y: byte, z: byte, rest: seq<byte>)
    ensures Encode([x, y, z] + rest)
         == [Symbol(x / 4), Symbol(x % 4 * 16 + y / 16), Symbol(y % 16 * 4 + z / 64), Symbol(z % 64)] + Encode(rest)
  {
    assert ([x, y, z] + rest)[3..] == rest;
  }

  lemma Short(x: byte, y: byte)
    ensures Encode([x]) == Encode([x, 0, 0])[..2] && Encode([x, y]) == Encode([x, y, 0])[..3]
  {
    var z: byte := 0;
    EncodeOnce(x, z, z, []);
    EncodeOnce(x, y, z, []);
    assert [x, z, z] + [] == [x, 0, 0] && [x, y, z] + [] == [x, y, 0];
  }

  lemma Long(three: seq<byte>, rest: seq<byte>)
    requires |three| == 3
    ensures Encode(three + rest) == Encode(three) + Encode(rest)
  {
    assert three == [three[0], three[1], three[2]] && three + [] == three;
    EncodeOnce(three[0], three[1], three[2], rest);
    EncodeOnce(three[0], three[1], three[2], []);
  }

  // No separator and no line break.
  predicate Plain(c: char) {
    c != '$' && c != '\r' && c != '\n'
  }

  lemma SymbolValue(v: sextet)
    ensures Value(Symbol(v)) == Some(v) && Plain(Symbol(v))
  {
  }

  // The values an encoding is made of, before they become symbols.
  function Sextets(bytes: seq<byte>): seq<sextet> {
    if |bytes| == 0 then []
    else if |bytes| == 1 then [bytes[0] / 4, bytes[0] % 4 * 16]
    else if |bytes| == 2 then [bytes[0] / 4, bytes[0] % 4 * 16 + bytes[1] / 16, bytes[1] % 16 * 4]
    else
      [bytes[0] / 4, bytes[0] % 4 * 16 + bytes[1] / 16, bytes[1] % 16 * 4 + bytes[2] / 64, bytes[2] % 64]
      + Sextets(bytes[3..])
  }

  function Symbols(values: seq<sextet>): string {
    if values == [] then "" else [Symbol(values[0])] + Symbols(values[1..])
  }

  lemma {:induction false} SymbolsConcat(a: seq<sextet>, b: seq<sextet>)
    ensures Symbols(a + b) == Symbols(a) + Symbols(b)
    decreases a
  {
    if a == [] {
      assert a + b == b;
    } else {
      SymbolsConcat(a[1..], b);
      SymbolsFirst(a[0], a[1..] + b);
      assert a + b == [a[0]] + (a[1..] + b);
      assert Symbols(a) == [Symbol(a[0])] + Symbols(a[1..]);
    }
  }

  lemma SymbolsFirst(v: sextet, rest: seq<sextet>)
    ensures Symbols([v] + rest) == [Symbol(v)] + Symbols(rest)
  {
    assert ([v] + rest)[1..] == rest;
  }

  lemma Symbols4(a: sextet, b: sextet, c: sextet, d: sextet)
    ensures Symbols([a, b]) == [Symbol(a), Symbol(b)]
    ensures Symbols([a, b, c]) == [Symbol(a), Symbol(b), Symbol(c)]
    ensures Symbols([a, b, c, d]) == [Symbol(a), Symbol(b), Symbol(c), Symbol(d)]
  {
    SymbolsConcat([a], [b]);
    SymbolsConcat([a, b], [c]);
    SymbolsConcat([a, b, c], [d]);
    assert [a] + [b] == [a, b] && [a, b] + [c] == [a, b, c] && [a, b, c] + [d] == [a, b, c, d];
    Symbols1(a);
    Symbols1(b);
    Symbols1(c);
    Symbols1(d);
  }

  lemma Symbols1(a: sextet)
    ensures Symbols([a]) == [Symbol(a)]
  {
    assert [a][1..] == [];
  }

  lemma {:induction false} EncodeIsSymbols(bytes: seq<byte>)
    ensures Encode(bytes) == Symbols(Sextets(bytes))
    decreases bytes
  {
    if |bytes| == 1 {
      Symbols4(bytes[0] / 4, bytes[0] % 4 * 16, 0, 0);
    } else if |bytes| == 2 {
      Symbols4(bytes[0] / 4, bytes[0] % 4 * 16 + bytes[1] / 16, bytes[1] % 16 * 4, 0);
    } else if |bytes| > 2 {
      EncodeIsSymbols(bytes[3..]);
      var a, b := bytes[0] / 4, bytes[0] % 4 * 16 + bytes[1] / 16;
      var c, d := bytes[1] % 16 * 4 + bytes[2] / 64, bytes[2] % 64;
      Symbols4(a, b, c, d);
      SymbolsConcat([a, b, c, d], Sextets(bytes[3..]));
    }
  }

  lemma {:induction false} ValuesOfSymbols(values: seq<sextet>)
    ensures Values(Symbols(values)) == Some(values)
    ensures forall c :: c in Symbols(values) ==> Plain(c)
    decreases values
  {
    if values != [] {
      SymbolValue(values[0]);
      ValuesOfSymbols(values[1..]);
      var tail := Symbols(values[1..]);
      assert Symbols(values) == [Symbol(values[0])] + tail;
      assert Symbols(values)[1..] == tail;
      assert [values[0]] + values[1..] == values;
    }
  }

  lemma Repack(x: byte, y: byte, z: byte)
    ensures High(x / 4, x % 4 * 16 + y / 16) == x
    ensures Middle(x % 4 * 16 + y / 16, y % 16 * 4 + z / 64) == y
    ensures Low(y % 16 * 4 + z / 64, z % 64) == z
  {
  }

  lemma BytesOfOne(x: byte)
    ensures Bytes(Sextets([x])) == Some([x])
  {
    Repack(x, 0, 0);
  }

  lemma BytesOfTwo(x: byte, y: byte)
    ensures Bytes(Sextets([x, y])) == Some([x, y])
  {
    Repack(x, y, 0);
    var values := Sextets([x, y]);
    assert values == [x / 4, x % 4 * 16 + y / 16, y % 16 * 4];
  }

  lemma BytesOfFour(a: sextet, b: sextet, c: sextet, d: sextet, rest: seq<sextet>)
    requires Bytes(rest).Some?
    ensures Bytes([a, b, c, d] + rest) == Some([High(a, b), Middle(b, c), Low(c, d)] + Bytes(rest).value)
  {
    assert ([a, b, c, d] + rest)[4..] == rest;
  }

  lemma SextetsOfLonger(x: byte, y: byte, z: byte, rest: seq<byte>)
    ensures Sextets([x, y, z] + rest)
         == [x / 4, x % 4 * 16 + y / 16, y % 16 * 4 + z / 64, z % 64] + Sextets(rest)
  {
    assert ([x, y, z] + rest)[3..] == rest;
  }

  lemma BytesOfLonger(x: byte, y: byte, z: byte, rest: seq<byte>)
    requires Bytes(Sextets(rest)) == Some(rest)
    ensures Bytes(Sextets([x, y, z] + rest)) == Some([x, y, z] + rest)
  {
    SextetsOfLonger(x, y, z, rest);
    Repack(x, y, z);
    BytesOfFour(x / 4, x % 4 * 16 + y / 16, y % 16 * 4 + z / 64, z % 64, Sextets(rest));
  }

  lemma {:induction false} BytesOfSextets(bytes: seq<byte>)
    ensures Bytes(Sextets(bytes)) == Some(bytes)
    decreases bytes
  {
    if |bytes| > 2 {
      BytesOfSextets(bytes[3..]);
      BytesOfLonger(bytes[0], bytes[1], bytes[2], bytes[3..]);
      assert bytes == [bytes[0], bytes[1], bytes[2]] + bytes[3..];
    } else if |bytes| == 2 {
      BytesOfTwo(bytes[0], bytes[1]);
      assert bytes == [bytes[0], bytes[1]];
    } else if |bytes| == 1 {
      BytesOfOne(bytes[0]);
      assert bytes == [bytes[0]];
    }
  }

  predicate IsBreak(c: char) {
    c == '\n' || c == '\r'
  }

  // The symbols of a string: what remains when the line breaks are gone.
  function SymbolCount(s: string): nat {
    if s == "" then 0 else SymbolCount(s[1..]) + if IsBreak(s[0]) then 0 else 1
  }

  lemma {:induction false} ValuesFail(s: string)
    ensures Values(s).None? <==> exists c :: c in s && !IsBreak(c) && Value(c).None?
    ensures Values(s).Some? ==> |Values(s).value| == SymbolCount(s)
    decreases s
  {
    if s != "" {
      ValuesFail(s[1..]);
      assert s == [s[0]] + s[1..];
      assert forall c :: c in s <==> c == s[0] || c in s[1..];
    }
  }

  // Four symbols can always be decoded, so what matters is how many are left over.
  lemma BytesOfMore(values: seq<sextet>)
    requires |values| >= 4
    ensures Bytes(values).None? <==> Bytes(values[4..]).None?
  {
  }

  lemma BytesOfFew(values: seq<sextet>)
    requires |values| < 4
    ensures Bytes(values).None? <==> |values| == 1
  {
  }

  lemma LessFour(n: nat)
    ensures n < 4 ==> n % 4 == n
    ensures n >= 4 ==> (n - 4) % 4 == n % 4
  {
  }

  lemma {:induction false} BytesFail(values: seq<sextet>)
    ensures Bytes(values).None? <==> |values| % 4 == 1
    decreases |values|
  {
    LessFour(|values|);
    if |values| < 4 {
      BytesOfFew(values);
    } else {
      BytesOfMore(values);
      BytesFail(values[4..]);
    }
  }

  // Decoding fails exactly on a character outside the alphabet or a single symbol left over.
  lemma DecodeFails(s: string)
    ensures Decode(s).None? <==> (exists c :: c in s && !IsBreak(c) && Value(c).None?) || SymbolCount(s) % 4 == 1
  {
    ValuesFail(s);
    if Values(s).Some? {
      BytesFail(Values(s).value);
    }
  }

  // Decoding an encoding gives the bytes back, for every byte string.
  lemma DecodeEncode(bytes: seq<byte>)
    ensures Decode(Encode(bytes)) == Some(bytes)
    ensures forall c :: c in Encode(bytes) ==> Plain(c)
  {
    EncodeIsSymbols(bytes);
    ValuesOfSymbols(Sextets(bytes));
    BytesOfSextets(bytes);
  }
}
