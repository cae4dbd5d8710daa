/**
 The leading-zero count of a proof of work.  The counter is a byte that wraps around, the loop stops
 at the first byte that is not zero, and the digest has 32 bytes, so only the digest of nothing but
 zeros makes it wrap.
 */
module ProofOfWork {

  import opened Octets

  const DIGEST_SIZE: nat := 32

  // bits.LeadingZeros8
  function LeadingZeros8(b: byte): (n: nat)
    ensures n <= 8
    ensures n == 8 <==> b == 0
  {
    if b >= 128 then 0
    else if b >= 64 then 1
    else if b >= 32 then 2
    else if b >= 16 then 3
    else if b >= 8 then 4
    else if b >= 4 then 5
    else if b >= 2 then 6
    else if b == 1 then 7
    else 8
  }

  // The number a digest denotes, most significant byte first.
  function BigEndian(digest: seq<byte>): nat {
    if digest == [] then 0 else digest[0] * Pow2(8 * (|digest| - 1)) + BigEndian(digest[1..])
  }

  function Pow2(n: nat): (p: nat)
    ensures p >= 1
  {
    if n == 0 then 1 else 2 * Pow2(n - 1)
  }

  // The true number of leading zero bits.
  function LeadingZeros(digest: seq<byte>): nat {
    if digest == [] then 0
    else if digest[0] == 0 then 8 + LeadingZeros(digest[1..])
    else LeadingZeros8(digest[0])
  }

  predicate AllZero(digest: seq<byte>) {
    forall i :: 0 <= i < |digest| ==> digest[i] == 0
  }

  // ----- What the count means -----

  lemma {:induction false} Pow2Sum(m: nat, n: nat)
    ensures Pow2(m + n) == Pow2(m) * Pow2(n)
    decreases m
  {
    if m > 0 {
      Pow2Sum(m - 1, n);
      assert m + n - 1 == m - 1 + n;
      assert 2 * (Pow2(m - 1) * Pow2(n)) == (2 * Pow2(m - 1)) * Pow2(n);
    }
  }

  lemma {:induction false} Pow2Monotone(m: nat, n: nat)
    requires m <= n
    ensures Pow2(m) <= Pow2(n)
    decreases n
  {
    if m < n {
      Pow2Monotone(m, n - 1);
    }
  }

  // A nonzero byte with z leading zeros lies between two neighbouring powers of two.
  lemma ByteBounds(b: byte)
    requires b != 0
    ensures Pow2(7 - LeadingZeros8(b)) <= b < Pow2(8 - LeadingZeros8(b))
  {
    assert Pow2(0) == 1 && Pow2(1) == 2 && Pow2(2) == 4 && Pow2(3) == 8;
    assert Pow2(4) == 16 && Pow2(5) == 32 && Pow2(6) == 64 && Pow2(7) == 128;
    ByteTop();
  }

  lemma ByteTop()
    ensures Pow2(8) == 256
  {
    assert Pow2(4) == 16;
    Pow2Sum(4, 4);
  }

  lemma {:induction false} BelowTop(digest: seq<byte>)
    ensures BigEndian(digest) < Pow2(8 * |digest|)
    decreases digest
  {
    if digest != [] {
      BelowTop(digest[1..]);
      var n := |digest| - 1;
      ByteTop();
      Pow2Sum(8, 8 * n);
      Scale(0, digest[0], 256, Pow2(8 * n), BigEndian(digest[1..]));
    }
  }

  // A nonzero digest with z leading zeros lies between two neighbouring powers of two as well.
  lemma {:induction false} DigestBounds(digest: seq<byte>)
    requires !AllZero(digest)
    ensures LeadingZeros(digest) < 8 * |digest|
    ensures var bits := 8 * |digest| - LeadingZeros(digest); Pow2(bits - 1) <= BigEndian(digest) < Pow2(bits)
    decreases digest
  {
    if digest[0] == 0 {
      NonzeroAfter(digest);
      DigestBounds(digest[1..]);
    } else {
      LeadingByteBounds(digest[0], digest[1..]);
      assert digest == [digest[0]] + digest[1..];
    }
  }

  lemma NonzeroAfter(digest: seq<byte>)
    requires !AllZero(digest) && digest[0] == 0
    ensures !AllZero(digest[1..])
  {
    var i :| 0 <= i < |digest| && digest[i] != 0;
    assert digest[1..][i - 1] != 0;
  }

  lemma LeadingByteBounds(b: byte, rest: seq<byte>)
    requires b != 0
    ensures var z := LeadingZeros8(b); var bits := 8 * |rest|;
            Pow2(bits + 7 - z) <= b * Pow2(bits) + BigEndian(rest) < Pow2(bits + 8 - z)
  {
    var z, bits := LeadingZeros8(b), 8 * |rest|;
    ByteBounds(b);
    BelowTop(rest);
    Pow2Sum(7 - z, bits);
    Pow2Sum(8 - z, bits);
    Scale(Pow2(7 - z), b, Pow2(8 - z), Pow2(bits), BigEndian(rest));
  }

  lemma Scale(lo: nat, b: nat, hi: nat, unit: nat, rest: nat)
    requires lo <= b < hi && rest < unit
    ensures lo * unit <= b * unit + rest < hi * unit
  {
    assert lo * unit <= b * unit;
    assert (b + 1) * unit <= hi * unit;
  }

  lemma {:induction false} AllZeroCount(digest: seq<byte>)
    requires AllZero(digest)
    ensures LeadingZeros(digest) == 8 * |digest| && BigEndian(digest) == 0
    decreases digest
  {
    if digest != [] {
      AllZeroCount(digest[1..]);
    }
  }

  // At least so many leading zero bits means below that power of two.
  lemma CountIsBound(digest: seq<byte>, difficulty: nat)
    requires !AllZero(digest) && difficulty <= 8 * |digest|
    ensures LeadingZeros(digest) >= difficulty <==> BigEndian(digest) < Pow2(8 * |digest| - difficulty)
  {
    DigestBounds(digest);
    var bits, z := 8 * |digest|, LeadingZeros(digest);
    if z >= difficulty {
      Pow2Monotone(bits - z, bits - difficulty);
    } else {
      Pow2Monotone(bits - difficulty, bits - 1 - z);
    }
  }

  // The server's answer: the wrapped count against the difficulty.
  predicate Accepts(digest: seq<byte>, difficulty: byte) {
    LeadingZeros(digest) % 256 >= difficulty
  }

  // A digest is accepted when it is below 2^(256 - difficulty), with a single exception: the digest
  // of nothing but zeros is turned away at every difficulty above 0, because its 256 leading zeros
  // wrap around to none.
  lemma AcceptsIffBelow(digest: seq<byte>, difficulty: byte)
    requires |digest| == DIGEST_SIZE
    ensures (Accepts(digest, difficulty) <==> BigEndian(digest) < Pow2(256 - difficulty))
       <==> !AllZero(digest) || difficulty == 0
  {
    if AllZero(digest) {
      AllZeroCount(digest);
    } else {
      DigestBounds(digest);
      CountIsBound(digest, difficulty);
    }
  }

  lemma AcceptsMeans(digest: seq<byte>, difficulty: byte)
    requires |digest| == DIGEST_SIZE
    ensures Accepts(digest, difficulty) <==> Acceptable(digest, difficulty)
  {
    AcceptsIffBelow(digest, difficulty);
    if AllZero(digest) {
      AllZeroCount(digest);
    }
  }

  // What the loop amounts to.
  predicate Acceptable(digest: seq<byte>, difficulty: byte) {
    if AllZero(digest) then difficulty == 0 else BigEndian(digest) < Pow2(256 - difficulty)
  }

  // The count stays within a byte on every other digest.
  lemma WrapsOnlyOnZero(digest: seq<byte>)
    requires |digest| == DIGEST_SIZE
    ensures LeadingZeros(digest) >= 256 <==> AllZero(digest)
  {
    if AllZero(digest) {
      AllZeroCount(digest);
    } else {
      DigestBounds(digest);
    }
  }

  lemma LeadingZerosFrom(digest: seq<byte>, i: nat)
    requires i < |digest|
    ensures LeadingZeros(digest[i..])
         == if digest[i] == 0 then 8 + LeadingZeros(digest[i + 1..]) else LeadingZeros8(digest[i])
  {
    assert digest[i..][1..] == digest[i + 1..];
  }

  // The check on the digest, as the server makes it.
  method VerifyDigest(digest: seq<byte>, difficulty: byte) returns (ok: bool)
    requires |digest| == DIGEST_SIZE
    ensures ok <==> Acceptable(digest, difficulty)
  {
    var zeros: byte := 0;
    var i := 0;
    while i < |digest|
      invariant 0 <= i <= |digest|
      invariant zeros == 8 * i % 256
      invariant LeadingZeros(digest) == 8 * i + LeadingZeros(digest[i..])
    {
      LeadingZerosFrom(digest, i);
      var lz := LeadingZeros8(digest[i]);
      zeros := (zeros + lz) % 256;
      if lz != 8 {
        break;
      }
      i := i + 1;
    }
    ok := zeros >= difficulty;
    assert ok <==> Accepts(digest, difficulty);
    AcceptsMeans(digest, difficulty);
  }
}
