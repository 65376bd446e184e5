/** Key agreement and derivation (RFC 2409, RFC 5869). */
module KeyAgreement {

  type Octet = n: nat | n < 256

  type Octets = seq<Octet>

  datatype Result = Ok(octets: Octets) | Overflow

  const PRIME: nat :=
    0xFFFFFFFFFFFFFFFFC90FDAA22168C234C4C6628B80DC1CD129024E088A67CC74020BBEA63B139B22514A08798E3404DDEF9519B3CD3A431B302B0A6DF25F14374FE1356D6D51C245E485B576625E7EC6F44C42E9A637ED6B0BFF5CB6F406B7EDEE386BFB5A899FA5AE9F24117C4B1FE649286651ECE65381FFFFFFFFFFFFFFFF

  const GENERATOR: nat := 2

  const KEY_BYTES: nat := 128

  function Power(b: nat, e: nat): nat {
    if e == 0 then 1 else b * Power(b, e - 1)
  }

  function PowMod(b: nat, e: nat, m: nat): (r: nat)
    requires m > 0
    ensures r < m
  {
    Power(b, e) % m
  }

  // --- Powers ---

  lemma {:induction false} PowerAdds(b: nat, d: nat, e: nat)
    ensures Power(b, d + e) == Power(b, d) * Power(b, e)
  {
    if d > 0 {
      PowerAdds(b, d - 1, e);
      assert b * (Power(b, d - 1) * Power(b, e)) == (b * Power(b, d - 1)) * Power(b, e);
    }
  }

  lemma {:induction false} PowerMultiplies(b: nat, d: nat, e: nat)
    ensures Power(Power(b, d), e) == Power(b, d * e)
  {
    if e == 0 {
      assert d * e == 0;
    } else {
      PowerMultiplies(b, d, e - 1);
      assert d * e == d + d * (e - 1);
      PowerAdds(b, d, d * (e - 1));
    }
  }

  lemma MultipleAtLeast(k: int, m: int)
    requires m > 0
    ensures k >= 1 ==> k * m >= m
    ensures k <= -1 ==> k * m <= -m
  {
    if k >= 1 {
      assert (k - 1) * m >= 0;
    } else if k <= -1 {
      assert (k + 1) * m <= 0;
    }
  }

  lemma ModUnique(x: nat, m: nat, q: int, r: nat)
    requires m > 0 && r < m && x == q * m + r
    ensures x % m == r
  {
    var d := x / m - q;
    assert x == x / m * m + x % m;
    MultipleAtLeast(d, m);
  }

  lemma ModOfProduct(a: nat, b: nat, m: nat)
    requires m > 0
    ensures ((a % m) * b) % m == (a * b) % m
  {
    var q, r := a / m, a % m;
    var s := r * b;
    var k := s / m;
    assert a == q * m + r && s == k * m + s % m;
    assert (q * m) * b == (q * b) * m;
    assert a * b == (q * b) * m + s;
    ModUnique(a * b, m, q * b + k, s % m);
  }

  lemma {:induction false} PowerOfMod(b: nat, e: nat, m: nat)
    requires m > 0
    ensures Power(b % m, e) % m == Power(b, e) % m
  {
    if e > 0 {
      var p, q := Power(b % m, e - 1), Power(b, e - 1);
      PowerOfMod(b, e - 1, m);
      ModOfProduct(b, p, m);
      ModOfProduct(p, b, m);
      ModOfProduct(q, b, m);
      assert b * p == p * b && b * q == q * b;
    }
  }

  /** The order in which two exponents are applied does not matter, whatever the modulus. */
  lemma {:induction false} ExponentsCommute(g: nat, a: nat, b: nat, m: nat)
    requires m > 0
    ensures PowMod(PowMod(g, a, m), b, m) == PowMod(PowMod(g, b, m), a, m)
  {
    PowerOfMod(Power(g, a), b, m);
    PowerOfMod(Power(g, b), a, m);
    PowerMultiplies(g, a, b);
    PowerMultiplies(g, b, a);
    assert a * b == b * a;
  }

  // --- Fixed-width big-endian ---

  function FromBytes(s: Octets): nat {
    if s == [] then 0 else 256 * FromBytes(s[..|s| - 1]) + s[|s| - 1]
  }

  function Encoded(n: nat, width: nat): Octets {
    if width == 0 then [] else Encoded(n / 256, width - 1) + [n % 256]
  }

  /** `to_bytes`: refuses what does not fit. */
  function ToBytes(n: nat, width: nat): Result {
    if n < Power(256, width) then Ok(Encoded(n, width)) else Overflow
  }

  lemma {:induction false} DecodeEncoded(n: nat, width: nat)
    ensures |Encoded(n, width)| == width
    ensures FromBytes(Encoded(n, width)) == n <==> n < Power(256, width)
    ensures FromBytes(Encoded(n, width)) <= n
  {
    if width > 0 {
      DecodeEncoded(n / 256, width - 1);
      var s := Encoded(n, width);
      assert s[..|s| - 1] == Encoded(n / 256, width - 1);
      assert n == 256 * (n / 256) + n % 256;
    }
  }

  lemma {:induction false} EncodeDecoded(s: Octets)
    ensures Encoded(FromBytes(s), |s|) == s
    ensures FromBytes(s) < Power(256, |s|)
  {
    if s != [] {
      var init, last := s[..|s| - 1], s[|s| - 1];
      EncodeDecoded(init);
      assert FromBytes(s) / 256 == FromBytes(init) && FromBytes(s) % 256 == last;
      assert s == init + [last];
    }
  }

  /** Encoding and decoding are inverse to each other: every number that fits its width
      comes back, every other is refused, and every octet string is the encoding of its value. */
  lemma {:induction false} FixedWidthIsExact(n: nat, width: nat, s: Octets)
    ensures ToBytes(n, width).Ok? <==> FromBytes(Encoded(n, width)) == n
    ensures ToBytes(n, width).Ok? ==> |ToBytes(n, width).octets| == width && FromBytes(ToBytes(n, width).octets) == n
    ensures ToBytes(FromBytes(s), |s|) == Ok(s)
  {
    DecodeEncoded(n, width);
    EncodeDecoded(s);
  }

  lemma {:induction false} LeadingZero(s: Octets)
    ensures FromBytes([0] + s) == FromBytes(s)
  {
    if s == [] {
      assert ([0] + s)[..0] == [];
    } else {
      assert ([0] + s)[..|s|] == [0] + s[..|s| - 1];
      LeadingZero(s[..|s| - 1]);
    }
  }

  function Zeros(n: nat): Octets {
    seq(n, i => 0)
  }

  lemma {:induction false} LeadingZeros(n: nat, s: Octets)
    ensures FromBytes(Zeros(n) + s) == FromBytes(s)
  {
    if n == 0 {
      assert Zeros(0) + s == s;
    } else {
      assert Zeros(n) + s == [0] + (Zeros(n - 1) + s);
      LeadingZero(Zeros(n - 1) + s);
      LeadingZeros(n - 1, s);
    }
  }

  // --- The group ---

  lemma Square(k: nat, v: nat)
    requires Power(256, k) == v
    ensures Power(256, k + k) == v * v
  {
    PowerAdds(256, k, k);
  }

  lemma EightSquares(k: nat)
    requires k == 1
    ensures Power(256, 128 * k) / 2 <= PRIME < Power(256, 128 * k)
  {
    assert Power(256, k) == 256 * Power(256, k - 1);
    Square(k, 0x100);
    Square(2 * k, 0x10000);
    Square(4 * k, 0x100000000);
    Square(8 * k, 0x10000000000000000);
    Square(16 * k, 0x100000000000000000000000000000000);
    Square(32 * k, 0x10000000000000000000000000000000000000000000000000000000000000000);
    Square(64 * k, 0x100000000000000000000000000000000000000000000000000000000000000000000000000000000000000000000000000000000000000000000000000000000);
  }

  /** The prime has exactly 1024 bits, so 128 octets are its width. */
  lemma PrimeFits()
    ensures Power(256, KEY_BYTES) / 2 <= PRIME < Power(256, KEY_BYTES)
  {
    EightSquares(1);
  }

  /** A key pair from a random draw: the private exponent and the public octets. */
  method GenerateKeypair(draw: nat) returns (private_: nat, public: Octets)
    requires draw < PRIME - 3
    ensures private_ == draw + 2 && 2 <= private_ <= PRIME - 2
    ensures public == Public(private_) && |public| == 128 && FromBytes(public) == PowMod(2, private_, PRIME)
  {
    private_ := draw + 2;
    public := Public(private_);
  }

  function Public(private_: nat): (s: Octets)
    ensures |s| == KEY_BYTES && FromBytes(s) == PowMod(GENERATOR, private_, PRIME)
  {
    PrimeFits();
    DecodeEncoded(PowMod(GENERATOR, private_, PRIME), KEY_BYTES);
    Encoded(PowMod(GENERATOR, private_, PRIME), KEY_BYTES)
  }

  function SharedSecret(private_: nat, peer: Octets): (s: Octets)
    ensures |s| == KEY_BYTES && FromBytes(s) == PowMod(FromBytes(peer), private_, PRIME)
  {
    PrimeFits();
    DecodeEncoded(PowMod(FromBytes(peer), private_, PRIME), KEY_BYTES);
    Encoded(PowMod(FromBytes(peer), private_, PRIME), KEY_BYTES)
  }

  /** Both sides compute the same 128 octets, for all private exponents; a peer that sends
      its public number with any number of extra leading zeros gets the same secret too. */
  lemma {:induction false} BothSidesAgree(a: nat, b: nat, n: nat)
    ensures SharedSecret(a, Public(b)) == SharedSecret(b, Public(a))
    ensures SharedSecret(a, Zeros(n) + Public(b)) == SharedSecret(a, Public(b))
  {
    ExponentsCommute(GENERATOR, a, b, PRIME);
    EncodeDecoded(SharedSecret(a, Public(b)));
    EncodeDecoded(SharedSecret(b, Public(a)));
    LeadingZeros(n, Public(b));
  }

  // --- Key derivation ---

  const HASH_LEN: nat := 32

  type Hmac = (Octets, Octets) -> Octets

  ghost predicate FixedLength(hmac: Hmac) {
    forall key, message :: |hmac(key, message)| == HASH_LEN
  }

  /** T(i): each block is keyed by the same secret and covers the previous block. */
  function Block(hmac: Hmac, prk: Octets, info: Octets, i: nat): Octets
    requires i <= 255
  {
    if i == 0 then [] else hmac(prk, Block(hmac, prk, info, i - 1) + info + [i])
  }

  /** T(1) | T(2) | … | T(n). */
  function Stream(hmac: Hmac, prk: Octets, info: Octets, n: nat): Octets
    requires n <= 255
  {
    if n == 0 then [] else Stream(hmac, prk, info, n - 1) + Block(hmac, prk, info, n)
  }

  function BlocksFor(length: nat): nat {
    (length + HASH_LEN - 1) / HASH_LEN
  }

  lemma {:induction false} StreamLength(hmac: Hmac, prk: Octets, info: Octets, n: nat)
    requires FixedLength(hmac) && n <= 255
    ensures |Stream(hmac, prk, info, n)| == n * HASH_LEN
  {
    if n > 0 {
      StreamLength(hmac, prk, info, n - 1);
    }
  }

  lemma {:induction false} StreamGrows(hmac: Hmac, prk: Octets, info: Octets, n: nat, m: nat)
    requires n <= m <= 255
    ensures Stream(hmac, prk, info, n) <= Stream(hmac, prk, info, m)
    decreases m - n
  {
    if n < m {
      StreamGrows(hmac, prk, info, n, m - 1);
    }
  }

  /** The output of a given length, or nothing when it would take more than 255 blocks. */
  function Derived(hmac: Hmac, ikm: Octets, info: Octets, length: nat): Result {
    if BlocksFor(length) > 255 then Overflow
    else
      var okm := Stream(hmac, hmac(Zeros(HASH_LEN), ikm), info, BlocksFor(length));
      Ok(if length <= |okm| then okm[..length] else okm)
  }

  /** The loop as written; the block counter is one octet and overflows past 255. */
  method Hkdf(hmac: Hmac, ikm: Octets, info: Octets, length: int) returns (r: Result)
    requires FixedLength(hmac)
    ensures r == if length <= 0 then Ok([]) else Derived(hmac, ikm, info, length)
  {
    var prk := hmac(Zeros(HASH_LEN), ikm);
    var okm: Octets := [];
    var block: Octets := [];
    var counter := 1;
    while |okm| < length
      invariant 1 <= counter <= 256
      invariant |okm| == (counter - 1) * HASH_LEN
      invariant okm == Stream(hmac, prk, info, counter - 1)
      invariant block == Block(hmac, prk, info, counter - 1)
      invariant counter > 1 ==> (counter - 2) * HASH_LEN < length
    {
      if counter > 255 {
        return Overflow;
      }
      block := hmac(prk, block + info + [counter]);
      okm := okm + block;
      counter := counter + 1;
    }
    if length <= 0 {
      return Ok([]);
    }
    assert counter - 1 == BlocksFor(length);
    return Ok(okm[..length]);
  }

  /** Exactly the requested length, up to 255 blocks and not beyond. */
  lemma DerivedLength(hmac: Hmac, ikm: Octets, info: Octets, length: nat)
    requires FixedLength(hmac)
    ensures Derived(hmac, ikm, info, length).Ok? <==> length <= 255 * HASH_LEN
    ensures length <= 255 * HASH_LEN ==> |Derived(hmac, ikm, info, length).octets| == length
  {
    if length <= 255 * HASH_LEN {
      StreamLength(hmac, hmac(Zeros(HASH_LEN), ikm), info, BlocksFor(length));
    }
  }

  /** A shorter output is a prefix of a longer one. */
  lemma DerivedPrefix(hmac: Hmac, ikm: Octets, info: Octets, short: nat, long: nat)
    requires FixedLength(hmac) && short <= long <= 255 * HASH_LEN
    ensures |Derived(hmac, ikm, info, long).octets| == long
    ensures Derived(hmac, ikm, info, short).octets == Derived(hmac, ikm, info, long).octets[..short]
  {
    var prk := hmac(Zeros(HASH_LEN), ikm);
    DerivedLength(hmac, ikm, info, short);
    DerivedLength(hmac, ikm, info, long);
    StreamLength(hmac, prk, info, BlocksFor(short));
    StreamLength(hmac, prk, info, BlocksFor(long));
    StreamGrows(hmac, prk, info, BlocksFor(short), BlocksFor(long));
  }

  /** Block `i` (from 0) of the stream. */
  lemma {:induction false} StreamBlock(hmac: Hmac, prk: Octets, info: Octets, n: nat, i: nat)
    requires FixedLength(hmac) && i < n <= 255
    ensures |Stream(hmac, prk, info, n)| == n * HASH_LEN
    ensures Stream(hmac, prk, info, n)[i * HASH_LEN..(i + 1) * HASH_LEN] == Block(hmac, prk, info, i + 1)
    decreases n
  {
    StreamLength(hmac, prk, info, n);
    StreamLength(hmac, prk, info, n - 1);
    if i < n - 1 {
      StreamBlock(hmac, prk, info, n - 1, i);
      assert Stream(hmac, prk, info, n)[..(n - 1) * HASH_LEN] == Stream(hmac, prk, info, n - 1);
    }
  }

  /** Octets `from` up to `to` of the output are these octets of the stream. */
  lemma DerivedSlice(hmac: Hmac, ikm: Octets, info: Octets, length: nat, from: nat, to: nat)
    requires FixedLength(hmac) && from <= to <= length <= 255 * HASH_LEN
    ensures Derived(hmac, ikm, info, length).Ok? && |Derived(hmac, ikm, info, length).octets| == length
    ensures var stream := Stream(hmac, hmac(Zeros(HASH_LEN), ikm), info, BlocksFor(length));
            |stream| >= length && Derived(hmac, ikm, info, length).octets[from..to] == stream[from..to]
  {
    DerivedLength(hmac, ikm, info, length);
    StreamLength(hmac, hmac(Zeros(HASH_LEN), ikm), info, BlocksFor(length));
  }

  /** What HMAC computes for block `i` (from 0), given the octets of the block before. */
  function NextBlock(hmac: Hmac, ikm: Octets, info: Octets, before: Octets, i: nat): Octets
    requires i < 255
  {
    hmac(hmac(seq(32, _ => 0), ikm), before + info + [i + 1])
  }

  lemma ZerosAre(n: nat)
    ensures Zeros(n) == seq(n, _ => 0)
  {
  }

  lemma BlockIs(hmac: Hmac, ikm: Octets, info: Octets, length: nat, i: nat, to: nat)
    requires FixedLength(hmac) && length <= 255 * HASH_LEN && i * HASH_LEN < to <= length && to <= (i + 1) * HASH_LEN
    ensures i < 255 && Derived(hmac, ikm, info, length).Ok? && |Derived(hmac, ikm, info, length).octets| == length
    ensures var okm := Derived(hmac, ikm, info, length).octets;
            var before := if i == 0 then [] else okm[(i - 1) * HASH_LEN..i * HASH_LEN];
            okm[i * HASH_LEN..to] == NextBlock(hmac, ikm, info, before, i)[..to - i * HASH_LEN]
  {
    var prk, n := hmac(Zeros(HASH_LEN), ikm), BlocksFor(length);
    ZerosAre(HASH_LEN);
    StreamBlock(hmac, prk, info, n, i);
    DerivedSlice(hmac, ikm, info, length, i * HASH_LEN, to);
    var block := Stream(hmac, prk, info, n)[i * HASH_LEN..(i + 1) * HASH_LEN];
    assert Stream(hmac, prk, info, n)[i * HASH_LEN..to] == block[..to - i * HASH_LEN];
    if i > 0 {
      StreamBlock(hmac, prk, info, n, i - 1);
      DerivedSlice(hmac, ikm, info, length, (i - 1) * HASH_LEN, i * HASH_LEN);
    }
  }

  /** The output, octet by octet, without the stream: the secret is extracted with 32 zero
      octets as the key; the first 32 octets are the HMAC of the info and counter 1 under it,
      every later 32 octets the HMAC of the 32 octets before, the info and the next counter,
      and the rest is the beginning of such a value. */
  lemma DerivedOctets(hmac: Hmac, ikm: Octets, info: Octets, length: nat)
    requires FixedLength(hmac) && length <= 255 * 32
    ensures Derived(hmac, ikm, info, length).Ok? && |Derived(hmac, ikm, info, length).octets| == length
    ensures var okm, prk := Derived(hmac, ikm, info, length).octets, hmac(seq(32, _ => 0), ikm);
            && (length <= 32 ==> okm == hmac(prk, info + [1])[..length])
            && (length >= 32 ==> okm[..32] == hmac(prk, info + [1]))
            && (forall i :: 1 <= i && 32 * i + 32 <= length ==>
                  okm[32 * i..32 * i + 32] == hmac(prk, okm[32 * i - 32..32 * i] + info + [i + 1]))
            && var i := length / 32;
               length > 32 && length % 32 != 0 ==>
                 okm[32 * i..] == hmac(prk, okm[32 * i - 32..32 * i] + info + [i + 1])[..length % 32]
  {
    DerivedLength(hmac, ikm, info, length);
    var okm, prk := Derived(hmac, ikm, info, length).octets, hmac(seq(32, _ => 0), ikm);
    assert [] + info == info;
    if 0 < length {
      BlockIs(hmac, ikm, info, length, 0, if length <= 32 then length else 32);
      assert okm[0..if length <= 32 then length else 32] == okm[..if length <= 32 then length else 32];
      assert length <= 32 ==> okm[..length] == okm;
    }
    forall i | 1 <= i && 32 * i + 32 <= length
      ensures okm[32 * i..32 * i + 32] == hmac(prk, okm[32 * i - 32..32 * i] + info + [i + 1])
    {
      BlockIs(hmac, ikm, info, length, i, 32 * i + 32);
    }
    if length > 32 && length % 32 != 0 {
      BlockIs(hmac, ikm, info, length, length / 32, length);
    }
  }

  function AesKey(hmac: Hmac, shared: Octets): Result {
    Derived(hmac, shared, [], 16)
  }

  /** The session key: the first half of one HMAC. */
  lemma AesKeyIs(hmac: Hmac, shared: Octets)
    requires FixedLength(hmac)
    ensures AesKey(hmac, shared) == Ok(hmac(hmac(seq(32, _ => 0), shared), [1])[..16])
  {
    DerivedOctets(hmac, shared, [], 16);
    assert [] + [1] == [1];
  }

  /** The whole exchange: both sides end with the same 16-octet key. */
  lemma {:induction false} BothSidesDeriveTheSameKey(hmac: Hmac, a: nat, b: nat)
    requires FixedLength(hmac)
    ensures AesKey(hmac, SharedSecret(a, Public(b))) == AesKey(hmac, SharedSecret(b, Public(a)))
    ensures AesKey(hmac, SharedSecret(a, Public(b))).Ok? && |AesKey(hmac, SharedSecret(a, Public(b))).octets| == 16
    ensures AesKey(hmac, SharedSecret(a, Public(b))).octets
         == hmac(hmac(seq(32, _ => 0), SharedSecret(a, Public(b))), [1])[..16]
  {
    BothSidesAgree(a, b, 0);
    DerivedLength(hmac, SharedSecret(a, Public(b)), [], 16);
    AesKeyIs(hmac, SharedSecret(a, Public(b)));
  }
}
