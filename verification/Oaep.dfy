/** The answer to the challenge of a desktop connection: a message of one octet in the encoding of section 7.1.1 of
    RFC 8017, raised to the challenge's public key. The hash and the modular power are parameters. */
module Oaep {
  import opened Octets

  type octets = seq<byte>

  const HASH_LENGTH := 20
  const KEY_LENGTH := 128
  const BLOCK_LENGTH := KEY_LENGTH - HASH_LENGTH - 1

  type Hash = h: octets -> octets | forall s :: |h(s)| == HASH_LENGTH witness (s: octets) => seq(HASH_LENGTH, _ => 0)

  // ---- Numbers and octets (section 4 of RFC 8017) ----

  function Pow256(k: nat): (r: nat)
    ensures r > 0
  {
    if k == 0 then 1 else 0x100 * Pow256(k - 1)
  }

  function I2OSP(n: nat, k: nat): (r: octets)
    ensures |r| == k
    decreases k
  {
    if k == 0 then [] else I2OSP(n / 0x100, k - 1) + [n % 0x100]
  }

  function OS2IP(s: octets): nat {
    if s == [] then 0 else 0x100 * OS2IP(s[..|s| - 1]) + s[|s| - 1]
  }

  /** The first octet counts most. */
  lemma {:induction false} BigEndian(s: octets)
    requires s != []
    ensures OS2IP(s) == s[0] as int * Pow256(|s| - 1) + OS2IP(s[1..])
  {
    if |s| > 1 {
      var init, last := s[..|s| - 1], s[|s| - 1] as int;
      BigEndian(init);
      assert s[1..][..|s| - 2] == init[1..] && s[1..][|s| - 2] == last;
      assert Pow256(|s| - 1) == 0x100 * Pow256(|s| - 2);
      assert OS2IP(s) == 0x100 * (s[0] as int * Pow256(|s| - 2) + OS2IP(init[1..])) + last;
    }
  }

  lemma {:induction false} NumberRoundTrip(n: nat, k: nat)
    requires n < Pow256(k)
    ensures OS2IP(I2OSP(n, k)) == n
    decreases k
  {
    if k > 0 {
      var high, low := n / 0x100, n % 0x100;
      NumberRoundTrip(high, k - 1);
      var s := I2OSP(n, k);
      assert s[..k - 1] == I2OSP(high, k - 1) && s[k - 1] == low;
      assert OS2IP(s) == 0x100 * OS2IP(s[..k - 1]) + s[k - 1];
    }
  }

  /** The shortest octets of a number. */
  function Bytes(n: nat): octets {
    if n == 0 then [] else Bytes(n / 0x100) + [n % 0x100]
  }

  function Zeros(k: nat): (r: octets)
    ensures |r| == k
  {
    seq(k, _ => 0)
  }

  /** Right-aligning the shortest octets gives the octets of fixed length. */
  lemma {:induction false} PaddedBytes(n: nat, k: nat)
    requires n < Pow256(k)
    ensures |Bytes(n)| <= k && Zeros(k - |Bytes(n)|) + Bytes(n) == I2OSP(n, k)
    decreases k
  {
    if k > 0 {
      PaddedBytes(n / 0x100, k - 1);
      if n == 0 {
        assert Bytes(n / 0x100) == [];
        assert Zeros(k) == Zeros(k - 1) + [0];
      }
    }
  }

  // ---- The mask generation function (section B.2.1 of RFC 8017) ----

  const COUNTERS := 0x1_0000_0000

  function Wrap(n: nat): nat {
    n % COUNTERS
  }

  function HashOf(hash: Hash, seed: octets, counter: nat): (r: octets)
    ensures |r| == HASH_LENGTH
  {
    hash(seed + I2OSP(counter, 4))
  }

  /** The block of hash output with number `i`; the counter has 32 bits. */
  function HashBlock(hash: Hash, seed: octets, i: nat): (r: octets)
    ensures |r| == HASH_LENGTH
  {
    HashOf(hash, seed, Wrap(i))
  }

  function Stream(hash: Hash, seed: octets, blocks: nat): (r: octets)
    ensures |r| == HASH_LENGTH * blocks
  {
    if blocks == 0 then [] else Stream(hash, seed, blocks - 1) + HashBlock(hash, seed, blocks - 1)
  }

  function Blocks(n: nat): (r: nat)
    ensures HASH_LENGTH * r >= n > HASH_LENGTH * (r - 1)
  {
    (n + HASH_LENGTH - 1) / HASH_LENGTH
  }

  function Mask(hash: Hash, seed: octets, n: nat): (r: octets)
    ensures |r| == n
  {
    Stream(hash, seed, Blocks(n))[..n]
  }

  method Mgf(hash: Hash, seed: octets, n: nat) returns (out: octets)
    ensures out == Mask(hash, seed, n)
  {
    hide HashOf, Blocks, Wrap;
    out := [];
    var i := Wrap(0);
    ghost var blocks := 0;
    while |out| < n
      invariant out == Stream(hash, seed, blocks) && i == Wrap(blocks)
      invariant blocks <= Blocks(n)
      decreases Blocks(n) - blocks
    {
      out := out + HashOf(hash, seed, i);
      NextCounter(blocks, i);
      i := Wrap(i + 1);
      blocks := blocks + 1;
    }
    LastBlock(n, blocks);
    out := out[..n];
  }

  lemma LastBlock(n: nat, blocks: nat)
    requires n <= HASH_LENGTH * blocks && blocks <= Blocks(n)
    ensures blocks == Blocks(n)
  {
  }

  lemma NextCounter(blocks: nat, i: nat)
    requires i == Wrap(blocks)
    ensures Wrap(i + 1) == Wrap(blocks + 1)
  {
  }

  lemma Position(i: nat, block: nat)
    requires HASH_LENGTH * block <= i < HASH_LENGTH * (block + 1)
    ensures i / HASH_LENGTH == block && i % HASH_LENGTH == i - HASH_LENGTH * block
  {
  }

  lemma {:induction false} StreamAt(hash: Hash, seed: octets, blocks: nat, i: nat)
    requires i < HASH_LENGTH * blocks
    ensures Stream(hash, seed, blocks)[i] == HashBlock(hash, seed, i / HASH_LENGTH)[i % HASH_LENGTH]
    decreases blocks
  {
    hide HashBlock;
    if i < HASH_LENGTH * (blocks - 1) {
      StreamAt(hash, seed, blocks - 1, i);
    } else {
      Position(i, blocks - 1);
    }
  }

  /** Every octet of a mask on its own, and so a shorter mask is a beginning of a longer one. */
  lemma MaskAt(hash: Hash, seed: octets, n: nat, i: nat)
    requires i < n
    ensures Mask(hash, seed, n)[i] == hash(seed + I2OSP((i / 20) % 0x1_0000_0000, 4))[i % 20]
  {
    hide I2OSP, Stream;
    StreamAt(hash, seed, Blocks(n), i);
    assert Mask(hash, seed, n)[i] == Stream(hash, seed, Blocks(n))[i];
  }

  lemma ShorterMask(hash: Hash, seed: octets, m: nat, n: nat)
    requires m <= n
    ensures Mask(hash, seed, m) <= Mask(hash, seed, n)
  {
    forall i | 0 <= i < m
      ensures Mask(hash, seed, m)[i] == Mask(hash, seed, n)[i]
    {
      MaskAt(hash, seed, m, i);
      MaskAt(hash, seed, n, i);
    }
  }

  // ---- The encoding (section 7.1 of RFC 8017) ----

  /** The exclusive or of the low `bits` bits. */
  function XorBits(a: nat, b: nat, bits: nat): (r: nat)
  {
    if bits == 0 then 0 else (a + b) % 2 + 2 * XorBits(a / 2, b / 2, bits - 1)
  }

  function Pow2(k: nat): nat {
    if k == 0 then 1 else 2 * Pow2(k - 1)
  }

  lemma BitTwice(a: nat, b: nat, c: nat)
    requires c % 2 == (a + b) % 2
    ensures (c + b) % 2 == a % 2
  {
  }

  lemma {:induction false} XorBitsTwice(a: nat, b: nat, bits: nat)
    requires a < Pow2(bits)
    ensures XorBits(a, b, bits) < Pow2(bits) && XorBits(XorBits(a, b, bits), b, bits) == a
    decreases bits
  {
    if bits > 0 {
      var high := XorBits(a / 2, b / 2, bits - 1);
      var c := XorBits(a, b, bits);
      assert c == (a + b) % 2 + 2 * high;
      BitTwice(a, b, c);
      XorBitsTwice(a / 2, b / 2, bits - 1);
      assert c / 2 == high;
    }
  }

  function Bit(a: nat, i: nat): nat {
    if i == 0 then a % 2 else Bit(a / 2, i - 1)
  }

  lemma LowBits(a: nat, b: nat)
    ensures (a + b) % 2 == (a % 2 + b % 2) % 2
  {
  }

  lemma Halve(low: nat, high: nat)
    ensures (low % 2 + 2 * high) % 2 == low % 2 && (low % 2 + 2 * high) / 2 == high
  {
  }

  /** Bit by bit it is the sum without carry. */
  lemma {:induction false} XorBitAt(a: nat, b: nat, bits: nat, i: nat)
    requires i < bits
    ensures Bit(XorBits(a, b, bits), i) == (Bit(a, i) + Bit(b, i)) % 2
    decreases i
  {
    Halve(a + b, XorBits(a / 2, b / 2, bits - 1));
    if i == 0 {
      LowBits(a, b);
    } else {
      XorBitAt(a / 2, b / 2, bits - 1, i - 1);
    }
  }

  function XorOctet(a: byte, b: byte): byte {
    XorBitsTwice(a, b, 8);
    XorBits(a, b, 8)
  }

  function Xor(a: octets, b: octets): (r: octets)
    requires |a| == |b|
    ensures |r| == |a| && forall i | 0 <= i < |a| :: r[i] == XorOctet(a[i], b[i])
  {
    seq(|a|, i requires 0 <= i < |a| => XorOctet(a[i], b[i]))
  }

  lemma XorTwice(a: octets, b: octets)
    requires |a| == |b|
    ensures Xor(Xor(a, b), b) == a
  {
    hide XorBits;
    forall i | 0 <= i < |a|
      ensures XorOctet(XorOctet(a[i], b[i]), b[i]) == a[i]
    {
      XorBitsTwice(a[i], b[i], 8);
    }
  }

  const LONGEST := BLOCK_LENGTH - HASH_LENGTH - 1

  /** The data block: the hash of the empty label, zeros, a one and the message. */
  function DataBlock(hash: Hash, message: octets): (r: octets)
    requires |message| <= LONGEST
    ensures |r| == BLOCK_LENGTH
  {
    hash([]) + (Zeros(LONGEST - |message|) + [1] + message)
  }

  /** Section 7.1.1, step 2. */
  function Encode(hash: Hash, message: octets, seed: octets): (r: octets)
    requires |message| <= LONGEST && |seed| == HASH_LENGTH
    ensures |r| == KEY_LENGTH
  {
    var masked := Xor(DataBlock(hash, message), Mask(hash, seed, BLOCK_LENGTH));
    [0] + Xor(seed, Mask(hash, masked, HASH_LENGTH)) + masked
  }

  datatype Decoded = Bad | Message(octets)

  /** What follows the zeros and the one. */
  function AfterOne(block: octets): Decoded {
    if block == [] then Bad
    else if block[0] == 0 then AfterOne(block[1..])
    else if block[0] == 1 then Message(block[1..])
    else Bad
  }

  function SeedOf(hash: Hash, encoded: octets): octets
    requires |encoded| == KEY_LENGTH
  {
    Xor(encoded[1..HASH_LENGTH + 1], Mask(hash, encoded[HASH_LENGTH + 1..], HASH_LENGTH))
  }

  function BlockOf(hash: Hash, encoded: octets): octets
    requires |encoded| == KEY_LENGTH
  {
    Xor(encoded[HASH_LENGTH + 1..], Mask(hash, SeedOf(hash, encoded), BLOCK_LENGTH))
  }

  /** Section 7.1.2, step 3. */
  function Decode(hash: Hash, encoded: octets): Decoded
    requires |encoded| == KEY_LENGTH
  {
    var block := BlockOf(hash, encoded);
    if encoded[0] != 0 || block[..HASH_LENGTH] != hash([]) then Bad else AfterOne(block[HASH_LENGTH..])
  }

  lemma {:induction false} SkipZeros(k: nat, message: octets)
    ensures AfterOne(Zeros(k) + [1] + message) == Message(message)
    decreases k
  {
    var block := Zeros(k) + [1] + message;
    if k == 0 {
      assert block[1..] == message;
    } else {
      SkipZeros(k - 1, message);
      assert block[1..] == Zeros(k - 1) + [1] + message;
    }
  }

  /** Unmasking recovers the seed and the data block. */
  lemma UnmaskInvertsMask(hash: Hash, message: octets, seed: octets)
    requires |message| <= LONGEST && |seed| == HASH_LENGTH
    ensures SeedOf(hash, Encode(hash, message, seed)) == seed
    ensures BlockOf(hash, Encode(hash, message, seed)) == DataBlock(hash, message)
  {
    hide DataBlock, Mask, Xor;
    var block := DataBlock(hash, message);
    var masked := Xor(block, Mask(hash, seed, BLOCK_LENGTH));
    var encoded := Encode(hash, message, seed);
    assert encoded[1..HASH_LENGTH + 1] == Xor(seed, Mask(hash, masked, HASH_LENGTH));
    assert encoded[HASH_LENGTH + 1..] == masked;
    XorTwice(seed, Mask(hash, masked, HASH_LENGTH));
    XorTwice(block, Mask(hash, seed, BLOCK_LENGTH));
  }

  lemma Halves(a: octets, b: octets)
    ensures (a + b)[..|a|] == a && (a + b)[|a|..] == b
  {
  }

  lemma BlockHoldsMessage(hash: Hash, message: octets)
    requires |message| <= LONGEST
    ensures DataBlock(hash, message)[..HASH_LENGTH] == hash([])
    ensures AfterOne(DataBlock(hash, message)[HASH_LENGTH..]) == Message(message)
  {
    hide AfterOne, Zeros;
    SkipZeros(LONGEST - |message|, message);
    Halves(hash([]), Zeros(LONGEST - |message|) + [1] + message);
  }

  /** The standard's decoding recovers the message. */
  lemma DecodeInvertsEncode(hash: Hash, message: octets, seed: octets)
    requires |message| <= LONGEST && |seed| == HASH_LENGTH
    ensures Decode(hash, Encode(hash, message, seed)) == Message(message)
  {
    hide AfterOne, BlockOf, DataBlock, Mask, Xor;
    UnmaskInvertsMask(hash, message, seed);
    BlockHoldsMessage(hash, message);
  }

  // ---- The answer ----

  /** `Panic` stands for a power too long for the reply. */
  datatype Reply = Invalid | Panic | Reply(octets)

  method XorInto(a: array<byte>, mask: octets)
    requires |mask| == a.Length
    modifies a
    ensures a[..] == Xor(old(a[..]), mask)
  {
    for i := 0 to a.Length
      invariant a[..i] == Xor(old(a[..i]), mask[..i]) && a[i..] == old(a[i..])
    {
      a[i] := XorOctet(a[i], mask[i]);
    }
    assert a[..] == a[..a.Length] && old(a[..]) == old(a[..a.Length]) && mask == mask[..a.Length];
  }

  /** The block that the answer encrypts, filled in place. */
  method EncodedBlock(hash: Hash, random: octets) returns (em: octets)
    requires |random| == HASH_LENGTH
    ensures em == Encode(hash, [0], random)
  {
    hide Mask;
    var seed := new byte[HASH_LENGTH](i requires 0 <= i < HASH_LENGTH => random[i]);
    var digest := hash([]);
    var db := new byte[BLOCK_LENGTH](i requires 0 <= i < BLOCK_LENGTH => if i < HASH_LENGTH then digest[i] else 0);
    db[BLOCK_LENGTH - 2] := 1;
    assert seed[..] == random;
    assert db[..] == DataBlock(hash, [0]);
    var mask := Mgf(hash, seed[..], BLOCK_LENGTH);
    XorInto(db, mask);
    mask := Mgf(hash, db[..], HASH_LENGTH);
    XorInto(seed, mask);
    em := [0] + seed[..] + db[..];
  }

  predicate Answerable(ch: octets) {
    |ch| >= 182 && Challenge(ch)
  }

  /** A one in four octets and zeros, overwritten from the right. */
  function RightAligned(bytes: octets): (r: octets)
    requires |bytes| <= KEY_LENGTH + 4
    ensures |r| == KEY_LENGTH + 4
  {
    ([1, 0, 0, 0] + Zeros(KEY_LENGTH))[..KEY_LENGTH + 4 - |bytes|] + bytes
  }

  lemma RightAlignedNumber(n: nat)
    requires n < Pow256(KEY_LENGTH + 1)
    ensures |Bytes(n)| <= KEY_LENGTH + 1 && RightAligned(Bytes(n)) == [1, 0, 0] + I2OSP(n, KEY_LENGTH + 1)
  {
    hide Pow256, I2OSP, Bytes;
    PaddedBytes(n, KEY_LENGTH + 1);
    assert RightAligned(Bytes(n)) == [1, 0, 0] + (Zeros(KEY_LENGTH + 1 - |Bytes(n)|) + Bytes(n));
  }

  /** A number has at most `k` octets exactly when it is below 256 to the power `k`. */
  lemma {:induction false} LengthIff(n: nat, k: nat)
    ensures |Bytes(n)| <= k <==> n < Pow256(k)
    decreases k
  {
    if k > 0 {
      LengthIff(n / 0x100, k - 1);
    }
  }

  lemma PowersGrow()
    ensures Pow256(KEY_LENGTH + 1) <= Pow256(KEY_LENGTH + 4)
  {
    assert Pow256(KEY_LENGTH + 4) == 0x100 * Pow256(KEY_LENGTH + 3);
    assert Pow256(KEY_LENGTH + 3) == 0x100 * Pow256(KEY_LENGTH + 2);
    assert Pow256(KEY_LENGTH + 2) == 0x100 * Pow256(KEY_LENGTH + 1);
  }

  /** The modulus has 129 octets, and so has every power that is reduced by it: the reply is a one, two zeros and the
      power at that length. Only a power of more than 132 octets, which takes a modulus of zero, does not fit. */
  method Redq(ch: octets, random: octets, hash: Hash, power: (nat, nat, nat) -> nat) returns (reply: Reply)
    requires |random| == HASH_LENGTH
    ensures reply == Invalid <==> |ch| < 182 || ch[..4] != [0x52, 0x45, 0x44, 0x51]
    ensures reply != Invalid ==>
      var cipher := power(OS2IP(Encode(hash, [0], random)), OS2IP(ch[179..182]), OS2IP(ch[48..177]));
      && (reply == Panic <==> cipher >= Pow256(KEY_LENGTH + 4))
      && (cipher < Pow256(KEY_LENGTH + 1) ==> reply == Reply([1, 0, 0] + I2OSP(cipher, KEY_LENGTH + 1)))
  {
    hide Pow256, I2OSP, OS2IP, Bytes, Encode, RightAligned;
    if !Answerable(ch) {
      return Invalid;
    }
    var em := EncodedBlock(hash, random);
    var cipher := power(OS2IP(em), OS2IP(ch[179..182]), OS2IP(ch[48..177]));
    var bytes := Bytes(cipher);
    LengthIff(cipher, KEY_LENGTH + 4);
    PowersGrow();
    if |bytes| > KEY_LENGTH + 4 {
      return Panic;
    }
    if cipher < Pow256(KEY_LENGTH + 1) {
      RightAlignedNumber(cipher);
    }
    reply := Reply(RightAligned(bytes));
  }

  lemma {:induction false} ValueBelow(s: octets)
    ensures OS2IP(s) < Pow256(|s|)
  {
    if s != [] {
      ValueBelow(s[..|s| - 1]);
    }
  }

  /** A power that is reduced by the challenge's modulus always fits. */
  lemma ReducedFits(ch: octets, cipher: nat)
    requires |ch| >= 177 && cipher < OS2IP(ch[48..177])
    ensures cipher < Pow256(KEY_LENGTH + 1)
  {
    hide Pow256, OS2IP;
    ValueBelow(ch[48..177]);
  }

  /** The receiver of an answer: whoever can undo the power gets back a block that decodes to the octet zero. */
  lemma AnswerDecodes(hash: Hash, random: octets, cipher: nat, undo: nat -> nat)
    requires |random| == HASH_LENGTH
    ensures var reply := [1, 0, 0] + I2OSP(cipher, KEY_LENGTH + 1);
            cipher < Pow256(KEY_LENGTH + 1) && undo(cipher) == OS2IP(Encode(hash, [0], random)) ==>
              Decode(hash, I2OSP(undo(OS2IP(reply[3..])), KEY_LENGTH)) == Message([0])
  {
    hide Pow256, I2OSP, OS2IP, Encode, Decode;
    var reply := [1, 0, 0] + I2OSP(cipher, KEY_LENGTH + 1);
    assert reply[3..] == I2OSP(cipher, KEY_LENGTH + 1);
    if cipher < Pow256(KEY_LENGTH + 1) {
      NumberRoundTrip(cipher, KEY_LENGTH + 1);
    }
    DecodeInvertsEncode(hash, [0], random);
    OctetsRoundTrip(Encode(hash, [0], random));
  }

  lemma {:induction false} OctetsRoundTrip(s: octets)
    ensures I2OSP(OS2IP(s), |s|) == s
  {
    if s != [] {
      var init, last := s[..|s| - 1], s[|s| - 1];
      OctetsRoundTrip(init);
      assert OS2IP(s) / 0x100 == OS2IP(init) && OS2IP(s) % 0x100 == last;
      assert s == init + [last];
    }
  }
}
