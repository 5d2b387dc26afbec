/** SHA-256 as engine/src/util/sha256.cpp computes it, against FIPS 180-4: the
    padding of section 5.1.1, the blocks of section 5.2.1 and the computation
    of section 6.2.2. */
module Sha256 {

  // A 32-bit word, and its bits.
  type Word = w: int | 0 <= w < 0x1_0000_0000

  function Bits(w: Word): bv32 { w as bv32 }

  function WordOf(b: bv32): Word { b as int }

  type Byte = b: int | 0 <= b < 256

  // ----- FIPS 180-4 ---------------------------------------------------------

  // The constants of section 4.2.2, eight to a row.
  function ConstantRow(row: nat): (words: seq<Word>)
    requires row < 8
    ensures |words| == 8
  {
    if row == 0 then [0x428a2f98, 0x71374491, 0xb5c0fbcf, 0xe9b5dba5, 0x3956c25b, 0x59f111f1, 0x923f82a4, 0xab1c5ed5]
    else if row == 1 then [0xd807aa98, 0x12835b01, 0x243185be, 0x550c7dc3, 0x72be5d74, 0x80deb1fe, 0x9bdc06a7, 0xc19bf174]
    else if row == 2 then [0xe49b69c1, 0xefbe4786, 0x0fc19dc6, 0x240ca1cc, 0x2de92c6f, 0x4a7484aa, 0x5cb0a9dc, 0x76f988da]
    else if row == 3 then [0x983e5152, 0xa831c66d, 0xb00327c8, 0xbf597fc7, 0xc6e00bf3, 0xd5a79147, 0x06ca6351, 0x14292967]
    else if row == 4 then [0x27b70a85, 0x2e1b2138, 0x4d2c6dfc, 0x53380d13, 0x650a7354, 0x766a0abb, 0x81c2c92e, 0x92722c85]
    else if row == 5 then [0xa2bfe8a1, 0xa81a664b, 0xc24b8b70, 0xc76c51a3, 0xd192e819, 0xd6990624, 0xf40e3585, 0x106aa070]
    else if row == 6 then [0x19a4c116, 0x1e376c08, 0x2748774c, 0x34b0bcb5, 0x391c0cb3, 0x4ed8aa4a, 0x5b9cca4f, 0x682e6ff3]
    else [0x748f82ee, 0x78a5636f, 0x84c87814, 0x8cc70208, 0x90befffa, 0xa4506ceb, 0xbef9a3f7, 0xc67178f2]
  }

  function Constant(t: nat): Word
    requires t < 64
  {
    ConstantRow(t / 8)[t % 8]
  }

  // Addition modulo 2^32.
  function Plus(x: Word, y: Word): Word { (x + y) % 0x1_0000_0000 }

  // The functions of section 4.1.2.
  function ChBits(x: bv32, y: bv32, z: bv32): bv32 { (x & y) ^ (!x & z) }

  function MajBits(x: bv32, y: bv32, z: bv32): bv32 { (x & y) ^ (x & z) ^ (y & z) }

  function Ch(x: Word, y: Word, z: Word): Word { WordOf(ChBits(Bits(x), Bits(y), Bits(z))) }

  function Maj(x: Word, y: Word, z: Word): Word { WordOf(MajBits(Bits(x), Bits(y), Bits(z))) }

  function Xor(x: bv32, y: bv32, z: bv32): bv32 { x ^ y ^ z }

  function BigSigma0Bits(x: bv32): bv32 { Xor(x.RotateRight(2), x.RotateRight(13), x.RotateRight(22)) }

  function BigSigma1Bits(x: bv32): bv32 { Xor(x.RotateRight(6), x.RotateRight(11), x.RotateRight(25)) }

  function SmallSigma0Bits(x: bv32): bv32 { Xor(x.RotateRight(7), x.RotateRight(18), x >> 3) }

  function SmallSigma1Bits(x: bv32): bv32 { Xor(x.RotateRight(17), x.RotateRight(19), x >> 10) }

  function BigSigma0(x: Word): Word { WordOf(BigSigma0Bits(Bits(x))) }

  function BigSigma1(x: Word): Word { WordOf(BigSigma1Bits(Bits(x))) }

  function SmallSigma0(x: Word): Word { WordOf(SmallSigma0Bits(Bits(x))) }

  function SmallSigma1(x: Word): Word { WordOf(SmallSigma1Bits(Bits(x))) }

  type Block = b: seq<Byte> | |b| == 64 witness seq(64, i => 0)

  // Eight words: the working variables, and a hash value.
  datatype Eight = Eight(a: Word, b: Word, c: Word, d: Word, e: Word, f: Word, g: Word, h: Word)

  function Joined(b0: bv32, b1: bv32, b2: bv32, b3: bv32): bv32 {
    (b0 << 24) | (b1 << 16) | (b2 << 8) | b3
  }

  function BigEndian(b0: Byte, b1: Byte, b2: Byte, b3: Byte): Word {
    WordOf(Joined(Bits(b0), Bits(b1), Bits(b2), Bits(b3)))
  }

  // Section 6.2.2, step 1: word t of the message schedule.
  function Schedule(block: Block, t: nat): Word {
    if t < 16 then BigEndian(block[4 * t], block[4 * t + 1], block[4 * t + 2], block[4 * t + 3])
    else
      Plus(Plus(Plus(SmallSigma1(Schedule(block, t - 2)), Schedule(block, t - 7)), SmallSigma0(Schedule(block, t - 15))),
           Schedule(block, t - 16))
  }

  // Section 6.2.2, step 3: the working variables after t rounds.
  function RoundOf(v: Eight, k: Word, w: Word): Eight {
    var t1 := Plus(Plus(Plus(Plus(v.h, BigSigma1(v.e)), Ch(v.e, v.f, v.g)), k), w);
    var t2 := Plus(BigSigma0(v.a), Maj(v.a, v.b, v.c));
    Eight(Plus(t1, t2), v.a, v.b, v.c, Plus(v.d, t1), v.e, v.f, v.g)
  }

  function Rounds(hash: Eight, block: Block, t: nat): Eight
    requires t <= 64
  {
    if t == 0 then hash else RoundOf(Rounds(hash, block, t - 1), Constant(t - 1), Schedule(block, t - 1))
  }

  // Section 6.2.2, step 4: the next hash value.
  function Compressed(hash: Eight, block: Block): Eight {
    var v := Rounds(hash, block, 64);
    Eight(Plus(v.a, hash.a), Plus(v.b, hash.b), Plus(v.c, hash.c), Plus(v.d, hash.d),
          Plus(v.e, hash.e), Plus(v.f, hash.f), Plus(v.g, hash.g), Plus(v.h, hash.h))
  }

  // Section 5.3.3.
  const INITIAL_HASH := Eight(0x6a09e667, 0xbb67ae85, 0x3c6ef372, 0xa54ff53a, 0x510e527f, 0x9b05688c, 0x1f83d9ab, 0x5be0cd19)

  // The 64-bit block holding a number, its highest byte first.
  function LengthBytes(n: nat): seq<Byte> {
    [n / 0x100_0000_0000_0000 % 256, n / 0x1_0000_0000_0000 % 256, n / 0x100_0000_0000 % 256, n / 0x1_0000_0000 % 256,
     n / 0x100_0000 % 256, n / 0x1_0000 % 256, n / 0x100 % 256, n % 256]
  }

  function Zeros(n: nat): seq<Byte> {
    seq(n, i => 0)
  }

  // The least number of zero bytes that fills the last block.
  function ZeroCount(length: nat): (k: nat)
    ensures (length + 1 + k + 8) % 64 == 0 && k < 64
  {
    (119 - length % 64) % 64
  }

  // Section 5.1.1, of a message of whole bytes.
  function Padded(message: seq<Byte>): (p: seq<Byte>)
    ensures |p| % 64 == 0
  {
    message + [0x80] + Zeros(ZeroCount(|message|)) + LengthBytes(8 * |message|)
  }

  // Section 5.2.1, and section 6.2.2 over all the blocks.
  function Hashed(hash: Eight, padded: seq<Byte>): Eight
    decreases |padded|
  {
    if |padded| < 64 then hash else Hashed(Compressed(hash, padded[..64]), padded[64..])
  }

  // ----- the program --------------------------------------------------------

  function Rotr(value: bv32, bits: nat): bv32
    requires 0 < bits < 32
  {
    (value >> bits) | (value << (32 - bits))
  }

  function MixedBits(x: bv32, i: nat, j: nat, k: nat): bv32
    requires 0 < i < 32 && 0 < j < 32 && 0 < k < 32
  {
    Xor(Rotr(x, i), Rotr(x, j), Rotr(x, k))
  }

  function DrawnBits(x: bv32, i: nat, j: nat, k: nat): bv32
    requires 0 < i < 32 && 0 < j < 32 && 0 < k < 32
  {
    Xor(Rotr(x, i), Rotr(x, j), x >> k)
  }

  // The shifts are rotations.
  lemma Rotates(x: bv32)
    ensures Rotr(x, 2) == x.RotateRight(2) && Rotr(x, 13) == x.RotateRight(13) && Rotr(x, 22) == x.RotateRight(22)
    ensures Rotr(x, 6) == x.RotateRight(6) && Rotr(x, 11) == x.RotateRight(11) && Rotr(x, 25) == x.RotateRight(25)
    ensures Rotr(x, 7) == x.RotateRight(7) && Rotr(x, 18) == x.RotateRight(18)
    ensures Rotr(x, 17) == x.RotateRight(17) && Rotr(x, 19) == x.RotateRight(19)
  {
  }

  lemma BigRotates(x: bv32)
    ensures MixedBits(x, 2, 13, 22) == BigSigma0Bits(x) && MixedBits(x, 6, 11, 25) == BigSigma1Bits(x)
  {
    Rotates(x);
    hide Rotr, Xor;
  }

  lemma SmallRotates(x: bv32)
    ensures DrawnBits(x, 7, 18, 3) == SmallSigma0Bits(x) && DrawnBits(x, 17, 19, 10) == SmallSigma1Bits(x)
  {
    Rotates(x);
    hide Rotr, Xor;
  }

  // A word mixed with two or three rotations of itself, as the loops do it.
  function Mixed(x: Word, i: nat, j: nat, k: nat): Word
    requires 0 < i < 32 && 0 < j < 32 && 0 < k < 32
  {
    WordOf(MixedBits(Bits(x), i, j, k))
  }

  function Drawn(x: Word, i: nat, j: nat, k: nat): Word
    requires 0 < i < 32 && 0 < j < 32 && 0 < k < 32
  {
    WordOf(DrawnBits(Bits(x), i, j, k))
  }

  lemma MixedAre(x: Word)
    ensures Mixed(x, 2, 13, 22) == BigSigma0(x) && Mixed(x, 6, 11, 25) == BigSigma1(x)
    ensures Drawn(x, 7, 18, 3) == SmallSigma0(x) && Drawn(x, 17, 19, 10) == SmallSigma1(x)
  {
    BigRotates(Bits(x));
    SmallRotates(Bits(x));
    hide MixedBits, DrawnBits, BigSigma0Bits, BigSigma1Bits, SmallSigma0Bits, SmallSigma1Bits, WordOf, Bits;
  }

  // Ch takes each bit from y or z as x's says.
  lemma BitsChosen(x: bv32, y: bv32, z: bv32)
    ensures ChBits(x, y, z) & x == y & x
    ensures ChBits(x, y, z) & !x == z & !x
  {
  }

  lemma Xored(x: bv32, y: bv32, z: bv32)
    ensures Xor(x, y, z) == (x & y & z) | (x & !y & !z) | (!x & y & !z) | (!x & !y & z)
  {
  }

  // Maj takes the bit two of the three have.
  lemma BitsByMajority(x: bv32, y: bv32, z: bv32)
    ensures MajBits(x, y, z) == (x & y) | (z & (x | y))
  {
  }

  // The bytes joined are there, the first one highest.
  lemma BytesBack(b0: bv32, b1: bv32, b2: bv32, b3: bv32)
    requires b0 < 0x100 && b1 < 0x100 && b2 < 0x100 && b3 < 0x100
    ensures var joined := Joined(b0, b1, b2, b3);
      joined >> 24 == b0 && (joined >> 16) & 0xff == b1 && (joined >> 8) & 0xff == b2 && joined & 0xff == b3
  {
  }

  lemma Carry(x: Word, y: Word)
    ensures Plus(x, y) == if x + y < 0x1_0000_0000 then x + y else x + y - 0x1_0000_0000
  {
  }

  lemma AnyOrder(a: Word, b: Word, c: Word, d: Word)
    ensures Plus(Plus(Plus(a, b), c), d) == Plus(Plus(Plus(d, c), b), a)
  {
    Carry(a, b);
    Carry(Plus(a, b), c);
    Carry(Plus(Plus(a, b), c), d);
    Carry(d, c);
    Carry(Plus(d, c), b);
    Carry(Plus(Plus(d, c), b), a);
    hide Plus;
  }

  lemma EitherWay(a: Word, b: Word)
    ensures Plus(a, b) == Plus(b, a)
  {
  }

  method MakeSchedule(block: Block) returns (schedule: array<Word>)
    ensures fresh(schedule) && schedule.Length == 64 && forall t :: 0 <= t < 64 ==> schedule[t] == Schedule(block, t)
  {
    hide BigEndian, SmallSigma0, SmallSigma1, BigSigma0, BigSigma1, Mixed, Drawn, Plus;
    schedule := new Word[64];
    for i := 0 to 16
      invariant forall t :: 0 <= t < i ==> schedule[t] == Schedule(block, t)
    {
      schedule[i] := BigEndian(block[4 * i], block[4 * i + 1], block[4 * i + 2], block[4 * i + 3]);
    }
    for i := 16 to 64
      invariant forall t :: 0 <= t < i ==> schedule[t] == Schedule(block, t)
    {
      MixedAre(schedule[i - 15]);
      MixedAre(schedule[i - 2]);
      var s0 := Drawn(schedule[i - 15], 7, 18, 3);
      var s1 := Drawn(schedule[i - 2], 17, 19, 10);
      AnyOrder(schedule[i - 16], s0, schedule[i - 7], s1);
      schedule[i] := Plus(Plus(Plus(schedule[i - 16], s0), schedule[i - 7]), s1);
    }
  }

  function Of(state: seq<Word>): Eight
    requires |state| == 8
  {
    Eight(state[0], state[1], state[2], state[3], state[4], state[5], state[6], state[7])
  }

  method RunRounds(hash: Eight, block: Block, schedule: array<Word>) returns (v: Eight)
    requires schedule.Length == 64 && forall t :: 0 <= t < 64 ==> schedule[t] == Schedule(block, t)
    ensures v == Rounds(hash, block, 64)
  {
    hide Schedule, BigSigma0, BigSigma1, SmallSigma0, SmallSigma1, Mixed, Drawn, Ch, Maj, Plus, Constant;
    var a, b, c, d := hash.a, hash.b, hash.c, hash.d;
    var e, f, g, h := hash.e, hash.f, hash.g, hash.h;
    for i := 0 to 64
      invariant Eight(a, b, c, d, e, f, g, h) == Rounds(hash, block, i)
    {
      MixedAre(e);
      MixedAre(a);
      var s1 := Mixed(e, 6, 11, 25);
      var ch := Ch(e, f, g);
      var temp1 := Plus(Plus(Plus(Plus(h, s1), ch), Constant(i)), schedule[i]);
      var s0 := Mixed(a, 2, 13, 22);
      var maj := Maj(a, b, c);
      var temp2 := Plus(s0, maj);
      h := g;
      g := f;
      f := e;
      e := Plus(d, temp1);
      d := c;
      c := b;
      b := a;
      a := Plus(temp1, temp2);
    }
    return Eight(a, b, c, d, e, f, g, h);
  }

  lemma AddedEitherWay(hash: Eight, v: Eight)
    ensures Eight(Plus(v.a, hash.a), Plus(v.b, hash.b), Plus(v.c, hash.c), Plus(v.d, hash.d),
                  Plus(v.e, hash.e), Plus(v.f, hash.f), Plus(v.g, hash.g), Plus(v.h, hash.h))
      == Eight(Plus(hash.a, v.a), Plus(hash.b, v.b), Plus(hash.c, v.c), Plus(hash.d, v.d),
               Plus(hash.e, v.e), Plus(hash.f, v.f), Plus(hash.g, v.g), Plus(hash.h, v.h))
  {
    hide Plus;
    EitherWay(v.a, hash.a);
    EitherWay(v.b, hash.b);
    EitherWay(v.c, hash.c);
    EitherWay(v.d, hash.d);
    EitherWay(v.e, hash.e);
    EitherWay(v.f, hash.f);
    EitherWay(v.g, hash.g);
    EitherWay(v.h, hash.h);
  }

  method CompressBlock(state: array<Word>, block: Block)
    requires state.Length == 8
    modifies state
    ensures Of(state[..]) == Compressed(old(Of(state[..])), block)
  {
    hide Rounds, Schedule, Plus;
    ghost var was := Of(state[..]);
    var schedule := MakeSchedule(block);
    var v := RunRounds(Of(state[..]), block, schedule);
    AddedEitherWay(was, v);
    state[0] := Plus(state[0], v.a);
    state[1] := Plus(state[1], v.b);
    state[2] := Plus(state[2], v.c);
    state[3] := Plus(state[3], v.d);
    state[4] := Plus(state[4], v.e);
    state[5] := Plus(state[5], v.f);
    state[6] := Plus(state[6], v.g);
    state[7] := Plus(state[7], v.h);
  }

  lemma {:induction false} HashedMore(hash: Eight, padded: seq<Byte>, block: Block)
    requires |padded| % 64 == 0
    ensures Hashed(hash, padded + block) == Compressed(Hashed(hash, padded), block)
    decreases |padded|
  {
    hide Compressed;
    if padded == [] {
      assert padded + block == block && block[..64] == block && block[64..] == [];
    } else {
      assert (padded + block)[..64] == padded[..64] && (padded + block)[64..] == padded[64..] + block;
      HashedMore(Compressed(hash, padded[..64]), padded[64..], block);
    }
  }

  // The last one or two blocks: what is left of the data, the terminator,
  // zeros and the bit count, its lowest byte last.
  function Tail(data: seq<Byte>): seq<Byte> {
    Padded(data)[|data| / 64 * 64..]
  }

  // The low byte after shifting out i bytes.
  function Shifted(n: nat, i: nat): Byte
    requires i < 8
  {
    n / (if i == 0 then 1 else if i == 1 then 0x100 else if i == 2 then 0x1_0000 else if i == 3 then 0x100_0000
         else if i == 4 then 0x1_0000_0000 else if i == 5 then 0x100_0000_0000 else if i == 6 then 0x1_0000_0000_0000
         else 0x100_0000_0000_0000) % 256
  }

  lemma ByteAt(n: nat, i: nat)
    requires i < 8
    ensures |LengthBytes(n)| == 8 && LengthBytes(n)[7 - i] == Shifted(n, i)
  {
  }

  lemma PaddedAt(data: seq<Byte>, j: nat)
    requires j < |Padded(data)|
    ensures Padded(data)[j] ==
      if j < |data| then data[j] else if j == |data| then 0x80 else if j < |Padded(data)| - 8 then 0
      else LengthBytes(8 * |data|)[j - (|Padded(data)| - 8)]
  {
  }

  lemma TailSize(data: seq<Byte>)
    ensures |Padded(data)| == |data| / 64 * 64 + if |data| % 64 < 56 then 64 else 128
  {
    RoomFor(|data|);
    hide ZeroCount;
  }

  lemma RoomFor(length: nat)
    ensures length + 1 + ZeroCount(length) + 8 == length / 64 * 64 + if length % 64 < 56 then 64 else 128
  {
    assert length == length / 64 * 64 + length % 64;
  }

  method MakeTail(data: seq<Byte>, offset: nat) returns (tail: array<Byte>, tailBlocks: nat)
    requires offset == |data| / 64 * 64 && 8 * |data| < 0x1_0000_0000_0000_0000
    ensures fresh(tail) && tail.Length == 128 && 1 <= tailBlocks <= 2 && tail[..tailBlocks * 64] == Tail(data)
  {
    tail := new Byte[128](i => 0);
    var remaining := |data| - offset;
    for i := 0 to remaining
      invariant forall j :: 0 <= j < i ==> tail[j] == data[offset + j]
      invariant forall j :: i <= j < 128 ==> tail[j] == 0
    {
      tail[i] := data[offset + i];
    }
    tail[remaining] := 0x80;
    tailBlocks := if remaining < 56 then 1 else 2;
    var bitCount := |data| * 8;
    var end := tailBlocks * 64;
    for i := 0 to 8
      invariant forall j :: 0 <= j < remaining ==> tail[j] == data[offset + j]
      invariant tail[remaining] == 0x80
      invariant forall j :: remaining < j < end - i ==> tail[j] == 0
      invariant forall j :: end - i <= j < end ==> tail[j] == LengthBytes(bitCount)[j - (end - 8)]
    {
      ByteAt(bitCount, i);
      hide LengthBytes, Shifted;
      tail[end - 1 - i] := Shifted(bitCount, i);
    }
    TailIs(data, offset, end, tail[..end]);
  }

  lemma TailIs(data: seq<Byte>, offset: nat, end: nat, tail: seq<Byte>)
    requires offset == |data| / 64 * 64 && |tail| == end == if |data| - offset < 56 then 64 else 128
    requires forall j :: 0 <= j < |data| - offset ==> tail[j] == data[offset + j]
    requires tail[|data| - offset] == 0x80
    requires forall j :: |data| - offset < j < end - 8 ==> tail[j] == 0
    requires forall j :: end - 8 <= j < end ==> tail[j] == LengthBytes(8 * |data|)[j - (end - 8)]
    ensures tail == Tail(data)
  {
    TailSize(data);
    forall j | 0 <= j < end ensures tail[j] == Tail(data)[j] {
      PaddedAt(data, offset + j);
    }
  }

  method WholeBlocks(state: array<Word>, data: seq<Byte>) returns (offset: nat)
    requires state.Length == 8
    modifies state
    ensures offset == |data| / 64 * 64 && Of(state[..]) == Hashed(old(Of(state[..])), data[..offset])
  {
    hide *;
    offset := 0;
    ghost var start := Of(state[..]);
    ghost var n: nat := 0;
    NoBlocks(start);
    assert data[..0] == [];
    while offset + 64 <= |data|
      invariant offset == 64 * n <= |data|
      invariant Of(state[..]) == Hashed(start, data[..offset])
      decreases |data| - offset
    {
      var block: Block := data[offset..offset + 64];
      NextBlock(start, data, n, data[..offset], block);
      CompressBlock(state, block);
      offset := offset + 64;
      n := n + 1;
    }
  }

  lemma NoBlocks(start: Eight)
    ensures Hashed(start, []) == start
  {
  }

  lemma NextBlock(start: Eight, data: seq<Byte>, n: nat, before: seq<Byte>, block: Block)
    requires 64 * n + 64 <= |data| && before == data[..64 * n] && block == data[64 * n..64 * n + 64]
    ensures Hashed(start, data[..64 * n + 64]) == Compressed(Hashed(start, before), block)
  {
    hide Compressed, Hashed;
    assert |before| % 64 == 0;
    HashedMore(start, before, block);
    assert data[..64 * n + 64] == before + block;
  }

  method LastBlocks(state: array<Word>, blocks: seq<Byte>, ghost start: Eight, ghost done: seq<Byte>)
    requires state.Length == 8 && |done| % 64 == 0 && (|blocks| == 64 || |blocks| == 128)
    requires Of(state[..]) == Hashed(start, done)
    modifies state
    ensures Of(state[..]) == Hashed(start, done + blocks)
  {
    hide Hashed, Compressed, Of;
    var first: Block := blocks[..64];
    HashedMore(start, done, first);
    CompressBlock(state, first);
    if |blocks| == 128 {
      var second: Block := blocks[64..];
      HashedMore(start, done + first, second);
      assert done + first + second == done + blocks;
      CompressBlock(state, second);
    } else {
      assert first == blocks;
    }
  }

  method InitialState() returns (state: array<Word>)
    ensures fresh(state) && state.Length == 8 && Of(state[..]) == INITIAL_HASH
  {
    state := new Word[8];
    state[0], state[1], state[2], state[3] := 0x6a09e667, 0xbb67ae85, 0x3c6ef372, 0xa54ff53a;
    state[4], state[5], state[6], state[7] := 0x510e527f, 0x9b05688c, 0x1f83d9ab, 0x5be0cd19;
  }

  lemma Rounded(n: nat)
    ensures n / 64 * 64 <= n && (n / 64 * 64) % 64 == 0
  {
  }

  // The digest of any data shorter than 2^61 bytes is that of the standard.
  method Digest(data: seq<Byte>) returns (hash: Eight)
    requires 8 * |data| < 0x1_0000_0000_0000_0000
    ensures hash == Hashed(INITIAL_HASH, Padded(data))
  {
    hide *;
    var state := InitialState();
    var offset := WholeBlocks(state, data);
    var tail, tailBlocks := MakeTail(data, offset);
    var blocks := if tailBlocks == 1 then tail[..64] else tail[..128];
    Rounded(|data|);
    TailFollows(data, offset);
    LastBlocks(state, blocks, INITIAL_HASH, data[..offset]);
    return Of(state[..]);
  }

  lemma TailFollows(data: seq<Byte>, offset: nat)
    requires offset == |data| / 64 * 64
    ensures Padded(data) == data[..offset] + Tail(data)
  {
    assert Padded(data)[..offset] == data[..offset];
  }

  // ----- the digest's text --------------------------------------------------

  const HEX_DIGITS := "0123456789abcdef"

  // The low hex digit after shifting out i of them.
  function Nibble(w: Word, i: nat): nat
    requires i < 8
    ensures Nibble(w, i) < 16
  {
    w / (if i == 0 then 1 else if i == 1 then 0x10 else if i == 2 then 0x100 else if i == 3 then 0x1000
         else if i == 4 then 0x1_0000 else if i == 5 then 0x10_0000 else if i == 6 then 0x100_0000 else 0x1000_0000) % 16
  }

  function HexWord(w: Word): string {
    seq(8, i requires 0 <= i < 8 => HEX_DIGITS[Nibble(w, 7 - i)])
  }

  function HexOf(hash: seq<Word>): string {
    if hash == [] then "" else HexOf(hash[..|hash| - 1]) + HexWord(hash[|hash| - 1])
  }

  function Words(hash: Eight): seq<Word> {
    [hash.a, hash.b, hash.c, hash.d, hash.e, hash.f, hash.g, hash.h]
  }

  // ----- reading the text ---------------------------------------------------

  // A number read back from its lower-case hex digits.
  function HexValue(c: char): nat {
    if '0' <= c <= '9' then c as int - '0' as int else if 'a' <= c <= 'f' then c as int - 'a' as int + 10 else 0
  }

  function ReadHex(digits: string): nat {
    if digits == "" then 0 else 16 * ReadHex(digits[..|digits| - 1]) + HexValue(digits[|digits| - 1])
  }

  lemma DigitReads(n: nat)
    requires n < 16
    ensures HexValue(HEX_DIGITS[n]) == n
  {
  }

  // What the first digits of a word leave out.
  function Rest(i: nat): nat
    requires i <= 8
  {
    if i == 0 then 0x1_0000_0000 else if i == 1 then 0x1000_0000 else if i == 2 then 0x100_0000 else if i == 3 then 0x10_0000
    else if i == 4 then 0x1_0000 else if i == 5 then 0x1000 else if i == 6 then 0x100 else if i == 7 then 0x10 else 1
  }

  lemma HighNibble(w: Word, i: nat)
    requires i < 4
    ensures w / Rest(i + 1) == 16 * (w / Rest(i)) + Nibble(w, 7 - i)
  {
  }

  lemma LowNibble(w: Word, i: nat)
    requires 4 <= i < 8
    ensures w / Rest(i + 1) == 16 * (w / Rest(i)) + Nibble(w, 7 - i)
  {
  }

  lemma NextNibble(w: Word, i: nat)
    requires i < 8
    ensures w / Rest(i + 1) == 16 * (w / Rest(i)) + Nibble(w, 7 - i)
  {
    if i < 4 { HighNibble(w, i); } else { LowNibble(w, i); }
    hide Rest, Nibble;
  }

  lemma {:induction false} DigitsRead(w: Word, i: nat)
    requires i <= 8
    ensures ReadHex(HexWord(w)[..i]) == w / Rest(i)
  {
    if i > 0 {
      DigitsRead(w, i - 1);
      NextNibble(w, i - 1);
      DigitReads(Nibble(w, 8 - i));
      assert HexWord(w)[..i][..i - 1] == HexWord(w)[..i - 1];
      hide Nibble, Rest;
      assert HexWord(w)[..i][i - 1] == HEX_DIGITS[Nibble(w, 8 - i)];
    }
  }

  // The text's words, eight digits each, read back as the digest's.
  lemma {:induction false} HexReads(hash: seq<Word>, i: nat)
    requires i < |hash|
    ensures |HexOf(hash)| == 8 * |hash| && ReadHex(HexOf(hash)[8 * i..8 * i + 8]) == hash[i]
  {
    var init, last := hash[..|hash| - 1], hash[|hash| - 1];
    if i < |init| {
      HexReads(init, i);
      assert HexOf(hash)[8 * i..8 * i + 8] == HexOf(init)[8 * i..8 * i + 8];
    } else {
      HexSize(init);
      DigitsRead(last, 8);
      assert HexOf(hash)[8 * i..8 * i + 8] == HexWord(last) == HexWord(last)[..8];
    }
  }

  lemma {:induction false} HexSize(hash: seq<Word>)
    ensures |HexOf(hash)| == 8 * |hash|
  {
    if hash != [] {
      HexSize(hash[..|hash| - 1]);
    }
  }

  method Sha256Hex(data: seq<Byte>) returns (hex: string)
    requires 8 * |data| < 0x1_0000_0000_0000_0000
    ensures hex == HexOf(Words(Hashed(INITIAL_HASH, Padded(data)))) && |hex| == 64
    ensures forall i :: 0 <= i < 8 ==> ReadHex(hex[8 * i..8 * i + 8]) == Words(Hashed(INITIAL_HASH, Padded(data)))[i]
  {
    var hash := Digest(data);
    var state := Words(hash);
    assert |state| == 8;
    hide Hashed, Padded, Words, Nibble;
    hex := "";
    for w := 0 to 8
      invariant hex == HexOf(state[..w])
    {
      assert state[..w + 1][..w] == state[..w];
      var before := hex;
      for i := 0 to 8
        invariant hex == before + HexWord(state[w])[..i]
      {
        assert HexWord(state[w])[..i + 1] == HexWord(state[w])[..i] + [HexWord(state[w])[i]];
        hex := hex + [HEX_DIGITS[Nibble(state[w], 7 - i)]];
      }
      assert HexWord(state[w])[..8] == HexWord(state[w]);
    }
    assert state[..8] == state;
    HexSize(state);
    forall i | 0 <= i < 8 ensures ReadHex(hex[8 * i..8 * i + 8]) == state[i] {
      HexReads(state, i);
    }
  }

  // ----- the padding tells messages apart -----------------------------------


  // A shift by one byte more is a shift of the shifted.
  lemma OneByteMore(x: nat, d: nat)
    requires d > 0
    ensures x / d == x / (256 * d) * 256 + x / d % 256
  {
    NextDigit(x, d, x / d, x / d / 256);
  }

  lemma NextDigit(x: nat, d: nat, q: nat, p: nat)
    requires d > 0 && q == x / d && 256 * p <= q <= 256 * p + 255
    ensures x / (256 * d) == p
  {
    Within(x, d);
    NoLess(d, 256 * p, q);
    NoLess(d, q + 1, 256 * p + 256);
    Regroup(d, p);
    Regroup(d, p + 1);
    Quotient(x, 256 * d, p);
  }

  lemma Regroup(d: nat, p: nat)
    ensures d * (256 * p) == 256 * d * p
  {
  }

  lemma Within(x: nat, d: nat)
    requires d > 0
    ensures d * (x / d) <= x < d * (x / d + 1)
  {
  }

  lemma NoLess(d: nat, a: nat, b: nat)
    requires a <= b
    ensures d * a <= d * b
  {
  }

  lemma Quotient(x: nat, d: nat, p: nat)
    requires d > 0 && d * p <= x < d * (p + 1)
    ensures x / d == p
  {
    Within(x, d);
    var q := x / d;
    if q < p { NoLess(d, q + 1, p); }
    if p < q { NoLess(d, p + 1, q); }
  }


  // x and y agree from the digit of weight d on, and in that digit.
  predicate SameAbove(x: nat, y: nat, d: nat)
    requires d > 0
  {
    x / d == y / d
  }

  predicate SameDigit(x: nat, y: nat, d: nat)
    requires d > 0
  {
    x / d % 256 == y / d % 256
  }

  lemma SameLow(x: nat, y: nat, d: nat, e: nat)
    requires d > 0 && e == 256 * d && SameAbove(x, y, e) && SameDigit(x, y, d)
    ensures SameAbove(x, y, d)
  {
    OneByteMore(x, d);
    OneByteMore(y, d);
  }

  lemma LengthTells(x: nat, y: nat)
    requires x < 0x1_0000_0000_0000_0000 && y < 0x1_0000_0000_0000_0000 && LengthBytes(x) == LengthBytes(y)
    ensures x == y
  {
    SameBytes(x, y);
    hide SameAbove, SameDigit, LengthBytes;
    SameHigh(x, y);
    SameLow(x, y, 0x1_0000_0000_0000, 0x100_0000_0000_0000);
    SameLow(x, y, 0x100_0000_0000, 0x1_0000_0000_0000);
    SameLow(x, y, 0x1_0000_0000, 0x100_0000_0000);
    SameLow(x, y, 0x100_0000, 0x1_0000_0000);
    SameLow(x, y, 0x1_0000, 0x100_0000);
    SameLow(x, y, 0x100, 0x1_0000);
    SameLow(x, y, 1, 0x100);
    SameWhole(x, y);
  }

  lemma SameHigh(x: nat, y: nat)
    requires x < 0x1_0000_0000_0000_0000 && y < 0x1_0000_0000_0000_0000 && SameDigit(x, y, 0x100_0000_0000_0000)
    ensures SameAbove(x, y, 0x100_0000_0000_0000)
  {
  }

  lemma SameWhole(x: nat, y: nat)
    requires SameAbove(x, y, 1)
    ensures x == y
  {
  }

  lemma SameBytes(x: nat, y: nat)
    requires LengthBytes(x) == LengthBytes(y)
    ensures SameDigit(x, y, 0x100_0000_0000_0000) && SameDigit(x, y, 0x1_0000_0000_0000)
    ensures SameDigit(x, y, 0x100_0000_0000) && SameDigit(x, y, 0x1_0000_0000)
    ensures SameDigit(x, y, 0x100_0000) && SameDigit(x, y, 0x1_0000)
    ensures SameDigit(x, y, 0x100) && SameDigit(x, y, 1)
  {
    var a, b := LengthBytes(x), LengthBytes(y);
    assert a[0] == b[0] && a[1] == b[1] && a[2] == b[2] && a[3] == b[3];
    assert a[4] == b[4] && a[5] == b[5] && a[6] == b[6] && a[7] == b[7];
  }

  // Different messages have different paddings.
  lemma PaddingTells(a: seq<Byte>, b: seq<Byte>)
    requires 8 * |a| < 0x1_0000_0000_0000_0000 && 8 * |b| < 0x1_0000_0000_0000_0000 && Padded(a) == Padded(b)
    ensures a == b
  {
    var p, n := Padded(a), |Padded(a)|;
    assert p[n - 8..] == LengthBytes(8 * |a|) && p[n - 8..] == LengthBytes(8 * |b|);
    LengthTells(8 * |a|, 8 * |b|);
    assert a == p[..|a|] && b == p[..|b|];
  }
}
