/** The streaming hash (src/sha256.cpp) against the definition of SHA-256 in FIPS 180-4: padding
    (section 5.1.1), message schedule and compression (section 6.2.2). */
module Sha256Spec {
  import opened Values
  import opened Bytes

  type Word = bv32

  const ROUND_CONSTANTS: seq<Word> :=
    [0x428a2f98, 0x71374491, 0xb5c0fbcf, 0xe9b5dba5, 0x3956c25b, 0x59f111f1, 0x923f82a4, 0xab1c5ed5,
     0xd807aa98, 0x12835b01, 0x243185be, 0x550c7dc3, 0x72be5d74, 0x80deb1fe, 0x9bdc06a7, 0xc19bf174] +
    [0xe49b69c1, 0xefbe4786, 0x0fc19dc6, 0x240ca1cc, 0x2de92c6f, 0x4a7484aa, 0x5cb0a9dc, 0x76f988da,
     0x983e5152, 0xa831c66d, 0xb00327c8, 0xbf597fc7, 0xc6e00bf3, 0xd5a79147, 0x06ca6351, 0x14292967] +
    [0x27b70a85, 0x2e1b2138, 0x4d2c6dfc, 0x53380d13, 0x650a7354, 0x766a0abb, 0x81c2c92e, 0x92722c85,
     0xa2bfe8a1, 0xa81a664b, 0xc24b8b70, 0xc76c51a3, 0xd192e819, 0xd6990624, 0xf40e3585, 0x106aa070] +
    [0x19a4c116, 0x1e376c08, 0x2748774c, 0x34b0bcb5, 0x391c0cb3, 0x4ed8aa4a, 0x5b9cca4f, 0x682e6ff3,
     0x748f82ee, 0x78a5636f, 0x84c87814, 0x8cc70208, 0x90befffa, 0xa4506ceb, 0xbef9a3f7, 0xc67178f2]

  const INITIAL_STATE: seq<Word> := [0x6a09e667, 0xbb67ae85, 0x3c6ef372, 0xa54ff53a, 0x510e527f, 0x9b05688c, 0x1f83d9ab, 0x5be0cd19]

  function RotateRight(x: Word, n: bv6): Word
    requires 0 < n < 32
  {
    (x >> n) | (x << (32 - n))
  }

  function Ch(x: Word, y: Word, z: Word): Word { (x & y) ^ (!x & z) }
  function Maj(x: Word, y: Word, z: Word): Word { (x & y) ^ (x & z) ^ (y & z) }
  function BigSigma0(x: Word): Word { RotateRight(x, 2) ^ RotateRight(x, 13) ^ RotateRight(x, 22) }
  function BigSigma1(x: Word): Word { RotateRight(x, 6) ^ RotateRight(x, 11) ^ RotateRight(x, 25) }
  function SmallSigma0(x: Word): Word { RotateRight(x, 7) ^ RotateRight(x, 18) ^ (x >> 3) }
  function SmallSigma1(x: Word): Word { RotateRight(x, 17) ^ RotateRight(x, 19) ^ (x >> 10) }

  /** Four bytes, the most significant first. */
  function WordOf(b0: byte, b1: byte, b2: byte, b3: byte): Word {
    ((b0 as Word) << 24) | ((b1 as Word) << 16) | ((b2 as Word) << 8) | (b3 as Word)
  }

  function WordBytes(w: Word): seq<byte> {
    [((w >> 24) & 0xFF) as int, ((w >> 16) & 0xFF) as int, ((w >> 8) & 0xFF) as int, (w & 0xFF) as int]
  }

  /** The message schedule. */
  ghost function Schedule(block: seq<byte>, t: nat): Word
    requires |block| == 64 && t < 64
  {
    if t < 16 then WordOf(block[4 * t], block[4 * t + 1], block[4 * t + 2], block[4 * t + 3])
    else Mix(Schedule(block, t - 2), Schedule(block, t - 7), Schedule(block, t - 15), Schedule(block, t - 16))
  }

  function Mix(w2: Word, w7: Word, w15: Word, w16: Word): Word {
    Sum(SmallSigma1(w2), w7, SmallSigma0(w15), w16)
  }

  function Sum(x: Word, y: Word, z: Word, w: Word): Word { x + y + z + w }

  datatype Working = Working(a: Word, b: Word, c: Word, d: Word, e: Word, f: Word, g: Word, h: Word)

  function Round(v: Working, k: Word, w: Word): Working {
    var t1 := v.h + BigSigma1(v.e) + Ch(v.e, v.f, v.g) + k + w;
    var t2 := BigSigma0(v.a) + Maj(v.a, v.b, v.c);
    Working(t1 + t2, v.a, v.b, v.c, v.d + t1, v.e, v.f, v.g)
  }

  function Start(h: seq<Word>): Working
    requires |h| == 8
  {
    Working(h[0], h[1], h[2], h[3], h[4], h[5], h[6], h[7])
  }

  /** The working variables after the first t rounds. */
  ghost function Rounds(h: seq<Word>, block: seq<byte>, t: nat): Working
    requires |h| == 8 && |block| == 64 && t <= 64
  {
    if t == 0 then Start(h) else Round(Rounds(h, block, t - 1), ROUND_CONSTANTS[t - 1], Schedule(block, t - 1))
  }

  function AddWorking(h: seq<Word>, v: Working): (r: seq<Word>)
    requires |h| == 8
    ensures |r| == 8
  {
    [h[0] + v.a, h[1] + v.b, h[2] + v.c, h[3] + v.d, h[4] + v.e, h[5] + v.f, h[6] + v.g, h[7] + v.h]
  }

  ghost function Compress(h: seq<Word>, block: seq<byte>): (r: seq<Word>)
    requires |h| == 8 && |block| == 64
    ensures |r| == 8
  {
    AddWorking(h, Rounds(h, block, 64))
  }

  /** The compression folded over the blocks of a message. */
  ghost function Fold(message: seq<byte>): (r: seq<Word>)
    requires |message| % 64 == 0
    ensures |r| == 8
  {
    if message == [] then INITIAL_STATE
    else Compress(Fold(message[..|message| - 64]), message[|message| - 64..])
  }

  /** Zero bytes after the first padding byte of a message of n bytes. */
  function ZeroCount(n: nat): (k: nat)
    ensures k < 64 && (n + 1 + k) % 64 == 56
  {
    (119 - n % 64) % 64
  }

  /** It is the smallest number of zero bytes that leaves eight bytes of a block for the length. */
  lemma ZeroCountIsLeast(n: nat, k: nat)
    requires (n + 1 + k) % 64 == 56
    ensures ZeroCount(n) <= k
  {
  }

  function Zeros(k: nat): (r: seq<byte>)
    ensures |r| == k
  {
    seq(k, i => 0)
  }

  function BitLength(n: nat): nat {
    (8 * n) % U64_RANGE
  }

  function Padded(message: seq<byte>): seq<byte> {
    message + [0x80] + Zeros(ZeroCount(|message|)) + Be(8, BitLength(|message|))
  }

  lemma PaddedLength(message: seq<byte>)
    ensures |Padded(message)| % 64 == 0
  {
    hide Be, BitLength, Zeros, ZeroCount;
    var n := |message| + 1 + ZeroCount(|message|);
    assert |Padded(message)| == n + 8;
  }

  /** The padding loses nothing: below 2^61 bytes no two messages are padded alike. */
  lemma PaddingTells(x: seq<byte>, y: seq<byte>)
    requires 8 * |x| < U64_RANGE && 8 * |y| < U64_RANGE && Padded(x) == Padded(y)
    ensures x == y
  {
    PaddedEnds(x);
    PaddedEnds(y);
    hide Padded;
    assert Padded(x)[..|x|] == Padded(y)[..|y|];
  }

  lemma PaddedEnds(x: seq<byte>)
    requires 8 * |x| < U64_RANGE
    ensures |Padded(x)| >= |x| + 8 && Padded(x)[..|x|] == x && FromBe(Padded(x)[|Padded(x)| - 8..]) == 8 * |x|
  {
    LengthRound(8 * |x|);
    PaddedParts(x);
    hide Be, FromBe, Zeros, ZeroCount, Padded;
    Ends(x, [0x80] + Zeros(ZeroCount(|x|)), Be(8, 8 * |x|));
  }

  lemma PaddedParts(x: seq<byte>)
    requires 8 * |x| < U64_RANGE
    ensures Padded(x) == x + ([0x80] + Zeros(ZeroCount(|x|))) + Be(8, 8 * |x|)
  {
    ShortLength(|x|);
    hide Be, BitLength, Zeros, ZeroCount;
    Bracket(x, [0x80], Zeros(ZeroCount(|x|)), Be(8, 8 * |x|));
  }

  lemma ShortLength(n: nat)
    requires 8 * n < U64_RANGE
    ensures BitLength(n) == 8 * n
  {
  }

  lemma Bracket(x: seq<byte>, y: seq<byte>, z: seq<byte>, w: seq<byte>)
    ensures x + y + z + w == x + (y + z) + w
  {
  }

  lemma LengthRound(n: nat)
    requires n < U64_RANGE
    ensures FromBe(Be(8, n)) == n
  {
    hide Be, FromBe;
    Ranges();
    BeRound(8, n);
  }

  lemma Ends(x: seq<byte>, y: seq<byte>, z: seq<byte>)
    ensures (x + y + z)[..|x|] == x && (x + y + z)[|x| + |y|..] == z
  {
  }

  function DigestBytes(h: seq<Word>): seq<byte> {
    if h == [] then [] else DigestBytes(h[..|h| - 1]) + WordBytes(h[|h| - 1])
  }

  ghost function Hash(message: seq<byte>): seq<byte> {
    PaddedLength(message);
    DigestBytes(Fold(Padded(message)))
  }

  lemma {:induction false} DigestLength(h: seq<Word>)
    ensures |DigestBytes(h)| == 4 * |h|
  {
    hide WordBytes;
    if h != [] {
      DigestLength(h[..|h| - 1]);
      FourBytes(h[|h| - 1]);
    }
  }

  lemma FourBytes(w: Word)
    ensures |WordBytes(w)| == 4
  {
  }

  lemma HashLength(message: seq<byte>)
    ensures |Hash(message)| == 32
  {
    hide Fold, Padded, DigestBytes;
    PaddedLength(message);
    DigestLength(Fold(Padded(message)));
  }

  /** A hasher that has been fed `message` holds the fold of its whole blocks and the bytes after them. */
  ghost predicate Stream(message: seq<byte>, state: seq<Word>, pending: seq<byte>) {
    && |pending| <= |message| && (|message| - |pending|) % 64 == 0
    && pending == message[|message| - |pending|..]
    && state == Fold(message[..|message| - |pending|])
  }

  lemma StreamByte(message: seq<byte>, state: seq<Word>, pending: seq<byte>, b: byte)
    requires Stream(message, state, pending)
    ensures Stream(message + [b], state, pending + [b])
  {
    hide Fold;
    var n := |message| - |pending|;
    assert (message + [b])[..n] == message[..n];
  }

  lemma StreamFlush(message: seq<byte>, state: seq<Word>, pending: seq<byte>)
    requires Stream(message, state, pending) && |pending| == 64
    ensures |state| == 8 && Stream(message, Compress(state, pending), [])
  {
    hide Compress;
    var n := |message| - 64;
    assert message[..|message|] == message;
    assert Fold(message) == Compress(Fold(message[..n]), message[n..]);
  }

  lemma StreamBlock(message: seq<byte>, state: seq<Word>, block: seq<byte>)
    requires Stream(message, state, []) && |block| == 64
    ensures |state| == 8 && Stream(message + block, Compress(state, block), [])
  {
    hide Compress;
    var more := message + block;
    assert message[..|message|] == message && more[..|more|] == more;
    assert more[..|more| - 64] == message && more[|more| - 64..] == block;
  }
}

module Sha256Stream {
  import opened Values
  import opened Bytes
  import opened Sha256Spec

  /** n shifted right by 8 j bits. */
  function ShiftRight(n: nat, j: nat): nat {
    if j == 0 then n else ShiftRight(n / 256, j - 1)
  }

  lemma {:induction false} BeAt(k: nat, n: nat, i: nat)
    requires i < k
    ensures Be(k, n)[i] == ShiftRight(n, k - 1 - i) % 256
  {
    if i < k - 1 {
      BeAt(k - 1, n / 256, i);
      assert Be(k, n)[i] == Be(k - 1, n / 256)[i];
    }
  }

  lemma AddOrder(x: Word, y: Word, z: Word, w: Word)
    ensures Sum(x, y, z, w) == Sum(w, z, y, x)
  {
  }

  method Expand(block: seq<byte>) returns (schedule: array<Word>)
    requires |block| == 64
    ensures fresh(schedule) && schedule.Length == 64 && forall t :: 0 <= t < 64 ==> schedule[t] == Schedule(block, t)
  {
    hide WordOf, Mix, Schedule;
    schedule := new Word[64](i => 0);
    for i := 0 to 16
      invariant forall t :: 0 <= t < i ==> schedule[t] == Schedule(block, t)
    {
      var word := WordOf(block[i * 4], block[i * 4 + 1], block[i * 4 + 2], block[i * 4 + 3]);
      FirstWord(block, i);
      schedule[i] := word;
    }
    for i := 16 to 64
      invariant forall t :: 0 <= t < i ==> schedule[t] == Schedule(block, t)
    {
      var word := NextWord(schedule, i);
      LaterWord(block, i);
      schedule[i] := word;
    }
  }

  lemma FirstWord(block: seq<byte>, i: nat)
    requires |block| == 64 && i < 16
    ensures Schedule(block, i) == WordOf(block[i * 4], block[i * 4 + 1], block[i * 4 + 2], block[i * 4 + 3])
  {
    hide WordOf;
  }

  lemma LaterWord(block: seq<byte>, i: nat)
    requires |block| == 64 && 16 <= i < 64
    ensures Schedule(block, i) == Mix(Schedule(block, i - 2), Schedule(block, i - 7), Schedule(block, i - 15), Schedule(block, i - 16))
  {
    hide Mix, WordOf;
  }

  /** The order of the additions does not matter. */
  lemma MixOrder(w2: Word, w7: Word, w15: Word, w16: Word)
    ensures Mix(w2, w7, w15, w16) == Sum(w16, SmallSigma0(w15), w7, SmallSigma1(w2))
  {
    hide Sum, SmallSigma0, SmallSigma1;
    AddOrder(w16, SmallSigma0(w15), w7, SmallSigma1(w2));
  }

  /** One more word of the schedule. */
  method NextWord(schedule: array<Word>, i: nat) returns (word: Word)
    requires 16 <= i < schedule.Length
    ensures word == Mix(schedule[i - 2], schedule[i - 7], schedule[i - 15], schedule[i - 16])
  {
    hide SmallSigma0, SmallSigma1, Mix, Sum;
    var s0, s1 := SmallSigma0(schedule[i - 15]), SmallSigma1(schedule[i - 2]);
    MixOrder(schedule[i - 2], schedule[i - 7], schedule[i - 15], schedule[i - 16]);
    word := Sum(schedule[i - 16], s0, schedule[i - 7], s1);
  }

  method Run(h: seq<Word>, block: seq<byte>, schedule: array<Word>) returns (v: Working)
    requires |h| == 8 && |block| == 64 && schedule.Length == 64 && forall t :: 0 <= t < 64 ==> schedule[t] == Schedule(block, t)
    ensures v == Rounds(h, block, 64)
  {
    hide Round, Schedule;
    v := Start(h);
    for i := 0 to 64
      invariant v == Rounds(h, block, i)
    {
      v := Round(v, ROUND_CONSTANTS[i], schedule[i]);
    }
  }

  class Sha256 {
    const state: array<Word>
    const buffer: array<byte>
    var totalBytes: nat
    var buffered: nat
    /** Everything fed so far. */
    ghost var message: seq<byte>

    ghost predicate Valid()
      reads this, state, buffer
    {
      && state.Length == 8 && buffer.Length == 64 && buffered < 64
      && totalBytes == |message| % U64_RANGE
      && Stream(message, state[..], buffer[..buffered])
    }

    constructor ()
      ensures Valid() && fresh(state) && fresh(buffer) && message == []
    {
      state := new Word[8](i requires 0 <= i < 8 => INITIAL_STATE[i]);
      buffer := new byte[64](i => 0);
      totalBytes, buffered, message := 0, 0, [];
      new;
      assert state[..] == INITIAL_STATE;
    }

    method Transform(block: seq<byte>)
      requires |block| == 64 && state.Length == 8
      modifies state
      ensures state[..] == Compress(old(state[..]), block)
    {
      hide Schedule, Rounds, AddWorking;
      var schedule := Expand(block);
      var v := Run(state[..], block, schedule);
      AddTo(v);
    }

    method AddTo(v: Working)
      requires state.Length == 8
      modifies state
      ensures state[..] == AddWorking(old(state[..]), v)
    {
      hide AddWorking;
      var sum := AddWorking(state[..], v);
      forall i | 0 <= i < 8 {
        state[i] := sum[i];
      }
    }

    method Update(data: seq<byte>)
      requires Valid()
      modifies this`totalBytes, this`buffered, this`message, state, buffer
      ensures Valid() && message == old(message) + data
      ensures buffered == (old(buffered) + |data|) % 64
    {
      hide Fold, Compress, Stream;
      PendingLength(message, state[..], buffer[..buffered]);
      ghost var start := message;
      AddModulo(|message|, |data|);
      totalBytes := (totalBytes + |data|) % U64_RANGE;
      var offset := 0;
      assert start + data[..0] == start;
      if buffered > 0 {
        offset := Fill(data);
        if buffered == 64 {
          Flush(start + data[..offset]);
        }
      }
      offset := WholeBlocksOf(data, offset);
      Keep(data, offset);
      message := start + data;
      PendingLength(message, state[..], buffer[..buffered]);
    }

    method Flush(ghost fed: seq<byte>)
      requires state.Length == 8 && buffer.Length == 64 && buffered == 64 && Stream(fed, state[..], buffer[..64])
      modifies this`buffered, state
      ensures buffered == 0 && Stream(fed, state[..], buffer[..0])
    {
      hide Fold, Compress, Stream;
      StreamFlush(fed, state[..], buffer[..64]);
      assert buffer[..64] == buffer[..];
      Transform(buffer[..]);
      buffered := 0;
      assert buffer[..0] == [];
    }

    /** Whole blocks are taken straight from the data. */
    method WholeBlocksOf(data: seq<byte>, start: nat) returns (offset: nat)
      requires state.Length == 8 && buffer.Length == 64 && start <= |data| && buffered < 64 && (buffered > 0 ==> start == |data|)
      requires Stream(message + data[..start], state[..], buffer[..buffered])
      modifies state
      ensures start <= offset <= |data| && |data| - offset < 64 && (buffered > 0 ==> offset == |data|)
      ensures Stream(message + data[..offset], state[..], buffer[..buffered])
    {
      hide Fold, Compress, Stream;
      offset := start;
      while |data| - offset >= 64
        invariant start <= offset <= |data| && (buffered > 0 ==> offset == |data|)
        invariant Stream(message + data[..offset], state[..], buffer[..buffered])
      {
        var block := data[offset..offset + 64];
        assert buffer[..buffered] == [];
        StreamBlock(message + data[..offset], state[..], block);
        assert message + data[..offset + 64] == (message + data[..offset]) + block;
        Transform(block);
        offset := offset + 64;
      }
    }

    /** What is left is kept for later. */
    method Keep(data: seq<byte>, start: nat)
      requires state.Length == 8 && buffer.Length == 64 && start <= |data| && buffered + (|data| - start) < 64
      requires Stream(message + data[..start], state[..], buffer[..buffered])
      modifies this`buffered, buffer
      ensures buffered < 64 && Stream(message + data, state[..], buffer[..buffered])
    {
      hide Fold, Stream;
      var offset := start;
      while offset < |data|
        invariant start <= offset <= |data| && buffered + (|data| - offset) < 64
        invariant Stream(message + data[..offset], state[..], buffer[..buffered])
      {
        ghost var pending := buffer[..buffered];
        StreamByte(message + data[..offset], state[..], pending, data[offset]);
        assert message + data[..offset + 1] == (message + data[..offset]) + [data[offset]];
        buffer[buffered] := data[offset];
        assert buffer[..buffered + 1] == pending + [data[offset]];
        buffered := buffered + 1;
        offset := offset + 1;
      }
      assert data[..|data|] == data;
    }

    /** Tops the partial block up from the data. */
    method Fill(data: seq<byte>) returns (offset: nat)
      requires state.Length == 8 && buffer.Length == 64 && buffered < 64 && Stream(message, state[..], buffer[..buffered])
      modifies this`buffered, buffer
      ensures offset <= |data| && buffered == old(buffered) + offset <= 64 && (offset == |data| || buffered == 64)
      ensures Stream(message + data[..offset], state[..], buffer[..buffered])
    {
      hide Fold, Stream;
      offset := 0;
      assert message + data[..0] == message;
      while buffered < 64 && offset < |data|
        invariant offset <= |data| && buffered == old(buffered) + offset <= 64
        invariant Stream(message + data[..offset], state[..], buffer[..buffered])
      {
        ghost var pending := buffer[..buffered];
        StreamByte(message + data[..offset], state[..], pending, data[offset]);
        assert message + data[..offset + 1] == (message + data[..offset]) + [data[offset]];
        buffer[buffered] := data[offset];
        assert buffer[..buffered + 1] == pending + [data[offset]];
        buffered := buffered + 1;
        offset := offset + 1;
      }
    }

    /** Feeds zero bytes until eight bytes of the block are left. */
    method FeedZeros(ghost m: seq<byte>)
      requires Valid() && message == m + [0x80] && buffered == (|m| + 1) % 64
      modifies this`totalBytes, this`buffered, this`message, state, buffer
      ensures Valid() && message == m + [0x80] + Zeros(ZeroCount(|m|)) && buffered == 56
    {
      hide Valid, ZeroCount;
      ghost var zeros := 0;
      assert m + [0x80] + Zeros(0) == m + [0x80];
      while buffered != 56
        invariant Valid() && buffered < 64 && message == m + [0x80] + Zeros(zeros)
        invariant zeros <= ZeroCount(|m|) && buffered == (|m| + 1 + zeros) % 64
        decreases if buffered <= 56 then 56 - buffered else 120 - buffered
      {
        OneMoreZero(m, zeros);
        Update([0]);
        zeros := zeros + 1;
      }
      ZeroCountIsLeast(|m|, zeros);
    }

    /** Pads, and gives the digest of everything fed. */
    method Finish() returns (digest: seq<byte>)
      requires Valid()
      modifies this`totalBytes, this`buffered, this`message, state, buffer
      ensures digest == Hash(old(message))
    {
      hide Fold, Stream, Be, Zeros, ZeroCount, DigestBytes;
      ghost var m := message;
      var bitLength := (totalBytes * 8) % U64_RANGE;
      EightTimes(|m|);
      PendingLength(message, state[..], buffer[..buffered]);
      Update([0x80]);
      AddModulo(|m|, 1);
      FeedZeros(m);
      var length := LengthBytes(bitLength);
      Update(length);
      PaddedLength(m);
      WholeBlocks(message, state[..], buffer[..buffered]);
      digest := Emit();
    }

    method Emit() returns (digest: seq<byte>)
      requires state.Length == 8
      ensures digest == DigestBytes(state[..])
    {
      hide WordBytes;
      digest := [];
      for i := 0 to 8
        invariant digest == DigestBytes(state[..i])
      {
        assert state[..i + 1][..i] == state[..i];
        digest := digest + WordBytes(state[i]);
      }
      assert state[..8] == state[..];
    }
  }

  lemma EightTimes(n: nat)
    ensures (n % U64_RANGE * 8) % U64_RANGE == BitLength(n)
  {
    var q := n / U64_RANGE;
    assert 8 * n == 8 * (n % U64_RANGE) + U64_RANGE * (8 * q);
  }

  lemma OneMoreZero(m: seq<byte>, zeros: nat)
    requires zeros <= ZeroCount(|m|) && (|m| + 1 + zeros) % 64 != 56
    ensures zeros < ZeroCount(|m|) && m + [0x80] + Zeros(zeros + 1) == m + [0x80] + Zeros(zeros) + [0]
    ensures (|m| + 1 + (zeros + 1)) % 64 == ((|m| + 1 + zeros) % 64 + 1) % 64
  {
    hide ZeroCount;
    AddModulo(|m| + 1 + zeros, 1);
    assert zeros != ZeroCount(|m|);
    assert Zeros(zeros + 1) == Zeros(zeros) + [0];
  }

  lemma AddModulo(x: nat, y: nat)
    ensures (x % U64_RANGE + y) % U64_RANGE == (x + y) % U64_RANGE
    ensures (x % 64 + y) % 64 == (x + y) % 64
  {
  }

  lemma PendingLength(message: seq<byte>, state: seq<Word>, pending: seq<byte>)
    requires Stream(message, state, pending) && |pending| < 64
    ensures |pending| == |message| % 64
  {
    hide Fold;
  }

  lemma WholeBlocks(message: seq<byte>, state: seq<Word>, pending: seq<byte>)
    requires Stream(message, state, pending) && |message| % 64 == 0 && |pending| < 64
    ensures state == Fold(message)
  {
    hide Fold;
    PendingLength(message, state, pending);
    assert message[..|message|] == message;
  }

  /** The bit length, the most significant byte first. */
  method LengthBytes(bitLength: nat) returns (bytes: seq<byte>)
    ensures bytes == Be(8, bitLength)
  {
    bytes := [];
    for i := 0 to 8
      invariant |bytes| == i && forall k :: 0 <= k < i ==> bytes[k] == Be(8, bitLength)[k]
    {
      BeAt(8, bitLength, i);
      bytes := bytes + [ShiftRight(bitLength, 7 - i) % 256];
    }
  }

  function Joined(chunks: seq<seq<byte>>): seq<byte> {
    if chunks == [] then [] else Joined(chunks[..|chunks| - 1]) + chunks[|chunks| - 1]
  }

  /** However a message is cut into chunks, the digest is the hash of the message. */
  method HashChunks(chunks: seq<seq<byte>>) returns (digest: seq<byte>)
    ensures digest == Hash(Joined(chunks))
  {
    var hasher := new Sha256();
    for i := 0 to |chunks|
      invariant hasher.Valid() && fresh(hasher) && fresh(hasher.state) && fresh(hasher.buffer)
      invariant hasher.message == Joined(chunks[..i])
    {
      hasher.Update(chunks[i]);
      assert chunks[..i + 1][..i] == chunks[..i];
    }
    assert chunks[..|chunks|] == chunks;
    digest := hasher.Finish();
  }
}
