/**
 The XTEA functions of harness/packet_diff.py. Words are Python integers masked to 32 bits, so
 a subtraction below zero comes back from the top.
 */
module Xtea {
  import opened Bytes
  import opened Options

  const WORD: nat := 0x1_0000_0000
  const DELTA: U32 := 0x9E37_79B9
  const ROUNDS: nat := 32

  type Key = k: seq<U32> | |k| == 4 witness [0, 0, 0, 0]

  /** Python's `^` on integers without a width, bit by bit. */
  function Xor(a: nat, b: nat): nat {
    if a == 0 && b == 0 then 0 else (if a % 2 == b % 2 then 0 else 1) + 2 * Xor(a / 2, b / 2)
  }

  /** The unmasked mix of one word with the round sum and a word of the key. */
  function Mix(v: U32, s: U32, k: U32): nat {
    Xor(Xor(v * 16, v / 32) + v, s + k)
  }

  /** How a round mixes one word in, given the other word and the round sum. */
  type Mixer = (U32, U32) -> nat

  /** k[s & 3]. */
  function FirstMixer(k: Key): Mixer {
    (v: U32, s: U32) => Mix(v, s, k[s % 4])
  }

  /** k[(s >> 11) & 3]. */
  function SecondMixer(k: Key): Mixer {
    (v: U32, s: U32) => Mix(v, s, k[s / 2048 % 4])
  }

  datatype State = State(v0: U32, v1: U32, s: U32)

  function EncryptRound(first: Mixer, second: Mixer, st: State): State {
    var v0 := (st.v0 + first(st.v1, st.s)) % WORD;
    var s := (st.s + DELTA) % WORD;
    State(v0, (st.v1 + second(v0, s)) % WORD, s)
  }

  function DecryptRound(first: Mixer, second: Mixer, st: State): State {
    var v1 := (st.v1 - second(st.v0, st.s)) % WORD;
    var s := (st.s - DELTA) % WORD;
    State((st.v0 - first(v1, s)) % WORD, v1, s)
  }

  // --------------------------------------------------------------------------------
  // A round, bit by bit
  // --------------------------------------------------------------------------------

  predicate Bit(a: nat, i: nat) {
    if i == 0 then a % 2 == 1 else Bit(a / 2, i - 1)
  }

  lemma {:induction false} NoBit(i: nat)
    ensures !Bit(0, i)
  {
    if i > 0 {
      NoBit(i - 1);
    }
  }

  lemma {:induction false} XorBit(a: nat, b: nat, i: nat)
    ensures Bit(Xor(a, b), i) <==> Bit(a, i) != Bit(b, i)
    decreases i
  {
    if a == 0 && b == 0 {
      NoBit(i);
    } else if i > 0 {
      XorBit(a / 2, b / 2, i - 1);
    }
  }

  lemma TwiceBit(a: nat, i: nat)
    ensures Bit(2 * a, i) <==> i > 0 && Bit(a, i - 1)
  {
  }

  lemma ShiftedBit(a: nat, i: nat)
    ensures Bit(a * 16, i) <==> i >= 4 && Bit(a, i - 4)
    ensures Bit(a / 32, i) <==> Bit(a, i + 5)
  {
    TwiceBit(8 * a, i);
    if i > 0 {
      TwiceBit(4 * a, i - 1);
    }
    if i > 1 {
      TwiceBit(2 * a, i - 2);
    }
    if i > 2 {
      TwiceBit(a, i - 3);
    }
    assert Bit(a, i + 5) == Bit(a / 2, i + 4) == Bit(a / 2 / 2, i + 3) == Bit(a / 2 / 2 / 2, i + 2);
    assert Bit(a / 2 / 2 / 2, i + 2) == Bit(a / 2 / 2 / 2 / 2, i + 1) == Bit(a / 2 / 2 / 2 / 2 / 2, i);
    assert a / 2 / 2 / 2 / 2 / 2 == a / 32;
  }

  /** Each bit of a mix: the word is crossed with itself, four bits up and five bits down, added to itself, and crossed with the sum. */
  lemma MixBits(v: U32, s: U32, k: U32) returns (crossed: nat)
    ensures forall i: nat :: Bit(crossed, i) <==> (i >= 4 && Bit(v, i - 4)) != Bit(v, i + 5)
    ensures forall i: nat :: Bit(Mix(v, s, k), i) <==> Bit(crossed + v, i) != Bit(s + k, i)
  {
    crossed := Xor(v * 16, v / 32);
    forall i: nat ensures Bit(crossed, i) <==> (i >= 4 && Bit(v, i - 4)) != Bit(v, i + 5) {
      XorBit(v * 16, v / 32, i);
      ShiftedBit(v, i);
    }
    forall i: nat ensures Bit(Mix(v, s, k), i) <==> Bit(crossed + v, i) != Bit(s + k, i) {
      XorBit(crossed + v, s + k, i);
    }
  }

  /** The word of the key that two bits of the round sum point at. */
  function PointedAt(k: Key, low: bool, high: bool): U32 {
    k[(if low then 1 else 0) + (if high then 2 else 0)]
  }

  lemma MixerWords(k: Key, v: U32, s: U32)
    ensures FirstMixer(k)(v, s) == Mix(v, s, PointedAt(k, Bit(s, 0), Bit(s, 1)))
    ensures SecondMixer(k)(v, s) == Mix(v, s, PointedAt(k, Bit(s, 11), Bit(s, 12)))
  {
    ElevenDown(s);
    LowBits(s);
    LowBits(s / 2048);
  }

  lemma LowBits(a: nat)
    ensures a % 4 == (if Bit(a, 0) then 1 else 0) + (if Bit(a, 1) then 2 else 0)
  {
    assert Bit(a, 1) == Bit(a / 2, 0);
  }

  lemma ElevenDown(s: U32)
    ensures Bit(s, 11) == Bit(s / 2048, 0) && Bit(s, 12) == Bit(s / 2048, 1)
  {
    ShiftedBit(s, 6);
    ShiftedBit(s, 7);
    ShiftedBit(s / 32, 1);
    ShiftedBit(s / 32, 2);
    assert s / 32 / 32 == s / 1024;
    assert Bit(s / 1024, 1) == Bit(s / 1024 / 2, 0) && Bit(s / 1024, 2) == Bit(s / 1024 / 2, 1);
    assert s / 1024 / 2 == s / 2048;
  }

  /** A round of encryption: the first word takes the mix of the second, the sum moves on, and the second takes the mix of the new first. */
  lemma RoundExactly(k: Key, st: State)
    ensures var t := EncryptRound(FirstMixer(k), SecondMixer(k), st);
            && t.v0 == (st.v0 + Mix(st.v1, st.s, PointedAt(k, Bit(st.s, 0), Bit(st.s, 1)))) % 0x1_0000_0000
            && t.s == (st.s + 0x9E37_79B9) % 0x1_0000_0000
            && t.v1 == (st.v1 + Mix(t.v0, t.s, PointedAt(k, Bit(t.s, 11), Bit(t.s, 12)))) % 0x1_0000_0000
  {
    var t := EncryptRound(FirstMixer(k), SecondMixer(k), st);
    RoundOf(FirstMixer(k), SecondMixer(k), st);
    MixerWords(k, st.v1, st.s);
    MixerWords(k, t.v0, t.s);
  }

  lemma RoundOf(first: Mixer, second: Mixer, st: State)
    ensures var t := EncryptRound(first, second, st);
            && t.v0 == (st.v0 + first(st.v1, st.s)) % 0x1_0000_0000
            && t.s == (st.s + 0x9E37_79B9) % 0x1_0000_0000
            && t.v1 == (st.v1 + second(t.v0, t.s)) % 0x1_0000_0000
  {
  }

  /** There are 32 of them, from a sum of zero. */
  lemma EncryptedExactly(k: Key, b: Block)
    ensures var st := Iterate(Encryption(FirstMixer(k), SecondMixer(k)), State(b.0, b.1, 0), 32);
            Encrypted(FirstMixer(k), SecondMixer(k), b) == (st.v0, st.v1) && st.s == 0xC6EF_3720
  {
    SumAfter(Encryption(FirstMixer(k), SecondMixer(k)), State(b.0, b.1, 0));
  }

  lemma SumAfter(round: State -> State, st: State)
    requires st.s == 0 && forall t :: round(t).s == (t.s + DELTA) % WORD
    ensures Iterate(round, st, 32).s == 0xC6EF_3720
  {
    RoundSum(round, DELTA, st, 32);
  }

  lemma WrapUndone(v: U32, m: nat)
    ensures ((v + m) % WORD - m) % WORD == v
    ensures ((v - m) % WORD + m) % WORD == v
  {
  }

  lemma RoundUndone(first: Mixer, second: Mixer, st: State)
    ensures DecryptRound(first, second, EncryptRound(first, second, st)) == st
  {
    var e := EncryptRound(first, second, st);
    WrapUndone(st.v1, second(e.v0, e.s));
    WrapUndone(st.s, DELTA);
    WrapUndone(st.v0, first(st.v1, st.s));
  }

  lemma RoundRedone(first: Mixer, second: Mixer, st: State)
    ensures EncryptRound(first, second, DecryptRound(first, second, st)) == st
  {
    var d := DecryptRound(first, second, st);
    WrapUndone(st.v1, second(st.v0, st.s));
    WrapUndone(st.s, DELTA);
    WrapUndone(st.v0, first(d.v1, d.s));
  }

  function Iterate(round: State -> State, st: State, n: nat): State {
    if n == 0 then st else round(Iterate(round, st, n - 1))
  }

  /** The first of n rounds may be taken off as well as the last. */
  lemma {:induction false} Peel(round: State -> State, st: State, n: nat)
    requires n > 0
    ensures Iterate(round, st, n) == Iterate(round, round(st), n - 1)
  {
    if n > 1 {
      Peel(round, st, n - 1);
    }
  }

  /** Rounds are taken back in reverse order. */
  lemma {:induction false} IterateUndone(round: State -> State, undo: State -> State, st: State, n: nat)
    requires forall t :: undo(round(t)) == t
    ensures Iterate(undo, Iterate(round, st, n), n) == st
  {
    if n > 0 {
      Peel(undo, Iterate(round, st, n), n);
      IterateUndone(round, undo, st, n - 1);
    }
  }

  lemma WrapSum(a: int, b: int)
    ensures (a % WORD + b) % WORD == (a + b) % WORD
  {
  }

  /** The round sum moves by the same step every round. */
  lemma {:induction false} RoundSum(round: State -> State, step: int, st: State, n: nat)
    requires forall t :: round(t).s == (t.s + step) % WORD
    ensures Iterate(round, st, n).s == (st.s + n * step) % WORD
  {
    if n > 0 {
      RoundSum(round, step, st, n - 1);
      WrapSum(st.s + (n - 1) * step, step);
    }
  }

  // --------------------------------------------------------------------------------
  // Blocks
  // --------------------------------------------------------------------------------

  type Block = (U32, U32)

  /** DELTA * 32 & MASK, where the round sum of an encryption ends. */
  const LAST_SUM: U32 := DELTA * ROUNDS % WORD

  function Encryption(first: Mixer, second: Mixer): State -> State {
    (st: State) => EncryptRound(first, second, st)
  }

  function Decryption(first: Mixer, second: Mixer): State -> State {
    (st: State) => DecryptRound(first, second, st)
  }

  function Encrypted(first: Mixer, second: Mixer, b: Block): Block {
    var st := Iterate(Encryption(first, second), State(b.0, b.1, 0), ROUNDS);
    (st.v0, st.v1)
  }

  function Decrypted(first: Mixer, second: Mixer, b: Block): Block {
    var st := Iterate(Decryption(first, second), State(b.0, b.1, LAST_SUM), ROUNDS);
    (st.v0, st.v1)
  }

  lemma SumsMeet()
    ensures (0 + ROUNDS * DELTA) % WORD == LAST_SUM && (LAST_SUM + ROUNDS * -(DELTA as int)) % WORD == 0
  {
  }

  /** For every key and block, decryption undoes encryption. */
  lemma DecryptEncrypt(first: Mixer, second: Mixer, b: Block)
    ensures Decrypted(first, second, Encrypted(first, second, b)) == b
  {
    var round, undo, st := Encryption(first, second), Decryption(first, second), State(b.0, b.1, 0);
    forall t ensures undo(round(t)) == t {
      RoundUndone(first, second, t);
    }
    SumsMeet();
    RoundSum(round, DELTA, st, ROUNDS);
    IterateUndone(round, undo, st, ROUNDS);
  }

  /** Encryption undoes decryption as well. */
  lemma EncryptDecrypt(first: Mixer, second: Mixer, b: Block)
    ensures Encrypted(first, second, Decrypted(first, second, b)) == b
  {
    var round, undo, st := Encryption(first, second), Decryption(first, second), State(b.0, b.1, LAST_SUM);
    forall t ensures round(undo(t)) == t {
      RoundRedone(first, second, t);
    }
    SumsMeet();
    RoundSum(undo, -(DELTA as int), st, ROUNDS);
    IterateUndone(undo, round, st, ROUNDS);
  }

  method DecryptBlock(first: Mixer, second: Mixer, b: Block) returns (r: Block)
    ensures r == Decrypted(first, second, b)
  {
    var v0: U32, v1: U32, s: U32 := b.0, b.1, LAST_SUM;
    for i := 0 to ROUNDS
      invariant State(v0, v1, s) == Iterate(Decryption(first, second), State(b.0, b.1, LAST_SUM), i)
    {
      v1 := (v1 - second(v0, s)) % WORD;
      s := (s - DELTA) % WORD;
      v0 := (v0 - first(v1, s)) % WORD;
    }
    r := (v0, v1);
  }

  method EncryptBlock(first: Mixer, second: Mixer, b: Block) returns (r: Block)
    ensures r == Encrypted(first, second, b)
  {
    var v0: U32, v1: U32, s: U32 := b.0, b.1, 0;
    for i := 0 to ROUNDS
      invariant State(v0, v1, s) == Iterate(Encryption(first, second), State(b.0, b.1, 0), i)
    {
      v0 := (v0 + first(v1, s)) % WORD;
      s := (s + DELTA) % WORD;
      v1 := (v1 + second(v0, s)) % WORD;
    }
    r := (v0, v1);
  }

  // --------------------------------------------------------------------------------
  // Buffers
  // --------------------------------------------------------------------------------

  datatype Error = NotBlocks(length: nat)

  function BlockAt(data: seq<Byte>, i: nat): Block
    requires i + 8 <= |data|
  {
    (U32At(data, i), U32At(data, i + 4))
  }

  function Packed(b: Block): (bytes: seq<Byte>)
    ensures |bytes| == 8 && BlockAt(bytes, 0) == b
  {
    Le32(b.0) + Le32(b.1)
  }

  lemma WholeBlocks(i: nat, n: nat)
    requires i % 8 == 0 && n % 8 == 0 && i < n
    ensures i + 8 <= n && (n - 8) % 8 == 0 && (i + 8) % 8 == 0
  {
  }

  /** Every eight bytes of the buffer put through `fn`. */
  function Mapped(fn: seq<Byte> -> seq<Byte>, data: seq<Byte>): seq<Byte>
    requires |data| % 8 == 0
  {
    if data == [] then [] else Mapped(fn, data[..|data| - 8]) + fn(data[|data| - 8..])
  }

  ghost predicate KeepsLength(fn: seq<Byte> -> seq<Byte>) {
    forall chunk :: |chunk| == 8 ==> |fn(chunk)| == 8
  }

  lemma {:induction false} MappedLength(fn: seq<Byte> -> seq<Byte>, data: seq<Byte>)
    requires |data| % 8 == 0 && KeepsLength(fn)
    ensures |Mapped(fn, data)| == |data|
  {
    if data != [] {
      MappedLength(fn, data[..|data| - 8]);
    }
  }

  lemma MappedAppend(fn: seq<Byte> -> seq<Byte>, before: seq<Byte>, last: seq<Byte>)
    requires |before| % 8 == 0 && |last| == 8
    ensures |before + last| % 8 == 0 && Mapped(fn, before + last) == Mapped(fn, before) + fn(last)
  {
    assert (before + last)[..|before|] == before && (before + last)[|before|..] == last;
  }

  /** A whole number of blocks, and one block more. */
  lemma MappedStep(fn: seq<Byte> -> seq<Byte>, gn: seq<Byte> -> seq<Byte>, before: seq<Byte>, last: seq<Byte>)
    requires |before| % 8 == 0 && |last| == 8 && |fn(last)| == 8 && gn(fn(last)) == last
    requires |Mapped(fn, before)| == |before| && Mapped(gn, Mapped(fn, before)) == before
    ensures |before + last| % 8 == 0 && |Mapped(fn, before + last)| == |before + last|
    ensures Mapped(gn, Mapped(fn, before + last)) == before + last
  {
    MappedAppend(fn, before, last);
    MappedAppend(gn, Mapped(fn, before), fn(last));
  }

  /** A function undone on eight bytes is undone on buffers. */
  lemma {:induction false} MappedRoundTrip(fn: seq<Byte> -> seq<Byte>, gn: seq<Byte> -> seq<Byte>, data: seq<Byte>)
    requires |data| % 8 == 0 && KeepsLength(fn) && forall chunk :: |chunk| == 8 ==> gn(fn(chunk)) == chunk
    ensures |Mapped(fn, data)| == |data| && Mapped(gn, Mapped(fn, data)) == data
  {
    if data != [] {
      WholeBlocks(0, |data|);
      var before, last := data[..|data| - 8], data[|data| - 8..];
      MappedRoundTrip(fn, gn, before);
      MappedStep(fn, gn, before, last);
      assert data == before + last;
    }
  }

  /** Eight bytes in, eight bytes out. */
  function Cipher(first: Mixer, second: Mixer, encrypt: bool, chunk: seq<Byte>): (out: seq<Byte>)
    ensures |chunk| == 8 ==> |out| == 8
  {
    if |chunk| != 8 then []
    else Packed(if encrypt then Encrypted(first, second, BlockAt(chunk, 0)) else Decrypted(first, second, BlockAt(chunk, 0)))
  }

  function CipherOf(k: Key, encrypt: bool): seq<Byte> -> seq<Byte> {
    (chunk: seq<Byte>) => Cipher(FirstMixer(k), SecondMixer(k), encrypt, chunk)
  }

  lemma CipherRoundTrip(first: Mixer, second: Mixer, encrypt: bool, chunk: seq<Byte>)
    requires |chunk| == 8
    ensures Cipher(first, second, !encrypt, Cipher(first, second, encrypt, chunk)) == chunk
  {
    if encrypt {
      DecryptEncrypt(first, second, BlockAt(chunk, 0));
    } else {
      EncryptDecrypt(first, second, BlockAt(chunk, 0));
    }
    Le32OfU32At(chunk, 0);
    Le32OfU32At(chunk, 4);
    assert chunk == chunk[0..4] + chunk[4..8];
  }

  /** What xtea_apply makes of a buffer. */
  function Applied(k: Key, data: seq<Byte>, encrypt: bool): (out: seq<Byte>)
    requires |data| % 8 == 0
    ensures |out| == |data|
  {
    MappedLength(CipherOf(k, encrypt), data);
    Mapped(CipherOf(k, encrypt), data)
  }

  method ApplyBlock(data: seq<Byte>, i: nat, k: Key, encrypt: bool) returns (out: seq<Byte>)
    requires i + 8 <= |data|
    ensures out == CipherOf(k, encrypt)(data[i..i + 8])
  {
    var b := BlockAt(data, i);
    assert BlockAt(data[i..i + 8], 0) == b;
    var r;
    if encrypt {
      r := EncryptBlock(FirstMixer(k), SecondMixer(k), b);
    } else {
      r := DecryptBlock(FirstMixer(k), SecondMixer(k), b);
    }
    out := Packed(r);
  }

  /** xtea_apply: all blocks, or an error for a length that is not a multiple of eight. */
  method Apply(data: seq<Byte>, k: Key, encrypt: bool) returns (out: Result<seq<Byte>, Error>)
    ensures out == if |data| % 8 != 0 then Err(NotBlocks(|data|)) else Ok(Applied(k, data, encrypt))
  {
    if |data| % 8 != 0 {
      return Err(NotBlocks(|data|));
    }
    ghost var fn := CipherOf(k, encrypt);
    var bytes := [];
    var i := 0;
    while i < |data|
      invariant i % 8 == 0 && i <= |data| && bytes == Mapped(fn, data[..i])
    {
      WholeBlocks(i, |data|);
      var chunk := ApplyBlock(data, i, k, encrypt);
      MappedAppend(fn, data[..i], data[i..i + 8]);
      assert data[..i + 8] == data[..i] + data[i..i + 8];
      bytes := bytes + chunk;
      i := i + 8;
    }
    assert data[..|data|] == data;
    return Ok(bytes);
  }

  /** For every key and every buffer of whole blocks, decryption undoes encryption and the other way round. */
  lemma BufferRoundTrip(k: Key, encrypt: bool, data: seq<Byte>)
    requires |data| % 8 == 0
    ensures Applied(k, Applied(k, data, encrypt), !encrypt) == data
  {
    forall chunk: seq<Byte> | |chunk| == 8 ensures CipherOf(k, !encrypt)(CipherOf(k, encrypt)(chunk)) == chunk {
      CipherRoundTrip(FirstMixer(k), SecondMixer(k), encrypt, chunk);
    }
    MappedRoundTrip(CipherOf(k, encrypt), CipherOf(k, !encrypt), data);
  }
}
