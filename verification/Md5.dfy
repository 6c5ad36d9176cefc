/** Streaming MD5 against the one-shot definition (sections 3.1 to 3.4 of
    RFC 1321), for any block transform on a little-endian host. */
module Md5 {
  import opened Words

  const BLOCK := 64
  const TWO64 := 0x1_0000_0000_0000_0000

  type Chain = s: seq<u32> | |s| == 4 witness [0, 0, 0, 0]
  type Transform = (Chain, seq<byte>) -> Chain

  const INIT: Chain := [0x67452301, 0xefcdab89, 0x98badcfe, 0x10325476]

  function Le32(x: u32): (s: seq<byte>)
    ensures |s| == 4
  {
    [x % 0x100, x / 0x100 % 0x100, x / 0x1_0000 % 0x100, x / 0x100_0000]
  }

  /** Low byte first. */
  lemma Le32Weighs(x: u32)
    ensures var s := Le32(x);
            s[0] as int + 0x100 * s[1] as int + 0x1_0000 * s[2] as int + 0x100_0000 * s[3] as int == x
  {
  }

  function ChainBytes(c: Chain): (s: seq<byte>)
    ensures |s| == 16
  {
    hide Le32;
    Le32(c[0]) + Le32(c[1]) + Le32(c[2]) + Le32(c[3])
  }

  function Zeros(n: nat): (s: seq<byte>)
    ensures |s| == n
  {
    seq(n, i => 0)
  }

  /** The length in bits as two words, low word first. */
  function LengthWords(length: nat): (s: seq<byte>)
    ensures |s| == 8
  {
    var bits := 8 * length % TWO64;
    Le32(bits % 0x1_0000_0000) + Le32(bits / 0x1_0000_0000)
  }

  function ZeroCount(offset: nat): nat
    requires offset < BLOCK
  {
    if offset < 56 then 55 - offset else 119 - offset
  }

  /** Sections 3.1 and 3.2: a one bit, zeros up to 56 mod 64, and the length. */
  function Padding(length: nat): (s: seq<byte>)
    ensures (length + |s|) % 64 == 0
  {
    hide LengthWords;
    [0x80] + Zeros(ZeroCount(length % 64)) + LengthWords(length)
  }

  /** A whole number of blocks. */
  predicate Aligned(n: int) {
    n % 64 == 0
  }

  /** Section 3.4: the transform over consecutive whole blocks. */
  function Fold(f: Transform, c: Chain, data: seq<byte>): Chain
    decreases |data|
  {
    if |data| < BLOCK then c else Fold(f, f(c, data[..BLOCK]), data[BLOCK..])
  }

  /** The digest of a whole message. */
  function Digest(f: Transform, msg: seq<byte>): seq<byte> {
    ChainBytes(Fold(f, INIT, msg + Padding(|msg|)))
  }

  /** The digest of a message that fits in one block: the transform of the initial words of
      section 3.3 and of the message, a one bit, zeros, and eight bytes with its length in bits,
      low byte first; then the four words, low byte first. */
  lemma OneBlockDigest(f: Transform, msg: seq<byte>)
    requires |msg| < 56
    ensures var block := msg + [0x80] + Zeros(55 - |msg|) + [8 * |msg| % 0x100, 8 * |msg| / 0x100] + Zeros(6);
            var c := f([0x67452301, 0xefcdab89, 0x98badcfe, 0x10325476], block);
            |block| == 64 && Digest(f, msg) == Le32(c[0]) + Le32(c[1]) + Le32(c[2]) + Le32(c[3])
  {
    var block := msg + [0x80] + Zeros(55 - |msg|) + [8 * |msg| % 0x100, 8 * |msg| / 0x100] + Zeros(6);
    ShortLength(|msg|);
    hide LengthWords;
    assert msg + Padding(|msg|) == block;
    hide Padding, Le32;
    FoldOne(f, INIT, block);
  }

  lemma ShortLength(n: nat)
    requires n < 56
    ensures LengthWords(n) == [8 * n % 0x100, 8 * n / 0x100] + Zeros(6)
  {
    var bits := 8 * n;
    assert Le32(bits) == [bits % 0x100, bits / 0x100, 0, 0] && Le32(0) == [0, 0, 0, 0];
  }

  lemma {:induction false} FoldConcat(f: Transform, c: Chain, a: seq<byte>, b: seq<byte>)
    requires Aligned(|a|)
    ensures Fold(f, c, a + b) == Fold(f, Fold(f, c, a), b)
    decreases |a|
  {
    if a == [] {
      assert a + b == b;
    } else {
      assert (a + b)[..BLOCK] == a[..BLOCK] && (a + b)[BLOCK..] == a[BLOCK..] + b;
      FoldConcat(f, f(c, a[..BLOCK]), a[BLOCK..], b);
    }
  }

  lemma FoldOne(f: Transform, c: Chain, block: seq<byte>)
    requires |block| == BLOCK
    ensures Fold(f, c, block) == f(c, block)
  {
    assert block[..BLOCK] == block;
  }

  /** The length of the message that whole blocks have absorbed. */
  function Whole(n: nat): (w: nat)
    ensures w <= n < w + BLOCK && Aligned(w)
  {
    n / 64 * 64
  }

  // ----- the bit counter -----

  function CountLow(low: u32, len: u32): u32 {
    (low + 8 * len) % 0x1_0000_0000
  }

  /** The high word after adding: a carry is seen as the low word getting smaller. */
  function CountHigh(low: u32, high: u32, len: u32): u32 {
    (high + (if CountLow(low, len) < low then 1 else 0) + len / 0x2000_0000) % 0x1_0000_0000
  }

  /** The two words count eight times the length, modulo 2^64. */
  predicate CountsBits(low: u32, high: u32, length: nat) {
    high as int * 0x1_0000_0000 + low as int == 8 * length % TWO64
  }

  lemma CarryAdds(low: u32, high: u32, len: u32)
    ensures var total := high as int + (if CountLow(low, len) < low then 1 else 0) + len / 0x2000_0000;
            && total * 0x1_0000_0000 + CountLow(low, len) == high as int * 0x1_0000_0000 + low + 8 * len
            && CountHigh(low, high, len) == total % 0x1_0000_0000
  {
    var m := 8 * (len % 0x2000_0000);
    assert 8 * len == len / 0x2000_0000 * 0x1_0000_0000 + m;
    assert CountLow(low, len) == (low + m) % 0x1_0000_0000;
  }

  lemma ModWords(total: nat, low: u32)
    ensures (total * 0x1_0000_0000 + low) % TWO64 == total % 0x1_0000_0000 * 0x1_0000_0000 + low
  {
    var q := total / 0x1_0000_0000;
    assert total * 0x1_0000_0000 + low == q * TWO64 + (total % 0x1_0000_0000 * 0x1_0000_0000 + low);
  }

  lemma ModAdds(a: nat, b: nat)
    ensures (a % TWO64 + b) % TWO64 == (a + b) % TWO64
  {
    assert a == a / TWO64 * TWO64 + a % TWO64;
  }

  lemma CounterAdds(low: u32, high: u32, length: nat, len: u32)
    requires CountsBits(low, high, length)
    ensures CountsBits(CountLow(low, len), CountHigh(low, high, len), length + len)
  {
    CarryAdds(low, high, len);
    ModAdds(8 * length, 8 * len);
    hide CountLow, CountHigh;
    var total := high as int + (if CountLow(low, len) < low then 1 else 0) + len / 0x2000_0000;
    ModWords(total, CountLow(low, len));
  }

  lemma CounterTellsOffset(low: u32, high: u32, length: nat)
    requires CountsBits(low, high, length)
    ensures low / 8 % 64 == length % 64
  {
    var q := 8 * length / TWO64;
    assert 8 * length == q * TWO64 + high * 0x1_0000_0000 + low;
    assert low == 8 * (length - q * (TWO64 / 8) - high * 0x2000_0000);
    assert length == low / 8 + (q * (TWO64 / 512) + high * 0x80_0000) * 64;
  }

  lemma CounterIsLengthWords(low: u32, high: u32, length: nat)
    requires CountsBits(low, high, length)
    ensures Le32(low) + Le32(high) == LengthWords(length)
  {
    hide Le32;
    var bits := high as int * 0x1_0000_0000 + low as int;
    assert bits % 0x1_0000_0000 == low && bits / 0x1_0000_0000 == high;
  }

  lemma FoldStep(f: Transform, msg: seq<byte>, p: nat)
    requires Aligned(p) && p + BLOCK <= |msg|
    ensures Aligned(p + BLOCK)
    ensures Fold(f, INIT, msg[..p + BLOCK]) == f(Fold(f, INIT, msg[..p]), msg[p..p + BLOCK])
  {
    assert msg[..p + BLOCK] == msg[..p] + msg[p..p + BLOCK];
    FoldConcat(f, INIT, msg[..p], msg[p..p + BLOCK]);
    FoldOne(f, Fold(f, INIT, msg[..p]), msg[p..p + BLOCK]);
  }

  lemma WholeIsUnique(n: nat, w: nat)
    requires w <= n < w + BLOCK && Aligned(w)
    ensures w == Whole(n) && n % 64 == n - w
  {
  }

  lemma SliceConcat(a: seq<byte>, b: seq<byte>, i: nat, j: nat)
    requires i <= |a| && j <= |b|
    ensures (a + b)[i..|a| + j] == a[i..] + b[..j]
    ensures (a + b)[|a| + j..] == b[j..] && (a + b)[..i] == a[..i] && (a + b)[i..] == a[i..] + b
  {
  }

  /** The padded message from its last partial block on. */
  lemma PaddedTail(msg: seq<byte>)
    ensures var all, w, n := msg + Padding(|msg|), Whole(|msg|), |msg| % 64;
            && n == |msg| - w && all[..w] == msg[..w]
            && (n < 56 ==> all[w..] == msg[w..] + [0x80] + Zeros(55 - n) + LengthWords(|msg|))
            && (n >= 56 ==> all[w..] == msg[w..] + [0x80] + Zeros(63 - n) + (Zeros(56) + LengthWords(|msg|)))
  {
    hide LengthWords;
    var w := Whole(|msg|);
    WholeIsUnique(|msg|, w);
    var n := |msg| - w;
    assert (msg + Padding(|msg|))[w..] == msg[w..] + Padding(|msg|);
    if n >= 56 {
      assert Zeros(119 - n) == Zeros(63 - n) + Zeros(56);
    }
  }

  // ----- the streaming context -----

  class Context {
    const transform: Transform
    var buf: Chain
    var bits0: u32
    var bits1: u32
    const input: array<byte>

    /** The context has taken in exactly `msg`. */
    ghost predicate Absorbed(msg: seq<byte>)
      reads this, input
    {
      var w := Whole(|msg|);
      && input.Length == BLOCK
      && CountsBits(bits0, bits1, |msg|)
      && buf == Fold(transform, INIT, msg[..w])
      && input[..|msg| - w] == msg[w..]
    }

    constructor (transform: Transform)
      ensures Absorbed([]) && this.transform == transform && fresh(input)
    {
      this.transform := transform;
      buf := INIT;
      bits0, bits1 := 0, 0;
      input := new byte[BLOCK];
    }

    /** Copy bytes into the block buffer. */
    method CopyIn(src: seq<byte>, at: nat)
      requires at + |src| <= input.Length
      modifies input
      ensures input[..] == old(input[..at]) + src + old(input[at + |src|..])
      ensures input[..at + |src|] == old(input[..at]) + src
    {
      forall i | 0 <= i < |src| {
        input[at + i] := src[i];
      }
    }

    /** Add to the bit counter. */
    method CountBytes(len: u32, ghost length: nat)
      requires CountsBits(bits0, bits1, length)
      modifies this`bits0, this`bits1
      ensures CountsBits(bits0, bits1, length + len)
    {
      CounterAdds(bits0, bits1, length, len);
      var t := bits0;
      bits0 := (t + 8 * len) % 0x1_0000_0000;
      var carry := if bits0 < t then 1 else 0;
      bits1 := (bits1 + carry + len / 0x2000_0000) % 0x1_0000_0000;
    }

    /** Run the transform over the full block buffer. */
    method TransformBlock(ghost all: seq<byte>, ghost w: nat)
      requires Aligned(w) && w + BLOCK <= |all|
      requires input[..] == all[w..w + BLOCK] && buf == Fold(transform, INIT, all[..w])
      modifies this`buf
      ensures Aligned(w + BLOCK) && buf == Fold(transform, INIT, all[..w + BLOCK])
    {
      FoldStep(transform, all, w);
      buf := transform(buf, input[..]);
    }

    /** Process whole blocks, then keep what is left over. */
    method AbsorbBlocks(data: seq<byte>, ghost all: seq<byte>)
      requires input.Length == BLOCK && |data| <= |all| && data == all[|all| - |data|..]
      requires Aligned(|all| - |data|) && buf == Fold(transform, INIT, all[..|all| - |data|])
      requires CountsBits(bits0, bits1, |all|)
      modifies this`buf, input
      ensures Absorbed(all)
    {
      hide CountsBits, Fold, Aligned;
      var rest := data;
      ghost var w := |all| - |data|;
      while |rest| >= BLOCK
        invariant 0 <= w <= |all| && Aligned(w) && rest == all[w..]
        invariant buf == Fold(transform, INIT, all[..w])
        decreases |rest|
      {
        CopyIn(rest[..BLOCK], 0);
        assert input[..] == all[w..w + BLOCK];
        TransformBlock(all, w);
        rest := rest[BLOCK..];
        w := w + BLOCK;
      }
      CopyIn(rest, 0);
      WholeIsUnique(|all|, w);
    }

    /** Complete a partly filled block and absorb it. */
    method FillBlock(src: seq<byte>, at: nat, ghost all: seq<byte>, ghost w: nat)
      requires input.Length == BLOCK == at + |src|
      requires Aligned(w) && w + BLOCK <= |all| && input[..at] + src == all[w..w + BLOCK]
      requires buf == Fold(transform, INIT, all[..w])
      modifies this`buf, input
      ensures Aligned(w + BLOCK) && buf == Fold(transform, INIT, all[..w + BLOCK])
    {
      hide Fold, Aligned;
      CopyIn(src, at);
      assert input[..] == all[w..w + BLOCK];
      TransformBlock(all, w);
    }

    /** Take in more bytes, in any amounts. */
    method Update(data: seq<byte>, ghost msg: seq<byte>)
      requires Absorbed(msg) && |data| < 0x1_0000_0000
      modifies this, input
      ensures Absorbed(msg + data)
    {
      CounterTellsOffset(bits0, bits1, |msg|);
      hide CountsBits, Fold, Whole, Aligned;
      ghost var all, w := msg + data, Whole(|msg|);
      WholeIsUnique(|msg|, w);
      var t := bits0 / 8 % 64;
      assert t == |msg| - w;
      CountBytes(|data|, |msg|);
      if t != 0 && |data| < BLOCK - t {
        SliceConcat(msg, data, w, |data|);
        CopyIn(data, t);
        WholeIsUnique(|all|, w);
      } else if t != 0 {
        var room := BLOCK - t;
        SliceConcat(msg, data, w, room);
        FillBlock(data[..room], t, all, w);
        assert w + BLOCK == |all| - |data[room..]|;
        AbsorbBlocks(data[room..], all);
      } else {
        SliceConcat(msg, data, w, 0);
        assert w == |all| - |data| && data[0..] == data;
        AbsorbBlocks(data, all);
      }
    }

    /** Fill the last block, or the last two, with the padding and absorb them. */
    method Pad(ghost msg: seq<byte>)
      requires Absorbed(msg)
      modifies this`buf, input
      ensures buf == Fold(transform, INIT, msg + Padding(|msg|))
    {
      CounterTellsOffset(bits0, bits1, |msg|);
      CounterIsLengthWords(bits0, bits1, |msg|);
      PaddedTail(msg);
      hide CountsBits, Fold, LengthWords, Le32, Padding, Whole, Zeros, Aligned;
      ghost var w := Whole(|msg|);
      ghost var all := msg + Padding(|msg|);
      ghost var tail := all[w..];
      var count := bits0 / 8 % 64;
      CopyIn([0x80], count);
      var p := count + 1;
      count := BLOCK - 1 - count;
      if count < 8 {
        SliceConcat(input[..p] + Zeros(count), Zeros(56) + LengthWords(|msg|), 0, 0);
        assert all[w..w + BLOCK] == tail[..BLOCK] && all[w + BLOCK..] == tail[BLOCK..];
        FillBlock(Zeros(count), p, all, w);
        CopyIn(Zeros(56), 0);
        w := w + BLOCK;
      } else {
        CopyIn(Zeros(count - 8), p);
      }
      assert input[..56] + LengthWords(|msg|) == all[w..];
      assert all[w..w + BLOCK] == all[w..];
      FillBlock(Le32(bits0) + Le32(bits1), 56, all, w);
      assert all[..w + BLOCK] == all;
    }

    /** Give the digest and wipe the context. */
    method Finish(ghost msg: seq<byte>) returns (digest: seq<byte>)
      requires Absorbed(msg)
      modifies this, input
      ensures digest == Digest(transform, msg)
      ensures buf == [0, 0, 0, 0] && bits0 == 0 && bits1 == 0 && input[..] == Zeros(BLOCK)
    {
      Pad(msg);
      digest := ChainBytes(buf);
      buf, bits0, bits1 := [0, 0, 0, 0], 0, 0;
      CopyIn(Zeros(BLOCK), 0);
    }
  }

  function Concat(chunks: seq<seq<byte>>): seq<byte> {
    if chunks == [] then [] else Concat(chunks[..|chunks| - 1]) + chunks[|chunks| - 1]
  }

  /** However a message is cut into updates, the digest is that of the whole. */
  method DigestOfChunks(f: Transform, chunks: seq<seq<byte>>) returns (digest: seq<byte>)
    requires forall c <- chunks :: |c| < 0x1_0000_0000
    ensures digest == Digest(f, Concat(chunks))
  {
    var ctx := new Context(f);
    for i := 0 to |chunks|
      invariant fresh(ctx) && fresh(ctx.input) && ctx.transform == f
      invariant ctx.Absorbed(Concat(chunks[..i]))
    {
      ctx.Update(chunks[i], Concat(chunks[..i]));
      assert chunks[..i + 1][..i] == chunks[..i];
    }
    assert chunks[..|chunks|] == chunks;
    digest := ctx.Finish(Concat(chunks));
  }

  /** The answer to a challenge: the digest of the message type, the shared
      secret and the challenge. */
  method ChallengeDigest(f: Transform, ss: byte, secret: seq<byte>, challenge: seq<byte>) returns (response: seq<byte>)
    requires |secret| < 0x1_0000_0000 && |challenge| < 0x1_0000_0000
    ensures response == Digest(f, [ss] + secret + challenge)
  {
    var ctx := new Context(f);
    ctx.Update([ss], []);
    ctx.Update(secret, [ss]);
    ctx.Update(challenge, [ss] + secret);
    response := ctx.Finish([ss] + secret + challenge);
  }
}
