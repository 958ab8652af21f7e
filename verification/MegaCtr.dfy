/** Counter mode as MEGA downloads use it, over an abstract block function. */
module MegaCtr {
  import BigEndian
  import opened ByteCounter
  import opened MegaBlocks
  import opened Wrappers

  /** The counter block after `n` increments: a 128-bit big-endian number that wraps around. */
  function Counter(iv: Block, n: nat): Block {
    BigEndian.Encode(BigEndian.Decode(iv) + n, BLOCK)
  }

  function KeyByte(E: BlockFunction, iv: Block, pos: nat): byte {
    E(Counter(iv, pos / BLOCK))[pos % BLOCK]
  }

  /** One-shot CTR of `data` that starts `pos` bytes into the stream. Encryption and decryption are the same. */
  function Ctr(E: BlockFunction, iv: Block, pos: nat, data: seq<byte>): (r: seq<byte>)
    ensures |r| == |data|
  {
    seq(|data|, j requires 0 <= j < |data| => data[j] ^ KeyByte(E, iv, pos + j))
  }

  /** Applying the stream twice gives the data back. */
  lemma CtrInverts(E: BlockFunction, iv: Block, pos: nat, data: seq<byte>)
    ensures Ctr(E, iv, pos, Ctr(E, iv, pos, data)) == data
  {
    forall j | 0 <= j < |data| ensures Ctr(E, iv, pos, Ctr(E, iv, pos, data))[j] == data[j] {
      XorTwice(data[j], KeyByte(E, iv, pos + j));
    }
  }

  function Flatten(chunks: seq<seq<byte>>): seq<byte> {
    if chunks == [] then [] else chunks[0] + Flatten(chunks[1..])
  }

  lemma CtrSplits(E: BlockFunction, iv: Block, pos: nat, a: seq<byte>, b: seq<byte>)
    ensures Ctr(E, iv, pos, a + b) == Ctr(E, iv, pos, a) + Ctr(E, iv, pos + |a|, b)
  {
  }

  lemma CtrSnoc(E: BlockFunction, iv: Block, pos: nat, data: seq<byte>, i: nat)
    requires i < |data|
    ensures Ctr(E, iv, pos, data[..i + 1]) == Ctr(E, iv, pos, data[..i]) + [data[i] ^ KeyByte(E, iv, pos + i)]
  {
    assert data[..i + 1] == data[..i] + [data[i]];
    CtrSplits(E, iv, pos, data[..i], [data[i]]);
    CtrOne(E, iv, pos + i, data[i]);
  }

  lemma CtrOne(E: BlockFunction, iv: Block, pos: nat, b: byte)
    ensures Ctr(E, iv, pos, [b]) == [b ^ KeyByte(E, iv, pos)]
  {
  }

  /** What the keystream is: applied to zeros it shows the encrypted counter blocks, one after the other (section 6.5 of
      NIST SP 800-38A). */
  lemma KeystreamIsBlocks(E: BlockFunction, iv: Block, n: nat)
    ensures Ctr(E, iv, BLOCK * n, Zeros(BLOCK)) == E(Counter(iv, n))
  {
    var r := Ctr(E, iv, BLOCK * n, Zeros(BLOCK));
    forall j | 0 <= j < BLOCK ensures r[j] == E(Counter(iv, n))[j] {
      BigEndian.ModuloIsRemainder(BLOCK * n + j, BLOCK, n, j);
      ZeroXor(KeyByte(E, iv, BLOCK * n + j));
    }
  }

  lemma ZeroXor(b: byte)
    ensures 0 ^ b == b
  {
  }

  /** One increment of the counter block moves to the next block's counter. */
  lemma CounterSteps(iv: Block, n: nat)
    ensures Increment(Counter(iv, n)) == Counter(iv, n + 1)
  {
    IncrementEncoding(BigEndian.Decode(iv) + n, BLOCK);
  }

  // ---- MEGA's own description: a 64-bit prefix and a 64-bit block number

  /** With a counter seeded by eight bytes and eight zeros, block `n` uses the seed plus the carries `q` out of the low
      half, followed by `n` itself as a 64-bit number. */
  lemma CounterHalves(seed: seq<byte>, n: nat, q: nat, r: nat)
    requires |seed| == 8 && r < BigEndian.Pow256(8) && n == BigEndian.Pow256(8) * q + r
    ensures Counter(seed + Zeros(8), n) == BigEndian.Encode(BigEndian.Decode(seed) + q, 8) + BigEndian.Encode(n, 8)
  {
    SumHalves(seed, 8, n, q, r);
  }

  /** MEGA's description: the seed and a 64-bit block number side by side. */
  function MegaCounter(seed: seq<byte>, n: nat): Block
    requires |seed| == 8
  {
    seed + BigEndian.Encode(n, 8)
  }

  /** The library's 128-bit counter agrees with MEGA's exactly as long as the carries out of the low half
      vanish, in particular for every block number below 2^64. */
  lemma CounterIsMegas(seed: seq<byte>, n: nat)
    requires |seed| == 8
    ensures Counter(seed + Zeros(8), n) == MegaCounter(seed, n) <==> n / BigEndian.Pow256(8) % BigEndian.Pow256(8) == 0
    ensures n < BigEndian.Pow256(8) ==> Counter(seed + Zeros(8), n) == MegaCounter(seed, n)
  {
    var m, d := BigEndian.Pow256(8), BigEndian.Decode(seed);
    var q := n / m;
    CounterHalves(seed, n, q, n % m);
    BigEndian.EncodeDecode(seed);
    SameEncoding(d, q, 8);
    var c, g := Counter(seed + Zeros(8), n), MegaCounter(seed, n);
    assert c[..8] == BigEndian.Encode(d + q, 8) && c[8..] == BigEndian.Encode(n, 8);
    assert g[..8] == seed && g[8..] == BigEndian.Encode(n, 8);
    assert c == c[..8] + c[8..] && g == g[..8] + g[8..];
    if n < m {
      BigEndian.ModuloIsRemainder(n, m, 0, n);
      BigEndian.ModuloIsRemainder(0, m, 0, 0);
    }
  }

  /** What MEGA stores: byte `p` XORed with the block function of its own counter block. */
  function MegaEncrypt(E: BlockFunction, seed: seq<byte>, data: seq<byte>): (r: seq<byte>)
    requires |seed| == 8
    ensures |r| == |data|
  {
    seq(|data|, p requires 0 <= p < |data| => data[p] ^ E(MegaCounter(seed, p / BLOCK))[p % BLOCK])
  }

  /** Reading MEGA's ciphertext through the library's stream gives the file back, for files under 2^64 blocks. */
  lemma MegaFileDecrypts(E: BlockFunction, seed: seq<byte>, data: seq<byte>)
    requires |seed| == 8 && |data| <= BLOCK * BigEndian.Pow256(8)
    ensures Ctr(E, seed + Zeros(8), 0, MegaEncrypt(E, seed, data)) == data
  {
    var iv, cipher := seed + Zeros(8), MegaEncrypt(E, seed, data);
    forall p | 0 <= p < |data| ensures Ctr(E, iv, 0, cipher)[p] == data[p] {
      assert p / BLOCK < BigEndian.Pow256(8);
      CounterIsMegas(seed, p / BLOCK);
      XorTwice(data[p], KeyByte(E, iv, p));
    }
  }

  // ---- the stream as the library keeps it

  /** The CTR stream of one file: a counter block, and the unused part of the last keystream block. */
  class CtrStream {
    const E: BlockFunction
    const iv: Block
    const counter: array<byte>
    var keystream: Block
    var used: nat
    ghost var pos: nat    // bytes produced so far

    ghost predicate Valid()
      reads this, counter
    {
      counter.Length == BLOCK && used <= BLOCK && exists blocks: nat :: At(blocks)
    }

    /** The state after `blocks` counter blocks, the last of them with `used` of its bytes spent. */
    ghost predicate At(blocks: nat)
      reads this, counter
    {
      && counter[..] == Counter(iv, blocks)
      && pos == BLOCK * blocks + used - BLOCK
      && (used < BLOCK ==> blocks > 0 && keystream == E(Counter(iv, blocks - 1)))
    }

    constructor (E: BlockFunction, iv: Block)
      ensures Valid() && pos == 0 && this.E == E && this.iv == iv && fresh(counter)
    {
      this.E, this.iv := E, iv;
      counter := new byte[BLOCK](i requires 0 <= i < BLOCK => iv[i]);
      keystream, used, pos := iv, BLOCK, 0;
      new;
      assert counter[..] == iv;
      CounterStarts(iv);
      assert At(0);
    }

    /** Encrypts the counter and steps it, when the keystream block is used up. */
    method Refill()
      requires Valid() && used == BLOCK
      modifies this, counter
      ensures Valid() && used == 0 && pos == old(pos)
    {
      ghost var blocks := Blocks();
      keystream := E(counter[..]);
      IncrementInPlace(counter);
      CounterSteps(iv, blocks);
      used := 0;
      assert At(blocks + 1);
    }

    /** How many counter blocks have been used. */
    ghost function Blocks(): (n: nat)
      requires Valid()
      reads this, counter
      ensures At(n)
    {
      var n: nat :| At(n);
      n
    }

    /** One byte of the stream. */
    method NextByte(b: byte) returns (r: byte)
      requires Valid()
      modifies this, counter
      ensures Valid() && pos == old(pos) + 1 && r == b ^ KeyByte(E, iv, old(pos))
    {
      if used == BLOCK {
        Refill();
      }
      KeystreamHere();
      r := b ^ keystream[used];
      Advance();
    }

    /** One read of the decrypting stream: XORs the next `|src|` keystream bytes into the chunk. */
    method XorKeyStream(src: seq<byte>) returns (dst: seq<byte>)
      requires Valid()
      modifies this, counter
      ensures Valid() && pos == old(pos) + |src|
      ensures dst == Ctr(E, iv, old(pos), src)
    {
      dst := [];
      ghost var start := pos;
      for i := 0 to |src|
        invariant Valid() && pos == start + i
        invariant dst == Ctr(E, iv, start, src[..i])
      {
        var b := NextByte(src[i]);
        CtrSnoc(E, iv, start, src, i);
        dst := dst + [b];
      }
      assert src[..|src|] == src;
    }

    lemma KeystreamHere()
      requires Valid() && used < BLOCK
      ensures keystream[used] == KeyByte(E, iv, pos)
    {
      var blocks := Blocks();
      BigEndian.ModuloIsRemainder(pos, BLOCK, blocks - 1, used);
    }

    method Advance()
      requires Valid() && used < BLOCK
      modifies this
      ensures Valid() && pos == old(pos) + 1
    {
      ghost var blocks := Blocks();
      used, pos := used + 1, pos + 1;
      assert At(blocks);
    }
  }

  lemma CounterStarts(iv: Block)
    ensures Counter(iv, 0) == iv
  {
    BigEndian.EncodeDecode(iv);
  }

  lemma {:induction false} FlattenSnoc(chunks: seq<seq<byte>>, i: nat)
    requires i < |chunks|
    ensures Flatten(chunks[..i + 1]) == Flatten(chunks[..i]) + chunks[i]
  {
    if i == 0 {
      assert chunks[..1] == [chunks[0]];
      assert Flatten([chunks[0]]) == chunks[0] + Flatten([]);
    } else {
      FlattenSnoc(chunks[1..], i - 1);
      assert chunks[..i + 1][1..] == chunks[1..][..i] && chunks[..i][1..] == chunks[1..][..i - 1];
    }
  }

  /** The one-shot plaintext grows by what the next read yields. */
  lemma NextRead(E: BlockFunction, iv: Block, chunks: seq<seq<byte>>, i: nat)
    requires i < |chunks|
    ensures var done, more := Flatten(chunks[..i]), Flatten(chunks[..i + 1]);
            && |more| == |done| + |chunks[i]|
            && Ctr(E, iv, 0, more) == Ctr(E, iv, 0, done) + Ctr(E, iv, |done|, chunks[i])
  {
    FlattenSnoc(chunks, i);
    CtrSplits(E, iv, 0, Flatten(chunks[..i]), chunks[i]);
  }

  /** However a file is cut into reads, the stream yields the one-shot plaintext. */
  method ReadAll(E: BlockFunction, iv: Block, chunks: seq<seq<byte>>) returns (plain: seq<byte>)
    ensures plain == Ctr(E, iv, 0, Flatten(chunks))
  {
    var stream := new CtrStream(E, iv);
    plain := [];
    for i := 0 to |chunks|
      invariant stream.Valid() && stream.E == E && stream.iv == iv && fresh(stream) && fresh(stream.counter)
      invariant stream.pos == |Flatten(chunks[..i])| && plain == Ctr(E, iv, 0, Flatten(chunks[..i]))
    {
      var part := stream.XorKeyStream(chunks[i]);
      NextRead(E, iv, chunks, i);
      plain := plain + part;
    }
    assert chunks[..|chunks|] == chunks;
  }
}
