/** Cipher block chaining and zero padding, as MEGA packs a node's attributes. */
module MegaCbc {
  import opened MegaBlocks
  import opened Wrappers

  /** CBC encryption of whole blocks, chained from `prev`. */
  function CbcEncrypt(E: BlockFunction, prev: Block, plain: seq<byte>): (r: seq<byte>)
    requires |plain| % BLOCK == 0
    ensures |r| == |plain|
    decreases |plain|
  {
    if plain == [] then []
    else
      var c: Block := E(Xor(plain[..BLOCK], prev));
      c + CbcEncrypt(E, c, plain[BLOCK..])
  }

  function CbcDecrypt(D: BlockFunction, prev: Block, cipher: seq<byte>): (r: seq<byte>)
    requires |cipher| % BLOCK == 0
    ensures |r| == |cipher|
    decreases |cipher|
  {
    if cipher == [] then []
    else Xor(D(cipher[..BLOCK]), prev) + CbcDecrypt(D, cipher[..BLOCK], cipher[BLOCK..])
  }

  ghost predicate Inverse(E: BlockFunction, D: BlockFunction) {
    forall b: Block :: D(E(b)) == b
  }

  lemma {:induction false} CbcInverts(E: BlockFunction, D: BlockFunction, prev: Block, plain: seq<byte>)
    requires Inverse(E, D) && |plain| % BLOCK == 0
    ensures CbcDecrypt(D, prev, CbcEncrypt(E, prev, plain)) == plain
    decreases |plain|
  {
    if plain != [] {
      var head, tail := plain[..BLOCK], plain[BLOCK..];
      var mixed: Block := Xor(head, prev);
      var c: Block := E(mixed);
      CbcInverts(E, D, c, tail);
      CbcUnfold(D, prev, c, CbcEncrypt(E, c, tail));
      XorUndoes(head, prev);
      assert D(c) == mixed;
      assert head + tail == plain;
    }
  }

  function BlockAt(s: seq<byte>, j: nat): Block
    requires BLOCK * j + BLOCK <= |s|
  {
    s[BLOCK * j..BLOCK * j + BLOCK]
  }

  /** Decryption block by block: the block function of the cipher block, XORed with the cipher block before it, or with
      the IV (section 6.2 of NIST SP 800-38A). */
  lemma {:induction false} CbcDecryptBlock(D: BlockFunction, iv: Block, cipher: seq<byte>, j: nat)
    requires |cipher| % BLOCK == 0 && BLOCK * j + BLOCK <= |cipher|
    ensures BlockAt(CbcDecrypt(D, iv, cipher), j)
         == Xor(D(BlockAt(cipher, j)), if j == 0 then iv else BlockAt(cipher, j - 1))
    decreases j
  {
    var c: Block := cipher[..BLOCK];
    var rest := CbcDecrypt(D, c, cipher[BLOCK..]);
    assert CbcDecrypt(D, iv, cipher) == Xor(D(c), iv) + rest;
    if j > 0 {
      CbcDecryptBlock(D, c, cipher[BLOCK..], j - 1);
      ShiftedBlock(Xor(D(c), iv), rest, j);
      ShiftedBlock(c, cipher[BLOCK..], j);
      assert c + cipher[BLOCK..] == cipher;
      if j > 1 {
        ShiftedBlock(c, cipher[BLOCK..], j - 1);
      }
    }
  }

  lemma ShiftedBlock(head: seq<byte>, tail: seq<byte>, j: nat)
    requires |head| == BLOCK && j > 0 && BLOCK * j <= |tail|
    ensures BlockAt(head + tail, j) == BlockAt(tail, j - 1)
  {
  }

  lemma CbcUnfold(D: BlockFunction, prev: Block, c: Block, rest: seq<byte>)
    requires |rest| % BLOCK == 0
    ensures CbcDecrypt(D, prev, c + rest) == Xor(D(c), prev) + CbcDecrypt(D, c, rest)
  {
    var s := c + rest;
    assert s[..BLOCK] == c && s[BLOCK..] == rest;
  }

  /** The number of bytes missing to a block boundary. */
  function Missing(n: nat): (k: nat)
    ensures (n + k) % BLOCK == 0 && k < BLOCK
  {
    if n % BLOCK == 0 then 0 else BLOCK - n % BLOCK
  }

  /** Zero padding to a block boundary. */
  function PadToBlock(data: seq<byte>): (r: seq<byte>)
    ensures |r| % BLOCK == 0
  {
    data + Zeros(Missing(|data|))
  }

  /** The data without its trailing zero bytes. */
  function Trimmed(data: seq<byte>): seq<byte> {
    if data != [] && data[|data| - 1] == 0 then Trimmed(data[..|data| - 1]) else data
  }

  predicate EndsInZero(data: seq<byte>) {
    data != [] && data[|data| - 1] == 0
  }

  lemma {:induction false} TrimUndoesZeros(data: seq<byte>, n: nat)
    ensures Trimmed(data + Zeros(n)) == Trimmed(data)
  {
    if n == 0 {
      assert data + Zeros(0) == data;
    } else {
      assert (data + Zeros(n))[..|data| + n - 1] == data + Zeros(n - 1);
      TrimUndoesZeros(data, n - 1);
    }
  }

  lemma {:induction false} TrimmedIsClean(data: seq<byte>)
    ensures !EndsInZero(Trimmed(data))
  {
    if EndsInZero(data) {
      TrimmedIsClean(data[..|data| - 1]);
    }
  }

  /** `trimTrailingNulls`. */
  method TrimTrailingNulls(data: seq<byte>) returns (b: seq<byte>)
    ensures b == Trimmed(data)
  {
    b := data;
    while |b| > 0 && b[|b| - 1] == 0
      invariant Trimmed(b) == Trimmed(data)
      decreases |b|
    {
      b := b[..|b| - 1];
    }
  }

  datatype Attributes<J> = Parsed(value: J) | BadLength | NoPrefix | BadJson

  const MEGA: seq<byte> := [0x4D, 0x45, 0x47, 0x41]

  /** What `decryptAttributes` promises; `parse` stands for the JSON decoder. */
  function AttributesOf<J>(D: BlockFunction, parse: seq<byte> -> Option<J>, encoded: seq<byte>): Attributes<J> {
    if |encoded| % BLOCK != 0 then BadLength
    else
      var plain := Trimmed(CbcDecrypt(D, Zeros(BLOCK), encoded));
      if !(MEGA <= plain) then NoPrefix
      else match parse(plain[4..]) case Some(v) => Parsed(v) case None => BadJson
  }

  /** `decryptAttributes`. */
  method DecryptAttributes<J>(D: BlockFunction, parse: seq<byte> -> Option<J>, encoded: seq<byte>) returns (r: Attributes<J>)
    ensures r == AttributesOf(D, parse, encoded)
  {
    if |encoded| % BLOCK != 0 {
      return BadLength;
    }
    var plain := CryptBlocks(D, encoded);
    var trimmed := TrimTrailingNulls(plain[..]);
    if !(MEGA <= trimmed) {
      return NoPrefix;
    }
    match parse(trimmed[4..]) {
      case Some(v) => r := Parsed(v);
      case None => r := BadJson;
    }
  }

  /** The library's CBC decrypter: block by block into a fresh buffer, with a zero IV. */
  method CryptBlocks(D: BlockFunction, encoded: seq<byte>) returns (plain: array<byte>)
    requires |encoded| % BLOCK == 0
    ensures fresh(plain) && plain[..] == CbcDecrypt(D, Zeros(BLOCK), encoded)
  {
    plain := new byte[|encoded|];
    var prev: Block := Zeros(BLOCK);
    ghost var goal := CbcDecrypt(D, prev, encoded);
    assert encoded[0..] == encoded && plain[..0] + goal == goal;
    CryptFrom(D, plain, prev, encoded, goal);
  }

  /** Decrypts the block at `at` into the buffer and yields it as the next one to chain from. */
  method CryptBlock(D: BlockFunction, plain: array<byte>, prev: Block, encoded: seq<byte>, at: nat) returns (next: Block)
    requires |encoded| % BLOCK == 0 && at % BLOCK == 0 && at + BLOCK <= |encoded| == plain.Length
    modifies plain
    ensures plain[..at + BLOCK] + CbcDecrypt(D, next, FromBlock(encoded, at + BLOCK))
         == old(plain[..at]) + CbcDecrypt(D, prev, FromBlock(encoded, at))
  {
    next := encoded[at..at + BLOCK];
    CbcAdvance(D, prev, encoded, at, plain[..at]);
    PutBlock(plain, at, Xor(D(next), prev));
  }

  /** What is still to be decrypted from block boundary `at` on. */
  function FromBlock(encoded: seq<byte>, at: nat): (r: seq<byte>)
    requires |encoded| % BLOCK == 0 && at % BLOCK == 0 && at <= |encoded|
    ensures |r| % BLOCK == 0
  {
    encoded[at..]
  }

  /** The loop over the blocks. */
  method CryptFrom(D: BlockFunction, plain: array<byte>, first: Block, encoded: seq<byte>, ghost goal: seq<byte>)
    requires |encoded| % BLOCK == 0 && plain.Length == |encoded|
    requires plain[..0] + CbcDecrypt(D, first, FromBlock(encoded, 0)) == goal
    modifies plain
    ensures plain[..] == goal
  {
    var prev, at := first, 0;
    while at < |encoded|
      invariant 0 <= at <= |encoded| == plain.Length && at % BLOCK == 0
      invariant plain[..at] + CbcDecrypt(D, prev, FromBlock(encoded, at)) == goal
    {
      prev := CryptBlock(D, plain, prev, encoded, at);
      at := at + BLOCK;
    }
    NothingLeft(D, prev, encoded, plain[..at]);
    assert plain[..at] == plain[..];
  }

  lemma NothingLeft(D: BlockFunction, prev: Block, encoded: seq<byte>, done: seq<byte>)
    requires |encoded| % BLOCK == 0
    ensures done + CbcDecrypt(D, prev, FromBlock(encoded, |encoded|)) == done
  {
    assert FromBlock(encoded, |encoded|) == [];
  }

  lemma CbcAdvance(D: BlockFunction, prev: Block, encoded: seq<byte>, at: nat, done: seq<byte>)
    requires |encoded| % BLOCK == 0 && at % BLOCK == 0 && at + BLOCK <= |encoded|
    ensures var block := encoded[at..at + BLOCK];
            (done + CbcDecrypt(D, prev, FromBlock(encoded, at))
             == (done + Xor(D(block), prev)) + CbcDecrypt(D, block, FromBlock(encoded, at + BLOCK)))
  {
    var block, rest := encoded[at..at + BLOCK], encoded[at + BLOCK..];
    assert encoded[at..] == block + rest;
    CbcUnfold(D, prev, block, rest);
  }

  method PutBlock(a: array<byte>, at: nat, block: Block)
    requires at + BLOCK <= a.Length
    modifies a
    ensures a[..at + BLOCK] == old(a[..at]) + block
  {
    for j := 0 to BLOCK
      invariant a[..at + j] == old(a[..at]) + block[..j]
    {
      a[at + j] := block[j];
    }
  }

  /** A padded and encrypted blob comes back as it went in exactly when it does not end in a zero byte. */
  lemma BlobRoundTrip(E: BlockFunction, D: BlockFunction, blob: seq<byte>)
    requires Inverse(E, D)
    ensures Trimmed(CbcDecrypt(D, Zeros(BLOCK), CbcEncrypt(E, Zeros(BLOCK), PadToBlock(blob)))) == blob
       <==> !EndsInZero(blob)
  {
    CbcInverts(E, D, Zeros(BLOCK), PadToBlock(blob));
    TrimUndoesZeros(blob, Missing(|blob|));
    TrimmedIsClean(blob);
  }

  /** The three ways a blob is refused, and the one in which it is read, each exactly. `blob` is what was packed. */
  lemma AttributeOutcomes<J>(E: BlockFunction, D: BlockFunction, parse: seq<byte> -> Option<J>, blob: seq<byte>)
    requires Inverse(E, D) && !EndsInZero(blob)
    ensures var r := AttributesOf(D, parse, CbcEncrypt(E, Zeros(BLOCK), PadToBlock(blob)));
            var prefixed := |blob| >= 4 && blob[..4] == [0x4D, 0x45, 0x47, 0x41];
            && !r.BadLength?
            && (r.NoPrefix? <==> !prefixed)
            && (r.BadJson? <==> prefixed && parse(blob[4..]).None?)
            && (r.Parsed? <==> prefixed && parse(blob[4..]).Some?)
            && (r.Parsed? ==> parse(blob[4..]) == Some(r.value))
  {
    BlobRoundTrip(E, D, blob);
    PrefixIsMega(blob);
  }

  lemma PrefixIsMega(s: seq<byte>)
    ensures MEGA <= s <==> |s| >= 4 && s[..4] == [0x4D, 0x45, 0x47, 0x41]
  {
  }

  lemma LengthIsChecked<J>(D: BlockFunction, parse: seq<byte> -> Option<J>, encoded: seq<byte>)
    ensures AttributesOf(D, parse, encoded).BadLength? <==> |encoded| % 16 != 0
  {
  }

  /** An attribute blob as MEGA builds it gives its parsed value back, unless it ends in a zero byte. */
  lemma AttributesRoundTrip<J>(E: BlockFunction, D: BlockFunction, parse: seq<byte> -> Option<J>, json: seq<byte>)
    requires Inverse(E, D) && !EndsInZero(MEGA + json) && parse(json).Some?
    ensures AttributesOf(D, parse, CbcEncrypt(E, Zeros(BLOCK), PadToBlock(MEGA + json))) == Parsed(parse(json).value)
  {
    BlobRoundTrip(E, D, MEGA + json);
    assert (MEGA + json)[4..] == json;
  }
}
