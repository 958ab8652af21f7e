/** From the key in a link to the bytes of the file: the derived key and counter decrypt what MEGA stores. */
module MegaDownload {
  import BigEndian
  import opened MegaBlocks
  import opened MegaCtr
  import opened MegaKey
  import opened Wrappers

  /** MEGA's own description, byte by byte: the AES key is the XOR of the two halves of the node key, */
  function NodeAesKey(key: seq<byte>): seq<byte>
    requires |key| == 32
  {
    Xor(key[..16], key[16..])
  }

  /** and bytes 16 to 23 seed the counter. */
  function NodeSeed(key: seq<byte>): seq<byte>
    requires |key| == 32
  {
    key[16..24]
  }

  lemma TopXor(x: Word, y: Word)
    ensures Byte3(x ^ y) == Byte3(x) ^ Byte3(y) && Byte2(x ^ y) == Byte2(x) ^ Byte2(y)
  {
  }

  lemma LowXor(x: Word, y: Word)
    ensures Byte1(x ^ y) == Byte1(x) ^ Byte1(y) && Byte0(x ^ y) == Byte0(x) ^ Byte0(y)
  {
  }

  lemma XorOfFour(a: byte, b: byte, c: byte, d: byte, e: byte, f: byte, g: byte, h: byte)
    ensures Xor([a, b, c, d], [e, f, g, h]) == [a ^ e, b ^ f, c ^ g, d ^ h]
  {
    var x, y := [a, b, c, d], [e, f, g, h];
    XorAt(x, y, 0);
    XorAt(x, y, 1);
    XorAt(x, y, 2);
    XorAt(x, y, 3);
    SameFour(Xor(x, y), a ^ e, b ^ f, c ^ g, d ^ h);
  }

  lemma XorAt(a: seq<byte>, b: seq<byte>, i: nat)
    requires |a| == |b| && i < |a|
    ensures Xor(a, b)[i] == a[i] ^ b[i]
  {
  }

  lemma SameFour<T>(s: seq<T>, a: T, b: T, c: T, d: T)
    requires |s| == 4 && s[0] == a && s[1] == b && s[2] == c && s[3] == d
    ensures s == [a, b, c, d]
  {
  }

  lemma BytesOfXor(x: Word, y: Word)
    ensures PutUint32(x ^ y) == Xor(PutUint32(x), PutUint32(y))
  {
    TopXor(x, y);
    LowXor(x, y);
    XorOfFour(Byte3(x), Byte2(x), Byte1(x), Byte0(x), Byte3(y), Byte2(y), Byte1(y), Byte0(y));
  }

  function Four<T>(s: seq<T>, i: nat): seq<T>
    requires 4 * i + 4 <= |s|
  {
    s[4 * i..4 * i + 4]
  }

  lemma FourBytes(w: seq<Word>, i: nat)
    requires i < |w|
    ensures Four(Bytes(w), i) == PutUint32(w[i])
  {
    BytesOfWordAt(w, i);
  }

  lemma FourXor(a: seq<byte>, b: seq<byte>, i: nat)
    requires |a| == |b| && 4 * i + 4 <= |a|
    ensures Four(Xor(a, b), i) == Xor(Four(a, i), Four(b, i))
  {
  }

  lemma SameFours<T>(a: seq<T>, b: seq<T>)
    requires |a| == |b| == 16
    requires Four(a, 0) == Four(b, 0) && Four(a, 1) == Four(b, 1) && Four(a, 2) == Four(b, 2) && Four(a, 3) == Four(b, 3)
    ensures a == b
  {
    assert a == Four(a, 0) + Four(a, 1) + Four(a, 2) + Four(a, 3);
    assert b == Four(b, 0) + Four(b, 1) + Four(b, 2) + Four(b, 3);
  }

  lemma FourOfMix(a: seq<Word>, b: seq<Word>, i: nat)
    requires |a| == |b| == 4 && i < 4
    ensures Four(Bytes(Mix(a, b)), i) == Four(Xor(Bytes(a), Bytes(b)), i)
  {
    FourBytes(a, i);
    FourBytes(b, i);
    FourBytes(Mix(a, b), i);
    BytesOfXor(a[i], b[i]);
    FourXor(Bytes(a), Bytes(b), i);
  }

  lemma BytesOfMix(a: seq<Word>, b: seq<Word>)
    requires |a| == |b| == 4
    ensures Bytes(Mix(a, b)) == Xor(Bytes(a), Bytes(b))
  {
    FourOfMix(a, b, 0);
    FourOfMix(a, b, 1);
    FourOfMix(a, b, 2);
    FourOfMix(a, b, 3);
    SameFours(Bytes(Mix(a, b)), Xor(Bytes(a), Bytes(b)));
  }

  lemma BytesOfHalves(w: seq<Word>)
    requires |w| == 8
    ensures Bytes(w)[..16] == Bytes(w[..4]) && Bytes(w)[16..] == Bytes(w[4..])
  {
    forall j | 0 <= j < 16 ensures Bytes(w)[j] == Bytes(w[..4])[j] && Bytes(w)[j + 16] == Bytes(w[4..])[j] {
      assert (j + 16) / 4 == j / 4 + 4 && (j + 16) % 4 == j % 4;
    }
  }

  lemma SeedBytes(w: seq<Word>)
    requires |w| == 8
    ensures Bytes(w)[16..24] == PutUint32(w[4]) + PutUint32(w[5])
  {
    FourBytes(w, 4);
    FourBytes(w, 5);
    assert Bytes(w)[16..24] == Four(Bytes(w), 4) + Four(Bytes(w), 5);
  }

  lemma MacBytes(w: seq<Word>)
    requires |w| == 8
    ensures Bytes(w)[24..28] == PutUint32(w[6]) && Bytes(w)[28..] == PutUint32(w[7])
  {
    FourBytes(w, 6);
    FourBytes(w, 7);
    assert Bytes(w)[28..] == Four(Bytes(w), 7);
  }

  /** The word arithmetic of `deriveFileKey` computes MEGA's key and seed. */
  lemma DerivedIsMegas(raw: seq<byte>)
    requires Derived(raw).Some?
    ensures |Padded(raw)| == 32
    ensures Derived(raw).value.aesKey == NodeAesKey(Padded(raw))
    ensures Derived(raw).value.iv == NodeSeed(Padded(raw)) + Zeros(8)
    ensures PutUint32(Derived(raw).value.mac.0) == Padded(raw)[24..28]
    ensures PutUint32(Derived(raw).value.mac.1) == Padded(raw)[28..]
  {
    var w := Words(raw);
    BytesOfWords(raw);
    BytesOfHalves(w);
    BytesOfMix(w[..4], w[4..]);
    SeedBytes(w);
    DerivedMac(raw);
  }

  lemma DerivedMac(raw: seq<byte>)
    requires Derived(raw).Some?
    ensures |Padded(raw)| == 32
    ensures PutUint32(Derived(raw).value.mac.0) == Padded(raw)[24..28]
    ensures PutUint32(Derived(raw).value.mac.1) == Padded(raw)[28..]
  {
    BytesOfWords(raw);
    MacBytes(Words(raw));
  }

  /** What MEGA stores of a file under a node key, for any keyed block cipher. */
  function Stored(aes: seq<byte> -> BlockFunction, key: seq<byte>, data: seq<byte>): seq<byte>
    requires |key| == 32
  {
    MegaEncrypt(aes(NodeAesKey(key)), NodeSeed(key), data)
  }

  /** Every key that is accepted decrypts the file stored under it, for files under 2^64 blocks. */
  lemma DownloadDecrypts(aes: seq<byte> -> BlockFunction, raw: seq<byte>, data: seq<byte>)
    requires Derived(raw).Some? && |data| <= BLOCK * BigEndian.Pow256(8)
    ensures var fk := Derived(raw).value;
            |Padded(raw)| == 32 && |fk.iv| == 16
            && Ctr(aes(fk.aesKey), fk.iv, 0, Stored(aes, Padded(raw), data)) == data
  {
    DerivedIsMegas(raw);
    MegaFileDecrypts(aes(NodeAesKey(Padded(raw))), NodeSeed(Padded(raw)), data);
  }
}
