/** MEGA's node keys: big-endian words, and the split into an AES key, a counter seed and a MAC. */
module MegaKey {
  import opened Wrappers

  type Word = bv32

  // ---------------------------------------------------------------- words

  /** `binary.BigEndian.Uint32`. */
  function Uint32(a: byte, b: byte, c: byte, d: byte): Word {
    ((a as Word) << 24) | ((b as Word) << 16) | ((c as Word) << 8) | (d as Word)
  }

  function Byte3(w: Word): byte { (w >> 24) as byte }
  function Byte2(w: Word): byte { ((w >> 16) & 0xFF) as byte }
  function Byte1(w: Word): byte { ((w >> 8) & 0xFF) as byte }
  function Byte0(w: Word): byte { (w & 0xFF) as byte }

  /** `binary.BigEndian.PutUint32`. */
  function PutUint32(w: Word): (r: seq<byte>)
    ensures |r| == 4
  {
    [Byte3(w), Byte2(w), Byte1(w), Byte0(w)]
  }

  lemma PutThenGet(w: Word)
    ensures Uint32(Byte3(w), Byte2(w), Byte1(w), Byte0(w)) == w
  {
  }

  lemma TopByte(a: byte, b: byte, c: byte, d: byte)
    ensures Byte3(Uint32(a, b, c, d)) == a
  {
  }

  lemma SecondByte(a: byte, b: byte, c: byte, d: byte)
    ensures Byte2(Uint32(a, b, c, d)) == b
  {
  }

  lemma ThirdByte(a: byte, b: byte, c: byte, d: byte)
    ensures Byte1(Uint32(a, b, c, d)) == c
  {
  }

  lemma LastByte(a: byte, b: byte, c: byte, d: byte)
    ensures Byte0(Uint32(a, b, c, d)) == d
  {
  }

  /** The first byte weighs most. */
  lemma WordValue(a: byte, b: byte, c: byte, d: byte)
    ensures Uint32(a, b, c, d)
         == (a as Word) * 0x100_0000 + (b as Word) * 0x1_0000 + (c as Word) * 0x100 + (d as Word)
  {
  }

  lemma GetThenPut(a: byte, b: byte, c: byte, d: byte)
    ensures PutUint32(Uint32(a, b, c, d)) == [a, b, c, d]
  {
    TopByte(a, b, c, d);
    SecondByte(a, b, c, d);
    ThirdByte(a, b, c, d);
    LastByte(a, b, c, d);
  }

  // ---------------------------------------------------------------- sequences of words

  /** The bytes, zero-padded to a whole number of words. */
  function Padded(b: seq<byte>): (r: seq<byte>)
    ensures |r| % 4 == 0 && |b| <= |r| < |b| + 4 && b <= r
  {
    if |b| % 4 == 0 then b else b + Zeros(4 - |b| % 4)
  }

  lemma PaddedWithZeros(b: seq<byte>)
    ensures Padded(b)[|b|..] == Zeros((4 - |b| % 4) % 4)
  {
  }

  function WordAt(b: seq<byte>, i: nat): Word
    requires 4 * i + 4 <= |b|
  {
    Uint32(b[4 * i], b[4 * i + 1], b[4 * i + 2], b[4 * i + 3])
  }

  function Words(b: seq<byte>): (r: seq<Word>)
    ensures |r| == |Padded(b)| / 4
  {
    var p := Padded(b);
    seq(|p| / 4, i requires 0 <= i < |p| / 4 => WordAt(p, i))
  }

  function Bytes(words: seq<Word>): (r: seq<byte>)
    ensures |r| == 4 * |words|
  {
    seq(4 * |words|, j requires 0 <= j < 4 * |words| => PutUint32(words[j / 4])[j % 4])
  }

  /** Packing and unpacking lose nothing: words survive the trip through bytes, */
  lemma WordsOfBytes(words: seq<Word>)
    ensures Words(Bytes(words)) == words
  {
    var b := Bytes(words);
    forall i | 0 <= i < |words| ensures Words(b)[i] == words[i] {
      BytesOfWordAt(words, i);
      PutThenGet(words[i]);
    }
  }

  lemma BytesOfWordAt(words: seq<Word>, i: nat)
    requires i < |words|
    ensures var b := Bytes(words);
            b[4 * i] == Byte3(words[i]) && b[4 * i + 1] == Byte2(words[i])
            && b[4 * i + 2] == Byte1(words[i]) && b[4 * i + 3] == Byte0(words[i])
  {
    assert (4 * i) / 4 == i && (4 * i + 1) / 4 == i && (4 * i + 2) / 4 == i && (4 * i + 3) / 4 == i;
  }

  /** and bytes survive the trip through words, up to the zero padding. */
  lemma BytesOfWords(b: seq<byte>)
    ensures Bytes(Words(b)) == Padded(b)
  {
    var p, w := Padded(b), Words(b);
    forall j | 0 <= j < |p| ensures Bytes(w)[j] == p[j] {
      var i := j / 4;
      assert j == 4 * i + j % 4;
      GetThenPut(p[4 * i], p[4 * i + 1], p[4 * i + 2], p[4 * i + 3]);
    }
  }

  /** `bytesToA32`: pads, then reads word by word. */
  method BytesToA32(b: seq<byte>) returns (words: array<Word>)
    ensures fresh(words) && words[..] == Words(b)
  {
    var p := b;
    if |b| % 4 != 0 {
      p := b + Zeros(4 - |b| % 4);
    }
    words := new Word[|p| / 4];
    for i := 0 to words.Length
      invariant forall k :: 0 <= k < i ==> words[k] == WordAt(p, k)
    {
      words[i] := Uint32(p[4 * i], p[4 * i + 1], p[4 * i + 2], p[4 * i + 3]);
    }
  }

  /** `a32ToBytes`: writes each word into its four bytes. */
  method A32ToBytes(words: array<Word>) returns (b: array<byte>)
    ensures fresh(b) && b[..] == Bytes(words[..])
  {
    b := new byte[4 * words.Length];
    ghost var ws := words[..];
    for i := 0 to words.Length
      invariant b[..4 * i] == Bytes(ws[..i])
    {
      PutWord(b, i, words[i]);
      BytesGrow(ws, i);
    }
    assert ws[..words.Length] == ws && b[..4 * words.Length] == b[..];
  }

  method PutWord(b: array<byte>, i: nat, w: Word)
    requires 4 * i + 4 <= b.Length
    modifies b
    ensures b[..4 * i + 4] == old(b[..4 * i]) + PutUint32(w)
  {
    b[4 * i], b[4 * i + 1], b[4 * i + 2], b[4 * i + 3] := Byte3(w), Byte2(w), Byte1(w), Byte0(w);
  }

  lemma BytesGrow(words: seq<Word>, i: nat)
    requires i < |words|
    ensures Bytes(words[..i + 1]) == Bytes(words[..i]) + PutUint32(words[i])
  {
    var longer := words[..i + 1];
    BytesOfWordAt(longer, i);
    forall j | 0 <= j < 4 * i ensures Bytes(longer)[j] == Bytes(words[..i])[j] {
      assert j / 4 < i;
    }
  }

  // ---------------------------------------------------------------- the file key

  datatype FileKey = FileKey(aesKey: seq<byte>, iv: seq<byte>, mac: (Word, Word))

  /** The XOR of two lists of four words. */
  function Mix(a: seq<Word>, b: seq<Word>): (r: seq<Word>)
    requires |a| == |b| == 4
    ensures |r| == 4
  {
    seq(4, i requires 0 <= i < 4 => a[i] ^ b[i])
  }

  /** The key split of eight words: the halves are XORed into the AES key, words 4 and 5 seed the counter,
      words 6 and 7 are the MAC. */
  function Split(w: seq<Word>): FileKey
    requires |w| == 8
  {
    FileKey(Bytes(Mix(w[..4], w[4..])),
            PutUint32(w[4]) + PutUint32(w[5]) + Zeros(8),
            (w[6], w[7]))
  }

  /** The last four words of the node key, as the file key keeps them. */
  function UpperWords(fk: FileKey): (r: seq<Word>)
    requires |fk.iv| == 16
    ensures |r| == 4
  {
    [WordAt(fk.iv, 0), WordAt(fk.iv, 1), fk.mac.0, fk.mac.1]
  }

  /** The node key from which a file key was split. */
  function Rebuild(fk: FileKey): seq<byte>
    requires |fk.aesKey| == 16 && |fk.iv| == 16
  {
    var hi := UpperWords(fk);
    Bytes(Mix(Words(fk.aesKey), hi) + hi)
  }

  /** A second XOR with the same words undoes the first. */
  lemma Unmix(a: seq<Word>, b: seq<Word>)
    requires |a| == |b| == 4
    ensures Mix(Mix(a, b), b) == a
  {
    forall i | 0 <= i < 4 ensures Mix(Mix(a, b), b)[i] == a[i] {
      WordXorTwice(a[i], b[i]);
    }
  }

  lemma WordXorTwice(x: Word, y: Word)
    ensures (x ^ y) ^ y == x
  {
  }

  lemma SeedWords(x: Word, y: Word)
    ensures var iv := PutUint32(x) + PutUint32(y) + Zeros(8);
            |iv| == 16 && WordAt(iv, 0) == x && WordAt(iv, 1) == y
  {
    PutThenGet(x);
    PutThenGet(y);
  }

  /** Nothing is lost in the split: the words come back. */
  lemma SplitIsLossless(w: seq<Word>)
    requires |w| == 8
    ensures |Split(w).aesKey| == 16 && |Split(w).iv| == 16
    ensures Rebuild(Split(w)) == Bytes(w)
  {
    UpperWordsKept(w);
    LowerWordsKept(w);
  }

  lemma LowerWordsKept(w: seq<Word>)
    requires |w| == 8
    ensures Mix(Words(Split(w).aesKey), w[4..]) + w[4..] == w
  {
    WordsOfBytes(Mix(w[..4], w[4..]));
    Unmix(w[..4], w[4..]);
    Halves(w);
  }

  lemma Halves(w: seq<Word>)
    requires |w| == 8
    ensures w[..4] + w[4..] == w
  {
  }

  lemma UpperWordsKept(w: seq<Word>)
    requires |w| == 8
    ensures UpperWords(Split(w)) == w[4..]
  {
    SeedWords(w[4], w[5]);
  }

  /** What `deriveFileKey` makes of a decoded key, or None for the length error. */
  function Derived(raw: seq<byte>): Option<FileKey> {
    if |Words(raw)| != 8 then None else Some(Split(Words(raw)))
  }

  /** A key is accepted exactly when its padded form has 32 bytes; the padded key can be rebuilt from the result. */
  lemma KeyCanBeRebuilt(raw: seq<byte>)
    ensures Derived(raw).Some? <==> 29 <= |raw| <= 32
    ensures Derived(raw).Some? ==> Rebuild(Derived(raw).value) == Padded(raw)
  {
    if Derived(raw).Some? {
      SplitIsLossless(Words(raw));
      BytesOfWords(raw);
    }
  }

  /** Two keys give the same file key exactly when they agree after padding; so 32-byte keys never collide. */
  lemma KeysCollideOnlyByPadding(a: seq<byte>, b: seq<byte>)
    requires Derived(a).Some? && Derived(b).Some?
    ensures Derived(a) == Derived(b) <==> Padded(a) == Padded(b)
    ensures |a| == |b| == 32 && Derived(a) == Derived(b) ==> a == b
  {
    KeyCanBeRebuilt(a);
    KeyCanBeRebuilt(b);
    if Padded(a) == Padded(b) {
      assert Words(a) == Words(b);
    }
  }

  /** The four words of the AES key. */
  method MixHalves(words: array<Word>) returns (k: array<Word>)
    requires words.Length == 8
    ensures fresh(k)
    ensures k[..] == Mix(words[..4], words[4..])
  {
    k := new Word[4];
    ghost var mixed := Mix(words[..4], words[4..]);
    for i := 0 to 4
      invariant k[..i] == mixed[..i]
    {
      k[i] := words[i] ^ words[i + 4];
      assert k[i] == mixed[i];
    }
    assert k[..4] == k[..];
  }

  /** The initial counter block: two words, and a low half of zeros. */
  method SeedCounter(x: Word, y: Word) returns (iv: array<byte>)
    ensures fresh(iv) && iv[..] == PutUint32(x) + PutUint32(y) + Zeros(8)
  {
    iv := new byte[16](_ => 0);
    iv[0], iv[1], iv[2], iv[3] := Byte3(x), Byte2(x), Byte1(x), Byte0(x);
    iv[4], iv[5], iv[6], iv[7] := Byte3(y), Byte2(y), Byte1(y), Byte0(y);
  }

  /** `deriveFileKey` after the base64 decoding. */
  method DeriveFileKey(raw: seq<byte>) returns (r: Option<FileKey>)
    ensures r == Derived(raw)
  {
    var words := BytesToA32(raw);
    if words.Length != 8 {
      return None;
    }
    var k := MixHalves(words);
    var iv := SeedCounter(words[4], words[5]);
    var aesKey := A32ToBytes(k);
    assert words[..] == Words(raw);
    r := Some(FileKey(aesKey[..], iv[..], (words[6], words[7])));
  }
}
