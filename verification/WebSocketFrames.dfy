/** The frame format of section 5.2 of RFC 6455, as the hand-written codec prints and parses it. */
module WebSocketFrames {
  import BigEndian
  import opened Wrappers

  const OP_TEXT: byte := 0x1
  const OP_CLOSE: byte := 0x8
  const OP_PING: byte := 0x9
  const OP_PONG: byte := 0xA

  /** Section 5.2 of RFC 6455 keeps the top bit of a length clear. */
  const MAX_LENGTH: nat := 0x8000_0000_0000_0000

  /** The shortest payload that Go's `make` refuses. It depends on the platform, and every result holds for each of
      these: 2^48 and one on 64-bit Linux, never more than the bound on the length of a slice. */
  type Limit = n: nat | 0x1_0000 <= n <= MAX_LENGTH witness MAX_LENGTH

  type Key = k: seq<byte> | |k| == 4 witness [0, 0, 0, 0]

  datatype Frame = Frame(opcode: byte, payload: seq<byte>)

  /** What `readFrame` makes of its input. `TooLong` is where `make` panics. */
  datatype Parsed =
    | Read(frame: Frame, rest: seq<byte>)
    | CloseReceived(payload: seq<byte>, rest: seq<byte>)
    | Short
    | TooLong

  function Masked(data: seq<byte>, key: Key): (r: seq<byte>)
    ensures |r| == |data|
  {
    seq(|data|, i requires 0 <= i < |data| => data[i] ^ key[i % 4])
  }

  /** The seven length bits of the second byte. */
  function LengthBits(n: nat): (b: byte)
    ensures b & 0x80 == 0
    ensures n <= 125 ==> b != 126 && b != 127 && b as nat == n
    ensures 125 < n <= 0xFFFF ==> b == 126
    ensures 0xFFFF < n ==> b == 127
  {
    if n <= 125 then SmallByte(n) else if n <= 0xFFFF then 126 else 127
  }

  function SmallByte(n: nat): (b: byte)
    requires n <= 125
    ensures b & 0x80 == 0 && b != 126 && b != 127 && b as nat == n
  {
    LowByte(BigEndian.ByteOf(n));
    BigEndian.ByteOf(n)
  }

  lemma LowByte(b: byte)
    requires b as nat <= 125
    ensures b & 0x80 == 0 && b != 126 && b != 127
  {
  }

  function ExtendedLength(n: nat): seq<byte> {
    if n <= 125 then [] else if n <= 0xFFFF then BigEndian.Encode(n, 2) else BigEndian.Encode(n, 8)
  }

  /** The bytes before the payload. */
  function Header(opcode: byte, n: nat, mask: Option<Key>): seq<byte> {
    [0x80 | opcode, if mask.Some? then 0x80 | LengthBits(n) else LengthBits(n)]
      + ExtendedLength(n)
      + (if mask.Some? then mask.value else [])
  }

  function Encode(f: Frame, mask: Option<Key>): seq<byte> {
    Header(f.opcode, |f.payload|, mask) + (if mask.Some? then Masked(f.payload, mask.value) else f.payload)
  }

  // ---------------------------------------------------------------- parsing

  /** The number of bytes that follow the first two and hold the length. */
  function LengthWidth(bits: byte): nat {
    if bits == 126 then 2 else if bits == 127 then 8 else 0
  }

  /** The payload length announced by the second byte and the bytes after it. */
  function AnnouncedLength(s: seq<byte>): nat
    requires |s| >= 2 && |s| >= 2 + LengthWidth(s[1] & 0x7F)
  {
    var bits := s[1] & 0x7F;
    if bits == 126 || bits == 127 then BigEndian.Decode(s[2..2 + LengthWidth(bits)]) else bits as nat
  }

  /** The bytes before the payload, when the input is long enough to hold them. */
  function HeaderLength(s: seq<byte>): Option<nat> {
    if |s| < 2 then None
    else
      var w := 2 + LengthWidth(s[1] & 0x7F);
      var h := if s[1] & 0x80 != 0 then w + 4 else w;
      if |s| < h then None else Some(h)
  }

  /** A close frame ends the conversation. */
  function Received(opcode: byte, payload: seq<byte>, rest: seq<byte>): Parsed {
    if opcode == OP_CLOSE then CloseReceived(payload, rest) else Read(Frame(opcode, payload), rest)
  }

  /** The `n` bytes from `h` on, unmasked where the second byte asks for it. */
  function PayloadAt(s: seq<byte>, h: nat, n: nat): (r: seq<byte>)
    requires 2 <= h && h + n <= |s| && (s[1] & 0x80 != 0 ==> 4 <= h)
    ensures |r| == n
  {
    if s[1] & 0x80 != 0 then Masked(s[h..h + n], s[h - 4..h]) else s[h..h + n]
  }

  /** What follows a header of `h` bytes that announces `n`. */
  function ParseBody(limit: Limit, s: seq<byte>, h: nat, n: nat): Parsed
    requires 2 <= h <= |s| && (s[1] & 0x80 != 0 ==> 6 <= h)
  {
    if n >= limit then TooLong
    else if |s| < h + n then Short
    else Received(s[0] & 0x0F, PayloadAt(s, h, n), s[h + n..])
  }

  function Parse(limit: Limit, s: seq<byte>): Parsed {
    match HeaderLength(s)
    case None => Short
    case Some(h) => ParseBody(limit, s, h, AnnouncedLength(s))
  }

  /** A complete header in the eight-byte form that announces a length from the limit up. */
  predicate ImpossibleLength(limit: Limit, s: seq<byte>) {
    HeaderLength(s).Some? && s[1] & 0x7F == 127 && BigEndian.Decode(s[2..10]) >= limit
  }

  /** Those are exactly the inputs whose length fits no slice: the two shorter forms always fit. */
  lemma TooLongExactly(limit: Limit, s: seq<byte>)
    ensures Parse(limit, s).TooLong? <==> ImpossibleLength(limit, s)
  {
    if HeaderLength(s).Some? {
      var bits := s[1] & 0x7F;
      if bits != 127 {
        ShortLength(s, bits);
      }
    }
  }

  lemma ShortLength(s: seq<byte>, bits: byte)
    requires HeaderLength(s).Some? && bits == s[1] & 0x7F && bits != 127
    ensures AnnouncedLength(s) < 0x1_0000
  {
    if bits == 126 {
      BigEndian.Powers();
      BigEndian.EncodeDecode(s[2..4]);
    }
  }

  // ---------------------------------------------------------------- one frame

  lemma MaskTwice(data: seq<byte>, key: Key)
    ensures Masked(Masked(data, key), key) == data
  {
    forall i | 0 <= i < |data| ensures Masked(Masked(data, key), key)[i] == data[i] {
      XorTwice(data[i], key[i % 4]);
    }
  }

  /** What the mask is: byte 4q+r of the payload meets byte r of the key (section 5.3 of RFC 6455). */
  lemma MaskByPosition(data: seq<byte>, key: Key, q: nat, r: nat)
    requires r < 4 && 4 * q + r < |data|
    ensures Masked(data, key)[4 * q + r] == data[4 * q + r] ^ key[r]
  {
    assert (4 * q + r) % 4 == r;
  }

  /** The mask starts over every four bytes, */
  lemma MaskStartsOver(a: seq<byte>, b: seq<byte>, key: Key)
    requires |a| % 4 == 0
    ensures Masked(a + b, key) == Masked(a, key) + Masked(b, key)
  {
    var whole, parts := Masked(a + b, key), Masked(a, key) + Masked(b, key);
    forall i | 0 <= i < |a| + |b| ensures whole[i] == parts[i] {
      if i >= |a| {
        SameColumn(|a|, i - |a|);
      }
    }
  }

  lemma SameColumn(n: nat, i: nat)
    requires n % 4 == 0
    ensures (n + i) % 4 == i % 4
  {
  }

  /** and four zero bytes show the key itself. */
  lemma MaskShowsKey(key: Key)
    ensures Masked([0, 0, 0, 0], key) == key
  {
    ZerosShowKey([0, 0, 0, 0], key);
  }

  lemma ZerosShowKey(zeros: seq<byte>, key: Key)
    requires |zeros| == 4 && forall i :: 0 <= i < 4 ==> zeros[i] == 0
    ensures Masked(zeros, key) == key
  {
    forall i | 0 <= i < 4 ensures Masked(zeros, key)[i] == key[i] {
      ZeroXor(key[i]);
    }
  }

  lemma ZeroXor(b: byte)
    ensures 0 ^ b == b
  {
  }

  lemma MaskBit(b: byte)
    requires b & 0x80 == 0
    ensures (0x80 | b) & 0x80 != 0 && (0x80 | b) & 0x7F == b && b & 0x7F == b
  {
  }

  lemma OpcodeBits(op: byte)
    requires op < 16
    ensures (0x80 | op) & 0x0F == op
  {
  }

  ghost predicate Sendable(limit: Limit, f: Frame) {
    f.opcode < 16 && |f.payload| < limit
  }

  lemma FieldHolds(n: nat, k: nat)
    requires n < BigEndian.Pow256(k)
    ensures BigEndian.Decode(BigEndian.Encode(n, k)) == n
  {
    BigEndian.DecodeEncode(n, k);
    BigEndian.ModuloIsRemainder(n, BigEndian.Pow256(k), 0, n);
  }

  /** The length bits and the extended length together say `n`. */
  lemma LengthFields(n: nat)
    requires n < MAX_LENGTH
    ensures |ExtendedLength(n)| == LengthWidth(LengthBits(n))
    ensures LengthWidth(LengthBits(n)) > 0 ==> BigEndian.Decode(ExtendedLength(n)) == n
  {
    if n > 125 {
      var k := if n <= 0xFFFF then 2 else 8;
      BigEndian.Powers();
      FieldHolds(n, k);
    }
  }

  /** The header says what it was built from, whatever follows it. */
  lemma HeaderParses(opcode: byte, n: nat, mask: Option<Key>, tail: seq<byte>)
    requires n < MAX_LENGTH
    ensures var s := Header(opcode, n, mask) + tail;
            && HeaderLength(s) == Some(|Header(opcode, n, mask)|)
            && AnnouncedLength(s) == n
            && (s[1] & 0x80 != 0 <==> mask.Some?)
  {
    var s, bits := Header(opcode, n, mask) + tail, LengthBits(n);
    LengthFields(n);
    MaskBit(bits);
    assert s[1] == if mask.Some? then 0x80 | bits else bits;
    assert s[1] & 0x7F == bits;
    MiddleField(s[0], s[1], ExtendedLength(n), if mask.Some? then mask.value else [], tail);
  }

  lemma MiddleField(a: byte, b: byte, field: seq<byte>, key: seq<byte>, tail: seq<byte>)
    ensures (([a, b] + field + key) + tail)[2..2 + |field|] == field
  {
  }

  /** Parsing what was printed, masked or not, gives the frame back and leaves the rest of the stream. */
  lemma FrameRoundTrip(limit: Limit, f: Frame, mask: Option<Key>, rest: seq<byte>)
    requires Sendable(limit, f)
    ensures Parse(limit, Encode(f, mask) + rest)
         == if f.opcode == OP_CLOSE then CloseReceived(f.payload, rest) else Read(f, rest)
  {
    var head, n := Header(f.opcode, |f.payload|, mask), |f.payload|;
    var body := if mask.Some? then Masked(f.payload, mask.value) else f.payload;
    var s := Encode(f, mask) + rest;
    assert s == head + (body + rest);
    HeaderParses(f.opcode, n, mask, body + rest);
    OpcodeBits(f.opcode);
    var h := |head|;
    ThreeParts(head, body, rest);
    if mask.Some? {
      KeyLast(head[..h - 4], mask.value, body + rest);
      MaskTwice(f.payload, mask.value);
    }
  }

  lemma ThreeParts(head: seq<byte>, body: seq<byte>, rest: seq<byte>)
    ensures var s := head + (body + rest); s[|head|..|head| + |body|] == body && s[|head| + |body|..] == rest
  {
  }

  lemma KeyLast(front: seq<byte>, key: Key, tail: seq<byte>)
    ensures (front + key + tail)[|front|..|front| + 4] == key
  {
  }

  /** A frame that is cut off anywhere is an error. */
  lemma StrictPrefixIsShort(limit: Limit, f: Frame, mask: Option<Key>, k: nat)
    requires Sendable(limit, f) && k < |Encode(f, mask)|
    ensures Parse(limit, Encode(f, mask)[..k]) == Short
  {
    var head, s := Header(f.opcode, |f.payload|, mask), Encode(f, mask)[..k];
    if k >= |head| {
      assert s == head + s[|head|..];
      HeaderParses(f.opcode, |f.payload|, mask, s[|head|..]);
    } else {
      assert s == head[..k];
      TornHeader(f.opcode, |f.payload|, mask, k);
    }
  }

  lemma TornHeader(opcode: byte, n: nat, mask: Option<Key>, k: nat)
    requires n < MAX_LENGTH && k < |Header(opcode, n, mask)|
    ensures HeaderLength(Header(opcode, n, mask)[..k]).None?
  {
    var head := Header(opcode, n, mask);
    HeaderParses(opcode, n, mask, []);
    assert head + [] == head;
    if k >= 2 {
      assert head[..k][1] == head[1];
    }
  }

  /** The header byte by byte: the final bit with the opcode, then the length in one byte, or 126 and two bytes, or 127
      and eight, the highest first (section 5.2 of RFC 6455). */
  lemma HeaderSpelledOut(opcode: byte, n: nat)
    requires n < MAX_LENGTH
    ensures var h := Header(opcode, n, None);
            && h[0] == 0x80 | opcode
            && (n <= 125 ==> |h| == 2 && h[1] as nat == n)
            && (125 < n <= 0xFFFF ==> |h| == 4 && h[1] == 126 && h[2] as nat == n / 256 && h[3] as nat == n % 256)
            && (0xFFFF < n ==> |h| == 10 && h[1] == 127)
  {
    if 125 < n <= 0xFFFF {
      TwoDigits(n);
    }
  }

  lemma TwoDigits(n: nat)
    requires n <= 0xFFFF
    ensures var r := BigEndian.Encode(n, 2); r[0] as nat == n / 256 && r[1] as nat == n % 256
  {
    DigitOf(n, 0, 256);
    DigitOf(n, 1, 1);
  }

  lemma DigitOf(n: nat, i: nat, weight: nat)
    requires i < 2 && weight == if i == 0 then 256 else 1
    ensures BigEndian.Encode(n, 2)[i] as nat == n / weight % 256
  {
    BigEndian.DigitAt(n, 2, i);
    assert BigEndian.Pow256(1 - i) == weight;
  }

  lemma WideLengthSpelledOut(opcode: byte, n: nat, i: nat)
    requires 0xFFFF < n < MAX_LENGTH && i < 8
    ensures |Header(opcode, n, None)| == 10
    ensures Header(opcode, n, None)[2 + i] as nat == n / BigEndian.Pow256(7 - i) % 256
  {
    BigEndian.DigitAt(n, 8, i);
    assert Header(opcode, n, None)[2 + i] == BigEndian.Encode(n, 8)[i];
  }

  /** A mask sets the top bit of the second byte and puts the key before the masked payload. */
  lemma MaskedSpelledOut(f: Frame, key: Key)
    requires |f.payload| < MAX_LENGTH
    ensures var plain, h := Encode(f, None), |Header(f.opcode, |f.payload|, None)|;
            Encode(f, Some(key)) == [plain[0], 0x80 | plain[1]] + plain[2..h] + key + Masked(plain[h..], key)
  {
    MaskedShape(0x80 | f.opcode, LengthBits(|f.payload|), ExtendedLength(|f.payload|), f.payload, key);
  }

  lemma MaskedShape(first: byte, bits: byte, field: seq<byte>, payload: seq<byte>, key: Key)
    ensures var plain, h, masked := ([first, bits] + field + []) + payload, |[first, bits] + field + []|, Masked(payload, key);
            ([first, 0x80 | bits] + field + key) + masked == [plain[0], 0x80 | plain[1]] + plain[2..h] + key + Masked(plain[h..], key)
  {
    PlainParts(first, bits, field, payload);
  }

  lemma PlainParts(a: byte, b: byte, field: seq<byte>, payload: seq<byte>)
    ensures var plain := ([a, b] + field + []) + payload;
            plain[0] == a && plain[1] == b && plain[2..2 + |field|] == field && plain[2 + |field|..] == payload
  {
  }

  /** The opcodes of section 5.2 and the examples of section 5.7 of RFC 6455. */
  lemma KnownFrames(rest: seq<byte>, limit: Limit)
    ensures Parse(limit, [0x81, 0x00] + rest) == Read(Frame(OP_TEXT, []), rest)
    ensures Parse(limit, [0x89, 0x00] + rest) == Read(Frame(OP_PING, []), rest)
    ensures Parse(limit, [0x8A, 0x00] + rest) == Read(Frame(OP_PONG, []), rest)
    ensures Parse(limit, [0x88, 0x00] + rest) == CloseReceived([], rest)
  {
    EmptyFrame(limit, 0x81, 0x1, rest);
    EmptyFrame(limit, 0x89, 0x9, rest);
    EmptyFrame(limit, 0x8A, 0xA, rest);
    EmptyFrame(limit, 0x88, 0x8, rest);
  }

  /** The final bit and the reserved bits are not looked at. */
  lemma FlagsIgnored(limit: Limit, first: byte, other: byte, tail: seq<byte>)
    requires first & 0x0F == other & 0x0F
    ensures Parse(limit, [first] + tail) == Parse(limit, [other] + tail)
  {
    var s, t := [first] + tail, [other] + tail;
    assert s[1..] == tail == t[1..];
    SameHeader(s, t);
    if HeaderLength(s).Some? {
      SameSecond(s, t);
      SameBody(limit, s, t, HeaderLength(s).value, AnnouncedLength(s));
    }
  }

  lemma SameSecond<T>(s: seq<T>, t: seq<T>)
    requires |s| == |t| >= 2 && s[1..] == t[1..]
    ensures s[1] == t[1]
  {
    var u, v := s[1..], t[1..];
    assert s[1] == u[0] && t[1] == v[0];
  }

  lemma SameHeader(s: seq<byte>, t: seq<byte>)
    requires |s| == |t| > 0 && s[1..] == t[1..]
    ensures HeaderLength(s) == HeaderLength(t)
    ensures HeaderLength(s).Some? ==> AnnouncedLength(s) == AnnouncedLength(t)
  {
    if |s| >= 2 {
      SameSecond(s, t);
      var w := LengthWidth(s[1] & 0x7F);
      if |s| >= 2 + w {
        SameSlice(s, t, 2, 2 + w);
      }
    }
  }

  lemma SameBody(limit: Limit, s: seq<byte>, t: seq<byte>, h: nat, n: nat)
    requires |s| == |t| && 2 <= h <= |s| && s[1..] == t[1..] && s[1] == t[1] && s[0] & 0x0F == t[0] & 0x0F
    requires s[1] & 0x80 != 0 ==> 6 <= h
    ensures ParseBody(limit, s, h, n) == ParseBody(limit, t, h, n)
  {
    if n < limit && h + n <= |s| {
      SamePayload(s, t, h, n);
      SameSlice(s, t, h + n, |s|);
      assert s[h + n..] == s[h + n..|s|] && t[h + n..] == t[h + n..|t|];
    }
  }

  lemma SamePayload(s: seq<byte>, t: seq<byte>, h: nat, n: nat)
    requires |s| == |t| && 2 <= h && h + n <= |s| && s[1..] == t[1..] && s[1] == t[1]
    requires s[1] & 0x80 != 0 ==> 6 <= h
    ensures PayloadAt(s, h, n) == PayloadAt(t, h, n)
  {
    SameSlice(s, t, h, h + n);
    if s[1] & 0x80 != 0 {
      SameSlice(s, t, h - 4, h);
    }
  }

  lemma SameSlice<T>(s: seq<T>, t: seq<T>, i: nat, j: nat)
    requires |s| == |t| && 1 <= i <= j <= |s| && s[1..] == t[1..]
    ensures s[i..j] == t[i..j]
  {
    SliceOfTail(s, i, j);
    SliceOfTail(t, i, j);
  }

  lemma SliceOfTail<T>(s: seq<T>, i: nat, j: nat)
    requires 1 <= i <= j <= |s|
    ensures s[i..j] == s[1..][i - 1..j - 1]
  {
    var u := s[1..];
    forall k | 0 <= k < j - i ensures s[i..j][k] == u[i - 1..j - 1][k] {
      assert s[i + k] == u[i - 1 + k];
    }
  }

  lemma EmptyFrame(limit: Limit, first: byte, opcode: byte, rest: seq<byte>)
    requires first & 0x0F == opcode
    ensures Parse(limit, [first, 0x00] + rest) == Received(opcode, [], rest)
  {
    var s := [first, 0x00] + rest;
    assert s[2..2] == [] && s[2..] == rest;
  }

  /** The masked greeting of section 5.7. */
  lemma MaskedHello()
    ensures Masked([0x7F, 0x9F, 0x4D, 0x51, 0x58], [0x37, 0xFA, 0x21, 0x3D]) == [0x48, 0x65, 0x6C, 0x6C, 0x6F]
  {
  }

  /** How wide the length of an accepted unmasked frame is, and what that says about the length. */
  lemma AnnouncedForms(s: seq<byte>, h: nat)
    requires HeaderLength(s) == Some(h) && s[1] & 0x80 == 0
    ensures var n, bits := AnnouncedLength(s), s[1];
            && h == 2 + LengthWidth(bits)
            && (bits == 126 ==> n <= 0xFFFF && s[2..h] == BigEndian.Encode(n, 2))
            && (bits == 127 ==> s[2..h] == BigEndian.Encode(n, 8))
            && (bits != 126 && bits != 127 ==> n <= 125 && bits as nat == n && s[2..h] == [])
  {
    UnmaskedBits(s[1]);
    if s[1] == 126 || s[1] == 127 {
      BigEndian.Powers();
      BigEndian.EncodeDecode(s[2..h]);
    } else {
      SmallBits(s[1]);
    }
  }

  /** Where the payload of an accepted unmasked frame lies. */
  lemma ReadParts(limit: Limit, s: seq<byte>, f: Frame, rest: seq<byte>)
    requires Parse(limit, s) == Read(f, rest) && s[1] & 0x80 == 0
    ensures HeaderLength(s).Some? && |f.payload| == AnnouncedLength(s)
    ensures var e := HeaderLength(s).value + |f.payload|;
            e <= |s| && |s| - |rest| == e && f.payload == s[HeaderLength(s).value..e]
  {
  }

  lemma EncodedLength(f: Frame)
    requires |f.payload| < MAX_LENGTH
    ensures |Encode(f, None)| == 2 + LengthWidth(LengthBits(|f.payload|)) + |f.payload|
  {
    LengthFields(|f.payload|);
  }

  /** `writeFrame` uses the shortest form: no accepted unmasked frame with this payload is shorter, and one of the
      same length differs only in the bits of its first byte that the parser ignores. */
  lemma EncodingIsMinimal(limit: Limit, s: seq<byte>, f: Frame, rest: seq<byte>)
    requires Parse(limit, s) == Read(f, rest) && s[1] & 0x80 == 0
    ensures |s| - |rest| >= |Encode(f, None)|
    ensures |s| - |rest| == |Encode(f, None)| ==> s[1..|s| - |rest|] == Encode(f, None)[1..]
  {
    ReadParts(limit, s, f, rest);
    var n, h := |f.payload|, HeaderLength(s).value;
    AnnouncedForms(s, h);
    EncodedLength(f);
    if h == 2 + LengthWidth(LengthBits(n)) {
      SameForm(s[1], n);
      MinimalForm(s, h, f);
    }
  }

  lemma MinimalForm(s: seq<byte>, h: nat, f: Frame)
    requires 2 <= h && h + |f.payload| <= |s| && f.payload == s[h..h + |f.payload|]
    requires s[1] == LengthBits(|f.payload|) && s[2..h] == ExtendedLength(|f.payload|)
    ensures s[1..h + |f.payload|] == Encode(f, None)[1..]
  {
    Pieces(s, h, h + |f.payload|);
    HeaderTail(f);
  }

  lemma Pieces<T>(s: seq<T>, h: nat, e: nat)
    requires 2 <= h <= e <= |s|
    ensures s[1..e] == [s[1]] + s[2..h] + s[h..e]
  {
  }

  lemma HeaderTail(f: Frame)
    ensures Encode(f, None)[1..] == [LengthBits(|f.payload|)] + ExtendedLength(|f.payload|) + f.payload
  {
  }

  lemma SameForm(bits: byte, n: nat)
    requires LengthWidth(bits) == LengthWidth(LengthBits(n))
    requires bits == 126 ==> n <= 0xFFFF
    requires bits != 126 && bits != 127 ==> n <= 125 && bits as nat == n
    ensures bits == LengthBits(n)
  {
    if n <= 125 {
      BigEndian.SameByte(bits, LengthBits(n));
    }
  }

  lemma UnmaskedBits(b: byte)
    requires b & 0x80 == 0
    ensures b & 0x7F == b
  {
  }

  lemma SmallBits(b: byte)
    requires b & 0x80 == 0 && b != 126 && b != 127
    ensures b as nat <= 125
  {
  }

  // ---------------------------------------------------------------- streams of frames

  function EncodeAll(frames: seq<Frame>): seq<byte> {
    if frames == [] then [] else Encode(frames[0], None) + EncodeAll(frames[1..])
  }

  function EncodeMasked(frames: seq<Frame>, masks: seq<Option<Key>>): seq<byte>
    requires |frames| == |masks|
  {
    if frames == [] then [] else Encode(frames[0], masks[0]) + EncodeMasked(frames[1..], masks[1..])
  }

  lemma ParseConsumes(limit: Limit, s: seq<byte>)
    ensures Parse(limit, s).Read? || Parse(limit, s).CloseReceived? ==> |Parse(limit, s).rest| < |s|
  {
  }

  /** The frames the reader loop sees, up to the first close or error, and the input left at that point. */
  function ParseAll(limit: Limit, s: seq<byte>): (seq<Frame>, seq<byte>)
    decreases |s|
  {
    ParseConsumes(limit, s);
    match Parse(limit, s)
    case Read(f, rest) => var (more, left) := ParseAll(limit, rest); ([f] + more, left)
    case _ => ([], s)
  }

  ghost predicate AllSendable(limit: Limit, frames: seq<Frame>) {
    forall f :: f in frames ==> Sendable(limit, f) && f.opcode != OP_CLOSE
  }

  lemma ParseAllStep(limit: Limit, f: Frame, mask: Option<Key>, more: seq<byte>)
    requires Sendable(limit, f) && f.opcode != OP_CLOSE
    ensures ParseAll(limit, Encode(f, mask) + more) == ([f] + ParseAll(limit, more).0, ParseAll(limit, more).1)
  {
    FrameRoundTrip(limit, f, mask, more);
  }

  /** Reading a stream of printed frames, each masked with any key or none, gives back exactly those frames. */
  lemma {:induction false} StreamRoundTrip(limit: Limit, frames: seq<Frame>, masks: seq<Option<Key>>, rest: seq<byte>)
    requires |frames| == |masks| && AllSendable(limit, frames)
    ensures var tail := ParseAll(limit, rest);
            ParseAll(limit, EncodeMasked(frames, masks) + rest) == (frames + tail.0, tail.1)
  {
    var tail := ParseAll(limit, rest);
    if frames == [] {
      Units(EncodeMasked(frames, masks), frames, rest, tail.0);
    } else {
      var first, more := Encode(frames[0], masks[0]), EncodeMasked(frames[1..], masks[1..]);
      StreamRoundTrip(limit, frames[1..], masks[1..], rest);
      ParseAllStep(limit, frames[0], masks[0], more + rest);
      Regroup(first, more, rest);
      Regroup([frames[0]], frames[1..], tail.0);
      assert [frames[0]] + frames[1..] == frames;
    }
  }

  lemma Units<A, B>(a: seq<A>, b: seq<B>, x: seq<A>, y: seq<B>)
    requires a == [] && b == []
    ensures a + x == x && b + y == y
  {
  }

  lemma Regroup<T>(a: seq<T>, b: seq<T>, c: seq<T>)
    ensures (a + b) + c == a + (b + c)
  {
  }

  lemma {:induction false} UnmaskedStream(frames: seq<Frame>)
    ensures EncodeAll(frames) == EncodeMasked(frames, seq(|frames|, _ => None))
  {
    if frames != [] {
      UnmaskedStream(frames[1..]);
      assert seq(|frames|, _ => None)[1..] == seq<Option<Key>>(|frames| - 1, _ => None);
    }
  }

  /** A stream cut off inside its last frame yields the whole frames before it, and the torn bytes are left. */
  lemma TornStream(limit: Limit, frames: seq<Frame>, last: Frame, k: nat)
    requires AllSendable(limit, frames) && Sendable(limit, last) && k < |Encode(last, None)|
    ensures ParseAll(limit, EncodeAll(frames) + Encode(last, None)[..k]) == (frames, Encode(last, None)[..k])
  {
    var torn := Encode(last, None)[..k];
    UnmaskedStream(frames);
    StreamRoundTrip(limit, frames, seq(|frames|, _ => None), torn);
    StrictPrefixIsShort(limit, last, None, k);
    assert frames + [] == frames;
  }
}
