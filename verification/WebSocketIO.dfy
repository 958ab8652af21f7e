/** `readFrame` and `writeFrame` over a buffered connection. */
module WebSocketIO {
  import BigEndian
  import opened WebSocketFrames
  import opened Wrappers

  /** The reading side: what the client has sent and the loop has not yet consumed. */
  class Reader {
    const limit: Limit
    var input: seq<byte>

    constructor (limit: Limit, input: seq<byte>)
      ensures this.input == input && this.limit == limit
    {
      this.limit, this.input := limit, input;
    }

    /** `io.ReadFull` into a fresh slice of `n` bytes; a short input is used up and reported. */
    method ReadFull(n: nat) returns (ok: bool, data: array<byte>)
      modifies this
      ensures fresh(data) && data.Length == n
      ensures ok <==> n <= |old(input)|
      ensures ok ==> data[..] == old(input)[..n] && input == old(input)[n..]
    {
      ok := n <= |input|;
      if ok {
        data := new byte[n](i requires 0 <= i < |input| reads this => input[i]);
        input := input[n..];
      } else {
        data := new byte[n](_ => 0);
        input := [];
      }
    }

    /** Reads the two or eight bytes of an extended length, if there are any. */
    method ReadLength(bits: byte) returns (ok: bool, length: nat)
      modifies this
      ensures ok <==> LengthWidth(bits) <= |old(input)|
      ensures ok ==> input == old(input)[LengthWidth(bits)..]
      ensures ok ==> length == if LengthWidth(bits) > 0 then BigEndian.Decode(old(input)[..LengthWidth(bits)]) else bits as nat
    {
      ok, length := true, bits as nat;
      if bits == 126 || bits == 127 {
        var buf;
        ok, buf := ReadFull(LengthWidth(bits));
        if ok {
          length := BigEndian.Decode(buf[..]);
        }
      }
    }

    /** Reads the masking key, if there is one. */
    method ReadKey(masked: bool) returns (ok: bool, key: Key)
      modifies this
      ensures ok <==> !masked || 4 <= |old(input)|
      ensures ok ==> input == old(input)[if masked then 4 else 0..]
      ensures ok && masked ==> key == old(input)[..4]
    {
      ok, key := true, [0, 0, 0, 0];
      if masked {
        var keyBytes;
        ok, keyBytes := ReadFull(4);
        if ok {
          key := keyBytes[..];
        }
      }
    }

    /** The fields between the first two bytes and the payload. */
    method ReadFields(bits: byte, masked: bool) returns (ok: bool, length: nat, key: Key)
      modifies this
      ensures var s, w, h := old(input), LengthWidth(bits), LengthWidth(bits) + if masked then 4 else 0;
        && (ok <==> h <= |s|)
        && (ok ==> input == s[h..] && (masked ==> key == s[w..h]))
        && (ok ==> length == if w > 0 then BigEndian.Decode(s[..w]) else bits as nat)
    {
      ghost var s := input;
      key := [0, 0, 0, 0];
      ok, length := ReadLength(bits);
      if ok {
        ok, key := ReadKey(masked);
        if ok && masked {
          SliceOfRest(s, LengthWidth(bits), 4);
        }
      }
    }

    /** Everything before the payload. */
    method ReadHeader() returns (ok: bool, opcode: byte, masked: bool, length: nat, key: Key)
      modifies this
      ensures ok <==> HeaderLength(old(input)).Some?
      ensures ok ==>
        var s, h := old(input), HeaderLength(old(input)).value;
        && input == s[h..] && opcode == s[0] & 0x0F && (masked <==> s[1] & 0x80 != 0)
        && length == AnnouncedLength(s) && (masked ==> key == s[h - 4..h])
    {
      opcode, masked, length, key := 0, false, 0, [0, 0, 0, 0];
      ghost var s := input;
      var header;
      ok, header := ReadFull(2);
      if !ok {
        return;
      }
      assert header[..][0] == s[0] && header[..][1] == s[1];
      HeaderOf(s);
      opcode, masked := header[0] & 0x0F, header[1] & 0x80 != 0;
      ok, length, key := ReadFields(header[1] & 0x7F, masked);
      if ok {
        FieldSlices(s, LengthWidth(s[1] & 0x7F), masked);
      }
    }

    /** Reads the payload and unmasks it in place. */
    method ReadPayload(length: nat, masked: bool, key: Key) returns (ok: bool, payload: array<byte>)
      modifies this
      ensures ok <==> length <= |old(input)|
      ensures ok ==> input == old(input)[length..]
      ensures ok ==> payload[..] == if masked then Masked(old(input)[..length], key) else old(input)[..length]
    {
      ok, payload := ReadFull(length);
      if ok && masked {
        Unmask(payload, key);
      }
    }

    /** Reads one frame. */
    method ReadFrame() returns (parsed: Parsed)
      modifies this
      ensures parsed == Parse(limit, old(input))
      ensures parsed.Read? || parsed.CloseReceived? ==> input == parsed.rest
    {
      ghost var s := input;
      var ok, opcode, masked, length, key := ReadHeader();
      if !ok {
        return Short;
      }
      ghost var h := HeaderLength(s).value;
      if length >= limit {
        return TooLong;
      }
      var payload;
      ok, payload := ReadPayload(length, masked, key);
      if !ok {
        return Short;
      }
      WholeFrame(limit, s, h, length, key, payload[..]);
      parsed := Received(opcode, payload[..], input);
    }
  }

  /** What the first two bytes say about the rest of a header. */
  lemma HeaderOf(s: seq<byte>)
    requires |s| >= 2
    ensures var bits, w := s[1] & 0x7F, LengthWidth(s[1] & 0x7F);
            var h := 2 + w + if s[1] & 0x80 != 0 then 4 else 0;
            && HeaderLength(s) == (if |s| < h then None else Some(h))
            && (h <= |s| ==> AnnouncedLength(s) == if w > 0 then BigEndian.Decode(s[2..2 + w]) else bits as nat)
  {
  }

  /** A payload of `n` bytes after a header of `h`. */
  lemma WholeFrame(limit: Limit, s: seq<byte>, h: nat, n: nat, key: Key, payload: seq<byte>)
    requires HeaderLength(s) == Some(h) && AnnouncedLength(s) == n < limit && n <= |s[h..]|
    requires s[1] & 0x80 != 0 ==> key == s[h - 4..h]
    requires payload == if s[1] & 0x80 != 0 then Masked(s[h..][..n], key) else s[h..][..n]
    ensures Parse(limit, s) == Received(s[0] & 0x0F, payload, s[h..][n..])
  {
    SliceOfRest(s, h, n);
  }

  lemma FieldSlices<T>(s: seq<T>, w: nat, masked: bool)
    requires |s| >= 2 + w + if masked then 4 else 0
    ensures var h := w + if masked then 4 else 0;
            s[2..][..w] == s[2..2 + w] && s[2..][h..] == s[2 + h..] && s[2..][w..h] == s[2 + w..2 + h]
  {
  }

  lemma SliceOfRest<T>(s: seq<T>, h: nat, n: nat)
    requires h + n <= |s|
    ensures s[h..][..n] == s[h..h + n] && s[h..][n..] == s[h + n..]
  {
  }

  /** The unmasking loop of `readFrame`. */
  method Unmask(payload: array<byte>, key: Key)
    modifies payload
    ensures payload[..] == Masked(old(payload[..]), key)
  {
    for i := 0 to payload.Length
      invariant forall k :: 0 <= k < i ==> payload[k] == old(payload[k]) ^ key[k % 4]
      invariant forall k :: i <= k < payload.Length ==> payload[k] == old(payload[k])
    {
      payload[i] := payload[i] ^ key[i % 4];
    }
  }

  /** The writing side. The connection takes `room` more bytes and then fails for good. */
  class Writer {
    var out: seq<byte>
    var room: nat

    constructor (room: nat)
      ensures out == [] && this.room == room
    {
      out, this.room := [], room;
    }

    method Write(data: seq<byte>) returns (ok: bool)
      modifies this
      ensures ok <==> |data| <= old(room)
      ensures ok ==> out == old(out) + data && room == old(room) - |data|
      ensures !ok ==> out == old(out) + data[..old(room)] && room == 0
    {
      ok := |data| <= room;
      var n := if ok then |data| else room;
      out := out + data[..n];
      room := room - n;
    }

    /** Writes the piece of `whole` that starts at `k`, when `whole[..k]` is already out. */
    method WritePiece(piece: seq<byte>, ghost start: seq<byte>, ghost whole: seq<byte>, ghost k: nat) returns (ok: bool)
      requires k + |piece| <= |whole| && whole[k..k + |piece|] == piece && out == start + whole[..k]
      modifies this
      ensures ok <==> |piece| <= old(room)
      ensures ok ==> out == start + whole[..k + |piece|] && room == old(room) - |piece|
      ensures !ok ==> out == start + whole[..k + old(room)] && room == 0
    {
      ghost var r := if |piece| <= room then |piece| else room;
      ok := Write(piece);
      assert whole[..k] + piece[..r] == whole[..k + r];
    }

    /** Writes one unfragmented, unmasked frame: all of it, or a strict prefix when the connection fails. */
    method WriteFrame(opcode: byte, payload: seq<byte>) returns (ok: bool)
      modifies this
      ensures var whole := Encode(Frame(opcode, payload), None);
              && (ok <==> |whole| <= old(room))
              && (ok ==> out == old(out) + whole && room == old(room) - |whole|)
              && (!ok ==> out == old(out) + whole[..old(room)] && room == 0)
    {
      ghost var start, whole := out, Encode(Frame(opcode, payload), None);
      var n := |payload|;
      FramePieces(opcode, payload);
      assert start + whole[..0] == start;
      ok := WritePiece([0x80 | opcode], start, whole, 0);
      if !ok {
        return;
      }
      ok := WritePiece([LengthBits(n)], start, whole, 1);
      if !ok {
        return;
      }
      ghost var h := 2 + |ExtendedLength(n)|;
      if n > 125 {
        ok := WritePiece(if n <= 0xFFFF then BigEndian.Encode(n, 2) else BigEndian.Encode(n, 8), start, whole, 2);
        if !ok {
          return;
        }
      }
      ok := WritePiece(payload, start, whole, h);
      assert whole[..|whole|] == whole;
    }
  }

  /** Where the pieces of an unmasked frame lie. */
  lemma FramePieces(opcode: byte, payload: seq<byte>)
    ensures var whole, n := Encode(Frame(opcode, payload), None), |payload|;
            var h := 2 + |ExtendedLength(n)|;
            && |whole| == h + n
            && whole[0..1] == [0x80 | opcode] && whole[1..2] == [LengthBits(n)]
            && whole[2..h] == ExtendedLength(n) && whole[h..h + n] == payload
  {
  }
}
