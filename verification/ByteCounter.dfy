/** Counting on big-endian byte strings: increments with carry, and numbers cut into digits of several bytes. */
module ByteCounter {
  import opened BigEndian
  import opened Wrappers

  /** Adds one from the right, carrying while bytes wrap to zero. */
  function Increment(s: seq<byte>): (r: seq<byte>)
    ensures |r| == |s|
  {
    if s == [] then []
    else
      var init, last := s[..|s| - 1], s[|s| - 1];
      if last == 255 then Increment(init) + [0] else init + [last + 1]
  }

  lemma NextByte(b: byte)
    requires b != 255
    ensures (b + 1) as nat == b as nat + 1
  {
  }

  lemma MaxByte()
    ensures (255 as byte) as nat == 255 && (0 as byte) as nat == 0
  {
  }

  lemma {:induction false} IncrementAddsOne(s: seq<byte>)
    ensures Decode(Increment(s)) == (Decode(s) + 1) % Pow256(|s|)
  {
    if s != [] {
      var init, last := s[..|s| - 1], s[|s| - 1];
      var d, m := Decode(init), Pow256(|init|);
      EncodeDecode(s);
      EncodeDecode(init);
      if last == 255 {
        IncrementAddsOne(init);
        MaxByte();
        DecodeLast(Increment(init), 0);
        CarryOut(d, m);
      } else {
        NextByte(last);
        DecodeLast(init, last + 1);
        NoCarry(d, last as nat, m);
      }
    }
  }

  lemma CarryOut(d: nat, m: nat)
    requires d < m
    ensures 256 * ((d + 1) % m) == (256 * d + 255 + 1) % (256 * m)
  {
    if d + 1 < m {
      ModuloIsRemainder(d + 1, m, 0, d + 1);
      ModuloIsRemainder(256 * d + 256, 256 * m, 0, 256 * d + 256);
    } else {
      ModuloIsRemainder(d + 1, m, 1, 0);
      ModuloIsRemainder(256 * d + 256, 256 * m, 1, 0);
    }
  }

  lemma NoCarry(d: nat, b: nat, m: nat)
    requires d < m && b < 255
    ensures 256 * d + (b + 1) == (256 * d + b + 1) % (256 * m)
  {
    ModuloIsRemainder(256 * d + b + 1, 256 * m, 0, 256 * d + b + 1);
  }

  /** Encoding depends on the number only up to the width. */
  lemma {:induction false} EncodeModulo(n: nat, k: nat)
    ensures Encode(n % Pow256(k), k) == Encode(n, k)
  {
    EncodeDecode(Encode(n, k));
    DecodeEncode(n, k);
  }

  /** A string of the right value is the encoding. */
  lemma IsEncoding(s: seq<byte>, n: nat)
    requires Decode(s) == n % Pow256(|s|)
    ensures s == Encode(n, |s|)
  {
    EncodeDecode(s);
    EncodeModulo(n, |s|);
  }

  /** Incrementing the encoding of a number gives the encoding of the next, at any width. */
  lemma IncrementEncoding(x: nat, k: nat)
    ensures Increment(Encode(x, k)) == Encode(x + 1, k)
  {
    var next := Increment(Encode(x, k));
    assert Decode(next) == (x + 1) % Pow256(k) by {
      IncrementAddsOne(Encode(x, k));
      DecodeEncode(x, k);
      SuccModulo(x, Pow256(k));
    }
    IsEncoding(next, x + 1);
  }

  lemma SuccModulo(x: nat, m: nat)
    requires m > 0
    ensures (x % m + 1) % m == (x + 1) % m
  {
    var q, r := x / m, x % m;
    if r + 1 < m {
      ModuloIsRemainder(x + 1, m, q, r + 1);
      ModuloIsRemainder(r + 1, m, 0, r + 1);
    } else {
      assert m * (q + 1) == m * q + m;
      ModuloIsRemainder(x + 1, m, q + 1, 0);
      ModuloIsRemainder(r + 1, m, 1, 0);
    }
  }

  /** The encoding of a number in two digits of base 256^k. */
  lemma {:induction false} EncodeSplits(hi: nat, lo: nat, j: nat, k: nat, x: nat)
    requires lo < Pow256(k) && x == hi * Pow256(k) + lo
    ensures Encode(x, j + k) == Encode(hi, j) + Encode(lo, k)
    decreases k
  {
    if k > 0 {
      LastDigit(hi, lo, Pow256(k - 1));
      EncodeSplits(hi, lo / 256, j, k - 1, x / 256);
    }
  }

  lemma LastDigit(hi: nat, lo: nat, m: nat)
    requires lo < 256 * m
    ensures var x := hi * (256 * m) + lo;
            x >= 0 && x / 256 == hi * m + lo / 256 && x % 256 == lo % 256 && lo / 256 < m
  {
    Shift(hi, m);
    ModuloIsRemainder(hi * (256 * m) + lo, 256, hi * m + lo / 256, lo % 256);
  }

  /** Adding `n` to a number that ends in `k` zero bytes: `n` fills the zeros, and what does not fit carries. */
  lemma SumHalves(seed: seq<byte>, k: nat, n: nat, q: nat, r: nat)
    requires r < Pow256(k) && n == Pow256(k) * q + r
    ensures Encode(Decode(seed + Zeros(k)) + n, |seed| + k) == Encode(Decode(seed) + q, |seed|) + Encode(n, k)
  {
    SeedValue(seed, k);
    Halves(Decode(seed), q, r, |seed|, k, n, Decode(seed + Zeros(k)) + n);
  }

  lemma Halves(d: nat, q: nat, r: nat, j: nat, k: nat, n: nat, x: nat)
    requires r < Pow256(k) && n == Pow256(k) * q + r && x == d * Pow256(k) + n
    ensures Encode(x, j + k) == Encode(d + q, j) + Encode(n, k)
  {
    var m := Pow256(k);
    Distribute(d, q, m);
    assert x == (d + q) * m + r;
    EncodeSplits(d + q, r, j, k, x);
    ModuloIsRemainder(n, m, q, r);
    EncodeModulo(n, k);
  }

  lemma Distribute(a: int, b: int, m: int)
    ensures (a + b) * m == a * m + b * m
  {
  }

  lemma Shift(d: int, m: int)
    ensures 256 * (d * m) == d * (256 * m)
  {
  }

  lemma {:induction false} SeedValue(seed: seq<byte>, k: nat)
    ensures Decode(seed + Zeros(k)) == Decode(seed) * Pow256(k)
  {
    if k == 0 {
      assert seed + Zeros(0) == seed;
    } else {
      SeedValue(seed, k - 1);
      assert seed + Zeros(k) == (seed + Zeros(k - 1)) + [0];
      AppendZero(seed + Zeros(k - 1));
      Shift(Decode(seed), Pow256(k - 1));
    }
  }

  lemma AppendZero(s: seq<byte>)
    ensures Decode(s + [0]) == 256 * Decode(s)
  {
    MaxByte();
    DecodeLast(s, 0);
  }

  lemma SameEncoding(d: nat, q: nat, k: nat)
    requires d < Pow256(k)
    ensures Encode(d + q, k) == Encode(d, k) <==> q % Pow256(k) == 0
  {
    var m := Pow256(k);
    DecodeEncode(d + q, k);
    DecodeEncode(d, k);
    EncodeModulo(d + q, k);
    EncodeModulo(d, k);
    SumModulo(d, q, m);
  }

  lemma SumModulo(d: nat, q: nat, m: nat)
    requires d < m
    ensures d % m == d && ((d + q) % m == d <==> q % m == 0)
  {
    var r := q % m;
    ModuloIsRemainder(d, m, 0, d);
    if d + r < m {
      ModuloIsRemainder(d + q, m, q / m, d + r);
    } else {
      Distribute(q / m, 1, m);
      ModuloIsRemainder(d + q, m, q / m + 1, d + r - m);
    }
  }

  /** The increment loop over the counter block, in place. */
  method IncrementInPlace(c: array<byte>)
    modifies c
    ensures c[..] == Increment(old(c[..]))
  {
    var i := c.Length;
    ghost var start := c[..];
    assert start[..i] == start && c[i..] == [];
    assert Increment(start) == Increment(start) + [];
    while i > 0
      invariant 0 <= i <= c.Length && c[..i] == start[..i]
      invariant Increment(start) == Increment(start[..i]) + c[i..]
    {
      i := i - 1;
      IncrementLast(start, i);
      ghost var tail := c[i + 1..];
      c[i] := c[i] + 1;
      assert c[i..] == [c[i]] + tail;
      if c[i] != 0 {
        assert c[..] == start[..i] + c[i..];
        return;
      }
    }
    assert c[0..] == c[..];
  }

  lemma IncrementLast(s: seq<byte>, i: nat)
    requires i < |s|
    ensures s[i] + 1 == 0 ==> Increment(s[..i + 1]) == Increment(s[..i]) + [s[i] + 1]
    ensures s[i] + 1 != 0 ==> Increment(s[..i + 1]) == s[..i] + [s[i] + 1]
  {
    var t := s[..i + 1];
    assert t[..|t| - 1] == s[..i];
    Wraps(s[i]);
  }

  lemma Wraps(b: byte)
    ensures b + 1 == 0 <==> b == 255
  {
  }
}
