/** Unsigned integers as big-endian byte strings of a fixed width. */
module BigEndian {
  import opened Wrappers

  function Pow256(k: nat): (p: nat)
    ensures p > 0
  {
    if k == 0 then 1 else 256 * Pow256(k - 1)
  }

  /** The byte of value `n`. */
  function ByteOf(n: nat): (b: byte)
    requires n < 256
    ensures b as nat == n
  {
    ByteFits(n);
    n as byte
  }

  function Encode(n: nat, k: nat): (r: seq<byte>)
    ensures |r| == k
  {
    if k == 0 then [] else Encode(n / 256, k - 1) + [ByteOf(n % 256)]
  }

  function Decode(s: seq<byte>): nat {
    if s == [] then 0 else 256 * Decode(s[..|s| - 1]) + s[|s| - 1] as nat
  }

  lemma {:induction false} DecodeEncode(n: nat, k: nat)
    ensures Decode(Encode(n, k)) == n % Pow256(k)
  {
    if k > 0 {
      DecodeEncode(n / 256, k - 1);
      DecodeLast(Encode(n / 256, k - 1), ByteOf(n % 256));
      SplitModulo(n, Pow256(k - 1));
    }
  }

  lemma DecodeLast(head: seq<byte>, last: byte)
    ensures Decode(head + [last]) == 256 * Decode(head) + last as nat
  {
    var s := head + [last];
    assert s[..|s| - 1] == head;
  }

  lemma SplitModulo(n: nat, m: nat)
    requires m > 0
    ensures n % (256 * m) == 256 * (n / 256 % m) + n % 256
  {
    var q, r := n / 256 / m, 256 * (n / 256 % m) + n % 256;
    assert n == 256 * (n / 256) + n % 256;
    assert n / 256 == m * q + n / 256 % m;
    assert n == (256 * m) * q + r;
    assert 0 <= r < 256 * m;
    ModuloIsRemainder(n, 256 * m, q, r);
  }

  lemma ModuloIsRemainder(n: int, m: int, q: int, r: int)
    requires m > 0 && n == m * q + r && 0 <= r < m
    ensures n % m == r && n / m == q
  {
    var q', r' := n / m, n % m;
    assert m * q + r == m * q' + r';
    if q > q' {
      Apart(m, q', q);
    } else if q' > q {
      Apart(m, q, q');
    }
  }

  lemma Apart(m: int, small: int, large: int)
    requires m > 0 && small < large
    ensures m * small + m <= m * large
  {
    var d := large - small - 1;
    assert m * large == m * (small + 1 + d) == m * small + m + m * d;
  }

  lemma {:induction false} EncodeDecode(s: seq<byte>)
    ensures Decode(s) < Pow256(|s|)
    ensures Encode(Decode(s), |s|) == s
  {
    if s != [] {
      var init, last := s[..|s| - 1], s[|s| - 1];
      EncodeDecode(init);
      ModuloIsRemainder(Decode(s), 256, Decode(init), last as nat);
      SameByte(ByteOf(last as nat), last);
      assert s == init + [last];
    }
  }

  lemma DivideTwice(n: nat, m: nat)
    requires m > 0
    ensures n / 256 / m == n / (256 * m)
  {
    var q, r := n / 256 / m, n / 256 % m;
    assert n / 256 == m * q + r && n == 256 * (n / 256) + n % 256;
    assert n == (256 * m) * q + (256 * r + n % 256);
    ModuloIsRemainder(n, 256 * m, q, 256 * r + n % 256);
  }

  /** Byte `i` of `k` is the digit of weight 256^(k-1-i): the highest comes first. */
  lemma {:induction false} DigitAt(n: nat, k: nat, i: nat)
    requires i < k
    ensures Encode(n, k)[i] as nat == n / Pow256(k - 1 - i) % 256
    decreases k
  {
    if i < k - 1 {
      DigitAt(n / 256, k - 1, i);
      DivideTwice(n, Pow256(k - 2 - i));
    } else {
      assert Pow256(0) == 1;
    }
  }

  lemma SameByte(a: byte, b: byte)
    requires a as nat == b as nat
    ensures a == b
  {
  }

  lemma Powers()
    ensures Pow256(2) == 0x1_0000 && Pow256(8) == 0x1_0000_0000_0000_0000
  {
    assert Pow256(2) == 256 * Pow256(1) && Pow256(1) == 256 * Pow256(0);
    assert Pow256(4) == 256 * Pow256(3) && Pow256(3) == 256 * Pow256(2);
    assert Pow256(6) == 256 * Pow256(5) && Pow256(5) == 256 * Pow256(4);
    assert Pow256(8) == 256 * Pow256(7) && Pow256(7) == 256 * Pow256(6);
  }
}
