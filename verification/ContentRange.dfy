/** The size of a file, as a server states it in a Content-Range header (section 14.4 of RFC 9110). */
module ContentRange {
  import opened Paths
  import opened Wrappers

  const INT64_LIMIT: nat := 0x8000_0000_0000_0000

  predicate Digit(ch: char) {
    '0' <= ch <= '9'
  }

  predicate Digits(s: string) {
    forall i :: 0 <= i < |s| ==> Digit(s[i])
  }

  function Value(ch: char): nat
    requires Digit(ch)
  {
    (ch as int) - ('0' as int)
  }

  function Number(s: string): nat
    requires Digits(s)
  {
    if s == [] then 0
    else
      10 * Number(s[..|s| - 1]) + Value(s[|s| - 1])
  }

  /** `strconv.ParseInt` with base 10 and 64 bits; None is its error. */
  function ParseInt64(s: string): Option<int> {
    var signed := s != [] && (s[0] == '-' || s[0] == '+');
    var digits := if signed then s[1..] else s;
    if digits == [] || !Digits(digits) then None
    else
      var n: int := Number(digits);
      if signed && s[0] == '-' then if n <= INT64_LIMIT then Some(-n) else None
      else if n < INT64_LIMIT then Some(n) else None
  }

  /** `parseContentRangeTotal`. */
  function Total(header: string): int {
    if '/' !in header then -1
    else match ParseInt64(FilePart(header))
         case Some(n) => n
         case None => -1
  }

  // ---------------------------------------------------------------- what a server prints

  function Decimal(n: nat): (r: string)
    ensures |r| > 0 && Digits(r)
  {
    if n < 10 then [DigitOf(n)] else Decimal(n / 10) + [DigitOf(n % 10)]
  }

  function DigitOf(d: nat): (ch: char)
    requires d < 10
    ensures Digit(ch) && Value(ch) == d
  {
    (('0' as int) + d) as char
  }

  lemma {:induction false} NumberOfDecimal(n: nat)
    ensures Number(Decimal(n)) == n
  {
    var r := Decimal(n);
    if n < 10 {
      assert r[..|r| - 1] == [];
    } else {
      assert r[..|r| - 1] == Decimal(n / 10);
      NumberOfDecimal(n / 10);
    }
  }

  lemma ParsePrinted(n: nat)
    ensures ParseInt64(Decimal(n)) == if n < INT64_LIMIT then Some(n) else None
  {
    var r := Decimal(n);
    assert Digit(r[0]);
    NumberOfDecimal(n);
  }

  lemma TextAfterSlash(range: string, size: string)
    requires Lacks(size, '/')
    ensures '/' in range + "/" + size && FilePart(range + "/" + size) == size
  {
    assert (range + "/" + size)[|range|] == '/';
    FilePartOfAppend(range, size);
  }

  /** A printed size is read back, whatever range stands before it, as long as it fits 64 bits. */
  lemma TotalOfPrinted(range: string, n: nat)
    ensures Total(range + "/" + Decimal(n)) == if n < INT64_LIMIT then n else -1
  {
    assert Lacks(Decimal(n), '/');
    TextAfterSlash(range, Decimal(n));
    ParsePrinted(n);
  }

  /** The first digit weighs most: "42" is forty-two. */
  lemma TotalOfTwoDigits(range: string, tens: char, ones: char)
    requires Digit(tens) && Digit(ones)
    ensures Total(range + "/" + [tens, ones]) == 10 * ((tens as int) - 48) + (ones as int) - 48
  {
    TextAfterSlash(range, [tens, ones]);
    assert [tens, ones][..1] == [tens] && [tens][..0] == [];
    assert Number([tens]) == Value(tens);
  }

  /** A sign is accepted before the digits, and a minus means it. */
  lemma TotalOfSigned(range: string, sign: char, n: nat)
    requires sign == '+' || sign == '-'
    ensures Total(range + "/" + ([sign] + Decimal(n)))
         == if sign == '-' then (if n <= INT64_LIMIT then -(n as int) else -1) else if n < INT64_LIMIT then n as int else -1
  {
    var digits := Decimal(n);
    NumberOfDecimal(n);
    assert Lacks(digits, '/');
    TextAfterSlash(range, [sign] + digits);
    SignedParts(sign, digits, n);
  }

  lemma SignedParts(sign: char, digits: string, n: int)
    requires (sign == '+' || sign == '-') && digits != [] && Digits(digits) && Number(digits) == n
    ensures ParseInt64([sign] + digits)
         == if sign == '-' then (if n <= INT64_LIMIT then Some(-n) else None)
            else if n < INT64_LIMIT then Some(n) else None
  {
    assert ([sign] + digits)[1..] == digits;
  }

  /** Without a slash there is no size. */
  lemma TotalWithoutSlash(header: string)
    requires Lacks(header, '/')
    ensures Total(header) == -1
  {
  }

  /** A size that is not a number is unknown: nothing but digits, with a sign before them at most, is accepted. */
  lemma TotalOfOther(range: string, size: string)
    requires Lacks(size, '/')
    ensures Total(range + "/" + size) != -1 ==>
      size != [] && Digits(size[1..]) && (Digit(size[0]) || ((size[0] == '-' || size[0] == '+') && |size| > 1))
  {
    TextAfterSlash(range, size);
  }
}
