/**
 * Machine-level values shared by both walkers: bytes, the C unsigned
 * integer widths with explicit wrap-around, NUL-terminated views of byte
 * buffers, and fixed-width decimal rendering.
 */
module Bytes {

  type Byte = x: int | 0 <= x < 0x100
  type U16 = x: int | 0 <= x < 0x1_0000
  type U32 = x: int | 0 <= x < 0x1_0000_0000

  const TWO32: int := 0x1_0000_0000

  datatype Option<T> = None | Some(value: T)

  /** Reduction modulo 2^32: the value a C `uint32_t` holds after an assignment. */
  function Wrap32(x: int): (r: U32)
    ensures 0 <= x < TWO32 ==> r == x
    ensures (x - r) % TWO32 == 0
  {
    x % TWO32
  }

  /** `a -= b` on a `uint32_t`, where `b` is the (non-negative) amount subtracted. */
  function Sub32(a: U32, b: nat): (r: U32)
    ensures b <= a ==> r == a - b
    ensures a < b <= a + TWO32 ==> r == a - b + TWO32
  {
    if b <= a then a - b else Wrap32(a - b)
  }

  /** The value of a C `char` holding byte `b`, with `char` signed. */
  function SChar(b: Byte): (c: int)
    ensures -128 <= c < 128
    ensures (c - b) % 0x100 == 0
  {
    if b < 0x80 then b else b - 0x100
  }

  /** The bytes of an ASCII literal. */
  function Ascii(s: string): (b: seq<Byte>)
    requires forall i :: 0 <= i < |s| ==> s[i] as int < 0x80
    ensures |b| == |s|
    ensures forall i :: 0 <= i < |s| ==> b[i] == s[i] as int
  {
    seq(|s|, i requires 0 <= i < |s| => s[i] as int)
  }

  /**
   * What `strcmp`, `strlen` and `printf("%s")` see of a NUL-terminated
   * buffer: the bytes before the first 0 byte (all of `s` when it has none).
   */
  function CStr(s: seq<Byte>): (r: seq<Byte>)
    ensures |r| <= |s| && r == s[..|r|]
    ensures forall i :: 0 <= i < |r| ==> r[i] != 0
    ensures |r| < |s| ==> s[|r|] == 0
  {
    if s == [] || s[0] == 0 then [] else [s[0]] + CStr(s[1..])
  }

  lemma {:induction false} CStrOfNulFree(s: seq<Byte>)
    requires forall i :: 0 <= i < |s| ==> s[i] != 0
    ensures CStr(s) == s
  {
    if s != [] {
      CStrOfNulFree(s[1..]);
    }
  }

  lemma {:induction false} CStrStopsAtNul(s: seq<Byte>, t: seq<Byte>)
    requires forall i :: 0 <= i < |s| ==> s[i] != 0
    ensures CStr(s + [0] + t) == s
  {
    if s != [] {
      assert (s + [0] + t)[1..] == s[1..] + [0] + t;
      CStrStopsAtNul(s[1..], t);
    }
  }

  /** The `isspace` class of the C locale. */
  predicate IsSpace(b: Byte) {
    b == 0x20 || 0x09 <= b <= 0x0D
  }

  predicate IsDigit(b: Byte) {
    0x30 <= b <= 0x39
  }

  function Pow10(n: nat): (p: nat)
    ensures p >= 1
  {
    if n == 0 then 1 else 10 * Pow10(n - 1)
  }

  /**
   * The last `n` decimal digits of `v`, most significant first: what
   * `%0nd` prints for `v < 10^n`, and what a loop that stores `'0' + v % 10`
   * from the right while dividing `v` by ten leaves behind.
   */
  function Digits(v: nat, n: nat): (r: seq<Byte>)
    ensures |r| == n
    ensures forall i :: 0 <= i < n ==> IsDigit(r[i])
  {
    if n == 0 then [] else Digits(v / 10, n - 1) + [0x30 + v % 10]
  }

  /** The number a run of decimal digits denotes. */
  function DecValue(s: seq<Byte>): (v: nat)
    requires forall i :: 0 <= i < |s| ==> IsDigit(s[i])
    ensures v < Pow10(|s|)
  {
    if s == [] then 0
    else
      var init := DecValue(s[..|s| - 1]);
      var last := s[|s| - 1] as int - 0x30;
      assert IsDigit(s[|s| - 1]);
      assert init * 10 <= (Pow10(|s| - 1) - 1) * 10;
      assert Pow10(|s|) == 10 * Pow10(|s| - 1);
      init * 10 + last
  }

  /** Rendering in `n` digits and reading the digits back is the identity below 10^n. */
  lemma {:induction false} DecValueOfDigits(v: nat, n: nat)
    requires v < Pow10(n)
    ensures DecValue(Digits(v, n)) == v
  {
    if n > 0 {
      var d := Digits(v, n);
      assert d[..n - 1] == Digits(v / 10, n - 1);
      DecValueOfDigits(v / 10, n - 1);
    }
  }

  /** Reading `n` digits and rendering the value in `n` digits gives the digits back. */
  lemma {:induction false} DigitsOfDecValue(s: seq<Byte>)
    requires forall i :: 0 <= i < |s| ==> IsDigit(s[i])
    ensures Digits(DecValue(s), |s|) == s
  {
    if s != [] {
      var init := s[..|s| - 1];
      var v := DecValue(s);
      assert v / 10 == DecValue(init) && v % 10 == s[|s| - 1] as int - 0x30;
      DigitsOfDecValue(init);
      assert s == init + [s[|s| - 1]];
    }
  }

  /** The two digits `Digits` gives for a width of two are those of `v mod 100`. */
  lemma TwoDigits(v: nat)
    ensures Digits(v, 2) == [0x30 + (v % 100) / 10, 0x30 + v % 10]
  {
    var q, r := v / 100, v % 100;
    assert v == r % 10 + 10 * (r / 10 + 10 * q);
    assert v / 10 == r / 10 + 10 * q;
    assert (v / 10) % 10 == r / 10;
    assert Digits(v, 2) == Digits(v / 10, 1) + [0x30 + v % 10];
    assert Digits(v / 10, 1) == [0x30 + (v / 10) % 10];
  }
}
