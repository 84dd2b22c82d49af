/**
 * The SIGMA IDIT workaround of riffdate.c (lines 186-256).
 *
 * Some SIGMA DP1/DP2 bodies write the IDIT date with each two-digit number
 * encoded as if its decimal digits were hexadecimal digits offset from '0'
 * ("0=" for 13, "0;" for 11). `fix_sigma_idit` recognises the broken shape
 * (a 26-byte C string whose five number fields start with a byte in
 * ['0', '0' + 16)) and rewrites each field in place: the two bytes are read
 * as a base-16 number, digit by digit as `byte - '0'`, and the field is
 * overwritten with the last two decimal digits of that number.
 *
 * Plain `char` is taken to be signed, as on the usual ABIs the tool was
 * written for; the byte values met in practice are ASCII, where signed and
 * unsigned agree.
 */
module SigmaRepair {
  import opened Bytes

  /** The start offsets of the five number fields: day, hour, minute, second, last two digits of the year. */
  const WHERE: seq<nat> := [8, 11, 14, 17, 22]

  /** `strlen("SUN APR 0> 11:07:37 200=\n ")`. */
  const BROKEN_LENGTH: nat := 26

  /**
   * The accumulation loop of `fix_sigma_idit_number`: `v = v * 16 + c - '0'`
   * over the bytes, in `unsigned int` arithmetic with `c` a signed `char`.
   */
  function HexAccum(s: seq<Byte>): U32 {
    if s == [] then 0 else Wrap32(HexAccum(s[..|s| - 1]) * 16 + SChar(s[|s| - 1]) - 0x30)
  }

  /** `fix_sigma_idit_number(buf, idx, n)` as a function of the buffer's bytes. */
  function FixNumber(s: seq<Byte>, idx: nat, n: nat): (r: seq<Byte>)
    requires idx + n <= |s|
    ensures |r| == |s|
  {
    s[..idx] + Digits(HexAccum(s[idx..idx + n]), n) + s[idx + n..]
  }

  /** The sanity checks of `fix_sigma_idit`: the length, and the first byte of every field. */
  predicate RepairApplies(s: seq<Byte>) {
    && |CStr(s)| == BROKEN_LENGTH
    && forall k :: 0 <= k < |WHERE| ==> 0x30 <= s[WHERE[k]] < 0x30 + 16
  }

  /** The first `k` fields rewritten, in order. */
  function FixFields(s: seq<Byte>, k: nat): (r: seq<Byte>)
    requires |s| >= BROKEN_LENGTH && k <= |WHERE|
    ensures |r| == |s|
  {
    if k == 0 then s else FixNumber(FixFields(s, k - 1), WHERE[k - 1], 2)
  }

  /** `fix_sigma_idit` as a function of the buffer's bytes. */
  function SigmaFix(s: seq<Byte>): (r: seq<Byte>)
    ensures |r| == |s| && (!RepairApplies(s) ==> r == s)
  {
    if RepairApplies(s) then FixFields(s, |WHERE|) else s
  }

  /** Whether offset `i` lies in one of the first `k` two-byte fields. */
  predicate InFields(i: int, k: nat)
    requires k <= |WHERE|
  {
    k > 0 && (InFields(i, k - 1) || WHERE[k - 1] <= i < WHERE[k - 1] + 2)
  }

  /** The first loop of `fix_sigma_idit_number`: the field's bytes read as base 16. */
  method ReadField(buf: array<Byte>, idx: nat, n: nat) returns (v: U32)
    requires idx + n <= buf.Length
    ensures v == HexAccum(buf[idx..idx + n])
  {
    v := 0;
    var i := 0;
    while i < n
      invariant 0 <= i <= n
      invariant v == HexAccum(buf[idx..idx + i])
    {
      assert buf[idx..idx + i + 1][..i] == buf[idx..idx + i];
      v := Wrap32(v * 16 + SChar(buf[idx + i]) - 0x30);
      i := i + 1;
    }
  }

  /** The second loop of `fix_sigma_idit_number`: the last `n` decimal digits of `v`, stored from the right. */
  method WriteField(buf: array<Byte>, idx: nat, n: nat, v: nat)
    requires idx + n <= buf.Length
    modifies buf
    ensures buf[..] == old(buf[..idx]) + Digits(v, n) + old(buf[idx + n..])
  {
    ghost var written: seq<Byte> := [];
    var rest := v;
    var i := 0;
    while i < n
      invariant 0 <= i <= n && |written| == i
      invariant buf[..] == old(buf[..idx + n - i]) + written + old(buf[idx + n..])
      invariant Digits(v, n) == Digits(rest, n - i) + written
    {
      var j := idx + n - 1 - i;
      var d := 0x30 + rest % 10;
      assert old(buf[..j + 1]) == old(buf[..j]) + [old(buf[j])];
      buf[j] := d;
      written := [d] + written;
      rest := rest / 10;
      i := i + 1;
    }
  }

  /** `fix_sigma_idit_number`, in place on the buffer. */
  method FixSigmaIditNumber(buf: array<Byte>, idx: nat, n: nat)
    requires idx + n <= buf.Length
    modifies buf
    ensures buf[..] == FixNumber(old(buf[..]), idx, n)
  {
    var v := ReadField(buf, idx, n);
    WriteField(buf, idx, n, v);
  }

  /** `fix_sigma_idit`, in place on the buffer. */
  method FixSigmaIdit(buf: array<Byte>)
    modifies buf
    ensures buf[..] == SigmaFix(old(buf[..]))
  {
    if |CStr(buf[..])| != BROKEN_LENGTH {
      return;
    }
    var i := 0;
    while i < |WHERE|
      invariant 0 <= i <= |WHERE|
      invariant forall k :: 0 <= k < i ==> 0x30 <= buf[WHERE[k]] < 0x30 + 16
    {
      var ch := buf[WHERE[i]];
      if ch < 0x30 || 0x30 + 16 <= ch {
        return;
      }
      i := i + 1;
    }
    assert RepairApplies(buf[..]);
    i := 0;
    ghost var original := buf[..];
    while i < |WHERE|
      invariant 0 <= i <= |WHERE|
      invariant buf[..] == FixFields(original, i)
    {
      FixSigmaIditNumber(buf, WHERE[i], 2);
      i := i + 1;
    }
  }

  /** The ISFT values of the affected models, as SIGMA lists them. */
  const AFFECTED: seq<seq<Byte>> :=
    [[0x44, 0x50, 0x31],
     [0x44, 0x50, 0x31, 0x53],
     [0x44, 0x50, 0x31, 0x58],
     [0x44, 0x50, 0x32],
     [0x44, 0x50, 0x32, 0x53],
     [0x44, 0x50, 0x32, 0x58]]  // "DP1", "DP1S", "DP1X", "DP2", "DP2S", "DP2X"

  /** `has_sigma_idit_bug`: the C string in `isft` equals one of the listed values. */
  method HasSigmaIditBug(isft: seq<Byte>) returns (r: bool)
    ensures r <==> CStr(isft) in AFFECTED
  {
    var i := 0;
    while i < |AFFECTED|
      invariant 0 <= i <= |AFFECTED|
      invariant forall k :: 0 <= k < i ==> CStr(isft) != AFFECTED[k]
    {
      if CStr(isft) == AFFECTED[i] {
        return true;
      }
      i := i + 1;
    }
    return false;
  }

  // ---------------------------------------------------------------------
  // Properties of the repair
  // ---------------------------------------------------------------------

  /** Rewriting one field changes only the bytes of that field. */
  lemma FixNumberAt(s: seq<Byte>, idx: nat, n: nat, i: int)
    requires idx + n <= |s| && 0 <= i < |s|
    ensures !(idx <= i < idx + n) ==> FixNumber(s, idx, n)[i] == s[i]
    ensures idx <= i < idx + n ==> FixNumber(s, idx, n)[i] == Digits(HexAccum(s[idx..idx + n]), n)[i - idx]
  {
  }

  /** The accumulation over a two-byte field, written out. */
  lemma HexAccumPair(s: seq<Byte>, w: nat)
    requires w + 2 <= |s|
    ensures HexAccum(s[w..w + 2]) == Wrap32(Wrap32(SChar(s[w]) - 0x30) * 16 + SChar(s[w + 1]) - 0x30)
  {
    var f := s[w..w + 2];
    assert f[..1] == [s[w]] && f[1] == s[w + 1];
    assert [s[w]][..0] == [];
    assert HexAccum([s[w]]) == Wrap32(SChar(s[w]) - 0x30);
  }

  /** Two buffers that agree on a two-byte field accumulate the same value over it. */
  lemma HexAccumSameBytes(a: seq<Byte>, b: seq<Byte>, w: nat)
    requires w + 2 <= |a| && w + 2 <= |b| && a[w] == b[w] && a[w + 1] == b[w + 1]
    ensures HexAccum(a[w..w + 2]) == HexAccum(b[w..w + 2])
  {
    HexAccumPair(a, w);
    HexAccumPair(b, w);
  }

  /** The byte that offset `i` of field `j` holds once the field is rewritten. */
  function FieldByte(s: seq<Byte>, j: nat, i: int): Byte
    requires j < |WHERE| && WHERE[j] + 2 <= |s| && WHERE[j] <= i < WHERE[j] + 2
  {
    Digits(HexAccum(s[WHERE[j]..WHERE[j] + 2]), 2)[i - WHERE[j]]
  }

  /** After the first `k` fields are rewritten, a byte outside them is the original one. */
  lemma {:induction false} FixFieldsOutside(s: seq<Byte>, k: nat, i: int)
    requires |s| >= BROKEN_LENGTH && k <= |WHERE| && 0 <= i < |s| && !InFields(i, k)
    ensures FixFields(s, k)[i] == s[i]
  {
    if k > 0 {
      FixNumberAt(FixFields(s, k - 1), WHERE[k - 1], 2, i);
      FixFieldsOutside(s, k - 1, i);
    }
  }

  /**
   * After the first `k` fields are rewritten, a byte inside one of them is
   * the rewritten digit of that field's own original bytes.
   */
  lemma {:induction false} FixFieldsInside(s: seq<Byte>, k: nat, i: int)
    requires |s| >= BROKEN_LENGTH && k <= |WHERE| && 0 <= i < |s| && InFields(i, k)
    ensures FixFields(s, k)[i] == FieldByte(s, FieldOf(i, k), i)
  {
    var prev := FixFields(s, k - 1);
    var w := WHERE[k - 1];
    assert FixFields(s, k) == FixNumber(prev, w, 2);
    FixNumberAt(prev, w, 2, i);
    if w <= i < w + 2 {
      FieldsBelow(i, k - 1);
      assert FieldOf(i, k) == k - 1;
      FieldsBelow(w, k - 1);
      FieldsBelow(w + 1, k - 1);
      FixFieldsOutside(s, k - 1, w);
      FixFieldsOutside(s, k - 1, w + 1);
      HexAccumSameBytes(prev, s, w);
      var v := HexAccum(s[w..w + 2]);
      assert FieldByte(s, k - 1, i) == Digits(v, 2)[i - w];
    } else {
      assert InFields(i, k - 1) && FieldOf(i, k) == FieldOf(i, k - 1);
      FixFieldsInside(s, k - 1, i);
    }
  }


  /** The field, among the first `k`, that holds offset `i`. */
  function FieldOf(i: int, k: nat): (j: nat)
    requires k <= |WHERE| && InFields(i, k)
    ensures j < k && WHERE[j] <= i < WHERE[j] + 2
  {
    if InFields(i, k - 1) then FieldOf(i, k - 1) else k - 1
  }

  /** The first `k` fields all end before the start of field `k`. */
  lemma {:induction false} FieldsBelow(i: int, k: nat)
    requires k < |WHERE| && WHERE[k] <= i
    ensures !InFields(i, k)
  {
    if k > 0 {
      FieldsBelow(i, k - 1);
    }
  }

  /**
   * What `fix_sigma_idit` does: nothing unless the sanity checks pass; then
   * the bytes outside the five fields are kept and each field becomes the
   * two decimal digits of its original bytes read as base 16. The length of
   * the buffer never changes.
   */
  lemma SigmaFixShape(s: seq<Byte>)
    ensures |SigmaFix(s)| == |s|
    ensures !RepairApplies(s) ==> SigmaFix(s) == s
    ensures RepairApplies(s) ==>
              (forall i :: 0 <= i < |s| && !InFields(i, |WHERE|) ==> SigmaFix(s)[i] == s[i])
              && forall k :: 0 <= k < |WHERE| ==>
                   SigmaFix(s)[WHERE[k]..WHERE[k] + 2] == Digits(HexAccum(s[WHERE[k]..WHERE[k] + 2]), 2)
  {
    if RepairApplies(s) {
      var r := FixFields(s, |WHERE|);
      assert SigmaFix(s) == r;
      forall i | 0 <= i < |s| && !InFields(i, |WHERE|)
        ensures r[i] == s[i]
      {
        FixFieldsOutside(s, |WHERE|, i);
      }
      forall k | 0 <= k < |WHERE|
        ensures r[WHERE[k]..WHERE[k] + 2] == Digits(HexAccum(s[WHERE[k]..WHERE[k] + 2]), 2)
      {
        var w := WHERE[k];
        var d := Digits(HexAccum(s[w..w + 2]), 2);
        FieldOfStart(k, 0);
        FieldOfStart(k, 1);
        FixFieldsInside(s, |WHERE|, w);
        FixFieldsInside(s, |WHERE|, w + 1);
        assert r[w] == d[0] && r[w + 1] == d[1];
        assert r[w..w + 2] == [r[w], r[w + 1]] == [d[0], d[1]] == d;
      }
    }
  }

  /** Both bytes of field `k` lie in field `k` and in no other. */
  lemma FieldOfStart(k: nat, d: nat)
    requires k < |WHERE| && d < 2
    ensures InFields(WHERE[k] + d, |WHERE|) && FieldOf(WHERE[k] + d, |WHERE|) == k
  {
    var i := WHERE[k] + d;
    assert InFields(i, k + 1) && FieldOf(i, k + 1) == k by {
      if k > 0 {
        FieldsBelow(i, k);
      }
    }
    FieldOfGrows(i, k + 1, |WHERE|);
  }

  /** An offset in one of the first `k` fields stays in the same field when more fields are counted. */
  lemma {:induction false} FieldOfGrows(i: int, k: nat, m: nat)
    requires k <= m <= |WHERE| && InFields(i, k)
    ensures InFields(i, m) && FieldOf(i, m) == FieldOf(i, k)
    decreases m
  {
    if m > k {
      FieldOfGrows(i, k, m - 1);
    }
  }

  /**
   * For an ASCII field whose first byte passed the sanity check, the
   * rewritten digits are those of `16 * (c1 - '0') + (c2 - '0')`, taken
   * modulo 2^32 first when that is negative (a second byte below '0').
   */
  lemma FieldValue(c1: Byte, c2: Byte)
    requires 0x30 <= c1 < 0x30 + 16 && c2 < 0x80
    ensures HexAccum([c1, c2]) == Wrap32(16 * (c1 - 0x30) + (c2 - 0x30))
    ensures 0 <= 16 * (c1 - 0x30) + (c2 - 0x30) ==> HexAccum([c1, c2]) == 16 * (c1 - 0x30) + (c2 - 0x30)
  {
    assert [c1, c2][..1] == [c1];
    assert [c1][..0] == [];
    assert HexAccum([c1]) == c1 - 0x30;
  }

  /**
   * The digit bytes the repair writes never leave the digit range, so the
   * repaired string keeps its length and its NUL-free prefix.
   */
  lemma SigmaFixKeepsCString(s: seq<Byte>)
    requires RepairApplies(s)
    ensures CStr(SigmaFix(s)) == SigmaFix(s)[..BROKEN_LENGTH]
    ensures |CStr(SigmaFix(s))| == BROKEN_LENGTH
  {
    SigmaFixShape(s);
    var r := SigmaFix(s);
    var c := CStr(s);
    forall i | 0 <= i < BROKEN_LENGTH
      ensures r[i] != 0
    {
      if InFields(i, |WHERE|) {
        var k := FieldOf(i, |WHERE|);
        assert r[i] == r[WHERE[k]..WHERE[k] + 2][i - WHERE[k]];
      } else {
        assert r[i] == s[i] == c[i];
      }
    }
    if BROKEN_LENGTH < |s| {
      FieldsBelow(BROKEN_LENGTH, |WHERE| - 1);
      assert r[BROKEN_LENGTH] == s[BROKEN_LENGTH] == 0;
    }
    CStrPrefix(r, BROKEN_LENGTH);
  }

  /** A buffer whose first `n` bytes are non-zero and whose byte `n`, if any, is zero has a C string of length `n`. */
  lemma {:induction false} CStrPrefix(s: seq<Byte>, n: nat)
    requires n <= |s|
    requires forall i :: 0 <= i < n ==> s[i] != 0
    requires n < |s| ==> s[n] == 0
    ensures CStr(s) == s[..n]
  {
    if n > 0 {
      CStrPrefix(s[1..], n - 1);
      assert s[..n] == [s[0]] + s[1..][..n - 1];
    }
  }

  /**
   * A field holding the ASCII bytes `c1 c2`, with `c1` in the checked range
   * and `16 * (c1 - '0') + (c2 - '0')` not negative, is repaired to the last
   * two decimal digits of that number.
   */
  lemma FieldRepair(s: seq<Byte>, k: nat, c1: Byte, c2: Byte, d1: Byte, d2: Byte)
    requires RepairApplies(s) && k < |WHERE|
    requires s[WHERE[k]..WHERE[k] + 2] == [c1, c2]
    requires 0x30 <= c1 < 0x30 + 16 && 0x30 <= c2 < 0x80
    requires var v := 16 * (c1 - 0x30) + (c2 - 0x30); d1 == 0x30 + (v % 100) / 10 && d2 == 0x30 + v % 10
    ensures SigmaFix(s)[WHERE[k]..WHERE[k] + 2] == [d1, d2]
  {
    var w := WHERE[k];
    var v := 16 * (c1 - 0x30) + (c2 - 0x30);
    SigmaFixShape(s);
    assert SigmaFix(s)[w..w + 2] == Digits(HexAccum(s[w..w + 2]), 2);
    FieldValue(c1, c2);
    assert HexAccum(s[w..w + 2]) == v;
    TwoDigits(v);
  }

  /**
   * The first broken value the source lists, "THU FEB 0= 0;:03:0? 200;\n ",
   * field by field: it is repaired to "THU FEB 13 11:03:15 2011\n ".
   */
  lemma RepairsThursday(s: seq<Byte>)
    requires RepairApplies(s)
    requires s[8..10] == Ascii("0=") && s[11..13] == Ascii("0;") && s[14..16] == Ascii("03")
    requires s[17..19] == Ascii("0?") && s[22..24] == Ascii("0;")
    ensures SigmaFix(s)[8..10] == Ascii("13") && SigmaFix(s)[11..13] == Ascii("11")
    ensures SigmaFix(s)[14..16] == Ascii("03") && SigmaFix(s)[17..19] == Ascii("15")
    ensures SigmaFix(s)[22..24] == Ascii("11")
  {
    FieldRepair(s, 0, 0x30, 0x3D, 0x31, 0x33);
    FieldRepair(s, 1, 0x30, 0x3B, 0x31, 0x31);
    FieldRepair(s, 2, 0x30, 0x33, 0x30, 0x33);
    FieldRepair(s, 3, 0x30, 0x3F, 0x31, 0x35);
    FieldRepair(s, 4, 0x30, 0x3B, 0x31, 0x31);
  }

  /** The second broken value the source lists: "11" as hours is 0x11, so it reads back as 17. */
  lemma RepairsSunday(s: seq<Byte>)
    requires RepairApplies(s)
    requires s[8..10] == Ascii("0>") && s[11..13] == Ascii("11") && s[14..16] == Ascii("08")
    requires s[17..19] == Ascii("03") && s[22..24] == Ascii("0=")
    ensures SigmaFix(s)[8..10] == Ascii("14") && SigmaFix(s)[11..13] == Ascii("17")
    ensures SigmaFix(s)[14..16] == Ascii("08") && SigmaFix(s)[17..19] == Ascii("03")
    ensures SigmaFix(s)[22..24] == Ascii("13")
  {
    FieldRepair(s, 0, 0x30, 0x3E, 0x31, 0x34);
    FieldRepair(s, 1, 0x31, 0x31, 0x31, 0x37);
    FieldRepair(s, 2, 0x30, 0x38, 0x30, 0x38);
    FieldRepair(s, 3, 0x30, 0x33, 0x30, 0x33);
    FieldRepair(s, 4, 0x30, 0x3D, 0x31, 0x33);
  }

  /**
   * A repaired value passes the sanity checks again: its length is kept and
   * every field now starts with a decimal digit.
   */
  lemma RepairStillApplies(s: seq<Byte>)
    requires RepairApplies(s)
    ensures RepairApplies(SigmaFix(s))
  {
    SigmaFixKeepsCString(s);
    SigmaFixShape(s);
    var r := SigmaFix(s);
    forall k | 0 <= k < |WHERE|
      ensures 0x30 <= r[WHERE[k]] < 0x30 + 16
    {
      var w := WHERE[k];
      assert r[w] == r[w..w + 2][0];
    }
  }

  /**
   * So the repair is not idempotent: repairing "THU FEB 13 11:03:15 2011\n "
   * once more reads "13" as 0x13 = 19 and gives "THU FEB 19 17:03:21 2017\n ".
   */
  lemma RepairNotIdempotent(s: seq<Byte>)
    requires RepairApplies(s)
    requires s[8..10] == Ascii("13") && s[11..13] == Ascii("11") && s[14..16] == Ascii("03")
    requires s[17..19] == Ascii("15") && s[22..24] == Ascii("11")
    ensures SigmaFix(s)[8..10] == Ascii("19") && SigmaFix(s)[11..13] == Ascii("17")
    ensures SigmaFix(s)[14..16] == Ascii("03") && SigmaFix(s)[17..19] == Ascii("21")
    ensures SigmaFix(s)[22..24] == Ascii("17")
    ensures SigmaFix(s) != s
  {
    FieldRepair(s, 0, 0x31, 0x33, 0x31, 0x39);
    FieldRepair(s, 1, 0x31, 0x31, 0x31, 0x37);
    FieldRepair(s, 2, 0x30, 0x33, 0x30, 0x33);
    FieldRepair(s, 3, 0x31, 0x35, 0x32, 0x31);
    FieldRepair(s, 4, 0x31, 0x31, 0x31, 0x37);
    assert SigmaFix(s)[8..10] != s[8..10];
  }

  /** A value with the wrong length is left alone, whatever its fields hold. */
  lemma RepairNeedsLength()
    ensures var good := Ascii("FRI SEP 07 23:37:15 2012\n");
            SigmaFix(good) == good
  {
    var s := Ascii("FRI SEP 07 23:37:15 2012\n");
    CStrOfNulFree(s);
  }
}
