/**
 * Nikon's `nctg` tag block, as both `nctg` functions walk it
 * (riffdate.c:259-293, riff.c:139-170): a flat run of entries, each a u16
 * type, a u16 length and that many value bytes, with no padding between
 * entries. The walk runs while its u32 budget `rest` is non-zero and takes
 * `4 + size` off it per entry without checking for underflow, so an entry
 * that overruns the block wraps the budget instead of ending the walk.
 *
 * The two C functions read the stream the same way and differ only in what
 * they print; each walker maps the entries found here to its own events.
 * `readDates` says whether the values of the DateTimeOriginal (0x0013) and
 * CreateDate (0x0014) entries are read (`read_bytes`) rather than skipped:
 * riff.c always reads them, riffdate.c only outside tree mode.
 */
module NctgBlock {
  import opened Bytes
  import opened Codec

  const DATE_TIME_ORIGINAL: U16 := 0x0013
  const CREATE_DATE: U16 := 0x0014

  predicate IsDateType(typ: U16) {
    typ == DATE_TIME_ORIGINAL || typ == CREATE_DATE
  }

  /** One entry as the walk met it; `value` holds the bytes read, None when they were skipped. */
  datatype Entry = Entry(typ: U16, size: U16, value: Option<seq<Byte>>)

  /** The entries walked in order, and the stream position at the end (None after a short read). */
  datatype Scan = Scan(entries: seq<Entry>, end: Option<nat>)

  /** Bytes the entries occupy in the stream: `4 + size` each. */
  function EntryBytes(es: seq<Entry>): nat {
    if es == [] then 0 else 4 + es[0].size + EntryBytes(es[1..])
  }

  function Prepend(es: seq<Entry>, sc: Scan): Scan {
    Scan(es + sc.entries, sc.end)
  }

  /** Adding `c` to a number congruent to `a - c` modulo 2^32 gives one congruent to `a`. */
  lemma BudgetStep(a: U32, c: nat, t: nat)
    requires t % TWO32 == Sub32(a, c)
    ensures (c + t) % TWO32 == a
  {
    var r := Sub32(a, c);
    var q := t / TWO32;
    var m := (a - c - r) / TWO32;
    assert t == q * TWO32 + r;
    assert a - c - r == m * TWO32;
    assert c + t == a + (q - m) * TWO32;
  }

  /** One entry followed by a walk that accounts for its own bytes accounts for all of them. */
  lemma ConsAccounts(e: Entry, tail: Scan, pos: nat, rest: U32)
    requires tail.end.Some? ==> tail.end.value == pos + 4 + e.size + EntryBytes(tail.entries)
    requires tail.end.Some? ==> EntryBytes(tail.entries) % TWO32 == Sub32(rest, 4 + e.size)
    ensures var r := Prepend([e], tail);
            r.end.Some? ==> r.end.value == pos + EntryBytes(r.entries) && EntryBytes(r.entries) % TWO32 == rest
  {
    var r := Prepend([e], tail);
    assert r.entries[1..] == tail.entries;
    if tail.end.Some? {
      BudgetStep(rest, 4 + e.size, EntryBytes(tail.entries));
    }
  }

  /** The value of one entry: read when it is a date and dates are read, skipped otherwise. */
  function EntryValue(data: seq<Byte>, pos: nat, typ: U16, size: U16, readDates: bool): (r: Read<Entry>)
    ensures r.Got? ==> r.next == pos + size && r.value.typ == typ && r.value.size == size
    ensures r.Got? ==> (r.value.value.Some? <==> readDates && IsDateType(typ))
    ensures r.Eof? ==> readDates && IsDateType(typ)
  {
    if readDates && IsDateType(typ) then
      match ReadBytes(data, pos, size)
      case Eof => Eof
      case Got(v, p) => Got(Entry(typ, size, Some(v)), p)
    else Got(Entry(typ, size, None), pos + size)
  }

  /** One pass of the loop body of `nctg` at `pos`: the type, the length and the value of an entry. */
  function ReadEntry(data: seq<Byte>, pos: nat, readDates: bool): (r: Read<Entry>)
    ensures r.Got? ==> r.next == pos + 4 + r.value.size
    ensures r.Got? ==> (r.value.value.Some? <==> readDates && IsDateType(r.value.typ))
    ensures r.Eof? <==> pos + 4 > |data| || (readDates && IsDateType(LeU16(data[pos], data[pos + 1]))
                                             && pos + 4 + LeU16(data[pos + 2], data[pos + 3]) > |data|)
  {
    match ReadU16(data, pos)
    case Eof => Eof
    case Got(typ, p1) =>
      match ReadU16(data, p1)
      case Eof => Eof
      case Got(size, p2) => EntryValue(data, p2, typ, size, readDates)
  }

  /** The loop of `nctg`, from stream position `pos` with budget `rest`. */
  function NctgScan(data: seq<Byte>, pos: nat, rest: U32, readDates: bool): Scan
    decreases Remaining(data, pos)
  {
    if rest == 0 then Scan([], Some(pos))
    else
      match ReadEntry(data, pos, readDates)
      case Eof => Scan([], None)
      case Got(e, p) =>
        Prepend([e], NctgScan(data, p, Sub32(rest, 4 + e.size), readDates))
  }

  /**
   * A walk that finishes has consumed exactly the bytes of its entries, and
   * their count is congruent to the budget modulo 2^32: equal to it when no
   * entry overran the budget, larger by a multiple of 2^32 otherwise.
   */
  lemma {:induction false} ScanAccounts(data: seq<Byte>, pos: nat, rest: U32, readDates: bool)
    ensures var r := NctgScan(data, pos, rest, readDates);
            r.end.Some? ==> r.end.value == pos + EntryBytes(r.entries) && EntryBytes(r.entries) % TWO32 == rest
    decreases Remaining(data, pos)
  {
    if rest != 0 {
      match ReadEntry(data, pos, readDates)
      case Eof =>
      case Got(e, p) =>
        var tail := NctgScan(data, p, Sub32(rest, 4 + e.size), readDates);
        ScanAccounts(data, p, Sub32(rest, 4 + e.size), readDates);
        ConsAccounts(e, tail, pos, rest);
    }
  }

  /** Value bytes short enough for a u16 length. */
  type Value = s: seq<Byte> | |s| < 0x1_0000

  /** An entry to encode: a type and its value bytes. */
  datatype RawEntry = RawEntry(typ: U16, value: Value)

  /** The block bytes of `es`: type, length and value of each, back to back. */
  function EncodeEntries(es: seq<RawEntry>): (b: seq<Byte>)
  {
    if es == [] then []
    else EncodeU16(es[0].typ) + EncodeU16(|es[0].value|) + es[0].value + EncodeEntries(es[1..])
  }

  /** What the walk reports for encoded entries. */
  function Expected(es: seq<RawEntry>, readDates: bool): seq<Entry>
  {
    if es == [] then []
    else
      [Reported(es[0], readDates)] + Expected(es[1..], readDates)
  }

  /** Where the parts of one encoded entry lie in the stream. */
  lemma EncodedEntryAt(data: seq<Byte>, pos: nat, typ: U16, value: seq<Byte>, tail: seq<Byte>)
    requires |value| < 0x1_0000
    requires pos + 4 + |value| + |tail| <= |data|
    requires data[pos..pos + 4 + |value| + |tail|] == EncodeU16(typ) + EncodeU16(|value|) + value + tail
    ensures ReadU16(data, pos) == Got(typ, pos + 2)
    ensures ReadU16(data, pos + 2) == Got(|value|, pos + 4)
    ensures data[pos + 4..pos + 4 + |value|] == value
    ensures data[pos + 4 + |value|..pos + 4 + |value| + |tail|] == tail
  {
    var n := |value|;
    var block := data[pos..pos + 4 + n + |tail|];
    assert data[pos..pos + 2] == block[..2] == EncodeU16(typ);
    assert data[pos + 2..pos + 4] == block[2..4] == EncodeU16(n);
    assert data[pos + 4..pos + 4 + n] == block[4..4 + n];
    assert data[pos + 4 + n..pos + 4 + n + |tail|] == block[4 + n..];
    DecodeEncodeU16(typ);
    DecodeEncodeU16(n);
  }

  /** What the walk reports for one encoded entry. */
  function Reported(e: RawEntry, readDates: bool): Entry {
    Entry(e.typ, |e.value|, if readDates && IsDateType(e.typ) then Some(e.value) else None)
  }

  /** The bytes the encoding of `es` occupies. */
  function BlockSize(es: seq<RawEntry>): nat {
    if es == [] then 0 else 4 + |es[0].value| + BlockSize(es[1..])
  }

  lemma {:induction false} BlockSizeIsLength(es: seq<RawEntry>)
    ensures BlockSize(es) == |EncodeEntries(es)|
  {
    if es != [] {
      BlockSizeIsLength(es[1..]);
    }
  }

  /** From `pos` on, each entry of `es` reads back as reported, one after the other. */
  predicate Chain(data: seq<Byte>, pos: nat, es: seq<RawEntry>, readDates: bool)
    decreases es
  {
    es == [] ||
    (ReadEntry(data, pos, readDates) == Got(Reported(es[0], readDates), pos + 4 + |es[0].value|)
     && Chain(data, pos + 4 + |es[0].value|, es[1..], readDates))
  }

  lemma {:induction false} ChainOfEncoded(data: seq<Byte>, pos: nat, es: seq<RawEntry>, readDates: bool)
    requires pos + |EncodeEntries(es)| <= |data|
    requires data[pos..pos + |EncodeEntries(es)|] == EncodeEntries(es)
    ensures Chain(data, pos, es, readDates)
    decreases es
  {
    if es != [] {
      var e := es[0];
      var tailEnc := EncodeEntries(es[1..]);
      assert EncodeEntries(es) == EncodeU16(e.typ) + EncodeU16(|e.value|) + e.value + tailEnc;
      EncodedEntryAt(data, pos, e.typ, e.value, tailEnc);
      assert ReadEntry(data, pos, readDates) == Got(Reported(e, readDates), pos + 4 + |e.value|);
      ChainOfEncoded(data, pos + 4 + |e.value|, es[1..], readDates);
    }
  }

  /** A walk that reads an entry and then walks on reports that entry first. */
  lemma ScanCons(data: seq<Byte>, pos: nat, rest: U32, readDates: bool, e: Entry, p: nat, tailRest: U32)
    requires rest != 0 && ReadEntry(data, pos, readDates) == Got(e, p)
    requires Sub32(rest, 4 + e.size) == tailRest
    ensures NctgScan(data, pos, rest, readDates) == Prepend([e], NctgScan(data, p, tailRest, readDates))
  {
  }

  /** A walk reads the value of exactly the date entries, and only when dates are read. */
  lemma {:induction false} ScanReadsDates(data: seq<Byte>, pos: nat, rest: U32, readDates: bool)
    ensures forall e :: e in NctgScan(data, pos, rest, readDates).entries ==>
              (e.value.Some? <==> readDates && IsDateType(e.typ))
    decreases Remaining(data, pos)
  {
    if rest != 0 {
      match ReadEntry(data, pos, readDates)
      case Eof =>
      case Got(e, p) =>
        ScanReadsDates(data, p, Sub32(rest, 4 + e.size), readDates);
    }
  }

  /** One pass of the `nctg` loop, as the entries walked so far and the walk still to come see it. */
  lemma ScanStep(data: seq<Byte>, pos: nat, rest: U32, readDates: bool, seen: seq<Entry>, e: Entry, p: nat)
    requires rest != 0 && ReadEntry(data, pos, readDates) == Got(e, p)
    ensures Prepend(seen, NctgScan(data, pos, rest, readDates))
            == Prepend(seen + [e], NctgScan(data, p, Sub32(rest, 4 + e.size), readDates))
  {
    var tail := NctgScan(data, p, Sub32(rest, 4 + e.size), readDates);
    ScanCons(data, pos, rest, readDates, e, p, Sub32(rest, 4 + e.size));
    assert seen + ([e] + tail.entries) == (seen + [e]) + tail.entries;
  }

  lemma {:induction false} ScanChain(data: seq<Byte>, pos: nat, es: seq<RawEntry>, rest: U32, readDates: bool)
    requires rest == BlockSize(es)
    requires Chain(data, pos, es, readDates)
    ensures NctgScan(data, pos, rest, readDates).entries == Expected(es, readDates)
    ensures NctgScan(data, pos, rest, readDates).end == Some(pos + rest)
    decreases es
  {
    if es != [] {
      var n := |es[0].value|;
      assert Sub32(rest, 4 + n) == rest - 4 - n;
      ScanChain(data, pos + 4 + n, es[1..], rest - 4 - n, readDates);
      ScanCons(data, pos, rest, readDates, Reported(es[0], readDates), pos + 4 + n, rest - 4 - n);
    }
  }

  /**
   * Walking a well-formed block with its exact size as budget reports every
   * entry in order, with the date values verbatim, and ends right after the
   * last entry.
   */
  lemma ScanEncoded(data: seq<Byte>, pos: nat, es: seq<RawEntry>, readDates: bool)
    requires |EncodeEntries(es)| < TWO32
    requires pos + |EncodeEntries(es)| <= |data|
    requires data[pos..pos + |EncodeEntries(es)|] == EncodeEntries(es)
    ensures NctgScan(data, pos, |EncodeEntries(es)|, readDates)
            == Scan(Expected(es, readDates), Some(pos + |EncodeEntries(es)|))
  {
    BlockSizeIsLength(es);
    ChainOfEncoded(data, pos, es, readDates);
    ScanChain(data, pos, es, |EncodeEntries(es)|, readDates);
  }

  /**
   * An entry longer than the budget left does not end the walk: the budget
   * wraps and the walk reads on past the block (here into the end of the data).
   */
  lemma OverrunWrapsBudget(readDates: bool)
    ensures var data := EncodeU16(1) + EncodeU16(2) + [0, 0];
            NctgScan(data, 0, 4, readDates) == Scan([Entry(1, 2, None)], None)
  {
    var data := EncodeU16(1) + EncodeU16(2) + [0, 0];
    assert ReadU16(data, 0) == Got(1, 2);
    assert ReadU16(data, 2) == Got(2, 4);
    assert Sub32(4, 6) == 0xFFFF_FFFE;
  }
}
