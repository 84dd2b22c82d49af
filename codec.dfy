/**
 * The chunk header codec shared by riffdate.c and riff.c (the two files
 * hold the same text for it): a byte stream read forwards from a position,
 * little-endian 16- and 32-bit fields, the 8-byte chunk header, the
 * word-alignment pad, and the budget a chunk costs its container.
 *
 * A read of n bytes at position pos succeeds when pos + n <= |data|; a read
 * past the end yields Eof, which the walkers turn into the end of the run.
 * A skip (fseeko/fseek relative to the current position) never fails and may
 * leave the position beyond the end of the data.
 */
module Codec {
  import opened Bytes

  type FourCC = s: seq<Byte> | |s| == 4 witness [0, 0, 0, 0]

  /** `struct hdr`: a four-character code and the declared (unpadded) payload size. */
  datatype Hdr = Hdr(tag: FourCC, size: U32)

  /** The result of reading from the stream: the value and the new position, or a short read. */
  datatype Read<T> = Got(value: T, next: nat) | Eof

  const LIST: FourCC := [0x4C, 0x49, 0x53, 0x54]  // "LIST"
  const RIFF: FourCC := [0x52, 0x49, 0x46, 0x46]  // "RIFF"
  const NCTG: FourCC := [0x6E, 0x63, 0x74, 0x67]  // "nctg"

  /** Bytes left to read at `pos`; it bounds every loop and recursion of the walkers. */
  function Remaining(data: seq<Byte>, pos: nat): nat {
    if pos <= |data| then |data| - pos else 0
  }

  /** `read_bytes`: the next `n` bytes. */
  function ReadBytes(data: seq<Byte>, pos: nat, n: nat): (r: Read<seq<Byte>>)
    ensures r.Got? <==> pos + n <= |data|
    ensures r.Got? ==> r.next == pos + n && |r.value| == n
    ensures forall i :: r.Got? && 0 <= i < n ==> r.value[i] == data[pos + i]
  {
    if pos + n <= |data| then Got(data[pos..pos + n], pos + n) else Eof
  }

  /** The little-endian decoding expression of `read_u16`. */
  function LeU16(b0: Byte, b1: Byte): (r: U16)
    ensures r % 0x100 == b0 as int && r / 0x100 == b1 as int
  {
    b0 as int + b1 as int * 0x100
  }

  /** The little-endian decoding expression of `read_u32`. */
  function LeU32(b: seq<Byte>): (r: U32)
    requires |b| == 4
    ensures r % 0x100 == b[0] as int && r / 0x100_0000 == b[3] as int
  {
    b[0] as int + b[1] as int * 0x100 + b[2] as int * 0x1_0000 + b[3] as int * 0x100_0000
  }

  function EncodeU16(v: U16): (b: seq<Byte>)
    ensures |b| == 2
  {
    [v % 0x100, v / 0x100]
  }

  function EncodeU32(v: U32): (b: seq<Byte>)
    ensures |b| == 4
  {
    [v % 0x100, (v / 0x100) % 0x100, (v / 0x1_0000) % 0x100, v / 0x100_0000]
  }

  lemma DecodeEncodeU16(v: U16)
    ensures LeU16(EncodeU16(v)[0], EncodeU16(v)[1]) == v
  {
  }

  /** Decoding is a bijection between four bytes and a u32. */
  lemma DecodeEncodeU32(v: U32, b: seq<Byte>)
    requires |b| == 4
    ensures LeU32(EncodeU32(v)) == v
    ensures EncodeU32(LeU32(b)) == b
  {
    var x := LeU32(b);
    var hi1 := b[1] as int + b[2] as int * 0x100 + b[3] as int * 0x1_0000;
    var hi2 := b[2] as int + b[3] as int * 0x100;
    assert x == b[0] as int + 0x100 * hi1 && hi1 == b[1] as int + 0x100 * hi2 && hi2 == b[2] as int + 0x100 * b[3] as int;
    assert x / 0x100 == hi1 && x % 0x100 == b[0];
    assert x / 0x1_0000 == hi2 && hi1 % 0x100 == b[1];
    assert x / 0x100_0000 == b[3] && hi2 % 0x100 == b[2];
    assert v == v % 0x100 + 0x100 * (v / 0x100);
    assert v / 0x100 == (v / 0x100) % 0x100 + 0x100 * (v / 0x1_0000);
    assert v / 0x1_0000 == (v / 0x1_0000) % 0x100 + 0x100 * (v / 0x100_0000);
  }

  /** `read_u16`: two bytes, low byte first. */
  function ReadU16(data: seq<Byte>, pos: nat): (r: Read<U16>)
    ensures r.Got? <==> pos + 2 <= |data|
    ensures r.Got? ==> r.next == pos + 2 && r.value == data[pos] as int + data[pos + 1] as int * 0x100
  {
    if pos + 2 <= |data| then Got(LeU16(data[pos], data[pos + 1]), pos + 2) else Eof
  }

  /** `read_u32`: four bytes, low byte first. */
  function ReadU32(data: seq<Byte>, pos: nat): (r: Read<U32>)
    ensures r.Got? <==> pos + 4 <= |data|
    ensures r.Got? ==> r.next == pos + 4
    ensures r.Got? ==> r.value == data[pos] as int + data[pos + 1] as int * 0x100
                                  + data[pos + 2] as int * 0x1_0000 + data[pos + 3] as int * 0x100_0000
  {
    if pos + 4 <= |data| then Got(LeU32(data[pos..pos + 4]), pos + 4) else Eof
  }

  /** `read_fcc`/`read_fourcc`: four opaque tag bytes. */
  function ReadFourCC(data: seq<Byte>, pos: nat): (r: Read<FourCC>)
    ensures r.Got? <==> pos + 4 <= |data|
    ensures r.Got? ==> r.next == pos + 4 && r.value == data[pos..pos + 4]
  {
    match ReadBytes(data, pos, 4)
    case Eof => Eof
    case Got(b, p) => var tag: FourCC := b; Got(tag, p)
  }

  /** `read_hdr`: a four-character code followed by a little-endian u32 size. */
  function ReadHdr(data: seq<Byte>, pos: nat): (r: Read<Hdr>)
    ensures r.Got? <==> pos + 8 <= |data|
    ensures r.Got? ==> r.next == pos + 8 && r.value.tag == data[pos..pos + 4]
    ensures r.Got? ==> r.value.size == LeU32(data[pos + 4..pos + 8])
  {
    match ReadFourCC(data, pos)
    case Eof => Eof
    case Got(tag, p) =>
      match ReadU32(data, p)
      case Eof => Eof
      case Got(size, q) => Got(Hdr(tag, size), q)
  }

  function EncodeHdr(h: Hdr): (b: seq<Byte>)
    ensures |b| == 8
  {
    h.tag + EncodeU32(h.size)
  }

  /** Reading the encoding of a header gives the header back. */
  lemma ReadEncodedHdr(data: seq<Byte>, pos: nat, h: Hdr)
    requires pos + 8 <= |data| && data[pos..pos + 8] == EncodeHdr(h)
    ensures ReadHdr(data, pos) == Got(h, pos + 8)
  {
    assert data[pos..pos + 4] == EncodeHdr(h)[..4] == h.tag;
    assert data[pos + 4..pos + 8] == EncodeU32(h.size);
    DecodeEncodeU32(h.size, h.tag);
  }

  /**
   * `size_pad`: `(sz + 1) / 2 * 2` in u32 arithmetic. Below 0xFFFFFFFF this
   * rounds up to even; the increment wraps for 0xFFFFFFFF, which pads to 0.
   */
  function SizePad(sz: U32): (r: U32)
    ensures sz < 0xFFFF_FFFF ==> r == sz + sz % 2
    ensures sz == 0xFFFF_FFFF ==> r == 0
  {
    Wrap32(sz + 1) / 2 * 2
  }

  /** Below 0xFFFFFFFF the pad is the smallest even number not below the size. */
  lemma SizePadIsLeastEven(sz: U32, e: int)
    requires sz < 0xFFFF_FFFF
    requires e % 2 == 0 && sz <= e
    ensures SizePad(sz) % 2 == 0 && sz <= SizePad(sz) <= e
  {
  }

  /**
   * `chunksize = 8 + size_pad(h.size)` in u32 arithmetic: the budget one
   * chunk costs its container. It wraps for declared sizes from 0xFFFFFFF7
   * on, so such a chunk costs less than its own header.
   */
  function ChunkSize(sz: U32): (r: U32)
    ensures sz < 0xFFFF_FFF7 ==> r == 8 + sz + sz % 2
    ensures 0xFFFF_FFF7 <= sz < 0xFFFF_FFFF ==> r == sz + sz % 2 + 8 - TWO32 && r < 8
    ensures sz == 0xFFFF_FFFF ==> r == 8
  {
    Wrap32(8 + SizePad(sz))
  }

  /** The summed cost of the chunks a container walk has completed. */
  function Cost(done: seq<Hdr>): nat {
    if done == [] then 0 else ChunkSize(done[0].size) + Cost(done[1..])
  }

  /**
   * The chunks with headers `hs` follow one another from `pos`: each header
   * is in place and its chunk takes `ChunkSize` bytes, no size being close
   * enough to the u32 wrap to make that cost wrap.
   */
  predicate Laid(data: seq<Byte>, pos: nat, hs: seq<Hdr>)
    decreases |hs|
  {
    hs == [] ||
    (hs[0].size < 0xFFFF_FFF7 && ReadHdr(data, pos) == Got(hs[0], pos + 8)
     && Laid(data, pos + ChunkSize(hs[0].size), hs[1..]))
  }

  /** Chunks laid out one after another cost an even number of bytes, every chunk being padded to even. */
  lemma {:induction false} LaidCostEven(data: seq<Byte>, pos: nat, hs: seq<Hdr>)
    requires Laid(data, pos, hs)
    ensures Cost(hs) % 2 == 0
    decreases |hs|
  {
    if hs != [] {
      var c := ChunkSize(hs[0].size);
      assert hs[0].size < 0xFFFF_FFF7 && Laid(data, pos + c, hs[1..]);
      LaidCostEven(data, pos + c, hs[1..]);
      EvenAfterChunk(hs[0].size, Cost(hs[1..]));
    }
  }

  /** Adding the cost of one chunk keeps an even sum even. */
  lemma EvenAfterChunk(sz: U32, x: nat)
    requires sz < 0xFFFF_FFF7 && x % 2 == 0
    ensures (ChunkSize(sz) + x) % 2 == 0
  {
  }

  /** A `LIST` of size 4 plus an even cost `c` costs its container 12 + `c`, and its contents get budget `c`. */
  lemma EvenListCost(size: U32, c: nat)
    requires c % 2 == 0 && size == 4 + c && size < 0xFFFF_FFF7
    ensures ChunkSize(size) == 12 + c && Sub32(size, 4) == c
  {
  }

  /** Why the walk of one container stopped. */
  datatype Stop =
    | Exhausted          // the budget reached zero
    | Overrun(hdr: Hdr)  // the chunk `hdr` costs more than the budget left: "inconsist sizes"
    | MoviList           // a `LIST movi` ended the walk (riffdate.c outside tree mode)

  /**
   * How a container walk ended: the walker state `s`, the budget left, the
   * chunks completed at this level (in order) and the reason it stopped.
   */
  datatype Level<S> = Level(s: S, left: U32, done: seq<Hdr>, stop: Stop)

  /** A walk either finishes, or hits a short read and ends the run with the output so far. */
  datatype Outcome<T, E> = Ok(value: T) | Truncated(out: seq<E>)
}
