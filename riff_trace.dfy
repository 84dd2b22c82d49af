/**
 * The tracing walker riff.c (lines 139-208 and 227-234): the same chunk
 * walk and Nikon tag walk as riffdate, with no saved metadata, no
 * `LIST movi` stop, every line printed, and date values always read.
 *
 * A leaf chunk that is not `nctg` has its line printed twice (once before
 * the tag test and once before the skip) and is skipped by its padded
 * size. An `nctg` entry is printed one level deeper than its chunk,
 * either as a date with its value or as its type and length.
 */
module RiffTrace {
  import opened Bytes
  import opened Codec
  import opened NctgBlock

  /** One line of output; `depth` is `ctx->indent` when it is printed. */
  datatype Event =
    | RiffLine(size: U32, form: FourCC)                   // `RIFF size form`
    | ListLine(depth: nat, size: U32, listType: FourCC)     // `LIST size type`
    | LeafLine(depth: nat, tag: FourCC, size: U32)          // `tag size`
    | DateLine(depth: nat, typ: U16, text: seq<Byte>)       // `DateTimeOriginal: …` / `CreateDate: …`
    | EntryLine(depth: nat, typ: U16, length: U16)          // `ntcg type size`
    | Inconsist(depth: nat, rest: U32, chunkSize: U32)      // `inconsist sizes rest < chunksize`

  /** The walker state: stream position and the output so far. */
  datatype St = St(pos: nat, out: seq<Event>)

  /** The line of one `nctg` entry. */
  function EntryOut(e: Entry, depth: nat): Event {
    if e.value.Some? then DateLine(depth, e.typ, CStr(e.value.value)) else EntryLine(depth, e.typ, e.size)
  }

  /** The lines of the entries walked: one per entry, in order. */
  function EntryEvents(es: seq<Entry>, depth: nat): (r: seq<Event>)
    ensures |r| == |es| && forall i :: 0 <= i < |es| ==> r[i] == EntryOut(es[i], depth)
  {
    if es == [] then [] else EntryEvents(es[..|es| - 1], depth) + [EntryOut(es[|es| - 1], depth)]
  }

  lemma EntryEventsStep(seen: seq<Entry>, e: Entry, depth: nat)
    ensures EntryEvents(seen + [e], depth) == EntryEvents(seen, depth) + [EntryOut(e, depth)]
  {
    assert (seen + [e])[..|seen|] == seen;
  }

  /** `nctg(ctx, size, fp)` inside a chunk printed at `depth`: date values are always read. */
  function NctgTrace(data: seq<Byte>, size: U32, depth: nat, st: St): (r: Outcome<St, Event>)
    ensures r.Ok? ==> r.value.pos >= st.pos
    ensures var sc := NctgScan(data, st.pos, size, true);
            && (r.Ok? <==> sc.end.Some?)
            && (r.Ok? ==> r.value.pos == st.pos + EntryBytes(sc.entries) && r.value.out == st.out + EntryEvents(sc.entries, depth + 1))
            && (r.Truncated? ==> r.out == st.out + EntryEvents(sc.entries, depth + 1))
  {
    var sc := NctgScan(data, st.pos, size, true);
    ScanAccounts(data, st.pos, size, true);
    match sc.end
    case None => Truncated(st.out + EntryEvents(sc.entries, depth + 1))
    case Some(p) => Ok(St(p, st.out + EntryEvents(sc.entries, depth + 1)))
  }

  /**
   * The `else` branch of the loop body, from the position just after the
   * header: a chunk other than `nctg` is printed twice and skipped by its
   * padded size; an `nctg` chunk is printed once and left after the bytes of
   * its entries, which need not be its padded size.
   */
  function Leaf(data: seq<Byte>, h: Hdr, depth: nat, st: St): (r: Outcome<St, Event>)
    ensures r.Ok? ==> r.value.pos >= st.pos
    ensures h.tag != NCTG ==>
              r == Ok(St(st.pos + SizePad(h.size), st.out + [LeafLine(depth, h.tag, h.size), LeafLine(depth, h.tag, h.size)]))
    ensures var sc := NctgScan(data, st.pos, h.size, true);
            h.tag == NCTG && r.Ok? ==>
              && r.value.pos == st.pos + EntryBytes(sc.entries)
              && r.value.out == st.out + [LeafLine(depth, h.tag, h.size)] + EntryEvents(sc.entries, depth + 1)
  {
    var line := LeafLine(depth, h.tag, h.size);
    if h.tag == NCTG then NctgTrace(data, h.size, depth, st.(out := st.out + [line]))
    else Ok(St(st.pos + SizePad(h.size), st.out + [line, line]))
  }

  /** Where one pass of the loop body leaves the walk. */
  datatype Step = Continue(st: St, rest: U32, hdr: Hdr) | Halt(level: Level<St>)

  /** The budget check that closes the loop body of the chunk with header `h`. */
  function Budget(rest: U32, depth: nat, h: Hdr, st: St): (r: Step)
    ensures r.Continue? ==> r.st == st && r.rest + ChunkSize(h.size) == rest && r.hdr == h
    ensures r.Halt? ==> r.level.s.pos == st.pos && r.level.left == rest < ChunkSize(h.size)
    ensures r.Halt? ==> r.level.done == [] && r.level.stop == Overrun(h)
  {
    var cs := ChunkSize(h.size);
    if rest < cs then Halt(Level(st.(out := st.out + [Inconsist(depth, rest, cs)]), rest, [], Overrun(h)))
    else Continue(st, rest - cs, h)
  }

  /** One pass of the loop body of `riff` at `depth`. */
  function Body(data: seq<Byte>, rest: U32, depth: nat, st: St): (r: Outcome<Step, Event>)
    ensures r.Ok? && r.value.Continue? ==> Remaining(data, r.value.st.pos) < Remaining(data, st.pos)
    ensures r.Ok? && r.value.Continue? ==> r.value.st.pos >= st.pos
    ensures r.Ok? && r.value.Halt? ==> r.value.level.s.pos >= st.pos
    ensures r.Ok? && r.value.Halt? ==>
              var l := r.value.level;
              l.done == [] && l.left == rest && l.stop.Overrun? && rest < ChunkSize(l.stop.hdr.size)
    decreases Remaining(data, st.pos), 1
  {
    match ReadHdr(data, st.pos)
    case Eof => Truncated(st.out)
    case Got(h, p) =>
      if h.tag == LIST then
        match ReadFourCC(data, p)
        case Eof => Truncated(st.out)
        case Got(typ, q) =>
          match Walk(data, Sub32(h.size, 4), depth + 1, St(q, st.out + [ListLine(depth, h.size, typ)]))
          case Truncated(o) => Truncated(o)
          case Ok(sub) => Ok(Budget(rest, depth, h, sub.s))
      else
        match Leaf(data, h, depth, st.(pos := p))
        case Truncated(o) => Truncated(o)
        case Ok(st2) => Ok(Budget(rest, depth, h, st2))
  }

  /** The loop of `riff` at one level, `depth` being `ctx->indent` inside it. */
  function Walk(data: seq<Byte>, rest: U32, depth: nat, st: St): (r: Outcome<Level<St>, Event>)
    ensures r.Ok? ==> r.value.s.pos >= st.pos
    decreases Remaining(data, st.pos), 2
  {
    if rest == 0 then Ok(Level(st, 0, [], Exhausted))
    else
      match Body(data, rest, depth, st)
      case Truncated(o) => Truncated(o)
      case Ok(Halt(l)) => Ok(l)
      case Ok(Continue(st', rest', h)) =>
        match Walk(data, rest', depth, st')
        case Truncated(o) => Truncated(o)
        case Ok(l) => Ok(l.(done := [h] + l.done))
  }

  /** What a walk leaves for its caller. */
  function View(r: Outcome<Level<St>, Event>): Outcome<St, Event> {
    match r
    case Ok(l) => Ok(l.s)
    case Truncated(o) => Truncated(o)
  }

  /** How a run of riff ends. */
  datatype RunResult =
    | NotRiff                   // `errx(EXIT_FAILURE, "not RIFF")`
    | Aborted(out: seq<Event>)  // a short read ended the run
    | Finished(out: seq<Event>) // the walk of the root list returned

  /** `main` from the header check on (lines 227-234). */
  function Run(data: seq<Byte>): RunResult {
    match ReadHdr(data, 0)
    case Eof => Aborted([])
    case Got(h, p) =>
      if h.tag != RIFF then NotRiff
      else
        match ReadFourCC(data, p)
        case Eof => Aborted([])
        case Got(form, q) =>
          match Walk(data, Sub32(h.size, 4), 1, St(q, [RiffLine(h.size, form)]))
          case Truncated(o) => Aborted(o)
          case Ok(l) => Finished(l.s.out)
  }

  // ---------------------------------------------------------------------
  // Properties of the walk
  // ---------------------------------------------------------------------

  /**
   * The budget of a container walk: the chunks it completed cost exactly
   * the budget it used, and it stops only on an exhausted budget or on a
   * chunk that costs more than the budget left (never on `LIST movi`).
   */
  lemma {:induction false} WalkBudget(data: seq<Byte>, rest: U32, depth: nat, st: St)
    ensures var r := Walk(data, rest, depth, st);
            r.Ok? ==>
              var l := r.value;
              && Cost(l.done) + l.left == rest
              && !l.stop.MoviList?
              && (l.stop.Exhausted? ==> l.left == 0)
              && (l.stop.Overrun? ==> l.left < ChunkSize(l.stop.hdr.size))
    decreases Remaining(data, st.pos)
  {
    var b := Body(data, rest, depth, st);
    if rest != 0 && b.Ok? && b.value.Continue? {
      var c := b.value;
      WalkBudget(data, c.rest, depth, c.st);
      var w := Walk(data, c.rest, depth, c.st);
      if w.Ok? {
        assert ([c.hdr] + w.value.done)[1..] == w.value.done;
      }
    }
  }

  /** The walk only ever appends to the output. */
  predicate Extends(o0: seq<Event>, r: Outcome<St, Event>) {
    var o := if r.Ok? then r.value.out else r.out;
    |o0| <= |o| && o[..|o0|] == o0
  }

  lemma {:induction false} BodyExtends(data: seq<Byte>, rest: U32, depth: nat, st: St)
    ensures var r := Body(data, rest, depth, st);
            Extends(st.out, match r case Truncated(o) => Truncated(o)
                                     case Ok(Continue(s, _, _)) => Ok(s)
                                     case Ok(Halt(l)) => Ok(l.s))
    decreases Remaining(data, st.pos), 1
  {
    match ReadHdr(data, st.pos)
    case Eof =>
    case Got(h, p) =>
      if h.tag == LIST {
        match ReadFourCC(data, p)
        case Eof =>
        case Got(typ, q) =>
          var st1 := St(q, st.out + [ListLine(depth, h.size, typ)]);
          WalkExtends(data, Sub32(h.size, 4), depth + 1, st1);
          assert st1.out[..|st.out|] == st.out;
          match Walk(data, Sub32(h.size, 4), depth + 1, st1)
          case Truncated(o) =>
            assert o[..|st.out|] == o[..|st1.out|][..|st.out|];
          case Ok(sub) =>
            var s := sub.s.out + if rest < ChunkSize(h.size) then [Inconsist(depth, rest, ChunkSize(h.size))] else [];
            assert s[..|st.out|] == sub.s.out[..|st1.out|][..|st.out|];
      } else {
        var line := LeafLine(depth, h.tag, h.size);
        match Leaf(data, h, depth, st.(pos := p))
        case Truncated(o) =>
        case Ok(st2) =>
          var s := st2.out + if rest < ChunkSize(h.size) then [Inconsist(depth, rest, ChunkSize(h.size))] else [];
          assert s[..|st.out|] == st2.out[..|st.out|];
      }
  }

  lemma {:induction false} WalkExtends(data: seq<Byte>, rest: U32, depth: nat, st: St)
    ensures Extends(st.out, View(Walk(data, rest, depth, st)))
    decreases Remaining(data, st.pos), 2
  {
    if rest != 0 {
      BodyExtends(data, rest, depth, st);
      match Body(data, rest, depth, st)
      case Truncated(_) =>
      case Ok(Halt(l)) =>
      case Ok(Continue(st', rest', h)) =>
        WalkExtends(data, rest', depth, st');
        match View(Walk(data, rest', depth, st'))
        case Truncated(o) =>
          assert o[..|st.out|] == o[..|st'.out|][..|st.out|];
        case Ok(s) =>
          assert s.out[..|st.out|] == s.out[..|st'.out|][..|st.out|];
    }
  }

  /** The output of a run: empty when the file is not RIFF. */
  function RunOut(r: RunResult): seq<Event> {
    match r
    case NotRiff => []
    case Aborted(o) => o
    case Finished(o) => o
  }

  /** Once the RIFF header and form are read, the first line is always `RIFF size form`. */
  lemma RunStartsWithRiff(data: seq<Byte>)
    requires |data| >= 12 && data[..4] == RIFF
    ensures RunOut(Run(data)) != []
    ensures RunOut(Run(data))[0] == RiffLine(LeU32(data[4..8]), data[8..12])
  {
    var h := ReadHdr(data, 0).value;
    var st := St(12, [RiffLine(h.size, data[8..12])]);
    WalkExtends(data, Sub32(h.size, 4), 1, st);
  }

  /** The one error exit of the model: the first four bytes of a complete header are not `RIFF`. */
  lemma NotRiffExactly(data: seq<Byte>)
    ensures Run(data) == NotRiff <==> |data| >= 8 && data[..4] != RIFF
  {
    if |data| >= 8 {
      assert ReadHdr(data, 0).value.tag == data[..4];
    }
  }

  /** The two lines riff prints for each chunk of a flat list of plain leaf chunks. */
  function LeafLines(hs: seq<Hdr>, depth: nat): (r: seq<Event>)
    ensures |r| == 2 * |hs|
  {
    if hs == [] then []
    else [LeafLine(depth, hs[0].tag, hs[0].size), LeafLine(depth, hs[0].tag, hs[0].size)] + LeafLines(hs[1..], depth)
  }

  /**
   * A container that holds exactly a list of chunks, none of them `LIST`
   * or `nctg`, with the budget their sizes add up to: the walk visits each
   * chunk once, in order, printing its line twice, uses the whole budget
   * and ends right after the last chunk.
   */
  lemma {:induction false} WalkOfLaid(data: seq<Byte>, rest: U32, depth: nat, st: St, hs: seq<Hdr>)
    requires Laid(data, st.pos, hs) && rest == Cost(hs)
    requires forall i :: 0 <= i < |hs| ==> hs[i].tag != LIST && hs[i].tag != NCTG
    ensures VisitsAll(Walk(data, rest, depth, st), rest, depth, st, hs)
    decreases |hs|
  {
    if hs == [] {
      assert st.out + LeafLines(hs, depth) == st.out;
    } else {
      var h := hs[0];
      var line := LeafLine(depth, h.tag, h.size);
      var st' := St(st.pos + ChunkSize(h.size), st.out + [line, line]);
      WalkOfLaid(data, rest - ChunkSize(h.size), depth, st', hs[1..]);
      PlainLeafCons(data, rest, depth, st, h);
      VisitsCons(Walk(data, rest, depth, st), Walk(data, rest - ChunkSize(h.size), depth, st'), rest, depth, st, hs);
    }
  }

  /** The result `WalkOfLaid` describes: every chunk visited, the budget used up, the lines printed. */
  predicate VisitsAll(w: Outcome<Level<St>, Event>, rest: U32, depth: nat, st: St, hs: seq<Hdr>) {
    && w.Ok? && w.value.left == 0 && w.value.stop == Exhausted && w.value.done == hs
    && w.value.s.pos == st.pos + rest && w.value.s.out == st.out + LeafLines(hs, depth)
  }

  lemma VisitsCons(w: Outcome<Level<St>, Event>, w': Outcome<Level<St>, Event>, rest: U32, depth: nat, st: St, hs: seq<Hdr>)
    requires hs != [] && ChunkSize(hs[0].size) <= rest
    requires var h := hs[0];
             var line := LeafLine(depth, h.tag, h.size);
             VisitsAll(w', rest - ChunkSize(h.size), depth, St(st.pos + ChunkSize(h.size), st.out + [line, line]), hs[1..])
    requires w'.Ok? ==> w == Ok(w'.value.(done := [hs[0]] + w'.value.done))
    ensures VisitsAll(w, rest, depth, st, hs)
  {
    var h := hs[0];
    var line := LeafLine(depth, h.tag, h.size);
    var l' := w'.value;
    var l := w.value;
    assert l.s == l'.s && l.left == l'.left && l.stop == l'.stop;
    assert l.done == hs by {
      assert l.done == [h] + hs[1..];
    }
    assert l.s.out == st.out + LeafLines(hs, depth) by {
      assert LeafLines(hs, depth) == [line, line] + LeafLines(hs[1..], depth);
      assert l.s.out == st.out + [line, line] + LeafLines(hs[1..], depth);
    }
  }

  /**
   * A pass over a plain leaf chunk whose cost fits the budget continues
   * the walk after it, with the chunk in front of those completed later.
   */
  lemma PlainLeafCons(data: seq<Byte>, rest: U32, depth: nat, st: St, h: Hdr)
    requires ReadHdr(data, st.pos) == Got(h, st.pos + 8) && h.tag != LIST && h.tag != NCTG
    requires h.size < 0xFFFF_FFF7 && ChunkSize(h.size) <= rest
    ensures var line := LeafLine(depth, h.tag, h.size);
            var w := Walk(data, rest - ChunkSize(h.size), depth, St(st.pos + ChunkSize(h.size), st.out + [line, line]));
            w.Ok? ==> Walk(data, rest, depth, st) == Ok(w.value.(done := [h] + w.value.done))
  {
    var line := LeafLine(depth, h.tag, h.size);
    assert Body(data, rest, depth, st)
           == Ok(Continue(St(st.pos + ChunkSize(h.size), st.out + [line, line]), rest - ChunkSize(h.size), h));
  }

  /**
   * How a pass descends into a `LIST`: after the list line, the contents
   * are walked one level deeper with budget `size - 4` in u32, and the
   * list is then charged its own cost in the enclosing walk.
   */
  lemma ListStep(data: seq<Byte>, rest: U32, depth: nat, st: St, h: Hdr, typ: FourCC, sub: Level<St>)
    requires ReadHdr(data, st.pos) == Got(h, st.pos + 8) && h.tag == LIST
    requires ReadFourCC(data, st.pos + 8) == Got(typ, st.pos + 12)
    requires Walk(data, Sub32(h.size, 4), depth + 1, St(st.pos + 12, st.out + [ListLine(depth, h.size, typ)])) == Ok(sub)
    ensures Body(data, rest, depth, st) == Ok(Budget(rest, depth, h, sub.s))
  {
  }

  /**
   * A `LIST` chunk holding exactly a list of plain leaf chunks, its size
   * being 4 plus their costs: the pass prints the list line, walks the
   * children one level deeper, each printed twice, charges the list its
   * own cost and resumes right after it.
   */
  lemma {:induction false} ListOfLaid(data: seq<Byte>, rest: U32, depth: nat, st: St, h: Hdr, typ: FourCC, hs: seq<Hdr>)
    requires ReadHdr(data, st.pos) == Got(h, st.pos + 8) && h.tag == LIST
    requires ReadFourCC(data, st.pos + 8) == Got(typ, st.pos + 12)
    requires h.size < 0xFFFF_FFF7 && h.size == 4 + Cost(hs) && ChunkSize(h.size) <= rest
    requires Laid(data, st.pos + 12, hs)
    requires forall i :: 0 <= i < |hs| ==> hs[i].tag != LIST && hs[i].tag != NCTG
    ensures Body(data, rest, depth, st)
            == Ok(Continue(St(st.pos + ChunkSize(h.size), st.out + [ListLine(depth, h.size, typ)] + LeafLines(hs, depth + 1)),
                           rest - ChunkSize(h.size), h))
  {
    var st1 := St(st.pos + 12, st.out + [ListLine(depth, h.size, typ)]);
    LaidCostEven(data, st.pos + 12, hs);
    EvenListCost(h.size, Cost(hs));
    WalkOfLaid(data, Cost(hs), depth + 1, st1, hs);
    var sub := Walk(data, Cost(hs), depth + 1, st1).value;
    ListStep(data, rest, depth, st, h, typ, sub);
    assert sub.s == St(st.pos + ChunkSize(h.size), st.out + [ListLine(depth, h.size, typ)] + LeafLines(hs, depth + 1));
  }

  /** A run whose root walk finishes ends with the walk's output. */
  lemma RunOfWalk(data: seq<Byte>, l: Level<St>)
    requires |data| >= 12 && data[..4] == RIFF
    requires Walk(data, Sub32(LeU32(data[4..8]), 4), 1, St(12, [RiffLine(LeU32(data[4..8]), data[8..12])])) == Ok(l)
    ensures Run(data) == Finished(l.s.out)
  {
  }

  /**
   * A RIFF file whose root list holds exactly a list of plain leaf chunks,
   * its size being 4 plus their costs: riff prints the RIFF line and then
   * each chunk twice, in order.
   */
  lemma RunOfLaid(data: seq<Byte>, hs: seq<Hdr>)
    requires |data| >= 12 && data[..4] == RIFF && LeU32(data[4..8]) == 4 + Cost(hs)
    requires Laid(data, 12, hs)
    requires forall i :: 0 <= i < |hs| ==> hs[i].tag != LIST && hs[i].tag != NCTG
    ensures Run(data) == Finished([RiffLine(4 + Cost(hs), data[8..12])] + LeafLines(hs, 1))
  {
    var st := St(12, [RiffLine(4 + Cost(hs), data[8..12])]);
    WalkOfLaid(data, Cost(hs), 1, st, hs);
    RunOfWalk(data, Walk(data, Cost(hs), 1, st).value);
  }

  // ---------------------------------------------------------------------
  // The walker of riff.c, updated in place
  // ---------------------------------------------------------------------

  /**
   * The input stream together with the output. `ctx->indent` is not a
   * field: every function that increments it decrements it again before
   * returning, so it is the nesting depth, passed as a parameter.
   */
  class Tracer {
    const data: seq<Byte>
    var pos: nat
    var out: seq<Event>

    constructor(data: seq<Byte>, pos: nat, out: seq<Event>)
      ensures this.data == data && this.pos == pos && this.out == out
    {
      this.data := data;
      this.pos := pos;
      this.out := out;
    }

    function State(): St
      reads this
    {
      St(pos, out)
    }

    /** One pass of the loop body of `nctg` up to the budget update, printing at `depth`. */
    method NctgEntry(depth: nat) returns (ok: bool, e: Entry)
      modifies this
      ensures var r := ReadEntry(data, old(pos), true);
              (ok <==> r.Got?) && (ok ==> r == Got(e, pos) && out == old(out) + [EntryOut(e, depth)])
      ensures !ok ==> out == old(out)
    {
      var typ: U16, n: U16, p: nat;
      match ReadU16(data, pos)
      case Eof =>
        return false, Entry(0, 0, None);
      case Got(t, p1) =>
        match ReadU16(data, p1)
        case Eof =>
          return false, Entry(0, 0, None);
        case Got(n', p2) =>
          typ, n, p := t, n', p2;
      if IsDateType(typ) {
        match ReadBytes(data, p, n)
        case Eof =>
          return false, Entry(0, 0, None);
        case Got(v, p3) =>
          out := out + [DateLine(depth, typ, CStr(v))];
          e := Entry(typ, n, Some(v));
          p := p3;
      } else {
        out := out + [EntryLine(depth, typ, n)];
        e := Entry(typ, n, None);
        p := p + n;
      }
      pos := p;
      return true, e;
    }

    /** `nctg(ctx, size, fp)` for a chunk printed at `depth`. */
    method Nctg(size: U32, depth: nat) returns (ok: bool)
      modifies this
      ensures var r := NctgTrace(data, size, depth, old(State()));
              (ok <==> r.Ok?) && (ok ==> State() == r.value) && (!ok ==> out == r.out)
    {
      ghost var start := State();
      ghost var seen: seq<Entry> := [];
      var rest := size;
      while rest > 0
        invariant pos >= start.pos
        invariant out == start.out + EntryEvents(seen, depth + 1)
        invariant NctgScan(data, start.pos, size, true) == Prepend(seen, NctgScan(data, pos, rest, true))
        decreases Remaining(data, pos)
      {
        ghost var here := pos;
        var got, e := NctgEntry(depth + 1);
        if !got {
          assert NctgScan(data, here, rest, true) == Scan([], None);
          assert Prepend(seen, Scan([], None)) == Scan(seen, None);
          return false;
        }
        ScanStep(data, here, rest, true, seen, e, pos);
        EntryEventsStep(seen, e, depth + 1);
        seen := seen + [e];
        rest := Sub32(rest, 4 + e.size);
      }
      assert Prepend(seen, Scan([], Some(pos))) == Scan(seen, Some(pos));
      return true;
    }

    /** The loop body of `riff` at `depth` for a leaf chunk with header `h`, after the header. */
    method LeafChunk(h: Hdr, depth: nat) returns (ok: bool)
      modifies this
      ensures var r := Leaf(data, h, depth, old(State()));
              (ok <==> r.Ok?) && (ok ==> State() == r.value) && (!ok ==> out == r.out)
    {
      out := out + [LeafLine(depth, h.tag, h.size)];
      if h.tag == NCTG {
        ok := Nctg(h.size, depth);
      } else {
        out := out + [LeafLine(depth, h.tag, h.size)];
        pos := pos + SizePad(h.size);
        ok := true;
      }
    }

    /** One pass of the loop body of `riff` at `depth`; `halt` says it ended the loop. */
    method Pass(rest0: U32, depth: nat) returns (ok: bool, halt: bool, rest: U32)
      requires rest0 != 0
      modifies this
      ensures var r := Body(data, rest0, depth, old(State()));
              && (ok <==> r.Ok?) && (!ok ==> out == r.out)
              && (ok ==> (halt <==> r.value.Halt?))
              && (ok && halt ==> State() == r.value.level.s)
              && (ok && !halt ==> State() == r.value.st && rest == r.value.rest)
      decreases Remaining(data, pos), 1
    {
      ghost var st0 := State();
      rest := rest0;
      var h: Hdr, p: nat;
      match ReadHdr(data, pos)
      case Eof =>
        return false, false, rest;
      case Got(h', p') =>
        h, p := h', p';
      pos := p;
      if h.tag == LIST {
        var typ: FourCC, q: nat;
        match ReadFourCC(data, pos)
        case Eof =>
          return false, false, rest;
        case Got(t, q') =>
          typ, q := t, q';
        pos := q;
        out := out + [ListLine(depth, h.size, typ)];
        ghost var st1 := State();
        var sub := Riff(Sub32(h.size, 4), depth + 1);
        ghost var w := Walk(data, Sub32(h.size, 4), depth + 1, st1);
        assert ReadHdr(data, st0.pos) == Got(h, p);
        assert ReadFourCC(data, p) == Got(typ, q);
        assert st1 == St(q, st0.out + [ListLine(depth, h.size, typ)]);
        if !sub {
          assert w.Truncated?;
          assert Body(data, rest0, depth, st0) == Truncated(w.out);
          return false, false, rest;
        }
        assert Body(data, rest0, depth, st0) == Ok(Budget(rest0, depth, h, State()));
      } else {
        ghost var st1 := State();
        var leaf := LeafChunk(h, depth);
        ghost var l := Leaf(data, h, depth, st1);
        if !leaf {
          assert Body(data, rest0, depth, st0) == Truncated(l.out);
          return false, false, rest;
        }
        assert Body(data, rest0, depth, st0) == Ok(Budget(rest0, depth, h, State()));
      }
      var cs := ChunkSize(h.size);
      if rest < cs {
        out := out + [Inconsist(depth, rest, cs)];
        return true, true, rest;
      }
      return true, false, rest - cs;
    }

    /** `riff(ctx, rest, fp)`, `depth` being `ctx->indent` after its increment. */
    method Riff(rest0: U32, depth: nat) returns (ok: bool)
      modifies this
      ensures var r := View(Walk(data, rest0, depth, old(State())));
              (ok <==> r.Ok?) && (ok ==> State() == r.value) && (!ok ==> out == r.out)
      decreases Remaining(data, pos), 2
    {
      ghost var start := State();
      var rest := rest0;
      while rest > 0
        invariant pos >= start.pos
        invariant View(Walk(data, rest0, depth, start)) == View(Walk(data, rest, depth, State()))
        decreases Remaining(data, pos)
      {
        var halt;
        ok, halt, rest := Pass(rest, depth);
        if !ok || halt {
          return;
        }
      }
      return true;
    }
  }

  /** `main` from the header check on: the run as a method over a fresh tracer. */
  method RunMain(data: seq<Byte>) returns (r: RunResult)
    ensures r == Run(data)
  {
    match ReadHdr(data, 0)
    case Eof =>
      return Aborted([]);
    case Got(h, p) =>
      if h.tag != RIFF {
        return NotRiff;
      }
      match ReadFourCC(data, p)
      case Eof =>
        return Aborted([]);
      case Got(form, q) =>
        var t := new Tracer(data, q, [RiffLine(h.size, form)]);
        var ok := t.Riff(Sub32(h.size, 4), 1);
        return if ok then Finished(t.out) else Aborted(t.out);
  }
}
