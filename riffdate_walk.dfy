/**
 * The chunk walker of riffdate.c (lines 259-293 and 362-430) and the tail
 * of its `main` (lines 470-483).
 *
 * `riff` walks the chunks of one container with a u32 budget `rest`: it
 * recurses into `LIST` chunks, saves the IPRD, ISFT and IDIT payloads in
 * `struct ctx`, hands `nctg` chunks to the Nikon tag walker and skips
 * everything else. Whenever all three saved values are present after a
 * leaf chunk, the IDIT date is repaired if the camera is an affected SIGMA
 * model, printed, and all three are dropped. Outside tree mode a
 * `LIST movi` ends the walk of its container, and IDIT is only saved
 * outside tree mode.
 *
 * Output is a sequence of events instead of `printf` text. The lines
 * `iprintf` prints (only in tree mode, `-d`) carry the indentation depth;
 * the `ntcg-…` and `IDIT…` lines are printed with `printf` in any mode.
 *
 * The pure functions `Walk`, `Body`, `Budget`, `Leaf`, `Payload`,
 * `NctgWalk` and `Reconcile` specify the walk; the class `Ctx` holds the walker state
 * that the C code updates in place, and its methods are proved to leave
 * exactly the state those functions describe.
 */
module RiffDate {
  import opened Bytes
  import opened Codec
  import opened NctgBlock
  import opened SigmaRepair
  import opened ExifTime

  const MOVI: FourCC := [0x6D, 0x6F, 0x76, 0x69]  // "movi"
  const IPRD: FourCC := [0x49, 0x50, 0x52, 0x44]  // "IPRD"
  const ISFT: FourCC := [0x49, 0x53, 0x46, 0x54]  // "ISFT"
  const IDIT: FourCC := [0x49, 0x44, 0x49, 0x54]  // "IDIT"
  const SIGMA: seq<Byte> := [0x53, 0x49, 0x47, 0x4D, 0x41]  // "SIGMA"

  /** One line of output. */
  datatype Event =
    | RiffLine(size: U32, form: FourCC)                   // `RIFF size form`, tree mode
    | ListLine(depth: nat, size: U32, listType: FourCC)     // `LIST size type`, tree mode
    | LeafLine(depth: nat, tag: FourCC, size: U32)          // `tag size`, tree mode
    | Inconsist(depth: nat, rest: U32, chunkSize: U32)      // `inconsist sizes rest < chunksize`, tree mode
    | NtcgDate(typ: U16, text: seq<Byte>)                   // `ntcg-DateTimeOriginal: …` / `ntcg-CreateDate: …`
    | IditLine(idit: Idit)                                  // `IDIT-exiftime: …` / `IDIT: …`

  /** The lines only tree mode prints. */
  predicate IsTreeLine(e: Event) {
    e.RiffLine? || e.ListLine? || e.LeafLine? || e.Inconsist?
  }

  /**
   * The saved fields of `struct ctx`: each is the NUL-terminated buffer
   * `save` returned (the payload followed by a 0 byte), or None for NULL.
   */
  datatype Meta = Meta(iprd: Option<seq<Byte>>, isft: Option<seq<Byte>>, idit: Option<seq<Byte>>)

  const NO_META := Meta(None, None, None)

  predicate AllSaved(m: Meta) {
    m.iprd.Some? && m.isft.Some? && m.idit.Some?
  }

  /** The whole walker state: stream position, saved fields and the output so far. */
  datatype St = St(pos: nat, meta: Meta, out: seq<Event>)

  /** `save(size, fp)`: `size` payload bytes, NUL-terminated. */
  function Save(data: seq<Byte>, pos: nat, size: U32): (r: Read<seq<Byte>>)
    ensures r.Got? <==> pos + size <= |data|
    ensures r.Got? ==> r.next == pos + size && r.value == data[pos..pos + size] + [0]
  {
    match ReadBytes(data, pos, size)
    case Eof => Eof
    case Got(b, p) => Got(b + [0], p)
  }

  /** The IDIT buffer as `print_idit` receives it: repaired when the camera is an affected SIGMA model. */
  function Repaired(m: Meta): seq<Byte>
    requires AllSaved(m)
  {
    if CStr(m.iprd.value) == SIGMA && CStr(m.isft.value) in AFFECTED then SigmaFix(m.idit.value)
    else m.idit.value
  }

  /** The SIGMA workaround block after each leaf chunk (lines 406-419). */
  function Reconcile(st: St): (r: St)
    ensures r.pos == st.pos && !AllSaved(r.meta)
    ensures AllSaved(st.meta) ==> r.meta == NO_META && r.out == st.out + [IditLine(PrintIdit(Repaired(st.meta)))]
    ensures !AllSaved(st.meta) ==> r == st
  {
    if AllSaved(st.meta) then St(st.pos, NO_META, st.out + [IditLine(PrintIdit(Repaired(st.meta)))])
    else st
  }

  /** The `ntcg-…` lines for the entries walked: one per date value read. */
  function DateEvents(es: seq<Entry>): seq<Event> {
    if es == [] then []
    else
      var e := es[|es| - 1];
      DateEvents(es[..|es| - 1]) + (if e.value.Some? then [NtcgDate(e.typ, CStr(e.value.value))] else [])
  }

  lemma DateEventsStep(seen: seq<Entry>, e: Entry)
    ensures DateEvents(seen + [e]) == DateEvents(seen) + if e.value.Some? then [NtcgDate(e.typ, CStr(e.value.value))] else []
  {
    assert (seen + [e])[..|seen|] == seen;
  }

  lemma PrependNothing(seen: seq<Entry>, end: Option<nat>)
    ensures Prepend(seen, Scan([], end)) == Scan(seen, end)
  {
    assert seen + [] == seen;
  }

  /** One pass of the `nctg` loop, as the walk so far and the walk still to come see it. */
  lemma NctgStep(data: seq<Byte>, pos: nat, rest: U32, readDates: bool, seen: seq<Entry>, e: Entry, p: nat)
    requires rest != 0 && ReadEntry(data, pos, readDates) == Got(e, p)
    ensures Prepend(seen, NctgScan(data, pos, rest, readDates))
            == Prepend(seen + [e], NctgScan(data, p, Sub32(rest, 4 + e.size), readDates))
    ensures DateEvents(seen + [e]) == DateEvents(seen) + DateEvents([e])
  {
    ScanStep(data, pos, rest, readDates, seen, e, p);
    DateEventsStep(seen, e);
    assert [e][..0] == [];
  }

  /**
   * `nctg(ctx, size, fp)`: dates are read only outside tree mode. A walk
   * that finishes ends after the bytes of the entries it read, having
   * printed the date line of each date value read.
   */
  function NctgWalk(data: seq<Byte>, size: U32, tree: bool, st: St): (r: Outcome<St, Event>)
    ensures r.Ok? ==> r.value.pos >= st.pos && r.value.meta == st.meta
    ensures var sc := NctgScan(data, st.pos, size, !tree);
            && (r.Ok? <==> sc.end.Some?)
            && (r.Ok? ==> r.value.pos == st.pos + EntryBytes(sc.entries) && r.value.out == st.out + DateEvents(sc.entries))
            && (r.Truncated? ==> r.out == st.out + DateEvents(sc.entries))
  {
    var sc := NctgScan(data, st.pos, size, !tree);
    ScanAccounts(data, st.pos, size, !tree);
    match sc.end
    case None => Truncated(st.out + DateEvents(sc.entries))
    case Some(p) => Ok(St(p, st.meta, st.out + DateEvents(sc.entries)))
  }

  /** The tags whose payload `riff` saves in `struct ctx`: IDIT only outside tree mode. */
  predicate Saves(tag: FourCC, tree: bool) {
    tag == IPRD || tag == ISFT || (!tree && tag == IDIT)
  }

  /** The tags whose payload `riff` skips with `skip(size_pad(h.size))`. */
  predicate Skips(tag: FourCC, tree: bool) {
    !Saves(tag, tree) && tag != NCTG
  }

  /**
   * The payload of a leaf chunk with header `h`, from the position just
   * after the header: saved, handed to `nctg`, or skipped with its pad byte.
   * A save replaces the value of its own tag, keeps the other two and
   * fails exactly on a short read; a skip touches nothing but the position.
   */
  function Payload(data: seq<Byte>, h: Hdr, tree: bool, st: St): (r: Outcome<St, Event>)
    ensures r.Ok? ==> r.value.pos >= st.pos
    ensures Saves(h.tag, tree) ==> (r.Truncated? <==> st.pos + h.size > |data|)
    ensures Saves(h.tag, tree) && r.Truncated? ==> r.out == st.out
    ensures h.tag == IPRD && r.Ok? ==>
              r.value == St(st.pos + h.size, st.meta.(iprd := Some(data[st.pos..st.pos + h.size] + [0])), st.out)
    ensures h.tag == ISFT && r.Ok? ==>
              r.value == St(st.pos + h.size, st.meta.(isft := Some(data[st.pos..st.pos + h.size] + [0])), st.out)
    ensures h.tag == IDIT && !tree && r.Ok? ==>
              r.value == St(st.pos + h.size, st.meta.(idit := Some(data[st.pos..st.pos + h.size] + [0])), st.out)
    ensures h.tag == NCTG ==> r == NctgWalk(data, h.size, tree, st)
    ensures Skips(h.tag, tree) ==> r == Ok(St(st.pos + SizePad(h.size), st.meta, st.out))
  {
    if Saves(h.tag, tree) then
      match Save(data, st.pos, h.size)
      case Eof => Truncated(st.out)
      case Got(b, p) =>
        var m := st.meta;
        var m' := if h.tag == IPRD then m.(iprd := Some(b))
                  else if h.tag == ISFT then m.(isft := Some(b))
                  else m.(idit := Some(b));
        Ok(St(p, m', st.out))
    else if h.tag == NCTG then NctgWalk(data, h.size, tree, st)
    else Ok(st.(pos := st.pos + SizePad(h.size)))
  }

  /**
   * `save` reads the payload but not its pad byte: after a saved chunk of
   * odd size the stream is one byte short of the padded end, where the
   * next header of a well-formed file begins.
   */
  lemma SaveLeavesPad(data: seq<Byte>, h: Hdr, tree: bool, st: St)
    requires Saves(h.tag, tree) && h.size % 2 == 1 && h.size < 0xFFFF_FFFF && st.pos + h.size <= |data|
    ensures Payload(data, h, tree, st).Ok?
    ensures Payload(data, h, tree, st).value.pos + 1 == st.pos + SizePad(h.size)
  {
    assert SizePad(h.size) == h.size + 1;
    assert Payload(data, h, tree, st).value.pos == st.pos + h.size;
  }

  /**
   * The `else` branch of the loop body: the tree line, the payload, then
   * the SIGMA workaround block. It never leaves all three values held, and
   * a skipped chunk with no complete set pending only moves the stream.
   */
  function Leaf(data: seq<Byte>, h: Hdr, depth: nat, tree: bool, st: St): (r: Outcome<St, Event>)
    ensures r.Ok? ==> r.value.pos >= st.pos && !AllSaved(r.value.meta)
    ensures Skips(h.tag, tree) && !AllSaved(st.meta) ==>
              r == Ok(St(st.pos + SizePad(h.size), st.meta, st.out + if tree then [LeafLine(depth, h.tag, h.size)] else []))
  {
    match Payload(data, h, tree, st.(out := st.out + if tree then [LeafLine(depth, h.tag, h.size)] else []))
    case Truncated(o) => Truncated(o)
    case Ok(st1) => Ok(Reconcile(st1))
  }

  /** Where one pass of the loop body leaves the walk: at the next chunk with budget `rest`, or stopped. */
  datatype Step = Continue(st: St, rest: U32, hdr: Hdr) | Halt(level: Level<St>)

  /** The budget check that closes the loop body of the chunk with header `h`. */
  function Budget(rest: U32, depth: nat, tree: bool, h: Hdr, st: St): (r: Step)
    ensures r.Continue? ==> r.st == st && r.rest + ChunkSize(h.size) == rest && r.hdr == h
    ensures r.Halt? ==> r.level.s.pos == st.pos && r.level.left == rest < ChunkSize(h.size)
    ensures r.Halt? ==> r.level.done == [] && r.level.stop == Overrun(h)
  {
    var cs := ChunkSize(h.size);
    if rest < cs then Halt(Level(st.(out := st.out + if tree then [Inconsist(depth, rest, cs)] else []), rest, [], Overrun(h)))
    else Continue(st, rest - cs, h)
  }

  /** One pass of the loop body of `riff` at `depth`, from state `st` with budget `rest`. */
  function Body(data: seq<Byte>, rest: U32, depth: nat, tree: bool, st: St): (r: Outcome<Step, Event>)
    ensures r.Ok? && r.value.Continue? ==> Remaining(data, r.value.st.pos) < Remaining(data, st.pos)
    ensures r.Ok? && r.value.Continue? ==> r.value.st.pos >= st.pos
    ensures r.Ok? && r.value.Halt? ==> r.value.level.s.pos >= st.pos
    ensures r.Ok? && r.value.Halt? ==>
              var l := r.value.level;
              && l.done == [] && l.left == rest && !l.stop.Exhausted?
              && (l.stop.Overrun? ==> rest < ChunkSize(l.stop.hdr.size))
              && (l.stop.MoviList? ==> !tree)
    ensures !tree && ReadHdr(data, st.pos).Got? && ReadHdr(data, st.pos).value.tag == LIST
            && ReadFourCC(data, st.pos + 8) == Got(MOVI, st.pos + 12) ==>
              r == Ok(Halt(Level(St(st.pos + 12, st.meta, st.out), rest, [], MoviList)))
    decreases Remaining(data, st.pos), 1
  {
    match ReadHdr(data, st.pos)
    case Eof => Truncated(st.out)
    case Got(h, p) =>
      if h.tag == LIST then
        match ReadFourCC(data, p)
        case Eof => Truncated(st.out)
        case Got(typ, q) =>
          var st1 := St(q, st.meta, st.out + if tree then [ListLine(depth, h.size, typ)] else []);
          if !tree && typ == MOVI then
            assert st1 == St(q, st.meta, st.out);
            Ok(Halt(Level(st1, rest, [], MoviList)))
          else
            match Walk(data, Sub32(h.size, 4), depth + 1, tree, st1)
            case Truncated(o) => Truncated(o)
            case Ok(sub) => Ok(Budget(rest, depth, tree, h, sub.s))
      else
        match Leaf(data, h, depth, tree, st.(pos := p))
        case Truncated(o) => Truncated(o)
        case Ok(st2) => Ok(Budget(rest, depth, tree, h, st2))
  }

  /**
   * The loop of `riff` at one level, `depth` being `ctx->indent` inside
   * it, from state `st` with budget `rest`; `done` lists the chunks whose
   * pass ended with the budget update.
   */
  function Walk(data: seq<Byte>, rest: U32, depth: nat, tree: bool, st: St): (r: Outcome<Level<St>, Event>)
    ensures r.Ok? ==> r.value.s.pos >= st.pos
    decreases Remaining(data, st.pos), 2
  {
    if rest == 0 then Ok(Level(st, 0, [], Exhausted))
    else
      match Body(data, rest, depth, tree, st)
      case Truncated(o) => Truncated(o)
      case Ok(Halt(l)) => Ok(l)
      case Ok(Continue(st', rest', h)) =>
        match Walk(data, rest', depth, tree, st')
        case Truncated(o) => Truncated(o)
        case Ok(l) => Ok(l.(done := [h] + l.done))
  }

  /** What a walk leaves for its caller: the state, or the output of a truncated run. */
  function View(r: Outcome<Level<St>, Event>): Outcome<St, Event> {
    match r
    case Ok(l) => Ok(l.s)
    case Truncated(o) => Truncated(o)
  }

  /** How a run of riffdate ends. */
  datatype RunResult =
    | NotRiff                   // `errx(EXIT_FAILURE, "not RIFF")`
    | Aborted(out: seq<Event>)  // a short read ended the run
    | Finished(out: seq<Event>) // the walk of the root list returned

  /** A pending IDIT left after the walk is printed at the end of `main`, once, after everything else. */
  function Flush(st: St): (r: seq<Event>)
    ensures |r| == |st.out| + (if st.meta.idit.Some? then 1 else 0) && r[..|st.out|] == st.out
    ensures st.meta.idit.Some? ==> r[|st.out|] == IditLine(PrintIdit(st.meta.idit.value))
  {
    st.out + if st.meta.idit.Some? then [IditLine(PrintIdit(st.meta.idit.value))] else []
  }

  /** `main` from the header check on (lines 470-483), with `-d` as `tree`. */
  function Run(data: seq<Byte>, tree: bool): RunResult {
    match ReadHdr(data, 0)
    case Eof => Aborted([])
    case Got(h, p) =>
      if h.tag != RIFF then NotRiff
      else
        match ReadFourCC(data, p)
        case Eof => Aborted([])
        case Got(form, q) =>
          var st := St(q, NO_META, if tree then [RiffLine(h.size, form)] else []);
          match Walk(data, Sub32(h.size, 4), 1, tree, st)
          case Truncated(o) => Aborted(o)
          case Ok(l) => Finished(Flush(l.s))
  }

  /** The lines `DateEvents` gives are `ntcg-…` lines, and there are none when no value was read. */
  lemma {:induction false} DateEventsAreDates(es: seq<Entry>)
    ensures forall i :: 0 <= i < |DateEvents(es)| ==> DateEvents(es)[i].NtcgDate?
    ensures (forall e :: e in es ==> e.value.None?) ==> DateEvents(es) == []
  {
    if es != [] {
      var init := es[..|es| - 1];
      assert forall e :: e in init ==> e in es;
      DateEventsAreDates(init);
    }
  }

  /**
   * The budget of a container walk: the chunks it completed cost exactly
   * the budget it used; it stops on an exhausted budget, on a chunk that
   * costs more than the budget left, or (outside tree mode only) on a
   * `LIST movi`.
   */
  lemma {:induction false} WalkBudget(data: seq<Byte>, rest: U32, depth: nat, tree: bool, st: St)
    ensures var r := Walk(data, rest, depth, tree, st);
            r.Ok? ==>
              var l := r.value;
              && Cost(l.done) + l.left == rest
              && (l.stop.Exhausted? ==> l.left == 0)
              && (l.stop.Overrun? ==> l.left < ChunkSize(l.stop.hdr.size))
              && (l.stop.MoviList? ==> !tree)
    decreases Remaining(data, st.pos)
  {
    var b := Body(data, rest, depth, tree, st);
    if rest != 0 && b.Ok? && b.value.Continue? {
      var c := b.value;
      WalkBudget(data, c.rest, depth, tree, c.st);
      var w := Walk(data, c.rest, depth, tree, c.st);
      if w.Ok? {
        assert ([c.hdr] + w.value.done)[1..] == w.value.done;
      }
    }
  }

  /**
   * Outside tree mode a `LIST movi` ends the walk of its container at
   * once: nothing inside it and no later sibling is read, no chunk counts
   * as completed and the budget is left as it was.
   */
  lemma MoviEndsLevel(data: seq<Byte>, rest: U32, depth: nat, st: St)
    requires rest != 0 && ReadHdr(data, st.pos).Got? && ReadHdr(data, st.pos).value.tag == LIST
    requires ReadFourCC(data, st.pos + 8) == Got(MOVI, st.pos + 12)
    ensures Walk(data, rest, depth, false, st) == Ok(Level(St(st.pos + 12, st.meta, st.out), rest, [], MoviList))
  {
    assert Body(data, rest, depth, false, st) == Ok(Halt(Level(St(st.pos + 12, st.meta, st.out), rest, [], MoviList)));
  }

  /** A leaf chunk whose cost fits the budget: the pass continues after it, the budget reduced by its cost. */
  lemma BodyLeaf(data: seq<Byte>, rest: U32, depth: nat, tree: bool, st: St, h: Hdr, st2: St)
    requires ReadHdr(data, st.pos) == Got(h, st.pos + 8) && h.tag != LIST
    requires Leaf(data, h, depth, tree, st.(pos := st.pos + 8)) == Ok(st2)
    requires ChunkSize(h.size) <= rest
    ensures Body(data, rest, depth, tree, st) == Ok(Continue(st2, rest - ChunkSize(h.size), h))
  {
    assert Budget(rest, depth, tree, h, st2) == Continue(st2, rest - ChunkSize(h.size), h);
  }

  /** A pass that uses up the budget ends the walk of its container with that chunk as the last one completed. */
  lemma WalkLast(data: seq<Byte>, rest: U32, depth: nat, tree: bool, st: St, st2: St, h: Hdr)
    requires rest != 0 && Body(data, rest, depth, tree, st) == Ok(Continue(st2, 0, h))
    ensures Walk(data, rest, depth, tree, st) == Ok(Level(st2, 0, [h], Exhausted))
  {
    assert [h] + [] == [h];
  }

  /**
   * An empty `LIST movi` followed by a skipped chunk `g`: with `-d` both are
   * printed and completed and the budget is used up; without it the walk
   * stops at the list type and `g` is never read.
   */
  lemma MoviHidesLater(data: seq<Byte>, depth: nat, st: St, g: Hdr)
    requires ReadHdr(data, st.pos) == Got(Hdr(LIST, 4), st.pos + 8)
    requires ReadFourCC(data, st.pos + 8) == Got(MOVI, st.pos + 12)
    requires ReadHdr(data, st.pos + 12) == Got(g, st.pos + 20)
    requires g.tag != LIST && Skips(g.tag, true) && g.size < 0xFFFF_FFF7 - 12
    requires !AllSaved(st.meta)
    ensures Walk(data, 12 + ChunkSize(g.size), depth, false, st)
            == Ok(Level(St(st.pos + 12, st.meta, st.out), 12 + ChunkSize(g.size), [], MoviList))
    ensures Walk(data, 12 + ChunkSize(g.size), depth, true, st)
            == Ok(Level(St(st.pos + 20 + SizePad(g.size), st.meta, st.out + [ListLine(depth, 4, MOVI), LeafLine(depth, g.tag, g.size)]),
                        0, [Hdr(LIST, 4), g], Exhausted))
  {
    var rest := 12 + ChunkSize(g.size);
    MoviEndsLevel(data, rest, depth, st);
    var st1 := St(st.pos + 12, st.meta, st.out + [ListLine(depth, 4, MOVI)]);
    var st2 := St(st.pos + 20 + SizePad(g.size), st.meta, st1.out + [LeafLine(depth, g.tag, g.size)]);
    EmptyMoviSteps(data, rest, depth, st, st1);
    BodyLeaf(data, ChunkSize(g.size), depth, true, st1, g, st2);
    WalkLast(data, ChunkSize(g.size), depth, true, st1, st2, g);
    assert rest - 12 == ChunkSize(g.size);
    assert [Hdr(LIST, 4)] + [g] == [Hdr(LIST, 4), g];
    assert st2.out == st.out + [ListLine(depth, 4, MOVI), LeafLine(depth, g.tag, g.size)];
  }

  /** With `-d`, an empty `LIST movi` is walked (with budget 0) and the loop goes on after it. */
  lemma EmptyMoviSteps(data: seq<Byte>, rest: U32, depth: nat, st: St, st1: St)
    requires ReadHdr(data, st.pos) == Got(Hdr(LIST, 4), st.pos + 8)
    requires ReadFourCC(data, st.pos + 8) == Got(MOVI, st.pos + 12)
    requires 12 <= rest && st1 == St(st.pos + 12, st.meta, st.out + [ListLine(depth, 4, MOVI)])
    requires rest - 12 != 0 && Walk(data, rest - 12, depth, true, st1).Ok?
    ensures Walk(data, rest, depth, true, st)
            == Ok(Walk(data, rest - 12, depth, true, st1).value.(done := [Hdr(LIST, 4)] + Walk(data, rest - 12, depth, true, st1).value.done))
  {
    assert Walk(data, 0, depth + 1, true, st1) == Ok(Level(st1, 0, [], Exhausted));
    assert Body(data, rest, depth, true, st) == Ok(Continue(st1, rest - 12, Hdr(LIST, 4)));
  }

  /** The walker invariant: never all three values saved, and no IDIT saved in tree mode. */
  predicate Settled(tree: bool, m: Meta) {
    !AllSaved(m) && (tree ==> m.idit.None?)
  }

  /** `o` is `o0` followed by lines of the mode's own kind: tree lines in tree mode and none otherwise. */
  predicate ModeLines(tree: bool, o0: seq<Event>, o: seq<Event>) {
    |o0| <= |o| && o[..|o0|] == o0 && forall i :: |o0| <= i < |o| ==> IsTreeLine(o[i]) == tree
  }

  lemma ModeLinesTrans(tree: bool, a: seq<Event>, b: seq<Event>, c: seq<Event>)
    requires ModeLines(tree, a, b) && ModeLines(tree, b, c)
    ensures ModeLines(tree, a, c)
  {
    assert c[..|a|] == c[..|b|][..|a|];
  }

  lemma ModeLinesAppend(tree: bool, o: seq<Event>, es: seq<Event>)
    requires forall i :: 0 <= i < |es| ==> IsTreeLine(es[i]) == tree
    ensures ModeLines(tree, o, o + es)
  {
    assert (o + es)[..|o|] == o;
    forall i | |o| <= i < |o + es|
      ensures IsTreeLine((o + es)[i]) == tree
    {
      assert (o + es)[i] == es[i - |o|];
    }
  }

  /** What a walk step keeps of the walker invariant and the mode of its output. */
  predicate Keeps(tree: bool, st: St, r: Outcome<St, Event>) {
    match r
    case Truncated(o) => ModeLines(tree, st.out, o)
    case Ok(s) => ModeLines(tree, st.out, s.out) && Settled(tree, s.meta)
  }

  lemma NctgKeeps(data: seq<Byte>, size: U32, tree: bool, st: St)
    requires Settled(tree, st.meta)
    ensures Keeps(tree, st, NctgWalk(data, size, tree, st))
  {
    var sc := NctgScan(data, st.pos, size, !tree);
    ScanReadsDates(data, st.pos, size, !tree);
    DateEventsAreDates(sc.entries);
    ModeLinesAppend(tree, st.out, DateEvents(sc.entries));
  }

  lemma PayloadKeeps(data: seq<Byte>, h: Hdr, tree: bool, st: St)
    requires Settled(tree, st.meta)
    ensures var r := Payload(data, h, tree, st);
            && (r.Truncated? ==> ModeLines(tree, st.out, r.out))
            && (r.Ok? ==> ModeLines(tree, st.out, r.value.out) && (tree ==> r.value.meta.idit.None?))
  {
    if h.tag == NCTG && !Saves(h.tag, tree) {
      NctgKeeps(data, h.size, tree, st);
    } else {
      ModeLinesAppend(tree, st.out, []);
    }
  }

  /** A leaf chunk prints only lines of its mode and leaves the walker invariant in place. */
  lemma LeafKeeps(data: seq<Byte>, h: Hdr, depth: nat, tree: bool, st: St)
    requires Settled(tree, st.meta)
    ensures Keeps(tree, st, Leaf(data, h, depth, tree, st))
  {
    var line := if tree then [LeafLine(depth, h.tag, h.size)] else [];
    var st0 := st.(out := st.out + line);
    ModeLinesAppend(tree, st.out, line);
    PayloadKeeps(data, h, tree, st0);
    match Payload(data, h, tree, st0)
    case Truncated(o) =>
      ModeLinesTrans(tree, st.out, st0.out, o);
    case Ok(st1) =>
      ModeLinesTrans(tree, st.out, st0.out, st1.out);
      var st2 := Reconcile(st1);
      if AllSaved(st1.meta) {
        ModeLinesAppend(tree, st1.out, [IditLine(PrintIdit(Repaired(st1.meta)))]);
      } else {
        ModeLinesAppend(tree, st1.out, []);
      }
      ModeLinesTrans(tree, st.out, st1.out, st2.out);
  }

  /** What one pass of the loop body keeps, wherever it leaves the walk. */
  predicate StepKeeps(tree: bool, st: St, r: Outcome<Step, Event>) {
    match r
    case Truncated(o) => ModeLines(tree, st.out, o)
    case Ok(Continue(s, _, _)) => ModeLines(tree, st.out, s.out) && Settled(tree, s.meta)
    case Ok(Halt(l)) => ModeLines(tree, st.out, l.s.out) && Settled(tree, l.s.meta)
  }

  lemma {:induction false} BodyKeeps(data: seq<Byte>, rest: U32, depth: nat, tree: bool, st: St)
    requires Settled(tree, st.meta)
    ensures StepKeeps(tree, st, Body(data, rest, depth, tree, st))
    decreases Remaining(data, st.pos), 1
  {
    match ReadHdr(data, st.pos)
    case Eof =>
      ModeLinesAppend(tree, st.out, []);
    case Got(h, p) =>
      if h.tag == LIST {
        match ReadFourCC(data, p)
        case Eof =>
          ModeLinesAppend(tree, st.out, []);
        case Got(typ, q) =>
          var line := if tree then [ListLine(depth, h.size, typ)] else [];
          var st1 := St(q, st.meta, st.out + line);
          ModeLinesAppend(tree, st.out, line);
          if tree || typ != MOVI {
            WalkKeeps(data, Sub32(h.size, 4), depth + 1, tree, st1);
            match Walk(data, Sub32(h.size, 4), depth + 1, tree, st1)
            case Truncated(o) =>
              ModeLinesTrans(tree, st.out, st1.out, o);
            case Ok(sub) =>
              ModeLinesTrans(tree, st.out, st1.out, sub.s.out);
              BudgetKeeps(rest, depth, tree, h, sub.s);
              ModeLinesTrans(tree, st.out, sub.s.out, StepState(Budget(rest, depth, tree, h, sub.s)).out);
          }
      } else {
        LeafKeeps(data, h, depth, tree, st.(pos := p));
        match Leaf(data, h, depth, tree, st.(pos := p))
        case Truncated(o) =>
        case Ok(st2) =>
          BudgetKeeps(rest, depth, tree, h, st2);
          ModeLinesTrans(tree, st.out, st2.out, StepState(Budget(rest, depth, tree, h, st2)).out);
      }
  }

  /** The state a step leaves the walk in. */
  function StepState(s: Step): St {
    match s
    case Continue(st, _, _) => st
    case Halt(l) => l.s
  }

  lemma BudgetKeeps(rest: U32, depth: nat, tree: bool, h: Hdr, st: St)
    ensures var s := StepState(Budget(rest, depth, tree, h, st));
            ModeLines(tree, st.out, s.out) && s.meta == st.meta
  {
    var cs := ChunkSize(h.size);
    ModeLinesAppend(tree, st.out, if tree then [Inconsist(depth, rest, cs)] else []);
    if rest >= cs {
      ModeLinesAppend(tree, st.out, []);
    }
  }

  /** A container walk prints only lines of its mode and leaves the walker invariant in place. */
  lemma {:induction false} WalkKeeps(data: seq<Byte>, rest: U32, depth: nat, tree: bool, st: St)
    requires Settled(tree, st.meta)
    ensures Keeps(tree, st, View(Walk(data, rest, depth, tree, st)))
    decreases Remaining(data, st.pos), 2
  {
    if rest == 0 {
      ModeLinesAppend(tree, st.out, []);
    } else {
      BodyKeeps(data, rest, depth, tree, st);
      match Body(data, rest, depth, tree, st)
      case Truncated(_) =>
      case Ok(Halt(l)) =>
      case Ok(Continue(st', rest', h)) =>
        WalkKeeps(data, rest', depth, tree, st');
        match View(Walk(data, rest', depth, tree, st'))
        case Truncated(o) =>
          ModeLinesTrans(tree, st.out, st'.out, o);
        case Ok(s) =>
          ModeLinesTrans(tree, st.out, st'.out, s.out);
    }
  }

  /** The output of a run: empty when the file is not RIFF. */
  function RunOut(r: RunResult): seq<Event> {
    match r
    case NotRiff => []
    case Aborted(o) => o
    case Finished(o) => o
  }

  /**
   * The two modes of riffdate: with `-d` it prints the chunk tree and no
   * date at all; without it, only the dates.
   */
  lemma RunModes(data: seq<Byte>, tree: bool)
    ensures forall i :: 0 <= i < |RunOut(Run(data, tree))| ==> IsTreeLine(RunOut(Run(data, tree))[i]) == tree
  {
    match ReadHdr(data, 0)
    case Eof =>
    case Got(h, p) =>
      if h.tag == RIFF {
        match ReadFourCC(data, p)
        case Eof =>
        case Got(form, q) =>
          var st := St(q, NO_META, if tree then [RiffLine(h.size, form)] else []);
          WalkKeeps(data, Sub32(h.size, 4), 1, tree, st);
          ModeLinesAppend(tree, [], st.out);
          match Walk(data, Sub32(h.size, 4), 1, tree, st)
          case Truncated(o) =>
            ModeLinesTrans(tree, [], st.out, o);
          case Ok(l) =>
            ModeLinesTrans(tree, [], st.out, l.s.out);
            ModeLinesAppend(tree, l.s.out, Flush(l.s)[|l.s.out|..]);
            assert Flush(l.s) == l.s.out + Flush(l.s)[|l.s.out|..];
            ModeLinesTrans(tree, [], l.s.out, Flush(l.s));
      }
  }

  /** The one error exit of the model: the first four bytes of a complete header are not `RIFF`. */
  lemma NotRiffExactly(data: seq<Byte>, tree: bool)
    ensures Run(data, tree) == NotRiff <==> |data| >= 8 && data[..4] != RIFF
  {
    if |data| >= 8 {
      assert ReadHdr(data, 0).value.tag == data[..4];
    }
  }

  /**
   * A RIFF file whose root list holds one IDIT chunk: without `-d` the walk
   * saves the date, the budget runs out after the chunk, and `main` prints
   * the pending date once, converted as `print_idit` does.
   */
  lemma LoneIditPrinted(data: seq<Byte>, n: U32)
    requires n < 0xFFFF_FFF7 - 4 && 20 + n <= |data|
    requires data[..4] == RIFF && LeU32(data[4..8]) == 4 + ChunkSize(n)
    requires data[12..16] == IDIT && LeU32(data[16..20]) == n
    ensures Run(data, false) == Finished([IditLine(PrintIdit(data[20..20 + n] + [0]))])
  {
    var h := Hdr(IDIT, n);
    var st := St(12, NO_META, []);
    var st2 := St(20 + n, Meta(None, None, Some(data[20..20 + n] + [0])), []);
    IditLeafSaved(data, n, st2);
    BodyLeaf(data, ChunkSize(n), 1, false, st, h, st2);
    WalkLast(data, ChunkSize(n), 1, false, st, st2, h);
    RunOfWalk(data, false, st, Level(st2, 0, [h], Exhausted));
  }

  /** The IDIT chunk at offset 12 is saved outside tree mode and left pending. */
  lemma IditLeafSaved(data: seq<Byte>, n: U32, st2: St)
    requires 20 + n <= |data| && data[12..16] == IDIT && LeU32(data[16..20]) == n
    requires st2 == St(20 + n, Meta(None, None, Some(data[20..20 + n] + [0])), [])
    ensures ReadHdr(data, 12) == Got(Hdr(IDIT, n), 20)
    ensures Leaf(data, Hdr(IDIT, n), 1, false, St(20, NO_META, [])) == Ok(st2)
  {
    assert Payload(data, Hdr(IDIT, n), false, St(20, NO_META, [])) == Ok(st2);
  }

  /** A run whose root walk finishes ends with the walk's output and the flushed IDIT. */
  lemma RunOfWalk(data: seq<Byte>, tree: bool, st: St, l: Level<St>)
    requires |data| >= 12 && data[..4] == RIFF
    requires st == St(12, NO_META, if tree then [RiffLine(LeU32(data[4..8]), data[8..12])] else [])
    requires Walk(data, Sub32(LeU32(data[4..8]), 4), 1, tree, st) == Ok(l)
    ensures Run(data, tree) == Finished(Flush(l.s))
  {
  }

  /** The lines riffdate prints for a flat list of skipped leaf chunks: one `tag size` each with `-d`, none without. */
  function SkipLines(hs: seq<Hdr>, depth: nat, tree: bool): (r: seq<Event>)
    ensures |r| == if tree then |hs| else 0
    ensures forall i :: 0 <= i < |r| ==> r[i] == LeafLine(depth, hs[i].tag, hs[i].size)
  {
    if hs == [] then []
    else (if tree then [LeafLine(depth, hs[0].tag, hs[0].size)] else []) + SkipLines(hs[1..], depth, tree)
  }

  /** Every chunk of `hs` is a leaf whose payload riffdate skips. */
  predicate SkipsAll(hs: seq<Hdr>, tree: bool) {
    forall i :: 0 <= i < |hs| ==> hs[i].tag != LIST && Skips(hs[i].tag, tree)
  }

  /** The result `WalkOfSkipped` describes: every chunk completed, the budget used up, only their lines added. */
  predicate SkipsThrough(w: Outcome<Level<St>, Event>, rest: U32, depth: nat, tree: bool, st: St, hs: seq<Hdr>) {
    && w.Ok? && w.value.left == 0 && w.value.stop == Exhausted && w.value.done == hs
    && w.value.s == St(st.pos + rest, st.meta, st.out + SkipLines(hs, depth, tree))
  }

  /**
   * A container that holds exactly a list of skipped leaf chunks, with the
   * budget their sizes add up to and no complete set of values pending:
   * the walk completes each chunk in order, uses the whole budget, ends
   * right after the last chunk, leaves the saved values alone and prints
   * one line per chunk with `-d` and nothing without.
   */
  lemma {:induction false} WalkOfSkipped(data: seq<Byte>, rest: U32, depth: nat, tree: bool, st: St, hs: seq<Hdr>)
    requires Laid(data, st.pos, hs) && rest == Cost(hs)
    requires SkipsAll(hs, tree) && !AllSaved(st.meta)
    ensures SkipsThrough(Walk(data, rest, depth, tree, st), rest, depth, tree, st, hs)
    decreases |hs|
  {
    if hs == [] {
      assert st.out + SkipLines(hs, depth, tree) == st.out;
    } else {
      var h := hs[0];
      var line := if tree then [LeafLine(depth, h.tag, h.size)] else [];
      var st' := St(st.pos + ChunkSize(h.size), st.meta, st.out + line);
      SkipsAllSplit(hs, tree);
      WalkOfSkipped(data, rest - ChunkSize(h.size), depth, tree, st', hs[1..]);
      SkipLeafCons(data, rest, depth, tree, st, h);
      SkipsCons(Walk(data, rest, depth, tree, st), Walk(data, rest - ChunkSize(h.size), depth, tree, st'), rest, depth, tree, st, hs);
    }
  }

  lemma SkipsAllSplit(hs: seq<Hdr>, tree: bool)
    requires hs != [] && SkipsAll(hs, tree)
    ensures hs[0].tag != LIST && Skips(hs[0].tag, tree) && SkipsAll(hs[1..], tree)
  {
    forall i | 0 <= i < |hs[1..]| ensures hs[1..][i].tag != LIST && Skips(hs[1..][i].tag, tree) {
      assert hs[1..][i] == hs[i + 1];
    }
  }

  lemma SkipsCons(w: Outcome<Level<St>, Event>, w': Outcome<Level<St>, Event>, rest: U32, depth: nat, tree: bool, st: St, hs: seq<Hdr>)
    requires hs != [] && ChunkSize(hs[0].size) <= rest
    requires var h := hs[0];
             var line := if tree then [LeafLine(depth, h.tag, h.size)] else [];
             SkipsThrough(w', rest - ChunkSize(h.size), depth, tree, St(st.pos + ChunkSize(h.size), st.meta, st.out + line), hs[1..])
    requires w'.Ok? ==> w == Ok(w'.value.(done := [hs[0]] + w'.value.done))
    ensures SkipsThrough(w, rest, depth, tree, st, hs)
  {
    var h := hs[0];
    var line := if tree then [LeafLine(depth, h.tag, h.size)] else [];
    var l' := w'.value;
    var l := w.value;
    assert l.s == l'.s && l.left == l'.left && l.stop == l'.stop;
    assert l.done == hs by {
      assert l.done == [h] + hs[1..];
    }
    assert l.s.out == st.out + SkipLines(hs, depth, tree) by {
      assert SkipLines(hs, depth, tree) == line + SkipLines(hs[1..], depth, tree);
      assert l.s.out == st.out + line + SkipLines(hs[1..], depth, tree);
    }
  }

  /**
   * A pass over a skipped leaf chunk whose cost fits the budget continues
   * the walk after it, with the chunk in front of those completed later.
   */
  lemma SkipLeafCons(data: seq<Byte>, rest: U32, depth: nat, tree: bool, st: St, h: Hdr)
    requires ReadHdr(data, st.pos) == Got(h, st.pos + 8) && h.tag != LIST && Skips(h.tag, tree)
    requires h.size < 0xFFFF_FFF7 && ChunkSize(h.size) <= rest && !AllSaved(st.meta)
    ensures var line := if tree then [LeafLine(depth, h.tag, h.size)] else [];
            var w := Walk(data, rest - ChunkSize(h.size), depth, tree, St(st.pos + ChunkSize(h.size), st.meta, st.out + line));
            w.Ok? ==> Walk(data, rest, depth, tree, st) == Ok(w.value.(done := [h] + w.value.done))
  {
    var line := if tree then [LeafLine(depth, h.tag, h.size)] else [];
    var st2 := St(st.pos + ChunkSize(h.size), st.meta, st.out + line);
    assert st.pos + 8 + SizePad(h.size) == st2.pos;
    assert Leaf(data, h, depth, tree, st.(pos := st.pos + 8)) == Ok(st2);
    BodyLeaf(data, rest, depth, tree, st, h, st2);
    if Walk(data, rest - ChunkSize(h.size), depth, tree, st2).Ok? {
      WalkStep(data, rest, depth, tree, st, st2, rest - ChunkSize(h.size), h);
    }
  }

  /** A pass that continues puts its chunk in front of those the rest of the walk completes. */
  lemma WalkStep(data: seq<Byte>, rest: U32, depth: nat, tree: bool, st: St, st2: St, rest2: U32, h: Hdr)
    requires rest != 0 && Body(data, rest, depth, tree, st) == Ok(Continue(st2, rest2, h))
    requires Walk(data, rest2, depth, tree, st2).Ok?
    ensures Walk(data, rest, depth, tree, st)
            == Ok(Walk(data, rest2, depth, tree, st2).value.(done := [h] + Walk(data, rest2, depth, tree, st2).value.done))
  {
  }

  /**
   * How a pass descends into a `LIST` that is walked (any list with `-d`,
   * any but `movi` without): the list line in tree mode, the contents one
   * level deeper with budget `size - 4` in u32, then the budget check for
   * the list's own cost in the enclosing walk.
   */
  lemma ListStep(data: seq<Byte>, rest: U32, depth: nat, tree: bool, st: St, h: Hdr, typ: FourCC, sub: Level<St>)
    requires ReadHdr(data, st.pos) == Got(h, st.pos + 8) && h.tag == LIST
    requires ReadFourCC(data, st.pos + 8) == Got(typ, st.pos + 12) && (tree || typ != MOVI)
    requires Walk(data, Sub32(h.size, 4), depth + 1, tree,
                  St(st.pos + 12, st.meta, st.out + if tree then [ListLine(depth, h.size, typ)] else [])) == Ok(sub)
    ensures Body(data, rest, depth, tree, st) == Ok(Budget(rest, depth, tree, h, sub.s))
    ensures ChunkSize(h.size) <= rest ==> Body(data, rest, depth, tree, st) == Ok(Continue(sub.s, rest - ChunkSize(h.size), h))
  {
    assert ChunkSize(h.size) <= rest ==> Budget(rest, depth, tree, h, sub.s) == Continue(sub.s, rest - ChunkSize(h.size), h);
  }

  /**
   * A walked `LIST` whose size is 4 plus the cost of the skipped leaf
   * chunks laid inside it: the pass prints the list line (with `-d`) and
   * the chunks' lines one level deeper, leaves the saved values alone,
   * resumes right after the list and charges the list its padded size.
   */
  lemma {:induction false} ListOfSkipped(data: seq<Byte>, rest: U32, depth: nat, tree: bool, st: St, h: Hdr, typ: FourCC, hs: seq<Hdr>)
    requires ReadHdr(data, st.pos) == Got(h, st.pos + 8) && h.tag == LIST
    requires ReadFourCC(data, st.pos + 8) == Got(typ, st.pos + 12) && (tree || typ != MOVI)
    requires h.size < 0xFFFF_FFF7 && h.size == 4 + Cost(hs) && ChunkSize(h.size) <= rest
    requires Laid(data, st.pos + 12, hs) && SkipsAll(hs, tree) && !AllSaved(st.meta)
    ensures Body(data, rest, depth, tree, st)
            == Ok(Continue(St(st.pos + ChunkSize(h.size), st.meta,
                              st.out + (if tree then [ListLine(depth, h.size, typ)] else []) + SkipLines(hs, depth + 1, tree)),
                           rest - ChunkSize(h.size), h))
  {
    var st1 := St(st.pos + 12, st.meta, st.out + if tree then [ListLine(depth, h.size, typ)] else []);
    SkippedContents(data, depth, tree, st1, h, hs);
    var sub := Walk(data, Sub32(h.size, 4), depth + 1, tree, st1).value;
    ListStep(data, rest, depth, tree, st, h, typ, sub);
    assert sub.s == St(st.pos + ChunkSize(h.size), st.meta, st1.out + SkipLines(hs, depth + 1, tree));
  }

  /** The contents of such a list, walked one level deeper with budget `size - 4`. */
  lemma SkippedContents(data: seq<Byte>, depth: nat, tree: bool, st1: St, h: Hdr, hs: seq<Hdr>)
    requires h.size < 0xFFFF_FFF7 && h.size == 4 + Cost(hs)
    requires Laid(data, st1.pos, hs) && SkipsAll(hs, tree) && !AllSaved(st1.meta)
    ensures ChunkSize(h.size) == 12 + Cost(hs) && Sub32(h.size, 4) == Cost(hs)
    ensures SkipsThrough(Walk(data, Sub32(h.size, 4), depth + 1, tree, st1), Cost(hs), depth + 1, tree, st1, hs)
  {
    LaidCostEven(data, st1.pos, hs);
    EvenListCost(h.size, Cost(hs));
    WalkOfSkipped(data, Cost(hs), depth + 1, tree, st1, hs);
  }

  /**
   * A RIFF file whose root list holds exactly skipped leaf chunks: the run
   * finishes, printing the RIFF line and one line per chunk with `-d`, and
   * nothing at all without it.
   */
  lemma {:induction false} RunOfSkipped(data: seq<Byte>, tree: bool, hs: seq<Hdr>)
    requires |data| >= 12 && data[..4] == RIFF && LeU32(data[4..8]) == 4 + Cost(hs)
    requires Laid(data, 12, hs) && SkipsAll(hs, tree)
    ensures Run(data, tree)
            == Finished((if tree then [RiffLine(4 + Cost(hs), data[8..12])] else []) + SkipLines(hs, 1, tree))
  {
    var st := St(12, NO_META, if tree then [RiffLine(4 + Cost(hs), data[8..12])] else []);
    RootSkipped(data, tree, hs, st);
    var l := Walk(data, Sub32(LeU32(data[4..8]), 4), 1, tree, st).value;
    RunOfWalk(data, tree, st, l);
    assert Flush(l.s) == l.s.out;
  }

  /** The root walk of such a file leaves the saved values empty and prints only the chunks' tree lines. */
  lemma RootSkipped(data: seq<Byte>, tree: bool, hs: seq<Hdr>, st: St)
    requires |data| >= 12 && LeU32(data[4..8]) == 4 + Cost(hs)
    requires Laid(data, 12, hs) && SkipsAll(hs, tree)
    requires st == St(12, NO_META, if tree then [RiffLine(4 + Cost(hs), data[8..12])] else [])
    ensures SkipsThrough(Walk(data, Sub32(LeU32(data[4..8]), 4), 1, tree, st), Cost(hs), 1, tree, st, hs)
  {
    assert Sub32(LeU32(data[4..8]), 4) == Cost(hs);
    WalkOfSkipped(data, Cost(hs), 1, tree, st, hs);
  }

  // ---------------------------------------------------------------------
  // The walker state of riffdate.c, updated in place
  // ---------------------------------------------------------------------

  /** The test and the call of `fix_sigma_idit` on a copy of the IDIT buffer. */
  method RepairIdit(iprd: seq<Byte>, isft: seq<Byte>, idit: seq<Byte>) returns (buf: seq<Byte>)
    ensures buf == Repaired(Meta(Some(iprd), Some(isft), Some(idit)))
  {
    buf := idit;
    if CStr(iprd) == SIGMA {
      var bug := HasSigmaIditBug(isft);
      if bug {
        var a := new Byte[|buf|](i requires 0 <= i < |buf| => buf[i]);
        assert a[..] == buf;
        FixSigmaIdit(a);
        buf := a[..];
      }
    }
  }

  /** `print_idit(idit)`. */
  method PrintIditOf(idit: seq<Byte>) returns (r: Idit)
    ensures r == PrintIdit(idit)
  {
    var text := CStr(idit);
    var t := ConvertToExifTime(text);
    r := if t.Some? then IditExif(t.value) else IditRaw(text);
  }

  /**
   * `struct ctx` together with the input stream, the `-d` flag and the
   * output. `ctx->indent` is not a field here: every function that
   * increments it decrements it again before returning, so it is the
   * nesting depth, passed to `Riff` as a parameter.
   */
  class Ctx {
    const data: seq<Byte>
    const showTree: bool
    var pos: nat
    var iprd: Option<seq<Byte>>
    var isft: Option<seq<Byte>>
    var idit: Option<seq<Byte>>
    var out: seq<Event>

    /** The zeroed context of `main`, reading the stream from position `pos`. */
    constructor(data: seq<Byte>, showTree: bool, pos: nat, out: seq<Event>)
      ensures this.data == data && this.showTree == showTree && this.pos == pos && this.out == out
      ensures iprd.None? && isft.None? && idit.None?
    {
      this.data := data;
      this.showTree := showTree;
      this.pos := pos;
      this.out := out;
      iprd := None;
      isft := None;
      idit := None;
    }

    function State(): St
      reads this
    {
      St(pos, Meta(iprd, isft, idit), out)
    }

    /** The SIGMA workaround block: repair in place, print, and drop all three values. */
    method ReconcileSaved()
      modifies this
      ensures State() == Reconcile(old(State()))
    {
      if iprd.Some? && isft.Some? && idit.Some? {
        var buf := RepairIdit(iprd.value, isft.value, idit.value);
        var rec := PrintIditOf(buf);
        out := out + [IditLine(rec)];
        iprd, isft, idit := None, None, None;
      }
    }

    /**
     * One pass of the loop body of `nctg` up to the budget update: the
     * type, the length, and the value, which is read and printed when it
     * is a date outside tree mode and skipped otherwise.
     */
    method NctgEntry() returns (ok: bool, e: Entry)
      modifies this
      ensures iprd == old(iprd) && isft == old(isft) && idit == old(idit)
      ensures var r := ReadEntry(data, old(pos), !showTree);
              (ok <==> r.Got?) && (ok ==> r == Got(e, pos) && out == old(out) + DateEvents([e]))
      ensures !ok ==> out == old(out)
    {
      var typ: U16, n: U16, p: nat;
      match ReadU16(data, pos)
      case Eof =>
        return false, Entry(0, 0, None);
      case Got(t, p1) =>
        match ReadU16(data, p1)
        case Eof =>
          return false, Entry(0, 0, None);
        case Got(n', p2) =>
          typ, n, p := t, n', p2;
      if !showTree && IsDateType(typ) {
        match ReadBytes(data, p, n)
        case Eof =>
          return false, Entry(0, 0, None);
        case Got(v, p3) =>
          out := out + [NtcgDate(typ, CStr(v))];
          e := Entry(typ, n, Some(v));
          p := p3;
      } else {
        e := Entry(typ, n, None);
        p := p + n;
      }
      pos := p;
      return true, e;
    }

    /** `nctg(ctx, size, fp)`. */
    method Nctg(size: U32) returns (ok: bool)
      modifies this
      ensures var r := NctgWalk(data, size, showTree, old(State()));
              (ok <==> r.Ok?) && (ok ==> State() == r.value) && (!ok ==> out == r.out)
    {
      ghost var start := State();
      ghost var seen: seq<Entry> := [];
      var rest := size;
      while rest > 0
        invariant pos >= start.pos && Meta(iprd, isft, idit) == start.meta
        invariant out == start.out + DateEvents(seen)
        invariant NctgScan(data, start.pos, size, !showTree) == Prepend(seen, NctgScan(data, pos, rest, !showTree))
        decreases Remaining(data, pos)
      {
        ghost var here := pos;
        var got, e := NctgEntry();
        if !got {
          assert NctgScan(data, here, rest, !showTree) == Scan([], None);
          PrependNothing(seen, None);
          return false;
        }
        NctgStep(data, here, rest, !showTree, seen, e, pos);
        seen := seen + [e];
        rest := Sub32(rest, 4 + e.size);
      }
      PrependNothing(seen, Some(pos));
      return true;
    }

    /** The payload of a leaf chunk with header `h`. */
    method LeafPayload(h: Hdr) returns (ok: bool)
      modifies this
      ensures var r := Payload(data, h, showTree, old(State()));
              (ok <==> r.Ok?) && (ok ==> State() == r.value) && (!ok ==> out == r.out)
    {
      if h.tag == IPRD || h.tag == ISFT || (!showTree && h.tag == IDIT) {
        match Save(data, pos, h.size)
        case Eof =>
          return false;
        case Got(b, p) =>
          if h.tag == IPRD {
            iprd := Some(b);
          } else if h.tag == ISFT {
            isft := Some(b);
          } else {
            idit := Some(b);
          }
          pos := p;
          return true;
      } else if h.tag == NCTG {
        ok := Nctg(h.size);
      } else {
        pos := pos + SizePad(h.size);
        return true;
      }
    }

    /** The loop body of `riff` at `depth` for a leaf chunk with header `h`, after the header. */
    method LeafChunk(h: Hdr, depth: nat) returns (ok: bool)
      modifies this
      ensures var r := Leaf(data, h, depth, showTree, old(State()));
              (ok <==> r.Ok?) && (ok ==> State() == r.value) && (!ok ==> out == r.out)
    {
      ghost var st0 := State();
      if showTree {
        out := out + [LeafLine(depth, h.tag, h.size)];
      }
      assert State() == st0.(out := st0.out + if showTree then [LeafLine(depth, h.tag, h.size)] else []);
      ghost var r := Payload(data, h, showTree, State());
      ok := LeafPayload(h);
      if ok {
        assert Leaf(data, h, depth, showTree, st0) == Ok(Reconcile(r.value));
        ReconcileSaved();
      }
    }

    /** One pass of the loop body of `riff` at `depth`; `halt` says it ended the loop, `rest` is the budget after it. */
    method Pass(rest0: U32, depth: nat) returns (ok: bool, halt: bool, rest: U32)
      requires rest0 != 0
      modifies this
      ensures var r := Body(data, rest0, depth, showTree, old(State()));
              && (ok <==> r.Ok?) && (!ok ==> out == r.out)
              && (ok ==> (halt <==> r.value.Halt?))
              && (ok && halt ==> State() == r.value.level.s)
              && (ok && !halt ==> State() == r.value.st && rest == r.value.rest)
      decreases Remaining(data, pos), 1
    {
      ghost var st0 := State();
      rest := rest0;
      var h: Hdr, p: nat;
      match ReadHdr(data, pos)
      case Eof =>
        return false, false, rest;
      case Got(h', p') =>
        h, p := h', p';
      pos := p;
      if h.tag == LIST {
        var typ: FourCC, q: nat;
        match ReadFourCC(data, pos)
        case Eof =>
          return false, false, rest;
        case Got(t, q') =>
          typ, q := t, q';
        pos := q;
        if showTree {
          out := out + [ListLine(depth, h.size, typ)];
        }
        if !showTree && typ == MOVI {
          return true, true, rest;
        }
        ghost var st1 := State();
        var sub := Riff(Sub32(h.size, 4), depth + 1);
        ghost var w := Walk(data, Sub32(h.size, 4), depth + 1, showTree, st1);
        assert ReadHdr(data, st0.pos) == Got(h, p);
        assert ReadFourCC(data, p) == Got(typ, q);
        assert st1 == St(q, st0.meta, st0.out + if showTree then [ListLine(depth, h.size, typ)] else []);
        if !sub {
          assert w.Truncated?;
          assert Body(data, rest0, depth, showTree, st0) == Truncated(w.out);
          return false, false, rest;
        }
        assert Body(data, rest0, depth, showTree, st0) == Ok(Budget(rest0, depth, showTree, h, State()));
      } else {
        ghost var st1 := State();
        var leaf := LeafChunk(h, depth);
        ghost var l := Leaf(data, h, depth, showTree, st1);
        if !leaf {
          assert Body(data, rest0, depth, showTree, st0) == Truncated(l.out);
          return false, false, rest;
        }
        assert Body(data, rest0, depth, showTree, st0) == Ok(Budget(rest0, depth, showTree, h, State()));
      }
      var cs := ChunkSize(h.size);
      if rest < cs {
        if showTree {
          out := out + [Inconsist(depth, rest, cs)];
        }
        return true, true, rest;
      }
      return true, false, rest - cs;
    }

    /** `riff(ctx, rest, fp)`, `depth` being `ctx->indent` after its increment. */
    method Riff(rest0: U32, depth: nat) returns (ok: bool)
      modifies this
      ensures var r := View(Walk(data, rest0, depth, showTree, old(State())));
              (ok <==> r.Ok?) && (ok ==> State() == r.value) && (!ok ==> out == r.out)
      decreases Remaining(data, pos), 2
    {
      ghost var start := State();
      var rest := rest0;
      while rest > 0
        invariant pos >= start.pos
        invariant View(Walk(data, rest0, depth, showTree, start)) == View(Walk(data, rest, depth, showTree, State()))
        decreases Remaining(data, pos)
      {
        var halt;
        ok, halt, rest := Pass(rest, depth);
        if !ok || halt {
          return;
        }
      }
      return true;
    }
  }

  /** `main` from the header check on: the run as a method over a fresh context. */
  method RunMain(data: seq<Byte>, tree: bool) returns (r: RunResult)
    ensures r == Run(data, tree)
  {
    match ReadHdr(data, 0)
    case Eof =>
      return Aborted([]);
    case Got(h, p) =>
      if h.tag != RIFF {
        return NotRiff;
      }
      match ReadFourCC(data, p)
      case Eof =>
        return Aborted([]);
      case Got(form, q) =>
        var ctx := new Ctx(data, tree, q, if tree then [RiffLine(h.size, form)] else []);
        var ok := ctx.Riff(Sub32(h.size, 4), 1);
        if !ok {
          return Aborted(ctx.out);
        }
        if ctx.idit.Some? {
          var rec := PrintIditOf(ctx.idit.value);
          ctx.out := ctx.out + [IditLine(rec)];
        }
        return Finished(ctx.out);
  }
}
