# riffdate in Dafny

This project models the chunk walkers of riffdate, a small C tool that
finds the creation date in AVI files. AVI files are RIFF containers.

**The RIFF format.** A RIFF file is a tree of chunks. Each chunk starts with
the same header: a four-character code, then a little-endian u32 size. The
payload follows, padded to an even length. A `LIST` chunk carries a
four-character list type and then more chunks.

**riffdate.c** walks that tree with a u32 budget per container. Every
chunk costs `8 + size_pad(size)`. The walk of a container stops when:

- the budget reaches zero;
- a chunk costs more than the budget left ("inconsist sizes");
- outside tree mode (`-d`), it meets a `LIST movi`.

Along the way it does the following:

- It saves the payloads of `IPRD` (the camera maker) and `ISFT` (the
  model). It also saves `IDIT` (the date text), but only outside tree mode.
- It walks Nikon `nctg` tag blocks and prints their two date tags.
- After each leaf chunk, it checks whether all three values are saved. If
  so, it repairs the date when the camera is an affected SIGMA model
  (DP1/DP1S/DP1X/DP2/DP2S/DP2X). It then prints the date, converted to
  the EXIF form "YYYY:MM:DD hh:mm:ss" when the text parses, and drops all
  three values.
- At the end, `main` prints an IDIT still pending.

**riff.c** is a tracing variant of the same walker. It prints every chunk
and every `nctg` entry. It saves nothing and never stops at `movi`.

## How the model is built

Modules:

- `Bytes`: bytes, C integer widths with explicit wrap-around, C strings,
  and decimal digits.
- `Codec`: the little-endian reads, the header, `size_pad` and the chunk
  cost.
- `NctgBlock`: the `nctg` entry walk, which both programs share.
- `SigmaRepair`: the SIGMA workaround.
- `ExifTime`: `convert_to_exif_time` and `print_idit`.
- `RiffDate`: the walker of riffdate.c and its `main` tail.
- `RiffTrace`: the walker of riff.c and its `main` tail.

**The stream.** The input file is a byte sequence plus a position. A read
of `n` bytes fails when fewer than `n` remain. A skip never fails (see
"Left out").

**The walk.** Each walker is specified by pure functions:

- `Walk`: the loop at one level.
- `Body`: one pass of its loop body.
- `Budget`: the size check.
- `Leaf` and `Payload`: the dispatch on a leaf chunk.
- `NctgWalk` / `NctgTrace`: the `nctg` walk.
- `Reconcile`: the SIGMA block.

The C code updates a `struct ctx` and the stream position in place. Here
that state is the class `RiffDate.Ctx` (and `RiffTrace.Tracer`), whose
methods mirror the C functions. Each method is proved to leave exactly the
state the matching function describes. `fix_sigma_idit` works on an array
in place, as in C.

**Output.** Output is a sequence of events, carrying the values printed,
instead of formatted text. `ctx->indent` is the nesting depth, passed as a
parameter. Every C function that raises it lowers it again before
returning.

**Where the model follows the code rather than its evident intent:**

- A skip past the end of the file is not an error. `fseeko` past the end
  succeeds, and riff.c ignores the result of `fseek` anyway.
- Every fatal exit of the C code has the same status. The model tells
  "not RIFF" apart from a truncated run only because the exits differ:
  one is `errx`, the other a short read, which the C code does not report.
- `save` reads the payload but not its pad byte (riffdate.c:88-97). After
  an IPRD, ISFT or IDIT chunk of odd size, the next header is read one byte
  early, inside the pad. `Payload` advances by the size alone, as the code
  does; `SaveLeavesPad` states the one-byte gap.

## Model

| member | source | states |
|---|---|---|
| `Bytes.Wrap32` | riffdate.c:156 | the value a `uint32_t` holds after an assignment: unchanged below 2^32, and congruent to the exact value modulo 2^32 |
| `Bytes.Sub32` | riffdate.c:380 | `a - b` on a `uint32_t`: exact when `b <= a`, otherwise 2^32 higher (`h.size - 4` for a LIST smaller than 4 wraps to a huge budget) |
| `Bytes.SChar` | riffdate.c:201 | a byte read as a signed `char` lies in [-128, 128) and is congruent to the byte modulo 256 |
| `Bytes.CStr` | riffdate.c:218 | what `strlen`/`strcmp`/`%s` see: a prefix of the buffer that has no NUL and ends at the first NUL, or at the end of the buffer when there is none |
| `Bytes.CStrOfNulFree` | riffdate.c:251 | a buffer without NUL bytes is its own C string |
| `Bytes.CStrStopsAtNul` | riffdate.c:95 | the NUL that `save` appends ends the C string, whatever follows it |
| `Bytes.Digits` | riffdate.c:340 | `%0nd` renders exactly `n` decimal digit bytes |
| `Bytes.DecValue` | riffdate.c:325 | the value of an `n`-digit run read by `%nd` is below 10^n |
| `Bytes.DecValueOfDigits` | riffdate.c:340-341 | printing `v < 10^n` in `n` digits and reading the digits back gives `v` |
| `Bytes.DigitsOfDecValue` | riffdate.c:325-326 | reading `n` digits and printing the value in `n` digits gives the same bytes back |
| `Bytes.TwoDigits` | riffdate.c:203-206 | the two digits the rewrite loop stores for `v` are those of `v mod 100`, tens first |
| `Codec.LeU16` | riffdate.c:116-124 | the value `read_u16` assembles has the first byte as its low byte and the second as its high byte; `DecodeEncodeU16` shows it inverts the encoding |
| `Codec.LeU32` | riffdate.c:126-136 | the value `read_u32` assembles has the first byte as its lowest byte and the fourth as its highest; `DecodeEncodeU32` shows it is a bijection |
| `Codec.ReadBytes` | riffdate.c:67-79 | `read_bytes(n)` yields exactly the next `n` bytes and advances by `n`, and fails exactly when fewer than `n` remain |
| `Codec.DecodeEncodeU16` | riffdate.c:116-124 | decoding the encoding of any u16 gives it back |
| `Codec.DecodeEncodeU32` | riffdate.c:126-136 | decoding is a bijection: the encoding of any u32 decodes to it, and any four bytes are the encoding of their decoding |
| `Codec.ReadU16` | riffdate.c:116-124 | `read_u16` fails exactly when fewer than two bytes remain; otherwise its value is `b0 + 256*b1` and it advances by 2 (riff.c:74-82 is the same code) |
| `Codec.ReadU32` | riffdate.c:126-136 | `read_u32` fails exactly when fewer than four bytes remain; otherwise its value is `b0 + 2^8*b1 + 2^16*b2 + 2^24*b3` and it advances by 4 (riff.c:84-94) |
| `Codec.ReadFourCC` | riffdate.c:109-114 | `read_fcc` yields the next four bytes as the tag (riff.c:67-72) |
| `Codec.ReadHdr` | riffdate.c:143-149 | `read_hdr` fails exactly when fewer than eight bytes remain; otherwise it gives the tag bytes and the little-endian size, and advances by 8 (riff.c:101-107) |
| `Codec.ReadEncodedHdr` | riffdate.c:143-149 | reading an encoded header gives the header back |
| `Codec.SizePad` | riffdate.c:151-157 | `(sz + 1) / 2 * 2` in u32: rounds up to even below 0xFFFFFFFF, and wraps to 0 at 0xFFFFFFFF (riff.c:109-115) |
| `Codec.SizePadIsLeastEven` | riffdate.c:155-156 | below 0xFFFFFFFF the pad is the least even number not below the size |
| `Codec.ChunkSize` | riffdate.c:421 | `8 + size_pad(size)` in u32: exact below 0xFFFFFFF7; from there on it wraps below 8, and it is 8 at 0xFFFFFFFF (riff.c:199) |
| `Codec.LaidCostEven` | riffdate.c:152-157 | chunks laid back to back cost an even number of bytes, each being padded to a word boundary |
| `Codec.EvenAfterChunk` | riffdate.c:421 | one more chunk's cost keeps an even sum even |
| `Codec.EvenListCost` | riffdate.c:380-421 | a `LIST` of size 4 plus an even cost `c` costs 12 + `c` and gives its contents budget `c` |
| `NctgBlock.EntryValue` | riffdate.c:275-289 | a value is read exactly for types 0x0013/0x0014 when dates are read; otherwise it is skipped; either way the position advances by the entry's length |
| `NctgBlock.ReadEntry` | riffdate.c:269-289 | one `nctg` entry: fails exactly when its type or length is cut short, or when a date value it must read is cut short; otherwise it advances by `4 + size` (riff.c:149-166) |
| `NctgBlock.NctgScan` | riffdate.c:264-291 | the `nctg` loop: no contract of its own; `ScanAccounts`, `ScanReadsDates`, `ScanChain` and `ScanEncoded` state where it ends, what it reads and that it inverts the block encoding |
| `NctgBlock.ScanAccounts` | riffdate.c:264-291 | a completed `nctg` walk ends at its start plus the bytes of its entries, and those bytes are congruent to the budget modulo 2^32 (the `rest -= 4 + size` wrap) |
| `NctgBlock.ScanReadsDates` | riffdate.c:271-289 | in any walk, an entry's value is read exactly when dates are read and the type is a date type |
| `NctgBlock.ScanStep` | riffdate.c:264-291 | one loop pass extends the entries walked so far by the entry it reads and leaves the rest to the walk from the next position and wrapped budget |
| `NctgBlock.ScanCons` | riffdate.c:290 | the budget after an entry is `rest - (4 + size)` in u32 arithmetic |
| `NctgBlock.BlockSizeIsLength` | riff.c:167 | the budget the entries of a block account for is the length of its byte image |
| `NctgBlock.ChainOfEncoded` | riff.c:149-155 | in the image of a block, each entry is read back where the previous one ends |
| `NctgBlock.ScanChain` | riff.c:144-168 | a block is walked with exactly its size as budget: the walk reports every entry in order, date values verbatim, and ends after the last |
| `NctgBlock.ScanEncoded` | riffdate.c:264-291 | the round trip: walking the image of a block with its own size as budget yields its entries and ends right after it |
| `NctgBlock.OverrunWrapsBudget` | riffdate.c:290 | an entry longer than the budget left does not stop the walk: the budget wraps, and the walk reads on past the block |
| `SigmaRepair.HexAccum` | riffdate.c:199-202 | the accumulation `v = v*16 + c - '0'` in `unsigned int`: no contract of its own; `FieldValue` gives its value for a two-byte field and `ReadField` shows the C loop computes it |
| `SigmaRepair.RepairApplies` | riffdate.c:218-227 | the sanity checks: a 26-byte C string whose five field starts lie in ['0', '0'+16); no contract of its own, used by `SigmaFix` and `SigmaFixShape` |
| `SigmaRepair.SigmaFix` | riffdate.c:209-235 | `fix_sigma_idit` keeps the length and leaves a buffer failing the sanity checks unchanged; `SigmaFixShape` states what it does to the fields |
| `SigmaRepair.FixNumber` | riffdate.c:193-207 | rewriting a field keeps the buffer's length |
| `SigmaRepair.FixFields` | riffdate.c:232-234 | rewriting the fields one after another keeps the buffer's length |
| `SigmaRepair.ReadField` | riffdate.c:199-202 | the accumulation loop computes `v = v*16 + c - '0'` over the field, in `unsigned int` with `c` a signed `char` |
| `SigmaRepair.WriteField` | riffdate.c:203-206 | the rewrite loop replaces exactly the field's bytes with the last `n` decimal digits of `v` |
| `SigmaRepair.FixSigmaIditNumber` | riffdate.c:193-207 | `fix_sigma_idit_number` leaves the array as the function `FixNumber` describes |
| `SigmaRepair.FixSigmaIdit` | riffdate.c:209-235 | `fix_sigma_idit` leaves the array as the function `SigmaFix` describes: unchanged unless the sanity checks pass, and then all five fields rewritten |
| `SigmaRepair.HasSigmaIditBug` | riffdate.c:237-256 | true when the ISFT C string is one of the six affected models, false otherwise |
| `SigmaRepair.FixNumberAt` | riffdate.c:193-207 | a field rewrite changes only the bytes in the field, and makes them the digits of the field's base-16 reading |
| `SigmaRepair.SigmaFixShape` | riffdate.c:209-235 | the repair keeps the length; it changes nothing when the checks fail; when they pass it keeps every byte outside the five fields and makes each field the two decimal digits of its original bytes read in base 16 |
| `SigmaRepair.SigmaFixKeepsCString` | riffdate.c:218 | a repaired value is still a 26-byte C string |
| `SigmaRepair.FieldValue` | riffdate.c:199-202 | for a field `c1 c2` with `c1` in ['0', '0'+16) and `c2` below 0x80, the accumulated value is `16*(c1-'0') + (c2-'0')` wrapped to u32, and exactly that number when it is not negative (`'0' '/'` gives 0xFFFFFFFF, which prints as "95") |
| `SigmaRepair.FieldRepair` | riffdate.c:200-206 | a field `c1 c2` with `c1` in ['0', '0'+16) and `c2` in ['0', 0x80), so that the C arithmetic does not wrap, becomes the decimal digits of `16*(c1-'0') + (c2-'0')` modulo 100; `FieldValue` covers a `c2` below '0' |
| `SigmaRepair.RepairsThursday` | riffdate.c:188 | the broken "THU FEB 0= 0;:03:0? 200;" is repaired to day 13, 11:03:15, year 11 |
| `SigmaRepair.RepairsSunday` | riffdate.c:189-190 | the broken "SUN APR 0> 11:08:03 200=" is repaired to day 14, 17:08:03, year 13 |
| `SigmaRepair.RepairStillApplies` | riffdate.c:218-227 | a repaired value passes the sanity checks again |
| `SigmaRepair.RepairNotIdempotent` | riffdate.c:232-234 | applying the repair a second time changes an already repaired date, so each date must be repaired once |
| `SigmaRepair.RepairNeedsLength` | riffdate.c:218-220 | a correct 25-byte date fails the length check and is left alone |
| `ExifTime.SkipSpace` | riffdate.c:325 | skipping white space stops at the first byte that is not white space |
| `ExifTime.NonSpaceRun` | riffdate.c:325 | `%Ns` takes the longest run of bytes that are not white space, up to `N` |
| `ExifTime.DigitRun` | riffdate.c:325 | the digits of `%Nd` are the longest run of decimal digits that fits the width |
| `ExifTime.ScanStr` | riffdate.c:325 | `%3s` stores one to three bytes |
| `ExifTime.ScanInt` | riffdate.c:325-326 | `%Nd` stores a value that an optional sign and at most `N` characters can write |
| `ExifTime.ScanLit` | riffdate.c:325 | a `:` in the format matches exactly one `:` byte |
| `ExifTime.ScanDate` | riffdate.c:325-329 | the seven conversions succeed together or the conversion fails, and the values fit their widths |
| `ExifTime.ScanDayTime` | riffdate.c:325-326 | day, hour, minute, second and year fit their `%2d`/`%4d` widths |
| `ExifTime.ScanMinutes` | riffdate.c:325-326 | minute, second and year fit their widths |
| `ExifTime.ScanSeconds` | riffdate.c:325-326 | second and year fit their widths |
| `ExifTime.Lower` | riffdate.c:332 | `strcasecmp` compares lower-cased bytes position by position |
| `ExifTime.MonthFrom` | riffdate.c:331-336 | the search returns the first month from `i` that matches case-insensitively, and none when no later month matches |
| `ExifTime.Render` | riffdate.c:340 | `%0Nd` of a value that fits prints exactly `N` characters |
| `ExifTime.FindMonth` | riffdate.c:330-339 | the month loop yields the 1-based index of the first matching month, and -1 when none matches |
| `ExifTime.MonthNumber` | riffdate.c:330-339 | the 1-based number of the first month name the token matches case-insensitively: no contract of its own; `MonthNumberOfName`, `MonthFromLower` and `FindMonth` state it |
| `ExifTime.Format` | riffdate.c:340-341 | the `snprintf` of the EXIF time: no contract of its own; `FormatShape` and `FormatOfNatural` give its length, layout and digits |
| `ExifTime.ExifTime` | riffdate.c:295-346 | `convert_to_exif_time`: no contract of its own; `ExifTimeShape`, `ExifTimeOfDate` and `UnknownMonthFallsBack` state when it succeeds and what it returns |
| `ExifTime.PrintIdit` | riffdate.c:348-360 | `print_idit`: no contract of its own; `PrintIditOfDate` and `UnknownMonthFallsBack` state which of the two lines it prints |
| `ExifTime.ConvertToExifTime` | riffdate.c:295-346 | `convert_to_exif_time` returns the conversion, and NULL (None) where the scan or the month lookup fails |
| `ExifTime.FormatShape` | riffdate.c:340-341 | the printed time is 19 bytes, laid out as "YYYY:MM:DD hh:mm:ss" with each field rendered in its width |
| `ExifTime.ExifTimeShape` | riffdate.c:325-345 | a converted time comes from a full scan and a known month, has the EXIF layout, and holds the month's 1-based number in two digits |
| `ExifTime.MonthFromLower` | riffdate.c:331-336 | a matched month equals the lower-cased token, and no month at or after `i` equals it when none matched |
| `ExifTime.MonthsDistinct` | riffdate.c:310-313 | the twelve month names are pairwise distinct, so a token matches at most one |
| `ExifTime.MonthNumberOfName` | riffdate.c:331-336 | a token whose lower-case form is the `m`-th month name gets month number `m` |
| `ExifTime.ScanDateOfLayout` | riffdate.c:325-326 | a text with the "DOW MON DD hh:mm:ss YYYY" layout scans to exactly its fields |
| `ExifTime.ExifTimeOfDate` | riffdate.c:299-302 | a date in the camera layout converts to "YYYY:MM:DD hh:mm:ss" with the month number in the middle, as in "FRI SEP 07 23:37:15 2012" to "2012:09:07 23:37:15" |
| `ExifTime.FormatOfNatural` | riffdate.c:340-341 | for non-negative fields the output is plain zero-padded digits |
| `ExifTime.UnknownMonthFallsBack` | riffdate.c:337-339 | when the month token names no month, `print_idit` prints the raw text |
| `ExifTime.PrintIditOfDate` | riffdate.c:348-360 | a saved IDIT buffer holding such a date and its terminating NUL prints "IDIT-exiftime:" with the converted time |
| `RiffDate.Save` | riffdate.c:88-97 | `save(size)` succeeds exactly when `size` bytes remain; it advances by `size` (no pad byte) and returns them followed by a NUL |
| `RiffDate.Reconcile` | riffdate.c:403-419 | after the SIGMA block, never all three values are held; when all three were held, the date, repaired when the camera is affected, is printed once and all three are dropped; otherwise nothing changes |
| `RiffDate.NctgWalk` | riffdate.c:259-293 | `nctg` keeps the saved values; it finishes exactly when the entry walk does, ending after the bytes of its entries and printing the date line of each value read; dates are read only outside tree mode |
| `RiffDate.Payload` | riffdate.c:383-402 | the leaf dispatch: IPRD, ISFT and (outside tree mode only) IDIT are saved, failing exactly on a short read; a save replaces the value of its own tag with the payload plus a NUL, keeps the other two values and the output, and advances by the size without pad; `nctg` goes to `NctgWalk`; every other chunk, IDIT in tree mode included, advances by exactly `size_pad(size)` with the saved values and output unchanged |
| `RiffDate.Leaf` | riffdate.c:381-420 | a leaf chunk never leaves all three values held; a skipped chunk with no complete set pending only moves the stream by `size_pad(size)` and prints its tree line in tree mode |
| `RiffDate.Repaired` | riffdate.c:406-411 | the IDIT buffer after the SIGMA test: no contract of its own; `RepairIdit` shows the C block computes it, and `SigmaFixShape` what the repair does |
| `RiffDate.Budget` | riffdate.c:421-427 | the loop continues with exactly the budget minus the chunk's cost, or stops with "inconsist sizes" when the chunk costs more than the budget left |
| `RiffDate.Body` | riffdate.c:367-428 | a pass that continues consumes input; a pass that stops has completed no chunk, keeps the whole budget, and stops only on an overrun chunk or, outside tree mode, on `LIST movi`; conversely, outside tree mode a `LIST movi` halts the pass right after the list type, with no recursion, the budget unchanged and nothing printed |
| `RiffDate.MoviEndsLevel` | riffdate.c:372-379 | outside tree mode a container walk that meets `LIST movi` stops there: nothing inside it and no later sibling is read, no chunk is completed, the budget is left whole |
| `RiffDate.MoviHidesLater` | riffdate.c:367-380 | a chunk after an empty `LIST movi` is never read without `-d`, and with `-d` both chunks are printed, completed and pay the whole budget |
| `RiffDate.EmptyMoviSteps` | riffdate.c:375-380 | with `-d` an empty `LIST movi` is walked with budget 0 and the loop goes on after it |
| `RiffDate.BodyLeaf` | riffdate.c:381-427 | a leaf chunk whose cost fits the budget continues the loop after it with the budget reduced by its cost |
| `RiffDate.WalkLast` | riffdate.c:367-428 | a pass that uses up the budget ends the container walk with that chunk as the last one completed |
| `RiffDate.Walk` | riffdate.c:362-430 | the walk of one container only moves the stream forward |
| `RiffDate.DateEventsAreDates` | riffdate.c:280-282 | the lines of an `nctg` walk are all date lines, none when no value was read |
| `RiffDate.WalkBudget` | riffdate.c:367-428 | the chunks a container walk completes cost exactly the budget it used; it stops with budget 0, on a chunk costing more than the budget left, or, outside tree mode only, on `LIST movi` |
| `RiffDate.NctgKeeps` | riffdate.c:271-289 | `nctg` prints only lines of the current mode: no date lines in tree mode |
| `RiffDate.PayloadKeeps` | riffdate.c:391 | in tree mode no IDIT is ever saved |
| `RiffDate.LeafKeeps` | riffdate.c:381-420 | a leaf chunk prints only lines of the current mode, and leaves no moment at which all three values are held |
| `RiffDate.BodyKeeps` | riffdate.c:367-428 | one pass keeps the walker invariant and prints only lines of the current mode |
| `RiffDate.BudgetKeeps` | riffdate.c:422-425 | the budget check prints "inconsist sizes" only in tree mode and does not touch the saved values |
| `RiffDate.WalkKeeps` | riffdate.c:362-430 | a container walk, however it ends, keeps the walker invariant and prints only lines of the current mode |
| `RiffDate.Flush` | riffdate.c:480-483 | after the walk, a pending IDIT is printed once, after all other output, and nothing else is added |
| `RiffDate.Run` | riffdate.c:470-483 | `main` from the header check on: no contract of its own; `RunModes`, `NotRiffExactly`, `RunOfWalk` and `LoneIditPrinted` state its results |
| `RiffDate.RunOfWalk` | riffdate.c:474-483 | when the root walk finishes, the run finishes with the walk's output followed by the flushed IDIT |
| `RiffDate.SaveLeavesPad` | riffdate.c:88-97 | after a saved chunk of odd size (below 0xFFFFFFFF) the stream is one byte short of the chunk's padded end: `save` reads no pad byte |
| `RiffDate.SkipLines` | riffdate.c:381-382 | a flat list of skipped leaves prints one `tag size` line per chunk, in order, with `-d`, and nothing without it |
| `RiffDate.WalkOfSkipped` | riffdate.c:362-430 | a container holding exactly a list of skipped leaf chunks, with the budget their costs add up to and no complete set of values pending: every chunk is completed in order, the budget is used up, the walk ends right after the last chunk, the saved values are untouched, and only the chunks' tree lines are printed |
| `RiffDate.SkipsCons` | riffdate.c:367-428 | a completed skipped chunk followed by a fully walked rest is a fully walked list |
| `RiffDate.SkipLeafCons` | riffdate.c:398-427 | a skipped leaf that fits the budget continues the walk after it, in front of the chunks completed later |
| `RiffDate.SkipsAllSplit` | riffdate.c:381-401 | the first chunk of an all-skipped list is skipped, and so is the rest |
| `RiffDate.WalkStep` | riffdate.c:367-428 | a pass that continues puts its chunk in front of those the rest of the walk completes |
| `RiffDate.ListStep` | riffdate.c:372-380 | a walked `LIST` (any with `-d`, any but `movi` without) reads its type, prints its line in tree mode, walks its contents one level deeper with budget `size - 4`, then charges its own cost in the enclosing walk |
| `RiffDate.ListOfSkipped` | riffdate.c:372-380 | a walked `LIST` of size 4 plus the cost of the skipped chunks laid inside it: the pass prints the list line and the chunks' lines one level deeper in tree mode, nothing otherwise, keeps the saved values, resumes right after the list and reduces the budget by the list's padded size |
| `RiffDate.SkippedContents` | riffdate.c:380 | the contents of such a list are walked with budget `size - 4`, exactly their cost, and all completed |
| `RiffDate.RunOfSkipped` | riffdate.c:470-483 | a RIFF file whose root list holds exactly skipped leaf chunks: with `-d` the run prints the RIFF line and one line per chunk, without it prints nothing |
| `RiffDate.RootSkipped` | riffdate.c:476-479 | the root walk of such a file completes every chunk with budget `size - 4`, keeps the saved values empty and adds only the chunks' tree lines |
| `RiffDate.IditLeafSaved` | riffdate.c:391-396 | outside tree mode an IDIT chunk is saved (payload plus NUL) and left pending, as no IPRD/ISFT is held |
| `RiffDate.LoneIditPrinted` | riffdate.c:391-483 | without `-d`, a RIFF file whose root list holds exactly one IDIT chunk prints exactly one line: that date, converted as `print_idit` does |
| `RiffDate.RunModes` | riffdate.c:470-483 | with `-d` riffdate prints the chunk tree and no date; without it, only dates |
| `RiffDate.NotRiffExactly` | riffdate.c:470-473 | the run fails with "not RIFF" exactly when a full first header has a tag other than `RIFF` |
| `RiffDate.NctgStep` | riffdate.c:264-291 | one pass of `nctg`: the entries and the date lines so far grow by the entry just read |
| `RiffDate.RepairIdit` | riffdate.c:408-411 | the IDIT buffer handed to `print_idit` is repaired exactly when `iprd` is "SIGMA" and the ISFT model is affected |
| `RiffDate.PrintIditOf` | riffdate.c:348-360 | `print_idit` prints the converted time when the conversion succeeds, and the raw C string otherwise |
| `RiffDate.Ctx.constructor` | riffdate.c:478 | the zeroed context: no value saved |
| `RiffDate.Ctx.ReconcileSaved` | riffdate.c:406-419 | the in-place SIGMA block leaves the state `Reconcile` describes |
| `RiffDate.Ctx.NctgEntry` | riffdate.c:265-289 | one in-place `nctg` pass reads the entry `ReadEntry` describes, prints its date outside tree mode, and keeps the saved values |
| `RiffDate.Ctx.Nctg` | riffdate.c:259-293 | the in-place `nctg` loop leaves the state `NctgWalk` describes, or the same output on a short read |
| `RiffDate.Ctx.LeafPayload` | riffdate.c:383-402 | the in-place leaf dispatch leaves the state `Payload` describes |
| `RiffDate.Ctx.LeafChunk` | riffdate.c:381-420 | the in-place leaf branch leaves the state `Leaf` describes |
| `RiffDate.Ctx.Pass` | riffdate.c:368-427 | one in-place loop pass leaves the state and budget `Body` describes, and says whether the loop breaks |
| `RiffDate.Ctx.Riff` | riffdate.c:362-430 | the in-place `riff` leaves the state `Walk` describes, or its output on a short read |
| `RiffDate.RunMain` | riffdate.c:470-483 | `main` from the header check on: the result `Run` describes, with a pending IDIT printed at the end |
| `RiffTrace.EntryEvents` | riff.c:151-166 | one line per `nctg` entry, in order: the date for a date entry, type and length for any other |
| `RiffTrace.NctgTrace` | riff.c:139-170 | riff's `nctg` reads every date value; it finishes exactly when the entry walk does, ending after the bytes of its entries, with one line per entry one level deeper than its chunk |
| `RiffTrace.Leaf` | riff.c:188-197 | a non-`nctg` leaf is printed twice and skipped by exactly its padded size; an `nctg` leaf is printed once, followed by its entry lines, and ends after the bytes of its entries |
| `RiffTrace.Budget` | riff.c:199-205 | the loop continues with exactly the budget minus the chunk's cost, or stops with "inconsist sizes" when the chunk costs more than the budget left |
| `RiffTrace.Body` | riff.c:177-206 | a pass that continues consumes input; a pass that stops has completed no chunk, keeps its budget, and stops only on an overrun chunk |
| `RiffTrace.Walk` | riff.c:172-208 | the walk of one container only moves the stream forward |
| `RiffTrace.WalkBudget` | riff.c:177-206 | the chunks a container walk completes cost exactly the budget it used; it stops with budget 0 or on a chunk costing more than the budget left, never on `LIST movi` |
| `RiffTrace.BodyExtends` | riff.c:177-206 | one pass only appends to the output |
| `RiffTrace.WalkExtends` | riff.c:172-208 | a container walk only appends to the output |
| `RiffTrace.RunStartsWithRiff` | riff.c:227-232 | once the RIFF header and form are read, the first line is always `RIFF size form` |
| `RiffTrace.NotRiffExactly` | riff.c:227-230 | the run fails with "not RIFF" exactly when a full first header has a tag other than `RIFF` |
| `RiffTrace.LeafLines` | riff.c:189-195 | a plain leaf list prints two lines per chunk |
| `RiffTrace.WalkOfLaid` | riff.c:172-208 | a container holding exactly a list of plain leaf chunks, with the budget their costs add up to: every chunk is visited once in order and printed twice, the budget is used up, and the walk ends right after the last chunk |
| `RiffTrace.PlainLeafCons` | riff.c:188-205 | a plain leaf that fits the budget continues the walk after it, in front of the chunks completed later |
| `RiffTrace.VisitsCons` | riff.c:177-206 | a visited chunk followed by a fully visited rest is a fully visited list |
| `RiffTrace.ListStep` | riff.c:182-187 | a `LIST` reads its type, prints its line, walks its contents one level deeper with budget `size - 4`, then faces the budget check for its own cost |
| `RiffTrace.ListOfLaid` | riff.c:182-205 | a `LIST` of size 4 plus the cost of the plain leaf chunks laid inside it: the pass prints the list line and each chunk's two lines one level deeper, resumes right after the list and reduces the budget by the list's padded size |
| `RiffTrace.RunOfWalk` | riff.c:227-234 | when the root walk finishes, the run finishes with the walk's output |
| `RiffTrace.RunOfLaid` | riff.c:227-234 | a RIFF file whose root list holds exactly plain leaf chunks prints the RIFF line and then each chunk's two lines at depth 1 |
| `RiffTrace.EntryEventsStep` | riff.c:144-168 | the lines of an `nctg` walk grow by one line per entry read |
| `RiffTrace.Tracer.constructor` | riff.c:233 | the tracer starts at the given position with the given output |
| `RiffTrace.Tracer.NctgEntry` | riff.c:145-166 | one in-place `nctg` pass reads the entry `ReadEntry` describes and prints its line |
| `RiffTrace.Tracer.Nctg` | riff.c:139-170 | the in-place `nctg` loop leaves the state `NctgTrace` describes, or its output on a short read |
| `RiffTrace.Tracer.LeafChunk` | riff.c:188-197 | the in-place leaf branch leaves the state `Leaf` describes |
| `RiffTrace.Tracer.Pass` | riff.c:178-205 | one in-place loop pass leaves the state and budget `Body` describes, and says whether the loop breaks |
| `RiffTrace.Tracer.Riff` | riff.c:172-208 | the in-place `riff` leaves the state `Walk` describes, or its output on a short read |
| `RiffTrace.Run` | riff.c:227-234 | riff's `main` from the header check on: no contract of its own; `RunStartsWithRiff` and `NotRiffExactly` state its results |
| `RiffTrace.RunMain` | riff.c:227-234 | `main` from the header check on: the result `Run` describes |

## Left out

- File I/O: `fopen`, `fread`, `fseeko`/`fseek` and `FILE` are replaced by a
  byte sequence and a position.
- Short reads: the test in `read_bytes` is inverted (riffdate.c:71,
  riff.c:43), so a short read is never reported. The program would go on
  with stale or uninitialised buffer contents. The model ends the run
  instead, with the output printed so far (`Aborted`). What a real run
  prints after a short read is not modelled.
- Seek failures: `skip` never fails in the model. Seeking past the end of a
  file succeeds in C, and riff.c does not check `fseek` at all
  (riff.c:64). The `err` exit of riffdate.c:104-106 on an I/O error is not
  modelled.
- Process plumbing: the command line (`getopt`, `usage`, `argc` checks),
  `err`/`errx` and exit codes are left out (riffdate.c:432-469,
  riff.c:219-226). The `-d` flag is the parameter `tree` / `showTree`,
  not a global. "not RIFF" is the result `NotRiff`.
- Output text: `printf`/`iprintf` formatting, the `%4.4s` tag rendering
  and the indentation spaces are replaced by event records. Each record
  carries its depth and the values printed.
- Memory: `malloc`/`free` and the pedantic frees are left out. Saved
  values are immutable sequences.
- Undefined behaviour in `nctg`: the date value is printed with `%s` from
  a buffer that has no NUL terminator. The model prints the bytes of the
  value up to its first NUL byte, or all of them if it has none. It does
  not model reading past the end of the buffer.
- Undefined behaviour in the date scan: `%3s` into the 3-byte buffers
  `day_of_week`/`month` writes a fourth byte past their end
  (riffdate.c:315-316, 325). The model keeps the token up to three bytes
  and ignores the overflow.
- Locale: white space and case folding are those of the "C" locale.
- Bytes.SChar: plain `char` is taken to be signed, a platform choice. On
  targets where `char` is unsigned, a field byte of 0x80 or more in the
  SIGMA repair accumulates differently (riffdate.c:201), and the model
  does not cover that.
- The `snprintf` failure path (riffdate.c:342-344) cannot be taken: the
  output of at most 20 bytes always fits the 100-byte buffer. The model
  has no such branch.
- Whole files are covered only in general (`WalkOfLaid`, `ListOfLaid`,
  `RunOfLaid`, `WalkOfSkipped`, `ListOfSkipped`, `RunOfSkipped`,
  `WalkBudget`, `RunModes`) and for two small layouts (`LoneIditPrinted`,
  `MoviHidesLater`). Files holding several saved values in a row, or lists
  nested more than one level, are not worked through.
- riffdate.c's `nctg` raises `ctx->indent`, but then prints nothing with
  `iprintf`, so the raised depth never shows. The model has no depth for
  those lines.
