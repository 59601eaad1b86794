# setpcg for the Sharp X1, modelled in Dafny

`setpcg` loads a full set of 256 user-defined characters (PCG glyphs) into
the programmable character generator of a Sharp X1. `png2pcg` is the
companion converter that turns a 128 x 128 eight-colour image into the
6144-byte glyph file the loader reads: 256 characters x 8 scanlines x 3
planes. The planes come in the order blue, red, green.

The loader makes 32 rounds. Each round writes the codes of the next 8
characters into eight hidden text rows (rows 18-25, 48 cells each). It then
calls the "24x speed" Z80 routine `setpcg_main`. That routine waits for the
V-DISP edge and streams the 192 bytes of the batch to the PCG plane ports
0x15xx, 0x16xx and 0x17xx, one blue/red/green triple per raster line,
paced by a software delay so that each line takes 250 clocks. Around the rounds, `main`
cuts the display to 18 rows and gives the hidden rows the PCG attribute.
Afterwards it restores 25 rows and blanks those rows. An optional preview
draws all 256 codes on a 16 x 16 grid, in single or double width.

The model works as follows:

- The X1's I/O space is a total map from 16-bit addresses to bytes.
- The class `Hardware.X1` records every output in order (`trace`). Its
  current I/O contents are `Io() = Apply(initial, trace)`.
- The V-DISP status port is a finite script of reads (`vdisp`).
- `setpcg.c` is imperative. It becomes methods over `X1`, with loops and
  invariants. Each method is proved against a specification function of
  the writes it performs (`TransferWrites`, `SlotWrites`, `ClsWrites`,
  `RoundsWrites`, `DefineWrites`, `PreviewUpTo`). Lemmas then state what
  those writes leave in memory.
- `png2pcg.rb` is pure. It becomes functions with lemmas about the byte
  layout they produce. `Format` connects the two: a pixel block of the
  image reaches a given PCG port in a given round.

Files:

| file | module | models |
|---|---|---|
| base.dfy | Base | bytes, 8-bit wrap-around, `Option`, flattening |
| hardware.dfy | Hardware | I/O space, `outp`, `in a,(c)` on the V-DISP port |
| vsync.dfy | Vsync | the two-phase V-DISP poll |
| z80_timing.dfy | Z80Timing | T-state cost of the `setp` loop |
| transfer.dfy | PcgTransfer | `setpcg_main` |
| vram.dfy | Vram | the slot-code loop of `setpcg`, `cls_vram`, `set_crtc_lines` |
| loader.dfy | Loader | `setpcg` and the loading part of `main` |
| cli.dfy | CommandLine | the argument loop of `main` |
| preview.dfy | Preview | the preview loops of `main` |
| program.dfy | Program | `main` as a whole |
| png2pcg.dfy | Png2Pcg | `get_plane`, `pcgdat`, the output file name |
| format.dfy | Format | the file format shared by both programs |

Behaviour of the code worth noting:

- The V-DISP wait first polls until bit 7 of port 0x1a01 reads set (`jp p`
  loops while it is clear). It then polls until the bit reads clear, so
  the transfer starts on the falling edge of bit 7.
- `-v` and `-w` given together do not abort: the later flag wins
  (`CommandLine.LaterFlagWins`).
- A glyph file shorter than 6144 bytes is not rejected. The rest of the
  `malloc` block is sent as it was (`Program.ReadBuffer`).
- An empty argument is treated as a file name. Its first byte is the NUL
  terminator, which is not `'-'`.
- `cls_vram` with a start below 0x1800 would overlap its attribute range
  with its text range. The last write wins (the attribute), and
  `Vram.ClsEffect` states that outcome.
- In `get_plane`, a row width that is not a multiple of 8 gives a short last
  group. That group packs right-aligned: its first pixel is bit `len - 1`,
  not bit 7 (`Png2Pcg.GetPlaneBits`).
- Ruby's `$` matches at the end of a line. `\.png$` therefore also matches
  before a `"\n"`, and `sub` replaces the leftmost match
  (`Png2Pcg.PngAt`, `Png2Pcg.FindPng`).

## Model

| member | source | states |
|---|---|---|
| Base.Add8IsModular | setpcg.c:212-219 | the `uint8_t` sum `c + k` written to a slot cell is (c + k) mod 256 |
| Base.FlattenLength | png2pcg.rb:63 | `flatten` of groups that all have length n has length n times the number of groups |
| Base.FlattenUniform | png2pcg.rb:63 | element n*i + r of such a flattening is element r of group i |
| Base.FlattenIn | png2pcg.rb:63 | every element of a flattening comes from one of its groups |
| Hardware.Apply | setpcg.c:212 | the I/O space after a run of `outp` writes performed in order; its meaning is stated by ApplyLast and ApplyUntouched |
| Hardware.ApplyUntouched | setpcg.c:212 | an address that no write of the run targets keeps its value |
| Hardware.ApplyLast | setpcg.c:212 | an address holds the value of the last write to it |
| Hardware.X1.Out | setpcg.c:212 | `outp(port, value)` appends exactly that write to the trace and consumes no status read |
| Hardware.X1.InVdisp | setpcg.c:62 | `in a, (c)` on port 0x1a01 returns the next scripted status byte and consumes it, with no output |
| Vsync.Bit7 | setpcg.c:62-66 | bit 7 of a status byte, the sign flag that `jp p` and `jp m` test after `in a, (c)` |
| Vsync.SyncedAt | setpcg.c:56-68 | the read pattern the wait looks for: clear reads, then set reads, then the first clear one |
| Vsync.PollUntil | setpcg.c:61-66 | a poll that returns has consumed at least one of the remaining reads and no more than exist |
| Vsync.VsyncWait | setpcg.c:56-68 | a completed wait has consumed at least two reads and no more than the script holds |
| Vsync.PollUntilFinds | setpcg.c:61-66 | a poll stops at the first read whose bit 7 has the wanted value, and every read before it had the other value |
| Vsync.PollUntilExact | setpcg.c:61-66 | conversely, that first read is exactly where the poll stops |
| Vsync.PollUntilNone | setpcg.c:61-66 | a poll that runs out of reads saw no read with the wanted value |
| Vsync.VsyncWaitSound | setpcg.c:56-68 | when the wait returns after n reads, those reads are clear*, set+, clear: the transfer starts on the falling edge of bit 7 |
| Vsync.VsyncWaitComplete | setpcg.c:56-68 | whenever the reads show that pattern, the wait returns after exactly its last read, never earlier and never later |
| Vsync.VsyncWaitStalls | setpcg.c:56-68 | the wait stalls exactly when no set read in the script is followed by a clear read |
| Vsync.WaitVdisp | setpcg.c:56-68 | the two `in`/`jp` loops return `synced` exactly when `VsyncWait` completes; they consume those reads and leave the last one in A, with no output |
| Z80Timing.TStates | setpcg.c:70-87 | the Z80 T-states of each form in the loop: OUTI 16, LD r,r' 4, LD r,n 7, EX AF,AF' 4, DEC r 4, INC r 4, JP cc 10 |
| Z80Timing.Cost | setpcg.c:70-87 | the T-states of a straight run of instructions; additive by CostConcat |
| Z80Timing.Repeat | setpcg.c:80-82 | a block executed n times in a row, as the `dly` loop runs; its cost is given by CostRepeat |
| Z80Timing.DelayRun | setpcg.c:78-83 | the instructions of the software delay with its loop unrolled; 169 T-states by DelayCost |
| Z80Timing.SetpIteration | setpcg.c:70-87 | the instructions of one pass of `setp`; 250 T-states by SetpIterationCost |
| Z80Timing.CostConcat | setpcg.c:70-87 | the T-states of two runs of instructions add up |
| Z80Timing.CostRepeat | setpcg.c:80-82 | a block repeated n times costs n times as much |
| Z80Timing.PieceCosts | setpcg.c:70-87 | the three OUTIs with their port loads take 63 T-states, one `dly` round 14, and `inc c / dec a / jp nz` 18 |
| Z80Timing.DelayCost | setpcg.c:78-83 | the software delay, 0x0b rounds of `dec a / jp nz` within two `ex af, af`, takes 169 T-states |
| Z80Timing.SetpIterationCost | setpcg.c:70-87 | one pass of `setp` takes 250 clocks, as the comment at setpcg.c:87 says |
| PcgTransfer.LineWrites | setpcg.c:71-75 | the three OUTI outputs of line i: bytes 3i, 3i+1, 3i+2 to ports 0x15ii, 0x16ii, 0x17ii |
| PcgTransfer.LinesWrites | setpcg.c:70-87 | the outputs of lines 0 .. n-1 in order; described output by output in LinesWritesAt |
| PcgTransfer.TransferWrites | setpcg.c:45-91 | everything one call outputs for a 192-byte batch; described in TransferWritesAt and TransferSendsBatchInOrder |
| PcgTransfer.LinesWritesAt | setpcg.c:70-87 | output k of the first n lines writes byte k of the batch to port (0x15 + k mod 3) * 256 + k / 3 |
| PcgTransfer.LinesWritesLength | setpcg.c:70-87 | n lines make 3n outputs |
| PcgTransfer.TransferWritesAt | setpcg.c:45-91 | the 192 outputs of one call: output k sends byte k to plane k mod 3 (blue, red, green), line k / 3 |
| PcgTransfer.TransferSendsBatchInOrder | setpcg.c:45-91 | the values sent are exactly the 192 batch bytes, each once, in order |
| PcgTransfer.LinesWritesStep | setpcg.c:70-87 | the outputs of line c extend those of lines 0 .. c-1 |
| PcgTransfer.ExecOuti | setpcg.c:71 | OUTI decrements B first, then writes (HL) to port B*256 + C and advances HL |
| PcgTransfer.SendLine | setpcg.c:71-76 | the three OUTIs of line c send its blue, red and green bytes to 0x15cc, 0x16cc and 0x17cc, leave B = 0x16, and cost 63 T-states |
| PcgTransfer.Delay | setpcg.c:78-83 | the delay leaves the line counter in A, runs 0x0b rounds, ends with A' = 0, and costs 169 T-states |
| PcgTransfer.SetpLoop | setpcg.c:70-87 | the 64 passes of `setp` output exactly `TransferWrites` of the batch at HL, in 64 * 250 clocks |
| PcgTransfer.SetpcgMain | setpcg.c:45-91 | when the V-DISP wait completes, the routine consumes exactly those reads and outputs the batch; the I/O space then equals the batch applied to the old one; otherwise it outputs nothing |
| Vram.TextAddr | setpcg.c:212-219 | text VRAM cell x of slot row k: 0x3000 + 80 * (18 + k) + x |
| Vram.ColumnWrites | setpcg.c:212-219 | one pass of the `x` loop makes one write per slot row |
| Vram.ColumnCell | setpcg.c:212-219 | one pass leaves code c + k (mod 256) in cell x of slot row k |
| Vram.ColumnMiss | setpcg.c:212-219 | one pass touches no address but cell x of the eight slot rows |
| Vram.SlotWrites | setpcg.c:211-220 | the writes of passes 0 .. n-1 of the `x` loop; their effect is SlotCell and SlotOther |
| Vram.SlotCell | setpcg.c:211-220 | after passes 0 .. n-1, every cell x < n of slot row k holds c + k |
| Vram.SlotOther | setpcg.c:211-220 | the `x` loop writes nothing outside the 8 x 48 slot cells |
| Vram.WriteColumn | setpcg.c:212-219 | the eight `outp` calls are exactly `ColumnWrites(c, x)` |
| Vram.WriteSlotCodes | setpcg.c:211-220 | the 48 passes are exactly `SlotWrites(c, 48)` |
| Vram.SlotWritesStep | setpcg.c:211-220 | pass x extends the outputs of passes 0 .. x-1 |
| Vram.ClsRange | setpcg.c:243-246 | addresses lo .. hi-1 give two writes each |
| Vram.ClsRangeSnoc | setpcg.c:243-246 | the writes for lo .. hi are those for lo .. hi-1, then attribute hi-1 and text hi-1 + 0x1000 |
| Vram.ClsWrites | setpcg.c:241-247 | everything `cls_vram(st, attr, chr)` outputs, nothing when st >= 0x2800; its effect is ClsEffect |
| Vram.ClsRangeEffect | setpcg.c:243-246 | after the writes for lo .. hi-1, attribute cells in range hold `attr`, text cells 0x1000 above hold `chr`, and everything else is unchanged (an overlap keeps the later attribute) |
| Vram.ClsEffect | setpcg.c:241-247 | `cls_vram(st, attr, chr)` sets attribute cells st .. 0x27ff to `attr` and text cells st+0x1000 .. 0x37ff to `chr`; nothing else changes, and nothing at all when st >= 0x2800 |
| Vram.ClsVram | setpcg.c:241-247 | the 16-bit loop outputs exactly `ClsWrites(st, attr, chr)` |
| Vram.ClsStep | setpcg.c:243-246 | one loop pass extends the outputs for st .. addr-1 by those for addr |
| Vram.CrtcWrites | setpcg.c:231-235 | R6 selected at port 0x1800, then the row count written to 0x1801; its effect is CrtcEffect |
| Vram.CrtcEffect | setpcg.c:231-235 | afterwards port 0x1800 holds 6 (register R6) and port 0x1801 the row count; nothing else changes |
| Vram.SetCrtcLines | setpcg.c:231-235 | the two `outp` calls are exactly `CrtcWrites(lines)` |
| Loader.Completed | setpcg.c:208-224 | no more rounds complete than are run |
| Loader.Batch | setpcg.c:221-222 | round j sends a 192-byte batch |
| Loader.Remaining | setpcg.c:208-224 | the status reads left after n rounds, none once a wait stalls; stepped by ProgressStep |
| Loader.RoundWrites | setpcg.c:209-223 | round j's outputs: the slot codes 8j .. 8j+7, then batch j; see RoundStep and RoundUntouched |
| Loader.RoundsWrites | setpcg.c:208-224 | the outputs of rounds 0 .. n-1; what they leave is SlotsShowBatch and RoundsUntouched |
| Loader.RoundStep | setpcg.c:211-221 | the slot codes 8j .. 8j+7 followed by batch j are the outputs of round j |
| Loader.ProgressStep | setpcg.c:208-224 | a round whose wait completes counts one and goes on with the remaining reads; a stalled wait ends the count |
| Loader.Round | setpcg.c:209-223 | one pass writes the slot codes, then the batch when the wait completes; on a stall only the slot codes are written |
| Loader.Setpcg | setpcg.c:202-227 | the do-while with the wrapping `c += 8` makes exactly `Completed(vdisp, 32)` rounds, all 32 when no wait stalls, and outputs exactly those rounds, then, on a stall, that round's slot codes |
| Loader.SlotsShowBatch | setpcg.c:209-221 | while batch j is sent, cell x of slot row k shows code 8j + k |
| Loader.IsSlotCell | setpcg.c:211-219 | the 8 x 48 text cells of slot rows 18-25 |
| Loader.IsPcgPort | setpcg.c:50-52 | the PCG plane ports 0x1500-0x17ff |
| Loader.TransferUntouched | setpcg.c:45-91 | the transfer writes only PCG plane ports 0x1500-0x17ff |
| Loader.RoundUntouched | setpcg.c:209-223 | one round writes only slot cells and PCG ports |
| Loader.RoundsUntouched | setpcg.c:202-227 | `setpcg` writes nothing but the slot cells and the PCG ports |
| Loader.DefineWrites | setpcg.c:305-316 | the outputs of a successful load: 18 rows, the PCG attribute on rows 18-25, the 32 rounds, attribute 7 and spaces, 25 rows; its effect is DefineRestores |
| Loader.StalledWrites | setpcg.c:305-310 | the outputs up to a wait that stalls in round r: the set-up, rounds 0 .. r-1 and the slot codes of round r; its effect is StalledKeepsSlots |
| Loader.DefinePcg | setpcg.c:305-316 | loading succeeds exactly when all 32 waits complete, and consumes the status reads of the rounds; on success its outputs are the 18-row CRTC set-up, the PCG attribute on rows 18-25, the 32 rounds, the blanking, and 25 rows again; on a stall they are the set-up, the completed rounds and the slot codes of the stalled round |
| Loader.StalledKeepsSlots | setpcg.c:306-310 | after a stall the display still shows 18 rows, and every slot cell is a PCG cell showing the code of the stalled round |
| Loader.DefineRestores | setpcg.c:305-316 | after loading, CRTC R6 is 25 again and every cell of rows 18-25 has attribute 7 and the character ' ' |
| Loader.SlotsHiddenAsPcg | setpcg.c:306-310 | during the rounds the display shows 18 rows and every slot cell has attribute 0x20 (PCG) |
| CommandLine.IsOption | setpcg.c:279 | an argument is an option when its first character is '-'; an empty one is not |
| CommandLine.FlagMode | setpcg.c:282-286 | -v/-V select the preview, -w/-W the wide preview, any other option none |
| CommandLine.Step | setpcg.c:279-289 | one pass of the loop body: a flag sets the mode, an unknown option or a second file name aborts, the first file name is kept |
| CommandLine.Scan | setpcg.c:278-290 | the loop over argv[1..] from no file name and no preview; characterised by ScanMeaning |
| CommandLine.Parse | setpcg.c:278-292 | the loop and the check after it; characterised by ParseMeaning |
| CommandLine.LastMode | setpcg.c:282-285 | the mode of the last known flag, none without one |
| CommandLine.OptionsKnown | setpcg.c:279-286 | every option is one of the four flags |
| CommandLine.HasFlag | setpcg.c:282-285 | some option is a known flag |
| CommandLine.ScanMeaning | setpcg.c:278-290 | the loop aborts exactly when some option is unknown or a second file name turns up; otherwise it ends with the only non-option as the file name and the mode of the last flag |
| CommandLine.LastModeFlag | setpcg.c:282-285 | the last flag's mode is a preview exactly when some flag was given |
| CommandLine.ParseMeaning | setpcg.c:278-292 | `main` goes on exactly when every option is known, at most one argument is not one, and there is a file name or a flag; the file name is that argument and the preview is that of the last flag |
| CommandLine.LaterFlagWins | setpcg.c:282-285 | appending a flag sets the mode and keeps the file name, so `-v -w` is the wide preview rather than an error |
| CommandLine.AbortedStays | setpcg.c:286 | once the loop has aborted, the remaining arguments do not matter |
| CommandLine.ParseArgs | setpcg.c:275-292 | the `for` loop with its early aborts computes `Parse(args)` |
| Preview.Width | setpcg.c:325-335 | one cell per code, two in the wide mode |
| Preview.Attr | setpcg.c:326-333 | attribute 0x27 (PCG, white), 0xa7 with the double-width bit in the wide mode |
| Preview.CellAddr | setpcg.c:323-336 | the first attribute address of code n: 0x2000 + 80 * (n / 16) + width * (n % 16) |
| Preview.CellWrites | setpcg.c:325-335 | the outputs for one code, attribute then code for each of its cells; their effect is CellEffect |
| Preview.PreviewUpTo | setpcg.c:320-339 | the outputs for codes 0 .. n-1; their effect is PreviewCell, PreviewOther and PreviewShows |
| Preview.InAttrCell | setpcg.c:326-333 | an address is one of the attribute cells of code n |
| Preview.CellOrder | setpcg.c:322-338 | the cells of a later code lie after those of an earlier one |
| Preview.CellBound | setpcg.c:322-338 | every preview cell lies in attribute VRAM below 0x2800 |
| Preview.CellEffect | setpcg.c:325-335 | the outputs for one code put the white PCG attribute (0xa7 when wide) in its cells and the code in the text cells above; no other address changes |
| Preview.PreviewCell | setpcg.c:320-339 | after codes 0 .. n-1, each of their cells holds the attribute and each text cell the code |
| Preview.PreviewOther | setpcg.c:320-339 | addresses outside those cells keep their values |
| Preview.PreviewShows | setpcg.c:320-339 | the final screen is the grid: column x of row y (columns 2x and 2x+1 when wide) shows code 16y + x with attribute 0x27 or 0xa7 |
| Preview.WriteCell | setpcg.c:325-336 | the body of the `x` loop outputs exactly the writes for code c and advances the address by the cell width |
| Preview.PreviewStep | setpcg.c:322-338 | code n's outputs extend those of codes 0 .. n-1 |
| Preview.PreviewRow | setpcg.c:323-337 | the `x` loop of row y outputs codes 16y .. 16y+15; the 8-bit counter ends at 16(y+1), wrapping to 0 after the last row |
| Preview.ShowPreview | setpcg.c:320-339 | the two loops output exactly `PreviewUpTo(wide, 256)` |
| Program.ReadBuffer | setpcg.c:302-303 | `fread` fills the 6144-byte block with the file's first bytes; past a shorter file the block keeps its old contents |
| Program.RunWrites | setpcg.c:295-341 | the outputs of a run that returns 0: the load when a file is named, then the preview when one is asked for |
| Program.LoaderMain | setpcg.c:268-344 | `main` aborts with usage exactly when `Parse` says so and with "not found" exactly when a named file is missing, writing nothing in either case; it stalls exactly when a wait never completes, having output the set-up, the completed rounds and the stalled round's slot codes; otherwise it outputs the load, then the preview; the status reads are consumed only by a load |
| Program.RunStep | setpcg.c:295-341 | the load followed by the preview is `RunWrites` |
| Png2Pcg.PlaneBit | png2pcg.rb:37-41 | the `get_plane` comparison `(pixel & mask) > threshold` with mask 0xff and threshold 0x7f shifted to the plane's byte |
| Png2Pcg.Channel | png2pcg.rb:37-41 | the plane's byte of the pixel, used by PlaneBitThreshold |
| Png2Pcg.PlaneBitThreshold | png2pcg.rb:37-41 | a pixel gives bit 1 exactly when its channel byte is above 0x7f |
| Png2Pcg.Slices8 | png2pcg.rb:42 | `each_slice(8)` makes ceil(n/8) groups of 1 to 8 items |
| Png2Pcg.Slices8At | png2pcg.rb:42 | group j is items 8j .. 8j+7, cut short at the end |
| Png2Pcg.Inject | png2pcg.rb:43 | `inject(0) {\|result, item\| result * 2 + item}` as a left fold; bounded by InjectBound, bit order by InjectBit |
| Png2Pcg.TestBit | png2pcg.rb:43 | bit k of a number, the reference InjectBit and GetPlaneBits are stated against |
| Png2Pcg.InjectBound | png2pcg.rb:43 | `inject(0) { r * 2 + item }` over k bits gives a number below 2^k, so one group packs to a byte |
| Png2Pcg.InjectBit | png2pcg.rb:43 | the packing is most significant bit first: bit k-1-i of the value is item i |
| Png2Pcg.RowBits | png2pcg.rb:40-42 | one bit per pixel |
| Png2Pcg.GetPlane | png2pcg.rb:36-45 | `get_plane` gives ceil(width/8) bytes |
| Png2Pcg.PackGroup | png2pcg.rb:42-44 | one group of at most 8 bits packed into a byte |
| Png2Pcg.GetPlaneBits | png2pcg.rb:36-45 | in byte j, pixel 8j + i is bit len-1-i, where len is 8 or the length of a short last group |
| Png2Pcg.GetPlaneMsbFirst | png2pcg.rb:36-45 | for a width that is a multiple of 8, bit 7-i of byte j is the plane bit of pixel 8j + i |
| Png2Pcg.TriplePlane | png2pcg.rb:61 | byte j of a `zip(plane_r, plane_g)` triple comes from plane blue, red, green for j = 0, 1, 2 |
| Png2Pcg.ScanLine | png2pcg.rb:56-61 | one triple of bytes per 8-pixel block |
| Png2Pcg.Transpose | png2pcg.rb:62 | `transpose` swaps the indices of a rectangular array |
| Png2Pcg.CharRow | png2pcg.rb:55-62 | a group of rows makes ceil(width/8) glyphs of 3 bytes per row |
| Png2Pcg.SlicesRectangular | png2pcg.rb:54 | the groups of rows of a rectangular image are rectangular |
| Png2Pcg.CharRows | png2pcg.rb:54-62 | ceil(height/8) character rows of ceil(width/8) glyphs each |
| Png2Pcg.Glyphs | png2pcg.rb:54-63 | `.flatten` of the character rows: all glyphs in row-major order; located by GlyphsAt |
| Png2Pcg.Encode | png2pcg.rb:54-63 | `pcgdat`, the `.join` of all glyphs; its layout is EncodeAt, EncodeLayout, EncodeLength |
| Png2Pcg.CharRowAt | png2pcg.rb:55-62 | byte 3l + j of glyph cx is plane j (blue, red, green) of block cx of row l |
| Png2Pcg.GlyphLengths | png2pcg.rb:54-63 | for a height that is a multiple of 8, every glyph has 24 bytes |
| Png2Pcg.GlyphsAt | png2pcg.rb:63 | glyph nb*cy + cx of the flattening is glyph cx of character row cy |
| Png2Pcg.EncodeAt | png2pcg.rb:63 | byte 24k + r of the output is byte r of glyph k |
| Png2Pcg.GlyphLayout | png2pcg.rb:54-63 | byte 3l + j of glyph nb*cy + cx is plane j of block cx of pixel row 8cy + l |
| Png2Pcg.EncodeLength | png2pcg.rb:54-63 | the output has 3 * height * ceil(width/8) bytes |
| Png2Pcg.EncodeLayout | png2pcg.rb:12-27 | byte 24(nb*cy + cx) + 3l + j is plane j (blue, red, green) of block cx of pixel row 8cy + l |
| Png2Pcg.EncodeSize | png2pcg.rb:9-27 | a 128 x 128 image encodes to the 6144 bytes the loader reads |
| Png2Pcg.SameLetter | png2pcg.rb:65 | an ASCII letter matched in either case, as `/i` does |
| Png2Pcg.PngAt | png2pcg.rb:65 | `\.png$` with `/i` matches at i: ".png" in any case, then the end of the string or a line break |
| Png2Pcg.FindPng | png2pcg.rb:65 | a match found is at or after the start and is a ".png" in any case at the end of a line |
| Png2Pcg.FindPngLeftmost | png2pcg.rb:65 | the match is the leftmost, and no match means there is none anywhere |
| Png2Pcg.OutputName | png2pcg.rb:65 | `filename.sub(/\.png$/i, '.PCG')`: the leftmost match replaced; characterised by OutputNameSuffix and OutputNameIdempotent |
| Png2Pcg.NoLineBreak | png2pcg.rb:65 | no character of the name is a line break |
| Png2Pcg.OutputNameSuffix | png2pcg.rb:65 | for a one-line name, a trailing ".png" in any case becomes ".PCG" and any other name is kept |
| Png2Pcg.OutputNameIdempotent | png2pcg.rb:65 | renaming a one-line name twice is the same as once |
| Format.Offset | setpcg.c:9-24 | byte 24g + 3l + p of the file is plane p (blue, red, green) of scanline l of character g |
| Format.RoundSendsGlyphLines | setpcg.c:9-24 | in round j, output 3i + p sends plane p of scanline i mod 8 of character 8j + i/8 to port (0x15 + p) * 256 + i |
| Format.SlotRowMatchesLine | setpcg.c:43 | when line i of round j starts, after lines 0 .. i-1 of the batch have gone out, slot row i/8 still shows code 8j + i/8, the character whose scanline the line carries |
| Format.EncodedImageReachesPorts | png2pcg.rb:12-27 | end to end for a 128 x 128 image: round j, output 3i + p sends plane p of block g mod 16 of pixel row 8(g/16) + i mod 8, where g = 8j + i/8, to port (0x15 + p) * 256 + i |

## Left out

- The `#if 0` variants of the PCG routine (setpcg.c:97-198) are not compiled and not modelled.
- `di`/`ei` and the preservation of the other registers are not modelled. The model is single-threaded, with no interrupts.
- The hardware effect of a PCG port write is left out. The X1 latches the byte into the glyph of the code shown at the current raster position, and how it does so is not visible in the source. The model states which code the slot cells show during each line (`Format.SlotRowMatchesLine`), not the resulting glyph RAM.
- Timing is counted in T-states of the `setp` loop only. Wait states, the raster timing and the cost of the C code are left out.
- Hardware.X1.InVdisp: a V-DISP poll that never succeeds hangs the real program. The model has a finite read script and reports a stall once it runs out (`synced == false`, `Outcome.Stalled`).
- Console output (`printf("\033E")`, `LOCATE`, the `"-> "` lines of the converter), the usage text and `abort()` are reduced to an `Outcome`.
- `fopen`, `fread` and `malloc` are parameters of `Program.LoaderMain`: the file content or its absence, and the initial content of the block. The block is never freed and the file never closed; this is not modelled.
- CommandLine.ParseArgs: the `uint8_t` loop index limits the model to at most 254 arguments. With 255 or more the real index wraps from 255 to 0 and reads `argv[0]`, the program name. That argument becomes the file name when none was given, or is a second one and ends in the usage abort; at the latest the next wrap reads it as a second file name and aborts. The loop would run for ever only if `argv[0]` were itself a preview flag. The model does not cover this.
- PNG decoding (ChunkyPNG), the loop over `ARGV` and the file write are not modelled. The converter is modelled from pixel rows to bytes and from a name to a name.
- `Png2Pcg.OutputName` on a name that contains a line break is defined, but its results are proved only for names without one.
- No image size is enforced by the converter. Heights that are not a multiple of 8 give short glyphs; the layout lemmas assume a multiple of 8.
