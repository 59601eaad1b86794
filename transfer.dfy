/** The 24x-speed PCG routine `setpcg_main` (setpcg.c:45-91): after the
    V-DISP wait it streams one batch of 8 glyphs (192 bytes) to the PCG
    plane ports, one blue/red/green triple per line, 64 lines, paced by a
    fixed software delay. */
module PcgTransfer {
  import opened Base
  import opened Hardware
  import opened Vsync
  import opened Z80Timing

  /** 8 characters x 8 scanlines. */
  const LINES: nat := 64

  /** 8 characters x 8 scanlines x 3 planes. */
  const BATCH_BYTES: nat := 192

  /** High bytes of the blue, red and green PCG ports, in that order. */
  const BLUE_PORT: nat := 0x15
  const RED_PORT: nat := 0x16
  const GREEN_PORT: nat := 0x17

  /** The three outputs of line `i`: blue, red and green bytes of the line
      to ports 0x15xx, 0x16xx and 0x17xx, with the line number as xx. */
  function LineWrites(block: seq<byte>, i: nat): seq<Write>
    requires i < 0x100 && 3 * i + 3 <= |block|
  {
    [Write(BLUE_PORT * 0x100 + i, block[3 * i]),
     Write(RED_PORT * 0x100 + i, block[3 * i + 1]),
     Write(GREEN_PORT * 0x100 + i, block[3 * i + 2])]
  }

  /** The outputs of lines 0 to n-1, in order. (The measure mentions the
      block as well so that a literal line count is not unfolded eagerly.) */
  function LinesWrites(block: seq<byte>, n: nat): seq<Write>
    requires n <= 0x100 && 3 * n <= |block|
    decreases |block|, n
  {
    if n == 0 then [] else LinesWrites(block, n - 1) + LineWrites(block, n - 1)
  }

  /** Everything one call of the routine outputs for a 192-byte batch. */
  function TransferWrites(block: seq<byte>): seq<Write>
    requires |block| == BATCH_BYTES
  {
    LinesWrites(block, LINES)
  }

  /** The values of a run of writes, in order. */
  function Values(ws: seq<Write>): (vs: seq<byte>)
    ensures |vs| == |ws| && forall i :: 0 <= i < |ws| ==> vs[i] == ws[i].value
  {
    seq(|ws|, i requires 0 <= i < |ws| => ws[i].value)
  }

  lemma {:induction false} LinesWritesAt(block: seq<byte>, n: nat, k: nat)
    requires n <= 0x100 && 3 * n <= |block| && k < 3 * n
    ensures |LinesWrites(block, n)| == 3 * n
    ensures LinesWrites(block, n)[k] == Write((BLUE_PORT + k % 3) * 0x100 + k / 3, block[k])
    decreases n
  {
    LinesWritesLength(block, n);
    if k < 3 * (n - 1) {
      LinesWritesAt(block, n - 1, k);
    }
  }

  lemma {:induction false} LinesWritesLength(block: seq<byte>, n: nat)
    requires n <= 0x100 && 3 * n <= |block|
    ensures |LinesWrites(block, n)| == 3 * n
    decreases n
  {
    if n > 0 {
      LinesWritesLength(block, n - 1);
    }
  }

  /** Byte 3i+j of the batch goes to port (0x15+j)*256 + i, as output k =
      3i+j: plane j (blue, red, green) of line i. */
  lemma TransferWritesAt(block: seq<byte>, k: nat)
    requires |block| == BATCH_BYTES && k < BATCH_BYTES
    ensures |TransferWrites(block)| == BATCH_BYTES
    ensures TransferWrites(block)[k] == Write((BLUE_PORT + k % 3) * 0x100 + k / 3, block[k])
  {
    LinesWritesAt(block, LINES, k);
  }

  /** The transfer outputs exactly the 192 bytes of the batch, once each, in
      increasing order. */
  lemma TransferSendsBatchInOrder(block: seq<byte>)
    requires |block| == BATCH_BYTES
    ensures Values(TransferWrites(block)) == block
  {
    forall k | 0 <= k < BATCH_BYTES
      ensures |TransferWrites(block)| == BATCH_BYTES && TransferWrites(block)[k].value == block[k]
    {
      TransferWritesAt(block, k);
    }
  }

  /** Appending the outputs of line `c` to those of lines 0 to c-1. */
  lemma LinesWritesStep(t0: seq<Write>, t: seq<Write>, block: seq<byte>, c: nat)
    requires c < 0x100 && 3 * c + 3 <= |block|
    requires t == t0 + LinesWrites(block, c)
    ensures t + LineWrites(block, c) == t0 + LinesWrites(block, c + 1)
  {
  }

  /** The Z80 OUTI instruction: B is decremented first, then the byte at
      HL goes out to port BC, then HL is incremented. */
  method ExecOuti(hw: X1, mem: seq<byte>, hl: nat, b: byte, c: byte) returns (hl': nat, b': byte)
    requires hl < |mem|
    modifies hw
    ensures b' == Dec8(b) && hl' == hl + 1
    ensures hw.trace == old(hw.trace) + [Write(b' * 0x100 + c, mem[hl])]
    ensures hw.vdisp == old(hw.vdisp)
  {
    b' := Dec8(b);
    hw.Out(b' * 0x100 + c, mem[hl]);
    hl' := hl + 1;
  }

  /** From `setp:` to `ld b, 0x16`: line `c` of the batch at `p`, its blue,
      red and green bytes sent with B loaded from 0x16, D and E in turn.
      Returns HL, B and the T-states spent. */
  method SendLine(hw: X1, mem: seq<byte>, p: nat, hl: nat, b: byte, c: byte, d: byte, e: byte)
    returns (hl': nat, b': byte, cycles: nat)
    requires c < LINES && p + BATCH_BYTES <= |mem| && hl == p + 3 * c
    requires b == 0x16 && d == 0x17 && e == 0x18
    modifies hw
    ensures hl' == hl + 3 && b' == 0x16
    ensures hw.trace == old(hw.trace) + LineWrites(mem[p..p + BATCH_BYTES], c)
    ensures hw.vdisp == old(hw.vdisp)
    ensures cycles == Cost(SEND_LINE)
  {
    ghost var block := mem[p..p + BATCH_BYTES];
    assert mem[hl] == block[3 * c] && mem[hl + 1] == block[3 * c + 1] && mem[hl + 2] == block[3 * c + 2];
    hl', b' := ExecOuti(hw, mem, hl, b, c);       // BLUE
    cycles := TStates(Outi);
    b' := d;
    cycles := cycles + TStates(LdRegReg);
    hl', b' := ExecOuti(hw, mem, hl', b', c);     // RED
    cycles := cycles + TStates(Outi);
    b' := e;
    cycles := cycles + TStates(LdRegReg);
    hl', b' := ExecOuti(hw, mem, hl', b', c);     // GREEN
    cycles := cycles + TStates(Outi);
    b' := 0x16;
    cycles := cycles + TStates(LdRegImm);
    PieceCosts();
  }

  /** From `ex af, af` to `ex af, af`: the software delay. The line counter
      in A is swapped out to A' while A counts down from 11, so it comes
      back unchanged; the count-down runs exactly 11 rounds and leaves 0 in
      A'. */
  method Delay(a: byte, aAlt: byte) returns (a': byte, aAlt': byte, rounds: nat, cycles: nat)
    ensures a' == a && aAlt' == 0
    ensures rounds == DELAY_COUNT
    ensures cycles == Cost(DelayRun())
  {
    a', aAlt' := aAlt, a;
    cycles := TStates(ExAfAf);
    a' := DELAY_COUNT;
    cycles := cycles + TStates(LdRegImm);
    rounds := 0;
    PieceCosts();
    // dly:
    while true
      invariant 1 <= a' <= DELAY_COUNT && rounds == DELAY_COUNT - a'
      invariant aAlt' == a
      invariant cycles == 11 + 14 * rounds
      decreases a'
    {
      a' := Dec8(a');
      cycles := cycles + TStates(DecReg);
      cycles := cycles + TStates(JpCond);
      rounds := rounds + 1;
      if a' == 0 {
        break;
      }
    }
    a', aAlt' := aAlt', a';
    cycles := cycles + TStates(ExAfAf);
    DelayCost();
  }

  /** `setp:` ... `jp nz, setp`: 64 passes, A counting the lines down
      from 64 and C numbering them up from 0, each pass sending one line and
      then waiting out the delay. */
  method SetpLoop(hw: X1, mem: seq<byte>, p: nat, a0: byte, aAlt0: byte) returns (clocks: nat)
    requires p + BATCH_BYTES <= |mem| && a0 == LINES
    modifies hw
    ensures hw.vdisp == old(hw.vdisp)
    ensures hw.trace == old(hw.trace) + TransferWrites(mem[p..p + BATCH_BYTES])
    ensures clocks == LINES * Cost(SetpIteration())
  {
    ghost var block := mem[p..p + BATCH_BYTES];
    ghost var trace0 := hw.trace;
    var hl := p;
    var b: byte, d: byte, e: byte, c: byte, a: byte, aAlt: byte := 0x16, 0x17, 0x18, 0, a0, aAlt0;
    clocks := 0;
    SetpIterationCost();
    PieceCosts();
    DelayCost();
    while a != 0
      invariant hw.vdisp == old(hw.vdisp)
      invariant c <= LINES && a == LINES - c && hl == p + 3 * c
      invariant b == 0x16 && d == 0x17 && e == 0x18
      invariant hw.trace == trace0 + LinesWrites(block, c)
      invariant clocks == c * 250
    {
      var cycles: nat;
      ghost var sent := hw.trace;
      hl, b, cycles := SendLine(hw, mem, p, hl, b, c, d, e);
      LinesWritesStep(trace0, sent, block, c);
      clocks := clocks + cycles;
      var rounds: nat;
      a, aAlt, rounds, cycles := Delay(a, aAlt);
      clocks := clocks + cycles;
      c := Inc8(c);
      clocks := clocks + TStates(IncReg);
      a := Dec8(a);
      clocks := clocks + TStates(DecReg) + TStates(JpCond);
    }
  }

  /** `setpcg_main(p)`: B, C, D, E and HL loaded, the V-DISP wait, then the
      `setp` loop. `mem` is the buffer and `p` the offset HL points at. The
      routine runs with interrupts disabled (`di` ... `ei`), which the model
      does not represent. When the script of status reads runs out during
      the V-DISP wait, the real routine spins for ever; the model then
      returns `synced == false` and has written nothing. `clocks` counts the
      T-states of the `setp` loop. */
  method SetpcgMain(hw: X1, mem: seq<byte>, p: nat) returns (synced: bool, clocks: nat)
    requires p + BATCH_BYTES <= |mem|
    modifies hw
    ensures synced == VsyncWait(old(hw.vdisp)).Some?
    ensures synced ==>
      hw.vdisp == old(hw.vdisp)[VsyncWait(old(hw.vdisp)).value..]
      && hw.trace == old(hw.trace) + TransferWrites(mem[p..p + BATCH_BYTES])
      && hw.Io() == Apply(old(hw.Io()), TransferWrites(mem[p..p + BATCH_BYTES]))
      && clocks == LINES * Cost(SetpIteration())
    ensures !synced ==>
      hw.vdisp == [] && hw.trace == old(hw.trace) && clocks == 0
  {
    ghost var trace0 := hw.trace;
    var a: byte, aAlt: byte := LINES, 0;
    clocks := 0;
    // the line counter is parked in A' while the poll uses A
    a, aAlt := aAlt, a;
    var last: byte;
    synced, last := WaitVdisp(hw);
    if !synced {
      return;
    }
    a := last;
    a, aAlt := aAlt, a;
    clocks := SetpLoop(hw, mem, p, a, aAlt);
    ApplyConcat(hw.initial, trace0, TransferWrites(mem[p..p + BATCH_BYTES]));
  }
}
