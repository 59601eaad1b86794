/** The loader's driver (setpcg.c:201-224 and 295-317): 32 rounds of "write
    the slot codes, stream one 192-byte batch", framed by the CRTC and VRAM
    set-up and clean-up in `main`. */
module Loader {
  import opened Base
  import opened Hardware
  import opened Vsync
  import opened PcgTransfer
  import opened Vram

  /** 256 characters in batches of 8. */
  const ROUNDS: nat := 32

  /** The whole glyph set: 8 lines x 3 planes x 256 characters. */
  const PCG_BYTES: nat := 6144

  /** The number of the first n rounds whose V-DISP wait completes before
      the script of status reads runs out. */
  function Completed(script: seq<byte>, n: nat): (k: nat)
    ensures k <= n
    decreases |script|, n
  {
    if n == 0 then 0
    else match VsyncWait(script)
      case None => 0
      case Some(r) => 1 + Completed(script[r..], n - 1)
  }

  /** The status reads left over after n rounds ([] once a wait stalls). */
  function Remaining(script: seq<byte>, n: nat): seq<byte>
    decreases |script|, n
  {
    if n == 0 then script
    else match VsyncWait(script)
      case None => []
      case Some(r) => Remaining(script[r..], n - 1)
  }

  /** Batch j of the glyph data: bytes 192j .. 192j+191, characters
      8j .. 8j+7. */
  function Batch(data: seq<byte>, j: nat): (b: seq<byte>)
    requires j < ROUNDS && |data| == PCG_BYTES
    ensures |b| == BATCH_BYTES
  {
    data[BATCH_BYTES * j..BATCH_BYTES * j + BATCH_BYTES]
  }

  /** Everything round j outputs: the slot codes 8j .. 8j+7, then batch j. */
  function RoundWrites(data: seq<byte>, j: nat): seq<Write>
    requires j < ROUNDS && |data| == PCG_BYTES
  {
    SlotWrites(8 * j, SLOT_COLUMNS) + TransferWrites(Batch(data, j))
  }

  /** The outputs of rounds 0 .. n-1. (The measure mentions the data as
      well so that a literal round count is not unfolded eagerly.) */
  function RoundsWrites(data: seq<byte>, n: nat): seq<Write>
    requires n <= ROUNDS && |data| == PCG_BYTES
    decreases |data|, n
  {
    if n == 0 then [] else RoundsWrites(data, n - 1) + RoundWrites(data, n - 1)
  }

  lemma RoundsStep(t0: seq<Write>, data: seq<byte>, j: nat)
    requires j < ROUNDS && |data| == PCG_BYTES
    ensures t0 + RoundsWrites(data, j) + RoundWrites(data, j) == t0 + RoundsWrites(data, j + 1)
  {
  }

  lemma RoundStep(t0: seq<Write>, t1: seq<Write>, t2: seq<Write>, data: seq<byte>, j: nat)
    requires j < ROUNDS && |data| == PCG_BYTES
    requires t1 == t0 + SlotWrites(8 * j, SLOT_COLUMNS) && t2 == t1 + TransferWrites(Batch(data, j))
    ensures t2 == t0 + RoundWrites(data, j)
  {
  }

  /** One more round on the scripted status reads: when its wait completes
      it counts and the rest of the rounds start after the reads it used;
      when it stalls, nothing more completes and no reads are left. */
  lemma ProgressStep(script: seq<byte>, n: nat)
    requires n > 0
    ensures VsyncWait(script).Some? ==>
      Completed(script, n) == 1 + Completed(script[VsyncWait(script).value..], n - 1)
      && Remaining(script, n) == Remaining(script[VsyncWait(script).value..], n - 1)
    ensures VsyncWait(script).None? ==> Completed(script, n) == 0 && Remaining(script, n) == []
  {
  }

  /** One pass of the do-while loop of `setpcg` (setpcg.c:209-222): the slot
      codes c .. c+7, then `setpcg_main(pat)` on batch j. */
  method Round(hw: X1, data: seq<byte>, j: nat, c: byte, pat: nat) returns (synced: bool)
    requires j < ROUNDS && |data| == PCG_BYTES && c == 8 * j && pat == BATCH_BYTES * j
    modifies hw
    ensures synced == VsyncWait(old(hw.vdisp)).Some?
    ensures synced ==>
      hw.vdisp == old(hw.vdisp)[VsyncWait(old(hw.vdisp)).value..]
      && hw.trace == old(hw.trace) + RoundWrites(data, j)
    ensures !synced ==> hw.vdisp == [] && hw.trace == old(hw.trace) + SlotWrites(c, SLOT_COLUMNS)
  {
    WriteSlotCodes(hw, c);
    ghost var slotted := hw.trace;
    assert data[pat..pat + BATCH_BYTES] == Batch(data, j);
    var clocks;
    synced, clocks := SetpcgMain(hw, data, pat);
    if synced {
      RoundStep(old(hw.trace), slotted, hw.trace, data, j);
    }
  }

  /** `setpcg(pcgdata)`: `c` a wrapping 8-bit counter stepped by 8 until it
      comes back to 0, `pat` the batch offset. Returns the number of rounds
      done; it is 32 unless a V-DISP wait stalled (the real loop would hang
      there), in which case that round's slot codes are the last output. */
  method Setpcg(hw: X1, data: seq<byte>) returns (rounds: nat)
    requires |data| == PCG_BYTES
    modifies hw
    ensures rounds == Completed(old(hw.vdisp), ROUNDS)
    ensures hw.vdisp == Remaining(old(hw.vdisp), ROUNDS)
    ensures hw.trace == old(hw.trace) + RoundsWrites(data, rounds)
      + (if rounds < ROUNDS then SlotWrites(8 * rounds, SLOT_COLUMNS) else [])
  {
    ghost var s0 := hw.vdisp;
    ghost var t0 := hw.trace;
    var pat: nat := 0;
    var c: byte := 0;
    rounds := 0;
    while true
      invariant rounds < ROUNDS && c == 8 * rounds && pat == BATCH_BYTES * rounds
      invariant hw.trace == t0 + RoundsWrites(data, rounds)
      invariant Completed(s0, ROUNDS) == rounds + Completed(hw.vdisp, ROUNDS - rounds)
      invariant Remaining(s0, ROUNDS) == Remaining(hw.vdisp, ROUNDS - rounds)
      decreases ROUNDS - rounds
    {
      ProgressStep(hw.vdisp, ROUNDS - rounds);
      var synced := Round(hw, data, rounds, c, pat);
      if !synced {
        return;
      }
      RoundsStep(t0, data, rounds);
      pat := pat + BATCH_BYTES;
      c := Add8(c, 8);
      rounds := rounds + 1;
      if c == 0 {
        break;
      }
    }
  }

  /** The slot cells carry codes 8j .. 8j+7 while batch j is sent: the
      text of slot row k, cell x, is 8j + k after round j's slot writes. */
  lemma SlotsShowBatch(m: Memory, data: seq<byte>, j: nat, k: nat, x: nat)
    requires j < ROUNDS && |data| == PCG_BYTES && k < SLOT_ROWS && x < SLOT_COLUMNS
    ensures Apply(m, RoundsWrites(data, j) + SlotWrites(8 * j, SLOT_COLUMNS))[TextAddr(k, x)] == 8 * j + k
  {
    assert Add8(8 * j, k) == 8 * j + k;
    ApplySplit(m, RoundsWrites(data, j) + SlotWrites(8 * j, SLOT_COLUMNS), RoundsWrites(data, j), SlotWrites(8 * j, SLOT_COLUMNS));
    SlotCell(Apply(m, RoundsWrites(data, j)), 8 * j, SLOT_COLUMNS, k, x);
  }

  /** A slot cell, for the untouched-address lemmas below. */
  predicate IsSlotCell(a: Addr) {
    exists k, x :: 0 <= k < SLOT_ROWS && 0 <= x < SLOT_COLUMNS && a == TextAddr(k, x)
  }

  /** The PCG plane ports 0x1500 - 0x17ff. */
  predicate IsPcgPort(a: Addr) {
    0x1500 <= a < 0x1800
  }

  /** The transfer writes only PCG plane ports. */
  lemma TransferUntouched(m: Memory, block: seq<byte>, a: Addr)
    requires |block| == BATCH_BYTES && !IsPcgPort(a)
    ensures Apply(m, TransferWrites(block))[a] == m[a]
  {
    LinesWritesLength(block, LINES);
    forall i | 0 <= i < |TransferWrites(block)|
      ensures TransferWrites(block)[i].port != a
    {
      TransferWritesAt(block, i);
      assert i == 3 * (i / 3) + i % 3;
    }
    ApplyUntouched(m, TransferWrites(block), a);
  }

  /** One round writes nothing but the slot cells and the PCG ports. */
  lemma RoundUntouched(m: Memory, data: seq<byte>, j: nat, a: Addr)
    requires j < ROUNDS && |data| == PCG_BYTES
    requires !IsSlotCell(a) && !IsPcgPort(a)
    ensures Apply(m, RoundWrites(data, j))[a] == m[a]
  {
    var slots := SlotWrites(8 * j, SLOT_COLUMNS);
    ApplySplit(m, RoundWrites(data, j), slots, TransferWrites(Batch(data, j)));
    SlotOther(m, 8 * j, SLOT_COLUMNS, a);
    TransferUntouched(Apply(m, slots), Batch(data, j), a);
  }

  /** `setpcg` writes nothing but the slot cells of text VRAM and the PCG
      plane ports. */
  lemma {:induction false} RoundsUntouched(m: Memory, data: seq<byte>, n: nat, a: Addr)
    requires n <= ROUNDS && |data| == PCG_BYTES
    requires !IsSlotCell(a) && !IsPcgPort(a)
    ensures Apply(m, RoundsWrites(data, n))[a] == m[a]
    decreases n
  {
    if n > 0 {
      ApplySplit(m, RoundsWrites(data, n), RoundsWrites(data, n - 1), RoundWrites(data, n - 1));
      RoundsUntouched(m, data, n - 1, a);
      RoundUntouched(Apply(m, RoundsWrites(data, n - 1)), data, n - 1, a);
    } else {
      assert RoundsWrites(data, n) == [];
    }
  }

  /** The start of the hidden rows in attribute VRAM: row 18. */
  const RESERVED: Addr := 0x2000 + 80 * 18

  /** What `main` outputs when it loads a file (setpcg.c:305-316): show 18
      rows, give the hidden rows attribute 0x20 (PCG) and code 0, the 32
      rounds, the hidden rows back to attribute 7 (white text) and spaces,
      and 25 rows again. */
  function DefineWrites(data: seq<byte>): seq<Write>
    requires |data| == PCG_BYTES
  {
    CrtcWrites(18) + ClsWrites(RESERVED, 0x20, 0) + RoundsWrites(data, ROUNDS)
      + ClsWrites(RESERVED, 7, 0x20) + CrtcWrites(25)
  }

  /** What `main` has output when the wait of round r stalls: 18 rows, the
      hidden rows set up, rounds 0 .. r-1, and the slot codes of round r.
      The real program hangs there, with the display still cut short. */
  function StalledWrites(data: seq<byte>, r: nat): seq<Write>
    requires |data| == PCG_BYTES && r < ROUNDS
  {
    CrtcWrites(18) + ClsWrites(RESERVED, 0x20, 0) + RoundsWrites(data, r) + SlotWrites(8 * r, SLOT_COLUMNS)
  }

  /** The PCG loading part of `main`. Returns false when a V-DISP wait
      stalls, where the real program hangs; the output then stops inside
      the rounds. */
  method DefinePcg(hw: X1, data: seq<byte>) returns (done: bool)
    requires |data| == PCG_BYTES
    modifies hw
    ensures done == (Completed(old(hw.vdisp), ROUNDS) == ROUNDS)
    ensures hw.vdisp == Remaining(old(hw.vdisp), ROUNDS)
    ensures done ==> hw.trace == old(hw.trace) + DefineWrites(data)
    ensures !done ==> hw.trace == old(hw.trace) + StalledWrites(data, Completed(old(hw.vdisp), ROUNDS))
  {
    ghost var t0 := hw.trace;
    SetCrtcLines(hw, 18);
    ClsVram(hw, RESERVED, 0x20, 0);
    ghost var t1 := hw.trace;
    var rounds := Setpcg(hw, data);
    if rounds < ROUNDS {
      StalledStep(t0, t1, hw.trace, data, rounds);
      return false;
    }
    ghost var t2 := hw.trace;
    assert t2 == t1 + RoundsWrites(data, ROUNDS);
    ClsVram(hw, RESERVED, 7, 0x20);
    SetCrtcLines(hw, 25);
    DefineStep(t0, t1, t2, hw.trace, data);
    done := true;
  }

  lemma StalledStep(t0: seq<Write>, t1: seq<Write>, t2: seq<Write>, data: seq<byte>, r: nat)
    requires |data| == PCG_BYTES && r < ROUNDS
    requires t1 == t0 + CrtcWrites(18) + ClsWrites(RESERVED, 0x20, 0)
    requires t2 == t1 + RoundsWrites(data, r) + (if r < ROUNDS then SlotWrites(8 * r, SLOT_COLUMNS) else [])
    ensures t2 == t0 + StalledWrites(data, r)
  {
  }

  lemma DefineStep(t0: seq<Write>, t1: seq<Write>, t2: seq<Write>, t3: seq<Write>, data: seq<byte>)
    requires |data| == PCG_BYTES
    requires t1 == t0 + CrtcWrites(18) + ClsWrites(RESERVED, 0x20, 0)
    requires t2 == t1 + RoundsWrites(data, ROUNDS)
    requires t3 == t2 + ClsWrites(RESERVED, 7, 0x20) + CrtcWrites(25)
    ensures t3 == t0 + DefineWrites(data)
  {
    Append5(t0, CrtcWrites(18), ClsWrites(RESERVED, 0x20, 0), RoundsWrites(data, ROUNDS),
      ClsWrites(RESERVED, 7, 0x20), CrtcWrites(25));
  }

  lemma Append5<T>(t: seq<T>, a: seq<T>, b: seq<T>, c: seq<T>, d: seq<T>, e: seq<T>)
    ensures t + a + b + c + d + e == t + (a + b + c + d + e)
  {
  }

  /** After loading, the display is back to 25 rows and every hidden cell
      reads as a white space: attribute 7 at 0x25a0 - 0x27ff and code 0x20
      in the text cells above them. */
  lemma DefineRestores(m: Memory, data: seq<byte>, a: Addr)
    requires |data| == PCG_BYTES && RESERVED <= a < ATTR_END
    ensures Apply(m, DefineWrites(data))[CRTC_SELECT] == CRTC_R6
    ensures Apply(m, DefineWrites(data))[CRTC_DATA] == 25
    ensures Apply(m, DefineWrites(data))[a] == 7
    ensures Apply(m, DefineWrites(data))[a + 0x1000] == 0x20
  {
    var pre := CrtcWrites(18) + ClsWrites(RESERVED, 0x20, 0) + RoundsWrites(data, ROUNDS);
    ApplyConcat(m, pre + ClsWrites(RESERVED, 7, 0x20), CrtcWrites(25));
    ApplyConcat(m, pre, ClsWrites(RESERVED, 7, 0x20));
    var m1 := Apply(m, pre);
    var m2 := Apply(m1, ClsWrites(RESERVED, 7, 0x20));
    CrtcEffect(m2, 25, CRTC_SELECT);
    CrtcEffect(m2, 25, CRTC_DATA);
    CrtcEffect(m2, 25, a);
    CrtcEffect(m2, 25, a + 0x1000);
    ClsEffect(m1, RESERVED, 7, 0x20, a);
    ClsEffect(m1, RESERVED, 7, 0x20, a + 0x1000);
  }

  /** While the rounds run the display shows 18 rows, so the slot rows are
      hidden, and every slot cell has attribute 0x20, which makes it show
      the PCG glyph of its code. */
  lemma SlotsHiddenAsPcg(m: Memory, data: seq<byte>, j: nat, k: nat, x: nat)
    requires j <= ROUNDS && |data| == PCG_BYTES && k < SLOT_ROWS && x < SLOT_COLUMNS
    ensures var io := Apply(m, CrtcWrites(18) + ClsWrites(RESERVED, 0x20, 0) + RoundsWrites(data, j));
      io[CRTC_SELECT] == CRTC_R6 && io[CRTC_DATA] == 18 && io[TextAddr(k, x) - 0x1000] == 0x20
  {
    var setup := CrtcWrites(18) + ClsWrites(RESERVED, 0x20, 0);
    ApplyConcat(m, setup, RoundsWrites(data, j));
    ApplyConcat(m, CrtcWrites(18), ClsWrites(RESERVED, 0x20, 0));
    var m1 := Apply(m, CrtcWrites(18));
    var a := TextAddr(k, x) - 0x1000;
    CrtcEffect(m, 18, CRTC_SELECT);
    CrtcEffect(m, 18, CRTC_DATA);
    ClsEffect(m1, RESERVED, 0x20, 0, CRTC_SELECT);
    ClsEffect(m1, RESERVED, 0x20, 0, CRTC_DATA);
    ClsEffect(m1, RESERVED, 0x20, 0, a);
    var m2 := Apply(m1, ClsWrites(RESERVED, 0x20, 0));
    RoundsUntouched(m2, data, j, CRTC_SELECT);
    RoundsUntouched(m2, data, j, CRTC_DATA);
    RoundsUntouched(m2, data, j, a);
  }

  /** A stalled load leaves the display at 18 rows, with the slot cells
      still PCG cells showing the codes of the round that stalled. */
  lemma StalledKeepsSlots(m: Memory, data: seq<byte>, r: nat, k: nat, x: nat)
    requires |data| == PCG_BYTES && r < ROUNDS && k < SLOT_ROWS && x < SLOT_COLUMNS
    ensures var io := Apply(m, StalledWrites(data, r));
      io[CRTC_SELECT] == CRTC_R6 && io[CRTC_DATA] == 18
      && io[TextAddr(k, x) - 0x1000] == 0x20 && io[TextAddr(k, x)] == 8 * r + k
  {
    var before := CrtcWrites(18) + ClsWrites(RESERVED, 0x20, 0) + RoundsWrites(data, r);
    ApplySplit(m, StalledWrites(data, r), before, SlotWrites(8 * r, SLOT_COLUMNS));
    SlotsHiddenAsPcg(m, data, r, k, x);
    var mid := Apply(m, before);
    SlotOther(mid, 8 * r, SLOT_COLUMNS, CRTC_SELECT);
    SlotOther(mid, 8 * r, SLOT_COLUMNS, CRTC_DATA);
    SlotOther(mid, 8 * r, SLOT_COLUMNS, TextAddr(k, x) - 0x1000);
    SlotCell(mid, 8 * r, SLOT_COLUMNS, k, x);
  }
}
