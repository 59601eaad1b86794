/** The VRAM and CRTC helpers of the loader (setpcg.c:205-247): the text
    codes of the glyph slots, the bounded clear of attribute and text VRAM,
    and the CRTC display-lines register. Attribute VRAM sits at
    0x2000-0x27ff and text VRAM 0x1000 above it, 80 cells per row. */
module Vram {
  import opened Base
  import opened Hardware

  /** The first text row of the glyph slots: rows 18-25 are hidden while
      the CRTC shows 18 lines. */
  const SLOT_ROW: nat := 18

  /** Slot rows (one per character of a batch) and cells per row; the 26th
      row of text VRAM has only 48 cells, so every row uses that many. */
  const SLOT_ROWS: nat := 8
  const SLOT_COLUMNS: nat := 48

  /** Text VRAM cell `x` of slot row `k`. */
  function TextAddr(k: nat, x: nat): Addr
    requires k < SLOT_ROWS && x < SLOT_COLUMNS
  {
    0x3000 + 80 * (SLOT_ROW + k) + x
  }

  /** The eight writes of one pass of the `x` loop of `setpcg`: code `c + k`
      into cell `x` of slot row `k`, for k = 0..7 in order. */
  function ColumnWrites(c: byte, x: nat): (ws: seq<Write>)
    requires x < SLOT_COLUMNS
    ensures |ws| == SLOT_ROWS
  {
    seq(SLOT_ROWS, k requires 0 <= k < SLOT_ROWS => Write(TextAddr(k, x), Add8(c, k)))
  }

  /** The writes of passes x = 0..n-1. (The measure mentions `c` as well
      so that a literal column count is not unfolded eagerly.) */
  function SlotWrites(c: byte, n: nat): seq<Write>
    requires n <= SLOT_COLUMNS
    decreases c, n
  {
    if n == 0 then [] else SlotWrites(c, n - 1) + ColumnWrites(c, n - 1)
  }

  /** One pass of the `x` loop leaves code c + k in cell x of slot row k. */
  lemma ColumnCell(m: Memory, c: byte, x: nat, k: nat)
    requires x < SLOT_COLUMNS && k < SLOT_ROWS
    ensures Apply(m, ColumnWrites(c, x))[TextAddr(k, x)] == Add8(c, k)
  {
    var col := ColumnWrites(c, x);
    assert col[k] == Write(TextAddr(k, x), Add8(c, k));
    ApplyLast(m, col, k);
  }

  /** One pass of the `x` loop touches only cell x of the slot rows. */
  lemma ColumnMiss(m: Memory, c: byte, x: nat, a: Addr)
    requires x < SLOT_COLUMNS
    requires forall k :: 0 <= k < SLOT_ROWS ==> a != TextAddr(k, x)
    ensures Apply(m, ColumnWrites(c, x))[a] == m[a]
  {
    var col := ColumnWrites(c, x);
    assert forall j :: 0 <= j < |col| ==> col[j].port == TextAddr(j, x);
    ApplyUntouched(m, col, a);
  }

  /** After the whole `x` loop every slot cell (k, x) holds code c + k
      (mod 256). */
  lemma {:induction false} SlotCell(m: Memory, c: byte, n: nat, k: nat, x: nat)
    requires n <= SLOT_COLUMNS && k < SLOT_ROWS && x < n
    ensures Apply(m, SlotWrites(c, n))[TextAddr(k, x)] == Add8(c, k)
    decreases n
  {
    ApplyConcat(m, SlotWrites(c, n - 1), ColumnWrites(c, n - 1));
    if x == n - 1 {
      ColumnCell(Apply(m, SlotWrites(c, n - 1)), c, x, k);
    } else {
      SlotCell(m, c, n - 1, k, x);
      ColumnMiss(Apply(m, SlotWrites(c, n - 1)), c, n - 1, TextAddr(k, x));
    }
  }

  /** The `x` loop writes no address other than the slot cells. */
  lemma {:induction false} SlotOther(m: Memory, c: byte, n: nat, a: Addr)
    requires n <= SLOT_COLUMNS
    requires forall k, x :: 0 <= k < SLOT_ROWS && 0 <= x < n ==> a != TextAddr(k, x)
    ensures Apply(m, SlotWrites(c, n))[a] == m[a]
    decreases n
  {
    if n > 0 {
      ApplyConcat(m, SlotWrites(c, n - 1), ColumnWrites(c, n - 1));
      SlotOther(m, c, n - 1, a);
      ColumnMiss(Apply(m, SlotWrites(c, n - 1)), c, n - 1, a);
    }
  }

  /** One pass of the `x` loop of `setpcg` (setpcg.c:212-219). */
  method WriteColumn(hw: X1, c: byte, x: nat)
    requires x < SLOT_COLUMNS
    modifies hw
    ensures hw.trace == old(hw.trace) + ColumnWrites(c, x)
    ensures hw.vdisp == old(hw.vdisp)
  {
    hw.Out(0x3000 + 80 * 18 + x, c);
    hw.Out(0x3000 + 80 * 19 + x, Add8(c, 1));
    hw.Out(0x3000 + 80 * 20 + x, Add8(c, 2));
    hw.Out(0x3000 + 80 * 21 + x, Add8(c, 3));
    hw.Out(0x3000 + 80 * 22 + x, Add8(c, 4));
    hw.Out(0x3000 + 80 * 23 + x, Add8(c, 5));
    hw.Out(0x3000 + 80 * 24 + x, Add8(c, 6));
    hw.Out(0x3000 + 80 * 25 + x, Add8(c, 7));
  }

  /** The `x` loop of `setpcg` (setpcg.c:211-220): for x = 0..47 the codes
      c .. c+7 go to cell x of slot rows 0..7. */
  method WriteSlotCodes(hw: X1, c: byte)
    modifies hw
    ensures hw.trace == old(hw.trace) + SlotWrites(c, SLOT_COLUMNS)
    ensures hw.vdisp == old(hw.vdisp)
  {
    var x := 0;
    while x < SLOT_COLUMNS
      invariant x <= SLOT_COLUMNS
      invariant hw.trace == old(hw.trace) + SlotWrites(c, x)
      invariant hw.vdisp == old(hw.vdisp)
    {
      ghost var before := hw.trace;
      WriteColumn(hw, c, x);
      SlotWritesStep(old(hw.trace), before, c, x);
      x := x + 1;
    }
  }

  lemma SlotWritesStep(t0: seq<Write>, t: seq<Write>, c: byte, x: nat)
    requires x < SLOT_COLUMNS && t == t0 + SlotWrites(c, x)
    ensures t + ColumnWrites(c, x) == t0 + SlotWrites(c, x + 1)
  {
  }

  /** The end of attribute VRAM; text VRAM ends 0x1000 above. */
  const ATTR_END: nat := 0x2800

  /** The writes of `cls_vram` for addresses lo .. hi-1: for each address
      in turn, the attribute and then the text cell 0x1000 above it. */
  function ClsRange(lo: nat, hi: nat, attr: byte, chr: byte): (ws: seq<Write>)
    requires lo <= hi <= ATTR_END
    ensures |ws| == 2 * (hi - lo)
  {
    seq(2 * (hi - lo), i requires 0 <= i < 2 * (hi - lo) =>
      if i % 2 == 0 then Write(lo + i / 2, attr) else Write(lo + i / 2 + 0x1000, chr))
  }

  /** The writes for lo .. hi are those for lo .. hi-1 and then the pair
      for hi-1. */
  lemma ClsRangeSnoc(lo: nat, hi: nat, attr: byte, chr: byte)
    requires lo < hi <= ATTR_END
    ensures ClsRange(lo, hi, attr, chr)
      == ClsRange(lo, hi - 1, attr, chr) + [Write(hi - 1, attr), Write(hi - 1 + 0x1000, chr)]
  {
    var n := 2 * (hi - 1 - lo);
    assert n % 2 == 0 && n / 2 == hi - 1 - lo;
    assert (n + 1) % 2 == 1 && (n + 1) / 2 == hi - 1 - lo;
  }

  /** Everything `cls_vram(st, attr, chr)` outputs: nothing when `st` is at
      or past the end of attribute VRAM. */
  function ClsWrites(st: Addr, attr: byte, chr: byte): seq<Write> {
    if st < ATTR_END then ClsRange(st, ATTR_END, attr, chr) else []
  }

  /** After the writes for lo .. hi-1, attribute cells in range hold `attr`,
      text cells in range hold `chr`, and nothing else changed. When the
      ranges overlap (lo < 0x1800) the attribute write is the later one. */
  lemma {:induction false} ClsRangeEffect(m: Memory, lo: nat, hi: nat, attr: byte, chr: byte, a: Addr)
    requires lo <= hi <= ATTR_END
    ensures Apply(m, ClsRange(lo, hi, attr, chr))[a] ==
      if lo <= a < hi then attr
      else if lo + 0x1000 <= a < hi + 0x1000 then chr
      else m[a]
    decreases hi - lo
  {
    if hi > lo {
      var pair := [Write(hi - 1, attr), Write(hi - 1 + 0x1000, chr)];
      var before := ClsRange(lo, hi - 1, attr, chr);
      ClsRangeSnoc(lo, hi, attr, chr);
      ApplySplit(m, ClsRange(lo, hi, attr, chr), before, pair);
      ClsRangeEffect(m, lo, hi - 1, attr, chr, a);
      ApplyPair(Apply(m, before), pair[0], pair[1]);
    }
  }

  /** `cls_vram(st, attr, chr)`: for st <= a < 0x2800, attribute cell a gets
      `attr` and text cell a + 0x1000 gets `chr` (the attribute wins where
      the two ranges overlap); every other address keeps its value. */
  lemma ClsEffect(m: Memory, st: Addr, attr: byte, chr: byte, a: Addr)
    ensures Apply(m, ClsWrites(st, attr, chr))[a] ==
      if st <= a < ATTR_END then attr
      else if st + 0x1000 <= a < ATTR_END + 0x1000 then chr
      else m[a]
  {
    if st < ATTR_END {
      ClsRangeEffect(m, st, ATTR_END, attr, chr, a);
    }
  }

  /** `cls_vram` (setpcg.c:241-247): a 16-bit address from `st_addr` up to
      the end of attribute VRAM, the attribute written before the text. */
  method ClsVram(hw: X1, st: Addr, attr: byte, chr: byte)
    modifies hw
    ensures hw.trace == old(hw.trace) + ClsWrites(st, attr, chr)
    ensures hw.vdisp == old(hw.vdisp)
  {
    var addr := st;
    while addr < ATTR_END
      invariant st <= addr && (st < ATTR_END ==> addr <= ATTR_END)
      invariant hw.trace == old(hw.trace) + (if st < ATTR_END then ClsRange(st, addr, attr, chr) else [])
      invariant hw.vdisp == old(hw.vdisp)
    {
      ghost var before := hw.trace;
      hw.Out(addr, attr);
      hw.Out(addr + 0x1000, chr);
      ClsStep(old(hw.trace), before, st, addr, attr, chr);
      addr := addr + 1;
    }
  }

  lemma ClsStep(t0: seq<Write>, t: seq<Write>, st: nat, addr: nat, attr: byte, chr: byte)
    requires st <= addr < ATTR_END && t == t0 + ClsRange(st, addr, attr, chr)
    ensures t + [Write(addr, attr)] + [Write(addr + 0x1000, chr)] == t0 + ClsRange(st, addr + 1, attr, chr)
  {
    ClsRangeSnoc(st, addr + 1, attr, chr);
  }

  /** The CRTC address and data ports, and R6, the number of displayed
      character rows. */
  const CRTC_SELECT: Addr := 0x1800
  const CRTC_DATA: Addr := 0x1801
  const CRTC_R6: byte := 6

  /** `set_crtc_lines(lines)`: select R6, then write the row count. */
  function CrtcWrites(lines: byte): seq<Write> {
    [Write(CRTC_SELECT, CRTC_R6), Write(CRTC_DATA, lines)]
  }

  /** After `set_crtc_lines` the select port holds 6 and the data port the
      row count; every other address is unchanged. */
  lemma CrtcEffect(m: Memory, lines: byte, a: Addr)
    ensures Apply(m, CrtcWrites(lines))[a] ==
      if a == CRTC_SELECT then CRTC_R6 else if a == CRTC_DATA then lines else m[a]
  {
    ApplyPair(m, Write(CRTC_SELECT, CRTC_R6), Write(CRTC_DATA, lines));
  }

  /** `set_crtc_lines` (setpcg.c:231-235). */
  method SetCrtcLines(hw: X1, lines: byte)
    modifies hw
    ensures hw.trace == old(hw.trace) + CrtcWrites(lines)
    ensures hw.vdisp == old(hw.vdisp)
  {
    hw.Out(CRTC_SELECT, CRTC_R6);
    hw.Out(CRTC_DATA, lines);
  }
}
