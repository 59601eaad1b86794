/** The preview at the end of `main` (setpcg.c:319-340): all 256 codes on
    a 16 x 16 grid at the top left of the screen, with an attribute that
    shows the PCG glyph in white; in the wide mode every code takes two
    cells and the attribute also sets the double-width bit. */
module Preview {
  import opened Base
  import opened Hardware

  const GRID: nat := 16
  const CODES: nat := 256

  /** Attribute VRAM and, 0x1000 above it, text VRAM. */
  const ATTR_VRAM: nat := 0x2000
  const TEXT_OFFSET: nat := 0x1000

  /** PCG + white, and the same with the horizontal double-width bit. */
  const PCG_WHITE: byte := 0x27
  const PCG_WHITE_WIDE: byte := 0xa7

  /** Cells per code. */
  function Width(wide: bool): nat {
    if wide then 2 else 1
  }

  function Attr(wide: bool): byte {
    if wide then PCG_WHITE_WIDE else PCG_WHITE
  }

  /** The first attribute address of code n: row n / 16, column n % 16
      counted in codes. */
  function CellAddr(wide: bool, n: nat): Addr
    requires n < CODES
  {
    ATTR_VRAM + 80 * (n / GRID) + Width(wide) * (n % GRID)
  }

  /** The outputs for code n: attribute then code for each of its cells. */
  function CellWrites(wide: bool, n: nat): seq<Write>
    requires n < CODES
  {
    var a := CellAddr(wide, n);
    if wide then
      [Write(a, Attr(wide)), Write(a + TEXT_OFFSET, n), Write(a + 1, Attr(wide)), Write(a + 1 + TEXT_OFFSET, n)]
    else
      [Write(a, Attr(wide)), Write(a + TEXT_OFFSET, n)]
  }

  /** The outputs for codes 0 .. n-1. (The measure mentions `wide` as well
      so that a literal count is not unfolded eagerly.) */
  function PreviewUpTo(wide: bool, n: nat): seq<Write>
    requires n <= CODES
    decreases wide, n
  {
    if n == 0 then [] else PreviewUpTo(wide, n - 1) + CellWrites(wide, n - 1)
  }

  /** Address `a` is one of the attribute cells of code n, or the text
      cell above one. */
  predicate InAttrCell(wide: bool, n: nat, a: int)
    requires n < CODES
  {
    CellAddr(wide, n) <= a < CellAddr(wide, n) + Width(wide)
  }

  predicate InTextCell(wide: bool, n: nat, a: int)
    requires n < CODES
  {
    InAttrCell(wide, n, a - TEXT_OFFSET)
  }

  /** Code n's cells lie after code k's for k < n. */
  lemma CellOrder(wide: bool, k: nat, n: nat)
    requires k < n < CODES
    ensures CellAddr(wide, k) + Width(wide) <= CellAddr(wide, n)
  {
    if k / GRID < n / GRID {
      assert 80 * (k / GRID) + 80 <= 80 * (n / GRID);
    }
  }

  /** Every cell lies in attribute VRAM, below 0x2800. */
  lemma CellBound(wide: bool, n: nat)
    requires n < CODES
    ensures ATTR_VRAM <= CellAddr(wide, n) && CellAddr(wide, n) + Width(wide) <= 0x2800
  {
  }

  /** The outputs for one code. */
  lemma CellEffect(m: Memory, wide: bool, n: nat, a: Addr)
    requires n < CODES
    ensures Apply(m, CellWrites(wide, n))[a] ==
      if InAttrCell(wide, n, a) then Attr(wide)
      else if InTextCell(wide, n, a) then n
      else m[a]
  {
    CellBound(wide, n);
    var ws := CellWrites(wide, n);
    ApplyPair(m, ws[0], ws[1]);
    if wide {
      ApplySplit(m, ws, ws[..2], ws[2..]);
      ApplyPair(Apply(m, ws[..2]), ws[2], ws[3]);
    }
  }

  /** After the outputs for codes 0 .. n-1, each attribute cell of one of
      those codes holds the preview attribute and each text cell the code. */
  lemma {:induction false} PreviewCell(m: Memory, wide: bool, n: nat, k: nat, a: Addr)
    requires k < n <= CODES
    requires InAttrCell(wide, k, a) || InTextCell(wide, k, a)
    ensures Apply(m, PreviewUpTo(wide, n))[a] == if InAttrCell(wide, k, a) then Attr(wide) else k
    decreases n
  {
    var before := PreviewUpTo(wide, n - 1);
    var mid := Apply(m, before);
    ApplySplit(m, PreviewUpTo(wide, n), before, CellWrites(wide, n - 1));
    assert Apply(m, PreviewUpTo(wide, n))[a] == Apply(mid, CellWrites(wide, n - 1))[a];
    CellEffect(mid, wide, n - 1, a);
    if k < n - 1 {
      CellOrder(wide, k, n - 1);
      CellBound(wide, k);
      CellBound(wide, n - 1);
      assert !InAttrCell(wide, n - 1, a) && !InTextCell(wide, n - 1, a);
      PreviewCell(m, wide, n - 1, k, a);
    }
  }

  /** An address outside the cells of codes 0 .. n-1 keeps its value. */
  lemma {:induction false} PreviewOther(m: Memory, wide: bool, n: nat, a: Addr)
    requires n <= CODES
    requires forall k :: 0 <= k < n ==> !InAttrCell(wide, k, a) && !InTextCell(wide, k, a)
    ensures Apply(m, PreviewUpTo(wide, n))[a] == m[a]
    decreases n
  {
    if n > 0 {
      var before := PreviewUpTo(wide, n - 1);
      ApplySplit(m, PreviewUpTo(wide, n), before, CellWrites(wide, n - 1));
      CellEffect(Apply(m, before), wide, n - 1, a);
      PreviewOther(m, wide, n - 1, a);
    }
  }

  /** The grid: code 16y + x at row y, column x (columns 2x and 2x+1 in
      the wide mode), with the PCG attribute. */
  lemma PreviewShows(m: Memory, wide: bool, y: nat, x: nat, d: nat)
    requires y < GRID && x < GRID && d < Width(wide)
    ensures var io := Apply(m, PreviewUpTo(wide, CODES));
      var a := ATTR_VRAM + 80 * y + Width(wide) * x + d;
      io[a] == (if wide then 0xa7 else 0x27) && io[a + TEXT_OFFSET] == 16 * y + x
  {
    var n := GRID * y + x;
    assert n / GRID == y && n % GRID == x;
    CellBound(wide, n);
    PreviewCell(m, wide, CODES, n, CellAddr(wide, n) + d);
    PreviewCell(m, wide, CODES, n, CellAddr(wide, n) + d + TEXT_OFFSET);
  }

  /** The outputs for code `c`, from `addr` on. */
  method WriteCell(hw: X1, wide: bool, addr: nat, c: byte, ghost n: nat) returns (addr': nat)
    requires n < CODES && c == n && addr == CellAddr(wide, n)
    modifies hw
    ensures addr' == addr + Width(wide)
    ensures hw.trace == old(hw.trace) + CellWrites(wide, n)
    ensures hw.vdisp == old(hw.vdisp)
  {
    CellBound(wide, n);
    addr' := addr;
    if !wide {
      hw.Out(addr', 0x27);
      hw.Out(addr' + 0x1000, c);
    } else {
      hw.Out(addr', 0xa7);
      hw.Out(addr' + 0x1000, c);
      addr' := addr' + 1;
      hw.Out(addr', 0xa7);
      hw.Out(addr' + 0x1000, c);
    }
    addr' := addr' + 1;
  }

  lemma PreviewStep(t0: seq<Write>, t: seq<Write>, t': seq<Write>, wide: bool, n: nat)
    requires n < CODES && t == t0 + PreviewUpTo(wide, n) && t' == t + CellWrites(wide, n)
    ensures t' == t0 + PreviewUpTo(wide, n + 1)
  {
  }

  /** The `x` loop of the preview (setpcg.c:323-337) for row y: codes
      16y .. 16y+15 from address 0x2000 + 80y on, after the outputs `t0`
      that came before the preview. */
  method PreviewRow(hw: X1, wide: bool, y: nat, c0: byte, ghost t0: seq<Write>) returns (c: byte)
    requires y < GRID && c0 == GRID * y
    requires hw.trace == t0 + PreviewUpTo(wide, GRID * y)
    modifies hw
    ensures c == if y + 1 < GRID then GRID * (y + 1) else 0
    ensures hw.trace == t0 + PreviewUpTo(wide, GRID * (y + 1))
    ensures hw.vdisp == old(hw.vdisp)
  {
    c := c0;
    var addr := ATTR_VRAM + y * 80;
    var x := 0;
    assert (GRID * y) / GRID == y && (GRID * y) % GRID == 0;
    while x < GRID
      invariant x <= GRID
      invariant c == (if GRID * y + x < CODES then GRID * y + x else 0)
      invariant x < GRID ==> addr == CellAddr(wide, GRID * y + x)
      invariant hw.trace == t0 + PreviewUpTo(wide, GRID * y + x)
      invariant hw.vdisp == old(hw.vdisp)
    {
      var n := GRID * y + x;
      ghost var before := hw.trace;
      addr := WriteCell(hw, wide, addr, c, n);
      PreviewStep(t0, before, hw.trace, wide, n);
      c := Inc8(c);
      x := x + 1;
      if x < GRID {
        assert n / GRID == y && n % GRID == x - 1;
        assert (n + 1) / GRID == y && (n + 1) % GRID == x;
      }
    }
  }

  /** The preview (setpcg.c:320-338): the `y` loop over the 16 rows, with
      the code `c` an 8-bit counter that has stepped through all 256 codes
      at the end. */
  method ShowPreview(hw: X1, wide: bool)
    modifies hw
    ensures hw.trace == old(hw.trace) + PreviewUpTo(wide, CODES)
    ensures hw.vdisp == old(hw.vdisp)
  {
    var c: byte := 0;
    var y := 0;
    while y < GRID
      invariant y <= GRID
      invariant c == (if y < GRID then GRID * y else 0)
      invariant hw.trace == old(hw.trace) + PreviewUpTo(wide, GRID * y)
      invariant hw.vdisp == old(hw.vdisp)
    {
      c := PreviewRow(hw, wide, y, c, old(hw.trace));
      y := y + 1;
    }
  }
}
