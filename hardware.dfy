/** The Sharp X1 as the PCG loader sees it: a Z80 whose I/O space holds the
    attribute VRAM (0x2000-0x27ff), the text VRAM (0x3000-0x37ff), the PCG
    plane ports (0x1500-0x17ff), the CRTC (0x1800/0x1801) and the V-DISP
    status port (0x1a01). Every output is an `Out(port, value)`; the model
    keeps the ordered trace of all writes, and the I/O contents are derived
    from it by replaying the trace on the start state. */
module Hardware {
  import opened Base

  /** A 16-bit I/O address, as driven by BC during OUT/OUTI. */
  type Addr = x: int | 0 <= x < 0x1_0000

  /** The I/O space, one byte per 16-bit address. */
  type Memory = m: seq<byte> | |m| == 0x1_0000 witness seq(0x1_0000, _ => 0)

  /** One output operation: `value` written to I/O address `port`. */
  datatype Write = Write(port: Addr, value: byte)

  /** The I/O space after the writes `ws`, performed in order, on `m`. */
  function Apply(m: Memory, ws: seq<Write>): Memory
    decreases |ws|
  {
    if ws == [] then m
    else
      var last := ws[|ws| - 1];
      Apply(m, ws[..|ws| - 1])[last.port := last.value]
  }

  /** Writing `a` and then `b` is writing `a + b`. */
  lemma {:induction false} ApplyConcat(m: Memory, a: seq<Write>, b: seq<Write>)
    ensures Apply(m, a + b) == Apply(Apply(m, a), b)
    decreases |b|
  {
    if b == [] {
      assert a + b == a;
    } else {
      assert (a + b)[..|a + b| - 1] == a + b[..|b| - 1];
      ApplyConcat(m, a, b[..|b| - 1]);
    }
  }

  /** `ApplyConcat` for a run of writes already known to split as r + s. */
  lemma ApplySplit(m: Memory, ws: seq<Write>, r: seq<Write>, s: seq<Write>)
    requires ws == r + s
    ensures Apply(m, ws) == Apply(Apply(m, r), s)
  {
    ApplyConcat(m, r, s);
  }

  /** An address that no write in `ws` targets keeps its value. */
  lemma {:induction false} ApplyUntouched(m: Memory, ws: seq<Write>, a: Addr)
    requires forall i :: 0 <= i < |ws| ==> ws[i].port != a
    ensures Apply(m, ws)[a] == m[a]
    decreases |ws|
  {
    if ws != [] {
      ApplyUntouched(m, ws[..|ws| - 1], a);
    }
  }

  /** Two writes in a row. */
  lemma ApplyPair(m: Memory, w0: Write, w1: Write)
    ensures Apply(m, [w0, w1]) == m[w0.port := w0.value][w1.port := w1.value]
  {
    assert [w0, w1][..1] == [w0];
    assert [w0][..0] == [];
    assert Apply(m, [w0]) == m[w0.port := w0.value];
  }

  /** An address ends up holding the value of the last write to it. */
  lemma {:induction false} ApplyLast(m: Memory, ws: seq<Write>, i: nat)
    requires i < |ws|
    requires forall j :: i < j < |ws| ==> ws[j].port != ws[i].port
    ensures Apply(m, ws)[ws[i].port] == ws[i].value
    decreases |ws|
  {
    if i < |ws| - 1 {
      ApplyLast(m, ws[..|ws| - 1], i);
    }
  }

  /** The machine: every output so far, on top of the I/O space it
      started from, and the values the V-DISP status port 0x1a01 will
      return to the next reads. A finite script of status reads stands in
      for the real signal. */
  class X1 {
    const initial: Memory
    var trace: seq<Write>
    var vdisp: seq<byte>

    /** What the I/O space holds now: the start state with every output in
        the trace applied in order. */
    function Io(): Memory
      reads this
    {
      Apply(initial, trace)
    }

    constructor (start: Memory, status: seq<byte>)
      ensures Io() == start && trace == [] && vdisp == status
    {
      initial := start;
      trace := [];
      vdisp := status;
    }

    /** `outp(port, value)`, and the output half of OUTI. */
    method Out(port: Addr, value: byte)
      modifies this
      ensures trace == old(trace) + [Write(port, value)]
      ensures vdisp == old(vdisp)
    {
      trace := trace + [Write(port, value)];
    }

    /** `in a, (c)` with BC = 0x1a01: the next scripted status byte. */
    method InVdisp() returns (v: byte)
      requires vdisp != []
      modifies this
      ensures v == old(vdisp)[0] && vdisp == old(vdisp)[1..]
      ensures trace == old(trace)
    {
      v := vdisp[0];
      vdisp := vdisp[1..];
    }
  }
}
