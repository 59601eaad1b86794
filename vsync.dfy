/** The V-DISP wait at the head of the fast PCG routine (setpcg.c:56-68):
    two polls of bit 7 of port 0x1a01, first until it reads set and then
    until it reads clear, so that the transfer starts on the edge into the
    vertical blank. */
module Vsync {
  import opened Base
  import opened Hardware

  /** Bit 7 of a status byte, the sign flag that `jp p` / `jp m` test. */
  predicate Bit7(v: byte) {
    v >= 0x80
  }

  /** The number of reads consumed by a poll that starts at read `i` and
      stops on the first read whose bit 7 equals `want`; None when the reads
      run out first (the real loop spins on). */
  function PollUntil(script: seq<byte>, i: nat, want: bool): (r: Option<nat>)
    ensures r.Some? ==> i < r.value <= |script|
    decreases |script| - i
  {
    if i >= |script| then None
    else if Bit7(script[i]) == want then Some(i + 1)
    else PollUntil(script, i + 1, want)
  }

  /** The number of status reads the two-phase wait consumes, or None when
      the script of reads ends before the falling edge. */
  function VsyncWait(script: seq<byte>): (r: Option<nat>)
    ensures r.Some? ==> 2 <= r.value <= |script|
  {
    match PollUntil(script, 0, true)
    case None => None
    case Some(k) => PollUntil(script, k, false)
  }

  /** The reads up to `n` form the pattern the wait looks for: bit 7 clear
      until read `m`, set from `m` until read `n - 1`, and clear at read
      `n - 1`. */
  ghost predicate SyncedAt(script: seq<byte>, m: nat, n: nat) {
    m + 1 < n <= |script|
    && (forall i :: 0 <= i < m ==> !Bit7(script[i]))
    && Bit7(script[m])
    && (forall i :: m < i < n - 1 ==> Bit7(script[i]))
    && !Bit7(script[n - 1])
  }

  lemma {:induction false} PollUntilFinds(script: seq<byte>, i: nat, want: bool)
    requires PollUntil(script, i, want).Some?
    ensures var k := PollUntil(script, i, want).value;
      i < k <= |script| && Bit7(script[k - 1]) == want
      && forall j :: i <= j < k - 1 ==> Bit7(script[j]) != want
    decreases |script| - i
  {
    if Bit7(script[i]) != want {
      PollUntilFinds(script, i + 1, want);
    }
  }

  lemma {:induction false} PollUntilExact(script: seq<byte>, i: nat, k: nat, want: bool)
    requires i < k <= |script| && Bit7(script[k - 1]) == want
    requires forall j :: i <= j < k - 1 ==> Bit7(script[j]) != want
    ensures PollUntil(script, i, want) == Some(k)
    decreases k - i
  {
    if i < k - 1 {
      PollUntilExact(script, i + 1, k, want);
    }
  }

  lemma {:induction false} PollUntilNone(script: seq<byte>, i: nat, want: bool)
    requires PollUntil(script, i, want).None?
    ensures forall j :: i <= j < |script| ==> Bit7(script[j]) != want
    decreases |script| - i
  {
    if i < |script| {
      PollUntilNone(script, i + 1, want);
    }
  }

  /** When the wait returns after `n` reads, those reads show the pattern:
      a set read at some `m` and the clear read that ends it at `n - 1`. */
  lemma VsyncWaitSound(script: seq<byte>)
    requires VsyncWait(script).Some?
    ensures exists m :: SyncedAt(script, m, VsyncWait(script).value)
  {
    var m := PollUntil(script, 0, true).value;
    PollUntilFinds(script, 0, true);
    PollUntilFinds(script, m, false);
    assert SyncedAt(script, m - 1, VsyncWait(script).value);
  }

  /** Whenever the pattern occurs, the wait returns after exactly its `n`
      reads, so it never returns early and never reads past the edge. */
  lemma VsyncWaitComplete(script: seq<byte>, m: nat, n: nat)
    requires SyncedAt(script, m, n)
    ensures VsyncWait(script) == Some(n)
  {
    PollUntilExact(script, 0, m + 1, true);
    PollUntilExact(script, m + 1, n, false);
  }

  /** The wait stalls exactly when the script never shows a set read
      followed later by a clear one. */
  lemma VsyncWaitStalls(script: seq<byte>)
    ensures VsyncWait(script).None? <==>
      forall i, j :: 0 <= i < j < |script| && Bit7(script[i]) ==> Bit7(script[j])
  {
    match PollUntil(script, 0, true)
    case None =>
      PollUntilNone(script, 0, true);
    case Some(k) =>
      PollUntilFinds(script, 0, true);
      if PollUntil(script, k, false).None? {
        PollUntilNone(script, k, false);
        forall i, j | 0 <= i < j < |script| && Bit7(script[i])
          ensures Bit7(script[j])
        {
          assert k - 1 <= i;
        }
      } else {
        PollUntilFinds(script, k, false);
        var n := PollUntil(script, k, false).value;
        assert Bit7(script[k - 1]) && !Bit7(script[n - 1]);
      }
  }

  /** The wait, on the alternate register set (`exx`) so that B, C, D, E
      and HL of the transfer survive it. Returns whether the falling edge
      was seen within the script, and the last status byte, which the poll
      leaves in A (swapped out to A' by the surrounding `ex af, af`). */
  method WaitVdisp(hw: X1) returns (synced: bool, last: byte)
    modifies hw
    ensures hw.trace == old(hw.trace)
    ensures synced == VsyncWait(old(hw.vdisp)).Some?
    ensures synced ==> var n := VsyncWait(old(hw.vdisp)).value;
      hw.vdisp == old(hw.vdisp)[n..] && last == old(hw.vdisp)[n - 1]
    ensures !synced ==> hw.vdisp == []
  {
    ghost var script := hw.vdisp;
    var i := 0;
    synced, last := false, 0;
    // vdisp0: in a, (c) / jp p, vdisp0 -- wait while bit 7 is clear
    while true
      invariant hw.trace == old(hw.trace)
      invariant 0 <= i <= |script| && hw.vdisp == script[i..]
      invariant PollUntil(script, i, true) == PollUntil(script, 0, true)
      decreases |script| - i
    {
      if hw.vdisp == [] {
        return;
      }
      last := hw.InVdisp();
      i := i + 1;
      if Bit7(last) {
        break;
      }
    }
    assert PollUntil(script, 0, true) == Some(i);
    // vdisp1: in a, (c) / jp m, vdisp1 -- wait while bit 7 is set
    while true
      invariant hw.trace == old(hw.trace)
      invariant 0 < i <= |script| && hw.vdisp == script[i..] && last == script[i - 1]
      invariant PollUntil(script, i, false) == VsyncWait(script)
      decreases |script| - i
    {
      if hw.vdisp == [] {
        return;
      }
      last := hw.InVdisp();
      i := i + 1;
      if !Bit7(last) {
        break;
      }
    }
    synced := true;
  }
}
