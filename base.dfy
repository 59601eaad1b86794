/** Values shared by the loader and the encoder. */
module Base {

  /** An 8-bit value: a Z80 register, one byte of glyph data. */
  type byte = x: int | 0 <= x < 0x100

  /** 8-bit decrement and increment, wrapping as Z80 `dec`/`inc` and C
      `uint8_t` arithmetic do. */
  function Dec8(x: byte): byte {
    if x == 0 then 0xff else x - 1
  }

  function Inc8(x: byte): byte {
    if x == 0xff then 0 else x + 1
  }

  /** `x + k` truncated to 8 bits, as passing an `int` sum to a `uint8_t`
      parameter does. */
  function Add8(x: byte, k: byte): byte {
    if x + k < 0x100 then x + k else x + k - 0x100
  }

  lemma Add8IsModular(x: byte, k: byte)
    ensures Add8(x, k) == (x + k) % 0x100
  {
  }

  datatype Option<T> = None | Some(value: T)

  /** The concatenation of the pieces, in order (Ruby's `join`/`flatten`). */
  function Flatten<T>(s: seq<seq<T>>): seq<T>
    decreases |s|
  {
    if s == [] then [] else s[0] + Flatten(s[1..])
  }

  /** Pieces of one common length `len` concatenate to `|s| * len` items,
      item `r` of piece `k` landing at offset `k * len + r`. */
  lemma {:induction false} FlattenUniform<T>(s: seq<seq<T>>, len: nat, k: nat, r: nat)
    requires forall i :: 0 <= i < |s| ==> |s[i]| == len
    requires k < |s| && r < len
    ensures |Flatten(s)| == |s| * len
    ensures k * len + r < |Flatten(s)| && Flatten(s)[k * len + r] == s[k][r]
    decreases |s|
  {
    FlattenLength(s, len);
    if k > 0 {
      FlattenUniform(s[1..], len, k - 1, r);
      assert k * len + r == len + ((k - 1) * len + r);
    }
  }

  lemma {:induction false} FlattenLength<T>(s: seq<seq<T>>, len: nat)
    requires forall i :: 0 <= i < |s| ==> |s[i]| == len
    ensures |Flatten(s)| == |s| * len
    decreases |s|
  {
    if s != [] {
      FlattenLength(s[1..], len);
      assert |s| * len == len + (|s| - 1) * len;
    }
  }

  /** Every item of the concatenation comes from one of the pieces. */
  lemma {:induction false} FlattenIn<T>(s: seq<seq<T>>, x: T)
    requires x in Flatten(s)
    ensures exists i :: 0 <= i < |s| && x in s[i]
    decreases |s|
  {
    if x !in s[0] {
      FlattenIn(s[1..], x);
      var i :| 0 <= i < |s[1..]| && x in s[1..][i];
      assert x in s[i + 1];
    }
  }
}
