/** `main` of the loader (setpcg.c:268-343) put together: the argument
    loop, the load of the glyph file, and the preview. The file and the
    memory `malloc` returns are parameters; the messages printed to the
    console are not modelled. */
module Program {
  import opened Base
  import opened Hardware
  import opened Vsync
  import opened Vram
  import opened Loader
  import opened CommandLine
  import opened Preview

  /** How `main` ends: the usage message and `abort()`, "not found" and
      `abort()`, hanging in a V-DISP wait, or returning 0. */
  datatype Outcome = UsageAbort | NotFound | Stalled | Finished

  /** The buffer `setpcg` gets: `fread` puts the first 6144 bytes of the
      file into the fresh `malloc` block `heap`, which keeps whatever it
      held past the end of a shorter file. */
  function ReadBuffer(contents: seq<byte>, heap: seq<byte>): (buf: seq<byte>)
    requires |heap| == PCG_BYTES
    ensures |buf| == PCG_BYTES
    ensures forall k :: 0 <= k < PCG_BYTES ==> buf[k] == if k < |contents| then contents[k] else heap[k]
  {
    if |contents| >= PCG_BYTES then contents[..PCG_BYTES] else contents + heap[|contents|..]
  }

  /** Everything a run that returns 0 outputs: the load when a file is
      named, then the preview when one is asked for. */
  function RunWrites(filename: Option<string>, mode: PreviewMode, buf: seq<byte>): seq<Write>
    requires |buf| == PCG_BYTES
  {
    (if filename.Some? then DefineWrites(buf) else [])
      + (if mode == NoPreview then [] else PreviewUpTo(mode == Wide, CODES))
  }

  /** `main(argc, argv)` with `args` = argv[1..]. `file` is the content of
      the named file, or None when `fopen` fails. */
  method LoaderMain(hw: X1, args: seq<string>, file: Option<seq<byte>>, heap: seq<byte>) returns (outcome: Outcome)
    requires |args| < 0xff && |heap| == PCG_BYTES
    modifies hw
    ensures outcome == UsageAbort <==> Parse(args) == Usage
    ensures outcome == NotFound <==> Parse(args).Run? && Parse(args).filename.Some? && file.None?
    ensures outcome == Stalled <==>
      Parse(args).Run? && Parse(args).filename.Some? && file.Some?
      && Completed(old(hw.vdisp), ROUNDS) < ROUNDS
    ensures outcome == UsageAbort || outcome == NotFound ==> hw.trace == old(hw.trace)
    ensures outcome == Stalled ==>
      var buf := ReadBuffer(if file.Some? then file.value else [], heap);
      hw.trace == old(hw.trace) + StalledWrites(buf, Completed(old(hw.vdisp), ROUNDS))
    ensures outcome == Finished ==>
      var buf := ReadBuffer(if file.Some? then file.value else [], heap);
      hw.trace == old(hw.trace) + RunWrites(Parse(args).filename, Parse(args).mode, buf)
    ensures hw.vdisp ==
      if Parse(args).Run? && Parse(args).filename.Some? && file.Some? then Remaining(old(hw.vdisp), ROUNDS)
      else old(hw.vdisp)
  {
    var parsed := ParseArgs(args);
    if parsed == Usage {
      return UsageAbort;
    }
    ghost var t0 := hw.trace;
    var buf := ReadBuffer(if file.Some? then file.value else [], heap);
    if parsed.filename.Some? {
      if file.None? {
        return NotFound;
      }
      var done := DefinePcg(hw, buf);
      if !done {
        return Stalled;
      }
    }
    ghost var loaded := hw.trace;
    if parsed.mode != NoPreview {
      ShowPreview(hw, parsed.mode == Wide);
    }
    RunStep(t0, loaded, hw.trace, parsed.filename, parsed.mode, buf);
    outcome := Finished;
  }

  lemma RunStep(t0: seq<Write>, t1: seq<Write>, t2: seq<Write>, filename: Option<string>, mode: PreviewMode, buf: seq<byte>)
    requires |buf| == PCG_BYTES
    requires t1 == t0 + (if filename.Some? then DefineWrites(buf) else [])
    requires t2 == t1 + (if mode == NoPreview then [] else PreviewUpTo(mode == Wide, CODES))
    ensures t2 == t0 + RunWrites(filename, mode, buf)
  {
  }
}
