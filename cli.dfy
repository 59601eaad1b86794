/** The argument loop of `main` (setpcg.c:275-292): `-v`/`-V` asks for the
    preview, `-w`/`-W` for the double-width preview, the first other
    argument is the file name; an unknown option, a second file name, or
    neither a file name nor a preview flag ends in the usage message and
    `abort()`. */
module CommandLine {
  import opened Base

  /** `opt_preview`: 0, 1 or 2. */
  datatype PreviewMode = NoPreview | Single | Wide

  /** The state of the loop after some arguments, or the usage abort. */
  datatype Scanned =
    | Aborted
    | Going(filename: Option<string>, mode: PreviewMode)

  /** What `main` goes on to do: print the usage and abort, or load
      `filename` (when present) and then show the preview `mode`. */
  datatype Parsed =
    | Usage
    | Run(filename: Option<string>, mode: PreviewMode)

  /** `*(argv[i]) == '-'`: an empty argument starts with its terminating
      NUL, so it is not an option. */
  predicate IsOption(arg: string) {
    |arg| > 0 && arg[0] == '-'
  }

  /** The preview mode an option selects, or None for an unknown option. */
  function FlagMode(arg: string): Option<PreviewMode> {
    if arg == "-v" || arg == "-V" then Some(Single)
    else if arg == "-w" || arg == "-W" then Some(Wide)
    else None
  }

  /** One pass of the loop body. */
  function Step(st: Scanned, arg: string): Scanned {
    match st
    case Aborted => Aborted
    case Going(filename, mode) =>
      if IsOption(arg) then
        match FlagMode(arg)
        case Some(m) => Going(filename, m)
        case None => Aborted
      else if filename.None? then Going(Some(arg), mode)
      else Aborted
  }

  /** The loop over `argv[1..argc-1]`, from `filename = NULL` and
      `opt_preview = 0`. */
  function Scan(args: seq<string>): Scanned
    decreases |args|
  {
    if args == [] then Going(None, NoPreview)
    else Step(Scan(args[..|args| - 1]), args[|args| - 1])
  }

  /** The loop and the check after it. */
  function Parse(args: seq<string>): Parsed {
    match Scan(args)
    case Aborted => Usage
    case Going(filename, mode) =>
      if filename.None? && mode == NoPreview then Usage else Run(filename, mode)
  }

  /** The arguments that are not options, in order. */
  function Positionals(args: seq<string>): (ps: seq<string>)
    ensures |ps| <= |args|
    decreases |args|
  {
    if args == [] then []
    else
      var rest := Positionals(args[..|args| - 1]);
      if IsOption(args[|args| - 1]) then rest else rest + [args[|args| - 1]]
  }

  /** The mode of the last option, NoPreview when there is none. */
  function LastMode(args: seq<string>): PreviewMode
    decreases |args|
  {
    if args == [] then NoPreview
    else if IsOption(args[|args| - 1]) && FlagMode(args[|args| - 1]).Some? then FlagMode(args[|args| - 1]).value
    else LastMode(args[..|args| - 1])
  }

  /** Every option is one of the four known flags. */
  predicate OptionsKnown(args: seq<string>) {
    forall i :: 0 <= i < |args| && IsOption(args[i]) ==> FlagMode(args[i]).Some?
  }

  /** The loop aborts exactly when an option is unknown or a second file
      name turns up; otherwise it ends with the only non-option as the file
      name and the mode of the last flag. */
  lemma {:induction false} ScanMeaning(args: seq<string>)
    ensures Scan(args) ==
      if OptionsKnown(args) && |Positionals(args)| <= 1 then
        Going(if Positionals(args) == [] then None else Some(Positionals(args)[0]), LastMode(args))
      else Aborted
    decreases |args|
  {
    if args != [] {
      var init := args[..|args| - 1];
      var arg := args[|args| - 1];
      ScanMeaning(init);
      assert forall i :: 0 <= i < |init| ==> init[i] == args[i];
      if !OptionsKnown(init) {
        var i :| 0 <= i < |init| && IsOption(init[i]) && FlagMode(init[i]).None?;
        assert IsOption(args[i]) && FlagMode(args[i]).None?;
      } else if IsOption(arg) && FlagMode(arg).None? {
        assert IsOption(args[|args| - 1]) && FlagMode(args[|args| - 1]).None?;
      } else {
        assert OptionsKnown(args);
      }
    }
  }

  /** Some option is a known flag. */
  predicate HasFlag(args: seq<string>) {
    exists i :: 0 <= i < |args| && IsOption(args[i]) && FlagMode(args[i]).Some?
  }

  /** The last flag's mode is a preview exactly when there is a flag. */
  lemma {:induction false} LastModeFlag(args: seq<string>)
    ensures LastMode(args) != NoPreview <==> HasFlag(args)
    decreases |args|
  {
    if args != [] {
      var init := args[..|args| - 1];
      LastModeFlag(init);
      assert forall i :: 0 <= i < |init| ==> init[i] == args[i];
      if HasFlag(args) && !(IsOption(args[|args| - 1]) && FlagMode(args[|args| - 1]).Some?) {
        var i :| 0 <= i < |args| && IsOption(args[i]) && FlagMode(args[i]).Some?;
        assert i < |init| && IsOption(init[i]) && FlagMode(init[i]).Some?;
      }
    }
  }

  /** `main` runs exactly when every option is known, at most one argument
      is not an option, and there is a file name or a flag; the file name
      is that argument and the preview that of the last flag. */
  lemma ParseMeaning(args: seq<string>)
    ensures Parse(args).Run? <==>
      OptionsKnown(args) && |Positionals(args)| <= 1 && (|Positionals(args)| == 1 || HasFlag(args))
    ensures Parse(args).Run? ==>
      Parse(args).filename == (if Positionals(args) == [] then None else Some(Positionals(args)[0]))
      && Parse(args).mode == LastMode(args)
  {
    ScanMeaning(args);
    LastModeFlag(args);
  }

  /** A later flag overrides an earlier one: appending a flag sets the
      mode and keeps the file name. */
  lemma LaterFlagWins(args: seq<string>, flag: string)
    requires Parse(args).Run? && FlagMode(flag).Some? && IsOption(flag)
    ensures Parse(args + [flag]) == Run(Parse(args).filename, FlagMode(flag).value)
  {
    assert (args + [flag])[..|args|] == args;
  }

  /** The loop (setpcg.c:278-290). The `uint8_t` index limits the model to
      at most 254 arguments after the program name. */
  method ParseArgs(args: seq<string>) returns (r: Parsed)
    requires |args| < 0xff
    ensures r == Parse(args)
  {
    var filename: Option<string> := None;
    var mode := NoPreview;
    var i := 0;
    while i < |args|
      invariant i <= |args|
      invariant Scan(args[..i]) == Going(filename, mode)
    {
      assert args[..i + 1][..i] == args[..i];
      var arg := args[i];
      if |arg| > 0 && arg[0] == '-' {
        if arg == "-v" || arg == "-V" {
          mode := Single;
        } else if arg == "-w" || arg == "-W" {
          mode := Wide;
        } else {
          AbortedStays(args, i + 1);
          return Usage;
        }
      } else if filename.None? {
        filename := Some(arg);
      } else {
        AbortedStays(args, i + 1);
        return Usage;
      }
      i := i + 1;
    }
    assert args[..i] == args;
    if filename.None? && mode == NoPreview {
      return Usage;
    }
    r := Run(filename, mode);
  }

  /** Once aborted, the rest of the arguments do not matter. */
  lemma {:induction false} AbortedStays(args: seq<string>, i: nat)
    requires i <= |args| && Scan(args[..i]) == Aborted
    ensures Parse(args) == Usage
    decreases |args| - i
  {
    if i == |args| {
      assert args[..i] == args;
    } else {
      assert args[..i + 1][..i] == args[..i];
      AbortedStays(args, i + 1);
    }
  }
}
