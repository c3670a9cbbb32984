/** The command line of rtrace: the option loop with its boolean-switch rule, the
    checks between options that come after the loop, the error-line prefixer and
    the `-x` label of the defaults listing. The render options, argument-type
    checks, number parsing and word files the loop calls into are parameters. */
module RtMain {
  import opened RtError
  import Rtrace

  /** `argv[i][k]`, with the terminating NUL past the end of the word. */
  function CharAt(w: string, k: nat): char
  {
    if k < |w| then w[k] else '\0'
  }

  /** check_bool: the switch character after an option's name toggles, sets or clears
      the flag; anything else is a command-line error (`None`). */
  function CheckBool(c: char, v: bool): Option<bool>
  {
    match c
    case '\0' => Some(!v)
    case 'y' | 'Y' | 't' | 'T' | '+' | '1' => Some(true)
    case 'n' | 'N' | 'f' | 'F' | '-' | '0' => Some(false)
    case _ => None
  }

  /** The three kinds of switch character, and nothing else. */
  lemma CheckBoolRule(c: char, v: bool)
    ensures c == '\0' ==> CheckBool(c, v) == Some(!v)
    ensures c in "yYtT+1" ==> CheckBool(c, v) == Some(true)
    ensures c in "nNfF-0" ==> CheckBool(c, v) == Some(false)
    ensures CheckBool(c, v).None? <==> c !in "\0yYtT+1nNfF-0"
  {
  }

  /** Setting and clearing are idempotent; toggling twice restores the flag. */
  lemma CheckBoolTwice(c: char, v: bool)
    requires CheckBool(c, v).Some?
    ensures CheckBool(c, CheckBool(c, v).value) == (if c == '\0' then Some(v) else CheckBool(c, v))
  {
  }

  datatype Persist = NoPersist | Persist | Parallel

  /** The settings the option loop writes (`nproc`, `hresolu`, ..., the trace list and
      the persist mode); `warnings` says whether warnings are printed and `header`
      whether the octree header is copied out. */
  datatype Opts = Opts(
    nproc: int, hresolu: int, vresolu: int, warnings: bool, errfile: Option<string>,
    limDist: bool, immIrrad: bool, inform: char, outform: char, outvals: string,
    header: bool, traincl: int, tralist: seq<string>, persist: Persist, persistFile: Option<string>)

  /** The initial values of the globals. */
  const DEFAULTS: Opts := Opts(1, 0, 0, true, None, false, false, 'a', 'a', "v", true, -1, [], NoPersist, None)

  /** What the loop calls into: getrenderopt (the number of extra words a render
      option takes, negative when the word is not one), the per-type test badarg makes
      of an option's argument, atoi, the words of a trace list file (`None` when it
      cannot be opened), and whether expandarg fails on word `i` of the argument
      vector (the vector is the one the loop sees after its expansions). */
  datatype Env = Env(
    renderopt: seq<string> -> int, argOk: (char, string) -> bool,
    atoi: string -> int, wordfile: string -> Option<seq<string>>,
    expandFails: (seq<string>, nat) -> bool)

  /** The outcome of one option: the settings and the next word, with warnings; or an
      exit (`-version`, `-defaults`, `-help`); or a fatal error. */
  datatype Shown = Version | Defaults
  datatype Parsed = Next(o: Opts, i: nat, notes: seq<string>) | Quit(shown: Shown) | Stop(fatal: Fatal)

  const DEPRECATED: string := "GPU callback time (-t) is depricated."
  const BAD_NPROC: string := "bad number of processes"
  const VERSION_OPT: string := "-version"
  const DEFAULTS_OPT: string := "-defaults"
  const HELP_OPT: string := "-help"
  const CMD_ERROR: string := "command line error at '"
  const CANNOT_OPEN_INCLUDE: string := "cannot open trace include file \""
  const CANNOT_OPEN_EXCLUDE: string := "cannot open trace exclude file \""
  const CANNOT_EXPAND: string := "cannot expand '"

  function ExpandError(w: string): Fatal
  {
    Fatal(System, CANNOT_EXPAND + w + ['\''])
  }

  function BadOpt(w: string): Parsed
  {
    Stop(Fatal(User, CommandLineError(w)))
  }

  function CommandLineError(w: string): string
  {
    CMD_ERROR + w + ['\'']
  }

  /** badarg succeeds: each type letter of `fl` has a word, and the word passes its test. */
  function ArgsOk(rest: seq<string>, fl: string, ok: (char, string) -> bool): (r: bool)
    ensures r ==> |rest| >= |fl|
  {
    if fl == [] then true else |rest| > 0 && ok(fl[0], rest[0]) && ArgsOk(rest[1..], fl[1..], ok)
  }

  /** check(ol, al): the option word ends at `ol` and its arguments pass badarg. */
  predicate Check(args: seq<string>, i: nat, ol: nat, al: string, env: Env)
    requires i < |args|
  {
    CharAt(args[i], ol) == '\0' && ArgsOk(args[i + 1..], al, env.argOk)
  }

  /** The `-f` option: the third character picks the input format, the fourth (if any,
      and then last) the output format, which otherwise follows the input format. */
  function FormatOption(o: Opts, w: string): Option<Opts>
  {
    var c2, c3 := CharAt(w, 2), CharAt(w, 3);
    if c2 !in "afd" then None
    else if c3 == '\0' then Some(o.(inform := c2, outform := c2))
    else if c3 in "afdc" && CharAt(w, 4) == '\0' then Some(o.(inform := c2, outform := c3))
    else None
  }

  /** The `-f` rule stated on the word: `-fX` and `-fXY` for input format X in a, f, d
      and output format Y in a, f, d, c; nothing else. */
  lemma FormatRule(o: Opts, w: string)
    requires |w| >= 2 && w[..2] == "-f" && forall k :: 0 <= k < |w| ==> w[k] != '\0'
    ensures FormatOption(o, w).Some? <==>
      (|w| == 3 && w[2] in "afd") || (|w| == 4 && w[2] in "afd" && w[3] in "afdc")
    ensures FormatOption(o, w).Some? ==>
      FormatOption(o, w).value == o.(inform := w[2], outform := w[|w| - 1])
  {
    if FormatOption(o, w).Some? {
      assert w[2] != '\0';
      if CharAt(w, 3) != '\0' {
        assert |w| == 4;
      }
    }
  }

  /** The `-ti`, `-tI`, `-te`, `-tE` and `-t` options. Switching between include and
      exclude starts the list afresh; the same mode adds to it. */
  function TraceOption(o: Opts, args: seq<string>, i: nat, env: Env): Parsed
    requires i < |args|
  {
    var w := args[i];
    var c := CharAt(w, 2);
    if c in "iIeE" then
      if !Check(args, i, 3, "s", env) then BadOpt(w)
      else
        var mode := if c in "iI" then 1 else 0;
        var base := if o.traincl != mode then [] else o.tralist;
        if c in "IE" then
          match env.wordfile(args[i + 1])
          case None => Stop(Fatal(System, (if mode == 1 then CANNOT_OPEN_INCLUDE else CANNOT_OPEN_EXCLUDE) + args[i + 1] + ['"']))
          case Some(words) => Next(o.(traincl := mode, tralist := base + words), i + 2, [])
        else Next(o.(traincl := mode, tralist := base + [args[i + 1]]), i + 2, [])
    else if c == '\0' then
      if !Check(args, i, 2, "f", env) then BadOpt(w) else Next(o, i + 2, [DEPRECATED])
    else BadOpt(w)
  }

  /** The `-P` and `-PP` options: persistence, or parallel persistence, with a file. */
  function PersistOption(o: Opts, args: seq<string>, i: nat, env: Env): Parsed
    requires i < |args|
  {
    var parallel := CharAt(args[i], 2) == 'P';
    if !Check(args, i, if parallel then 3 else 2, "s", env) then BadOpt(args[i])
    else Next(o.(persist := if parallel then Parallel else Persist, persistFile := Some(args[i + 1])), i + 2, [])
  }

  /** An option with one integer argument (`-n`, `-x`, `-y`): its value, or `None` on a
      command-line error. */
  function IntArg(args: seq<string>, i: nat, env: Env): Option<int>
    requires i < |args|
  {
    if Check(args, i, 2, "i", env) then Some(env.atoi(args[i + 1])) else None
  }

  /** A switch option: the flag after it, or `None` on a command-line error. */
  function Switch(w: string, ol: nat, v: bool): Option<bool>
  {
    CheckBool(CharAt(w, ol), v)
  }

  /** One pass of the option loop on the option word `args[i]`. */
  function Step(o: Opts, args: seq<string>, i: nat, env: Env): (r: Parsed)
    requires i < |args|
    ensures r.Next? ==> r.i > i
  {
    var w := args[i];
    if w == VERSION_OPT then Quit(Version)
    else if w == DEFAULTS_OPT || w == HELP_OPT then Quit(Defaults)
    else if env.renderopt(args[i..]) >= 0 then Next(o, i + env.renderopt(args[i..]) + 1, [])
    else match CharAt(w, 1)
      case 'n' =>
        (match IntArg(args, i, env)
         case None => BadOpt(w)
         case Some(n) => if n <= 0 then Stop(Fatal(User, BAD_NPROC)) else Next(o.(nproc := n), i + 2, []))
      case 'x' => (match IntArg(args, i, env) case None => BadOpt(w) case Some(n) => Next(o.(hresolu := n), i + 2, []))
      case 'y' => (match IntArg(args, i, env) case None => BadOpt(w) case Some(n) => Next(o.(vresolu := n), i + 2, []))
      case 'w' => (match Switch(w, 2, o.warnings) case None => BadOpt(w) case Some(b) => Next(o.(warnings := b), i + 1, []))
      case 'e' => if Check(args, i, 2, "s", env) then Next(o.(errfile := Some(args[i + 1])), i + 2, []) else BadOpt(w)
      case 'l' =>
        if CharAt(w, 2) != 'd' then BadOpt(w)
        else (match Switch(w, 3, o.limDist) case None => BadOpt(w) case Some(b) => Next(o.(limDist := b), i + 1, []))
      case 'I' => (match Switch(w, 2, o.immIrrad) case None => BadOpt(w) case Some(b) => Next(o.(immIrrad := b), i + 1, []))
      case 'f' => (match FormatOption(o, w) case None => BadOpt(w) case Some(o2) => Next(o2, i + 1, []))
      case 'o' => Next(o.(outvals := if |w| >= 2 then w[2..] else []), i + 1, [])
      case 'h' => (match Switch(w, 2, o.header) case None => BadOpt(w) case Some(b) => Next(o.(header := b), i + 1, []))
      case 't' => TraceOption(o, args, i, env)
      case 'P' => PersistOption(o, args, i, env)
      case _ => BadOpt(w)
  }

  /** The end of the option loop: the settings, the first word that is not an
      option, and the warnings issued. */
  datatype Options = Done(o: Opts, i: nat, notes: seq<string>) | Exit(shown: Shown) | Failed(fatal: Fatal)

  predicate IsOption(args: seq<string>, i: nat)
  {
    i < |args| && |args[i]| > 0 && args[i][0] == '-'
  }

  /** The option loop from word `i` on: each pass first expands the word, then stops
      at the first word that is not an option. */
  function ParseFrom(o: Opts, args: seq<string>, i: nat, notes: seq<string>, env: Env): Options
    decreases |args| - i
  {
    if i >= |args| then Done(o, i, notes)
    else if env.expandFails(args, i) then Failed(ExpandError(args[i]))
    else if !IsOption(args, i) then Done(o, i, notes)
    else match Step(o, args, i, env)
      case Next(o2, i2, n2) => ParseFrom(o2, args, i2, notes + n2, env)
      case Quit(shown) => Exit(shown)
      case Stop(fatal) => Failed(fatal)
  }

  /** A word expandarg cannot expand stops the loop with a system error naming it,
      before the word is looked at; a word that expands and is no option ends the
      loop there. */
  lemma ExpandRule(o: Opts, args: seq<string>, i: nat, notes: seq<string>, env: Env)
    requires i < |args|
    ensures env.expandFails(args, i) ==>
      ParseFrom(o, args, i, notes, env) == Failed(Fatal(System, "cannot expand '" + args[i] + "'"))
    ensures !env.expandFails(args, i) && !IsOption(args, i) ==> ParseFrom(o, args, i, notes, env) == Done(o, i, notes)
  {
  }

  /** `-n` with a count that is not positive is a user error. */
  lemma NprocPositive(o: Opts, args: seq<string>, i: nat, env: Env)
    requires i < |args| && args[i] == "-n" && env.renderopt(args[i..]) < 0
    requires i + 1 < |args| && env.argOk('i', args[i + 1])
    ensures env.atoi(args[i + 1]) <= 0 ==> Step(o, args, i, env) == Stop(Fatal(User, BAD_NPROC))
    ensures env.atoi(args[i + 1]) > 0 ==> Step(o, args, i, env) == Next(o.(nproc := env.atoi(args[i + 1])), i + 2, [])
  {
    assert ArgsOk(args[i + 1..][1..], "i"[1..], env.argOk);
  }

  /** `-PP` selects parallel persistence, `-P` plain persistence, each with the next
      word as its file. */
  lemma PersistRule(o: Opts, args: seq<string>, i: nat, env: Env)
    requires i + 1 < |args| && env.argOk('s', args[i + 1]) && (args[i] == "-P" || args[i] == "-PP")
    ensures PersistOption(o, args, i, env) ==
      Next(o.(persist := if args[i] == "-PP" then Parallel else Persist, persistFile := Some(args[i + 1])), i + 2, [])
  {
    assert ArgsOk(args[i + 1..][1..], "s"[1..], env.argOk);
  }

  /** The trace list options `-ti name`, `-tI file`, `-te name`, `-tE file`: include
      (1) or exclude (0) mode; a change of mode starts the list afresh and the same
      mode adds the name, or the words of the file, to it; a file that cannot be
      opened is a system error. */
  lemma TraceListRule(o: Opts, args: seq<string>, i: nat, env: Env)
    requires i + 1 < |args| && args[i] in ["-ti", "-tI", "-te", "-tE"]
    requires env.argOk('s', args[i + 1]) && env.renderopt(args[i..]) < 0
    ensures var mode := if args[i][2] in "iI" then 1 else 0;
      var base := if o.traincl != mode then [] else o.tralist;
      var added := if args[i][2] in "ie" then Some([args[i + 1]]) else env.wordfile(args[i + 1]);
      && (added.Some? ==> Step(o, args, i, env) == Next(o.(traincl := mode, tralist := base + added.value), i + 2, []))
      && (added.None? ==> Step(o, args, i, env).Stop? && Step(o, args, i, env).fatal.kind == System)
  {
    assert ArgsOk(args[i + 1..][1..], "s"[1..], env.argOk);
    assert |args[i]| == 3 && CharAt(args[i], 1) == 't' && CharAt(args[i], 3) == '\0';
  }

  const GPU_CONFLICT: string := "multiprocessing incompatible with GPU implementation"
  const PERSIST_CONFLICT: string := "multiprocessing incompatible with persist file"
  const TOO_MANY_CORES: string := "number of cores should not exceed horizontal resolution"
  const TRACE_CONFLICT: string := "multiprocessing does not work properly with trace mode"

  /** The checks after the option loop, for `useOptix` (the GPU implementation is on)
      and `traced` (a trace call-back is installed): the warnings and the error. */
  function Compatibility(o: Opts, useOptix: bool, traced: bool): (seq<string>, Option<Fatal>)
  {
    if o.nproc <= 1 then ([], None)
    else if useOptix then ([], Some(Fatal(User, GPU_CONFLICT)))
    else if o.persist != NoPersist then ([], Some(Fatal(User, PERSIST_CONFLICT)))
    else
      ((if o.vresolu == 0 && 0 < o.hresolu < o.nproc then [TOO_MANY_CORES] else []) +
       (if traced then [TRACE_CONFLICT] else []), None)
  }

  /** With several processes only the GPU path and persistence are errors (the GPU
      first); a resolution or trace conflict is only a warning, and a single
      process passes all checks. */
  lemma CompatibilityRules(o: Opts, useOptix: bool, traced: bool)
    ensures o.nproc <= 1 ==> Compatibility(o, useOptix, traced) == ([], None)
    ensures Compatibility(o, useOptix, traced).1.Some? <==> o.nproc > 1 && (useOptix || o.persist != NoPersist)
    ensures Compatibility(o, useOptix, traced).1 == Some(Fatal(User, GPU_CONFLICT)) <==> o.nproc > 1 && useOptix
    ensures Compatibility(o, useOptix, traced).1.None? ==>
      (TOO_MANY_CORES in Compatibility(o, useOptix, traced).0 <==> o.nproc > 1 && o.vresolu == 0 && 0 < o.hresolu < o.nproc) &&
      (TRACE_CONFLICT in Compatibility(o, useOptix, traced).0 <==> o.nproc > 1 && traced)
  {
  }

  const MISSING_OCTREE: string := "missing octree argument"

  /** The words after the options: at most one, the octree. */
  function Octree(args: seq<string>, i: nat): Result<string>
  {
    if i >= |args| then Err(Fatal(User, MISSING_OCTREE))
    else if i == |args| - 1 then Ok(args[i])
    else Err(Fatal(User, CommandLineError(args[i])))
  }

  /** The octree is accepted exactly when it is the one word left; otherwise the error
      is a user error, reporting the missing octree exactly when no word is left. */
  lemma OctreeRule(args: seq<string>, i: nat, w: string)
    requires i <= |args|
    ensures Octree(args, i) == Ok(w) <==> args[i..] == [w]
    ensures Octree(args, i).Err? ==> Octree(args, i).fatal.kind == User
    ensures Octree(args, i).Err? ==> (Octree(args, i).fatal.message == MISSING_OCTREE <==> args[i..] == [])
  {
    if i < |args| {
      assert args[i..][0] == args[i];
      assert CommandLineError(args[i])[..|CMD_ERROR|] == CMD_ERROR;
    }
  }

  /** The settings of rtrace, as the option loop writes them. */
  class CommandLine {
    var opts: Opts
    var notes: seq<string>

    constructor ()
      ensures opts == DEFAULTS && notes == []
    {
      opts := DEFAULTS;
      notes := [];
    }

    /** The option loop of main, from the first argument after the program name. */
    method ParseOptions(args: seq<string>, env: Env) returns (r: Options)
      requires |args| >= 1
      modifies this
      ensures r == ParseFrom(old(opts), args, 1, old(notes), env)
      ensures r.Done? ==> opts == r.o && notes == r.notes
    {
      var i: nat := 1;
      while i < |args|
        invariant ParseFrom(old(opts), args, 1, old(notes), env) == ParseFrom(opts, args, i, notes, env)
        decreases |args| - i
      {
        if env.expandFails(args, i) {
          return Failed(ExpandError(args[i]));
        }
        if !IsOption(args, i) {
          break;
        }
        var p := ApplyOption(args, i, env);
        if !p.Next? {
          return if p.Quit? then Exit(p.shown) else Failed(p.fatal);
        }
        i := p.i;
      }
      r := Done(opts, i, notes);
    }

    /** One pass of the loop on `args[i]`: updates the settings when it succeeds. */
    method ApplyOption(args: seq<string>, i: nat, env: Env) returns (p: Parsed)
      requires i < |args|
      modifies this
      ensures p == Step(old(opts), args, i, env)
      ensures p.Next? ==> opts == p.o && notes == old(notes) + p.notes
    {
      var w := args[i];
      if w == VERSION_OPT {
        return Quit(Version);
      }
      if w == DEFAULTS_OPT || w == HELP_OPT {
        return Quit(Defaults);
      }
      var rval := env.renderopt(args[i..]);
      if rval >= 0 {
        return Next(opts, i + rval + 1, []);
      }
      match CharAt(w, 1)
      case 'n' =>
        var n := IntArg(args, i, env);
        if n.None? {
          return BadOpt(w);
        }
        if n.value <= 0 {
          return Stop(Fatal(User, BAD_NPROC));
        }
        opts := opts.(nproc := n.value);
        p := Next(opts, i + 2, []);
      case 'x' =>
        var n := IntArg(args, i, env);
        if n.None? {
          return BadOpt(w);
        }
        opts := opts.(hresolu := n.value);
        p := Next(opts, i + 2, []);
      case 'y' =>
        var n := IntArg(args, i, env);
        if n.None? {
          return BadOpt(w);
        }
        opts := opts.(vresolu := n.value);
        p := Next(opts, i + 2, []);
      case 'w' =>
        var b := Switch(w, 2, opts.warnings);
        if b.None? {
          return BadOpt(w);
        }
        opts := opts.(warnings := b.value);
        p := Next(opts, i + 1, []);
      case 'e' =>
        if !Check(args, i, 2, "s", env) {
          return BadOpt(w);
        }
        opts := opts.(errfile := Some(args[i + 1]));
        p := Next(opts, i + 2, []);
      case 'l' =>
        if CharAt(w, 2) != 'd' {
          return BadOpt(w);
        }
        var b := Switch(w, 3, opts.limDist);
        if b.None? {
          return BadOpt(w);
        }
        opts := opts.(limDist := b.value);
        p := Next(opts, i + 1, []);
      case 'I' =>
        var b := Switch(w, 2, opts.immIrrad);
        if b.None? {
          return BadOpt(w);
        }
        opts := opts.(immIrrad := b.value);
        p := Next(opts, i + 1, []);
      case 'f' =>
        var f := FormatOption(opts, w);
        if f.None? {
          return BadOpt(w);
        }
        opts := f.value;
        p := Next(opts, i + 1, []);
      case 'o' =>
        opts := opts.(outvals := if |w| >= 2 then w[2..] else []);
        p := Next(opts, i + 1, []);
      case 'h' =>
        var b := Switch(w, 2, opts.header);
        if b.None? {
          return BadOpt(w);
        }
        opts := opts.(header := b.value);
        p := Next(opts, i + 1, []);
      case 't' =>
        p := TraceOption(opts, args, i, env);
        if p.Next? {
          opts := p.o;
          notes := notes + p.notes;
        }
      case 'P' =>
        p := PersistOption(opts, args, i, env);
        if p.Next? {
          opts := p.o;
        }
      case _ =>
        return BadOpt(w);
    }
  }

  /** The `# ...` label of `-x` in the defaults listing. */
  function XLabel(hresolu: int, vresolu: int): string
  {
    if vresolu != 0 && hresolu != 0 then "x resolution" else "flush interval"
  }

  /** For a row length above one, `-x` is called the flush interval exactly when
      rtrace does flush every `hresolu` rays. */
  lemma XLabelMeansFlushing(hresolu: int, vresolu: int)
    requires hresolu > 1
    ensures XLabel(hresolu, vresolu) == "flush interval" <==> Rtrace.FlushInterval(hresolu, vresolu) == hresolu
  {
  }

  /** eputs on strings `s`: what reaches the error stream and the new line state
      (the count of strings written since the last line end). */
  function Eput(progname: string, midline: nat, s: string): (nat, string)
  {
    if s == [] then (midline, [])
    else
      var text := (if midline == 0 then progname + ": " else []) + s;
      (if s[|s| - 1] == '\n' then 0 else midline + 1, text)
  }

  /** Several strings in a row. */
  function EputAll(progname: string, midline: nat, ss: seq<string>): (nat, string)
    decreases |ss|
  {
    if ss == [] then (midline, [])
    else
      var (m, t) := Eput(progname, midline, ss[0]);
      var (m2, t2) := EputAll(progname, m, ss[1..]);
      (m2, t + t2)
  }

  function Concat(ss: seq<string>): string
  {
    if ss == [] then [] else ss[0] + Concat(ss[1..])
  }

  /** One message line written piecewise: non-empty pieces, only the last of which ends
      the line, get the program name once, in front, and leave the stream at a line
      start; pieces continuing a line get no prefix. */
  lemma {:induction false} OneLine(progname: string, midline: nat, ss: seq<string>)
    requires |ss| > 0 && forall k :: 0 <= k < |ss| ==> ss[k] != []
    requires forall k :: 0 <= k < |ss| - 1 ==> ss[k][|ss[k]| - 1] != '\n'
    requires ss[|ss| - 1][|ss[|ss| - 1]| - 1] == '\n'
    ensures EputAll(progname, midline, ss) == (0, (if midline == 0 then progname + ": " else []) + Concat(ss))
    decreases |ss|
  {
    var head := Eput(progname, midline, ss[0]);
    var prefix := if midline == 0 then progname + ": " else [];
    assert head.1 == prefix + ss[0];
    var rest := EputAll(progname, head.0, ss[1..]);
    assert EputAll(progname, midline, ss) == (rest.0, head.1 + rest.1);
    assert Concat(ss) == ss[0] + Concat(ss[1..]);
    if |ss| > 1 {
      assert head.0 > 0;
      OneLine(progname, head.0, ss[1..]);
      assert [] + Concat(ss[1..]) == Concat(ss[1..]);
      AppendAssoc(prefix, ss[0], Concat(ss[1..]));
    } else {
      assert head.0 == 0 && ss[1..] == [];
      assert rest == (0, []) && Concat(ss[1..]) == [];
      assert head.1 + [] == head.1 && ss[0] + [] == ss[0];
    }
  }

  lemma AppendAssoc(a: string, b: string, c: string)
    ensures (a + b) + c == a + (b + c)
  {
  }

  /** The standard error stream of rtrace as eputs writes it. */
  class ErrorStream {
    const progname: string
    var midline: nat
    var text: string

    constructor (progname: string)
      ensures this.progname == progname && midline == 0 && text == []
    {
      this.progname := progname;
      midline := 0;
      text := [];
    }

    /** eputs: the program name starts each line; an empty string writes nothing. */
    method Eputs(s: string)
      modifies this
      ensures (midline, text) == (Eput(progname, old(midline), s).0, old(text) + Eput(progname, old(midline), s).1)
    {
      if s == [] {
        assert old(text) + [] == text;
        return;
      }
      var prefix := if midline == 0 then progname + ": " else [];
      midline := midline + 1;
      text := text + (prefix + s);
      if s[|s| - 1] == '\n' {
        midline := 0;
      }
    }
  }
}
