/** The output side of rtrace: the compiler of the `-o` output specification
    into the two tables of per-ray output fields (values, and trace output for
    every ray), the component count and the ray-casting-only flag; the guard of
    the per-ray value call-back; and the names of the data formats. */
module RtOutput {
  import opened RtError

  /** The per-ray output fields, one per letter of the specification
      (`oputo`, `oputd`, ... in the C code). */
  datatype Field =
    | Origin | Direction | Reflected | ReflectedLength | Unreflected | UnreflectedLength
    | Value | Contribution | Length | FirstLength | LocalCoords | Point | Normal
    | UnperturbedNormal | Surface | Weight | Coefficient | Modifier | Material | Tilde

  /** The field a specification letter selects; `t`, `T` and unknown letters select none. */
  function FieldOf(c: char): Option<Field>
  {
    match c
    case 'o' => Some(Origin)
    case 'd' => Some(Direction)
    case 'r' => Some(Reflected)
    case 'R' => Some(ReflectedLength)
    case 'x' => Some(Unreflected)
    case 'X' => Some(UnreflectedLength)
    case 'v' => Some(Value)
    case 'V' => Some(Contribution)
    case 'l' => Some(Length)
    case 'L' => Some(FirstLength)
    case 'c' => Some(LocalCoords)
    case 'p' => Some(Point)
    case 'n' => Some(Normal)
    case 'N' => Some(UnperturbedNormal)
    case 's' => Some(Surface)
    case 'w' => Some(Weight)
    case 'W' => Some(Coefficient)
    case 'm' => Some(Modifier)
    case 'M' => Some(Material)
    case '~' => Some(Tilde)
    case _ => None
  }

  function Letter(f: Field): char
  {
    match f
    case Origin => 'o'
    case Direction => 'd'
    case Reflected => 'r'
    case ReflectedLength => 'R'
    case Unreflected => 'x'
    case UnreflectedLength => 'X'
    case Value => 'v'
    case Contribution => 'V'
    case Length => 'l'
    case FirstLength => 'L'
    case LocalCoords => 'c'
    case Point => 'p'
    case Normal => 'n'
    case UnperturbedNormal => 'N'
    case Surface => 's'
    case Weight => 'w'
    case Coefficient => 'W'
    case Modifier => 'm'
    case Material => 'M'
    case Tilde => '~'
  }

  /** Letters and fields correspond one to one. */
  lemma LetterRoundTrip(f: Field, c: char)
    ensures FieldOf(Letter(f)) == Some(f)
    ensures FieldOf(c) == Some(f) ==> Letter(f) == c
    ensures Letter(f) != 't' && Letter(f) != 'T'
  {
  }

  /** The number of output components of a field. */
  function Components(f: Field): nat
  {
    match f
    case Origin | Direction | Reflected | Unreflected | Value | Contribution
      | Point | Normal | UnperturbedNormal | Coefficient => 3
    case LocalCoords => 2
    case Tilde => 0
    case _ => 1
  }

  /** Per letter: 3 components for o d r x v V p n N W, 1 for R X l L s w m M,
      2 for c and none for ~. */
  lemma ComponentTable(c: char)
    ensures c in "odrxvVpnNW" ==> FieldOf(c).Some? && Components(FieldOf(c).value) == 3
    ensures c in "RXlLswmM" ==> FieldOf(c).Some? && Components(FieldOf(c).value) == 1
    ensures c == 'c' ==> FieldOf(c).Some? && Components(FieldOf(c).value) == 2
    ensures c == '~' ==> FieldOf(c).Some? && Components(FieldOf(c).value) == 0
    ensures FieldOf(c).Some? <==> c in "odrxvVpnNWRXlLswmMc~"
  {
  }

  /** The fields that need the ray's value computed, so they end ray-casting-only mode. */
  predicate SetsValue(f: Field)
  {
    match f
    case Reflected | ReflectedLength | Unreflected | UnreflectedLength | Value | Contribution
      | Length | Normal | Coefficient => true
    case _ => false
  }

  /** The fields about the reflected and the unreflected ray. */
  predicate Reflection(f: Field)
  {
    match f
    case Reflected | ReflectedLength | Unreflected | UnreflectedLength => true
    case _ => false
  }

  const EMPTY_SPEC: string := "empty output specification"
  const COLOR_ONLY: string := "color format only with -ov, -or, -ox"
  const BOTCHED_FORMAT: string := "botched output format"
  const NEEDS_VALUE: string := "-I+ and -i+ options require some value output"
  const V_ACCURACY: string := "-otV accuracy depends on -aa 0 -as 0"
  const W_ACCURACY: string := "-otW accuracy depends on -aa 0 -as 0"
  const NEEDS_TRACE: string := "-oVW options require trace mode"
  const IRRADIANCE_CONFLICT: string := "-orRxX options incompatible with -I+ and -i+"

  function Unrecognized(c: char): string
  {
    "unrecognized output option '" + [c] + "'"
  }

  /** The compiler's state while it walks the specification: both tables, whether
      letters now go to the trace table, the flags, the component count and the
      warnings issued so far. */
  datatype Scan = Scan(rayOut: seq<Field>, everyOut: seq<Field>, tracing: bool, castonly: bool,
                       traceSources: bool, ncomp: nat, warnings: seq<string>)

  const START: Scan := Scan([], [], false, true, false, 0, [])

  /** The warnings for placing `V` or `W` when the ambient settings make them inexact
      (`ambWarn`: ambient bounces with a non-zero accuracy or super-samples). */
  function AccuracyWarnings(f: Field, ambWarn: bool): seq<string>
  {
    if ambWarn && f == Contribution then [V_ACCURACY]
    else if ambWarn && f == Coefficient then [W_ACCURACY]
    else []
  }

  /** A field letter: the field goes to the current table. */
  function Place(st: Scan, f: Field, ambWarn: bool): Scan
  {
    st.(rayOut := if st.tracing then st.rayOut else st.rayOut + [f],
        everyOut := if st.tracing then st.everyOut + [f] else st.everyOut,
        castonly := st.castonly && !SetsValue(f),
        ncomp := st.ncomp + Components(f),
        warnings := st.warnings + AccuracyWarnings(f, ambWarn))
  }

  /** A `t` (or `T`, which also asks for source tracing): unless it is the last letter,
      the following letters go to the trace table, starting it afresh. */
  function Trace(st: Scan, sources: bool, final: bool): Scan
  {
    var st1 := if sources then st.(traceSources := true) else st;
    if final then st1 else st1.(tracing := true, everyOut := [], castonly := false)
  }

  /** The walk over the letters from position `i`; an unknown letter stops it with a
      user error. */
  function ScanFrom(spec: string, i: nat, st: Scan, ambWarn: bool): (Scan, Option<Fatal>)
    requires i <= |spec|
    decreases |spec| - i
  {
    if i == |spec| then (st, None)
    else if !Known(spec[i]) then (st, Some(Fatal(User, Unrecognized(spec[i]))))
    else ScanFrom(spec, i + 1, Advance(spec, i, st, ambWarn), ambWarn)
  }

  /** One letter of the walk. */
  lemma ScanStep(spec: string, i: nat, st: Scan, ambWarn: bool)
    requires i < |spec|
    ensures spec[i] == 't' || spec[i] == 'T' ==>
      ScanFrom(spec, i, st, ambWarn) == ScanFrom(spec, i + 1, Trace(st, spec[i] == 'T', i + 1 == |spec|), ambWarn)
    ensures spec[i] != 't' && spec[i] != 'T' && FieldOf(spec[i]).None? ==>
      ScanFrom(spec, i, st, ambWarn) == (st, Some(Fatal(User, Unrecognized(spec[i]))))
    ensures spec[i] != 't' && spec[i] != 'T' && FieldOf(spec[i]).Some? ==>
      ScanFrom(spec, i, st, ambWarn) == ScanFrom(spec, i + 1, Place(st, FieldOf(spec[i]).value, ambWarn), ambWarn)
    ensures Known(spec[i]) ==> ScanFrom(spec, i, st, ambWarn) == ScanFrom(spec, i + 1, Advance(spec, i, st, ambWarn), ambWarn)
    ensures !Known(spec[i]) ==> ScanFrom(spec, i, st, ambWarn) == (st, Some(Fatal(User, Unrecognized(spec[i]))))
  {
  }

  /** The state after a known letter. */
  function Advance(spec: string, i: nat, st: Scan, ambWarn: bool): Scan
    requires i < |spec| && Known(spec[i])
  {
    if spec[i] == 't' || spec[i] == 'T' then Trace(st, spec[i] == 'T', i + 1 == |spec|)
    else Place(st, FieldOf(spec[i]).value, ambWarn)
  }

  /** The warnings of one value-table entry. */
  function EntryWarnings(f: Field, irradiance: bool): seq<string>
  {
    if f == Contribution || f == Coefficient then [NEEDS_TRACE]
    else if irradiance && Reflection(f) then [IRRADIANCE_CONFLICT]
    else []
  }

  /** The compatibility warnings over the value table, in table order. */
  function TableWarnings(t: seq<Field>, irradiance: bool): seq<string>
  {
    if t == [] then [] else TableWarnings(t[..|t| - 1], irradiance) + EntryWarnings(t[|t| - 1], irradiance)
  }

  /** The checks of the value table after the walk: one warning per entry that needs
      trace mode or clashes with irradiance, appended to `before`. */
  method TableChecks(t: seq<Field>, irradiance: bool, before: seq<string>) returns (warnings: seq<string>)
    ensures warnings == before + TableWarnings(t, irradiance)
  {
    warnings := before;
    var j := 0;
    while j < |t|
      invariant 0 <= j <= |t|
      invariant warnings == before + TableWarnings(t[..j], irradiance)
    {
      assert t[..j + 1][..j] == t[..j];
      var w := if t[j] == Contribution || t[j] == Coefficient then [NEEDS_TRACE]
        else if irradiance && Reflection(t[j]) then [IRRADIANCE_CONFLICT] else [];
      assert w == EntryWarnings(t[j], irradiance);
      WarningsAssoc(before, TableWarnings(t[..j], irradiance), w);
      warnings := warnings + w;
      j := j + 1;
    }
    assert t[..j] == t;
  }

  lemma WarningsAssoc(a: seq<string>, b: seq<string>, c: seq<string>)
    ensures a + b + c == a + (b + c)
  {
  }

  datatype Tables = Tables(rayOut: seq<Field>, everyOut: seq<Field>, castonly: bool, traceSources: bool)

  /** The outcome of the compiler: the tables, the component count and the warnings;
      or the warnings issued before the fatal error that stopped it. */
  datatype Compiled = Compiled(tables: Tables, ncomp: nat, warnings: seq<string>) | Failed(warnings: seq<string>, fatal: Fatal)

  /** setrtoutput for specification `spec` and output format `outform`; `irradiance`
      says whether irradiance is computed (`-i+` or `-I+`). */
  function Compile(spec: string, outform: char, irradiance: bool, ambWarn: bool): Compiled
  {
    if spec == [] then Failed([], Fatal(User, EMPTY_SPEC))
    else if outform == 'c' && (|spec| > 1 || spec[0] !in "vrx") then Failed([], Fatal(User, COLOR_ONLY))
    else if outform !in "afdc" then Failed([], Fatal(Consistency, BOTCHED_FORMAT))
    else Finish(ScanFrom(spec, 0, START, ambWarn), irradiance)
  }

  /** The checks after the walk over the letters. */
  function Finish(scan: (Scan, Option<Fatal>), irradiance: bool): Compiled
  {
    var (st, fatal) := scan;
    if fatal.Some? then Failed(st.warnings, fatal.value)
    else if irradiance && st.castonly then Failed(st.warnings, Fatal(User, NEEDS_VALUE))
    else Compiled(Tables(st.rayOut, st.everyOut, st.castonly, st.traceSources),
                  if st.everyOut != [] then 0 else st.ncomp,
                  st.warnings + TableWarnings(st.rayOut, irradiance))
  }

  // What the compiler computes, stated without it.

  predicate NoTrace(s: string)
  {
    forall k :: 0 <= k < |s| ==> s[k] != 't' && s[k] != 'T'
  }

  /** A letter the compiler accepts. */
  predicate Known(c: char)
  {
    c == 't' || c == 'T' || FieldOf(c).Some?
  }

  predicate AllKnown(s: string)
  {
    forall k :: 0 <= k < |s| ==> Known(s[k])
  }

  /** The fields a run of field letters selects, in order. */
  function Fields(s: string): (fs: seq<Field>)
    requires NoTrace(s) && AllKnown(s)
    ensures |fs| == |s|
  {
    if s == [] then [] else [FieldOf(s[0]).value] + Fields(s[1..])
  }

  function Total(fs: seq<Field>): nat
  {
    if fs == [] then 0 else Components(fs[0]) + Total(fs[1..])
  }

  predicate NoValue(fs: seq<Field>)
  {
    forall k :: 0 <= k < |fs| ==> !SetsValue(fs[k])
  }

  function PlaceAll(st: Scan, fs: seq<Field>, ambWarn: bool): Scan
    decreases fs
  {
    if fs == [] then st else PlaceAll(Place(st, fs[0], ambWarn), fs[1..], ambWarn)
  }

  /** Placing a run of fields appends them to the current table, adds up their
      components and keeps ray-casting-only mode only if none needs a value. */
  lemma {:induction false} PlaceAllEffect(st: Scan, fs: seq<Field>, ambWarn: bool)
    decreases fs
    ensures var r := PlaceAll(st, fs, ambWarn);
      r.rayOut == (if st.tracing then st.rayOut else st.rayOut + fs) &&
      r.everyOut == (if st.tracing then st.everyOut + fs else st.everyOut) &&
      r.ncomp == st.ncomp + Total(fs) &&
      r.castonly == (st.castonly && NoValue(fs)) &&
      r.tracing == st.tracing && r.traceSources == st.traceSources
  {
    if fs != [] {
      PlaceAllEffect(Place(st, fs[0], ambWarn), fs[1..], ambWarn);
      assert fs == [fs[0]] + fs[1..];
      FieldsAssoc(st.rayOut, [fs[0]], fs[1..]);
      FieldsAssoc(st.everyOut, [fs[0]], fs[1..]);
      NoValueCons(fs);
    }
  }

  lemma FieldsAssoc(a: seq<Field>, b: seq<Field>, c: seq<Field>)
    ensures (a + b) + c == a + (b + c)
  {
  }

  lemma NoValueCons(fs: seq<Field>)
    requires fs != []
    ensures NoValue(fs) <==> !SetsValue(fs[0]) && NoValue(fs[1..])
  {
    if !SetsValue(fs[0]) && NoValue(fs[1..]) {
      forall k | 0 <= k < |fs| ensures !SetsValue(fs[k]) {
        if k > 0 {
          assert fs[k] == fs[1..][k - 1];
        }
      }
    }
  }

  /** Walking a run `spec[i..j]` of field letters places its fields in order. */
  lemma {:induction false} ScanRun(spec: string, i: nat, j: nat, st: Scan, ambWarn: bool)
    requires i <= j <= |spec| && NoTrace(spec[i..j]) && AllKnown(spec[i..j])
    ensures ScanFrom(spec, i, st, ambWarn) == ScanFrom(spec, j, PlaceAll(st, Fields(spec[i..j]), ambWarn), ambWarn)
    decreases j - i
  {
    if i < j {
      assert spec[i..j][0] == spec[i];
      assert spec[i..j][1..] == spec[i + 1..j];
      ScanRun(spec, i + 1, j, Place(st, FieldOf(spec[i]).value, ambWarn), ambWarn);
    } else {
      assert spec[i..j] == [];
    }
  }

  /** A specification without `t`/`T` fills only the value table, in letter order,
      with the components of its letters, and stays ray-casting-only exactly when no
      letter needs a value (which irradiance output rejects). */
  lemma PlainSpecification(spec: string, outform: char, irradiance: bool, ambWarn: bool)
    requires spec != [] && outform in "afd" && NoTrace(spec) && AllKnown(spec)
    ensures var fs, r := Fields(spec), Compile(spec, outform, irradiance, ambWarn);
      (irradiance && NoValue(fs) ==> r.Failed? && r.fatal == Fatal(User, NEEDS_VALUE)) &&
      (!(irradiance && NoValue(fs)) ==> r.Compiled? && r.tables == Tables(fs, [], NoValue(fs), false) && r.ncomp == Total(fs))
  {
    var fs := Fields(spec);
    var st := PlaceAll(START, fs, ambWarn);
    assert spec[0..|spec|] == spec;
    ScanRun(spec, 0, |spec|, START, ambWarn);
    assert ScanFrom(spec, 0, START, ambWarn) == (st, None);
    PlaceAllEffect(START, fs, ambWarn);
    assert [] + fs == fs;
    assert st.rayOut == fs && st.everyOut == [] && st.ncomp == Total(fs) && st.castonly == NoValue(fs) && !st.traceSources;
    CompileWalk(spec, outform, irradiance, ambWarn);
  }

  /** For a non-empty specification and a format other than colour, the compiler's
      outcome is decided by the walk. */
  lemma CompileWalk(spec: string, outform: char, irradiance: bool, ambWarn: bool)
    requires spec != [] && outform in "afd"
    ensures Compile(spec, outform, irradiance, ambWarn) == Finish(ScanFrom(spec, 0, START, ambWarn), irradiance)
  {
  }

  /** With a `t` or `T` between two runs of field letters, the first run fills the
      value table, the second the trace table; the count is then 0, the ray values
      are computed, and `T` asks for source tracing. */
  lemma TracedSpecification(p: string, c: char, q: string, outform: char, irradiance: bool, ambWarn: bool)
    requires c == 't' || c == 'T'
    requires q != [] && outform in "afd" && NoTrace(p) && AllKnown(p) && NoTrace(q) && AllKnown(q)
    ensures var r := Compile(p + [c] + q, outform, irradiance, ambWarn);
      r.Compiled? && r.tables == Tables(Fields(p), Fields(q), false, c == 'T') && r.ncomp == 0
  {
    TracedScan(p, c, q, ambWarn);
    CompileWalk(p + [c] + q, outform, irradiance, ambWarn);
  }

  /** The walk behind `TracedSpecification`. */
  lemma TracedScan(p: string, c: char, q: string, ambWarn: bool)
    requires c == 't' || c == 'T'
    requires q != [] && NoTrace(p) && AllKnown(p) && NoTrace(q) && AllKnown(q)
    ensures var (st, fatal) := ScanFrom(p + [c] + q, 0, START, ambWarn);
      fatal.None? && st.rayOut == Fields(p) && st.everyOut == Fields(q) && st.everyOut != [] &&
      !st.castonly && st.traceSources == (c == 'T')
  {
    var spec := p + [c] + q;
    assert spec[0..|p|] == p;
    assert spec[|p| + 1..|spec|] == q;
    assert spec[|p|] == c;
    ScanRun(spec, 0, |p|, START, ambWarn);
    var st1 := PlaceAll(START, Fields(p), ambWarn);
    PlaceAllEffect(START, Fields(p), ambWarn);
    var st2 := Trace(st1, c == 'T', false);
    assert ScanFrom(spec, |p|, st1, ambWarn) == ScanFrom(spec, |p| + 1, st2, ambWarn);
    ScanRun(spec, |p| + 1, |spec|, st2, ambWarn);
    PlaceAllEffect(st2, Fields(q), ambWarn);
  }

  /** The first unknown letter stops the walk with its own error. */
  lemma {:induction false} ScanRejects(spec: string, i: nat, j: nat, st: Scan, ambWarn: bool)
    requires i <= j < |spec| && (forall k :: i <= k < j ==> Known(spec[k]))
    requires !Known(spec[j])
    ensures ScanFrom(spec, i, st, ambWarn).1 == Some(Fatal(User, Unrecognized(spec[j])))
    decreases j - i
  {
    ScanStep(spec, i, st, ambWarn);
    if i < j {
      assert Known(spec[i]);
      ScanRejects(spec, i + 1, j, Advance(spec, i, st, ambWarn), ambWarn);
    }
  }

  /** A walk that ends without error has seen only known letters. */
  lemma {:induction false} ScanAccepts(spec: string, i: nat, k: nat, st: Scan, ambWarn: bool)
    requires i <= k < |spec| && ScanFrom(spec, i, st, ambWarn).1.None?
    ensures Known(spec[k])
    decreases k - i
  {
    ScanStep(spec, i, st, ambWarn);
    if i < k {
      ScanAccepts(spec, i + 1, k, Advance(spec, i, st, ambWarn), ambWarn);
    }
  }

  /** The compiler accepts the letters of a specification exactly when they are all
      known: an unknown letter is reported, the first one in the specification. */
  lemma UnknownLetters(spec: string, outform: char, irradiance: bool, ambWarn: bool)
    requires spec != [] && outform in "afd"
    ensures Compile(spec, outform, irradiance, ambWarn).Compiled? ==> AllKnown(spec)
    ensures forall j :: 0 <= j < |spec| && AllKnown(spec[..j]) && !Known(spec[j]) ==>
      Compile(spec, outform, irradiance, ambWarn) == Failed(ScanFrom(spec, 0, START, ambWarn).0.warnings, Fatal(User, Unrecognized(spec[j])))
  {
    CompileWalk(spec, outform, irradiance, ambWarn);
    if ScanFrom(spec, 0, START, ambWarn).1.None? {
      forall k | 0 <= k < |spec| ensures Known(spec[k]) {
        ScanAccepts(spec, 0, k, START, ambWarn);
      }
    }
    forall j | 0 <= j < |spec| && AllKnown(spec[..j]) && !Known(spec[j])
      ensures Compile(spec, outform, irradiance, ambWarn) == Failed(ScanFrom(spec, 0, START, ambWarn).0.warnings, Fatal(User, Unrecognized(spec[j])))
    {
      forall k | 0 <= k < j ensures Known(spec[k]) {
        assert spec[..j][k] == spec[k];
      }
      ScanRejects(spec, 0, j, START, ambWarn);
    }
  }

  /** Appending `t` after a last letter other than `t`/`T` changes nothing. */
  lemma {:induction false} ScanFinalT(p: string, i: nat, st: Scan, ambWarn: bool)
    requires i <= |p| && p != [] && p[|p| - 1] != 't' && p[|p| - 1] != 'T'
    ensures ScanFrom(p + ['t'], i, st, ambWarn) == ScanFrom(p, i, st, ambWarn)
    decreases |p| - i
  {
    var s := p + ['t'];
    if i < |p| {
      assert s[i] == p[i];
      ScanStep(p, i, st, ambWarn);
      ScanStep(s, i, st, ambWarn);
      if Known(p[i]) {
        assert Advance(s, i, st, ambWarn) == Advance(p, i, st, ambWarn);
        ScanFinalT(p, i + 1, Advance(p, i, st, ambWarn), ambWarn);
      }
    } else {
      assert s[|p|] == 't';
    }
  }

  /** A final `t` is ignored (colour output aside, which takes single letters only). */
  lemma FinalTraceIgnored(p: string, outform: char, irradiance: bool, ambWarn: bool)
    requires p != [] && p[|p| - 1] != 't' && p[|p| - 1] != 'T' && outform != 'c'
    ensures Compile(p + ['t'], outform, irradiance, ambWarn) == Compile(p, outform, irradiance, ambWarn)
  {
    ScanFinalT(p, 0, START, ambWarn);
  }

  /** Colour output takes exactly the specifications `v`, `r` and `x`, each giving one
      three-component value field. */
  lemma ColorOutput(spec: string, irradiance: bool, ambWarn: bool)
    ensures Compile(spec, 'c', irradiance, ambWarn).Compiled? ==> spec in ["v", "r", "x"]
    ensures spec in ["v", "r", "x"] ==>
      Compile(spec, 'c', irradiance, ambWarn).Compiled? &&
      Compile(spec, 'c', irradiance, ambWarn).tables.rayOut == [FieldOf(spec[0]).value] &&
      Compile(spec, 'c', irradiance, ambWarn).ncomp == 3
  {
    if Compile(spec, 'c', irradiance, ambWarn).Compiled? {
      assert spec == [spec[0]];
    }
    if spec in ["v", "r", "x"] {
      assert |spec| == 1;
      assert ScanFrom(spec, 1, Place(START, FieldOf(spec[0]).value, ambWarn), ambWarn).1.None?;
    }
  }

  // Every specification of known letters, with any number of `t`/`T`.

  /** A `t` or `T` that is not the last letter: it starts the trace table afresh. */
  predicate InnerTrace(spec: string, k: int)
  {
    0 <= k < |spec| - 1 && (spec[k] == 't' || spec[k] == 'T')
  }

  /** The field a letter selects, as a run of at most one field. */
  function FieldList(c: char): seq<Field>
  {
    match FieldOf(c)
    case Some(f) => [f]
    case None => []
  }

  /** The fields letters `lo` to `hi - 1` select, in order; `t` and `T` select none. */
  function FieldsIn(spec: string, lo: nat, hi: nat): seq<Field>
    requires lo <= hi <= |spec|
    decreases hi
  {
    if hi == lo then [] else FieldsIn(spec, lo, hi - 1) + FieldList(spec[hi - 1])
  }

  /** Some `T` among the first `n` letters. */
  predicate SourcesAsked(spec: string, n: nat)
    requires n <= |spec|
  {
    n > 0 && (spec[n - 1] == 'T' || SourcesAsked(spec, n - 1))
  }

  /** SourcesAsked is the presence of a `T`. */
  lemma {:induction false} SourcesFound(spec: string, n: nat)
    requires n <= |spec|
    ensures SourcesAsked(spec, n) <==> exists k :: 0 <= k < n && spec[k] == 'T'
  {
    if n > 0 {
      SourcesFound(spec, n - 1);
    }
  }

  /** The first inner `t`/`T` among the first `n` letters, -1 when there is none. */
  function FirstCut(spec: string, n: nat): (r: int)
    requires n <= |spec|
    ensures -1 <= r < n
  {
    if n == 0 then -1
    else if FirstCut(spec, n - 1) >= 0 then FirstCut(spec, n - 1)
    else if InnerTrace(spec, n - 1) then n - 1
    else -1
  }

  /** The last inner `t`/`T` among the first `n` letters, -1 when there is none. */
  function LastCut(spec: string, n: nat): (r: int)
    requires n <= |spec|
    ensures -1 <= r < n
  {
    if n == 0 then -1
    else if InnerTrace(spec, n - 1) then n - 1
    else LastCut(spec, n - 1)
  }

  /** FirstCut and LastCut are the least and the greatest inner `t`/`T` below `n`. */
  lemma {:induction false} CutsCharacterised(spec: string, n: nat)
    requires n <= |spec|
    ensures FirstCut(spec, n) < 0 <==> forall k :: 0 <= k < n ==> !InnerTrace(spec, k)
    ensures LastCut(spec, n) < 0 <==> forall k :: 0 <= k < n ==> !InnerTrace(spec, k)
    ensures FirstCut(spec, n) >= 0 ==>
      InnerTrace(spec, FirstCut(spec, n)) && (forall k :: 0 <= k < FirstCut(spec, n) ==> !InnerTrace(spec, k))
    ensures LastCut(spec, n) >= 0 ==>
      InnerTrace(spec, LastCut(spec, n)) && (forall k :: LastCut(spec, n) < k < n ==> !InnerTrace(spec, k))
  {
    if n > 0 {
      CutsCharacterised(spec, n - 1);
      if FirstCut(spec, n - 1) < 0 && !InnerTrace(spec, n - 1) {
        forall k | 0 <= k < n ensures !InnerTrace(spec, k) {
          if k < n - 1 {
            assert !InnerTrace(spec, k);
          }
        }
      }
    }
  }

  /** The walk state after the first `n` letters. */
  function Walked(spec: string, n: nat, ambWarn: bool): Scan
    requires n <= |spec| && AllKnown(spec)
  {
    if n == 0 then START else Advance(spec, n - 1, Walked(spec, n - 1, ambWarn), ambWarn)
  }

  /** The walk from the start is the walk from the state after `n` letters. */
  lemma {:induction false} WalkedPrefix(spec: string, n: nat, ambWarn: bool)
    requires n <= |spec| && AllKnown(spec)
    ensures ScanFrom(spec, 0, START, ambWarn) == ScanFrom(spec, n, Walked(spec, n, ambWarn), ambWarn)
  {
    if n > 0 {
      WalkedPrefix(spec, n - 1, ambWarn);
      ScanStep(spec, n - 1, Walked(spec, n - 1, ambWarn), ambWarn);
    }
  }

  lemma {:induction false} TotalAppend(a: seq<Field>, b: seq<Field>)
    ensures Total(a + b) == Total(a) + Total(b)
    decreases a
  {
    if a != [] {
      assert (a + b)[1..] == a[1..] + b;
      TotalAppend(a[1..], b);
    } else {
      assert a + b == b;
    }
  }

  lemma NoValueAppend(a: seq<Field>, b: seq<Field>)
    ensures NoValue(a + b) <==> NoValue(a) && NoValue(b)
  {
    if NoValue(a + b) {
      forall k | 0 <= k < |b| ensures !SetsValue(b[k]) {
        assert b[k] == (a + b)[|a| + k];
      }
      forall k | 0 <= k < |a| ensures !SetsValue(a[k]) {
        assert a[k] == (a + b)[k];
      }
    }
    if NoValue(a) && NoValue(b) {
      forall k | 0 <= k < |a + b| ensures !SetsValue((a + b)[k]) {
        if k < |a| {
          assert (a + b)[k] == a[k];
        } else {
          assert (a + b)[k] == b[k - |a|];
        }
      }
    }
  }

  /** The state after `n` letters, stated by the letters: the value table holds the
      fields before the first inner `t`/`T`, the trace table those after the last one;
      the walk traces once an inner `t`/`T` was seen, stays casting-only while no
      letter needs a value and none was seen, traces sources once a `T` was seen,
      and counts the components of every field. */
  predicate Describes(spec: string, n: nat, st: Scan)
    requires n <= |spec|
  {
    TablesDescribed(spec, n, st) && FlagsDescribed(spec, n, st)
  }

  /** The two tables and the tracing flag after `n` letters. */
  predicate TablesDescribed(spec: string, n: nat, st: Scan)
    requires n <= |spec|
  {
    var first, last := FirstCut(spec, n), LastCut(spec, n);
    && st.rayOut == FieldsIn(spec, 0, if first >= 0 then first else n)
    && st.everyOut == (if last >= 0 then FieldsIn(spec, last + 1, n) else [])
    && st.tracing == (last >= 0)
  }

  /** Casting-only, source tracing and the component count after `n` letters. */
  predicate FlagsDescribed(spec: string, n: nat, st: Scan)
    requires n <= |spec|
  {
    && st.castonly == (NoValue(FieldsIn(spec, 0, n)) && LastCut(spec, n) < 0)
    && st.traceSources == SourcesAsked(spec, n)
    && st.ncomp == Total(FieldsIn(spec, 0, n))
  }

  /** There is a first inner `t`/`T` exactly when there is a last one. */
  lemma {:induction false} CutsAgree(spec: string, n: nat)
    requires n <= |spec|
    ensures FirstCut(spec, n) >= 0 <==> LastCut(spec, n) >= 0
  {
    if n > 0 {
      CutsAgree(spec, n - 1);
    }
  }

  /** A `t` or `T` keeps the description. */
  lemma TraceStep(spec: string, i: nat, st: Scan)
    requires i < |spec| && (spec[i] == 't' || spec[i] == 'T') && Describes(spec, i, st)
    ensures Describes(spec, i + 1, Trace(st, spec[i] == 'T', i + 1 == |spec|))
  {
    assert FieldList(spec[i]) == [];
    assert FieldsIn(spec, 0, i + 1) == FieldsIn(spec, 0, i);
    if i + 1 < |spec| {
      InnerTraceTables(spec, i, st);
    } else {
      FinalTraceTables(spec, i, st);
    }
    TraceFlags(spec, i, st);
  }

  lemma InnerTraceTables(spec: string, i: nat, st: Scan)
    requires i + 1 < |spec| && (spec[i] == 't' || spec[i] == 'T') && TablesDescribed(spec, i, st)
    ensures TablesDescribed(spec, i + 1, Trace(st, spec[i] == 'T', false))
  {
    assert InnerTrace(spec, i);
    assert LastCut(spec, i + 1) == i;
    assert FieldsIn(spec, i + 1, i + 1) == [];
  }

  lemma FinalTraceTables(spec: string, i: nat, st: Scan)
    requires i + 1 == |spec| && (spec[i] == 't' || spec[i] == 'T') && TablesDescribed(spec, i, st)
    ensures TablesDescribed(spec, i + 1, Trace(st, spec[i] == 'T', true))
  {
    assert !InnerTrace(spec, i);
    assert FieldList(spec[i]) == [];
    var first, last := FirstCut(spec, i), LastCut(spec, i);
    if first < 0 {
      assert FieldsIn(spec, 0, i + 1) == FieldsIn(spec, 0, i);
    }
    if last >= 0 {
      assert FieldsIn(spec, last + 1, i + 1) == FieldsIn(spec, last + 1, i);
    }
  }

  lemma TraceFlags(spec: string, i: nat, st: Scan)
    requires i < |spec| && (spec[i] == 't' || spec[i] == 'T') && FlagsDescribed(spec, i, st)
    requires FieldsIn(spec, 0, i + 1) == FieldsIn(spec, 0, i)
    ensures FlagsDescribed(spec, i + 1, Trace(st, spec[i] == 'T', i + 1 == |spec|))
  {
    if i + 1 < |spec| {
      assert InnerTrace(spec, i);
    } else {
      assert !InnerTrace(spec, i);
    }
  }

  /** A field letter keeps the description. */
  lemma FieldStep(spec: string, i: nat, st: Scan, ambWarn: bool)
    requires i < |spec| && spec[i] != 't' && spec[i] != 'T' && FieldOf(spec[i]).Some? && Describes(spec, i, st)
    ensures Describes(spec, i + 1, Place(st, FieldOf(spec[i]).value, ambWarn))
  {
    var f := FieldOf(spec[i]).value;
    assert FieldList(spec[i]) == [f];
    assert !InnerTrace(spec, i);
    FieldTables(spec, i, st, f, ambWarn);
    FieldFlags(spec, i, st, f, ambWarn);
  }

  lemma FieldTables(spec: string, i: nat, st: Scan, f: Field, ambWarn: bool)
    requires i < |spec| && !InnerTrace(spec, i) && FieldList(spec[i]) == [f] && TablesDescribed(spec, i, st)
    ensures TablesDescribed(spec, i + 1, Place(st, f, ambWarn))
  {
    CutsAgree(spec, i);
    var last := LastCut(spec, i);
    if last >= 0 {
      assert FieldsIn(spec, last + 1, i + 1) == FieldsIn(spec, last + 1, i) + [f];
    } else {
      assert FieldsIn(spec, 0, i + 1) == FieldsIn(spec, 0, i) + [f];
    }
  }

  lemma FieldFlags(spec: string, i: nat, st: Scan, f: Field, ambWarn: bool)
    requires i < |spec| && !InnerTrace(spec, i) && spec[i] != 'T' && FieldList(spec[i]) == [f]
    requires FlagsDescribed(spec, i, st)
    ensures FlagsDescribed(spec, i + 1, Place(st, f, ambWarn))
  {
    var before := FieldsIn(spec, 0, i);
    assert FieldsIn(spec, 0, i + 1) == before + [f];
    TotalAppend(before, [f]);
    assert Total([f]) == Components(f);
    NoValueAppend(before, [f]);
    assert NoValue([f]) <==> !SetsValue(f);
  }

  /** The description holds of the walk after any number of letters. */
  lemma {:induction false} WalkedState(spec: string, n: nat, ambWarn: bool)
    requires n <= |spec| && AllKnown(spec)
    ensures Describes(spec, n, Walked(spec, n, ambWarn))
  {
    if n > 0 {
      var i := n - 1;
      WalkedState(spec, i, ambWarn);
      assert Known(spec[i]);
      if spec[i] == 't' || spec[i] == 'T' {
        TraceStep(spec, i, Walked(spec, i, ambWarn));
      } else {
        FieldStep(spec, i, Walked(spec, i, ambWarn), ambWarn);
      }
    }
  }

  /** No `t`/`T` other than the last letter. */
  predicate NoInnerTrace(spec: string)
  {
    forall k :: 0 <= k < |spec| ==> !InnerTrace(spec, k)
  }

  /** The fields every letter of a specification selects, in order. */
  function AllFields(spec: string): seq<Field>
  {
    FieldsIn(spec, 0, |spec|)
  }

  /** The tables a specification of known letters describes: the value table holds the
      fields before the first inner `t`/`T` (all of them when there is none), the trace
      table the fields after the last inner one; casting-only holds exactly when no
      letter needs a value and no inner `t`/`T` occurs; sources are traced exactly when
      a `T` occurs anywhere. */
  function TablesOf(spec: string): Tables
  {
    var first, last := FirstCut(spec, |spec|), LastCut(spec, |spec|);
    Tables(FieldsIn(spec, 0, if first >= 0 then first else |spec|),
           if last >= 0 then FieldsIn(spec, last + 1, |spec|) else [],
           NoValue(AllFields(spec)) && NoInnerTrace(spec),
           'T' in spec)
  }

  /** setrtoutput for any specification of known letters, with any number of `t`/`T`:
      it fails exactly when irradiance is asked of a casting-only specification;
      otherwise it leaves the tables the letters describe, and the count is 0 with a
      trace table and otherwise the components of every field letter. */
  lemma SpecificationTables(spec: string, outform: char, irradiance: bool, ambWarn: bool)
    requires spec != [] && outform in "afd" && AllKnown(spec)
    ensures var r, t := Compile(spec, outform, irradiance, ambWarn), TablesOf(spec);
      && (r.Failed? <==> irradiance && t.castonly)
      && (r.Failed? ==> r.fatal == Fatal(User, NEEDS_VALUE))
      && (r.Compiled? ==> r.tables == t && r.ncomp == (if t.everyOut != [] then 0 else Total(AllFields(spec))))
  {
    var st := Walked(spec, |spec|, ambWarn);
    CompileOfWalk(spec, outform, irradiance, ambWarn);
    WalkedState(spec, |spec|, ambWarn);
    DescribedWhole(spec, st);
  }

  /** The description after every letter is the tables the specification describes. */
  lemma DescribedWhole(spec: string, st: Scan)
    requires spec != [] && Describes(spec, |spec|, st)
    ensures Tables(st.rayOut, st.everyOut, st.castonly, st.traceSources) == TablesOf(spec)
    ensures st.ncomp == Total(AllFields(spec))
  {
    CutsCharacterised(spec, |spec|);
    assert LastCut(spec, |spec|) < 0 <==> NoInnerTrace(spec);
    SourcesFound(spec, |spec|);
    assert SourcesAsked(spec, |spec|) <==> 'T' in spec;
  }

  /** With known letters only, the compiler finishes the walk over all of them. */
  lemma CompileOfWalk(spec: string, outform: char, irradiance: bool, ambWarn: bool)
    requires spec != [] && outform in "afd" && AllKnown(spec)
    ensures Compile(spec, outform, irradiance, ambWarn) == Finish((Walked(spec, |spec|, ambWarn), None), irradiance)
  {
    WalkedPrefix(spec, |spec|, ambWarn);
    CompileWalk(spec, outform, irradiance, ambWarn);
  }

  /** A run of letters selects no field exactly when none of its letters is a field letter. */
  lemma {:induction false} FieldsInEmpty(spec: string, lo: nat, hi: nat)
    requires lo <= hi <= |spec|
    ensures FieldsIn(spec, lo, hi) == [] <==> forall k :: lo <= k < hi ==> FieldOf(spec[k]).None?
    decreases hi
  {
    if hi > lo {
      FieldsInEmpty(spec, lo, hi - 1);
      var p := FieldsIn(spec, lo, hi - 1);
      assert FieldsIn(spec, lo, hi) == p + FieldList(spec[hi - 1]);
      if FieldOf(spec[hi - 1]).None? {
        assert FieldList(spec[hi - 1]) == [] && p + [] == p;
        if p == [] {
          forall k | lo <= k < hi ensures FieldOf(spec[k]).None? {
            if k < hi - 1 {
              assert FieldOf(spec[k]).None?;
            }
          }
        }
      } else {
        assert |FieldsIn(spec, lo, hi)| > 0;
      }
    }
  }

  /** The value table is empty exactly when the specification starts with `t`/`T`. */
  lemma ValueTableEmpty(spec: string)
    requires spec != [] && AllKnown(spec)
    ensures TablesOf(spec).rayOut == [] <==> spec[0] == 't' || spec[0] == 'T'
  {
    CutsCharacterised(spec, |spec|);
    var first := FirstCut(spec, |spec|);
    var h := if first >= 0 then first else |spec|;
    FieldsInEmpty(spec, 0, h);
    if spec[0] == 't' || spec[0] == 'T' {
      if |spec| > 1 {
        assert InnerTrace(spec, 0);
        assert h == 0;
      }
    } else {
      assert Known(spec[0]) && !InnerTrace(spec, 0);
      assert h > 0 && FieldOf(spec[0]).Some?;
    }
  }

  /** The guard of the value call-back: rtrace installs printvals, and printvals prints,
      exactly when the compiled specification starts with a letter other than `t`/`T`. */
  lemma CookedCallGuard(spec: string, outform: char, irradiance: bool, ambWarn: bool)
    requires Compile(spec, outform, irradiance, ambWarn).Compiled?
    ensures var rayOut := Compile(spec, outform, irradiance, ambWarn).tables.rayOut;
      (rayOut == [] <==> spec[0] == 't' || spec[0] == 'T') &&
      (PrintVals(rayOut, outform).None? <==> spec[0] == 't' || spec[0] == 'T')
  {
    if outform == 'c' {
      ColorOutput(spec, irradiance, ambWarn);
    } else {
      UnknownLetters(spec, outform, irradiance, ambWarn);
      SpecificationTables(spec, outform, irradiance, ambWarn);
      ValueTableEmpty(spec);
    }
  }

  /** The body of the letter loop: letter `spec[i]` applied to the walk state `st`. */
  method ScanLetter(spec: string, i: nat, st: Scan, ambWarn: bool) returns (next: Scan, fatal: Option<Fatal>)
    requires i < |spec|
    ensures fatal.Some? ==> ScanFrom(spec, i, st, ambWarn) == (next, fatal)
    ensures fatal.None? ==> ScanFrom(spec, i, st, ambWarn) == ScanFrom(spec, i + 1, next, ambWarn)
  {
    ScanStep(spec, i, st, ambWarn);
    var c := spec[i];
    next, fatal := st, None;
    if c == 'T' || c == 't' {
      if c == 'T' {
        next := next.(traceSources := true);
      }
      if i + 1 < |spec| {
        next := next.(tracing := true, everyOut := [], castonly := false);
      }
      return;
    }
    var f := FieldOf(c);
    if f.None? {
      return st, Some(Fatal(User, Unrecognized(c)));
    }
    if st.tracing {
      next := next.(everyOut := st.everyOut + [f.value]);
    } else {
      next := next.(rayOut := st.rayOut + [f.value]);
    }
    next := next.(ncomp := st.ncomp + Components(f.value), castonly := st.castonly && !SetsValue(f.value),
      warnings := st.warnings + AccuracyWarnings(f.value, ambWarn));
  }

  /** The output tables of the running program. They are filled once, at start-up. */
  class OutputTables {
    var rayOut: seq<Field>
    var everyOut: seq<Field>
    var castonly: bool
    var traceSources: bool

    constructor ()
      ensures rayOut == [] && everyOut == [] && !castonly && !traceSources
    {
      rayOut := [];
      everyOut := [];
      castonly := false;
      traceSources := false;
    }

    /** setrtoutput: fills the tables from `spec` and returns the component count, or
        stops at the first fatal error. */
    method SetRtOutput(spec: string, outform: char, irradiance: bool, ambWarn: bool)
      returns (ncomp: nat, warnings: seq<string>, fatal: Option<Fatal>)
      modifies this
      ensures fatal.None? ==>
        Compile(spec, outform, irradiance, ambWarn) == Compiled(Tables(rayOut, everyOut, castonly, traceSources), ncomp, warnings)
      ensures fatal.Some? ==> Compile(spec, outform, irradiance, ambWarn) == Failed(warnings, fatal.value)
    {
      warnings := [];
      ncomp := 0;
      if spec == [] {
        return 0, [], Some(Fatal(User, EMPTY_SPEC));
      }
      if outform == 'c' && (|spec| > 1 || spec[0] !in "vrx") {
        return 0, [], Some(Fatal(User, COLOR_ONLY));
      }
      if outform !in "afdc" {
        return 0, [], Some(Fatal(Consistency, BOTCHED_FORMAT));
      }
      var n := Walk(spec, ambWarn);
      if n.1.Some? {
        return 0, n.0, n.1;
      }
      warnings := n.0;
      if irradiance && castonly {
        return 0, warnings, Some(Fatal(User, NEEDS_VALUE));
      }
      ncomp := if everyOut != [] then 0 else n.2;
      warnings := TableChecks(rayOut, irradiance, warnings);
      fatal := None;
    }

    /** The `do ... while (*++vs)` loop: returns the warnings, the error if any, and
        the component count. */
    method Walk(spec: string, ambWarn: bool) returns (r: (seq<string>, Option<Fatal>, nat))
      modifies this
      ensures var (st, fatal) := ScanFrom(spec, 0, START, ambWarn);
        r.0 == st.warnings && r.1 == fatal &&
        (fatal.None? ==>
          rayOut == st.rayOut && everyOut == st.everyOut && castonly == st.castonly &&
          traceSources == st.traceSources && r.2 == st.ncomp)
    {
      var st := START;
      var i := 0;
      ghost var whole := ScanFrom(spec, 0, START, ambWarn);
      while i < |spec|
        invariant 0 <= i <= |spec|
        invariant whole == ScanFrom(spec, i, st, ambWarn)
      {
        var fatal;
        st, fatal := ScanLetter(spec, i, st, ambWarn);
        if fatal.Some? {
          return (st.warnings, fatal, 0);
        }
        i := i + 1;
      }
      var warnings, n := st.warnings, st.ncomp;
      rayOut, everyOut, castonly, traceSources := st.rayOut, st.everyOut, st.castonly, st.traceSources;
      r := (warnings, None, n);
    }
  }

  /** What a ray report call-back prints: `tabs` tab characters, the fields of its
      table in order, then a newline for ASCII output. */
  datatype Report = Report(tabs: nat, fields: seq<Field>, newline: bool)

  /** printvals: nothing when the value table is empty. */
  function PrintVals(rayOut: seq<Field>, outform: char): (r: Option<Report>)
    ensures r.None? <==> rayOut == []
    ensures r.Some? ==> r.value.fields == rayOut && r.value.tabs == 0 && (r.value.newline <==> outform == 'a')
  {
    if rayOut == [] then None else Some(Report(0, rayOut, outform == 'a'))
  }

  const COLRFMT: string := "32-bit_rle_rgbe"

  /** formstr: the name of a data format letter. */
  function FormStr(f: char): string
  {
    match f
    case 'a' => "ascii"
    case 'f' => "float"
    case 'd' => "double"
    case 'c' => COLRFMT
    case _ => "unknown"
  }

  /** The four format letters have four distinct names; every other letter is "unknown". */
  lemma FormStrNames(f: char, g: char)
    ensures FormStr(f) != "unknown" <==> f in "afdc"
    ensures f in "afdc" && g in "afdc" && f != g ==> FormStr(f) != FormStr(g)
  {
  }
}
