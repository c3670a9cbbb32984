/** Utility routines of the GPU back end that are plain sequential logic: the
    base name of a path, and the debugging log of GPU exception types with the
    number of times each occurred. */
module OptixUtil {
  import opened RtError
  import opened OptixArrays

  predicate IsSeparator(c: char) { c == '/' || c == '\\' }

  /** filename: walks the path remembering the last separator; the result starts
      right after it, or is the whole path when there is none. */
  method FileName(path: string) returns (name: string)
    ensures |name| <= |path| && name == path[|path| - |name|..]
    ensures forall k :: 0 <= k < |name| ==> !IsSeparator(name[k])
    ensures |name| < |path| ==> IsSeparator(path[|path| - |name| - 1])
    ensures (forall k :: 0 <= k < |path| ==> !IsSeparator(path[k])) ==> name == path
  {
    var cp := 0;
    var separator := -1;
    while cp < |path|
      invariant 0 <= cp <= |path|
      invariant -1 <= separator < cp
      invariant separator >= 0 ==> IsSeparator(path[separator])
      invariant forall k :: separator < k < cp ==> !IsSeparator(path[k])
    {
      if IsSeparator(path[cp]) {
        separator := cp;
      }
      cp := cp + 1;
    }
    if separator >= 0 {
      name := path[separator + 1..];
    } else {
      name := path;
    }
  }

  // OptiX SDK exception codes (`RTexception`).
  const RT_EXCEPTION_PROGRAM_ID_INVALID: int := 0x3EE
  const RT_EXCEPTION_TEXTURE_ID_INVALID: int := 0x3EF
  const RT_EXCEPTION_BUFFER_ID_INVALID: int := 0x3FA
  const RT_EXCEPTION_INDEX_OUT_OF_BOUNDS: int := 0x3FB
  const RT_EXCEPTION_STACK_OVERFLOW: int := 0x3FC
  const RT_EXCEPTION_BUFFER_INDEX_OUT_OF_BOUNDS: int := 0x3FD
  const RT_EXCEPTION_INVALID_RAY: int := 0x3FE
  const RT_EXCEPTION_INTERNAL_ERROR: int := 0x3FF
  const RT_EXCEPTION_USER: int := 0x400

  /** Initial capacity of the log, `(RT_EXCEPTION_USER - RT_EXCEPTION_PROGRAM_ID_INVALID) * 2`. */
  const LOG_INITIAL_SIZE: nat := (RT_EXCEPTION_USER - RT_EXCEPTION_PROGRAM_ID_INVALID) * 2

  /** The application's own exception codes (infinite and NaN results, and the base of
      custom codes) come from a header this model does not have; they are parameters. */
  datatype AppCodes = AppCodes(inf: int, nan: int, custom: int)

  /** What a reported exception is called. */
  datatype ExceptionName = Named(text: string) | Unknown(code: int) | Custom(offset: int)

  /** One warning of printException: the exception, the " N times" suffix (present
      only when it occurred more than once) and where it happened. */
  datatype Report = Report(name: ExceptionName, times: Option<int>, location: string)

  function NameOf(codes: AppCodes, t: int): ExceptionName
  {
    if t == codes.inf then Named("Infinite result")
    else if t == codes.nan then Named("NAN result")
    else if t == RT_EXCEPTION_PROGRAM_ID_INVALID then Named("Program ID not valid")
    else if t == RT_EXCEPTION_TEXTURE_ID_INVALID then Named("Texture ID not valid")
    else if t == RT_EXCEPTION_BUFFER_ID_INVALID then Named("Buffer ID not valid")
    else if t == RT_EXCEPTION_INDEX_OUT_OF_BOUNDS then Named("Index out of bounds")
    else if t == RT_EXCEPTION_STACK_OVERFLOW then Named("Stack overflow")
    else if t == RT_EXCEPTION_BUFFER_INDEX_OUT_OF_BOUNDS then Named("Buffer index out of bounds")
    else if t == RT_EXCEPTION_INVALID_RAY then Named("Invalid ray")
    else if t == RT_EXCEPTION_INTERNAL_ERROR then Named("Internal error")
    else Unknown(t)
  }

  /** printException: nothing for a count below one; otherwise a warning naming the
      exception (custom codes by their offset from the custom base), with the count
      only when it is above one. */
  function PrintException(codes: AppCodes, t: int, count: int, location: string): (r: Option<Report>)
    ensures r.None? <==> count < 1
    ensures r.Some? ==> r.value.location == location
    ensures r.Some? ==> (r.value.times.Some? <==> count > 1)
    ensures r.Some? && r.value.times.Some? ==> r.value.times.value == count
    ensures r.Some? && t >= codes.custom ==> r.value.name == Custom(t - codes.custom)
    ensures r.Some? && t < codes.custom ==> !r.value.name.Custom?
  {
    if count < 1 then None
    else
      var times := if count > 1 then Some(count) else None;
      if t < codes.custom then Some(Report(NameOf(codes, t), times, location))
      else Some(Report(Custom(t - codes.custom), times, location))
  }

  /** The log as (type, count) pairs in insertion order. */
  type Entry = (int, int)

  function Types(pairs: seq<Entry>): (ts: seq<int>)
    ensures |ts| == |pairs|
    ensures forall k :: 0 <= k < |pairs| ==> ts[k] == pairs[k].0
  {
    if pairs == [] then [] else [pairs[0].0] + Types(pairs[1..])
  }

  ghost predicate Distinct(ts: seq<int>)
  {
    forall i, j :: 0 <= i < j < |ts| ==> ts[i] != ts[j]
  }

  /** Every logged type is a real exception and has been seen at least once. */
  ghost predicate WellFormedLog(pairs: seq<Entry>)
  {
    Distinct(Types(pairs)) && forall k :: 0 <= k < |pairs| ==> pairs[k].0 != 0 && pairs[k].1 >= 1
  }

  /** The log's update for one exception of type `t`: type 0 is not an error; a type
      already logged has its count incremented; a new type is appended with count 1. */
  function Logged(pairs: seq<Entry>, t: int): seq<Entry>
  {
    if t == 0 then pairs else Record(pairs, t)
  }

  function Record(pairs: seq<Entry>, t: int): (r: seq<Entry>)
    ensures |r| == |pairs| || |r| == |pairs| + 1
  {
    if pairs == [] then [(t, 1)]
    else if pairs[0].0 == t then [(t, pairs[0].1 + 1)] + pairs[1..]
    else [pairs[0]] + Record(pairs[1..], t)
  }

  /** How many times type `u` has been logged (0 when it is not in the log). */
  function CountOf(pairs: seq<Entry>, u: int): int
  {
    if pairs == [] then 0
    else if pairs[0].0 == u then pairs[0].1
    else CountOf(pairs[1..], u)
  }

  /** Recording `t` raises its count by one and leaves every other count alone. */
  lemma {:induction false} RecordCounts(pairs: seq<Entry>, t: int, u: int)
    ensures CountOf(Record(pairs, t), u) == CountOf(pairs, u) + (if u == t then 1 else 0)
  {
    if pairs != [] && pairs[0].0 != t {
      RecordCounts(pairs[1..], t, u);
    }
  }

  /** Recording keeps the order of the logged types, appending `t` only when it is new. */
  lemma {:induction false} RecordTypes(pairs: seq<Entry>, t: int)
    ensures t in Types(pairs) ==> Types(Record(pairs, t)) == Types(pairs)
    ensures t !in Types(pairs) ==> Types(Record(pairs, t)) == Types(pairs) + [t]
  {
    if pairs == [] {
    } else if pairs[0].0 == t {
      assert Types(Record(pairs, t)) == [t] + Types(pairs[1..]);
    } else {
      RecordTypes(pairs[1..], t);
      assert Types(pairs) == [pairs[0].0] + Types(pairs[1..]);
      assert Types(Record(pairs, t)) == [pairs[0].0] + Types(Record(pairs[1..], t));
    }
  }

  /** Logging keeps the log well formed: types stay distinct and non-zero, counts positive. */
  lemma LoggedWellFormed(pairs: seq<Entry>, t: int)
    requires WellFormedLog(pairs)
    ensures WellFormedLog(Logged(pairs, t))
  {
    if t != 0 {
      RecordTypes(pairs, t);
      RecordEntries(pairs, t);
    }
  }

  lemma {:induction false} RecordEntries(pairs: seq<Entry>, t: int)
    requires t != 0 && forall k :: 0 <= k < |pairs| ==> pairs[k].0 != 0 && pairs[k].1 >= 1
    ensures forall k :: 0 <= k < |Record(pairs, t)| ==> Record(pairs, t)[k].0 != 0 && Record(pairs, t)[k].1 >= 1
  {
    if pairs != [] && pairs[0].0 != t {
      RecordEntries(pairs[1..], t);
    }
  }

  /** The log after a run of exceptions, starting from no log at all. */
  function LogAll(ts: seq<int>): seq<Entry>
  {
    if ts == [] then [] else Logged(LogAll(ts[..|ts| - 1]), ts[|ts| - 1])
  }

  function Occurrences(ts: seq<int>, u: int): nat
  {
    if ts == [] then 0 else Occurrences(ts[..|ts| - 1], u) + (if ts[|ts| - 1] == u then 1 else 0)
  }

  /** The log is a frequency table: for every non-zero type, its count is the number
      of times it was logged. */
  lemma {:induction false} LogAllCounts(ts: seq<int>, u: int)
    requires u != 0
    ensures CountOf(LogAll(ts), u) == Occurrences(ts, u)
  {
    if ts != [] {
      var init, t := ts[..|ts| - 1], ts[|ts| - 1];
      LogAllCounts(init, u);
      if t != 0 {
        RecordCounts(LogAll(init), t, u);
      }
    }
  }

  /** The reports flushExceptionLog emits, in the log's order. */
  function Reports(codes: AppCodes, pairs: seq<Entry>, location: string): seq<Report>
  {
    if pairs == [] then []
    else
      var rest := Reports(codes, pairs[1..], location);
      match PrintException(codes, pairs[0].0, pairs[0].1, location)
      case Some(rep) => [rep] + rest
      case None => rest
  }

  /** Flushing a well-formed log reports every logged type once, in insertion order,
      each with its count. */
  lemma {:induction false} ReportsFollowLog(codes: AppCodes, pairs: seq<Entry>, location: string, k: nat)
    requires forall i :: 0 <= i < |pairs| ==> pairs[i].1 >= 1
    requires k < |pairs|
    ensures |Reports(codes, pairs, location)| == |pairs|
    ensures Reports(codes, pairs, location)[k] == PrintException(codes, pairs[k].0, pairs[k].1, location).value
  {
    if k == 0 {
      if |pairs| > 1 {
        ReportsFollowLog(codes, pairs[1..], location, 0);
      }
    } else {
      ReportsFollowLog(codes, pairs[1..], location, k - 1);
    }
  }

  /** The global `error_log`: no log until the first exception, then an int array
      holding (type, count) pairs side by side. */
  class ExceptionLog {
    var log: DynArray?<int>
    ghost var Repr: set<object>

    ghost predicate Valid()
      reads this, Repr
    {
      this in Repr &&
      (log == null ==> Repr == {this}) &&
      (log != null ==>
        log in Repr && Repr == {this, log, log.data} &&
        log.Valid() && log.count % 2 == 0 && log.size >= 2 &&
        WellFormedLog(Pairs()))
    }

    /** The pairs of the log, in insertion order; none before the first exception. */
    ghost function Pairs(): seq<Entry>
      reads this, Repr
      requires this in Repr && (log != null ==> log in Repr && log.data in Repr && log.Valid())
    {
      if log == null then [] else PairsOf(log.data[..log.count])
    }

    constructor ()
      ensures Valid() && fresh(Repr) && log == null && Pairs() == []
    {
      log := null;
      Repr := {this};
    }

    /** logException: ignores type 0; otherwise creates the log if needed, bumps the
        count of a type already logged, or appends (type, 1). */
    method LogException(t: int)
      requires Valid()
      modifies Repr
      ensures Valid() && fresh(Repr - old(Repr))
      ensures Pairs() == Logged(old(Pairs()), t)
    {
      if t == 0 {
        return;
      }
      if log == null {
        log := new DynArray<int>(LOG_INITIAL_SIZE);
        Repr := {this, log, log.data};
        assert Pairs() == [] by { assert log.data[..log.count] == []; }
      }
      var i := FindType(log, t);
      assert Pairs() == PairsOf(log.Contents());
      if i < log.count {
        BumpCount(t, i);
      } else {
        assert i / 2 == |Pairs()|;
        AppendType(t);
      }
    }

    /** The found branch of logException: `array[i + 1]++` for the pair at `i`. */
    method BumpCount(t: int, i: nat)
      requires Valid() && log != null && t != 0
      requires i < log.count && i % 2 == 0
      requires Pairs()[i / 2].0 == t && forall j :: 0 <= j < i / 2 ==> Pairs()[j].0 != t
      modifies log.data
      ensures Valid() && Pairs() == Record(old(Pairs()), t)
    {
      ghost var before := Pairs();
      ghost var was := log.data[..log.count];
      PairsAt(was, i / 2);
      log.data[i + 1] := log.data[i + 1] + 1;
      ghost var now := log.data[..log.count];
      assert now == was[i + 1 := was[i + 1] + 1];
      PairsBump(now, was, i / 2, before, t);
      LoggedWellFormed(before, t);
      assert Pairs() == PairsOf(now);
    }

    /** The not-found branch of logException: `insertArray2i(error_log, type, 1)`. */
    method AppendType(t: int)
      requires Valid() && log != null && t != 0
      requires forall j :: 0 <= j < |Pairs()| ==> Pairs()[j].0 != t
      modifies Repr
      ensures Valid() && fresh(Repr - old(Repr))
      ensures Pairs() == Record(old(Pairs()), t)
    {
      ghost var before := Pairs();
      ghost var was := log.data[..log.count];
      OneDoublingSuffices(log.count, log.size);
      var _ := log.Insert2(t, 1);
      Repr := {this, log, log.data};
      PairsAppend(was, t, 1);
      RecordNew(before, t);
      LoggedWellFormed(before, t);
    }

    /** flushExceptionLog: reports every pair in insertion order, then frees the log. */
    method FlushExceptionLog(codes: AppCodes, location: string) returns (reports: seq<Report>)
      requires Valid()
      modifies this
      ensures Valid() && log == null
      ensures reports == Reports(codes, old(Pairs()), location)
    {
      if log == null {
        return [];
      }
      reports := ReportAll(log, codes, location);
      log := null;
      Repr := {this};
    }
  }

  /** The loop of logException: the index of the first pair of type `t`, or `count`. */
  method FindType(a: DynArray<int>, t: int) returns (i: nat)
    requires a.Valid() && a.count % 2 == 0
    ensures i <= a.count && i % 2 == 0
    ensures i < a.count ==> PairsOf(a.Contents())[i / 2].0 == t
    ensures forall j :: 0 <= j < i / 2 ==> PairsOf(a.Contents())[j].0 != t
  {
    ghost var pairs := PairsOf(a.Contents());
    i := 0;
    while i < a.count && a.data[i] != t
      invariant 0 <= i <= a.count && i % 2 == 0
      invariant forall j :: 0 <= j < i / 2 ==> pairs[j].0 != t
    {
      PairsAt(a.Contents(), i / 2);
      i := i + 2;
    }
    if i < a.count {
      PairsAt(a.Contents(), i / 2);
    }
  }

  /** The loop of flushExceptionLog: one report per pair, in order. */
  method ReportAll(a: DynArray<int>, codes: AppCodes, location: string) returns (reports: seq<Report>)
    requires a.Valid() && a.count % 2 == 0
    ensures reports == Reports(codes, PairsOf(a.Contents()), location)
  {
    ghost var pairs := PairsOf(a.Contents());
    reports := [];
    var i := 0;
    ghost var j := 0;
    while i < a.count
      invariant 0 <= j <= |pairs| && i == 2 * j
      invariant Reports(codes, pairs, location) == reports + Reports(codes, pairs[j..], location)
    {
      PairsAt(a.Contents(), j);
      assert a.data[i] == a.Contents()[2 * j] && a.data[i + 1] == a.Contents()[2 * j + 1];
      ReportsStep(codes, pairs, j, location);
      var rep := PrintException(codes, a.data[i], a.data[i + 1], location);
      if rep.Some? {
        ReportsAssoc(reports, [rep.value], Reports(codes, pairs[j + 1..], location));
        reports := reports + [rep.value];
      }
      i, j := i + 2, j + 1;
    }
    assert pairs[j..] == [];
  }

  /** One entry of the report walk. */
  lemma ReportsStep(codes: AppCodes, pairs: seq<Entry>, j: nat, location: string)
    requires j < |pairs|
    ensures Reports(codes, pairs[j..], location) ==
      (match PrintException(codes, pairs[j].0, pairs[j].1, location)
       case Some(rep) => [rep]
       case None => []) + Reports(codes, pairs[j + 1..], location)
  {
    assert pairs[j..][1..] == pairs[j + 1..];
  }

  lemma ReportsAssoc(a: seq<Report>, b: seq<Report>, c: seq<Report>)
    ensures a + (b + c) == (a + b) + c
  {
  }

  /** Reads an int block of even length as consecutive (type, count) pairs. */
  function PairsOf(s: seq<int>): (r: seq<Entry>)
    ensures |r| == |s| / 2
  {
    if |s| < 2 then [] else [(s[0], s[1])] + PairsOf(s[2..])
  }

  lemma {:induction false} PairsAt(s: seq<int>, k: nat)
    requires 2 * k + 1 < |s|
    ensures PairsOf(s)[k] == (s[2 * k], s[2 * k + 1])
  {
    if k > 0 {
      PairsAt(s[2..], k - 1);
    }
  }

  lemma {:induction false} PairsAppend(s: seq<int>, t: int, c: int)
    requires |s| % 2 == 0
    ensures PairsOf(s + [t, c]) == PairsOf(s) + [(t, c)]
  {
    if |s| == 0 {
      assert PairsOf([t, c]) == [(t, c)];
    } else {
      assert (s + [t, c])[2..] == s[2..] + [t, c];
      PairsAppend(s[2..], t, c);
    }
  }

  /** Incrementing the count slot of pair `k` in place updates just that pair. */
  lemma PairsBump(now: seq<int>, was: seq<int>, k: nat, before: seq<Entry>, t: int)
    requires |now| == |was| && |now| % 2 == 0 && 2 * k + 1 < |now|
    requires before == PairsOf(was) && was[2 * k] == t
    requires now == was[2 * k + 1 := was[2 * k + 1] + 1]
    requires forall j :: 0 <= j < k ==> before[j].0 != t
    ensures PairsOf(now) == Record(before, t)
  {
    PairsBumpAt(now, was, k);
    PairsAt(was, k);
    RecordFound(before, t, k);
  }

  lemma {:induction false} PairsBumpAt(now: seq<int>, was: seq<int>, k: nat)
    requires |now| == |was| && 2 * k + 1 < |now|
    requires now == was[2 * k + 1 := was[2 * k + 1] + 1]
    ensures PairsOf(now) == PairsOf(was)[k := (was[2 * k], was[2 * k + 1] + 1)]
  {
    if k == 0 {
      assert now[2..] == was[2..];
    } else {
      assert now[2..] == was[2..][2 * (k - 1) + 1 := was[2 * k + 1] + 1];
      PairsBumpAt(now[2..], was[2..], k - 1);
    }
  }

  lemma {:induction false} RecordFound(pairs: seq<Entry>, t: int, k: nat)
    requires k < |pairs| && pairs[k].0 == t
    requires forall j :: 0 <= j < k ==> pairs[j].0 != t
    ensures Record(pairs, t) == pairs[k := (t, pairs[k].1 + 1)]
  {
    if k > 0 {
      RecordFound(pairs[1..], t, k - 1);
    }
  }

  lemma {:induction false} RecordNew(pairs: seq<Entry>, t: int)
    requires forall j :: 0 <= j < |pairs| ==> pairs[j].0 != t
    ensures Record(pairs, t) == pairs + [(t, 1)]
  {
    if pairs != [] {
      RecordNew(pairs[1..], t);
    }
  }
}
