/** epw2wea: converts an EnergyPlus weather file (EPW) into the DAYSIM weather
    format (WEA). The EPW file is given as its lines, blank lines dropped (the
    scanner skips any run of line ends after a line): the LOCATION line, seven more header lines
    (the eighth, DATA PERIODS, holds the number of records per hour) and the data
    records, all comma-separated. Number parsing (atoi and %d, atof and %f) is a
    parameter; the printf formatting of the numbers is not modelled, so the output
    is a header record and one record per WEA line. */
module Epw2Wea {
  import opened RtError
  import RtMain

  /** atoi / %d and atof / %f on the text of one field. */
  datatype Num = Num(toInt: string -> int, toReal: string -> real)

  const LOCATION: string := "LOCATION"

  /** The text of `s` after its `n`-th comma (empty when it has fewer). */
  function After(s: string, n: nat): string
    decreases |s|
  {
    if n == 0 then s
    else if s == [] then []
    else if s[0] == ',' then After(s[1..], n - 1)
    else After(s[1..], n)
  }

  /** `s` up to its first comma, as `%[^,]` reads it. */
  function UpToComma(s: string): (r: string)
    ensures |r| <= |s| && r == s[..|r|] && ',' !in r
    ensures |r| < |s| ==> s[|r|] == ','
  {
    if s == [] || s[0] == ',' then [] else [s[0]] + UpToComma(s[1..])
  }

  /** Field `k` (from 0) of a comma-separated line. */
  function Field(line: string, k: nat): string
  {
    UpToComma(After(line, k))
  }

  /** isspace: blank, tab, line feed, vertical tab, form feed, carriage return. */
  predicate IsSpace(c: char)
  {
    c == ' ' || '\t' <= c <= '\r'
  }

  /** The word `%s` reads: white space skipped, then up to the next white space. */
  function Word(s: string): (r: string)
    ensures forall c :: c in r ==> !IsSpace(c)
  {
    if s == [] then []
    else if IsSpace(s[0]) then Word(s[1..])
    else WordChars(s)
  }

  /** The characters of `s` up to its first white space. */
  function WordChars(s: string): (r: string)
    ensures |r| <= |s| && r == s[..|r|] && forall c :: c in r ==> !IsSpace(c)
    ensures |r| < |s| ==> IsSpace(s[|r|])
  {
    if s == [] || IsSpace(s[0]) then [] else [s[0]] + WordChars(s[1..])
  }

  /** `%s` skips the leading white space, then reads the word after it. */
  lemma {:induction false} WordAfterSpace(s: string, k: nat)
    requires k <= |s| && (forall j :: 0 <= j < k ==> IsSpace(s[j]))
    requires k == |s| || !IsSpace(s[k])
    ensures Word(s) == WordChars(s[k..])
  {
    if k > 0 {
      assert IsSpace(s[0]);
      var t := s[1..];
      forall j | 0 <= j < k - 1 ensures IsSpace(t[j]) {
        assert t[j] == s[j + 1];
      }
      assert k - 1 == |t| || t[k - 1] == s[k];
      WordAfterSpace(t, k - 1);
      assert t[k - 1..] == s[k..];
    } else {
      assert s[0..] == s;
    }
  }

  /** A line made of the fields `fs`, separated by commas. */
  function Join(fs: seq<string>): string
  {
    if fs == [] then [] else if |fs| == 1 then fs[0] else fs[0] + [','] + Join(fs[1..])
  }

  predicate CommaFree(fs: seq<string>)
  {
    forall k :: 0 <= k < |fs| ==> ',' !in fs[k]
  }

  lemma {:induction false} UpToCommaAppend(a: string, b: string)
    requires ',' !in a
    ensures UpToComma(a + [','] + b) == a
    ensures UpToComma(a) == a
  {
    if a != [] {
      assert (a + [','] + b)[1..] == a[1..] + [','] + b;
      UpToCommaAppend(a[1..], b);
    } else {
      assert (a + [','] + b)[0] == ',';
    }
  }

  lemma {:induction false} AfterAppend(a: string, b: string, n: nat)
    requires ',' !in a
    ensures After(a + [','] + b, n + 1) == After(b, n)
    decreases |a|
  {
    if a == [] {
      assert a + [','] + b == [','] + b;
      assert ([','] + b)[1..] == b;
    } else {
      assert (a + [','] + b)[1..] == a[1..] + [','] + b;
      AfterAppend(a[1..], b, n);
    }
  }

  /** The inverse of `Join`: field `k` of a line joined from comma-free fields is
      the `k`-th of them. */
  lemma {:induction false} FieldOfJoin(fs: seq<string>, k: nat)
    requires CommaFree(fs) && k < |fs|
    ensures Field(Join(fs), k) == fs[k]
    decreases k
  {
    if |fs| == 1 {
      UpToCommaAppend(fs[0], []);
    } else if k == 0 {
      UpToCommaAppend(fs[0], Join(fs[1..]));
    } else {
      AfterAppend(fs[0], Join(fs[1..]), k - 1);
      FieldOfJoin(fs[1..], k - 1);
    }
  }

  /** The text after the last of the comma-free fields before `k`. */
  lemma {:induction false} AfterJoin(fs: seq<string>, k: nat)
    requires CommaFree(fs) && k < |fs|
    ensures After(Join(fs), k) == Join(fs[k..])
    decreases k
  {
    if k > 0 {
      AfterAppend(fs[0], Join(fs[1..]), k - 1);
      AfterJoin(fs[1..], k - 1);
      assert fs[1..][k - 1..] == fs[k..];
    }
  }

  /** What the arguments select: the usage error (fewer than two file names), a bad
      extra argument, or the two file names and whether `-a` asks for the aerosol
      optical depth and sky cover columns. */
  datatype Args = Usage | BadOption(arg: string) | Files(epwFile: string, weaFile: string, getAc: bool)

  /** The first extra argument from `i` on that does not start with `-`. */
  function FirstBad(args: seq<string>, i: nat): (r: Option<nat>)
    ensures r.Some? ==> i <= r.value < |args| && RtMain.CharAt(args[r.value], 0) != '-'
    ensures r.Some? ==> forall k :: i <= k < r.value ==> RtMain.CharAt(args[k], 0) == '-'
    ensures r.None? ==> forall k :: i <= k < |args| ==> RtMain.CharAt(args[k], 0) == '-'
    decreases |args| - i
  {
    if i >= |args| then None
    else if RtMain.CharAt(args[i], 0) != '-' then Some(i)
    else FirstBad(args, i + 1)
  }

  /** `args[0]` is the program name. */
  function Arguments(args: seq<string>): Args
  {
    if |args| < 3 then Usage
    else match FirstBad(args, 3)
      case Some(k) => BadOption(args[k])
      case None =>
        Files(args[1], args[2], |args| == 4 && RtMain.CharAt(args[3], 0) == '-' && RtMain.CharAt(args[3], 1) == 'a')
  }

  /** The argument rules: two file names at least; every extra word must be an option,
      the first that is not is reported; and `-a` counts only as the one extra word. */
  lemma ArgumentRules(args: seq<string>)
    ensures Arguments(args) == Usage <==> |args| < 3
    ensures Arguments(args).BadOption? <==>
      |args| >= 3 && exists k :: 3 <= k < |args| && RtMain.CharAt(args[k], 0) != '-'
    ensures Arguments(args).BadOption? ==>
      exists k :: (3 <= k < |args| && Arguments(args).arg == args[k] &&
        RtMain.CharAt(args[k], 0) != '-' && forall j :: 3 <= j < k ==> RtMain.CharAt(args[j], 0) == '-')
    ensures Arguments(args).Files? ==> Arguments(args).epwFile == args[1] && Arguments(args).weaFile == args[2]
    ensures Arguments(args).Files? ==>
      (Arguments(args).getAc <==> |args| == 4 && |args[3]| >= 2 && args[3][..2] == "-a")
  {
    if |args| >= 3 && Arguments(args).BadOption? {
      var k :| k == FirstBad(args, 3).value;
      assert 3 <= k < |args| && Arguments(args).arg == args[k];
    }
    if Arguments(args).Files? && |args| == 4 && |args[3]| >= 2 && args[3][..2] == "-a" {
      assert args[3][0] == '-' && args[3][1] == 'a';
    }
  }

  /** The WEA header: `place` from the city and the country, the latitude and the
      elevation as written, the longitude and the time zone meridian negated into the
      WEA sign convention. The time zone is printed on the terminal from atof and
      written to the file from atoi. */
  datatype Header = Header(
    place: string, latitude: string, longitude: real,
    timeZoneShown: real, timeZone: real, elevation: string)

  /** The LOCATION line: fields 1 (city), 2 and 3 (both read into the country, an empty
      field 3 leaving field 2), 6 (latitude), 7 (longitude), 8 (time zone) and the word
      after the ninth comma (elevation). */
  function HeaderOf(line: string, num: Num): Header
  {
    var country := if Field(line, 3) != [] then Field(line, 3) else Field(line, 2);
    Header(
      Field(line, 1) + "_" + country, Field(line, 6), -num.toReal(Field(line, 7)),
      -15.0 * num.toReal(Field(line, 8)), -15.0 * (num.toInt(Field(line, 8)) as real),
      Word(After(line, 9)))
  }

  /** A header line of comma-free fields `fs`: which field ends up where. */
  lemma HeaderFields(fs: seq<string>, num: Num)
    requires CommaFree(fs) && |fs| >= 10
    ensures var h := HeaderOf(Join(fs), num);
      && h.place == fs[1] + "_" + (if fs[3] != "" then fs[3] else fs[2])
      && h.latitude == fs[6]
      && h.longitude == -num.toReal(fs[7])
      && h.timeZoneShown == -15.0 * num.toReal(fs[8])
      && h.timeZone == -15.0 * (num.toInt(fs[8]) as real)
      && h.elevation == Word(Join(fs[9..]))
  {
    FieldOfJoin(fs, 1);
    FieldOfJoin(fs, 2);
    FieldOfJoin(fs, 3);
    FieldOfJoin(fs, 6);
    FieldOfJoin(fs, 7);
    FieldOfJoin(fs, 8);
    AfterJoin(fs, 9);
  }

  /** `lines[k]`, or an empty line past the end of the file. */
  function LineAt(lines: seq<string>, k: nat): string
  {
    if k < |lines| then lines[k] else []
  }

  /** The time step in minutes: field 2 of the DATA PERIODS line, where 1 (one record
      per hour) stands for 60. */
  function TimeStep(lines: seq<string>, num: Num): (minute: int)
    ensures minute != 1
    ensures minute == 60 <==> num.toInt(Field(LineAt(lines, 7), 2)) in {1, 60}
    ensures num.toInt(Field(LineAt(lines, 7), 2)) != 1 ==> minute == num.toInt(Field(LineAt(lines, 7), 2))
  {
    var m := num.toInt(Field(LineAt(lines, 7), 2));
    if m == 1 then 60 else m
  }

  /** One WEA line: month, day, the decimal hour (the middle of the measuring
      interval), direct normal and diffuse horizontal irradiance, and with `-a` the
      aerosol optical depth and the sky cover in tenths. */
  datatype WeaLine = WeaLine(month: int, day: int, hour: real, dirNorm: real, difHor: real, extras: Option<Extras>)

  /** The `-a` columns: aerosol optical depth, and total sky cover in tenths as a fraction. */
  datatype Extras = Extras(aod: real, skyCover: real)

  /** The WEA line of EPW data record `line`: fields 1, 2, 3 (month, day, hour), 14 and
      15, and with `-a` fields 29 and 22. */
  function Record(line: string, minute: int, getAc: bool, num: Num): WeaLine
  {
    WeaLine(
      num.toInt(Field(line, 1)), num.toInt(Field(line, 2)),
      (num.toInt(Field(line, 3)) as real) - (minute as real) * (0.5 / 60.0),
      num.toReal(Field(line, 14)), num.toReal(Field(line, 15)),
      if getAc then Some(Extras(num.toReal(Field(line, 29)), (num.toInt(Field(line, 22)) as real) / 10.0)) else None)
  }

  /** A data record of comma-free fields `fs`: which field ends up where. The hour is
      moved back by half the time step. */
  lemma RecordFields(fs: seq<string>, minute: int, getAc: bool, num: Num)
    requires CommaFree(fs) && |fs| >= 16 && (getAc ==> |fs| >= 30)
    ensures var r := Record(Join(fs), minute, getAc, num);
      && r.month == num.toInt(fs[1]) && r.day == num.toInt(fs[2])
      && r.hour == (num.toInt(fs[3]) as real) - (minute as real) / 120.0
      && r.dirNorm == num.toReal(fs[14]) && r.difHor == num.toReal(fs[15])
      && (r.extras.Some? <==> getAc)
      && (getAc ==> r.extras.value == Extras(num.toReal(fs[29]), (num.toInt(fs[22]) as real) / 10.0))
  {
    var line := Join(fs);
    FieldOfJoin(fs, 1);
    FieldOfJoin(fs, 2);
    FieldOfJoin(fs, 3);
    FieldOfJoin(fs, 14);
    FieldOfJoin(fs, 15);
    if getAc {
      FieldOfJoin(fs, 22);
      FieldOfJoin(fs, 29);
      assert Field(line, 22) == fs[22] && Field(line, 29) == fs[29];
    }
  }

  /** With hourly records the hour stamp is half an hour before the record's hour. */
  lemma HourlyStamp(line: string, lines: seq<string>, getAc: bool, num: Num)
    requires num.toInt(Field(LineAt(lines, 7), 2)) == 1
    ensures Record(line, TimeStep(lines, num), getAc, num).hour == (num.toInt(Field(line, 3)) as real) - 0.5
  {
  }

  /** What a run ends with: the usage error (exit 1), a bad argument reported on the
      standard output (exit 0), a file that does not start with LOCATION (exit 1), or
      the header and the lines written to the WEA file (exit 0). */
  datatype Outcome = UsageError | BadArgument(arg: string) | NotEpw | Converted(header: Header, wea: seq<WeaLine>)

  function ExitCode(r: Outcome): int
  {
    match r
    case UsageError => 1
    case BadArgument(_) => 0
    case NotEpw => 1
    case Converted(_, _) => 0
  }

  /** The WEA lines of the data records, the lines after the eight header lines. */
  function Records(lines: seq<string>, minute: int, getAc: bool, num: Num): (wea: seq<WeaLine>)
    ensures |wea| == if |lines| > 8 then |lines| - 8 else 0
  {
    var count := if |lines| > 8 then |lines| - 8 else 0;
    seq(count, k requires 0 <= k < count => Record(lines[k + 8], minute, getAc, num))
  }

  /** The conversion of EPW file `lines` under `args`. */
  function Conversion(args: seq<string>, lines: seq<string>, num: Num): Outcome
  {
    match Arguments(args)
    case Usage => UsageError
    case BadOption(a) => BadArgument(a)
    case Files(_, _, getAc) =>
      if Field(LineAt(lines, 0), 0) != LOCATION then NotEpw
      else Converted(HeaderOf(lines[0], num), Records(lines, TimeStep(lines, num), getAc, num))
  }

  /** The outcomes and their exit codes: a file is converted only under good arguments
      and a LOCATION first line, and then every line after the eight header lines
      gives one WEA line, in order. */
  lemma ConversionRules(args: seq<string>, lines: seq<string>, num: Num)
    ensures (ExitCode(Conversion(args, lines, num)) == 1) <==>
      Arguments(args).Usage? || (Arguments(args).Files? && Field(LineAt(lines, 0), 0) != LOCATION)
    ensures Conversion(args, lines, num).Converted? <==>
      Arguments(args).Files? && |lines| > 0 && Field(lines[0], 0) == LOCATION
    ensures Conversion(args, lines, num).Converted? ==>
      var wea := Conversion(args, lines, num).wea;
      && |wea| == (if |lines| > 8 then |lines| - 8 else 0)
      && forall k :: 0 <= k < |wea| ==> wea[k] == Record(lines[k + 8], TimeStep(lines, num), Arguments(args).getAc, num)
  {
    if |lines| == 0 {
      assert Field(LineAt(lines, 0), 0) == [];
    }
  }

  /** The argument checks of main. */
  method CheckArguments(args: seq<string>) returns (a: Args)
    ensures a == Arguments(args)
  {
    if |args| < 3 {
      return Usage;
    }
    var getAc := |args| == 4 && RtMain.CharAt(args[3], 0) == '-' && RtMain.CharAt(args[3], 1) == 'a';
    var i := 3;
    while i < |args|
      invariant 3 <= i <= |args|
      invariant FirstBad(args, 3) == FirstBad(args, i)
    {
      if RtMain.CharAt(args[i], 0) != '-' {
        return BadOption(args[i]);
      }
      i := i + 1;
    }
    return Files(args[1], args[2], getAc);
  }

  /** The fields one data line yields, read and printed by the loop of main. */
  method ConvertRecord(line: string, minute: int, getAc: bool, num: Num) returns (rec: WeaLine)
    ensures rec == Record(line, minute, getAc, num)
  {
    var month, day, hourIn := num.toInt(Field(line, 1)), num.toInt(Field(line, 2)), num.toInt(Field(line, 3));
    var dirNormRad, difOrRad := num.toReal(Field(line, 14)), num.toReal(Field(line, 15));
    var extras := None;
    if getAc {
      var cc := num.toInt(Field(line, 22));
      var aod := num.toReal(Field(line, 29));
      extras := Some(Extras(aod, (cc as real) / 10.0));
    }
    rec := WeaLine(month, day, (hourIn as real) - (minute as real) * (0.5 / 60.0), dirNormRad, difOrRad, extras);
  }

  /** The record loop of main: one WEA line per data record, in order. */
  method ConvertRecords(lines: seq<string>, minute: int, getAc: bool, num: Num) returns (wea: seq<WeaLine>)
    ensures wea == Records(lines, minute, getAc, num)
  {
    wea := [];
    var n := 8;
    while n < |lines|
      invariant 8 <= n <= (if |lines| > 8 then |lines| else 8)
      invariant wea == Records(lines[..if n < |lines| then n else |lines|], minute, getAc, num)
    {
      var rec := ConvertRecord(lines[n], minute, getAc, num);
      RecordsStep(lines, n, minute, getAc, num);
      wea := wea + [rec];
      n := n + 1;
    }
    assert lines[..|lines|] == lines;
  }

  /** One more data line adds its record. */
  lemma RecordsStep(lines: seq<string>, n: nat, minute: int, getAc: bool, num: Num)
    requires 8 <= n < |lines|
    ensures Records(lines[..n + 1], minute, getAc, num) == Records(lines[..n], minute, getAc, num) + [Record(lines[n], minute, getAc, num)]
  {
    var a, b := Records(lines[..n + 1], minute, getAc, num), Records(lines[..n], minute, getAc, num);
    assert |a| == |b| + 1;
    forall k | 0 <= k < |b|
      ensures a[k] == b[k]
    {
      assert lines[..n + 1][k + 8] == lines[..n][k + 8];
    }
    assert a[|b|] == Record(lines[n], minute, getAc, num);
  }

  /** The header fields main reads from the LOCATION line and prints. */
  method ReadHeader(line: string, num: Num) returns (header: Header)
    ensures header == HeaderOf(line, num)
  {
    var city := Field(line, 1);
    var country := Field(line, 2);
    if Field(line, 3) != [] {
      country := Field(line, 3);
    }
    var timeZone := Field(line, 8);
    header := Header(
      city + "_" + country, Field(line, 6), -num.toReal(Field(line, 7)),
      -15.0 * num.toReal(timeZone), -15.0 * (num.toInt(timeZone) as real), Word(After(line, 9)));
  }

  /** main: the argument checks, the LOCATION line, the time step, then the records. */
  method Run(args: seq<string>, lines: seq<string>, num: Num) returns (r: Outcome)
    ensures r == Conversion(args, lines, num)
  {
    var a := CheckArguments(args);
    if a.Usage? {
      return UsageError;
    } else if a.BadOption? {
      return BadArgument(a.arg);
    }
    var keyword := Field(LineAt(lines, 0), 0);
    if keyword != LOCATION {
      return NotEpw;
    }
    var header := ReadHeader(lines[0], num);
    var minute := num.toInt(Field(LineAt(lines, 7), 2));
    if minute == 1 {
      minute := 60;
    }
    assert minute == TimeStep(lines, num);
    var wea := ConvertRecords(lines, minute, a.getAc, num);
    r := Converted(header, wea);
  }
}
