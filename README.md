# rtrace driver, GPU utilities, metafile macros and epw2wea, modelled in Dafny

This project models five parts of Accelerad, the GPU-accelerated build of the
Radiance lighting simulation suite:

- **rtrace's driver.** It reads rays (an origin and a direction each) in
  bundles and hands them to the ray-tracing simulation manager. It decides when
  the manager must flush its queue. A zero direction, or a full bundle in
  flushing mode, triggers a flush. It stops once the expected number of rays
  (`-x` times `-y`) has been queued.
- **rtrace's output specification.** The `-o` letters are compiled into two
  tables of output fields: one for the value of every ray, and one for trace
  output of every ray in the ray tree. The compiler also yields the number of
  output components, the ray-casting-only flag and its warnings. The
  call-backs that print a ray's values, and the trace-filtered ray tree
  indented by depth, are modelled too. So is the set of modifiers named with
  `-ti`/`-te`.
- **rtrace's command line.** This covers the boolean switch rule, the format,
  trace list and persist options, and the checks of the process count. It
  also covers `eputs`, which prefixes each error line with the program name,
  and the `-x` label of the defaults listing.
- **The GPU utility code.** This covers the capacity-doubling growable arrays
  and the base name of a path. It also covers the debugging log of GPU
  exception types: insertion-ordered (type, count) pairs, reported on flush.
- **Metafile macros.** These are the 2^14 coordinate space and its conversions,
  line widths, `min`/`max`/`abs`, and the command letter table.
- **`epw2wea`.** It converts an EnergyPlus weather file into the DAYSIM
  weather format.

Stateful code is modelled as classes and methods:

- the growable arrays, over a real `array` that is reallocated by copying;
- the exception log;
- the trace set;
- the output tables;
- the option settings;
- the error stream;
- rtrace's loop, over the real input buffer;
- the simulation manager.

Each method is proved against a specification function. The functions' own
properties are proved as lemmas. For example, the rays queued are a prefix
of the decoded input rays, never more than expected, and every flush follows
an enqueue. Other examples are the exception log being a frequency table in
insertion order and the CONV/ICONV round-trip bounds.

The following become parameters of the model:

- The number parsers (`atoi`, `atof`, `%d`, `%f`).
- The render-option parser and `badarg`'s argument tests.
- Whether `expandarg` fails on a word. The option loop sees the argument words
  after their expansion.
- The word-file reader.
- The manager's replies.
- The application's own OptiX exception codes, which are declared in a header
  this model does not have.

Files, streams and printing are modelled as the values they carry. Where the
code left a choice open, the model follows the code.

## Model

| member | source | states |
|---|---|---|
| Meta.ToInt32 | src/meta/meta.h:100-101 | the `(int)` cast keeps a value already in range and otherwise differs from it by a multiple of 2^32 |
| Meta.CDiv | src/meta/meta.h:101 | C's truncating division agrees with floor division for a non-negative dividend and a positive divisor |
| Meta.CDivTruncates | src/meta/meta.h:101 | C's division truncates toward zero: negating the dividend or the divisor negates the quotient |
| Meta.IConv | src/meta/meta.h:101 | ICONV as written: the 64-bit product dcoord*2^14, C's truncating division by the size, and the `(int)` cast; its values are stated by the IConv lemmas below |
| Meta.Conv | src/meta/meta.h:100 | CONV maps 0 to 0 and XYSIZE to the device size, and keeps the metafile square within [0, size] |
| Meta.ConvBounds | src/meta/meta.h:100 | the scaled product stays within [-size, size] over the square and its mirror, is non-negative for non-negative operands, and is the size at XYSIZE |
| Meta.ConvValue | src/meta/meta.h:100 | within the metafile square and its mirror, CONV never wraps: it is the floor of coord*size/2^14 |
| Meta.ConvMonotone | src/meta/meta.h:100 | CONV is monotone in the coordinate for a non-negative device size |
| Meta.IConvEnds | src/meta/meta.h:101 | ICONV maps device 0 to 0 and the device size to XYSIZE, for either sign of the size |
| Meta.IConvValue | src/meta/meta.h:101 | for a device of any positive size and a coordinate from 0 to that size, ICONV is the floor of d*2^14/size and lies in [0, XYSIZE] |
| Meta.IConvNonNegative | src/meta/meta.h:101 | for non-negative operands the truncating division is floor division |
| Meta.IConvAfterConv | src/meta/meta.h:100-101 | metafile to device and back never moves a coordinate upward |
| Meta.ConvAfterIConv | src/meta/meta.h:100-101 | device to metafile and back loses at most one device unit |
| Meta.Width | src/meta/meta.h:99 | WIDTH is 0 for specification 0 and 12*2^w (at least 24) otherwise |
| Meta.WidthFits | src/meta/meta.h:99 | for every width specification below 28, the width fits in an `int` |
| Meta.WidthDoubles | src/meta/meta.h:99 | each step up in width specification doubles the width |
| Meta.Max | src/meta/meta.h:86-88 | the result is one of the two arguments and bounds both from above |
| Meta.Min | src/meta/meta.h:89-91 | the result is one of the two arguments and bounds both from below |
| Meta.Abs | src/meta/meta.h:93 | the result is non-negative and is the argument or its negation |
| Meta.CommandTable | src/meta/meta.h:23-44 | COML holds NCOMMANDS distinct letters, exactly the global and primitive codes; `isglob` picks out the globals and `isprim` the primitives |
| OptixArrays.DynArray.constructor | src/rt/optix_util.c:407-417 | initArray*: an empty array with `initialSize` slots |
| OptixArrays.DynArray.Grow | src/rt/optix_util.c:421-426 | the doubling `realloc`: twice the capacity, the old slots kept, the count unchanged |
| OptixArrays.DynArray.Insert | src/rt/optix_util.c:419-428 | insertArray*: appends the element and returns it, doubling the capacity exactly when the array was full |
| OptixArrays.DynArray.Insert2 | src/rt/optix_util.c:430-440 | appends two elements and returns the second, doubling once when fewer than two slots remain |
| OptixArrays.DynArray.Insert3 | src/rt/optix_util.c:442-453 | appends three elements and returns the third, doubling once when fewer than three slots remain |
| OptixArrays.OneDoublingSuffices | src/rt/optix_util.c:430-453 | one doubling makes room for two (three) elements once the capacity is at least two (three), and not below that |
| OptixUtil.FileName | src/rt/optix_util.c:688-706 | the result is the suffix of the path after its last `/` or `\`, holds no separator, and is the whole path when there is none |
| OptixUtil.NameOf | src/rt/optix_util.c:628-652 | the switch of printException: the application's INF and NAN codes and the eight OptiX codes get their fixed names, any other code is unknown, carrying the code |
| OptixUtil.PrintException | src/rt/optix_util.c:614-658 | nothing below count 1; otherwise a warning at `location` with the count only when above 1; custom codes are named by their offset from the custom base |
| OptixUtil.Logged | src/rt/optix_util.c:583-599 | logException on the pairs: type 0 leaves them alone, any other type is recorded |
| OptixUtil.Record | src/rt/optix_util.c:592-598 | the search and update of logException: a logged type's count goes up by one in place, a new type is appended as (type, 1); the log grows by at most one pair |
| OptixUtil.Reports | src/rt/optix_util.c:601-612 | flushExceptionLog's reports: printException applied to each pair, in the log's order |
| OptixUtil.RecordCounts | src/rt/optix_util.c:592-598 | recording a type raises its count by one and leaves every other count alone |
| OptixUtil.RecordTypes | src/rt/optix_util.c:592-598 | recording keeps the logged types in order, appending a type only when it is new |
| OptixUtil.LoggedWellFormed | src/rt/optix_util.c:583-599 | logging keeps the log well formed: distinct non-zero types, positive counts |
| OptixUtil.RecordEntries | src/rt/optix_util.c:592-598 | recording a non-zero type keeps every type non-zero and every count positive |
| OptixUtil.LogAllCounts | src/rt/optix_util.c:583-599 | after any run of exceptions, each non-zero type's count is the number of times it occurred |
| OptixUtil.ReportsFollowLog | src/rt/optix_util.c:601-612 | flushing reports every logged pair once, in insertion order, each with its count |
| OptixUtil.ExceptionLog.constructor | src/rt/optix_util.c:581 | the log starts absent, holding no pairs |
| OptixUtil.ExceptionLog.LogException | src/rt/optix_util.c:583-599 | type 0 changes nothing; otherwise the log (created on first use) bumps a known type or appends (type, 1), staying well formed |
| OptixUtil.ExceptionLog.BumpCount | src/rt/optix_util.c:593-595 | the in-place increment of the found pair's count is the log's update for that type |
| OptixUtil.ExceptionLog.AppendType | src/rt/optix_util.c:598 | appending (type, 1) through insertArray2i is the log's update for a new type |
| OptixUtil.ExceptionLog.FlushExceptionLog | src/rt/optix_util.c:601-612 | the reports of the pairs in order, and the log freed |
| OptixUtil.FindType | src/rt/optix_util.c:592-596 | the index of the first pair of the type, or the count when there is none, with no earlier pair of that type |
| OptixUtil.ReportAll | src/rt/optix_util.c:607-608 | the loop over the block yields the reports of its pairs, in order |
| RayInput.Read | src/rt/ratrace.cpp:147-162 | getrays never reads more than `n` rays, consumes at most one record beyond them, and reads nothing for `n <= 0` |
| RayInput.ReadSpec | src/rt/ratrace.cpp:147-162 | what getrays stops on: a full bundle, the end of input, a ray with a zero direction (counted), or a record that fails to decode (not counted) |
| RayInput.ReadExact | src/rt/ratrace.cpp:147-162 | conversely, any count that fits those stopping rules is the one getrays returns |
| RayInput.ReadFrom | src/rt/ratrace.cpp:147-162 | the converse stated at a position of the whole input |
| RayInput.ReadFailed | src/rt/ratrace.cpp:152-158 | after a run of plain rays, a record that fails to decode ends the read; it is consumed but not counted |
| RayInput.ReadZero | src/rt/ratrace.cpp:153-159 | a ray with a zero direction ends the read and is counted |
| RayInput.ReadFull | src/rt/ratrace.cpp:151-159 | with only plain rays, the read stops at a full bundle or the end of input |
| RayInput.Flat | src/rt/ratrace.cpp:153-159 | the buffer layout holds two vectors per ray |
| RayInput.GetRays | src/rt/ratrace.cpp:147-162 | the loop over the buffer returns `Read`'s counts and leaves the rays read, origin then direction, in slots 0 .. 2*nread-1 |
| RayInput.StoreRay | src/rt/ratrace.cpp:153-156 | storing ray i after rays 0 .. i-1 extends the loaded prefix by its origin and direction |
| SimulManager.Manager.constructor | src/rt/ratrace.cpp:193 | the manager starts with no calls logged and its fixed replies |
| SimulManager.Manager.SetThreadCount | src/rt/ratrace.cpp:192-202 | the call is logged and answered with the settled thread count |
| SimulManager.Manager.SetCookedCall | src/rt/ratrace.cpp:194-195 | the call is logged |
| SimulManager.Manager.SetTraceCall | src/rt/ratrace.cpp:196-197 | the call is logged |
| SimulManager.Manager.SetFifo | src/rt/ratrace.cpp:203 | the FIFO flag setting is logged |
| SimulManager.Manager.EnqueueBundle | src/rt/ratrace.cpp:217-218 | the bundle is logged; the reply is negative exactly on failure |
| SimulManager.Manager.FlushQueue | src/rt/ratrace.cpp:222-223 | the flush is logged and answered |
| Rtrace.FlushInterval | src/rt/ratrace.cpp:172 | the output is flushed every `hresolu` rays when there is no vertical resolution or `hresolu <= 1`, and never otherwise |
| Rtrace.Capacity | src/rt/ratrace.cpp:173-174 | a bundle holds one ray without a flush interval, and one interval's worth with one |
| Rtrace.CapacityOfResolution | src/rt/ratrace.cpp:172-176 | a bundle has room for a ray exactly when the flush interval is non-negative; it holds `hresolu` rays without a vertical resolution, and one ray for `hresolu` 0 or for a full image |
| Rtrace.VCount | src/rt/ratrace.cpp:170-171 | the expected ray count is hresolu*vresolu for hresolu > 1, vresolu otherwise, as unsigned 64-bit; a negative vresolu wraps to a huge count |
| Rtrace.ProductRange | src/rt/ratrace.cpp:170-171 | the product of two `int` resolutions never leaves the signed 64-bit range, so the unsigned count is exact for non-negative resolutions |
| Rtrace.FlushStep | src/rt/ratrace.cpp:219-227 | the flush decision and the pending flag after one bundle; its rule is stated by `Rtrace.FlushRule` |
| Rtrace.EndWarnings | src/rt/ratrace.cpp:233-235 | after the loop, a warning only when rays were still expected: end of input when nothing more could be read, a read error otherwise |
| Rtrace.Loop | src/rt/ratrace.cpp:212-232 | the `while ((n = getrays(...)) > 0)` loop as a function of the input position, the rays still expected and the pending flag |
| Rtrace.Pass | src/rt/ratrace.cpp:212-218 | one loop pass after getrays: no ray read ends the loop with `EndWarnings`; otherwise the bundle is cut and enqueued, and a failed enqueue is a user error |
| Rtrace.AfterEnqueue | src/rt/ratrace.cpp:219-231 | the rest of a pass: the flush rule, a failed flush as a user error, the stop once the expected rays are in, and the next pass |
| Rtrace.SetupEvents | src/rt/ratrace.cpp:190-203 | the manager calls of the set-up: the default thread query when needed, printvals when `ray_out` is non-empty, ourtrace when `every_out` is non-empty, the thread count and the FIFO flag |
| Rtrace.RtraceRun | src/rt/ratrace.cpp:164-243 | a whole run: no buffer for a bundle capacity below one (a system error), otherwise the set-up followed by the loop from the first ray with `VCount` rays expected |
| Rtrace.Workers | src/rt/ratrace.cpp:190-201 | one worker when only casting or tracing; never more than a positive flush interval; the request (or default) otherwise |
| Rtrace.FlushRule | src/rt/ratrace.cpp:219-227 | a flush needs something pending and clears it; a lone ray with nothing pending is never flushed; a zero direction or a full interval flushes exactly when something is pending |
| Rtrace.Cut | src/rt/ratrace.cpp:213-216 | the bundle is cut to the rays still expected, never below one ray |
| Rtrace.PassEnqueue | src/rt/ratrace.cpp:212-218 | a loop pass that read rays enqueues the cut bundle first, and a failed enqueue ends the run with a user error |
| Rtrace.Rtrace | src/rt/ratrace.cpp:164-243 | the run, warnings and manager calls of the whole driver; a resolution line is printed exactly when both resolutions are positive |
| Rtrace.RunLoop | src/rt/ratrace.cpp:212-232 | the loop over the buffer makes exactly the passes the loop function describes, and the manager's log grows by its calls |
| Rtrace.SetUp | src/rt/ratrace.cpp:190-203 | the set-up calls in order (default thread query, call-backs, thread count, FIFO) and the warning when the process count is capped |
| Rtrace.ReadBundle | src/rt/ratrace.cpp:212-232 | one pass of the loop body: either it ends the loop with the run's tail, or it goes on from a later input position |
| Rtrace.Submit | src/rt/ratrace.cpp:213-231 | the pass once rays are in the buffer: cut, enqueue, flush rule, end check |
| Rtrace.CutBundle | src/rt/ratrace.cpp:213-216 | the bundle handed over is the first `n` buffered rays, cut to the count with the "extra rays" warning |
| Rtrace.FlushPart | src/rt/ratrace.cpp:219-231 | the flush by the flush rule (a failed flush is a user error), then the stop once the expected rays are in |
| Rtrace.DecodedRead | src/rt/ratrace.cpp:152-158 | one bundle read takes the next decoded records and drops the failed record after them |
| Rtrace.LoopUnfold | src/rt/ratrace.cpp:212-232 | a loop pass as manager calls: nothing when no ray is read, else one enqueue, at most one flush, and the rest of the loop only after a whole bundle with rays still expected |
| Rtrace.EnqueuedWithinCount | src/rt/ratrace.cpp:213-216 | with `vcount > 0` expected, no more than `vcount` rays are ever enqueued |
| Rtrace.EnqueuedFromInput | src/rt/ratrace.cpp:212-232 | the rays enqueued are, in order, a prefix of the decoded input rays: none skipped, repeated or invented |
| Rtrace.LoopBundles | src/rt/ratrace.cpp:217-227 | the loop's manager calls are enqueues, each followed by at most one flush |
| Rtrace.FlushFollowsEnqueue | src/rt/ratrace.cpp:217-227 | in such a call sequence every flush comes right after an enqueue |
| Rtrace.RunRays | src/rt/ratrace.cpp:164-243 | over a whole run, the rays reaching the manager are a prefix of the decoded input, bounded by the expected count, and every flush follows an enqueue |
| Rtrace.SetupPayload | src/rt/ratrace.cpp:190-203 | the set-up neither enqueues nor flushes |
| RtOutput.Place | src/rt/ratrace.cpp:278-371 | a field letter: its field goes to the current table, its components are added, a value field ends casting-only mode, and V or W warn under inexact ambient settings |
| RtOutput.Trace | src/rt/ratrace.cpp:268-277 | a `t` or `T`: `T` asks for source tracing; unless it is the last letter, the trace table starts afresh and casting-only mode ends |
| RtOutput.ScanFrom | src/rt/ratrace.cpp:266-376 | the `do ... while` walk over the letters, stopped by the first unknown letter with a user error |
| RtOutput.Compile | src/rt/ratrace.cpp:245-265 | setrtoutput: an empty specification and a colour format with other than `v`, `r` or `x` are user errors, an unknown format a consistency error, and otherwise the walk decides |
| RtOutput.Finish | src/rt/ratrace.cpp:377-393 | the checks after the walk: its error, the irradiance check of casting-only mode, the count set to 0 with a trace table, and the table warnings |
| RtOutput.LetterRoundTrip | src/rt/ratrace.cpp:268-371 | output letters and output fields correspond one to one, and `t`/`T` name no field |
| RtOutput.ComponentTable | src/rt/ratrace.cpp:278-371 | three components for o d r x v V p n N W, one for R X l L s w m M, two for c, none for ~, and no other letter is a field |
| RtOutput.ScanStep | src/rt/ratrace.cpp:267-376 | one letter of the loop: `t`/`T` switches tables (unless last), a field letter places its field, anything else is a user error |
| RtOutput.CompileWalk | src/rt/ratrace.cpp:252-265 | for a non-empty specification in a non-colour format, only the letter walk decides the outcome |
| RtOutput.TableChecks | src/rt/ratrace.cpp:384-391 | one "require trace mode" warning per V/W entry and one irradiance-conflict warning per r/R/x/X entry, in table order |
| RtOutput.PlaceAllEffect | src/rt/ratrace.cpp:278-371 | a run of field letters appends its fields to the current table, adds their components and keeps casting-only only if none needs a value |
| RtOutput.ScanRun | src/rt/ratrace.cpp:267-376 | walking a run of field letters places its fields in order |
| RtOutput.PlainSpecification | src/rt/ratrace.cpp:245-393 | without `t`/`T`, the letters fill only the value table in order with their summed components; casting-only holds exactly when no letter needs a value, which irradiance rejects |
| RtOutput.TracedSpecification | src/rt/ratrace.cpp:269-280 | with a `t`/`T` between two runs, the first fills the value table and the second the trace table; the count is 0, values are computed, and `T` traces sources |
| RtOutput.TracedScan | src/rt/ratrace.cpp:269-277 | the walk behind that case |
| RtOutput.CutsCharacterised | src/rt/ratrace.cpp:269-277 | the first and the last `t`/`T` that is not the last letter, among the first `n` letters, are found exactly when one exists |
| RtOutput.SpecificationTables | src/rt/ratrace.cpp:245-393 | for every specification of known letters: value table before the first inner `t`/`T`, trace table after the last one, casting-only exactly with no value letter and no inner `t`/`T` (an error under irradiance), sources traced exactly when a `T` occurs, count 0 with a trace table and otherwise the components of all field letters |
| RtOutput.ValueTableEmpty | src/rt/ratrace.cpp:268-277 | the value table is empty exactly when the specification starts with `t` or `T` |
| RtOutput.CookedCallGuard | src/rt/ratrace.cpp:194-195 | after a successful compile, rtrace installs printvals and printvals prints exactly when the specification does not start with `t`/`T` |
| RtOutput.ScanRejects | src/rt/ratrace.cpp:372-375 | the first unknown letter stops the walk with its own error |
| RtOutput.ScanAccepts | src/rt/ratrace.cpp:267-376 | a walk without error has seen only known letters |
| RtOutput.UnknownLetters | src/rt/ratrace.cpp:372-375 | a specification compiles only if all its letters are known, and the error names the first unknown one |
| RtOutput.ScanFinalT | src/rt/ratrace.cpp:272-273 | a final `t` after another letter leaves the walk unchanged |
| RtOutput.FinalTraceIgnored | src/rt/ratrace.cpp:272-273 | appending a final `t` does not change what the compiler returns |
| RtOutput.ColorOutput | src/rt/ratrace.cpp:259-262 | colour output compiles exactly `v`, `r` and `x`, each one three-component value field |
| RtOutput.ScanLetter | src/rt/ratrace.cpp:268-375 | the switch body over one letter continues the walk as the specification does, or stops with its error |
| RtOutput.OutputTables.constructor | src/rt/ratrace.cpp:69 | both tables start empty |
| RtOutput.OutputTables.SetRtOutput | src/rt/ratrace.cpp:245-393 | the tables, count and warnings it leaves are the compiler's result, or it reports the compiler's error after the same warnings |
| RtOutput.OutputTables.Walk | src/rt/ratrace.cpp:266-376 | the letter loop fills the tables and flags as the walk does, and returns its warnings, error and count |
| RtOutput.PrintVals | src/rt/ratrace.cpp:395-414 | nothing for an empty value table; otherwise every field of the table in order, with a newline exactly for ASCII output; `RtOutput.CookedCallGuard` ties it to the compiled specification |
| RtOutput.FormStr | src/rt/ratrace.cpp:84-96 | formstr: the name of each data format letter, "unknown" for any other |
| RtOutput.FormStrNames | src/rt/ratrace.cpp:84-96 | the four format letters have four distinct names; every other letter is "unknown" |
| TraceFilter.Notify | src/rt/ratrace.cpp:416-442 | tranotify: OVOID resets the set and the overflow count; after an overflow, a non-modifier or an unlisted name nothing changes; a listed modifier enters the set while it has room, otherwise the overflow is counted and warned about |
| TraceFilter.NotifyBounded | src/rt/ratrace.cpp:434-439 | the trace set never grows past MAXTSET |
| TraceFilter.NotifyMembers | src/rt/ratrace.cpp:416-442 | exactly the listed modifiers offered while there is room and no overflow enter the set; OVOID empties it |
| TraceFilter.OverflowSticks | src/rt/ratrace.cpp:430-437 | after an overflow nothing changes until the next scene |
| TraceFilter.TraceSet.constructor | src/rt/ratrace.cpp:45 | the trace set starts empty with no overflow |
| TraceFilter.TraceSet.Tranotify | src/rt/ratrace.cpp:416-442 | the search of the trace list updates the set and overflow count as the notify function says, keeping the bound |
| TraceFilter.Depth | src/rt/ratrace.cpp:471-480 | the number of ancestors of a ray in the ray tree |
| TraceFilter.Traced | src/rt/ratrace.cpp:453-457 | ourtrace's filter on `traincl`: a ray that hit nothing is traced unless in include mode; a ray that hit a modifier is traced without a filter, or when its membership matches the mode |
| TraceFilter.Tabin | src/rt/ratrace.cpp:471-480 | one tab per ancestor of the ray |
| TraceFilter.FilterModes | src/rt/ratrace.cpp:453-457 | no filter traces every ray; include traces the rays that hit a listed modifier; exclude traces the rest, including the rays that hit nothing |
| TraceFilter.OurTrace | src/rt/ratrace.cpp:444-469 | a line exactly when the trace table is non-empty and the filter passes the ray, indented by depth, with the trace table's fields |
| RtMain.CheckBool | src/rt/rtmain.c:77-83 | check_bool: the switch character toggles, sets or clears the flag, or is a command-line error |
| RtMain.FormatOption | src/rt/rtmain.c:165-189 | the `-f` option on its word: input format from the third character, output format from the fourth or else the input format |
| RtMain.TraceOption | src/rt/rtmain.c:199-244 | the `-t` options: `-ti`/`-te` add a name, `-tI`/`-tE` a file's words, a change of mode restarting the list; `-t` alone is deprecated with a warning |
| RtMain.PersistOption | src/rt/rtmain.c:266-277 | the `-P` and `-PP` options with their file |
| RtMain.ParseFrom | src/rt/rtmain.c:108-330 | the option loop: a word expandarg cannot expand is a system error, the first word that is no option ends the loop, each option is one `Step` |
| RtMain.Compatibility | src/rt/rtmain.c:331-342 | the checks after the loop, in source order: the GPU path, then persistence, as errors; then the resolution and trace conflicts as warnings |
| RtMain.Octree | src/rt/rtmain.c:383-390 | the words after the options: none is "missing octree argument", exactly one is the octree, more is a command-line error at the first |
| RtMain.OctreeRule | src/rt/rtmain.c:383-390 | the octree word is accepted exactly when it is the only word after the options; "missing octree argument" exactly when no word is left, and every error is a user error |
| RtMain.XLabel | src/rt/rtmain.c:572-573 | the label of `-x` in the defaults listing |
| RtMain.Eput | src/rt/rtmain.c:510-528 | eputs on one string: the program name in front when at a line start, and the new line state |
| RtMain.CheckBoolRule | src/rt/rtmain.c:77-83 | no character toggles; y Y t T + 1 set; n N f F - 0 clear; anything else is a command-line error |
| RtMain.CheckBoolTwice | src/rt/rtmain.c:77-83 | setting and clearing are idempotent; toggling twice restores the flag |
| RtMain.ArgsOk | src/rt/rtmain.c:74-76 | passing the argument check implies a word for each expected argument |
| RtMain.FormatRule | src/rt/rtmain.c:165-189 | `-f` accepts exactly `-fX` and `-fXY` (X in a f d, Y in a f d c); the output format follows the input format when it is not given |
| RtMain.ExpandRule | src/rt/rtmain.c:108-117 | a word expandarg cannot expand stops the loop with the system error "cannot expand" naming it; an expanded word that is no option ends the loop there |
| RtMain.Step | src/rt/rtmain.c:108-329 | an option that succeeds moves on to a later word |
| RtMain.NprocPositive | src/rt/rtmain.c:133-138 | `-n` with a count that is not positive is a user error; otherwise it sets the process count |
| RtMain.PersistRule | src/rt/rtmain.c:266-277 | `-PP` selects parallel persistence and `-P` plain persistence, each taking the next word as its file |
| RtMain.TraceListRule | src/rt/rtmain.c:199-244 | changing include/exclude mode starts the list afresh, the same mode adds to it, and a trace file that cannot be opened is a system error |
| RtMain.CompatibilityRules | src/rt/rtmain.c:331-342 | with several processes, the GPU path (first) and persistence are errors, and a resolution or trace conflict is only a warning; one process passes |
| RtMain.CommandLine.constructor | src/rt/rtmain.c:61-64 | the settings start at the globals' initial values |
| RtMain.CommandLine.ParseOptions | src/rt/rtmain.c:108-330 | the option loop, with the expansion check of each word, ends as `RtMain.ParseFrom` says, leaving its settings |
| RtMain.CommandLine.ApplyOption | src/rt/rtmain.c:118-329 | one pass of the option loop is the option step, and the new settings are the step's |
| RtMain.XLabelMeansFlushing | src/rt/rtmain.c:572-573 | for a row length above one, `-x` is labelled the flush interval exactly when rtrace flushes every `hresolu` rays |
| RtMain.OneLine | src/rt/rtmain.c:510-528 | a line written in pieces gets the program name once, in front, and leaves the stream at a line start |
| RtMain.ErrorStream.constructor | src/rt/rtmain.c:515 | the stream starts at a line start with nothing written |
| RtMain.ErrorStream.Eputs | src/rt/rtmain.c:510-528 | the text and line state eputs leaves; an empty string writes nothing |
| Epw2Wea.Field | src/cv/epw2wea.c:59-75 | field k of a line: the text after its k-th comma up to the next comma, as the chain of `,%[^,]` reads it |
| Epw2Wea.Arguments | src/cv/epw2wea.c:31-55 | the argument checks: fewer than two file names, the first extra word that is no option, or the two files with `-a` |
| Epw2Wea.HeaderOf | src/cv/epw2wea.c:59-82 | the header main writes from the LOCATION line |
| Epw2Wea.Record | src/cv/epw2wea.c:101-139 | the WEA line main writes for one data record |
| Epw2Wea.Conversion | src/cv/epw2wea.c:31-144 | main's outcome: a usage error, a bad option, a file not starting with LOCATION, or the header and one WEA line per data record |
| Epw2Wea.UpToComma | src/cv/epw2wea.c:59-70 | `%[^,]` reads the longest comma-free prefix, stopping at a comma |
| Epw2Wea.Word | src/cv/epw2wea.c:80 | `%s` yields a word without white space |
| Epw2Wea.WordChars | src/cv/epw2wea.c:80 | the word runs from its start up to, not including, the first white space or the end |
| Epw2Wea.WordAfterSpace | src/cv/epw2wea.c:80 | `%s` skips all leading white space and reads the word that follows it |
| Epw2Wea.FieldOfJoin | src/cv/epw2wea.c:59-82 | field k of a line of comma-free fields is the k-th field |
| Epw2Wea.AfterJoin | src/cv/epw2wea.c:80 | the text after the ninth comma is the rest of the fields |
| Epw2Wea.FirstBad | src/cv/epw2wea.c:43-54 | the first extra argument that does not start with `-`, with every earlier one an option |
| Epw2Wea.ArgumentRules | src/cv/epw2wea.c:31-55 | fewer than two file names is the usage error; the first extra word that is not an option is reported; `-a` is honoured only as the single extra word |
| Epw2Wea.CheckArguments | src/cv/epw2wea.c:31-55 | the argument loop selects as the argument rules say |
| Epw2Wea.HeaderFields | src/cv/epw2wea.c:59-82 | the place joins city and country (a blank field 3 keeping field 2), the latitude and elevation are copied, and the longitude and time zone are negated into WEA convention |
| Epw2Wea.ReadHeader | src/cv/epw2wea.c:59-82 | the header fields main reads are those of the LOCATION line |
| Epw2Wea.TimeStep | src/cv/epw2wea.c:93-98 | the step is field 2 of the eighth line, with 1 record per hour meaning 60 minutes |
| Epw2Wea.RecordFields | src/cv/epw2wea.c:101-139 | month, day and hour come from fields 1-3 and the irradiances from 14 and 15; the hour moves back half a step; with `-a`, fields 29 and 22 add AOD and sky cover in tenths |
| Epw2Wea.HourlyStamp | src/cv/epw2wea.c:96-103 | with hourly records each stamp is half an hour before the record's hour |
| Epw2Wea.ConvertRecord | src/cv/epw2wea.c:101-139 | one data line gives its WEA line |
| Epw2Wea.Records | src/cv/epw2wea.c:101-140 | one WEA line per line after the eight header lines |
| Epw2Wea.ConvertRecords | src/cv/epw2wea.c:101-140 | the record loop yields the WEA lines of the data records in order |
| Epw2Wea.ConversionRules | src/cv/epw2wea.c:31-144 | exit 1 exactly for the usage error or a non-EPW file; a file is converted only under good arguments and a LOCATION first line, one WEA line per data record in order |
| Epw2Wea.Run | src/cv/epw2wea.c:31-148 | main's outcome is the conversion's |

## Left out

- Ray decoding: `getvec`'s ASCII and binary readers are replaced by the sequence of decoded records. A record cut short by the end of the stream counts as the end of input, so the loop's end-of-file and read-error warnings follow that reading.
- Output: printing itself (`fprtresolu`, `fflush`, `ferror` on standard output, the `oput*` writers, `putreal`) is left out. The model states what would be printed: the fields in order, the tabs and the newline.
- The simulation manager: its implementation (the thread pool, `Cleanup`, the FIFO flag bits) is not part of this model. Its replies are fixed parameters.
- `rtrace` input files: opening a named input file serves a debugging build only, so only standard input is modelled.
- The 32-slot output tables: overflowing `ray_out` / `every_out` is not modelled; the tables are unbounded sequences.
- The trace list: the `MAXMODLIST` bound of `tralist` is not modelled.
- The trace set: it is a set rather than `insertelem`'s sorted array. Its count bound MAXTSET is modelled.
- Scene objects: object lookup (`objptr`, `ismodifier`) is a parameter (`Obj`).
- rtmain.c: `getrenderopt`, `badarg`, `atoi` and `wordfile` are parameters. `getpath` is folded into `wordfile`.
- RtMain.CommandLine.ParseOptions: the argument words are taken as they stand after `expandarg` has expanded them. How `expandarg` rewrites `argv` (splicing in a file's words, shortening the vector) is not part of this model. Only its failure is: a parameter says whether it fails on a word, and the loop then stops with the "cannot expand" system error.
- SimulManager.Threads: the manager's `SetThreadCount` is not part of this model. The model assumes it grants a positive request and answers a request of 0 with the machine's core count, a fixed parameter.
- rtmain.c, the ACCELERAD_DEBUG (`-p`, `-q`) and DAYSIM (`-L`, `-D`, `-N`, `-U`) cases are left out. These builds are not the default.
- rtmain.c: the persist file's contents and `fork` handling, signals, the error file, octree loading and the rest of `main` after the process checks sit outside the option loop and are left out.
- printdefaults: of the defaults listing only the `-x` label is modelled.
- RtMain.ErrorStream.Eputs: `fflush` and the `errno` saving of `wputs` are not modelled.
- RtMain.ErrorStream.Eputs: `midline` is an unbounded counter, so its overflow after 2^31 pieces without a newline is not modelled.
- Meta.Abs: excludes INT_MIN, whose negation overflows `int`.
- Meta.Width: requires a specification from 0 to 27. A larger or negative `w` overflows or shifts out of range in C.
- Meta.Conv: stated without wrap-around only for the metafile square and its mirror.
- Meta.IConv: needs a non-zero size, since C divides by it. The model assumes a 64-bit `long` (LP64) and takes `(long)dcoord << 14` as the exact product dcoord*2^14. Where `long` has 32 bits (LLP64, as on 64-bit Windows) the shift overflows once |dcoord| reaches 2^17, which the model does not capture. A left shift of a negative `dcoord` is undefined in C; the model takes the product there too.
- Meta.Conv: the model assumes a 64-bit `long` (LP64), where `(long)coord*size` never overflows. With a 32-bit `long` the product overflows once it reaches 2^31, which the model does not capture.
- Rtrace.VCount: `RNUMBER` is declared in a header that is not part of this model. The model assumes an unsigned 64-bit type, so the count is reduced modulo 2^64.
- meta.h: the primitive structures, file-name constants and platform directories are declarations with no behaviour and are not modelled.
- meta.h: `iscom` relies on `comndx`, which is not part of this model.
- OptixArrays.DynArray.Insert: requires a non-zero capacity. Doubling an empty block leaves no room, and C would write past it.
- OptixArrays.DynArray.Insert2, OptixArrays.DynArray.Insert3: require that one doubling makes room, as C writes past the block otherwise.
- optix_util.c: `malloc`/`realloc` failure (`eprintf(SYSTEM, ...)`) is not modelled, and neither is `size_t` overflow of the doubled size.
- optix_util.c: `freeArray*` frees the block, which the model simply drops.
- optix_util.c: GPU buffer transfers (`createBuffer*`, `copyToBuffer*`), `handleError`, `ptxFile`, `reportProgress` and the other OptiX calls are outside this model.
- OptixUtil.PrintException: the warning is a structured `Report` (name, optional count, location) rather than the `sprintf` text. That hides two faults of the text buffers. `char times[16]` overflows in `sprintf(times, " %i times", count)` once the count reaches 10^8, since " 100000000 times" needs 17 bytes; the model still reports such a count. The unknown-type branch points `msg` at `errmsg` and then formats `errmsg` from `msg` into itself, an overlapping `sprintf` whose result C leaves undefined; the model reports the unknown code as intended.
- OptixUtil.PrintException: the application's INF, NAN and custom-base codes are parameters.
- OptixUtil.ExceptionLog.BumpCount: `int` overflow of a count is not modelled.
- The exception log: the model takes `DEBUG_OPTIX` as defined, since the log exists only in that build.
- epw2wea: the file is given as its lines, blank lines dropped. A data line of only spaces or tabs, the last line included, still gives a WEA line in the model, while C's `%d,%d,%d,%d` skips that white space and reads no record from it. `fopen` failures, which crash the C program, are not modelled.
- epw2wea: number parsing is a parameter applied to a field's text. `fscanf` keeping a previous value after a matching failure is not modelled.
- epw2wea: `%s` skipping white space past the end of the LOCATION line is not modelled.
- Epw2Wea.Field, Epw2Wea.Conversion, Epw2Wea.Records: the file is split into lines and each field is cut at its line's end, while C's `%[^,]` reads on across line ends. So the model differs from C on malformed files. A first line without a comma: C reads that line and the next up to its comma as the keyword, reports "not an epw file" and exits 1; the model converts the file. A leading blank line: C reads `"\nLOCATION"` and also exits 1; the model drops blank lines. A LOCATION line of fewer than ten fields: C takes its later header fields from the second line. A data line of exactly six fields: C merges it with the next line into one WEA line, where the model gives two.
- epw2wea: the `printf` rounding of the numbers is not modelled.
