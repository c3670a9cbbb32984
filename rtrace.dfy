/** The rtrace driver loop: it reads rays in bundles, hands them to the simulation
    manager and decides when the manager must flush its queue. The bundle size and
    the expected ray count come from the -x and -y resolutions; a bundle read with
    a zero direction, or a full bundle in flushing mode, triggers a flush. */
module Rtrace {
  import opened RtError
  import opened Meta
  import opened RayInput
  import opened SimulManager

  /** `RNUMBER` is declared in a header this model does not have; it is taken to be
      an unsigned 64-bit count. */
  const RNUMBER_MODULUS: int := 0x1_0000_0000_0000_0000

  const REDUCING_PROCESSES: string := "reducing number of processes to match flush interval"
  const EXTRA_RAYS: string := "extra ray(s) past end of input"
  const UNEXPECTED_EOF: string := "unexpected EOF on input"
  const INPUT_READ_ERROR: string := "input read error"
  const NO_INPUT_BUFFER: string := "cannot allocate input vector buffer"
  const QUEUE_FAILURE: string := "ray queuing failure"
  const FLUSH_FAILURE: string := "ray flush error"

  /** What rtrace is told by the option parser and the output-table compiler:
      the resolutions, whether only ray casting is needed, and whether the value
      table (`ray_out`) and the trace table (`every_out`) are non-empty. */
  datatype Config = Config(hresolu: Int32, vresolu: Int32, castonly: bool, cookedOut: bool, traceOut: bool)

  /** What a run of rtrace did: the manager calls in order, the warnings issued and
      the fatal error that ended it, if any. */
  datatype Run = Run(events: seq<Event>, warnings: seq<string>, fatal: Option<Fatal>)

  /** `flushIntvl = (!vresolu | (hresolu <= 1)) * hresolu`: with no vertical resolution,
      or a horizontal one of at most 1, the output is flushed every `hresolu` rays. */
  function FlushInterval(hresolu: int, vresolu: int): (r: int)
    ensures vresolu == 0 || hresolu <= 1 ==> r == hresolu
    ensures vresolu != 0 && hresolu > 1 ==> r == 0
  {
    (if vresolu == 0 || hresolu <= 1 then 1 else 0) * hresolu
  }

  /** Rays per bundle, `flushIntvl + !flushIntvl`. */
  function Capacity(interval: int): (r: int)
    ensures interval == 0 ==> r == 1
    ensures interval != 0 ==> r == interval
  {
    interval + (if interval == 0 then 1 else 0)
  }

  /** Bundles hold `max(1, hresolu)` rays; a negative interval leaves no buffer to
      allocate. */
  lemma CapacityOfResolution(hresolu: Int32, vresolu: Int32)
    ensures Capacity(FlushInterval(hresolu, vresolu)) >= 1 <==> (FlushInterval(hresolu, vresolu) >= 0)
    ensures vresolu == 0 && hresolu >= 1 ==> Capacity(FlushInterval(hresolu, vresolu)) == hresolu
    ensures hresolu == 0 || (vresolu != 0 && hresolu > 1) ==> Capacity(FlushInterval(hresolu, vresolu)) == 1
  {
  }

  /** The expected number of rays: `hresolu * vresolu` when `hresolu > 1`, else
      `vresolu`, computed in unsigned 64-bit arithmetic; 0 means "until the input ends". */
  function VCount(hresolu: Int32, vresolu: Int32): (r: nat)
    ensures r < RNUMBER_MODULUS
    ensures hresolu > 1 && vresolu >= 0 ==> r == hresolu * vresolu
    ensures hresolu <= 1 && vresolu >= 0 ==> r == vresolu
    ensures vresolu < 0 ==> r >= RNUMBER_MODULUS / 2
  {
    ProductRange(hresolu, vresolu);
    (if hresolu > 1 then hresolu * vresolu else vresolu as int) % RNUMBER_MODULUS
  }

  lemma ProductRange(h: Int32, v: Int32)
    ensures h > 1 && v >= 0 ==> 0 <= h * v < RNUMBER_MODULUS / 2
    ensures h > 1 && v < 0 ==> -RNUMBER_MODULUS / 2 <= h * v < 0
  {
    if h > 1 && v >= 0 {
      assert h * v <= INT_MAX * v by { assert (INT_MAX - h) * v >= 0; }
      assert INT_MAX * v <= INT_MAX * INT_MAX by { assert INT_MAX * (INT_MAX - v) >= 0; }
    } else if h > 1 {
      assert h * v >= INT_MAX * v by { assert (INT_MAX - h) * (-(v as int)) >= 0; }
      assert INT_MAX * v >= INT_MAX * INT_MIN by { assert INT_MAX * (v - INT_MIN) >= 0; }
      assert h * v < 0 by { assert h * (-(v as int)) > 0; }
    }
  }

  /** The worker count before the flush-interval cap: 1 for pure ray casting or trace
      output, the manager's default for a non-positive request, else the request. */
  function BaseWorkers(cfg: Config, nproc: int, cores: int): int
  {
    if cfg.castonly || cfg.traceOut then 1
    else if nproc <= 0 then Threads(cores, 0)
    else nproc
  }

  /** The count rtrace finally asks the manager for: the base count, reduced to a
      positive flush interval when it exceeds it. */
  function Workers(cfg: Config, nproc: int, cores: int): (r: int)
    ensures cfg.castonly || cfg.traceOut ==> r == 1
    ensures FlushInterval(cfg.hresolu, cfg.vresolu) > 0 ==> r <= FlushInterval(cfg.hresolu, cfg.vresolu)
    ensures r == BaseWorkers(cfg, nproc, cores) || r == FlushInterval(cfg.hresolu, cfg.vresolu)
    ensures FlushInterval(cfg.hresolu, cfg.vresolu) <= 0 || BaseWorkers(cfg, nproc, cores) <= FlushInterval(cfg.hresolu, cfg.vresolu)
      ==> r == BaseWorkers(cfg, nproc, cores)
    ensures nproc > 0 || cores > 0 ==> r >= 1
  {
    var interval := FlushInterval(cfg.hresolu, cfg.vresolu);
    var base := BaseWorkers(cfg, nproc, cores);
    if interval > 0 && base > interval then interval else base
  }

  /** The flush decision for a bundle of `n` rays whose last direction is zero when
      `atZero`: the queue is flushed when something is pending (earlier unflushed
      rays, or more than one ray in this bundle) and the bundle ends on a zero
      direction or is exactly one flush interval long. Returns (flush, pending after). */
  function FlushStep(pending: bool, n: int, atZero: bool, interval: int): (bool, bool)
  {
    var p := pending || n > 1;
    if p && (atZero || n == interval) then (true, false) else (false, p || !atZero)
  }

  /** The flush rule: a flush needs something pending, and clears it; a lone ray
      with nothing pending is never flushed, and a bundle ending on a zero direction
      or filling the interval is flushed exactly when something is pending. */
  lemma FlushRule(pending: bool, n: int, atZero: bool, interval: int)
    ensures FlushStep(pending, n, atZero, interval).0 ==> (pending || n > 1) && !FlushStep(pending, n, atZero, interval).1
    ensures !pending && n == 1 ==> !FlushStep(pending, n, atZero, interval).0
    ensures atZero || n == interval ==> (FlushStep(pending, n, atZero, interval).0 <==> pending || n > 1)
    ensures !atZero && n != interval ==> !FlushStep(pending, n, atZero, interval).0 && FlushStep(pending, n, atZero, interval).1
  {
  }

  /** The warning when the expected ray count was not reached: the input ended
      (nothing could be read) or a record failed to decode. */
  function EndWarnings(vcount: nat, used: nat): seq<string>
  {
    if vcount == 0 then [] else if used == 0 then [UNEXPECTED_EOF] else [INPUT_READ_ERROR]
  }

  /** The fixed parameters of the loop: the flush interval, the bundle capacity and
      the manager's replies to EnqueueBundle and FlushQueue. */
  datatype Params = Params(interval: int, cap: int, enqueueOk: bool, flushOk: bool)

  /** The loop variables: the input position, the rays still expected (0: no limit)
      and the pending flag. */
  datatype LoopState = LoopState(pos: nat, vcount: nat, pending: bool)

  /** The `while ((n = getrays(...)) > 0)` loop from loop state `st`: read up to `cap`
      rays, then make one pass of the loop body over what was read. */
  function Loop(input: seq<Token>, st: LoopState, p: Params): Run
    requires st.pos <= |input| && p.cap >= 1
    decreases |input| - st.pos, 2
  {
    var rd := Read(input[st.pos..], p.cap);
    Pass(input, st, p, rd.0, rd.1)
  }

  /** One pass of the loop body after `getrays` read `k` rays from `used` records:
      none read ends the loop (with a warning when rays were still expected); the
      bundle is cut to the expected count and enqueued, and a failed enqueue ends
      the run with a user error. */
  function Pass(input: seq<Token>, st: LoopState, p: Params, k: nat, used: nat): Run
    requires st.pos <= |input| && p.cap >= 1 && (k, used) == Read(input[st.pos..], p.cap)
    decreases |input| - st.pos, 1
  {
    ReadSpec(input[st.pos..], p.cap);
    if k == 0 then Run([], EndWarnings(st.vcount, used), None)
    else
      var n := Cut(st.vcount, k);
      var w := CutWarnings(st.vcount, k);
      var enq := Enqueue(Flat(input[st.pos..st.pos + n]));
      if !p.enqueueOk then Run([enq], w, Some(Fatal(User, QUEUE_FAILURE)))
      else Then([enq], w, AfterEnqueue(input, st, p, n, used))
  }

  /** The bundle size after the cut to the expected count (0: no limit). */
  function Cut(vcount: nat, k: nat): (n: nat)
    ensures n <= k && (vcount == 0 || n <= vcount)
    ensures k >= 1 && (vcount == 0 || vcount >= k) ==> n == k
    ensures k >= 1 && vcount > 0 ==> n >= 1
  {
    if vcount > 0 && k > vcount then vcount else k
  }

  function CutWarnings(vcount: nat, k: nat): seq<string>
  {
    if vcount > 0 && k > vcount then [EXTRA_RAYS] else []
  }

  /** A pass that read rays enqueues the cut bundle first. */
  lemma PassEnqueue(input: seq<Token>, st: LoopState, p: Params, k: nat, used: nat)
    requires st.pos <= |input| && p.cap >= 1 && (k, used) == Read(input[st.pos..], p.cap) && k >= 1
    requires st.pos + used <= |input| && forall i :: st.pos <= i < st.pos + k ==> input[i].Pair?
    ensures var n := Cut(st.vcount, k);
      var enq := Enqueue(Flat(input[st.pos..st.pos + n]));
      Pass(input, st, p, k, used) ==
        if !p.enqueueOk then Run([enq], CutWarnings(st.vcount, k), Some(Fatal(User, QUEUE_FAILURE)))
        else Then([enq], CutWarnings(st.vcount, k), AfterEnqueue(input, st, p, n, used))
  {
  }

  /** The rest of the pass once `n` rays are enqueued: flush by the flush rule (a
      failed flush ends the run with a user error), stop once the expected count is
      reached, otherwise go on after the `used` records read. */
  function AfterEnqueue(input: seq<Token>, st: LoopState, p: Params, n: nat, used: nat): Run
    requires 1 <= n <= used && st.pos + used <= |input| && p.cap >= 1 && (st.vcount == 0 || n <= st.vcount)
    requires forall i :: st.pos <= i < st.pos + n ==> input[i].Pair?
    decreases |input| - st.pos, 0
  {
    var flush := FlushStep(st.pending, n, IsZero(input[st.pos + n - 1].dir), p.interval);
    if flush.0 && !p.flushOk then Run([Flush], [], Some(Fatal(User, FLUSH_FAILURE)))
    else
      var evs := if flush.0 then [Flush] else [];
      if st.vcount != 0 && st.vcount == n then Run(evs, [], None)
      else Then(evs, [], Loop(input, LoopState(st.pos + used, if st.vcount != 0 then st.vcount - n else 0, flush.1), p))
  }

  /** What one pass of `RunLoop`'s body did: the loop ends with `run`, or it goes on
      from `next` after this pass's manager calls and warnings. */
  datatype Step = Stop(run: Run) | Continue(events: seq<Event>, warnings: seq<string>, next: LoopState)

  function StepEvents(step: Step): seq<Event>
  {
    if step.Stop? then step.run.events else step.events
  }

  /** `step` is what the loop does from `st`. */
  predicate StepOf(input: seq<Token>, st: LoopState, p: Params, step: Step)
    requires st.pos <= |input| && p.cap >= 1
  {
    match step
    case Stop(r) => Loop(input, st, p) == r
    case Continue(evs, w, next) =>
      st.pos < next.pos <= |input| && Loop(input, st, p) == Then(evs, w, Loop(input, next, p))
  }

  /** The manager calls of the set-up, in order. */
  function SetupEvents(cfg: Config, nproc: int, cores: int): seq<Event>
  {
    (if !(cfg.castonly || cfg.traceOut) && nproc <= 0 then [SetThreads(0)] else []) +
    (if cfg.cookedOut then [SetCooked] else []) +
    (if cfg.traceOut then [SetTrace] else []) +
    [SetThreads(Workers(cfg, nproc, cores)), DoFifo]
  }

  function SetupWarnings(cfg: Config, nproc: int, cores: int): seq<string>
  {
    var interval := FlushInterval(cfg.hresolu, cfg.vresolu);
    if interval > 0 && BaseWorkers(cfg, nproc, cores) > interval then [REDUCING_PROCESSES] else []
  }

  /** A whole rtrace run over `input` with the manager's replies fixed. */
  function RtraceRun(cfg: Config, input: seq<Token>, nproc: int, cores: int, enqueueOk: bool, flushOk: bool): Run
  {
    var interval := FlushInterval(cfg.hresolu, cfg.vresolu);
    var cap := Capacity(interval);
    if cap <= 0 then Run([], [], Some(Fatal(System, NO_INPUT_BUFFER)))
    else
      Then(SetupEvents(cfg, nproc, cores), SetupWarnings(cfg, nproc, cores),
           Loop(input, LoopState(0, VCount(cfg.hresolu, cfg.vresolu), false), Params(interval, cap, enqueueOk, flushOk)))
  }

  /** The run so far followed by the rest of the run. */
  function Then(calls: seq<Event>, warnings: seq<string>, rest: Run): Run
  {
    Run(calls + rest.events, warnings + rest.warnings, rest.fatal)
  }

  lemma ThenThen(c1: seq<Event>, w1: seq<string>, c2: seq<Event>, w2: seq<string>, rest: Run)
    ensures Then(c1, w1, Then(c2, w2, rest)) == Then(c1 + c2, w1 + w2, rest)
  {
    assert c1 + (c2 + rest.events) == (c1 + c2) + rest.events;
    assert w1 + (w2 + rest.warnings) == (w1 + w2) + rest.warnings;
  }

  /** rtrace: sets up the manager, then reads bundles into the input buffer, enqueues
      them and flushes as the flush rule says, until the input ends or the expected
      number of rays has been enqueued. Returns what it did; the manager's log holds
      the same calls. It also says whether a resolution line was printed first. */
  method Rtrace(m: Manager, cfg: Config, input: seq<Token>, nproc: int) returns (run: Run, resolution: bool)
    modifies m
    ensures run == RtraceRun(cfg, input, nproc, m.cores, m.enqueueOk, m.flushOk)
    ensures m.log == old(m.log) + run.events
    ensures resolution == (cfg.hresolu > 0 && cfg.vresolu > 0)
  {
    var vcount: nat := VCount(cfg.hresolu, cfg.vresolu);
    var flushIntvl := FlushInterval(cfg.hresolu, cfg.vresolu);
    var cap := Capacity(flushIntvl);
    resolution := false;
    if cap <= 0 {
      run := Run([], [], Some(Fatal(System, NO_INPUT_BUFFER)));
      return;
    }
    var ivbuf := new Vec3[2 * cap];
    var calls, warnings := SetUp(m, cfg, nproc);
    resolution := cfg.hresolu > 0 && cfg.vresolu > 0;
    var p := Params(flushIntvl, cap, m.enqueueOk, m.flushOk);
    var loop := RunLoop(m, ivbuf, input, LoopState(0, vcount, false), p);
    run := Then(calls, warnings, loop);
  }

  /** The loop itself, from loop state `st0`. */
  method RunLoop(m: Manager, ivbuf: array<Vec3>, input: seq<Token>, st0: LoopState, p: Params) returns (run: Run)
    requires st0.pos <= |input| && p.cap >= 1 && ivbuf.Length == 2 * p.cap
    requires p.enqueueOk == m.enqueueOk && p.flushOk == m.flushOk
    modifies m, ivbuf
    ensures run == Loop(input, st0, p)
    ensures m.log == old(m.log) + run.events
  {
    var calls: seq<Event> := [];
    var warnings: seq<string> := [];
    var st := st0;
    ghost var total := Loop(input, st0, p);
    assert total == Then(calls, warnings, Loop(input, st, p));
    while true
      invariant st.pos <= |input|
      invariant m.log == old(m.log) + calls
      invariant total == Then(calls, warnings, Loop(input, st, p))
      decreases |input| - st.pos
    {
      ghost var before := m.log;
      var step := ReadBundle(m, ivbuf, input, st, p);
      EventsAssoc(old(m.log), calls, StepEvents(step));
      if step.Stop? {
        run := Then(calls, warnings, step.run);
        return;
      }
      ThenThen(calls, warnings, step.events, step.warnings, Loop(input, step.next, p));
      calls := calls + step.events;
      warnings := warnings + step.warnings;
      st := step.next;
    }
  }

  /** The set-up before the loop: the worker count and the manager's call-backs. */
  method SetUp(m: Manager, cfg: Config, nproc: int) returns (calls: seq<Event>, warnings: seq<string>)
    modifies m
    ensures calls == SetupEvents(cfg, nproc, m.cores) && warnings == SetupWarnings(cfg, nproc, m.cores)
    ensures m.log == old(m.log) + calls
  {
    var flushIntvl := FlushInterval(cfg.hresolu, cfg.vresolu);
    calls := [];
    ghost var start := m.log;
    warnings := [];
    var np := nproc;
    if cfg.castonly || cfg.traceOut {
      np := 1;
    } else if np <= 0 {
      np := m.SetThreadCount(0);
      calls := calls + [SetThreads(0)];
    }
    ghost var threads := calls;
    assert threads == if !(cfg.castonly || cfg.traceOut) && nproc <= 0 then [SetThreads(0)] else [];
    assert m.log == start + threads;
    if cfg.cookedOut {
      m.SetCookedCall();
      EventsAssoc(start, threads, [SetCooked]);
      calls := calls + [SetCooked];
    }
    ghost var cooked := calls;
    assert cooked == threads + (if cfg.cookedOut then [SetCooked] else []);
    assert m.log == start + cooked;
    if cfg.traceOut {
      m.SetTraceCall();
      EventsAssoc(start, cooked, [SetTrace]);
      calls := calls + [SetTrace];
    }
    assert calls == cooked + (if cfg.traceOut then [SetTrace] else []);
    assert m.log == start + calls;
    assert np == BaseWorkers(cfg, nproc, m.cores);
    if flushIntvl > 0 && np > flushIntvl {
      warnings := warnings + [REDUCING_PROCESSES];
      np := flushIntvl;
    }
    assert np == Workers(cfg, nproc, m.cores);
    ghost var prefix := calls;
    var _ := m.SetThreadCount(np);
    m.SetFifo();
    calls := calls + [SetThreads(np), DoFifo];
    EventsAssoc(start, prefix, [SetThreads(np), DoFifo]);
  }

  /** One pass of the loop body, on the real input buffer. */
  method ReadBundle(m: Manager, ivbuf: array<Vec3>, input: seq<Token>, st: LoopState, p: Params) returns (step: Step)
    requires st.pos <= |input| && p.cap >= 1 && ivbuf.Length == 2 * p.cap
    requires p.enqueueOk == m.enqueueOk && p.flushOk == m.flushOk
    modifies m, ivbuf
    ensures StepOf(input, st, p, step)
    ensures m.log == old(m.log) + StepEvents(step)
  {
    var k, next := GetRays(ivbuf, input, st.pos, p.cap);
    assert Loop(input, st, p) == Pass(input, st, p, k, next - st.pos);
    if k == 0 {
      return Stop(Run([], EndWarnings(st.vcount, next - st.pos), None));
    }
    step := Submit(m, ivbuf, input, st, p, k, next - st.pos);
  }

  /** The rest of the pass once `k > 0` rays are in the buffer: cut and enqueue. */
  method Submit(m: Manager, ivbuf: array<Vec3>, input: seq<Token>, st: LoopState, p: Params, k: nat, used: nat)
    returns (step: Step)
    requires st.pos <= |input| && p.cap >= 1 && (k, used) == Read(input[st.pos..], p.cap) && k >= 1
    requires p.enqueueOk == m.enqueueOk && p.flushOk == m.flushOk
    requires forall i :: st.pos <= i < st.pos + k ==> input[i].Pair?
    requires 2 * k <= ivbuf.Length && ivbuf[..2 * k] == Flat(input[st.pos..st.pos + k])
    modifies m
    ensures step.Stop? ==> Pass(input, st, p, k, used) == step.run
    ensures step.Continue? ==>
      st.pos < step.next.pos <= |input| &&
      Pass(input, st, p, k, used) == Then(step.events, step.warnings, Loop(input, step.next, p))
    ensures m.log == old(m.log) + StepEvents(step)
  {
    var n, w, bundle := CutBundle(ivbuf, input, st, k);
    PassEnqueue(input, st, p, k, used);
    ghost var pass := Pass(input, st, p, k, used);
    assert !p.enqueueOk ==> pass == Run([Enqueue(bundle)], w, Some(Fatal(User, QUEUE_FAILURE)));
    assert p.enqueueOk ==> pass == Then([Enqueue(bundle)], w, AfterEnqueue(input, st, p, n, used));
    ghost var before := m.log;
    var q := m.EnqueueBundle(bundle);
    if q < 0 {
      return Stop(Run([Enqueue(bundle)], w, Some(Fatal(User, QUEUE_FAILURE))));
    }
    var rest := FlushPart(m, input, st, p, n, used, IsZero(bundle[2 * n - 1]));
    EventsAssoc(before, [Enqueue(bundle)], StepEvents(rest));
    if rest.Stop? {
      step := Stop(Then([Enqueue(bundle)], w, rest.run));
    } else {
      ThenThen([Enqueue(bundle)], w, rest.events, rest.warnings, Loop(input, rest.next, p));
      step := Continue([Enqueue(bundle)] + rest.events, w + rest.warnings, rest.next);
    }
  }

  /** The bundle of the pass: the first `k` rays of `ivbuf`, cut to the rays still
      expected (with a warning when that drops some). */
  method CutBundle(ivbuf: array<Vec3>, input: seq<Token>, st: LoopState, k: nat) returns (n: nat, w: seq<string>, bundle: seq<Vec3>)
    requires 1 <= k && st.pos + k <= |input| && forall i :: st.pos <= i < st.pos + k ==> input[i].Pair?
    requires 2 * k <= ivbuf.Length && ivbuf[..2 * k] == Flat(input[st.pos..st.pos + k])
    ensures n == Cut(st.vcount, k) && w == CutWarnings(st.vcount, k) && 1 <= n <= k
    ensures bundle == Flat(input[st.pos..st.pos + n]) && bundle[2 * n - 1] == input[st.pos + n - 1].dir
  {
    n := k;
    w := [];
    if st.vcount > 0 && n > st.vcount {
      w := [EXTRA_RAYS];
      n := st.vcount;
    }
    bundle := ivbuf[..2 * n];
    BufferPrefix(ivbuf[..2 * k], input, st.pos, k, n);
    assert bundle == ivbuf[..2 * k][..2 * n];
  }

  /** Flush by the flush rule, where `atZero` says whether the bundle's last
      direction is zero, then check for the end of the expected rays. */
  method FlushPart(m: Manager, input: seq<Token>, st: LoopState, p: Params, n: nat, used: nat, atZero: bool)
    returns (step: Step)
    requires 1 <= n <= used && st.pos + used <= |input| && p.cap >= 1 && (st.vcount == 0 || n <= st.vcount)
    requires forall i :: st.pos <= i < st.pos + n ==> input[i].Pair?
    requires atZero == IsZero(input[st.pos + n - 1].dir) && p.flushOk == m.flushOk
    modifies m
    ensures step.Stop? ==> AfterEnqueue(input, st, p, n, used) == step.run
    ensures step.Continue? ==>
      st.pos < step.next.pos <= |input| &&
      AfterEnqueue(input, st, p, n, used) == Then(step.events, step.warnings, Loop(input, step.next, p))
    ensures m.log == old(m.log) + StepEvents(step)
  {
    ghost var flush := FlushStep(st.pending, n, atZero, p.interval);
    ghost var after := AfterEnqueue(input, st, p, n, used);
    var pending := st.pending || n > 1;
    var evs: seq<Event> := [];
    if pending && (atZero || n == p.interval) {
      var ok := m.FlushQueue();
      evs := [Flush];
      if !ok {
        return Stop(Run(evs, [], Some(Fatal(User, FLUSH_FAILURE))));
      }
      pending := false;
    } else {
      pending := pending || !atZero;
    }
    assert evs == (if flush.0 then [Flush] else []) && pending == flush.1;
    assert st.vcount != 0 && st.vcount == n ==> after == Run(evs, [], None);
    var vcount := st.vcount;
    if vcount != 0 {
      vcount := vcount - n;
      if vcount == 0 {
        return Stop(Run(evs, [], None));
      }
    }
    step := Continue(evs, [], LoopState(st.pos + used, vcount, pending));
  }

  /** The first `n` rays of a buffer holding `k` rays read from `input[pos..]`. */
  lemma BufferPrefix(b: seq<Vec3>, input: seq<Token>, pos: nat, k: nat, n: nat)
    requires pos + k <= |input| && 1 <= n <= k
    requires forall i :: pos <= i < pos + k ==> input[i].Pair?
    requires b == Flat(input[pos..pos + k])
    ensures b[..2 * n] == Flat(input[pos..pos + n]) && b[2 * n - 1] == input[pos + n - 1].dir
  {
    FlatPrefix(input[pos..pos + k], n);
    assert input[pos..pos + k][..n] == input[pos..pos + n];
    FlatAt(input[pos..pos + n], n - 1);
  }

  lemma {:induction false} FlatPrefix(ts: seq<Token>, k: nat)
    requires forall i :: 0 <= i < |ts| ==> ts[i].Pair?
    requires k <= |ts|
    ensures Flat(ts)[..2 * k] == Flat(ts[..k])
  {
    if k > 0 {
      FlatPrefix(ts[1..], k - 1);
      assert ts[..k][1..] == ts[1..][..k - 1];
    }
  }

  /** The rays handed to the manager by the `Enqueue` calls among `evs`, in order. */
  function Payload(evs: seq<Event>): seq<Vec3>
  {
    if evs == [] then [] else (if evs[0].Enqueue? then evs[0].rays else []) + Payload(evs[1..])
  }

  lemma {:induction false} PayloadAppend(a: seq<Event>, b: seq<Event>)
    ensures Payload(a + b) == Payload(a) + Payload(b)
  {
    if a == [] {
      assert a + b == b;
    } else {
      assert (a + b)[0] == a[0] && (a + b)[1..] == a[1..] + b;
      PayloadAppend(a[1..], b);
    }
  }

  /** The records of `ts` that decoded, in order. */
  function Decoded(ts: seq<Token>): (r: seq<Token>)
    ensures forall i :: 0 <= i < |r| ==> r[i].Pair?
  {
    if ts == [] then [] else (if ts[0].Pair? then [ts[0]] else []) + Decoded(ts[1..])
  }

  lemma {:induction false} DecodedAppend(a: seq<Token>, b: seq<Token>)
    ensures Decoded(a + b) == Decoded(a) + Decoded(b)
  {
    if a == [] {
      assert a + b == b;
    } else {
      assert (a + b)[0] == a[0] && (a + b)[1..] == a[1..] + b;
      DecodedAppend(a[1..], b);
    }
  }

  lemma {:induction false} DecodedPairs(ts: seq<Token>)
    requires forall i :: 0 <= i < |ts| ==> ts[i].Pair?
    ensures Decoded(ts) == ts
  {
    if ts != [] {
      DecodedPairs(ts[1..]);
    }
  }

  /** What one bundle read takes from the decoded records: the `k` rays read, the
      failed record after them (if any) being dropped. */
  lemma DecodedRead(s: seq<Token>, cap: int)
    requires Read(s, cap).0 > 0
    ensures var (k, used) := Read(s, cap);
      Decoded(s) == s[..k] + Decoded(s[used..])
  {
    var (k, used) := Read(s, cap);
    ReadSpec(s, cap);
    assert s == s[..k] + s[k..used] + s[used..];
    DecodedAppend(s[..k] + s[k..used], s[used..]);
    DecodedAppend(s[..k], s[k..used]);
    DecodedPairs(s[..k]);
    if used == k + 1 {
      assert s[k..used] == [s[k]];
      assert Decoded(s[k..used]) == [] + Decoded(s[k..used][1..]);
    } else {
      assert s[k..used] == [];
    }
  }

  lemma EventsAssoc(a: seq<Event>, b: seq<Event>, c: seq<Event>)
    ensures a + (b + c) == (a + b) + c
  {
  }

  /** The manager calls after the enqueue: possibly a flush, then, if the loop goes
      on, those of the loop from `next`. */
  lemma AfterUnfold(input: seq<Token>, st: LoopState, p: Params, n: nat, used: nat)
    returns (flushed: bool, next: Option<LoopState>)
    requires 1 <= n <= used && st.pos + used <= |input| && p.cap >= 1 && (st.vcount == 0 || n <= st.vcount)
    requires forall i :: st.pos <= i < st.pos + n ==> input[i].Pair?
    ensures next.Some? ==> next.value.pos == st.pos + used && next.value.pos <= |input|
    ensures next.Some? ==> (st.vcount == 0 ==> next.value.vcount == 0) && (st.vcount > 0 ==> st.vcount == n + next.value.vcount && next.value.vcount > 0)
    ensures next.None? ==> AfterEnqueue(input, st, p, n, used).events == (if flushed then [Flush] else [])
    ensures next.Some? ==> AfterEnqueue(input, st, p, n, used).events == (if flushed then [Flush] else []) + Loop(input, next.value, p).events
  {
    var flush := FlushStep(st.pending, n, IsZero(input[st.pos + n - 1].dir), p.interval);
    flushed := flush.0;
    next := None;
    if !(flush.0 && !p.flushOk) && !(st.vcount != 0 && st.vcount == n) {
      next := Some(LoopState(st.pos + used, if st.vcount != 0 then st.vcount - n else 0, flush.1));
    } else if !(flush.0 && !p.flushOk) {
      assert AfterEnqueue(input, st, p, n, used) == Run(if flushed then [Flush] else [], [], None);
    }
  }

  /** One pass of the loop as manager calls: nothing when no ray could be read;
      otherwise the enqueue of the first `n` rays read, possibly a flush, and then,
      if the loop goes on, the calls of the loop from `next`. It goes on only with
      the whole bundle enqueued and rays still expected. */
  lemma LoopUnfold(input: seq<Token>, st: LoopState, p: Params)
    returns (k: nat, used: nat, n: nat, flushed: bool, next: Option<LoopState>)
    requires st.pos <= |input| && p.cap >= 1
    ensures (k, used) == Read(input[st.pos..], p.cap) && st.pos + used <= |input|
    ensures next.Some? ==> k > 0 && n == k && next.value.pos == st.pos + used && st.pos < next.value.pos <= |input|
    ensures next.Some? ==> (st.vcount == 0 ==> next.value.vcount == 0) && (st.vcount > 0 ==> st.vcount == n + next.value.vcount && next.value.vcount > 0)
    ensures k == 0 ==> next.None? && Loop(input, st, p).events == []
    ensures k > 0 ==> n == Cut(st.vcount, k) && n >= 1 && forall i :: st.pos <= i < st.pos + k ==> input[i].Pair?
    ensures k > 0 ==>
      var evs := [Enqueue(Flat(input[st.pos..st.pos + n]))] + (if flushed then [Flush] else []);
      && (next.None? ==> Loop(input, st, p).events == evs)
      && (next.Some? ==> Loop(input, st, p).events == evs + Loop(input, next.value, p).events)
  {
    k, used := Read(input[st.pos..], p.cap).0, Read(input[st.pos..], p.cap).1;
    ReadSpec(input[st.pos..], p.cap);
    assert Loop(input, st, p) == Pass(input, st, p, k, used);
    n, flushed, next := 0, false, None;
    if k > 0 {
      ReadPairs(input, st.pos, p.cap);
      PassEnqueue(input, st, p, k, used);
      n := Cut(st.vcount, k);
      var enq := Enqueue(Flat(input[st.pos..st.pos + n]));
      if p.enqueueOk {
        var rest := AfterEnqueue(input, st, p, n, used);
        assert Loop(input, st, p).events == [enq] + rest.events;
        flushed, next := AfterUnfold(input, st, p, n, used);
        if next.Some? {
          EventsAssoc([enq], if flushed then [Flush] else [], Loop(input, next.value, p).events);
        }
      } else {
        assert Loop(input, st, p).events == [enq] + [];
      }
    }
  }

  /** When `vcount > 0` rays are expected, no more than that many are ever enqueued:
      a bundle past the count is cut and the loop then ends. */
  lemma {:induction false} EnqueuedWithinCount(input: seq<Token>, st: LoopState, p: Params)
    requires st.pos <= |input| && p.cap >= 1 && st.vcount > 0
    ensures |Payload(Loop(input, st, p).events)| <= 2 * st.vcount
    decreases |input| - st.pos
  {
    var k, used, n, flushed, next := LoopUnfold(input, st, p);
    if k > 0 {
      var evs := [Enqueue(Flat(input[st.pos..st.pos + n]))] + (if flushed then [Flush] else []);
      BundlePayload(Flat(input[st.pos..st.pos + n]), flushed);
      if next.Some? {
        EnqueuedWithinCount(input, next.value, p);
        PayloadAppend(evs, Loop(input, next.value, p).events);
      }
    }
  }

  /** The rays enqueued are, in order, a prefix of the rays of the input records that
      decoded: the loop neither skips nor repeats nor invents a ray. */
  lemma {:induction false} EnqueuedFromInput(input: seq<Token>, st: LoopState, p: Params)
    requires st.pos <= |input| && p.cap >= 1
    ensures Payload(Loop(input, st, p).events) <= Flat(Decoded(input[st.pos..]))
    decreases |input| - st.pos
  {
    var k, used, n, flushed, next := LoopUnfold(input, st, p);
    var events := Loop(input, st, p).events;
    var whole := Flat(Decoded(input[st.pos..]));
    if k == 0 {
      assert Payload(events) == [];
    } else {
      var bundle := Flat(input[st.pos..st.pos + n]);
      var evs := [Enqueue(bundle)] + (if flushed then [Flush] else []);
      BundlePayload(bundle, flushed);
      BundleOfDecoded(input, st.pos, p.cap, k, used, n);
      if next.Some? {
        var rest := Loop(input, next.value, p).events;
        var after := Flat(Decoded(input[next.value.pos..]));
        EnqueuedFromInput(input, next.value, p);
        PayloadAppend(evs, rest);
        assert Payload(events) == bundle + Payload(rest);
        assert whole == bundle + after;
        PrefixAppend(bundle, Payload(rest), after);
      } else {
        assert Payload(events) == bundle;
      }
    }
  }

  lemma PrefixAppend<T>(a: seq<T>, b: seq<T>, c: seq<T>)
    requires b <= c
    ensures a + b <= a + c
  {
    assert (a + c)[..|a + b|] == a + c[..|b|];
  }

  lemma BundlePayload(bundle: seq<Vec3>, flushed: bool)
    ensures Payload([Enqueue(bundle)] + (if flushed then [Flush] else [])) == bundle
  {
    var evs := [Enqueue(bundle)] + (if flushed then [Flush] else []);
    assert Payload(evs) == bundle + Payload(evs[1..]);
    if flushed {
      assert evs[1..] == [Flush] && Payload(evs[1..]) == [] + Payload([]);
    } else {
      assert evs[1..] == [];
    }
  }

  /** The decoded rays from `pos` on are the `k` rays of the bundle read there, then
      the decoded rays after the `used` records it took; the first `n` rays of the
      bundle are a prefix of them. */
  lemma BundleOfDecoded(input: seq<Token>, pos: nat, cap: int, k: nat, used: nat, n: nat)
    requires pos <= |input| && (k, used) == Read(input[pos..], cap) && 1 <= n <= k
    ensures forall i :: pos <= i < pos + k ==> input[i].Pair?
    ensures Flat(Decoded(input[pos..])) == Flat(input[pos..pos + k]) + Flat(Decoded(input[pos + used..]))
    ensures Flat(input[pos..pos + n]) <= Flat(Decoded(input[pos..]))
  {
    var s := input[pos..];
    ReadSpec(s, cap);
    DecodedRead(s, cap);
    assert s[..k] == input[pos..pos + k];
    assert s[used..] == input[pos + used..];
    FlatAppend(s[..k], Decoded(s[used..]));
    FlatPrefix(input[pos..pos + k], n);
    assert input[pos..pos + k][..n] == input[pos..pos + n];
  }

  /** The manager calls of the loop: enqueues, each followed by at most one flush. */
  predicate Bundles(evs: seq<Event>)
    decreases |evs|
  {
    if evs == [] then true
    else if !evs[0].Enqueue? then false
    else if |evs| > 1 && evs[1] == Flush then Bundles(evs[2..])
    else Bundles(evs[1..])
  }

  lemma {:induction false} LoopBundles(input: seq<Token>, st: LoopState, p: Params)
    requires st.pos <= |input| && p.cap >= 1
    ensures Bundles(Loop(input, st, p).events)
    decreases |input| - st.pos
  {
    var k, used, n, flushed, next := LoopUnfold(input, st, p);
    if k > 0 {
      var enq := Enqueue(Flat(input[st.pos..st.pos + n]));
      var head := [enq] + (if flushed then [Flush] else []);
      if next.Some? {
        LoopBundles(input, next.value, p);
        BundleCons(enq, flushed, Loop(input, next.value, p).events);
      } else {
        BundleCons(enq, flushed, []);
        assert head + [] == head;
      }
    }
  }

  /** A bundle put in front of bundles. */
  lemma BundleCons(enq: Event, flushed: bool, rest: seq<Event>)
    requires enq.Enqueue? && Bundles(rest)
    ensures Bundles([enq] + (if flushed then [Flush] else []) + rest)
  {
    var evs := [enq] + (if flushed then [Flush] else []) + rest;
    if flushed {
      assert evs[1] == Flush && evs[2..] == rest;
    } else {
      assert evs[1..] == rest;
    }
  }

  /** In a sequence of bundles every flush comes right after an enqueue. */
  lemma {:induction false} FlushFollowsEnqueue(evs: seq<Event>)
    requires Bundles(evs)
    ensures forall j :: 0 <= j < |evs| && evs[j] == Flush ==> j > 0 && evs[j - 1].Enqueue?
    decreases |evs|
  {
    if evs != [] {
      var d := if |evs| > 1 && evs[1] == Flush then 2 else 1;
      FlushFollowsEnqueue(evs[d..]);
      forall j | 0 <= j < |evs| && evs[j] == Flush
        ensures j > 0 && evs[j - 1].Enqueue?
      {
        if j >= d {
          assert evs[d..][j - d] == Flush;
        }
      }
    }
  }

  /** The whole run: the set-up calls enqueue nothing, so what reaches the manager is
      a prefix of the decoded input rays, never more rays than expected, and each
      flush comes right after an enqueue. */
  lemma RunRays(cfg: Config, input: seq<Token>, nproc: int, cores: int, enqueueOk: bool, flushOk: bool)
    ensures var run := RtraceRun(cfg, input, nproc, cores, enqueueOk, flushOk);
      && Payload(run.events) <= Flat(Decoded(input))
      && (VCount(cfg.hresolu, cfg.vresolu) > 0 ==> |Payload(run.events)| <= 2 * VCount(cfg.hresolu, cfg.vresolu))
      && forall j :: 0 <= j < |run.events| && run.events[j] == Flush ==> j > 0 && run.events[j - 1].Enqueue?
  {
    var interval := FlushInterval(cfg.hresolu, cfg.vresolu);
    var cap := Capacity(interval);
    if cap > 0 {
      var st := LoopState(0, VCount(cfg.hresolu, cfg.vresolu), false);
      var p := Params(interval, cap, enqueueOk, flushOk);
      var setup := SetupEvents(cfg, nproc, cores);
      var loop := Loop(input, st, p).events;
      SetupPayload(cfg, nproc, cores);
      PayloadAppend(setup, loop);
      EnqueuedFromInput(input, st, p);
      assert input[0..] == input;
      if st.vcount > 0 {
        EnqueuedWithinCount(input, st, p);
      }
      LoopBundles(input, st, p);
      FlushFollowsEnqueue(loop);
      var all := setup + loop;
      forall j | 0 <= j < |all| && all[j] == Flush
        ensures j > 0 && all[j - 1].Enqueue?
      {
        assert j >= |setup| && loop[j - |setup|] == Flush;
        if j == |setup| {
          assert false;
        }
      }
    }
  }

  lemma SetupPayload(cfg: Config, nproc: int, cores: int)
    ensures Payload(SetupEvents(cfg, nproc, cores)) == []
    ensures forall j :: 0 <= j < |SetupEvents(cfg, nproc, cores)| ==> !SetupEvents(cfg, nproc, cores)[j].Flush?
  {
    var evs := SetupEvents(cfg, nproc, cores);
    NoEnqueuePayload(evs);
  }

  lemma {:induction false} NoEnqueuePayload(evs: seq<Event>)
    requires forall j :: 0 <= j < |evs| ==> !evs[j].Enqueue?
    ensures Payload(evs) == []
  {
    if evs != [] {
      NoEnqueuePayload(evs[1..]);
    }
  }
}
