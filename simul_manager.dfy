/** The ray-tracing simulation manager that rtrace drives. Its implementation
    (a thread pool evaluating queued rays) is not part of this model: it is an
    object that records, in order, every call rtrace makes on it, and answers
    with fixed replies. */
module SimulManager {
  import opened RayInput

  datatype Event =
    | SetThreads(requested: int)   // SetThreadCount(n); 0 asks for the system default
    | SetCooked                    // SetCookedCall(printvals)
    | SetTrace                     // SetTraceCall(ourtrace)
    | DoFifo                       // rtFlags |= RTdoFIFO
    | Enqueue(rays: seq<Vec3>)     // EnqueueBundle(ivbuf, n): origin, direction, ...
    | Flush                        // FlushQueue()

  /** The thread count the manager settles on: the request when positive, the
      machine's core count otherwise. */
  function Threads(cores: int, requested: int): (r: int)
    ensures requested > 0 ==> r == requested
    ensures requested <= 0 ==> r == cores
  {
    if requested > 0 then requested else cores
  }

  class Manager {
    /** Every call made so far, oldest first. */
    ghost var log: seq<Event>
    const cores: int
    const enqueueOk: bool
    const flushOk: bool

    constructor (cores: int, enqueueOk: bool, flushOk: bool)
      ensures log == [] && this.cores == cores
      ensures this.enqueueOk == enqueueOk && this.flushOk == flushOk
    {
      this.cores := cores;
      this.enqueueOk := enqueueOk;
      this.flushOk := flushOk;
      log := [];
    }

    method SetThreadCount(n: int) returns (r: int)
      modifies this
      ensures log == old(log) + [SetThreads(n)] && r == Threads(cores, n)
    {
      log := log + [SetThreads(n)];
      r := Threads(cores, n);
    }

    method SetCookedCall()
      modifies this
      ensures log == old(log) + [SetCooked]
    {
      log := log + [SetCooked];
    }

    method SetTraceCall()
      modifies this
      ensures log == old(log) + [SetTrace]
    {
      log := log + [SetTrace];
    }

    method SetFifo()
      modifies this
      ensures log == old(log) + [DoFifo]
    {
      log := log + [DoFifo];
    }

    /** Negative on failure, as in the C interface. */
    method EnqueueBundle(rays: seq<Vec3>) returns (r: int)
      modifies this
      ensures log == old(log) + [Enqueue(rays)] && (r >= 0 <==> enqueueOk)
    {
      log := log + [Enqueue(rays)];
      r := if enqueueOk then |rays| / 2 else -1;
    }

    method FlushQueue() returns (ok: bool)
      modifies this
      ensures log == old(log) + [Flush] && ok == flushOk
    {
      log := log + [Flush];
      ok := flushOk;
    }
  }
}
