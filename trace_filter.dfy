/** The trace filter of rtrace: the set of modifiers named with `-ti`/`-te`
    (collected as the scene is loaded) and the trace call-back that prints a
    ray tree, one line per ray indented by its depth, for the rays the filter
    lets through. */
module TraceFilter {
  import opened RtError
  import opened RtOutput

  const MAXTSET: nat := 8191
  /** The object number that announces a fresh scene. */
  const OVOID: int := -1
  const TOO_MANY: string := "too many modifiers in trace list"

  /** What the trace filter needs of a scene object: whether it is a modifier, and its name. */
  datatype Obj = Obj(isModifier: bool, name: string)

  /** The state kept by `tranotify`: the trace set and the count of overflows. */
  datatype Notified = Notified(traset: set<int>, hitlimit: nat)

  /** tranotify for object number `obj`, looked up as `o`: the trace set after it and
      the warning it issues. */
  function Notify(st: Notified, obj: int, o: Obj, tralist: seq<string>): (Notified, Option<string>)
  {
    if obj == OVOID then (Notified({}, 0), None)
    else if st.hitlimit > 0 || !o.isModifier || o.name !in tralist then (st, None)
    else if |st.traset| >= MAXTSET then (st.(hitlimit := st.hitlimit + 1), Some(TOO_MANY))
    else (st.(traset := st.traset + {obj}), None)
  }

  /** The trace set never exceeds its capacity. */
  lemma NotifyBounded(st: Notified, obj: int, o: Obj, tralist: seq<string>)
    requires |st.traset| <= MAXTSET
    ensures |Notify(st, obj, o, tralist).0.traset| <= MAXTSET
  {
    if obj != OVOID && st.hitlimit == 0 && o.isModifier && o.name in tralist && |st.traset| < MAXTSET {
      CardInsert(st.traset, obj);
    }
  }

  lemma CardInsert(s: set<int>, x: int)
    ensures |s + {x}| <= |s| + 1
  {
    if x in s {
      assert s + {x} == s;
    } else {
      assert |s + {x}| == |s| + 1;
    }
  }

  /** What goes into the trace set: exactly the objects that are modifiers named in
      the list, offered while there was room and no overflow; a fresh scene empties it. */
  lemma NotifyMembers(st: Notified, obj: int, o: Obj, tralist: seq<string>)
    ensures obj == OVOID ==> Notify(st, obj, o, tralist).0 == Notified({}, 0)
    ensures obj != OVOID ==> (obj in Notify(st, obj, o, tralist).0.traset <==>
      obj in st.traset || (st.hitlimit == 0 && o.isModifier && o.name in tralist && |st.traset| < MAXTSET))
    ensures forall x :: x != obj ==> (x in Notify(st, obj, o, tralist).0.traset <==> obj != OVOID && x in st.traset)
  {
  }

  /** After an overflow the set stays as it is until the next scene. */
  lemma OverflowSticks(st: Notified, obj: int, o: Obj, tralist: seq<string>)
    requires st.hitlimit > 0 && obj != OVOID
    ensures Notify(st, obj, o, tralist) == (st, None)
  {
  }

  class TraceSet {
    var traset: set<int>
    var hitlimit: nat

    predicate Valid()
      reads this
    {
      |traset| <= MAXTSET
    }

    constructor ()
      ensures Valid() && traset == {} && hitlimit == 0
    {
      traset := {};
      hitlimit := 0;
    }

    /** tranotify: records object `obj` (looked up as `o`) if it is a modifier named
        in `tralist`. */
    method Tranotify(obj: int, o: Obj, tralist: seq<string>) returns (warning: Option<string>)
      requires Valid()
      modifies this
      ensures Valid()
      ensures (Notified(traset, hitlimit), warning) == Notify(Notified(old(traset), old(hitlimit)), obj, o, tralist)
    {
      NotifyBounded(Notified(traset, hitlimit), obj, o, tralist);
      if obj == OVOID {
        traset, hitlimit := {}, 0;
        return None;
      }
      if hitlimit > 0 || !o.isModifier {
        return None;
      }
      var k := 0;
      while k < |tralist|
        invariant 0 <= k <= |tralist|
        invariant o.name !in tralist[..k]
      {
        if o.name == tralist[k] {
          if |traset| >= MAXTSET {
            hitlimit := hitlimit + 1;
            return Some(TOO_MANY);
          }
          traset := traset + {obj};
          return None;
        }
        assert tralist[..k + 1] == tralist[..k] + [tralist[k]];
        k := k + 1;
      }
      assert tralist[..k] == tralist;
      return None;
    }
  }

  /** A ray of the ray tree: the ray that spawned it, and the modifier of the object it
      hit, if it hit one. */
  datatype Ray = Ray(parent: Option<Ray>, hitModifier: Option<int>)

  /** The number of ancestors of a ray. */
  function Depth(r: Ray): nat
  {
    match r.parent
    case None => 0
    case Some(p) => Depth(p) + 1
  }

  function DepthOf(rp: Option<Ray>): nat
  {
    match rp
    case None => 0
    case Some(p) => Depth(p) + 1
  }

  /** tabin: one tab per ancestor. */
  method Tabin(r: Ray) returns (tabs: nat)
    ensures tabs == Depth(r)
  {
    tabs := 0;
    var rp := r.parent;
    while rp.Some?
      invariant tabs + DepthOf(rp) == Depth(r)
      decreases rp
    {
      tabs := tabs + 1;
      rp := rp.value.parent;
    }
  }

  /** The trace filter: `traincl` is 1 for `-ti`/`-tI` (trace only rays that hit a listed
      modifier), 0 for `-te`/`-tE` (trace all but those) and -1 for no filter. */
  predicate Traced(r: Ray, traincl: int, traset: set<int>)
  {
    match r.hitModifier
    case None => traincl != 1
    case Some(m) => traincl == -1 || traincl == (if m in traset then 1 else 0)
  }

  /** The filter in the terms of the options: no filter traces every ray; an include
      list traces just the rays that hit a listed modifier; an exclude list traces the
      others, including the rays that hit nothing. */
  lemma FilterModes(r: Ray, traset: set<int>)
    ensures Traced(r, -1, traset)
    ensures Traced(r, 1, traset) <==> r.hitModifier.Some? && r.hitModifier.value in traset
    ensures Traced(r, 0, traset) <==> r.hitModifier.None? || r.hitModifier.value !in traset
    ensures Traced(r, 1, traset) != Traced(r, 0, traset)
  {
  }

  /** ourtrace: the line printed for ray `r`, if any. */
  method OurTrace(r: Ray, everyOut: seq<Field>, outform: char, traincl: int, traset: set<int>) returns (out: Option<Report>)
    ensures out.None? <==> everyOut == [] || !Traced(r, traincl, traset)
    ensures out.Some? ==> out.value == Report(Depth(r), everyOut, outform == 'a')
  {
    if everyOut == [] {
      return None;
    }
    if r.hitModifier.None? {
      if traincl == 1 {
        return None;
      }
    } else if traincl != -1 && traincl != (if r.hitModifier.value in traset then 1 else 0) {
      return None;
    }
    var tabs := Tabin(r);
    out := Some(Report(tabs, everyOut, outform == 'a'));
  }
}
