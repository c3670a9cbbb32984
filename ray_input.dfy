/** Ray input of rtrace: each input record is an origin and a direction vector.
    The text or binary decoding of the vectors is abstracted: the input is the
    sequence of records as the decoder delivers them, where a record whose vectors
    could not be decoded is a `DecodeFailed` element and the end of the sequence is
    the end of the input stream. A zero direction asks for the output to be flushed. */
module RayInput {

  datatype Vec3 = Vec3(x: real, y: real, z: real)

  predicate IsZero(v: Vec3)
  {
    v.x == 0.0 && v.y == 0.0 && v.z == 0.0
  }

  datatype Token = Pair(org: Vec3, dir: Vec3) | DecodeFailed

  /** The `getrays` outcome on input `s` for a bundle of at most `n` rays: the number
      of rays read and the number of input records consumed. It reads until `n` rays
      are in, the input ends, a record fails to decode (consumed, not counted) or a
      ray with a zero direction has been read (counted, and the bundle ends with it). */
  function Read(s: seq<Token>, n: int): (r: (nat, nat))
    ensures r.0 <= r.1 <= |s| && (r.1 == r.0 || r.1 == r.0 + 1)
    ensures n <= 0 ==> r == (0, 0)
    ensures n > 0 ==> r.0 <= n
  {
    if n <= 0 || s == [] then (0, 0)
    else if s[0].DecodeFailed? then (0, 1)
    else if IsZero(s[0].dir) then (1, 1)
    else
      var rest := Read(s[1..], n - 1);
      (rest.0 + 1, rest.1 + 1)
  }

  /** What `Read` reads: `k` decoded rays, none but the last with a zero direction;
      when it consumed one record more, that record failed to decode; otherwise it
      stopped because the bundle was full, the input ended or the last ray read has
      a zero direction. */
  lemma {:induction false} ReadSpec(s: seq<Token>, n: int)
    ensures var (k, used) := Read(s, n);
      (forall i :: 0 <= i < k ==> s[i].Pair?) &&
      (forall i :: 0 <= i < k - 1 ==> !IsZero(s[i].dir)) &&
      (used == k + 1 ==> k < n && s[k].DecodeFailed?) &&
      (n > 0 && used == k ==> k == n || k == |s| || (k > 0 && IsZero(s[k - 1].dir)))
  {
    if n > 0 && s != [] && s[0].Pair? && !IsZero(s[0].dir) {
      ReadSpec(s[1..], n - 1);
    }
  }

  /** `ReadSpec` for the input from `pos` on, in positions of the whole input. */
  lemma ReadPairs(input: seq<Token>, pos: nat, n: int)
    requires pos <= |input|
    ensures var (k, used) := Read(input[pos..], n);
      pos + used <= |input| && forall i :: pos <= i < pos + k ==> input[i].Pair?
  {
    var s := input[pos..];
    ReadSpec(s, n);
    var (k, used) := Read(s, n);
    forall i | pos <= i < pos + k
      ensures input[i].Pair?
    {
      assert input[i] == s[i - pos];
    }
  }

  /** The rays of a run of decoded records laid out as in the input buffer:
      origin, direction, origin, direction, ... */
  function Flat(ts: seq<Token>): (r: seq<Vec3>)
    requires forall i :: 0 <= i < |ts| ==> ts[i].Pair?
    ensures |r| == 2 * |ts|
  {
    if ts == [] then [] else [ts[0].org, ts[0].dir] + Flat(ts[1..])
  }

  lemma {:induction false} FlatAt(ts: seq<Token>, i: nat)
    requires forall j :: 0 <= j < |ts| ==> ts[j].Pair?
    requires i < |ts|
    ensures Flat(ts)[2 * i] == ts[i].org && Flat(ts)[2 * i + 1] == ts[i].dir
  {
    if i > 0 {
      FlatAt(ts[1..], i - 1);
    }
  }

  lemma {:induction false} FlatAppend(ts: seq<Token>, us: seq<Token>)
    requires forall j :: 0 <= j < |ts| ==> ts[j].Pair?
    requires forall j :: 0 <= j < |us| ==> us[j].Pair?
    ensures Flat(ts + us) == Flat(ts) + Flat(us)
  {
    if ts == [] {
      assert ts + us == us;
    } else {
      assert (ts + us)[0] == ts[0] && (ts + us)[1..] == ts[1..] + us;
      FlatAppend(ts[1..], us);
      assert Flat(ts + us) == [ts[0].org, ts[0].dir] + Flat(ts[1..] + us);
      assert Flat(ts) == [ts[0].org, ts[0].dir] + Flat(ts[1..]);
    }
  }

  /** The converse of `ReadSpec`: a count of rays and records that fits the way
      `Read` stops is the one it returns. */
  lemma {:induction false} ReadExact(s: seq<Token>, n: int, k: nat, used: nat)
    requires k <= |s| && (forall i :: 0 <= i < k ==> s[i].Pair?)
    requires forall i :: 0 <= i < k - 1 ==> !IsZero(s[i].dir)
    requires
      || (used == k + 1 && k < n && k < |s| && s[k].DecodeFailed? && (k == 0 || !IsZero(s[k - 1].dir)))
      || (used == k && n <= 0 && k == 0)
      || (used == k && 0 < n && k <= n && (k == n || k == |s| || (k > 0 && IsZero(s[k - 1].dir))))
    ensures Read(s, n) == (k, used)
  {
    if k > 0 && !IsZero(s[0].dir) {
      ReadExact(s[1..], n - 1, k - 1, used - 1);
    }
  }

  /** `ReadExact` for the input from `pos` on, in positions of the whole input. */
  lemma ReadFrom(input: seq<Token>, pos: nat, n: int, k: nat, used: nat)
    requires pos + k <= |input| && (forall i :: pos <= i < pos + k ==> input[i].Pair?)
    requires forall i :: pos <= i < pos + k - 1 ==> !IsZero(input[i].dir)
    requires
      || (used == k + 1 && k < n && pos + k < |input| && input[pos + k].DecodeFailed? &&
          (k == 0 || !IsZero(input[pos + k - 1].dir)))
      || (used == k && n <= 0 && k == 0)
      || (used == k && 0 < n && k <= n && (k == n || pos + k == |input| || (k > 0 && IsZero(input[pos + k - 1].dir))))
    ensures Read(input[pos..], n) == (k, used)
  {
    ReadExact(input[pos..], n, k, used);
  }

  /** getrays: reads up to `n` rays from `input[pos..]` into `buf`, ray `i` at slots
      `2i` (origin) and `2i + 1` (direction); `next` is the input position after it. */
  method GetRays(buf: array<Vec3>, input: seq<Token>, pos: nat, n: int) returns (nread: nat, next: nat)
    requires pos <= |input| && 2 * n <= buf.Length
    modifies buf
    ensures pos <= next <= |input| && pos + nread <= |input|
    ensures (nread, next - pos) == Read(input[pos..], n)
    ensures 2 * nread <= buf.Length && Loaded(buf[..2 * nread], input, pos, nread)
  {
    nread := 0;
    next := pos;
    var left := n;
    while left > 0
      invariant next == pos + nread <= |input|
      invariant left == n - nread && 2 * nread <= buf.Length && (nread == 0 || nread <= n)
      invariant forall i :: pos <= i < next ==> input[i].Pair? && !IsZero(input[i].dir)
      invariant Loaded(buf[..2 * nread], input, pos, nread)
    {
      if next == |input| {
        break;
      }
      if input[next].DecodeFailed? {
        ReadFailed(input, pos, n, nread);
        next := next + 1;
        return;
      }
      StoreRay(buf, input, pos, nread);
      left := left - 1;
      nread := nread + 1;
      next := next + 1;
      if IsZero(buf[2 * nread - 1]) {
        ReadZero(input, pos, n, nread);
        return;
      }
    }
    ReadFull(input, pos, n, nread);
  }

  /** `Read` stops at a record that fails to decode, after `k` plain rays. */
  lemma ReadFailed(input: seq<Token>, pos: nat, n: int, k: nat)
    requires pos + k < |input| && k < n && input[pos + k].DecodeFailed?
    requires forall i :: pos <= i < pos + k ==> input[i].Pair? && !IsZero(input[i].dir)
    ensures Read(input[pos..], n) == (k, k + 1)
  {
    ReadFrom(input, pos, n, k, k + 1);
  }

  /** `Read` stops after a ray with a zero direction. */
  lemma ReadZero(input: seq<Token>, pos: nat, n: int, k: nat)
    requires 1 <= k <= n && pos + k <= |input| && input[pos + k - 1].Pair? && IsZero(input[pos + k - 1].dir)
    requires forall i :: pos <= i < pos + k - 1 ==> input[i].Pair? && !IsZero(input[i].dir)
    ensures Read(input[pos..], n) == (k, k)
  {
    ReadFrom(input, pos, n, k, k);
  }

  /** `Read` stops when the bundle is full or the input ends. */
  lemma ReadFull(input: seq<Token>, pos: nat, n: int, k: nat)
    requires pos + k <= |input| && (if n <= 0 then k == 0 else k == n || (k < n && pos + k == |input|))
    requires forall i :: pos <= i < pos + k ==> input[i].Pair? && !IsZero(input[i].dir)
    ensures Read(input[pos..], n) == (k, k)
  {
    ReadFrom(input, pos, n, k, k);
  }

  /** `b` holds the rays of the `k` records from `input[pos]` on, all decoded. */
  ghost predicate Loaded(b: seq<Vec3>, input: seq<Token>, pos: nat, k: nat)
  {
    pos + k <= |input| && (forall i :: pos <= i < pos + k ==> input[i].Pair?) && b == Flat(input[pos..pos + k])
  }

  /** `org_dir[0]` and `org_dir[1]` of ray `i`, read from `input[pos + i]`, after the
      rays before it. */
  method StoreRay(buf: array<Vec3>, input: seq<Token>, pos: nat, i: nat)
    requires pos + i < |input| && input[pos + i].Pair? && 2 * i + 1 < buf.Length
    requires Loaded(buf[..2 * i], input, pos, i)
    modifies buf
    ensures Loaded(buf[..2 * i + 2], input, pos, i + 1)
    ensures buf[2 * i + 1] == input[pos + i].dir
  {
    ghost var before := buf[..2 * i];
    buf[2 * i] := input[pos + i].org;
    buf[2 * i + 1] := input[pos + i].dir;
    assert buf[..2 * i + 2] == before + [input[pos + i].org, input[pos + i].dir];
    FlatAppend(input[pos..pos + i], [input[pos + i]]);
    assert input[pos..pos + i + 1] == input[pos..pos + i] + [input[pos + i]];
  }
}
