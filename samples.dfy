/** From one second of samples to the readings the detector compares:
    numpy's array_split into sub-chunks, the per-chunk decibel level (its
    floating-point value is a parameter), and the filter that keeps only usable
    readings. */
module Samples {
  import opened Highlights

  /** The concatenation of a list of chunks. */
  function Flatten(chunks: seq<seq<int>>): seq<int> {
    if chunks == [] then [] else chunks[0] + Flatten(chunks[1..])
  }

  function Sum(xs: seq<nat>): nat {
    if xs == [] then 0 else xs[0] + Sum(xs[1..])
  }

  /** The section sizes array_split uses: n sections of `each` samples, the
      first `extras` of them one sample longer. */
  function Balanced(n: nat, each: nat, extras: nat): (sizes: seq<nat>)
    requires extras <= n
    ensures |sizes| == n && Sum(sizes) == n * each + extras
    ensures forall j :: 0 <= j < n ==> sizes[j] == if j < extras then each + 1 else each
    decreases n
  {
    if n == 0 then []
    else
      var rest := Balanced(n - 1, each, if extras > 0 then extras - 1 else 0);
      assert n * each == (n - 1) * each + each;
      assert ([if extras > 0 then each + 1 else each] + rest)[1..] == rest;
      [if extras > 0 then each + 1 else each] + rest
  }

  /** Consecutive sections of buf with the given sizes. */
  function Sections(buf: seq<int>, sizes: seq<nat>): (r: seq<seq<int>>)
    requires |buf| == Sum(sizes)
    ensures |r| == |sizes| && Flatten(r) == buf
    ensures forall j :: 0 <= j < |sizes| ==> |r[j]| == sizes[j]
  {
    if sizes == [] then []
    else
      var rest := Sections(buf[sizes[0]..], sizes[1..]);
      assert ([buf[..sizes[0]]] + rest)[1..] == rest;
      assert buf[..sizes[0]] + buf[sizes[0]..] == buf;
      [buf[..sizes[0]]] + rest
  }

  /** np.array_split(buffer, sections): exactly `sections` chunks that put
      the buffer back together in order; a section count below one raises
      ValueError, modelled as None. */
  function Split(buffer: seq<int>, sections: int): (r: Option<seq<seq<int>>>)
    ensures r.None? <==> sections <= 0
    ensures r.Some? ==> |r.value| == sections && Flatten(r.value) == buffer
  {
    if sections <= 0 then None
    else Some(Sections(buffer, Balanced(sections, |buffer| / sections, |buffer| % sections)))
  }

  /** The chunks of array_split are balanced: their sizes differ by at most
      one, the longer ones come first, and each holds len // sections or one
      more sample. */
  lemma SplitSizes(buffer: seq<int>, sections: int)
    requires sections > 0
    ensures var r := Split(buffer, sections).value;
            && (forall j, k :: 0 <= j < k < sections ==> |r[k]| <= |r[j]| <= |r[k]| + 1)
            && (forall j :: 0 <= j < sections ==> |buffer| / sections <= |r[j]| <= |buffer| / sections + 1)
  {
  }

  /** A float64 decibel reading: NaN, minus infinity, or a finite value. */
  datatype Level = NaN | NegInf | Finite(db: real)

  /** IEEE comparison l > x: false for NaN and for minus infinity. */
  predicate Above(l: Level, x: real) {
    l.Finite? && l.db > x
  }

  /** IEEE comparison l >= x for a finite x. */
  predicate AtLeast(l: Level, x: real) {
    l.Finite? && l.db >= x
  }

  /** 20 * log10(sqrt(mean(chunk ** 2))): the mean of an empty chunk is NaN,
      a silent chunk has root-mean-square 0 and so level minus infinity, any
      other chunk has a finite level, whose value `loudness` supplies. */
  function ChunkLevel(chunk: seq<int>, loudness: seq<int> -> real): Level {
    if chunk == [] then NaN
    else if forall k :: 0 <= k < |chunk| ==> chunk[k] == 0 then NegInf
    else Finite(loudness(chunk))
  }

  function Levels(chunks: seq<seq<int>>, loudness: seq<int> -> real): (ls: seq<Level>)
    ensures |ls| == |chunks|
  {
    seq(|chunks|, j requires 0 <= j < |chunks| => ChunkLevel(chunks[j], loudness))
  }

  /** `not level == -inf and level > 0` */
  predicate Usable(l: Level) {
    !(l == NegInf) && Above(l, 0.0)
  }

  /** The readings that survive the filter, in chunk order. */
  function UsableReadings(levels: seq<Level>): (ds: seq<real>)
    ensures |ds| <= |levels|
    ensures forall d :: d in ds ==> d > 0.0 && Finite(d) in levels
  {
    if levels == [] then []
    else (if Usable(levels[0]) then [levels[0].db] else []) + UsableReadings(levels[1..])
  }

  /** The filter works chunk by chunk: it commutes with concatenation. */
  lemma {:induction false} UsableReadingsAppend(a: seq<Level>, b: seq<Level>)
    ensures UsableReadings(a + b) == UsableReadings(a) + UsableReadings(b)
  {
    if a == [] {
      assert a + b == b;
    } else {
      assert (a + b)[1..] == a[1..] + b;
      UsableReadingsAppend(a[1..], b);
    }
  }

  /** A single level survives the filter exactly when it is usable. */
  lemma UsableReadingsSingle(l: Level)
    ensures UsableReadings([l]) == if Usable(l) then [l.db] else []
  {
    assert [l][1..] == [];
  }

  /** Every usable level's reading is kept. */
  lemma {:induction false} UsableKept(levels: seq<Level>, k: nat)
    requires k < |levels| && Usable(levels[k])
    ensures levels[k].db in UsableReadings(levels)
  {
    if k > 0 {
      UsableKept(levels[1..], k - 1);
    }
  }

  /** An empty or all-zero chunk never yields a usable reading, so it is never
      compared against the threshold. */
  lemma SilentChunkUnusable(chunk: seq<int>, loudness: seq<int> -> real)
    requires forall k :: 0 <= k < |chunk| ==> chunk[k] == 0
    ensures UsableReadings([ChunkLevel(chunk, loudness)]) == []
  {
  }

  /** _get_decibel_from_chunks: the level of each chunk, appended when usable. */
  method DecibelsFromChunks(chunks: seq<seq<int>>, loudness: seq<int> -> real) returns (decibels: seq<real>)
    ensures decibels == UsableReadings(Levels(chunks, loudness))
  {
    ghost var levels := Levels(chunks, loudness);
    decibels := [];
    var i := 0;
    while i < |chunks|
      invariant 0 <= i <= |chunks|
      invariant decibels == UsableReadings(levels[..i])
    {
      var result := ChunkLevel(chunks[i], loudness);
      assert levels[..i + 1] == levels[..i] + [result];
      UsableReadingsAppend(levels[..i], [result]);
      if Usable(result) {
        decibels := decibels + [result.db];
      }
      i := i + 1;
    }
    assert levels[..i] == levels;
  }

  /** max(ds) for a non-empty list. */
  function MaxOf(ds: seq<real>): (m: real)
    requires ds != []
    ensures m in ds
    ensures forall k :: 0 <= k < |ds| ==> ds[k] <= m
  {
    if |ds| == 1 then ds[0]
    else
      var rest := MaxOf(ds[1..]);
      if ds[0] >= rest then ds[0] else rest
  }

  /** max(ds, default=d) */
  function MaxOrDefault(ds: seq<real>, d: real): real {
    if ds == [] then d else MaxOf(ds)
  }

  /** The index of the first element satisfying p, or |s| when there is none. */
  function FirstWhere<T>(s: seq<T>, p: T -> bool): (k: nat)
    ensures k <= |s|
    ensures forall j :: 0 <= j < k ==> !p(s[j])
    ensures k < |s| ==> p(s[k])
  {
    if s == [] then 0 else if p(s[0]) then 0 else 1 + FirstWhere(s[1..], p)
  }
}
