/** The legacy script's detector and clip compiler: every second is split into
    1000 chunks, a second with any chunk at or above the target becomes one
    record, and `compile` thins the sorted record keys, then extracts one
    clip per remaining key, lengthened over consecutive seconds. */
module LegacyAnalysis {
  import opened Text
  import opened Highlights
  import opened Samples

  /** _split_into_milliseconds: np.array_split(buffer, 1000). */
  const ChunksPerSecond: nat := 1000

  /** The level of every chunk of one second, unfiltered. */
  function SecondRow(samples: seq<int>, loudness: seq<int> -> real): (row: seq<Level>)
    ensures |row| == ChunksPerSecond
  {
    Levels(Split(samples, ChunksPerSecond).value, loudness)
  }

  function Rows(windows: seq<seq<int>>, loudness: seq<int> -> real): (rows: seq<seq<Level>>)
    ensures |rows| == |windows|
    ensures forall i :: 0 <= i < |windows| ==> rows[i] == SecondRow(windows[i], loudness)
  {
    seq(|windows|, i requires 0 <= i < |windows| => SecondRow(windows[i], loudness))
  }

  /** The index of the first chunk whose level is at or above the target
      (NaN and minus infinity never are), |row| when there is none. */
  function Crossing(row: seq<Level>, target: real): (ms: nat)
    ensures ms <= |row|
    ensures forall j :: 0 <= j < ms ==> !AtLeast(row[j], target)
    ensures ms < |row| ==> AtLeast(row[ms], target)
  {
    FirstWhere(row, l => AtLeast(l, target))
  }

  /** The records of the legacy analyze over the given seconds: one per
      second that has a crossing chunk, in second order. */
  function Records(rows: seq<seq<Level>>, target: real): Dict<Highlight> {
    if rows == [] then EmptyDict()
    else
      var i := |rows| - 1;
      var before := Records(rows[..i], target);
      var ms := Crossing(rows[i], target);
      if ms < |rows[i]| then Insert(before, i, Highlight(i, ms, rows[i][ms].db)) else before
  }

  /** A record exists exactly for the seconds with a chunk at or above the
      target; it holds the raw index of the first such chunk and its level;
      keys are inserted in increasing order. */
  lemma {:induction false} RecordsMeaning(rows: seq<seq<Level>>, target: real)
    ensures var d := Records(rows, target);
            && WellFormed(d)
            && Increasing(d.order)
            && (forall j :: 0 <= j < |d.order| ==> d.order[j] < |rows|)
            && (forall k: nat :: k in d.entries <==> k < |rows| && Crossing(rows[k], target) < |rows[k]|)
            && (forall k :: k in d.entries ==>
                  var ms := Crossing(rows[k], target);
                  ms < |rows[k]| && d.entries[k] == Highlight(k, ms, rows[k][ms].db))
  {
    RecordsOrder(rows, target);
    RecordsEntries(rows, target);
  }

  /** The record keys are distinct, increasing and below the number of seconds. */
  lemma {:induction false} RecordsOrder(rows: seq<seq<Level>>, target: real)
    ensures var d := Records(rows, target);
            && WellFormed(d)
            && Increasing(d.order)
            && (forall j :: 0 <= j < |d.order| ==> d.order[j] < |rows|)
  {
    if rows != [] {
      RecordsOrder(rows[..|rows| - 1], target);
    }
  }

  /** The records hold exactly the crossing seconds, each with its first crossing chunk. */
  lemma {:induction false} RecordsEntries(rows: seq<seq<Level>>, target: real)
    ensures var d := Records(rows, target);
            && (forall k: nat :: k in d.entries <==> k < |rows| && Crossing(rows[k], target) < |rows[k]|)
            && (forall k :: k in d.entries ==>
                  var ms := Crossing(rows[k], target);
                  ms < |rows[k]| && d.entries[k] == Highlight(k, ms, rows[k][ms].db))
  {
    if rows != [] {
      var i := |rows| - 1;
      var init := rows[..i];
      RecordsEntries(init, target);
      var d, before := Records(rows, target), Records(init, target);
      var c := Crossing(rows[i], target);
      assert d == if c < |rows[i]| then Insert(before, i, Highlight(i, c, rows[i][c].db)) else before;
      forall k: nat
        ensures k in d.entries <==> k < |rows| && Crossing(rows[k], target) < |rows[k]|
        ensures k in d.entries ==>
                  var ms := Crossing(rows[k], target);
                  ms < |rows[k]| && d.entries[k] == Highlight(k, ms, rows[k][ms].db)
      {
        if k < i {
          assert rows[k] == init[k];
        }
      }
    }
  }

  /** The capture list of the legacy analyze: a recorded second stays in it
      until the next second is recorded too. */
  ghost predicate LedgerOf(captured: seq<nat>, result: Dict<Highlight>) {
    forall x :: x in captured <==> x in result.entries && x + 1 !in result.entries
  }

  /** The capture list during the legacy analyze, before second i. */
  ghost predicate LedgerBelow(captured: seq<nat>, result: Dict<Highlight>, i: nat) {
    && Increasing(captured)
    && (forall k :: 0 <= k < |captured| ==> captured[k] < i)
    && LedgerOf(captured, result)
  }

  /** The first index of x in s (list.index). */
  function IndexOf(s: seq<nat>, x: nat): (idx: nat)
    requires x in s
    ensures idx < |s| && s[idx] == x && x !in s[..idx]
  {
    if s[0] == x then 0 else 1 + IndexOf(s[1..], x)
  }

  /** AudioAnalysis.analyze of the legacy script: the records exactly as
      Records defines them over the 1000-chunk rows of the seconds. */
  method Analyze(windows: seq<seq<int>>, target: real, loudness: seq<int> -> real) returns (result: Dict<Highlight>)
    ensures result == Records(Rows(windows, loudness), target)
  {
    ghost var rows := Rows(windows, loudness);
    result := EmptyDict();
    var captured: seq<nat> := [];
    var i := 0;
    while i < |windows|
      invariant i <= |windows|
      invariant result == Records(rows[..i], target)
      invariant LedgerBelow(captured, result, i)
    {
      var decibels := SplitIntoMilliseconds(windows[i], loudness);
      ghost var before, captured0 := result, captured;
      result, captured := RecordSecond(i, decibels, target, result, captured);
      AnalyzeStep(rows, target, i, decibels, before, captured0, result, captured);
      i := i + 1;
    }
    assert rows[..i] == rows;
  }

  /** One second split into 1000 chunks, and the level of each chunk. */
  method SplitIntoMilliseconds(samples: seq<int>, loudness: seq<int> -> real) returns (decibels: seq<Level>)
    ensures decibels == SecondRow(samples, loudness)
  {
    var chunks := Split(samples, ChunksPerSecond);
    decibels := Levels(chunks.value, loudness);
  }

  /** One second of the legacy analyze keeps its loop invariant. */
  lemma AnalyzeStep(rows: seq<seq<Level>>, target: real, i: nat, decibels: seq<Level>,
                    result0: Dict<Highlight>, captured0: seq<nat>, result: Dict<Highlight>, captured: seq<nat>)
    requires i < |rows| && decibels == rows[i]
    requires result0 == Records(rows[..i], target)
    requires LedgerBelow(captured0, result0, i)
    requires (result, captured) == RecordStep(i, decibels, target, result0, captured0)
    ensures result == Records(rows[..i + 1], target)
    ensures LedgerBelow(captured, result, i + 1)
  {
    RecordsMeaning(rows[..i], target);
    assert rows[..i + 1][..i] == rows[..i];
    var c := Crossing(rows[i], target);
    if c < |rows[i]| {
      LedgerStep(captured0, result0, i, Highlight(i, c, rows[i][c].db));
    }
  }

  /** The millisecond loop of one second: the first chunk at or above the
      target records the second; later ones find it captured already. */
  method RecordSecond(i: nat, decibels: seq<Level>, target: real, result0: Dict<Highlight>, captured0: seq<nat>)
    returns (result: Dict<Highlight>, captured: seq<nat>)
    requires forall k :: 0 <= k < |captured0| ==> captured0[k] < i
    ensures (result, captured) == RecordStep(i, decibels, target, result0, captured0)
  {
    ghost var crossing := Crossing(decibels, target);
    result, captured := result0, captured0;
    var ms := 0;
    while ms < |decibels|
      invariant ms <= |decibels|
      invariant crossing >= ms ==> result == result0 && captured == captured0
      invariant crossing < ms ==> result == Insert(result0, i, Highlight(i, crossing, decibels[crossing].db))
                                  && captured == Recorded(captured0, i)
    {
      var db := decibels[ms];
      if AtLeast(db, target) {
        if i !in captured {
          if i > 0 && i - 1 in captured {
            var idx := IndexOf(captured, i - 1);
            captured := captured[..idx] + captured[idx + 1..];
          }
          captured := captured + [i];
          result := Insert(result, i, Highlight(i, ms, db.db));
        }
      }
      ms := ms + 1;
    }
  }

  /** What one second does to the result and the capture list: a second
      with a crossing chunk is recorded at its first one, any other second
      changes nothing. */
  function RecordStep(i: nat, decibels: seq<Level>, target: real, result: Dict<Highlight>, captured: seq<nat>)
    : (Dict<Highlight>, seq<nat>)
  {
    var c := Crossing(decibels, target);
    if c < |decibels| then (Insert(result, i, Highlight(i, c, decibels[c].db)), Recorded(captured, i))
    else (result, captured)
  }

  /** The capture list after second i is recorded: i - 1 leaves it, i joins it. */
  function Recorded(captured: seq<nat>, i: nat): seq<nat> {
    if i > 0 && i - 1 in captured then
      var idx := IndexOf(captured, i - 1);
      captured[..idx] + captured[idx + 1..] + [i]
    else captured + [i]
  }

  /** Recording second i keeps the capture list increasing and equal to the
      recorded seconds whose successor is not recorded. */
  lemma LedgerStep(captured: seq<nat>, result: Dict<Highlight>, i: nat, h: Highlight)
    requires Increasing(captured) && forall k :: 0 <= k < |captured| ==> captured[k] < i
    requires LedgerOf(captured, result)
    requires forall k :: k in result.entries ==> k < i
    ensures var c := Recorded(captured, i);
            && Increasing(c) && (forall k :: 0 <= k < |c| ==> c[k] < i + 1)
            && LedgerOf(c, Insert(result, i, h))
  {
    var c := Recorded(captured, i);
    var r := Insert(result, i, h);
    if i > 0 && i - 1 in captured {
      var idx := IndexOf(captured, i - 1);
      var rest := captured[..idx] + captured[idx + 1..];
      assert c == rest + [i];
      forall x ensures x in rest <==> x in captured && x != i - 1 {
        if x in captured && x != i - 1 {
          var k :| 0 <= k < |captured| && captured[k] == x;
          assert k < idx;
          assert rest[k] == x;
        }
      }
      assert forall a, b :: 0 <= a < b < |rest| ==> rest[a] < rest[b] by {
        forall a, b | 0 <= a < b < |rest| ensures rest[a] < rest[b] {
          var a' := if a < idx then a else a + 1;
          var b' := if b < idx then b else b + 1;
          assert rest[a] == captured[a'] && rest[b] == captured[b'];
        }
      }
    }
  }

  // ---------------------------------------------------------------------
  // compile: thinning the sorted keys

  /** The smallest element of a non-empty set. */
  function Least(s: set<nat>): (m: nat)
    requires s != {}
    ensures m in s && forall y :: y in s ==> m <= y
  {
    assert Minimum(s) in s;
    var m :| m in s && forall y :: y in s ==> m <= y;
    m
  }

  /** A smallest element, found by taking elements out one at a time. */
  ghost function Minimum(s: set<nat>): (m: nat)
    requires s != {}
    ensures m in s && forall y :: y in s ==> m <= y
    decreases |s|
  {
    var x :| x in s;
    if s - {x} == {} then
      assert forall y :: y in s ==> y == x by {
        forall y | y in s ensures y == x {
          assert y !in s - {x};
        }
      }
      x
    else
      var m := Minimum(s - {x});
      LeastOfInsert(s, x, m);
      if x < m then x else m
  }

  /** The least of s is x or the least of the rest. */
  lemma LeastOfInsert(s: set<nat>, x: nat, m: nat)
    requires x in s && m in s - {x} && forall y :: y in s - {x} ==> m <= y
    ensures var l := if x < m then x else m;
            l in s && forall y :: y in s ==> l <= y
  {
    forall y | y in s && y != x ensures m <= y {
      assert y in s - {x};
    }
  }

  /** sorted(list(keys)): the keys in increasing order. */
  function SortedKeys(keys: set<nat>): (p: seq<nat>)
    ensures Increasing(p)
    ensures forall x :: x in p <==> x in keys
    ensures |p| == |keys|
    decreases |keys|
  {
    if keys == {} then []
    else
      var m := Least(keys);
      var rest := SortedKeys(keys - {m});
      [m] + rest
  }

  /** list.remove(x): the first occurrence of x leaves the list. */
  function RemoveFirst(p: seq<nat>, x: nat): (r: seq<nat>)
    ensures |r| == if x in p then |p| - 1 else |p|
    ensures forall y :: y in r ==> y in p
  {
    if p == [] then []
    else if p[0] == x then p[1..]
    else [p[0]] + RemoveFirst(p[1..], x)
  }

  /** Removing a present value deletes exactly the position list.index finds
      and keeps every other element in order. */
  lemma {:induction false} RemoveFirstExact(p: seq<nat>, x: nat)
    requires x in p
    ensures RemoveFirst(p, x) == p[..IndexOf(p, x)] + p[IndexOf(p, x) + 1..]
  {
    if p[0] == x {
      assert p[..0] + p[1..] == p[1..];
    } else {
      RemoveFirstExact(p[1..], x);
      ConsDrop(p, IndexOf(p, x));
    }
  }

  /** In a list without repeats, removing the value at position k removes that position. */
  lemma {:induction false} RemoveFirstAt(p: seq<nat>, k: nat)
    requires k < |p| && Increasing(p)
    ensures RemoveFirst(p, p[k]) == p[..k] + p[k + 1..]
  {
    if k == 0 {
      assert p[..0] + p[1..] == p[1..];
    } else {
      assert p[0] < p[k] && p[1..][k - 1] == p[k];
      RemoveFirstAt(p[1..], k - 1);
      ConsDrop(p, k);
    }
  }

  lemma ConsDrop(p: seq<nat>, k: nat)
    requires 0 < k < |p|
    ensures [p[0]] + (p[1..][..k - 1] + p[1..][k..]) == p[..k] + p[k + 1..]
  {
    assert p[1..][..k - 1] == p[1..k] && p[1..][k..] == p[k + 1..];
  }

  /** Dropping one position keeps a list increasing. */
  lemma DropKeepsIncreasing(p: seq<nat>, k: nat)
    requires k < |p| && Increasing(p)
    ensures Increasing(p[..k] + p[k + 1..])
  {
    var r := p[..k] + p[k + 1..];
    forall a, b | 0 <= a < b < |r| ensures r[a] < r[b] {
      var a' := if a < k then a else a + 1;
      var b' := if b < k then b else b + 1;
      assert r[a] == p[a'] && r[b] == p[b'];
    }
  }

  /** The inner loop `for position, identical in enumerate(points)` from
      position k on: a value in [second, second + 20) is removed from the list
      being iterated, so the value that moves into its position is skipped. */
  function Sweep(p: seq<nat>, second: nat, k: nat): (r: seq<nat>)
    ensures |r| <= |p|
    ensures forall y :: y in r ==> y in p
    decreases |p| - k
  {
    if k >= |p| then p
    else if second <= p[k] < second + 20 then Sweep(RemoveFirst(p, p[k]), second, k + 1)
    else Sweep(p, second, k + 1)
  }

  /** One removal pass, the outer `for second in points` from position j on,
      over the list the inner loops shorten. */
  function Pass(p: seq<nat>, j: nat): (r: seq<nat>)
    ensures |r| <= |p|
    ensures forall y :: y in r ==> y in p
    decreases |p| - j
  {
    if j >= |p| then p else Pass(Sweep(p, p[j], 0), j + 1)
  }

  /** The points compile clips: the sorted keys after the two removal passes. */
  function Pruned(keys: seq<nat>): seq<nat> {
    Pass(Pass(keys, 0), 0)
  }

  lemma {:induction false} SweepKeepsIncreasing(p: seq<nat>, second: nat, k: nat)
    requires Increasing(p)
    ensures Increasing(Sweep(p, second, k))
    decreases |p| - k
  {
    if k < |p| {
      if second <= p[k] < second + 20 {
        RemoveFirstAt(p, k);
        DropKeepsIncreasing(p, k);
        SweepKeepsIncreasing(RemoveFirst(p, p[k]), second, k + 1);
      } else {
        SweepKeepsIncreasing(p, second, k + 1);
      }
    }
  }

  lemma {:induction false} PassKeepsIncreasing(p: seq<nat>, j: nat)
    requires Increasing(p)
    ensures Increasing(Pass(p, j))
    decreases |p| - j
  {
    if j < |p| {
      SweepKeepsIncreasing(p, p[j], 0);
      PassKeepsIncreasing(Sweep(p, p[j], 0), j + 1);
    }
  }

  /** The removal passes only delete: the points stay strictly increasing,
      drawn from the keys, and no more numerous. */
  lemma PrunedIsSortedSubset(keys: seq<nat>)
    requires Increasing(keys)
    ensures var p := Pruned(keys);
            Increasing(p) && |p| <= |keys| && forall x :: x in p ==> x in keys
  {
    PassKeepsIncreasing(keys, 0);
    PassKeepsIncreasing(Pass(keys, 0), 0);
  }

  /** The first sweep starts at the first point and removes it: the earliest
      highlight never survives the removal passes. */
  lemma FirstPointDropped(keys: seq<nat>)
    requires keys != [] && Increasing(keys)
    ensures keys[0] !in Pruned(keys)
  {
    var p0 := keys[0];
    assert RemoveFirst(keys, p0) == keys[1..];
    assert p0 !in keys[1..];
    var swept := Sweep(keys, p0, 0);
    assert swept == Sweep(keys[1..], p0, 1);
    assert Pass(keys, 0) == Pass(swept, 1);
  }

  /** A single highlight yields no point at all, so no clip. */
  lemma LoneHighlightDropped(t: nat)
    ensures Pruned([t]) == []
  {
    assert Sweep([t], t, 0) == [];
    assert Pass([t], 0) == [];
  }

  /** Four highlights 30 seconds apart: only the last keeps its point. */
  lemma SpreadHighlightsExample()
    ensures Pruned([0, 30, 60, 90]) == [90]
  {
    assert RemoveFirst([0, 30, 60, 90], 0) == [30, 60, 90];
    assert Sweep([30, 60, 90], 0, 3) == [30, 60, 90];
    assert Sweep([30, 60, 90], 0, 2) == [30, 60, 90];
    assert Sweep([30, 60, 90], 0, 1) == [30, 60, 90];
    assert Sweep([0, 30, 60, 90], 0, 0) == [30, 60, 90];
    assert RemoveFirst([30, 60, 90], 60) == [30, 90];
    assert Sweep([30, 90], 60, 2) == [30, 90];
    assert Sweep([30, 60, 90], 60, 1) == [30, 90];
    assert Sweep([30, 60, 90], 60, 0) == [30, 90];
    assert Pass([30, 90], 2) == [30, 90];
    assert Pass([30, 60, 90], 1) == [30, 90];
    assert Pass([0, 30, 60, 90], 0) == [30, 90];
    assert RemoveFirst([30, 90], 30) == [90];
    assert Sweep([90], 30, 1) == [90];
    assert Sweep([30, 90], 30, 0) == [90];
    assert Pass([90], 1) == [90];
    assert Pass([30, 90], 0) == [90];
  }

  /** The removal passes of compile, as the script runs them: each pass
      walks the live list and removes from it while walking. */
  method RemovalPass(points: seq<nat>) returns (p: seq<nat>)
    ensures p == Pass(points, 0)
  {
    p := points;
    var j := 0;
    while j < |p|
      invariant Pass(p, j) == Pass(points, 0)
      decreases |p| - j
    {
      var second := p[j];
      ghost var start := p;
      var k := 0;
      while k < |p|
        invariant Sweep(p, second, k) == Sweep(start, second, 0)
        invariant |p| <= |start|
        decreases |p| - k
      {
        var identical := p[k];
        if second <= identical < second + 20 {
          p := RemoveFirst(p, identical);
        }
        k := k + 1;
      }
      j := j + 1;
    }
  }

  // ---------------------------------------------------------------------
  // compile: the clips

  /** One more than the largest point, 0 for none. */
  function Bound(points: seq<nat>): (b: nat)
    ensures forall x :: x in points ==> x < b
  {
    if points == [] then 0
    else
      var rest := Bound(points[1..]);
      assert forall x :: x in points ==> x == points[0] || x in points[1..];
      if points[0] + 1 > rest then points[0] + 1 else rest
  }

  /** The number of consecutive seconds from, from + 1, ... present in points. */
  function Streak(points: seq<nat>, from: nat): (n: nat)
    ensures forall x :: from <= x < from + n ==> x in points
    ensures from + n !in points
    decreases Bound(points) - from
  {
    if from in points then 1 + Streak(points, from + 1) else 0
  }

  /** The seconds appended to `captured` while lengthening a clip at time:
      none when time + 1 is not a point, else time + 1 up to the first
      second after the streak. */
  function Lengthened(time: nat, streak: nat): seq<nat> {
    if streak == 0 then [] else Consecutive(time + 1, streak + 1)
  }

  /** from, from + 1, ..., from + n - 1. */
  function Consecutive(from: nat, n: nat): (s: seq<nat>)
    ensures |s| == n && forall r :: 0 <= r < n ==> s[r] == from + r
  {
    seq(n, r => from + r)
  }

  lemma ConsecutiveAppend(from: nat, n: nat)
    ensures Consecutive(from, n) + [from + n] == Consecutive(from, n + 1)
  {
  }

  /** A clip job of the legacy script: [start, end] of the source video into
      ./highlights/{second}.mp4. */
  datatype Job = Job(source: string, start: int, end: int, second: nat)

  function Destination(job: Job): string {
    "./highlights/" + (Digits(job.second) + ".mp4")
  }

  /** The clip loop of compile from position j on, with the seconds captured so far. */
  function ClipsFrom(points: seq<nat>, source: string, j: nat, captured: seq<nat>): seq<Job>
    decreases |points| - j
  {
    if j >= |points| then []
    else
      var time := points[j];
      var seen := captured + [time];
      if time > 0 && time - 1 in seen then ClipsFrom(points, source, j + 1, seen)
      else
        var streak := Streak(points, time + 1);
        [Job(source, time - 10, time + 20 + streak, time)]
          + ClipsFrom(points, source, j + 1, seen + Lengthened(time, streak))
  }

  function Clips(points: seq<nat>, source: string): seq<Job> {
    ClipsFrom(points, source, 0, [])
  }

  /** The clip loop of compile, as the script runs it. */
  method ClipLoop(points: seq<nat>, source: string) returns (jobs: seq<Job>)
    ensures jobs == Clips(points, source)
  {
    jobs := [];
    var captured: seq<nat> := [];
    var j := 0;
    while j < |points|
      invariant j <= |points|
      invariant jobs + ClipsFrom(points, source, j, captured) == Clips(points, source)
    {
      ghost var before := captured;
      var job;
      job, captured := ClipPoint(points, source, j, captured);
      ghost var next := ClipsFrom(points, source, j + 1, captured);
      if job.Some? {
        EmitStep(jobs, job.value, ClipsFrom(points, source, j, before), next, Clips(points, source));
        jobs := jobs + [job.value];
      }
      j := j + 1;
    }
  }

  /** The body of the clip loop for the point at position j: capture it,
      skip it when the second before it is captured, otherwise lengthen its
      clip over the consecutive points after it. */
  method ClipPoint(points: seq<nat>, source: string, j: nat, captured0: seq<nat>)
    returns (job: Option<Job>, captured: seq<nat>)
    requires j < |points|
    ensures job.None? ==> ClipsFrom(points, source, j, captured0) == ClipsFrom(points, source, j + 1, captured)
    ensures job.Some? ==> ClipsFrom(points, source, j, captured0) == [job.value] + ClipsFrom(points, source, j + 1, captured)
  {
    var time := points[j];
    captured := captured0 + [time];
    if time > 0 && time - 1 in captured {
      // redundant clipping: the second before was clipped or lengthened over
      ClipsFromSkips(points, source, j, captured0);
      return None, captured;
    }
    ClipsFromOpens(points, source, j, captured0);
    var startPoint := -10;
    var endPoint;
    endPoint, captured := Lengthen(points, time, captured);
    job := Some(Job(source, time + startPoint, time + endPoint, time));
  }

  /** Emitting the head of what remains keeps the emitted and the remaining jobs together. */
  lemma EmitStep(jobs: seq<Job>, job: Job, rest: seq<Job>, next: seq<Job>, all: seq<Job>)
    requires jobs + rest == all && rest == [job] + next
    ensures (jobs + [job]) + next == all
  {
    assert jobs + ([job] + next) == (jobs + [job]) + next;
  }

  /** One step of the clip loop at a point whose previous second is captured. */
  lemma ClipsFromSkips(points: seq<nat>, source: string, j: nat, captured: seq<nat>)
    requires j < |points|
    requires points[j] > 0 && points[j] - 1 in captured + [points[j]]
    ensures ClipsFrom(points, source, j, captured) == ClipsFrom(points, source, j + 1, captured + [points[j]])
  {
  }

  /** One step of the clip loop at a point that opens a clip. */
  lemma ClipsFromOpens(points: seq<nat>, source: string, j: nat, captured: seq<nat>)
    requires j < |points|
    requires !(points[j] > 0 && points[j] - 1 in captured + [points[j]])
    ensures var time := points[j];
            var streak := Streak(points, time + 1);
            ClipsFrom(points, source, j, captured)
            == [Job(source, time - 10, time + 20 + streak, time)]
               + ClipsFrom(points, source, j + 1, captured + [time] + Lengthened(time, streak))
  {
  }

  /** The lengthening of the clip at time: while the next second is a point,
      the end moves one second later and the second is captured. */
  method Lengthen(points: seq<nat>, time: nat, captured0: seq<nat>) returns (endPoint: int, captured: seq<nat>)
    ensures endPoint == 20 + Streak(points, time + 1)
    ensures captured == captured0 + Lengthened(time, Streak(points, time + 1))
  {
    ghost var streak := Streak(points, time + 1);
    endPoint := 20;
    captured := captured0;
    if time + 1 in points {
      var possible := time + 1;
      captured := captured + [possible];
      while possible in points
        invariant time + 1 <= possible
        invariant endPoint == 20 + (possible - (time + 1))
        invariant streak == (possible - (time + 1)) + Streak(points, possible)
        invariant captured == captured0 + Consecutive(time + 1, possible - time)
        decreases Bound(points) - possible
      {
        ConsecutiveAppend(time + 1, possible - time);
        endPoint := endPoint + 1;
        possible := possible + 1;
        captured := captured + [possible];
      }
    }
  }

  /** Every clip is cut around a point: ten seconds before it, twenty after
      it plus one second per consecutive point that follows it, and those
      following seconds are points. */
  lemma {:induction false} ClipsAroundPoints(points: seq<nat>, source: string, j: nat, captured: seq<nat>)
    ensures forall job :: job in ClipsFrom(points, source, j, captured) ==>
              && job.second in points
              && job.source == source
              && job.start == job.second - 10
              && job.end == job.second + 20 + Streak(points, job.second + 1)
              && (forall x :: job.second < x < job.end - 19 ==> x in points)
    decreases |points| - j
  {
    if j < |points| {
      var time := points[j];
      var seen := captured + [time];
      if time > 0 && time - 1 in seen {
        ClipsAroundPoints(points, source, j + 1, seen);
      } else {
        var streak := Streak(points, time + 1);
        ClipsAroundPoints(points, source, j + 1, seen + Lengthened(time, streak));
      }
    }
  }

  /** The first point always opens a clip. */
  lemma FirstPointClipped(points: seq<nat>, source: string)
    requires points != []
    ensures var t := points[0];
            Clips(points, source) != []
            && Clips(points, source)[0] == Job(source, t - 10, t + 20 + Streak(points, t + 1), t)
  {
    var t := points[0];
    assert !(t > 0 && t - 1 in [] + [t]);
  }

  /** A point whose previous second is also a point never opens a clip of its
      own: the earlier point was captured before it. */
  lemma {:induction false} SuccessorsNotClipped(points: seq<nat>, source: string, j: nat, captured: seq<nat>)
    requires Increasing(points)
    requires forall k :: 0 <= k < j && k < |points| ==> points[k] in captured
    ensures forall job :: job in ClipsFrom(points, source, j, captured) ==>
              !(job.second > 0 && job.second - 1 in points)
    decreases |points| - j
  {
    if j < |points| {
      var time := points[j];
      var seen := captured + [time];
      forall k | 0 <= k < j + 1 && k < |points| ensures points[k] in seen {
        if k < j { assert points[k] in captured; }
      }
      if time > 0 && time - 1 in seen {
        SuccessorsNotClipped(points, source, j + 1, seen);
      } else {
        var streak := Streak(points, time + 1);
        var seen' := seen + Lengthened(time, streak);
        forall k | 0 <= k < j + 1 && k < |points| ensures points[k] in seen' {
          assert points[k] in seen;
        }
        SuccessorsNotClipped(points, source, j + 1, seen');
      }
    }
  }

  /** `compile` of the legacy script as written: the sorted keys, the two
      removal passes, then the clip loop. */
  method Compile(result: Dict<Highlight>, source: string) returns (jobs: seq<Job>)
    ensures jobs == Clips(Pruned(SortedKeys(result.entries.Keys)), source)
  {
    var points := SortedKeys(result.entries.Keys);
    points := RemovalPass(points);
    points := RemovalPass(points);
    jobs := ClipLoop(points, source);
  }

  /** A single highlight gives no clip at all. */
  lemma LoneHighlightNoClip(result: Dict<Highlight>, source: string, t: nat)
    requires result.entries.Keys == {t}
    ensures Clips(Pruned(SortedKeys(result.entries.Keys)), source) == []
  {
    var keys := SortedKeys(result.entries.Keys);
    assert |keys| == 1 && keys[0] == t;
    assert keys == [t];
    LoneHighlightDropped(t);
  }

  // ---------------------------------------------------------------------
  // compile as intended: keep a point, drop the points of the next twenty seconds

  /** Walks the sorted points keeping one when no kept point lies within the
      twenty seconds before it. */
  function KeepFrom(p: seq<nat>, last: Option<nat>): (r: seq<nat>)
    ensures forall y :: y in r ==> y in p
  {
    if p == [] then []
    else if last.Some? && last.value <= p[0] < last.value + 20 then KeepFrom(p[1..], last)
    else [p[0]] + KeepFrom(p[1..], Some(p[0]))
  }

  function Dedupe(points: seq<nat>): seq<nat> {
    KeepFrom(points, None)
  }

  /** Kept points come in order, at least twenty seconds apart, and after `last`. */
  lemma {:induction false} KeepFromSpaced(p: seq<nat>, last: Option<nat>)
    requires Increasing(p)
    requires last.Some? ==> forall k :: 0 <= k < |p| ==> p[k] > last.value
    ensures Spaced(KeepFrom(p, last), 19)
    ensures last.Some? ==> forall y :: y in KeepFrom(p, last) ==> y >= last.value + 20
  {
    if p != [] {
      var r := KeepFrom(p, last);
      if last.Some? && last.value <= p[0] < last.value + 20 {
        assert r == KeepFrom(p[1..], last);
        KeepFromSpaced(p[1..], last);
      } else {
        var rest := KeepFrom(p[1..], Some(p[0]));
        KeepFromSpaced(p[1..], Some(p[0]));
        assert r == [p[0]] + rest;
        forall a, b | 0 <= a < b < |r| ensures r[a] < r[b] && r[b] - r[a] > 19 {
          if a == 0 {
            assert r[b] == rest[b - 1] && rest[b - 1] in rest;
          } else {
            assert r[a] == rest[a - 1] && r[b] == rest[b - 1];
          }
        }
        if last.Some? {
          forall y | y in r ensures y >= last.value + 20 {
            if y != p[0] {
              assert y in rest;
              assert y in p;
            }
          }
        }
      }
    }
  }

  /** x lies within the twenty seconds starting at `last` or at a point of kept. */
  ghost predicate CoveredAfter(x: nat, last: Option<nat>, kept: seq<nat>) {
    (last.Some? && last.value <= x < last.value + 20) || exists q :: q in kept && q <= x < q + 20
  }

  /** Every point lies within the twenty seconds starting at `last` or at a kept point. */
  lemma {:induction false} KeepFromCovers(p: seq<nat>, last: Option<nat>)
    ensures forall x :: x in p ==> CoveredAfter(x, last, KeepFrom(p, last))
  {
    if p != [] {
      var r := KeepFrom(p, last);
      if last.Some? && last.value <= p[0] < last.value + 20 {
        assert r == KeepFrom(p[1..], last);
        KeepFromCovers(p[1..], last);
        forall x | x in p ensures CoveredAfter(x, last, r) {
          if x != p[0] {
            assert x in p[1..];
          }
        }
      } else {
        var rest := KeepFrom(p[1..], Some(p[0]));
        KeepFromCovers(p[1..], Some(p[0]));
        assert r == [p[0]] + rest;
        forall x | x in p ensures CoveredAfter(x, last, r) {
          if x == p[0] {
            assert p[0] in r;
          } else {
            assert x in p[1..];
            assert CoveredAfter(x, Some(p[0]), rest);
            if p[0] <= x < p[0] + 20 {
              assert p[0] in r;
            } else {
              var q :| q in rest && q <= x < q + 20;
              assert q in r;
            }
          }
        }
      }
    }
  }

  /** Every second lies within the twenty seconds starting at a kept point. */
  ghost predicate Within20(seconds: seq<nat>, kept: seq<nat>) {
    forall x :: x in seconds ==> exists q :: q in kept && q <= x < q + 20
  }

  /** The intended thinning keeps the first point, keeps only points, keeps
      them at least twenty seconds apart, and leaves every point within
      twenty seconds after a kept one. */
  lemma DedupeFacts(points: seq<nat>)
    requires Increasing(points)
    ensures var r := Dedupe(points);
            && (forall y :: y in r ==> y in points)
            && Spaced(r, 19)
            && (points != [] ==> r != [] && r[0] == points[0])
            && Within20(points, r)
  {
    KeepFromSpaced(points, None);
    KeepFromCovers(points, None);
    var r := Dedupe(points);
    forall x | x in points ensures exists q :: q in r && q <= x < q + 20 {
      assert CoveredAfter(x, None, r);
    }
  }

  /** A point with no point in the second before or after it opens a plain clip. */
  lemma ClipsFromLone(points: seq<nat>, source: string, j: nat, captured: seq<nat>)
    requires j < |points|
    requires points[j] + 1 !in points
    requires forall x :: x in captured ==> x + 1 < points[j]
    ensures ClipsFrom(points, source, j, captured)
            == [Job(source, points[j] as int - 10, points[j] + 20, points[j])]
               + ClipsFrom(points, source, j + 1, captured + [points[j]])
  {
    var time := points[j];
    assert Streak(points, time + 1) == 0;
    assert !(time > 0 && time - 1 in captured + [time]);
    assert captured + [time] + Lengthened(time, 0) == captured + [time];
  }

  /** In points twenty seconds apart, no point is one second after another. */
  lemma SpacedNeighbours(points: seq<nat>, j: nat)
    requires Spaced(points, 19) && j < |points|
    ensures points[j] + 1 !in points
    ensures forall x :: x in points[..j] ==> x + 1 < points[j]
  {
    forall k | 0 <= k < |points| ensures points[k] != points[j] + 1 {
      if k < j {
        assert points[j] - points[k] > 19;
      } else if k > j {
        assert points[k] - points[j] > 19;
      }
    }
    forall x | x in points[..j] ensures x + 1 < points[j] {
      var k :| 0 <= k < j && points[k] == x;
      assert points[j] - points[k] > 19;
    }
  }

  /** Points twenty seconds apart: no clip is lengthened and none skipped. */
  lemma {:induction false} SpacedClipsFrom(points: seq<nat>, source: string, j: nat)
    requires Spaced(points, 19) && j <= |points|
    ensures ClipsFrom(points, source, j, points[..j])
            == seq(|points| - j, k requires 0 <= k < |points| - j =>
                   Job(source, points[j + k] as int - 10, points[j + k] + 20, points[j + k]))
    decreases |points| - j
  {
    if j < |points| {
      SpacedNeighbours(points, j);
      ClipsFromLone(points, source, j, points[..j]);
      assert points[..j] + [points[j]] == points[..j + 1];
      SpacedClipsFrom(points, source, j + 1);
      var tail := ClipsFrom(points, source, j + 1, points[..j + 1]);
      var all := ClipsFrom(points, source, j, points[..j]);
      assert all == [Job(source, points[j] as int - 10, points[j] + 20, points[j])] + tail;
      forall k | 0 <= k < |points| - j
        ensures all[k] == Job(source, points[j + k] as int - 10, points[j + k] + 20, points[j + k])
      {
        if k > 0 {
          assert all[k] == tail[k - 1];
        }
      }
    }
  }

  /** compile as evidently intended: one [t - 10, t + 20] clip per point the
      intended thinning keeps. */
  function IntendedClips(result: Dict<Highlight>, source: string): seq<Job> {
    Clips(Dedupe(SortedKeys(result.entries.Keys)), source)
  }

  /** The clips of points twenty seconds apart, position by position. */
  lemma SpacedClips(points: seq<nat>, source: string)
    requires Spaced(points, 19)
    ensures var jobs := Clips(points, source);
            && |jobs| == |points|
            && forall m :: 0 <= m < |points| ==> jobs[m] == Job(source, points[m] as int - 10, points[m] + 20, points[m])
  {
    SpacedClipsFrom(points, source, 0);
    assert points[..0] == [];
  }

  /** Clipping points twenty seconds apart covers every second that lies
      within twenty seconds after one of them. */
  lemma SpacedClipsCover(seconds: seq<nat>, kept: seq<nat>, source: string)
    requires Spaced(kept, 19)
    requires Within20(seconds, kept)
    ensures forall x :: x in seconds ==> exists job :: job in Clips(kept, source) && job.start <= x <= job.end
  {
    SpacedClips(kept, source);
    var jobs := Clips(kept, source);
    forall x | x in seconds ensures exists job :: job in jobs && job.start <= x <= job.end {
      var q :| q in kept && q <= x < q + 20;
      var m :| 0 <= m < |kept| && kept[m] == q;
      assert jobs[m] in jobs;
    }
  }

  /** Every highlight of the result lies inside some clip. */
  lemma IntendedClipsCoverHighlights(result: Dict<Highlight>, source: string)
    ensures forall k :: k in result.entries ==>
              exists job :: job in IntendedClips(result, source) && job.start <= k <= job.end
  {
    var keys := SortedKeys(result.entries.Keys);
    var kept := Dedupe(keys);
    DedupeFacts(keys);
    SpacedClipsCover(keys, kept, source);
  }

  /** Every clip of points twenty seconds apart is the plain window of a point. */
  lemma SpacedClipsPlain(kept: seq<nat>, source: string)
    requires Spaced(kept, 19)
    ensures forall job :: job in Clips(kept, source) ==>
              job.second in kept && job.start == job.second - 10 && job.end == job.second + 20
  {
    SpacedClips(kept, source);
    var jobs := Clips(kept, source);
    forall job | job in jobs
      ensures job.second in kept && job.start == job.second - 10 && job.end == job.second + 20
    {
      var m :| 0 <= m < |jobs| && jobs[m] == job;
      assert kept[m] in kept;
    }
  }

  /** Every intended clip is the plain thirty-second window of a highlight. */
  lemma IntendedClipsArePlainWindows(result: Dict<Highlight>, source: string)
    ensures forall job :: job in IntendedClips(result, source) ==>
              job.second in result.entries && job.start == job.second - 10 && job.end == job.second + 20
  {
    var keys := SortedKeys(result.entries.Keys);
    var kept := Dedupe(keys);
    KeepFromSpaced(keys, None);
    SpacedClipsPlain(kept, source);
    assert forall y :: y in kept ==> y in result.entries;
  }

  /** Distinct clips write to distinct files. */
  lemma DestinationsDistinct(a: Job, b: Job)
    requires a.second != b.second
    ensures Destination(a) != Destination(b)
  {
    var prefix := "./highlights/";
    var ta, tb := Digits(a.second) + ".mp4", Digits(b.second) + ".mp4";
    LeadingDigitsOf(Digits(a.second), ".mp4");
    LeadingDigitsOf(Digits(b.second), ".mp4");
    DigitsRoundTrip(a.second);
    DigitsRoundTrip(b.second);
    assert LeadingDigits(ta) != LeadingDigits(tb);
    assert Destination(a) == prefix + ta && Destination(b) == prefix + tb;
    assert (prefix + ta)[|prefix|..] == ta && (prefix + tb)[|prefix|..] == tb;
  }
}
