/** What the analysers share: the result dictionary keyed by second, the
    highlight record, the cooldown rule consulted against the capture ledger,
    and the clip job computed for an accepted second. */
module Highlights {
  import opened Text

  datatype Option<T> = None | Some(value: T)

  /** A Python dict keyed by second: its keys in insertion order, and its entries. */
  datatype Dict<V> = Dict(order: seq<nat>, entries: map<nat, V>)

  function EmptyDict<V>(): Dict<V> {
    Dict([], map[])
  }

  ghost predicate WellFormed<V>(d: Dict<V>) {
    && (forall a, b :: 0 <= a < b < |d.order| ==> d.order[a] != d.order[b])
    && (forall k :: k in d.entries <==> k in d.order)
  }

  /** d[k] = v: a new key goes to the end of the insertion order, an existing one keeps its place. */
  function Insert<V>(d: Dict<V>, k: nat, v: V): (r: Dict<V>)
    ensures WellFormed(d) ==> WellFormed(r)
    ensures k in r.entries && r.entries[k] == v
    ensures forall j :: j != k ==> (j in r.entries <==> j in d.entries)
    ensures forall j :: j != k && j in d.entries ==> r.entries[j] == d.entries[j]
    ensures r.order == if k in d.entries then d.order else d.order + [k]
  {
    Dict(if k in d.entries then d.order else d.order + [k], d.entries[k := v])
  }

  /** len(d): the number of entries equals the number of keys in insertion order. */
  lemma {:induction false} SizeIsKeyCount<V>(d: Dict<V>)
    requires WellFormed(d)
    ensures |d.entries| == |d.order|
    decreases |d.order|
  {
    if d.order == [] {
      assert d.entries.Keys == {};
    } else {
      var last := d.order[|d.order| - 1];
      var rest := Dict(d.order[..|d.order| - 1], d.entries - {last});
      forall k ensures k in rest.entries <==> k in rest.order {
        if k in d.order && k != last {
          var j :| 0 <= j < |d.order| && d.order[j] == k;
          assert j < |d.order| - 1;
          assert rest.order[j] == k;
        }
      }
      SizeIsKeyCount(rest);
      assert d.entries.Keys == rest.entries.Keys + {last};
    }
  }

  /** Assigning a key the dict does not hold adds one entry. */
  lemma InsertNewKeyCount<V>(d: Dict<V>, k: nat, v: V)
    requires WellFormed(d) && k !in d.entries
    ensures |Insert(d, k, v).entries| == |d.entries| + 1
  {
    SizeIsKeyCount(d);
    SizeIsKeyCount(Insert(d, k, v));
  }

  /** One highlighted moment as the result dictionary stores it:
      {'time': str(timedelta(seconds=second)), 'time_with_ms': f'{time}.{ms}',
      'decibels': db}. The record keeps the values the two strings are made
      of; Time and TimeWithMs render them. */
  datatype Highlight = Highlight(second: nat, ms: nat, decibels: real)

  function Time(h: Highlight): string {
    Timedelta(h.second)
  }

  function TimeWithMs(h: Highlight): string {
    Timedelta(h.second) + "." + Digits(h.ms)
  }

  /** The cooldown rule: some second already in the capture ledger lies in
      [second - before, second). */
  predicate Covered(captured: seq<nat>, second: int, before: int) {
    exists p: int :: second - before <= p < second && p in captured
  }

  ghost predicate Increasing(s: seq<nat>) {
    forall a, b :: 0 <= a < b < |s| ==> s[a] < s[b]
  }

  /** The capture ledger lists seconds in increasing order, all before `next`. */
  ghost predicate Ledger(captured: seq<nat>, next: nat) {
    Increasing(captured) && forall k :: 0 <= k < |captured| ==> captured[k] < next
  }

  /** Appending the second under examination keeps the ledger increasing. */
  lemma LedgerAppend(captured: seq<nat>, i: nat)
    requires Ledger(captured, i)
    ensures Ledger(captured + [i], i + 1)
  {
  }

  /** Accepted seconds in increasing order, any two more than `gap` apart. */
  ghost predicate Spaced(order: seq<nat>, gap: int) {
    forall a, b :: 0 <= a < b < |order| ==> order[a] < order[b] && order[b] - order[a] > gap
  }

  /** A new second that no captured second covers keeps the accepted seconds spaced. */
  lemma SpacedAppend(order: seq<nat>, captured: seq<nat>, gap: int, i: nat)
    requires Spaced(order, gap)
    requires forall k :: 0 <= k < |order| ==> order[k] in captured
    requires forall k :: 0 <= k < |captured| ==> captured[k] < i
    requires !Covered(captured, i, gap)
    ensures Spaced(order + [i], gap)
  {
    var o := order + [i];
    forall a, b | 0 <= a < b < |o| ensures o[a] < o[b] && o[b] - o[a] > gap {
      if b == |order| {
        assert o[a] == order[a] && order[a] in captured;
      }
    }
  }

  /** An extraction job handed to the external transcoder: copy [start, end]
      of source into outputDir/ClipFileName(second). */
  datatype ClipJob = ClipJob(source: string, start: int, end: int, outputDir: string, second: nat)

  /** "{second}-({timedelta with ':' replaced by ' '}).mp4" */
  function ClipFileName(second: nat): string {
    Digits(second) + ("-(" + ReplaceChar(Timedelta(second), ':', ' ') + ").mp4")
  }

  function Destination(job: ClipJob): string {
    job.outputDir + "/" + ClipFileName(job.second)
  }

  /** The clip for an accepted second: [second - before, second + after]. */
  function ClipFor(source: string, outputDir: string, second: nat, before: int, after: int): (job: ClipJob)
    ensures before >= 0 && after >= 0 ==> job.start <= second <= job.end
    ensures job.end - job.start == before + after
  {
    ClipJob(source, second - before, second + after, outputDir, second)
  }

  /** The file name starts with the second it was made for, and can be read back. */
  lemma ClipFileNameLeadsWithSecond(second: nat)
    ensures LeadingDigits(ClipFileName(second)) == Digits(second)
    ensures ParseDigits(LeadingDigits(ClipFileName(second))) == second
  {
    var rest := "-(" + ReplaceChar(Timedelta(second), ':', ' ') + ").mp4";
    assert ClipFileName(second) == Digits(second) + rest;
    LeadingDigitsOf(Digits(second), rest);
    DigitsRoundTrip(second);
  }

  /** Two distinct accepted seconds never write to the same destination. */
  lemma ClipDestinationsDistinct(source: string, outputDir: string, a: nat, b: nat, before: int, after: int)
    requires a != b
    ensures Destination(ClipFor(source, outputDir, a, before, after))
            != Destination(ClipFor(source, outputDir, b, before, after))
  {
    var prefix := outputDir + "/";
    var da := Destination(ClipFor(source, outputDir, a, before, after));
    var db := Destination(ClipFor(source, outputDir, b, before, after));
    ClipFileNameLeadsWithSecond(a);
    ClipFileNameLeadsWithSecond(b);
    assert ClipFileName(a) != ClipFileName(b);
    assert da[|prefix|..] == ClipFileName(a);
    assert db[|prefix|..] == ClipFileName(b);
  }
}
