/** The current audio analyser: one second of samples at a time, split into
    `accuracy` sub-chunks, filtered to usable decibel readings, then the
    detector/suppressor decides whether the second is quiet, a redundant echo
    of something already captured, or a new highlight whose clip is scheduled.
    Also the reference pass that reports per-second averages and the peak. */
module Audio {
  import opened Text
  import opened Highlights
  import opened Samples

  datatype Config = Config(
    targetDecibel: real,
    compileOutput: string,
    accuracy: int,
    startPoint: int,
    endPoint: int,
    maximumDepth: Option<int>,
    videoPath: string)

  /** The settings as AudioAnalysis.__init__ and convert_from_video store them:
      a maximum depth that is absent or 0 means no limit, and backslashes in
      the paths become forward slashes. */
  function Settings(targetDecibel: real, compileOutput: string, accuracy: int, startPoint: int,
                    endPoint: int, maximumDepth: Option<int>, videoPath: string): (cfg: Config)
    ensures cfg.maximumDepth.None? <==> maximumDepth.None? || maximumDepth.value == 0
    ensures cfg.maximumDepth.Some? ==> cfg.maximumDepth == maximumDepth
    ensures forall k :: 0 <= k < |cfg.compileOutput| ==> cfg.compileOutput[k] != '\\'
    ensures forall k :: 0 <= k < |cfg.videoPath| ==> cfg.videoPath[k] != '\\'
    ensures |cfg.compileOutput| == |compileOutput| && |cfg.videoPath| == |videoPath|
  {
    var depth := if maximumDepth.Some? && maximumDepth.value != 0 then maximumDepth else None;
    Config(targetDecibel, ReplaceChar(compileOutput, '\\', '/'), accuracy, startPoint, endPoint,
           depth, ReplaceChar(videoPath, '\\', '/'))
  }

  /** One second of the decoded track, or a read that raised. */
  datatype Window = Window(samples: seq<int>) | Unreadable

  /** The usable readings of one second, or None when reading or splitting it raises. */
  function Readings(cfg: Config, w: Window, loudness: seq<int> -> real): Option<seq<real>> {
    match w
    case Unreadable => None
    case Window(samples) =>
      match Split(samples, cfg.accuracy)
      case None => None
      case Some(chunks) => Some(UsableReadings(Levels(chunks, loudness)))
  }

  function Stream(cfg: Config, windows: seq<Window>, loudness: seq<int> -> real): (secs: seq<Option<seq<real>>>)
    ensures |secs| == |windows|
  {
    seq(|windows|, j requires 0 <= j < |windows| => Readings(cfg, windows[j], loudness))
  }

  /** The index of the first reading at or above the target, |ds| when none is. */
  function FirstLoud(ds: seq<real>, target: real): (k: nat)
    ensures k <= |ds|
    ensures forall j :: 0 <= j < k ==> ds[j] < target
    ensures k < |ds| ==> ds[k] >= target
  {
    FirstWhere(ds, d => d >= target)
  }

  /** The detector's state: the result dictionary, the capture ledger, and the
      clip jobs started so far. */
  datatype Scan = Scan(result: Dict<Highlight>, captured: seq<nat>, clips: seq<ClipJob>)

  function Initial(): Scan {
    Scan(EmptyDict(), [], [])
  }

  datatype Verdict = Quiet | Halt | Suppress | Accept(ms: nat, db: real)

  /** What the scan does with second `second` whose usable readings are ds. */
  function Judge(cfg: Config, s: Scan, second: nat, ds: seq<real>): Verdict {
    var ms := FirstLoud(ds, cfg.targetDecibel);
    if ms == |ds| then Quiet
    else if cfg.maximumDepth.Some? && |s.result.entries| == cfg.maximumDepth.value then Halt
    else if Covered(s.captured, second, cfg.startPoint) then Suppress
    else Accept(ms, ds[ms])
  }

  function Clip(cfg: Config, second: nat): ClipJob {
    ClipFor(cfg.videoPath, cfg.compileOutput, second, cfg.startPoint, cfg.endPoint)
  }

  function Apply(cfg: Config, s: Scan, second: nat, v: Verdict): Scan {
    match v
    case Accept(ms, db) =>
      Scan(Insert(s.result, second, Highlight(second, ms, db)),
           s.captured + [second],
           if second in s.captured then s.clips else s.clips + [Clip(cfg, second)])
    case Suppress => s.(captured := s.captured + [second])
    case _ => s
  }

  datatype Stop = Exhausted | MaxReached(at: nat) | Aborted(at: nat)

  datatype Outcome = Outcome(scan: Scan, stop: Stop)

  /** The scan from second i on, in state s. */
  function RunFrom(cfg: Config, secs: seq<Option<seq<real>>>, i: nat, s: Scan): Outcome
    requires i <= |secs|
    decreases |secs| - i
  {
    if i == |secs| then Outcome(s, Exhausted)
    else match secs[i]
      case None => Outcome(s, Aborted(i))
      case Some(ds) =>
        var v := Judge(cfg, s, i, ds);
        if v.Halt? then Outcome(s, MaxReached(i))
        else RunFrom(cfg, secs, i + 1, Apply(cfg, s, i, v))
  }

  function Run(cfg: Config, secs: seq<Option<seq<real>>>): Outcome {
    RunFrom(cfg, secs, 0, Initial())
  }

  lemma LoudIffMax(ds: seq<real>, target: real)
    requires ds != []
    ensures MaxOf(ds) >= target <==> FirstLoud(ds, target) < |ds|
  {
    var m := MaxOf(ds);
    if m >= target {
      var j :| 0 <= j < |ds| && ds[j] == m;
    }
  }

  /** AudioAnalysis.analyze: the result dictionary, the clip jobs it starts,
      and why it stopped, exactly as the scan over the stream defines them. */
  method Analyze(cfg: Config, windows: seq<Window>, loudness: seq<int> -> real)
    returns (result: Dict<Highlight>, clips: seq<ClipJob>, stop: Stop)
    ensures var o := Run(cfg, Stream(cfg, windows, loudness));
            o.scan.result == result && o.scan.clips == clips && o.stop == stop
  {
    ghost var secs := Stream(cfg, windows, loudness);
    result, clips := EmptyDict(), [];
    var captured: seq<nat> := [];
    var i := 0;
    while i < |windows|
      invariant i <= |windows|
      invariant RunFrom(cfg, secs, i, Scan(result, captured, clips)) == Run(cfg, secs)
    {
      ghost var s := Scan(result, captured, clips);
      RunFromAt(cfg, secs, i, s);
      var read := ReadDecibels(cfg, windows[i], loudness);
      if read.None? {
        stop := Aborted(i);
        return;
      }
      var decibels := read.value;
      if !(MaxOrDefault(decibels, 0.0) >= cfg.targetDecibel) {
        if decibels != [] {
          LoudIffMax(decibels, cfg.targetDecibel);
        }
        i := i + 1;
        continue;
      }
      var halted;
      result, captured, clips, halted := ScanLoudSecond(cfg, i, decibels, result, captured, clips);
      if halted {
        stop := MaxReached(i);
        return;
      }
      i := i + 1;
    }
    stop := Exhausted;
  }

  /** One step of the scan specification at second i. */
  lemma RunFromAt(cfg: Config, secs: seq<Option<seq<real>>>, i: nat, s: Scan)
    requires i < |secs|
    ensures secs[i].None? ==> RunFrom(cfg, secs, i, s) == Outcome(s, Aborted(i))
    ensures secs[i].Some? ==>
              var v := Judge(cfg, s, i, secs[i].value);
              && (v.Halt? ==> RunFrom(cfg, secs, i, s) == Outcome(s, MaxReached(i)))
              && (!v.Halt? ==> RunFrom(cfg, secs, i, s) == RunFrom(cfg, secs, i + 1, Apply(cfg, s, i, v)))
  {
  }

  /** The body of analyze's try block for one second: read it, split it into
      `accuracy` chunks and keep the usable decibel readings; None when the
      read or the split raises. */
  method ReadDecibels(cfg: Config, w: Window, loudness: seq<int> -> real) returns (r: Option<seq<real>>)
    ensures r == Readings(cfg, w, loudness)
  {
    if w.Unreadable? {
      return None;
    }
    var chunks := Split(w.samples, cfg.accuracy);
    if chunks.None? {
      return None;
    }
    var decibels := DecibelsFromChunks(chunks.value, loudness);
    r := Some(decibels);
  }

  /** The inner loop of analyze over the readings of a second that has one at
      or above the target: it stops the scan when the result already holds
      the maximum number of highlights, and otherwise suppresses or accepts
      the second at its first loud reading, as Judge and Apply say. */
  method ScanLoudSecond(cfg: Config, i: nat, decibels: seq<real>,
                    result0: Dict<Highlight>, captured0: seq<nat>, clips0: seq<ClipJob>)
    returns (result: Dict<Highlight>, captured: seq<nat>, clips: seq<ClipJob>, halted: bool)
    requires MaxOrDefault(decibels, 0.0) >= cfg.targetDecibel
    ensures var v := Judge(cfg, Scan(result0, captured0, clips0), i, decibels);
            && (halted <==> v.Halt?)
            && (halted ==> result == result0 && captured == captured0 && clips == clips0)
            && (!halted ==> Scan(result, captured, clips) == Apply(cfg, Scan(result0, captured0, clips0), i, v))
  {
    if decibels != [] {
      LoudIffMax(decibels, cfg.targetDecibel);
    }
    result, captured, clips := result0, captured0, clips0;
    var ms := 0;
    while ms < |decibels|
      invariant 0 <= ms <= FirstLoud(decibels, cfg.targetDecibel)
      invariant result == result0 && captured == captured0 && clips == clips0
    {
      if cfg.maximumDepth.Some? && |result.entries| == cfg.maximumDepth.value {
        return result, captured, clips, true;
      }
      var db := decibels[ms];
      if db >= cfg.targetDecibel {
        if Covered(captured, i, cfg.startPoint) {
          // a captured second lies within start_point before this one
          captured := captured + [i];
          return result, captured, clips, false;
        } else {
          if i !in captured {
            clips := clips + [Clip(cfg, i)];
          }
          captured := captured + [i];
          result := Insert(result, i, Highlight(i, ms, db));
          return result, captured, clips, false;
        }
      }
      ms := ms + 1;
    }
    halted := false;
  }

  /** One clip job per accepted second, in acceptance order. */
  ghost predicate ClipsMatch(cfg: Config, clips: seq<ClipJob>, order: seq<nat>) {
    |clips| == |order| && forall j :: 0 <= j < |clips| ==> clips[j] == Clip(cfg, order[j])
  }

  /** What holds of the detector's state before second `next` is examined. */
  ghost predicate Good(cfg: Config, s: Scan, next: nat) {
    && WellFormed(s.result)
    && Ledger(s.captured, next)
    && (forall k :: k in s.result.entries ==> k in s.captured)
    && Spaced(s.result.order, cfg.startPoint)
    && ClipsMatch(cfg, s.clips, s.result.order)
    && (cfg.maximumDepth.Some? && cfg.maximumDepth.value >= 0 ==> |s.result.entries| <= cfg.maximumDepth.value)
  }

  /** One second of the scan, in the analyser's own terms. */
  lemma SecondDecision(cfg: Config, s: Scan, i: nat, ds: seq<real>)
    requires Good(cfg, s, i)
    ensures var v := Judge(cfg, s, i, ds);
            var t := cfg.targetDecibel;
            var next := Apply(cfg, s, i, v);
            // a second with no reading at or above the target changes nothing
            && (v.Quiet? <==> forall j :: 0 <= j < |ds| ==> ds[j] < t)
            && (v.Quiet? ==> next == s)
            // the depth limit is consulted only for a loud second
            && (v.Halt? <==> !v.Quiet? && cfg.maximumDepth.Some? && |s.result.entries| == cfg.maximumDepth.value)
            // a loud second is always added to the ledger
            && (v.Suppress? || v.Accept? ==> next.captured == s.captured + [i])
            // suppressed iff a captured second lies in [i - start_point, i)
            && (v.Suppress? <==> !v.Quiet? && !v.Halt? &&
                                 exists p: int :: i - cfg.startPoint <= p < i && p in s.captured)
            && (v.Suppress? ==> next.result == s.result && next.clips == s.clips)
            // accepted: the first loud reading is recorded under a new, larger key, and its clip is started
            && (v.Accept? ==> v.ms < |ds| && ds[v.ms] == v.db && v.db >= t &&
                              (forall j :: 0 <= j < v.ms ==> ds[j] < t))
            && (v.Accept? ==> (forall k :: k in s.result.entries ==> k < i) &&
                              next.result.order == s.result.order + [i] &&
                              next.result.entries == s.result.entries[i := Highlight(i, v.ms, v.db)] &&
                              next.clips == s.clips + [Clip(cfg, i)])
  {
    var v := Judge(cfg, s, i, ds);
    if v.Accept? {
      assert i !in s.captured;
      forall k | k in s.result.entries ensures k < i {
        assert k in s.captured;
      }
      assert i !in s.result.entries;
    }
  }

  lemma StepKeepsGood(cfg: Config, s: Scan, i: nat, ds: seq<real>)
    requires Good(cfg, s, i)
    requires !Judge(cfg, s, i, ds).Halt?
    ensures Good(cfg, Apply(cfg, s, i, Judge(cfg, s, i, ds)), i + 1)
  {
    var v := Judge(cfg, s, i, ds);
    if v.Accept? {
      AcceptKeepsGood(cfg, s, i, v.ms, v.db);
    } else if v.Suppress? {
      SuppressKeepsGood(cfg, s, i);
    } else {
      QuietKeepsGood(cfg, s, i);
    }
  }

  /** A suppressed second joins the ledger and nothing else changes. */
  lemma SuppressKeepsGood(cfg: Config, s: Scan, i: nat)
    requires Good(cfg, s, i)
    ensures Good(cfg, s.(captured := s.captured + [i]), i + 1)
  {
    LedgerAppend(s.captured, i);
  }

  /** A quiet second changes nothing. */
  lemma QuietKeepsGood(cfg: Config, s: Scan, i: nat)
    requires Good(cfg, s, i)
    ensures Good(cfg, s, i + 1)
  {
    assert Ledger(s.captured, i + 1);
  }

  lemma AcceptKeepsGood(cfg: Config, s: Scan, i: nat, ms: nat, db: real)
    requires Good(cfg, s, i)
    requires !Covered(s.captured, i, cfg.startPoint)
    requires cfg.maximumDepth.Some? ==> |s.result.entries| != cfg.maximumDepth.value
    ensures Good(cfg, Apply(cfg, s, i, Accept(ms, db)), i + 1)
  {
    var next := Apply(cfg, s, i, Accept(ms, db));
    assert i !in s.captured;
    assert i !in s.result.entries;
    var order := s.result.order;
    assert next.result.order == order + [i];
    assert next.clips == s.clips + [Clip(cfg, i)];
    assert forall k :: 0 <= k < |order| ==> order[k] in s.captured by {
      forall k | 0 <= k < |order| ensures order[k] in s.captured {
        assert order[k] in s.result.entries;
      }
    }
    SpacedAppend(order, s.captured, cfg.startPoint, i);
    LedgerAppend(s.captured, i);
    ClipsMatchAppend(cfg, s.clips, order, i);
    InsertNewKeyCount(s.result, i, Highlight(i, ms, db));
  }

  lemma ClipsMatchAppend(cfg: Config, clips: seq<ClipJob>, order: seq<nat>, i: nat)
    requires ClipsMatch(cfg, clips, order)
    ensures ClipsMatch(cfg, clips + [Clip(cfg, i)], order + [i])
  {
  }

  /** Every invariant of the detector holds at the end of the scan from any good state. */
  lemma {:induction false} RunKeepsGood(cfg: Config, secs: seq<Option<seq<real>>>, i: nat, s: Scan)
    requires i <= |secs|
    requires Good(cfg, s, i)
    ensures Good(cfg, RunFrom(cfg, secs, i, s).scan, |secs|)
    decreases |secs| - i
  {
    if i < |secs| && secs[i].Some? {
      var v := Judge(cfg, s, i, secs[i].value);
      if !v.Halt? {
        StepKeepsGood(cfg, s, i, secs[i].value);
        RunKeepsGood(cfg, secs, i + 1, Apply(cfg, s, i, v));
      }
    }
    if i < |secs| {
      forall k | 0 <= k < |s.captured| ensures s.captured[k] < |secs| {
      }
    }
  }

  /** The analysis result: keys in strictly increasing order of insertion,
      accepted seconds more than start_point apart, one clip per record, and
      never more records than a non-negative maximum depth. */
  lemma AnalyzeGuarantees(cfg: Config, secs: seq<Option<seq<real>>>)
    ensures var o := Run(cfg, secs);
            && WellFormed(o.scan.result)
            && (forall a, b :: 0 <= a < b < |o.scan.result.order| ==>
                  o.scan.result.order[a] < o.scan.result.order[b] &&
                  o.scan.result.order[b] - o.scan.result.order[a] > cfg.startPoint)
            && (forall k :: k in o.scan.result.entries ==> k < |secs|)
            && |o.scan.clips| == |o.scan.result.order|
            && (forall j :: 0 <= j < |o.scan.clips| ==> o.scan.clips[j] == Clip(cfg, o.scan.result.order[j]))
            && (cfg.maximumDepth.Some? && cfg.maximumDepth.value >= 0 ==>
                  |o.scan.result.entries| <= cfg.maximumDepth.value)
  {
    RunKeepsGood(cfg, secs, 0, Initial());
    var o := Run(cfg, secs);
    forall k | k in o.scan.result.entries ensures k < |secs| {
      assert k in o.scan.captured;
    }
  }

  /** The ledger and the result only grow: the scan extends the state it starts from. */
  lemma {:induction false} RunExtends(cfg: Config, secs: seq<Option<seq<real>>>, i: nat, s: Scan)
    requires i <= |secs|
    ensures var o := RunFrom(cfg, secs, i, s).scan;
            && s.captured <= o.captured
            && s.result.order <= o.result.order
            && s.clips <= o.clips
            && (forall k :: k in s.result.entries ==> k in o.result.entries)
    decreases |secs| - i
  {
    if i < |secs| && secs[i].Some? {
      var v := Judge(cfg, s, i, secs[i].value);
      if !v.Halt? {
        RunExtends(cfg, secs, i + 1, Apply(cfg, s, i, v));
      }
    }
  }

  /** Why the scan ended: a failed read at the second it names, the depth
      limit reached at a loud second, or the end of the stream with every
      second read. */
  lemma StopReasons(cfg: Config, secs: seq<Option<seq<real>>>, i: nat, s: Scan)
    requires i <= |secs|
    ensures var o := RunFrom(cfg, secs, i, s);
            && (o.stop.Aborted? ==> i <= o.stop.at < |secs| && secs[o.stop.at].None? &&
                                    forall k :: i <= k < o.stop.at ==> secs[k].Some?)
            && (o.stop.MaxReached? ==> i <= o.stop.at < |secs| && secs[o.stop.at].Some? &&
                                       FirstLoud(secs[o.stop.at].value, cfg.targetDecibel) < |secs[o.stop.at].value| &&
                                       cfg.maximumDepth.Some? &&
                                       |o.scan.result.entries| == cfg.maximumDepth.value)
            && (o.stop.Exhausted? ==> forall k :: i <= k < |secs| ==> secs[k].Some?)
  {
    AbortReason(cfg, secs, i, s);
    HaltReason(cfg, secs, i, s);
    ExhaustReason(cfg, secs, i, s);
  }

  lemma {:induction false} AbortReason(cfg: Config, secs: seq<Option<seq<real>>>, i: nat, s: Scan)
    requires i <= |secs|
    ensures var o := RunFrom(cfg, secs, i, s);
            o.stop.Aborted? ==> i <= o.stop.at < |secs| && secs[o.stop.at].None? &&
                                forall k :: i <= k < o.stop.at ==> secs[k].Some?
    decreases |secs| - i
  {
    if i < |secs| {
      RunFromAt(cfg, secs, i, s);
      if secs[i].Some? {
        var v := Judge(cfg, s, i, secs[i].value);
        if !v.Halt? {
          AbortReason(cfg, secs, i + 1, Apply(cfg, s, i, v));
        }
      }
    }
  }

  lemma {:induction false} HaltReason(cfg: Config, secs: seq<Option<seq<real>>>, i: nat, s: Scan)
    requires i <= |secs|
    ensures var o := RunFrom(cfg, secs, i, s);
            o.stop.MaxReached? ==> i <= o.stop.at < |secs| && secs[o.stop.at].Some? &&
                                   FirstLoud(secs[o.stop.at].value, cfg.targetDecibel) < |secs[o.stop.at].value| &&
                                   cfg.maximumDepth.Some? &&
                                   |o.scan.result.entries| == cfg.maximumDepth.value
    decreases |secs| - i
  {
    if i < |secs| {
      RunFromAt(cfg, secs, i, s);
      if secs[i].Some? {
        var v := Judge(cfg, s, i, secs[i].value);
        if !v.Halt? {
          HaltReason(cfg, secs, i + 1, Apply(cfg, s, i, v));
        }
      }
    }
  }

  lemma {:induction false} ExhaustReason(cfg: Config, secs: seq<Option<seq<real>>>, i: nat, s: Scan)
    requires i <= |secs|
    ensures RunFrom(cfg, secs, i, s).stop.Exhausted? ==> forall k :: i <= k < |secs| ==> secs[k].Some?
    decreases |secs| - i
  {
    if i < |secs| {
      RunFromAt(cfg, secs, i, s);
      if secs[i].Some? {
        var v := Judge(cfg, s, i, secs[i].value);
        if !v.Halt? {
          ExhaustReason(cfg, secs, i + 1, Apply(cfg, s, i, v));
        }
      }
    }
  }

  /** A second that cannot be read (or split) ends the scan with what the
      seconds before it had built: the same state as the scan of the stream
      cut at that second, and the failure is the reason to stop exactly when
      that scan would have run out of seconds. */
  lemma {:induction false} AbortKeepsPrefix(cfg: Config, secs: seq<Option<seq<real>>>, k: nat, i: nat, s: Scan)
    requires i <= k < |secs| && secs[k].None?
    ensures var whole := RunFrom(cfg, secs, i, s);
            var prefix := RunFrom(cfg, secs[..k], i, s);
            && whole.scan == prefix.scan
            && whole.stop == (if prefix.stop.Exhausted? then Aborted(k) else prefix.stop)
    decreases k - i
  {
    if i < k {
      assert secs[..k][i] == secs[i];
      if secs[i].Some? {
        var v := Judge(cfg, s, i, secs[i].value);
        if !v.Halt? {
          AbortKeepsPrefix(cfg, secs, k, i + 1, Apply(cfg, s, i, v));
        }
      }
    }
  }

  /** A second is quiet when it was read and none of its readings reaches the target. */
  ghost predicate QuietSecond(cfg: Config, r: Option<seq<real>>) {
    r.Some? && forall j :: 0 <= j < |r.value| ==> r.value[j] < cfg.targetDecibel
  }

  ghost predicate LoudSecond(cfg: Config, r: Option<seq<real>>) {
    r.Some? && exists j :: 0 <= j < |r.value| && r.value[j] >= cfg.targetDecibel
  }

  lemma {:induction false} QuietStretch(cfg: Config, secs: seq<Option<seq<real>>>, i: nat, j: nat, s: Scan)
    requires i <= j <= |secs|
    requires forall k :: i <= k < j ==> QuietSecond(cfg, secs[k])
    ensures RunFrom(cfg, secs, i, s) == RunFrom(cfg, secs, j, s)
    decreases j - i
  {
    if i < j {
      RunFromAt(cfg, secs, i, s);
      QuietJudged(cfg, s, i, secs[i]);
      QuietStretch(cfg, secs, i + 1, j, s);
    }
  }

  lemma QuietJudged(cfg: Config, s: Scan, i: nat, r: Option<seq<real>>)
    requires QuietSecond(cfg, r)
    ensures Judge(cfg, s, i, r.value) == Quiet && Apply(cfg, s, i, Quiet) == s
  {
  }

  /** Two loud seconds a < b in an otherwise quiet stream: b is kept as a
      second highlight exactly when it lies more than start_point after a. */
  lemma TwoLoudSeconds(cfg: Config, secs: seq<Option<seq<real>>>, a: nat, b: nat)
    requires a < b < |secs|
    requires LoudSecond(cfg, secs[a]) && LoudSecond(cfg, secs[b])
    requires forall k :: 0 <= k < |secs| && k != a && k != b ==> QuietSecond(cfg, secs[k])
    requires cfg.maximumDepth.None? || cfg.maximumDepth.value < 0 || cfg.maximumDepth.value > 1
    ensures var o := Run(cfg, secs);
            && o.stop == Exhausted
            && o.scan.result.order == (if b - a > cfg.startPoint then [a, b] else [a])
            && o.scan.clips == [Clip(cfg, a)] + (if b - a > cfg.startPoint then [Clip(cfg, b)] else [])
  {
    ScanToFirstLoud(cfg, secs, a);
    var da := secs[a].value;
    var ma := FirstLoud(da, cfg.targetDecibel);
    var sa := Apply(cfg, Initial(), a, Accept(ma, da[ma]));
    FirstAccepted(cfg, a, ma, da[ma]);
    QuietStretch(cfg, secs, a + 1, b, sa);
    LastLoud(cfg, secs, b, sa);
    var db := secs[b].value;
    var mb := FirstLoud(db, cfg.targetDecibel);
    var spaced := b - a > cfg.startPoint;
    assert Covered(sa.captured, b, cfg.startPoint) <==> !spaced by {
      if !spaced {
        assert b - cfg.startPoint <= a < b && a in sa.captured;
      }
    }
    if spaced {
      var sb := Apply(cfg, sa, b, Accept(mb, db[mb]));
      assert sb.result.order == [a, b] && sb.clips == [Clip(cfg, a), Clip(cfg, b)];
    }
  }

  /** Quiet seconds up to the first loud one, which the empty state accepts. */
  lemma ScanToFirstLoud(cfg: Config, secs: seq<Option<seq<real>>>, a: nat)
    requires a < |secs| && LoudSecond(cfg, secs[a])
    requires forall k :: 0 <= k < a ==> QuietSecond(cfg, secs[k])
    requires cfg.maximumDepth.None? || cfg.maximumDepth.value != 0
    ensures var da := secs[a].value;
            var ma := FirstLoud(da, cfg.targetDecibel);
            && ma < |da|
            && Run(cfg, secs) == RunFrom(cfg, secs, a + 1, Apply(cfg, Initial(), a, Accept(ma, da[ma])))
  {
    QuietStretch(cfg, secs, 0, a, Initial());
    assert !Covered([], a, cfg.startPoint);
    LoudStep(cfg, secs, a, Initial());
  }

  /** A last loud second followed by quiet ones ends the scan with that second judged. */
  lemma LastLoud(cfg: Config, secs: seq<Option<seq<real>>>, b: nat, s: Scan)
    requires b < |secs| && LoudSecond(cfg, secs[b])
    requires forall k :: b < k < |secs| ==> QuietSecond(cfg, secs[k])
    requires cfg.maximumDepth.None? || |s.result.entries| != cfg.maximumDepth.value
    ensures var db := secs[b].value;
            var mb := FirstLoud(db, cfg.targetDecibel);
            && mb < |db|
            && RunFrom(cfg, secs, b, s)
               == Outcome(if Covered(s.captured, b, cfg.startPoint) then s.(captured := s.captured + [b])
                          else Apply(cfg, s, b, Accept(mb, db[mb])), Exhausted)
  {
    LoudStep(cfg, secs, b, s);
    var db := secs[b].value;
    var mb := FirstLoud(db, cfg.targetDecibel);
    var next := if Covered(s.captured, b, cfg.startPoint) then s.(captured := s.captured + [b])
                else Apply(cfg, s, b, Accept(mb, db[mb]));
    QuietStretch(cfg, secs, b + 1, |secs|, next);
    RunFromEnd(cfg, secs, next);
  }

  /** A loud second below the depth limit moves the scan on, suppressed or
      accepted at its first loud reading. */
  lemma LoudStep(cfg: Config, secs: seq<Option<seq<real>>>, i: nat, s: Scan)
    requires i < |secs| && LoudSecond(cfg, secs[i])
    requires cfg.maximumDepth.None? || |s.result.entries| != cfg.maximumDepth.value
    ensures var ds := secs[i].value;
            var m := FirstLoud(ds, cfg.targetDecibel);
            && m < |ds|
            && RunFrom(cfg, secs, i, s)
               == RunFrom(cfg, secs, i + 1,
                          if Covered(s.captured, i, cfg.startPoint) then s.(captured := s.captured + [i])
                          else Apply(cfg, s, i, Accept(m, ds[m])))
  {
    RunFromAt(cfg, secs, i, s);
  }

  /** The first accepted second of a scan: one record, one ledger entry, one clip. */
  lemma FirstAccepted(cfg: Config, a: nat, ms: nat, db: real)
    ensures var sa := Apply(cfg, Initial(), a, Accept(ms, db));
            && sa.result.order == [a] && sa.captured == [a] && sa.clips == [Clip(cfg, a)]
            && sa.result.entries == map[a := Highlight(a, ms, db)]
            && |sa.result.entries| == 1
  {
    var sa := Apply(cfg, Initial(), a, Accept(ms, db));
    assert sa.result.entries.Keys == {a};
  }

  /** Past the last second the scan has run out of input. */
  lemma RunFromEnd(cfg: Config, secs: seq<Option<seq<real>>>, s: Scan)
    ensures RunFrom(cfg, secs, |secs|, s) == Outcome(s, Exhausted)
  {
  }

  /** Ten seconds, silent except seconds 3 and 7 at 90 dB, target 85 dB, two
      seconds before and after: two records, clips [1, 5] and [5, 9]. */
  lemma TenSecondExample(cfg: Config)
    requires cfg.targetDecibel == 85.0 && cfg.startPoint == 2 && cfg.endPoint == 2
    requires cfg.maximumDepth.None?
    ensures var loud := Some([90.0]);
            var silent := Some([]);
            var o := Run(cfg, [silent, silent, silent, loud, silent, silent, silent, loud, silent, silent]);
            && o.scan.result.order == [3, 7]
            && |o.scan.clips| == 2
            && o.scan.clips[0].start == 1 && o.scan.clips[0].end == 5
            && o.scan.clips[1].start == 5 && o.scan.clips[1].end == 9
  {
    var loud: Option<seq<real>> := Some([90.0]);
    var silent: Option<seq<real>> := Some([]);
    var secs := [silent, silent, silent, loud, silent, silent, silent, loud, silent, silent];
    assert secs[3].value[0] >= cfg.targetDecibel && secs[7].value[0] >= cfg.targetDecibel;
    TwoLoudSeconds(cfg, secs, 3, 7);
  }

  /** The reference pass: one average per second and the greatest reading. */
  datatype Reference = Reference(averages: seq<Level>, greatest: real)

  /** One second read and split into `accuracy` chunks, as the level of every
      chunk; None when reading or splitting raises. */
  function ReadSecond(w: Window, accuracy: int, loudness: seq<int> -> real): (r: Option<seq<Level>>)
    ensures r.None? <==> w.Unreadable? || accuracy <= 0
    ensures r.Some? ==> |r.value| == accuracy
  {
    match w
    case Unreadable => None
    case Window(samples) =>
      match Split(samples, accuracy)
      case None => None
      case Some(chunks) => Some(Levels(chunks, loudness))
  }

  /** All sub-chunk levels of one second, unfiltered ([] when it cannot be read or split). */
  function SecondLevels(w: Window, accuracy: int, loudness: seq<int> -> real): seq<Level> {
    match ReadSecond(w, accuracy, loudness)
    case None => []
    case Some(levels) => levels
  }

  /** The running peak after levels, starting from g: a level replaces the
      peak only when the IEEE comparison level > peak holds. */
  function PeakFrom(g: real, levels: seq<Level>): real {
    if levels == [] then g
    else
      var before := PeakFrom(g, levels[..|levels| - 1]);
      var l := levels[|levels| - 1];
      if Above(l, before) then l.db else before
  }

  /** The running peak over the first n rows of levels taken in order, starting from 0. */
  function PeakOver(rows: seq<seq<Level>>, n: nat): real
    requires n <= |rows|
  {
    if n == 0 then 0.0 else PeakFrom(PeakOver(rows, n - 1), rows[n - 1])
  }

  /** The sub-chunk levels of each second. */
  function LevelRows(windows: seq<Window>, accuracy: int, loudness: seq<int> -> real): (rows: seq<seq<Level>>)
    ensures |rows| == |windows|
    ensures forall j :: 0 <= j < |windows| ==> rows[j] == SecondLevels(windows[j], accuracy, loudness)
  {
    seq(|windows|, j requires 0 <= j < |windows| => SecondLevels(windows[j], accuracy, loudness))
  }

  /** get_ref from second i on, with the averages collected so far and the running peak. */
  function RefFrom(windows: seq<Window>, accuracy: int, loudness: seq<int> -> real, meanOf: seq<Level> -> Level,
                   i: nat, averages: seq<Level>, greatest: real): Option<Reference>
    requires i <= |windows|
    decreases |windows| - i
  {
    if i == |windows| then Some(Reference(averages, greatest))
    else match ReadSecond(windows[i], accuracy, loudness)
      case None => None
      case Some(levels) =>
        RefFrom(windows, accuracy, loudness, meanOf, i + 1, averages + [meanOf(levels)], PeakFrom(greatest, levels))
  }

  function Ref(windows: seq<Window>, accuracy: int, loudness: seq<int> -> real, meanOf: seq<Level> -> Level): Option<Reference> {
    RefFrom(windows, accuracy, loudness, meanOf, 0, [], 0.0)
  }

  /** One step of the reference pass. */
  lemma RefFromAt(windows: seq<Window>, accuracy: int, loudness: seq<int> -> real, meanOf: seq<Level> -> Level,
                  i: nat, averages: seq<Level>, greatest: real)
    requires i < |windows|
    ensures var read := ReadSecond(windows[i], accuracy, loudness);
            && (read.None? ==> RefFrom(windows, accuracy, loudness, meanOf, i, averages, greatest).None?)
            && (read.Some? ==> RefFrom(windows, accuracy, loudness, meanOf, i, averages, greatest)
                               == RefFrom(windows, accuracy, loudness, meanOf, i + 1,
                                          averages + [meanOf(read.value)], PeakFrom(greatest, read.value)))
  {
  }

  /** The running peak never drops, no level lies above it, and it only ever
      takes the value of one of the levels. */
  lemma {:induction false} PeakFromBounds(g: real, levels: seq<Level>)
    ensures PeakFrom(g, levels) >= g
    ensures forall c :: 0 <= c < |levels| ==> !Above(levels[c], PeakFrom(g, levels))
    ensures PeakFrom(g, levels) == g || Finite(PeakFrom(g, levels)) in levels
  {
    if levels != [] {
      var init := levels[..|levels| - 1];
      PeakFromBounds(g, init);
      assert forall c :: 0 <= c < |init| ==> levels[c] == init[c];
    }
  }

  /** The reference peak is the largest finite level, or 0 when none is
      above 0: it is at least 0, no level lies above it, and a non-zero peak
      is one of the levels. */
  lemma {:induction false} PeakIsGreatest(rows: seq<seq<Level>>, n: nat)
    requires n <= |rows|
    ensures PeakOver(rows, n) >= 0.0
    ensures forall j, c :: 0 <= j < n && 0 <= c < |rows[j]| ==> !Above(rows[j][c], PeakOver(rows, n))
    ensures PeakOver(rows, n) != 0.0 ==> exists j :: 0 <= j < n && Finite(PeakOver(rows, n)) in rows[j]
  {
    if n > 0 {
      PeakIsGreatest(rows, n - 1);
      PeakFromBounds(PeakOver(rows, n - 1), rows[n - 1]);
    }
  }

  /** The scan from second i fails exactly when a later second cannot be read or split. */
  lemma {:induction false} RefFromFails(windows: seq<Window>, accuracy: int, loudness: seq<int> -> real,
                                         meanOf: seq<Level> -> Level, i: nat, averages: seq<Level>, greatest: real)
    requires i <= |windows|
    ensures RefFrom(windows, accuracy, loudness, meanOf, i, averages, greatest).None?
            <==> exists j :: i <= j < |windows| && ReadSecond(windows[j], accuracy, loudness).None?
    decreases |windows| - i
  {
    if i < |windows| {
      RefFromAt(windows, accuracy, loudness, meanOf, i, averages, greatest);
      var read := ReadSecond(windows[i], accuracy, loudness);
      if read.Some? {
        RefFromFails(windows, accuracy, loudness, meanOf, i + 1, averages + [meanOf(read.value)], PeakFrom(greatest, read.value));
      }
    }
  }

  /** Otherwise the scan adds one average per remaining second, after those
      collected so far. */
  lemma {:induction false} RefFromAverages(windows: seq<Window>, accuracy: int, loudness: seq<int> -> real,
                                            meanOf: seq<Level> -> Level, i: nat, averages: seq<Level>, greatest: real)
    requires i <= |windows|
    requires |averages| == i
    requires forall j :: 0 <= j < i ==> averages[j] == meanOf(SecondLevels(windows[j], accuracy, loudness))
    ensures var r := RefFrom(windows, accuracy, loudness, meanOf, i, averages, greatest);
            r.Some? ==> (|r.value.averages| == |windows| &&
              forall j :: 0 <= j < |windows| ==> r.value.averages[j] == meanOf(SecondLevels(windows[j], accuracy, loudness)))
    decreases |windows| - i
  {
    if i < |windows| {
      RefFromAt(windows, accuracy, loudness, meanOf, i, averages, greatest);
      var read := ReadSecond(windows[i], accuracy, loudness);
      if read.Some? {
        var more := averages + [meanOf(read.value)];
        forall j | 0 <= j < i + 1 ensures more[j] == meanOf(SecondLevels(windows[j], accuracy, loudness)) {
          if j == i {
            assert SecondLevels(windows[i], accuracy, loudness) == read.value;
          }
        }
        RefFromAverages(windows, accuracy, loudness, meanOf, i + 1, more, PeakFrom(greatest, read.value));
      }
    }
  }

  /** ... and carries the running peak on over the levels of the remaining seconds. */
  lemma {:induction false} RefFromPeak(windows: seq<Window>, accuracy: int, loudness: seq<int> -> real,
                                        meanOf: seq<Level> -> Level, i: nat, averages: seq<Level>, greatest: real)
    requires i <= |windows|
    requires greatest == PeakOver(LevelRows(windows, accuracy, loudness), i)
    ensures var r := RefFrom(windows, accuracy, loudness, meanOf, i, averages, greatest);
            r.Some? ==> r.value.greatest == PeakOver(LevelRows(windows, accuracy, loudness), |windows|)
    decreases |windows| - i
  {
    if i < |windows| {
      RefFromAt(windows, accuracy, loudness, meanOf, i, averages, greatest);
      var read := ReadSecond(windows[i], accuracy, loudness);
      if read.Some? {
        var rows := LevelRows(windows, accuracy, loudness);
        assert rows[i] == read.value;
        assert PeakOver(rows, i + 1) == PeakFrom(greatest, read.value);
        RefFromPeak(windows, accuracy, loudness, meanOf, i + 1, averages + [meanOf(read.value)], PeakFrom(greatest, read.value));
      }
    }
  }

  /** What get_ref reports: it fails exactly when some second cannot be read
      or accuracy is below one (and there is a second to read); otherwise one
      average per second, over that second's `accuracy` sub-chunk levels, and
      the largest finite level, or 0 when none is above 0. */
  lemma ReferenceFacts(windows: seq<Window>, accuracy: int, loudness: seq<int> -> real, meanOf: seq<Level> -> Level)
    ensures var r := Ref(windows, accuracy, loudness, meanOf);
            var rows := LevelRows(windows, accuracy, loudness);
            && (r.None? <==> (exists j :: 0 <= j < |windows| && windows[j].Unreadable?) || (windows != [] && accuracy <= 0))
            && (r.Some? ==> |r.value.averages| == |windows|)
            && (r.Some? ==> forall j :: 0 <= j < |windows| ==>
                  |rows[j]| == accuracy && r.value.averages[j] == meanOf(rows[j]))
            && (r.Some? ==> r.value.greatest >= 0.0)
            && (r.Some? ==> forall j, c :: 0 <= j < |windows| && 0 <= c < |rows[j]| ==> !Above(rows[j][c], r.value.greatest))
            && (r.Some? && r.value.greatest != 0.0 ==>
                  exists j :: 0 <= j < |windows| && Finite(r.value.greatest) in rows[j])
  {
    var rows := LevelRows(windows, accuracy, loudness);
    RefFromFails(windows, accuracy, loudness, meanOf, 0, [], 0.0);
    RefFromAverages(windows, accuracy, loudness, meanOf, 0, [], 0.0);
    RefFromPeak(windows, accuracy, loudness, meanOf, 0, [], 0.0);
    PeakIsGreatest(rows, |rows|);
    var r := Ref(windows, accuracy, loudness, meanOf);
    if windows != [] && accuracy <= 0 {
      assert ReadSecond(windows[0], accuracy, loudness).None?;
    }
    if r.Some? {
      forall j | 0 <= j < |windows| ensures |rows[j]| == accuracy {
        assert ReadSecond(windows[j], accuracy, loudness).Some?;
      }
    }
  }

  /** AudioAnalysis.get_ref, as the scan over the windows defines it. */
  method GetRef(windows: seq<Window>, accuracy: int, loudness: seq<int> -> real, meanOf: seq<Level> -> Level)
    returns (r: Option<Reference>)
    ensures r == Ref(windows, accuracy, loudness, meanOf)
  {
    var averages: seq<Level> := [];
    var greatest := 0.0;
    var i := 0;
    while i < |windows|
      invariant 0 <= i <= |windows|
      invariant RefFrom(windows, accuracy, loudness, meanOf, i, averages, greatest) == Ref(windows, accuracy, loudness, meanOf)
    {
      var levels := ReadLevels(windows[i], accuracy, loudness);
      if levels.None? {
        return None;
      }
      var decibels := levels.value;
      var average := meanOf(decibels);
      greatest := RaisePeak(greatest, decibels);
      averages := averages + [average];
      i := i + 1;
    }
    r := Some(Reference(averages, greatest));
  }

  /** Reads one second and splits it into `accuracy` chunks, then takes the
      level of every chunk. */
  method ReadLevels(w: Window, accuracy: int, loudness: seq<int> -> real) returns (levels: Option<seq<Level>>)
    ensures levels == ReadSecond(w, accuracy, loudness)
  {
    if w.Unreadable? {
      return None;
    }
    var chunks := Split(w.samples, accuracy);
    if chunks.None? {
      return None;
    }
    levels := Some(Levels(chunks.value, loudness));
  }

  /** The inner loop of get_ref: every level strictly above the running peak replaces it. */
  method RaisePeak(greatest: real, decibels: seq<Level>) returns (g: real)
    ensures g == PeakFrom(greatest, decibels)
  {
    g := greatest;
    var c := 0;
    while c < |decibels|
      invariant 0 <= c <= |decibels|
      invariant g == PeakFrom(greatest, decibels[..c])
    {
      assert decibels[..c + 1][..c] == decibels[..c];
      if Above(decibels[c], g) {
        g := decibels[c].db;
      }
      c := c + 1;
    }
    assert decibels[..c] == decibels;
  }
}
