/** The video analyser: frames are read one after another, and every
    `fps`-th frame starts a new second whose brightness is compared against
    the target. The suppression rule is the audio one; the maximum-depth check
    runs on every sampled second, before the brightness test, and each
    accepted second's clip is extracted before the scan goes on. */
module Video {
  import opened Text
  import opened Highlights

  datatype Config = Config(
    filename: string,
    targetBrightness: int,
    compileOutput: string,
    startPoint: int,
    endPoint: int,
    maximumDepth: Option<int>)

  /** The settings as VideoAnalysis.__init__ stores them: a maximum depth
      that is absent or 0 means no limit; the paths are kept as given. */
  function Settings(filename: string, targetBrightness: int, compileOutput: string,
                    startPoint: int, endPoint: int, maximumDepth: Option<int>): (cfg: Config)
    ensures cfg.maximumDepth.None? <==> maximumDepth.None? || maximumDepth.value == 0
    ensures cfg.maximumDepth.Some? ==> cfg.maximumDepth == maximumDepth
    ensures cfg.filename == filename && cfg.compileOutput == compileOutput
    ensures cfg.targetBrightness == targetBrightness
    ensures cfg.startPoint == startPoint && cfg.endPoint == endPoint
  {
    var depth := if maximumDepth.Some? && maximumDepth.value != 0 then maximumDepth else None;
    Config(filename, targetBrightness, compileOutput, startPoint, endPoint, depth)
  }

  /** One decoded frame, or the point where a keyboard interrupt arrives. */
  datatype Frame = Image(pixels: seq<int>) | Interrupt

  /** result[second] = {'time': str(second), 'luminance': luminance}; the
      record keeps the second the time string is made of. */
  datatype Entry = Entry(second: nat, luminance: real)

  function Time(e: Entry): string {
    Digits(e.second)
  }

  /** The scan's state: the second counter, the result dictionary, the
      capture ledger and the clips extracted so far. */
  datatype State = State(second: nat, result: Dict<Entry>, captured: seq<nat>, clips: seq<ClipJob>)

  function Initial(): State {
    State(0, EmptyDict(), [], [])
  }

  /** Why the scan ended: the frames ran out, the depth limit was found
      reached at a sampled frame, an interrupt arrived before a frame, or a
      frame rate of 0 made `frame_count % fps` raise (the error is not
      caught, so nothing is returned). */
  datatype Stop = Exhausted | MaxReached(at: nat) | Interrupted(at: nat) | Crashed(at: nat)

  datatype Outcome = Outcome(state: State, stop: Stop)

  function Clip(cfg: Config, second: nat): ClipJob {
    ClipFor(cfg.filename, cfg.compileOutput, second, cfg.startPoint, cfg.endPoint)
  }

  /** Frame n starts a new second: frame_count % fps == 0 (for a negative
      rate Python's floored remainder is 0 exactly when Dafny's is). */
  predicate Sampled(n: nat, fps: int)
    requires fps != 0
  {
    n % fps == 0
  }

  /** The number of sampled frames among the first n. */
  function SampledCount(n: nat, fps: int): nat
    requires fps != 0
  {
    if n == 0 then 0 else SampledCount(n - 1, fps) + (if Sampled(n - 1, fps) then 1 else 0)
  }

  datatype Verdict = Halt | Dark | Suppress | Accept

  /** What the scan does at a sampled frame that starts second `second` with
      the given luminance. */
  function Judge(cfg: Config, s: State, second: nat, luminance: real): Verdict {
    if cfg.maximumDepth.Some? && |s.result.entries| == cfg.maximumDepth.value then Halt
    else if !(luminance >= cfg.targetBrightness as real) then Dark
    else if Covered(s.captured, second, cfg.startPoint) then Suppress
    else Accept
  }

  function Apply(cfg: Config, s: State, second: nat, luminance: real, v: Verdict): State {
    match v
    case Accept =>
      State(second, Insert(s.result, second, Entry(second, luminance)), s.captured + [second],
            s.clips + [Clip(cfg, second)])
    case Suppress => s.(second := second, captured := s.captured + [second])
    case _ => s.(second := second)
  }

  /** The scan from frame n on, in state s. */
  function RunFrom(cfg: Config, frames: seq<Frame>, fps: int, luminance: seq<int> -> real, n: nat, s: State): Outcome
    requires n <= |frames|
    decreases |frames| - n
  {
    if n == |frames| then Outcome(s, Exhausted)
    else if frames[n].Interrupt? then Outcome(s, Interrupted(n))
    else if fps == 0 then Outcome(s, Crashed(n))
    else if !Sampled(n, fps) then RunFrom(cfg, frames, fps, luminance, n + 1, s)
    else
      var second := s.second + 1;
      var lum := luminance(frames[n].pixels);
      var v := Judge(cfg, s, second, lum);
      if v.Halt? then Outcome(s.(second := second), MaxReached(n))
      else RunFrom(cfg, frames, fps, luminance, n + 1, Apply(cfg, s, second, lum, v))
  }

  function Run(cfg: Config, frames: seq<Frame>, fps: int, luminance: seq<int> -> real): Outcome {
    RunFrom(cfg, frames, fps, luminance, 0, Initial())
  }

  /** VideoAnalysis.analyze: the result dictionary, the clips it extracted,
      and why it stopped, exactly as the scan over the frames defines them. */
  method Analyze(cfg: Config, frames: seq<Frame>, fps: int, luminance: seq<int> -> real)
    returns (result: Dict<Entry>, clips: seq<ClipJob>, stop: Stop)
    ensures var o := Run(cfg, frames, fps, luminance);
            result == o.state.result && clips == o.state.clips && stop == o.stop
  {
    result, clips := EmptyDict(), [];
    var captured: seq<nat> := [];
    var frameCount := 0;
    var second := 0;
    while frameCount < |frames|
      invariant frameCount <= |frames|
      invariant RunFrom(cfg, frames, fps, luminance, frameCount, State(second, result, captured, clips))
                == Run(cfg, frames, fps, luminance)
    {
      if frames[frameCount].Interrupt? {
        stop := Interrupted(frameCount);
        return;
      }
      if fps == 0 {
        stop := Crashed(frameCount);
        return;
      }
      if frameCount % fps == 0 {
        second := second + 1;
        var lum := luminance(frames[frameCount].pixels);
        if cfg.maximumDepth.Some? && |result.entries| == cfg.maximumDepth.value {
          stop := MaxReached(frameCount);
          return;
        }
        if lum >= cfg.targetBrightness as real {
          if Covered(captured, second, cfg.startPoint) {
            // a captured second lies within start_point before this one
            captured := captured + [second];
          } else {
            captured := captured + [second];
            result := Insert(result, second, Entry(second, lum));
            clips := clips + [Clip(cfg, second)];
          }
        }
      }
      frameCount := frameCount + 1;
    }
    stop := Exhausted;
  }

  /** The frame after which the counter is read: the first frame not
      processed, or, when the depth limit stops the scan, the frame that
      advanced the counter one last time. */
  function Reached(o: Outcome, frames: seq<Frame>): nat {
    match o.stop
    case Exhausted => |frames|
    case MaxReached(at) => at + 1
    case Interrupted(at) => at
    case Crashed(at) => at
  }

  /** The `second` counter counts sampled frames: from a state whose counter
      has counted the first n frames, it ends equal to the number of sampled
      frames among those the scan went through. */
  lemma {:induction false} CounterCountsSampledFrames(cfg: Config, frames: seq<Frame>, fps: int,
                                                      luminance: seq<int> -> real, n: nat, s: State)
    requires n <= |frames| && fps != 0
    requires s.second == SampledCount(n, fps)
    ensures var o := RunFrom(cfg, frames, fps, luminance, n, s);
            n <= Reached(o, frames) <= |frames| && o.state.second == SampledCount(Reached(o, frames), fps)
    decreases |frames| - n
  {
    if n < |frames| && frames[n].Image? {
      if !Sampled(n, fps) {
        CounterCountsSampledFrames(cfg, frames, fps, luminance, n + 1, s);
      } else {
        var second := s.second + 1;
        var lum := luminance(frames[n].pixels);
        var v := Judge(cfg, s, second, lum);
        if !v.Halt? {
          CounterCountsSampledFrames(cfg, frames, fps, luminance, n + 1, Apply(cfg, s, second, lum, v));
        }
      }
    }
  }

  // SmallMultiple and DivUnique are arithmetic helpers of SampledCountIsCeiling.

  /** The only multiple of d strictly between -d and d is 0. */
  lemma SmallMultiple(k: int, d: int)
    requires d > 0 && -d < k * d < d
    ensures k == 0
  {
  }

  /** x / d is the quotient of any decomposition x == a * d + b with 0 <= b < d. */
  lemma DivUnique(x: int, a: int, b: int, d: int)
    requires d > 0 && x == a * d + b && 0 <= b < d
    ensures x / d == a
  {
    var q, r := x / d, x % d;
    assert (q - a) * d == b - r;
    SmallMultiple(q - a, d);
  }

  /** For a positive rate the sampled frames among the first n are frames
      0, fps, 2 * fps, ...: there are ceil(n / fps) of them. */
  lemma {:induction false} SampledCountIsCeiling(n: nat, fps: int)
    requires fps > 0
    ensures SampledCount(n, fps) == (n + fps - 1) / fps
  {
    if n == 0 {
      DivUnique(fps - 1, 0, fps - 1, fps);
    } else {
      SampledCountIsCeiling(n - 1, fps);
      CeilingStep(n, fps);
    }
  }

  /** ceil(n / fps) grows by one exactly past a multiple of fps. */
  lemma CeilingStep(n: nat, fps: int)
    requires fps > 0 && n > 0
    ensures (n + fps - 1) / fps == (n - 1 + fps - 1) / fps + (if (n - 1) % fps == 0 then 1 else 0)
  {
    var q, r := (n - 1) / fps, (n - 1) % fps;
    assert n - 1 == q * fps + r;
    assert (q + 1) * fps == q * fps + fps;
    if r == 0 {
      DivUnique(n - 1 + fps - 1, q, fps - 1, fps);
      DivUnique(n + fps - 1, q + 1, 0, fps);
    } else {
      DivUnique(n - 1 + fps - 1, q + 1, r - 1, fps);
      DivUnique(n + fps - 1, q + 1, r, fps);
    }
  }

  /** Frames that are not sampled are never looked at: two frame streams
      that agree on where interrupts arrive and on every sampled frame give
      the same outcome. */
  lemma {:induction false} UnsampledFramesIgnored(cfg: Config, frames: seq<Frame>, other: seq<Frame>, fps: int,
                                                  luminance: seq<int> -> real, n: nat, s: State)
    requires |frames| == |other| && n <= |frames| && fps != 0
    requires forall k :: n <= k < |frames| ==> frames[k].Interrupt? == other[k].Interrupt?
    requires forall k :: n <= k < |frames| && Sampled(k, fps) ==> frames[k] == other[k]
    ensures RunFrom(cfg, frames, fps, luminance, n, s) == RunFrom(cfg, other, fps, luminance, n, s)
    decreases |frames| - n
  {
    if n < |frames| && frames[n].Image? {
      if !Sampled(n, fps) {
        UnsampledFramesIgnored(cfg, frames, other, fps, luminance, n + 1, s);
      } else {
        var second := s.second + 1;
        var lum := luminance(frames[n].pixels);
        var v := Judge(cfg, s, second, lum);
        if !v.Halt? {
          UnsampledFramesIgnored(cfg, frames, other, fps, luminance, n + 1, Apply(cfg, s, second, lum, v));
        }
      }
    }
  }

  /** One clip per accepted second, in acceptance order. */
  ghost predicate ClipsMatch(cfg: Config, clips: seq<ClipJob>, order: seq<nat>) {
    |clips| == |order| && forall j :: 0 <= j < |clips| ==> clips[j] == Clip(cfg, order[j])
  }

  /** What holds of the scan's state between frames. */
  ghost predicate Good(cfg: Config, s: State) {
    && WellFormed(s.result)
    && Ledger(s.captured, s.second + 1)
    && (forall k :: k in s.result.entries ==> k in s.captured)
    && Spaced(s.result.order, cfg.startPoint)
    && ClipsMatch(cfg, s.clips, s.result.order)
    && (cfg.maximumDepth.Some? && cfg.maximumDepth.value >= 0 ==> |s.result.entries| <= cfg.maximumDepth.value)
  }

  /** One sampled second, in the analyser's own terms. */
  lemma SecondDecision(cfg: Config, s: State, luminance: real)
    requires Good(cfg, s)
    ensures var second := s.second + 1;
            var v := Judge(cfg, s, second, luminance);
            var next := Apply(cfg, s, second, luminance, v);
            // the depth limit is consulted first, whatever the brightness
            && (v.Halt? <==> cfg.maximumDepth.Some? && |s.result.entries| == cfg.maximumDepth.value)
            // a dark second only advances the counter
            && (v.Dark? <==> !v.Halt? && luminance < cfg.targetBrightness as real)
            && (v.Dark? ==> next == s.(second := second))
            // a bright second is always added to the ledger
            && (v.Suppress? || v.Accept? ==> next.captured == s.captured + [second])
            // suppressed iff a captured second lies in [second - start_point, second)
            && (v.Suppress? <==> !v.Halt? && !v.Dark? &&
                                 exists p: int :: second - cfg.startPoint <= p < second && p in s.captured)
            && (v.Suppress? ==> next.result == s.result && next.clips == s.clips)
            // accepted: a record under a new, larger key, and its clip
            && (v.Accept? ==> (forall k :: k in s.result.entries ==> k < second) &&
                              next.result.order == s.result.order + [second] &&
                              next.result.entries == s.result.entries[second := Entry(second, luminance)] &&
                              next.clips == s.clips + [Clip(cfg, second)])
  {
    var second := s.second + 1;
    if Judge(cfg, s, second, luminance).Accept? {
      forall k | k in s.result.entries ensures k < second {
        assert k in s.captured;
      }
      assert second !in s.result.entries;
    }
  }

  lemma AcceptKeepsGood(cfg: Config, s: State, luminance: real)
    requires Good(cfg, s)
    requires !Covered(s.captured, s.second + 1, cfg.startPoint)
    requires cfg.maximumDepth.Some? ==> |s.result.entries| != cfg.maximumDepth.value
    ensures Good(cfg, Apply(cfg, s, s.second + 1, luminance, Accept))
  {
    AcceptedLedger(cfg, s, luminance);
    AcceptedOrder(cfg, s, luminance);
  }

  lemma AcceptedLedger(cfg: Config, s: State, luminance: real)
    requires Good(cfg, s)
    ensures var next := Apply(cfg, s, s.second + 1, luminance, Accept);
            && s.second + 1 !in s.result.entries
            && next.result.order == s.result.order + [s.second + 1]
            && WellFormed(next.result)
            && Ledger(next.captured, next.second + 1)
            && (forall k :: k in next.result.entries ==> k in next.captured)
            && ClipsMatch(cfg, next.clips, next.result.order)
  {
    var second := s.second + 1;
    assert second !in s.captured;
    LedgerAppend(s.captured, second);
    ClipsMatchAppend(cfg, s.clips, s.result.order, second);
  }

  lemma ClipsMatchAppend(cfg: Config, clips: seq<ClipJob>, order: seq<nat>, second: nat)
    requires ClipsMatch(cfg, clips, order)
    ensures ClipsMatch(cfg, clips + [Clip(cfg, second)], order + [second])
  {
  }

  lemma AcceptedOrder(cfg: Config, s: State, luminance: real)
    requires Good(cfg, s)
    requires !Covered(s.captured, s.second + 1, cfg.startPoint)
    requires cfg.maximumDepth.Some? ==> |s.result.entries| != cfg.maximumDepth.value
    ensures var next := Apply(cfg, s, s.second + 1, luminance, Accept);
            && Spaced(next.result.order, cfg.startPoint)
            && (cfg.maximumDepth.Some? && cfg.maximumDepth.value >= 0 ==> |next.result.entries| <= cfg.maximumDepth.value)
  {
    var second := s.second + 1;
    var order := s.result.order;
    assert second !in s.result.entries by {
      assert second !in s.captured;
    }
    forall k | 0 <= k < |order| ensures order[k] in s.captured {
      assert order[k] in s.result.entries;
    }
    SpacedAppend(order, s.captured, cfg.startPoint, second);
    InsertNewKeyCount(s.result, second, Entry(second, luminance));
  }

  lemma StepKeepsGood(cfg: Config, s: State, luminance: real)
    requires Good(cfg, s)
    requires !Judge(cfg, s, s.second + 1, luminance).Halt?
    ensures Good(cfg, Apply(cfg, s, s.second + 1, luminance, Judge(cfg, s, s.second + 1, luminance)))
  {
    var second := s.second + 1;
    var v := Judge(cfg, s, second, luminance);
    if v.Accept? {
      AcceptKeepsGood(cfg, s, luminance);
    } else if v.Suppress? {
      SuppressKeepsGood(cfg, s);
    } else {
      AdvanceKeepsGood(cfg, s);
    }
  }

  /** A suppressed second joins the ledger and nothing else changes. */
  lemma SuppressKeepsGood(cfg: Config, s: State)
    requires Good(cfg, s)
    ensures Good(cfg, s.(second := s.second + 1, captured := s.captured + [s.second + 1]))
  {
    LedgerAppend(s.captured, s.second + 1);
  }

  /** Advancing the counter alone keeps the invariant. */
  lemma AdvanceKeepsGood(cfg: Config, s: State)
    requires Good(cfg, s)
    ensures Good(cfg, s.(second := s.second + 1))
  {
    assert Ledger(s.captured, s.second + 2);
  }

  /** Every invariant of the scan holds in the state it ends in. */
  lemma {:induction false} RunKeepsGood(cfg: Config, frames: seq<Frame>, fps: int, luminance: seq<int> -> real,
                                        n: nat, s: State)
    requires n <= |frames|
    requires Good(cfg, s)
    ensures Good(cfg, RunFrom(cfg, frames, fps, luminance, n, s).state)
    decreases |frames| - n, 1
  {
    if n == |frames| || frames[n].Interrupt? || fps == 0 {
      assert RunFrom(cfg, frames, fps, luminance, n, s).state == s;
    } else if !Sampled(n, fps) {
      assert RunFrom(cfg, frames, fps, luminance, n, s) == RunFrom(cfg, frames, fps, luminance, n + 1, s);
      RunKeepsGood(cfg, frames, fps, luminance, n + 1, s);
    } else {
      SampledKeepsGood(cfg, frames, fps, luminance, n, s);
    }
  }

  /** The invariant through a sampled frame and the rest of the scan. */
  lemma {:induction false} SampledKeepsGood(cfg: Config, frames: seq<Frame>, fps: int, luminance: seq<int> -> real,
                                            n: nat, s: State)
    requires n < |frames| && frames[n].Image? && fps != 0 && Sampled(n, fps)
    requires Good(cfg, s)
    ensures Good(cfg, RunFrom(cfg, frames, fps, luminance, n, s).state)
    decreases |frames| - n, 0
  {
    var second := s.second + 1;
    var lum := luminance(frames[n].pixels);
    var v := Judge(cfg, s, second, lum);
    if v.Halt? {
      HaltKeepsGood(cfg, frames, fps, luminance, n, s);
    } else {
      var next := Apply(cfg, s, second, lum, v);
      StepKeepsGood(cfg, s, lum);
      RunKeepsGood(cfg, frames, fps, luminance, n + 1, next);
      SampledStep(cfg, frames, fps, luminance, n, s);
    }
  }

  /** A sampled frame the scan goes past. */
  lemma SampledStep(cfg: Config, frames: seq<Frame>, fps: int, luminance: seq<int> -> real, n: nat, s: State)
    requires n < |frames| && frames[n].Image? && fps != 0 && Sampled(n, fps)
    requires var lum := luminance(frames[n].pixels);
             !Judge(cfg, s, s.second + 1, lum).Halt?
    ensures var lum := luminance(frames[n].pixels);
            RunFrom(cfg, frames, fps, luminance, n, s)
            == RunFrom(cfg, frames, fps, luminance, n + 1,
                       Apply(cfg, s, s.second + 1, lum, Judge(cfg, s, s.second + 1, lum)))
  {
  }

  /** The depth limit found reached: the state only advances its counter. */
  lemma HaltKeepsGood(cfg: Config, frames: seq<Frame>, fps: int, luminance: seq<int> -> real, n: nat, s: State)
    requires n < |frames| && frames[n].Image? && fps != 0 && Sampled(n, fps)
    requires Judge(cfg, s, s.second + 1, luminance(frames[n].pixels)).Halt?
    requires Good(cfg, s)
    ensures Good(cfg, RunFrom(cfg, frames, fps, luminance, n, s).state)
  {
    assert RunFrom(cfg, frames, fps, luminance, n, s).state == s.(second := s.second + 1);
    AdvanceKeepsGood(cfg, s);
  }

  /** The analysis result: keys in strictly increasing order of insertion,
      accepted seconds more than start_point apart, one clip per record, and
      never more records than a non-negative maximum depth. */
  lemma AnalyzeGuarantees(cfg: Config, frames: seq<Frame>, fps: int, luminance: seq<int> -> real)
    ensures var o := Run(cfg, frames, fps, luminance);
            && WellFormed(o.state.result)
            && (forall a, b :: 0 <= a < b < |o.state.result.order| ==>
                  o.state.result.order[a] < o.state.result.order[b] &&
                  o.state.result.order[b] - o.state.result.order[a] > cfg.startPoint)
            && (forall k :: k in o.state.result.entries ==> 1 <= k <= o.state.second)
            && |o.state.clips| == |o.state.result.order|
            && (forall j :: 0 <= j < |o.state.clips| ==> o.state.clips[j] == Clip(cfg, o.state.result.order[j]))
            && (cfg.maximumDepth.Some? && cfg.maximumDepth.value >= 0 ==>
                  |o.state.result.entries| <= cfg.maximumDepth.value)
  {
    RunKeepsGood(cfg, frames, fps, luminance, 0, Initial());
    RunCapturesPositive(cfg, frames, fps, luminance, 0, Initial());
    var o := Run(cfg, frames, fps, luminance);
    forall k | k in o.state.result.entries ensures 1 <= k <= o.state.second {
      assert k in o.state.captured;
      var j :| 0 <= j < |o.state.captured| && o.state.captured[j] == k;
      assert Ledger(o.state.captured, o.state.second + 1);
      assert o.state.captured[j] >= 1;
    }
  }

  /** Seconds are counted from 1: every captured second is at least 1. */
  lemma {:induction false} RunCapturesPositive(cfg: Config, frames: seq<Frame>, fps: int, luminance: seq<int> -> real,
                                               n: nat, s: State)
    requires n <= |frames|
    requires forall k :: 0 <= k < |s.captured| ==> s.captured[k] >= 1
    ensures forall k :: 0 <= k < |RunFrom(cfg, frames, fps, luminance, n, s).state.captured| ==>
              RunFrom(cfg, frames, fps, luminance, n, s).state.captured[k] >= 1
    decreases |frames| - n
  {
    if n < |frames| && frames[n].Image? && fps != 0 {
      if !Sampled(n, fps) {
        assert RunFrom(cfg, frames, fps, luminance, n, s) == RunFrom(cfg, frames, fps, luminance, n + 1, s);
        RunCapturesPositive(cfg, frames, fps, luminance, n + 1, s);
      } else {
        var second := s.second + 1;
        var lum := luminance(frames[n].pixels);
        var v := Judge(cfg, s, second, lum);
        if !v.Halt? {
          RunCapturesPositive(cfg, frames, fps, luminance, n + 1, Apply(cfg, s, second, lum, v));
        } else {
          assert RunFrom(cfg, frames, fps, luminance, n, s).state.captured == s.captured;
        }
      }
    }
  }

  /** A keyboard interrupt before frame k returns what the scan of the
      frames before k had built: the same state, and the interrupt is the
      reason to stop exactly when that scan would have run out of frames. */
  lemma {:induction false} InterruptKeepsPrefix(cfg: Config, frames: seq<Frame>, fps: int, luminance: seq<int> -> real,
                                                k: nat, n: nat, s: State)
    requires n <= k < |frames| && frames[k].Interrupt?
    ensures var whole := RunFrom(cfg, frames, fps, luminance, n, s);
            var prefix := RunFrom(cfg, frames[..k], fps, luminance, n, s);
            && whole.state == prefix.state
            && whole.stop == (if prefix.stop.Exhausted? then Interrupted(k) else prefix.stop)
    decreases k - n
  {
    if n < k {
      assert frames[..k][n] == frames[n];
      if frames[n].Image? && fps != 0 {
        if !Sampled(n, fps) {
          InterruptKeepsPrefix(cfg, frames, fps, luminance, k, n + 1, s);
        } else {
          var second := s.second + 1;
          var lum := luminance(frames[n].pixels);
          var v := Judge(cfg, s, second, lum);
          if !v.Halt? {
            InterruptKeepsPrefix(cfg, frames, fps, luminance, k, n + 1, Apply(cfg, s, second, lum, v));
          }
        }
      }
    }
  }
}
