/** The drowsiness counter and alert-cooldown logic of realtime.py's frame loop.

    Per frame the caller supplies the averaged eye-aspect-ratio score (`None`
    when no face was found) and the current time. The monitor keeps two
    values across frames: the number of consecutive closed-eye frames and the
    time of the last spoken alert. `Step` is the per-frame rule as a function
    on values; `Monitor` is the same rule on a mutable object, as the source
    keeps it in two local variables updated in place. */
module Realtime {
  import opened Wrappers
  import opened Utils

  /** The tunable settings at the top of realtime.py. */
  datatype Config = Config(threshold: real, consecFrames: int, cooldown: real)

  /** EAR_THRESHOLD = 0.21, CONSEC_FRAMES = 20, ALERT_COOLDOWN = 3.0. */
  const DefaultConfig := Config(0.21, 20, 3.0)

  /** The landmarks of both eyes, available only when a face was detected. */
  datatype Face = Face(left: EyePoints, right: EyePoints)

  datatype MonitorState = MonitorState(closedFrames: nat, lastAlertTime: real)

  /** `closed_frames = 0` and `last_alert_time = 0` before the first frame. */
  const Initial := MonitorState(0, 0.0)

  /** One frame as the monitor sees it: the averaged score, and the clock. */
  datatype Frame = Frame(score: Option<real>, now: real)

  /** What a frame decides: the alert banner is shown (`alerting`), and a
      spoken alert is started (`fire`). */
  datatype FrameResult = FrameResult(alerting: bool, fire: bool)

  datatype Transition = Transition(next: MonitorState, result: FrameResult)

  /** The per-frame score: the mean of the two eyes' ratios. */
  function Average(left: real, right: real): (r: real)
    ensures left <= r <= right || right <= r <= left
    ensures r - left == right - r
  {
    (left + right) / 2.0
  }

  /** Both eyes below (at or above) the threshold puts their mean below (at or above) it. */
  lemma AverageAgreesWithBothEyes(left: real, right: real, threshold: real)
    ensures left < threshold && right < threshold ==> Average(left, right) < threshold
    ensures left >= threshold && right >= threshold ==> Average(left, right) >= threshold
  {
  }

  /** The score handed to the monitor: absent exactly when no face was found,
      otherwise the mean of the two eyes' ratios. */
  function FrameScore(dist: Distance, face: Option<Face>): (r: Option<real>)
    ensures r.Some? <==> face.Some?
  {
    match face
    case None => None
    case Some(f) => Some(Average(EyeAspectRatio(dist, f.left), EyeAspectRatio(dist, f.right)))
  }

  /** A detected face never yields a negative score. */
  lemma FrameScoreNonNegative(dist: Distance, face: Option<Face>)
    requires IsDistance(dist)
    requires face.Some?
    ensures FrameScore(dist, face).value >= 0.0
  {
    RatioNonNegative(dist, face.value.left);
    RatioNonNegative(dist, face.value.right);
  }

  /** A face is present and its averaged score is below the threshold. */
  predicate IsLow(cfg: Config, f: Frame)
  {
    f.score.Some? && f.score.value < cfg.threshold
  }

  /** One iteration of the frame loop. */
  function Step(cfg: Config, s: MonitorState, f: Frame): (t: Transition)
    ensures t.result.fire ==> t.result.alerting
    ensures t.result.alerting ==> f.score.Some?
  {
    match f.score
    case None =>
      Transition(MonitorState(0, s.lastAlertTime), FrameResult(false, false))
    case Some(ear) =>
      var closed := if ear < cfg.threshold then s.closedFrames + 1 else 0;
      var alerting := closed >= cfg.consecFrames;
      var fire := alerting && f.now - s.lastAlertTime > cfg.cooldown;
      Transition(MonitorState(closed, if fire then f.now else s.lastAlertTime),
                 FrameResult(alerting, fire))
  }

  /** A frame with no face clears the counter and never alerts or fires,
      whatever the state before it. */
  lemma NoFaceResets(cfg: Config, s: MonitorState, now: real)
    ensures var t := Step(cfg, s, Frame(None, now));
      t.next == MonitorState(0, s.lastAlertTime) && !t.result.alerting && !t.result.fire
  {
  }

  /** With a face, a low score adds exactly one to the counter and any other
      score clears it. */
  lemma CounterRule(cfg: Config, s: MonitorState, f: Frame)
    requires f.score.Some?
    ensures IsLow(cfg, f) ==> Step(cfg, s, f).next.closedFrames == s.closedFrames + 1
    ensures !IsLow(cfg, f) ==> Step(cfg, s, f).next.closedFrames == 0
  {
  }

  /** A frame with a face is alerting exactly when the new counter has reached
      the required number of frames. */
  lemma AlertingIffEnoughClosedFrames(cfg: Config, s: MonitorState, f: Frame)
    requires f.score.Some?
    ensures Step(cfg, s, f).result.alerting <==> Step(cfg, s, f).next.closedFrames >= cfg.consecFrames
  {
  }

  /** A spoken alert starts exactly when the frame is alerting and more than the
      cooldown has passed since the last one; it then records the frame's time,
      and otherwise the recorded time is kept. */
  lemma FireRule(cfg: Config, s: MonitorState, f: Frame)
    ensures var t := Step(cfg, s, f);
      && (t.result.fire <==> t.result.alerting && f.now - s.lastAlertTime > cfg.cooldown)
      && (t.result.fire ==> t.next.lastAlertTime == f.now)
      && (!t.result.fire ==> t.next.lastAlertTime == s.lastAlertTime)
  {
  }

  function Prefix<T>(fs: seq<T>): seq<T>
    requires fs != []
  {
    fs[..|fs| - 1]
  }

  function Last<T>(fs: seq<T>): T
    requires fs != []
  {
    fs[|fs| - 1]
  }

  /** The state after feeding `fs` one frame at a time, starting from `s`. */
  function Run(cfg: Config, s: MonitorState, fs: seq<Frame>): (r: MonitorState)
    ensures r.closedFrames <= s.closedFrames + |fs|
    ensures cfg.cooldown >= 0.0 ==> r.lastAlertTime >= s.lastAlertTime
    decreases |fs|
  {
    if fs == [] then s else Step(cfg, Run(cfg, s, Prefix(fs)), Last(fs)).next
  }

  /** The result of every frame of `fs`, in order. */
  function Outputs(cfg: Config, s: MonitorState, fs: seq<Frame>): (rs: seq<FrameResult>)
    ensures |rs| == |fs|
    decreases |fs|
  {
    if fs == [] then []
    else Outputs(cfg, s, Prefix(fs)) + [Step(cfg, Run(cfg, s, Prefix(fs)), Last(fs)).result]
  }

  /** Feeding one more frame: one more step from the state reached so far. */
  lemma FeedOneMore(cfg: Config, s: MonitorState, fs: seq<Frame>, f: Frame)
    ensures Run(cfg, s, fs + [f]) == Step(cfg, Run(cfg, s, fs), f).next
    ensures Outputs(cfg, s, fs + [f]) == Outputs(cfg, s, fs) + [Step(cfg, Run(cfg, s, fs), f).result]
  {
    assert Prefix(fs + [f]) == fs && Last(fs + [f]) == f;
  }

  /** The k-th output is the step taken on frame k from the state the first k
      frames lead to. */
  lemma {:induction false} OutputAt(cfg: Config, s: MonitorState, fs: seq<Frame>, k: nat)
    requires k < |fs|
    ensures Outputs(cfg, s, fs)[k] == Step(cfg, Run(cfg, s, fs[..k]), fs[k]).result
    decreases |fs|
  {
    if k < |fs| - 1 {
      OutputAt(cfg, s, Prefix(fs), k);
      assert Prefix(fs)[..k] == fs[..k];
    } else {
      assert Prefix(fs) == fs[..k];
    }
  }

  /** Every frame of `fs` is a face with a below-threshold score. */
  predicate AllLow(cfg: Config, fs: seq<Frame>)
  {
    forall i :: 0 <= i < |fs| ==> IsLow(cfg, fs[i])
  }

  /** The counter is the length of the current unbroken run of low frames:
      if every frame was low it has grown by one per frame, and otherwise it
      counts exactly the low frames since the last frame that was not. */
  lemma {:induction false} CounterIsCurrentLowRun(cfg: Config, s: MonitorState, fs: seq<Frame>)
    ensures AllLow(cfg, fs) ==> Run(cfg, s, fs).closedFrames == s.closedFrames + |fs|
    ensures !AllLow(cfg, fs) ==>
      var c := Run(cfg, s, fs).closedFrames;
      c < |fs| && AllLow(cfg, fs[|fs| - c..]) && !IsLow(cfg, fs[|fs| - c - 1])
    decreases |fs|
  {
    if fs != [] {
      var p, x := Prefix(fs), Last(fs);
      CounterIsCurrentLowRun(cfg, s, p);
      var cp := Run(cfg, s, p).closedFrames;
      if IsLow(cfg, x) {
        if AllLow(cfg, p) {
          assert AllLow(cfg, fs);
        } else {
          assert fs[|fs| - (cp + 1)..] == p[|p| - cp..] + [x];
          assert fs[|fs| - (cp + 1) - 1] == p[|p| - cp - 1];
        }
      } else {
        assert !AllLow(cfg, fs);
        assert fs[|fs| - 0..] == [];
      }
    }
  }

  /** From the initial state the counter is exactly the length of the longest
      suffix of low frames. */
  lemma CounterFromStart(cfg: Config, fs: seq<Frame>)
    ensures var c := Run(cfg, Initial, fs).closedFrames;
      c <= |fs| && AllLow(cfg, fs[|fs| - c..]) && (c < |fs| ==> !IsLow(cfg, fs[|fs| - c - 1]))
  {
    CounterIsCurrentLowRun(cfg, Initial, fs);
    if AllLow(cfg, fs) {
      assert fs[|fs| - |fs|..] == fs;
    }
  }

  /** Nothing fired in `fs`. */
  predicate Quiet(rs: seq<FrameResult>)
  {
    forall i :: 0 <= i < |rs| ==> !rs[i].fire
  }

  /** While nothing fires the recorded alert time stays where it was. */
  lemma {:induction false} QuietRunKeepsAlertTime(cfg: Config, s: MonitorState, fs: seq<Frame>)
    requires Quiet(Outputs(cfg, s, fs))
    ensures Run(cfg, s, fs).lastAlertTime == s.lastAlertTime
    decreases |fs|
  {
    if fs != [] {
      var o := Outputs(cfg, s, fs);
      assert Outputs(cfg, s, Prefix(fs)) == o[..|fs| - 1];
      assert !o[|fs| - 1].fire;
      QuietRunKeepsAlertTime(cfg, s, Prefix(fs));
    }
  }

  /** Debouncing: starting from a cleared counter, a run of low frames leaves
      the banner off for the first CONSEC_FRAMES - 1 frames and on from the
      CONSEC_FRAMES-th; on that frame the spoken alert starts exactly when the
      cooldown since the recorded alert time has passed. */
  lemma LowStreakAlertsAtConsecFrames(cfg: Config, s: MonitorState, fs: seq<Frame>)
    requires s.closedFrames == 0
    requires AllLow(cfg, fs)
    ensures forall k :: 0 <= k < |fs| ==> (Outputs(cfg, s, fs)[k].alerting <==> k + 1 >= cfg.consecFrames)
    ensures 1 <= cfg.consecFrames <= |fs| ==>
      (Outputs(cfg, s, fs)[cfg.consecFrames - 1].fire <==>
       fs[cfg.consecFrames - 1].now - s.lastAlertTime > cfg.cooldown)
  {
    var o := Outputs(cfg, s, fs);
    forall k | 0 <= k < |fs|
      ensures o[k].alerting <==> k + 1 >= cfg.consecFrames
    {
      OutputAt(cfg, s, fs, k);
      assert AllLow(cfg, fs[..k]);
      CounterIsCurrentLowRun(cfg, s, fs[..k]);
    }
    if 1 <= cfg.consecFrames <= |fs| {
      var n := cfg.consecFrames - 1;
      var q := fs[..n];
      OutputAt(cfg, s, fs, n);
      forall i | 0 <= i < n
        ensures !Outputs(cfg, s, q)[i].fire
      {
        OutputAt(cfg, s, q, i);
        OutputAt(cfg, s, fs, i);
        assert q[..i] == fs[..i];
      }
      QuietRunKeepsAlertTime(cfg, s, q);
    }
  }

  /** With the program's own settings, 19 low frames from a cleared counter
      show no banner and the 20th shows it. */
  lemma DefaultConfigAlertsOnTwentiethLowFrame(s: MonitorState, fs: seq<Frame>)
    requires s.closedFrames == 0
    requires |fs| == 20 && AllLow(DefaultConfig, fs)
    ensures forall k :: 0 <= k < 19 ==> !Outputs(DefaultConfig, s, fs)[k].alerting
    ensures Outputs(DefaultConfig, s, fs)[19].alerting
  {
    LowStreakAlertsAtConsecFrames(DefaultConfig, s, fs);
  }

  /** When both eyes' contours have coinciding corners, each eye scores 0, so
      the frame score is 0. That is below the default threshold, so the frame is
      counted as a closed-eye frame. */
  lemma DegenerateEyesCountAsClosed(dist: Distance, face: Face, now: real)
    requires IsDistance(dist)
    requires face.left[0] == face.left[3] && face.right[0] == face.right[3]
    ensures FrameScore(dist, Some(face)) == Some(0.0)
    ensures IsLow(DefaultConfig, Frame(FrameScore(dist, Some(face)), now))
  {
    DegenerateWidthGivesZero(dist, face.left);
    DegenerateWidthGivesZero(dist, face.right);
  }

  /** After an alert has fired on frame i, the recorded alert time is at least
      that frame's time, whatever the clock does afterwards: a later alert
      fires only at a time more than the (non-negative) cooldown past it. */
  lemma {:induction false} AlertTimeAfterFire(cfg: Config, s: MonitorState, fs: seq<Frame>, i: nat, j: nat)
    requires cfg.cooldown >= 0.0
    requires i < j <= |fs|
    requires Step(cfg, Run(cfg, s, fs[..i]), fs[i]).result.fire
    ensures Run(cfg, s, fs[..j]).lastAlertTime >= fs[i].now
    decreases j
  {
    var q := fs[..j];
    assert Prefix(q) == fs[..j - 1] && Last(q) == fs[j - 1];
    if j == i + 1 {
    } else {
      AlertTimeAfterFire(cfg, s, fs, i, j - 1);
    }
  }

  /** Rate limiting: any two spoken alerts are more than ALERT_COOLDOWN
      seconds apart, even when the clock is not monotonic. */
  lemma AlertsSeparatedByCooldown(cfg: Config, s: MonitorState, fs: seq<Frame>, i: nat, j: nat)
    requires cfg.cooldown >= 0.0
    requires i < j < |fs|
    requires Outputs(cfg, s, fs)[i].fire && Outputs(cfg, s, fs)[j].fire
    ensures fs[j].now - fs[i].now > cfg.cooldown
  {
    OutputAt(cfg, s, fs, i);
    OutputAt(cfg, s, fs, j);
    AlertTimeAfterFire(cfg, s, fs, i, j);
  }

  /** Three low frames then an open one, at t = 0, 1, 2, 3 s with three
      frames required: the banner shows on the third frame only, and no
      spoken alert starts, because the recorded alert time starts at 0 and
      2 - 0 is not more than the 3-second cooldown. */
  lemma ScenarioClockNearZero()
    ensures Outputs(Config(0.21, 3, 3.0), Initial,
                    [Frame(Some(0.15), 0.0), Frame(Some(0.18), 1.0),
                     Frame(Some(0.19), 2.0), Frame(Some(0.30), 3.0)])
         == [FrameResult(false, false), FrameResult(false, false),
             FrameResult(true, false), FrameResult(false, false)]
  {
    var cfg := Config(0.21, 3, 3.0);
    var f0, f1, f2, f3 :=
      Frame(Some(0.15), 0.0), Frame(Some(0.18), 1.0), Frame(Some(0.19), 2.0), Frame(Some(0.30), 3.0);
    FeedOneMore(cfg, Initial, [], f0);
    FeedOneMore(cfg, Initial, [f0], f1);
    assert [f0] + [f1] == [f0, f1];
    FeedOneMore(cfg, Initial, [f0, f1], f2);
    assert [f0, f1] + [f2] == [f0, f1, f2];
    FeedOneMore(cfg, Initial, [f0, f1, f2], f3);
    assert [f0, f1, f2] + [f3] == [f0, f1, f2, f3];
  }

  /** The same frames on a wall clock far from 0: the alert starts on the third frame. */
  lemma ScenarioWallClock()
    ensures Outputs(Config(0.21, 3, 3.0), Initial,
                    [Frame(Some(0.15), 1000.0), Frame(Some(0.18), 1001.0),
                     Frame(Some(0.19), 1002.0), Frame(Some(0.30), 1003.0)])
         == [FrameResult(false, false), FrameResult(false, false),
             FrameResult(true, true), FrameResult(false, false)]
  {
    var cfg := Config(0.21, 3, 3.0);
    var f0, f1, f2, f3 :=
      Frame(Some(0.15), 1000.0), Frame(Some(0.18), 1001.0), Frame(Some(0.19), 1002.0), Frame(Some(0.30), 1003.0);
    FeedOneMore(cfg, Initial, [], f0);
    FeedOneMore(cfg, Initial, [f0], f1);
    assert [f0] + [f1] == [f0, f1];
    FeedOneMore(cfg, Initial, [f0, f1], f2);
    assert [f0, f1] + [f2] == [f0, f1, f2];
    FeedOneMore(cfg, Initial, [f0, f1, f2], f3);
    assert [f0, f1, f2] + [f3] == [f0, f1, f2, f3];
  }

  /** A lost face breaks a streak (two frames required): the banner is on at
      frames 2 and 5; the alert fires at frame 2 (t = 11) but not at frame 5
      (t = 14), which is not more than 3 seconds later. */
  lemma ScenarioNoFaceInterruptsStreak()
    ensures Outputs(Config(0.21, 2, 3.0), Initial,
                    [Frame(Some(0.10), 10.0), Frame(Some(0.10), 11.0), Frame(None, 12.0),
                     Frame(Some(0.10), 13.0), Frame(Some(0.10), 14.0)])
         == [FrameResult(false, false), FrameResult(true, true), FrameResult(false, false),
             FrameResult(false, false), FrameResult(true, false)]
  {
    var cfg := Config(0.21, 2, 3.0);
    var f0, f1, f2, f3, f4 :=
      Frame(Some(0.10), 10.0), Frame(Some(0.10), 11.0), Frame(None, 12.0), Frame(Some(0.10), 13.0), Frame(Some(0.10), 14.0);
    FeedOneMore(cfg, Initial, [], f0);
    FeedOneMore(cfg, Initial, [f0], f1);
    assert [f0] + [f1] == [f0, f1];
    FeedOneMore(cfg, Initial, [f0, f1], f2);
    assert [f0, f1] + [f2] == [f0, f1, f2];
    FeedOneMore(cfg, Initial, [f0, f1, f2], f3);
    assert [f0, f1, f2] + [f3] == [f0, f1, f2, f3];
    FeedOneMore(cfg, Initial, [f0, f1, f2, f3], f4);
    assert [f0, f1, f2, f3] + [f4] == [f0, f1, f2, f3, f4];
  }

  /** The monitor of realtime.py's main(): the two variables the frame loop
      updates in place, and the settings it reads. */
  class Monitor {
    const cfg: Config
    var closedFrames: nat
    var lastAlertTime: real

    function State(): MonitorState
      reads this
    {
      MonitorState(closedFrames, lastAlertTime)
    }

    constructor (cfg: Config)
      ensures this.cfg == cfg
      ensures State() == Initial
    {
      this.cfg := cfg;
      closedFrames := 0;
      lastAlertTime := 0.0;
    }

    /** One pass of the frame loop, given the frame's averaged score (or
        `None` for no face) and the clock reading. */
    method ProcessFrame(score: Option<real>, now: real) returns (alerting: bool, fire: bool)
      modifies this
      ensures State() == Step(cfg, old(State()), Frame(score, now)).next
      ensures FrameResult(alerting, fire) == Step(cfg, old(State()), Frame(score, now)).result
      ensures score.None? ==> closedFrames == 0 && !alerting && !fire
      ensures score.Some? && score.value < cfg.threshold ==> closedFrames == old(closedFrames) + 1
      ensures score.Some? && score.value >= cfg.threshold ==> closedFrames == 0
      ensures alerting <==> score.Some? && closedFrames >= cfg.consecFrames
      ensures fire <==> alerting && now - old(lastAlertTime) > cfg.cooldown
      ensures lastAlertTime == if fire then now else old(lastAlertTime)
    {
      alerting, fire := false, false;
      if score.Some? {
        var ear := score.value;
        if ear < cfg.threshold {
          closedFrames := closedFrames + 1;
        } else {
          closedFrames := 0;
        }
        if closedFrames >= cfg.consecFrames {
          alerting := true;
          if now - lastAlertTime > cfg.cooldown {
            fire := true;
            lastAlertTime := now;
          }
        }
      } else {
        closedFrames := 0;
      }
    }

    /** The frame loop over a finite stream of frames: the results of every
        frame in order, and the state the stream leads to. */
    method ProcessFrames(fs: seq<Frame>) returns (rs: seq<FrameResult>)
      modifies this
      ensures State() == Run(cfg, old(State()), fs)
      ensures rs == Outputs(cfg, old(State()), fs)
    {
      ghost var s0 := State();
      rs := [];
      var i := 0;
      while i < |fs|
        invariant 0 <= i <= |fs|
        invariant State() == Run(cfg, s0, fs[..i])
        invariant rs == Outputs(cfg, s0, fs[..i])
      {
        assert Prefix(fs[..i + 1]) == fs[..i] && Last(fs[..i + 1]) == fs[i];
        var alerting, fire := ProcessFrame(fs[i].score, fs[i].now);
        rs := rs + [FrameResult(alerting, fire)];
        i := i + 1;
      }
      assert fs[..i] == fs;
    }
  }
}
