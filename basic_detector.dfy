/** The older brightness/contrast emotion stabiliser (`_detect_emotion_basic` of the
    enhanced detector). It keeps a persistent emotion, holds it for at least two seconds,
    switches to a new target only when that target is confident and a coin comes up, and
    otherwise nudges the confidence within [75, 95].

    The persistent fields are created lazily: `hasattr` decides whether they exist yet, so
    the state records which of them have been created. Brightness and contrast (`np.mean`
    and `np.std` of the grey crop) are inputs; a crop the conversion cannot handle is the
    input `Unreadable`. Time is a parameter in seconds; the random draws are parameters in
    [0, 1), with `random.uniform(a, b)` taken as `a + (b - a) * u`. */
module BasicDetector {
  import opened Wrappers

  /** A persistent emotion is held at least this many seconds. */
  const MinHoldSeconds: real := 2.0
  /** A target replaces the persistent emotion only with a confidence above this. */
  const ChangeConfidence: real := 80.0
  /** ... and only when the change draw exceeds this (a 70 % chance). */
  const ChangeChance: real := 0.3
  /** The clamp applied to a nudged confidence. */
  const MinConfidence: real := 75.0
  const MaxConfidence: real := 95.0

  /** What the grey conversion of the face crop gave. */
  datatype Crop =
    | Unreadable                                   // the conversion or the statistics raised
    | Measured(brightness: real, contrast: real)   // mean and standard deviation of the grey crop

  /** The draws one call may consume: the target's `random.uniform`, the `random.random()`
      change coin and the `random.uniform(-1, 1)` nudge. */
  datatype Draws = Draws(level: real, coin: real, nudge: real)

  predicate ValidDraws(d: Draws) {
    0.0 <= d.level < 1.0 && 0.0 <= d.coin < 1.0 && 0.0 <= d.nudge < 1.0
  }

  /** `random.uniform(lo, hi)` for the draw `u`. */
  function Uniform(lo: real, hi: real, u: real): (r: real)
    requires lo <= hi && 0.0 <= u < 1.0
    ensures lo <= r <= hi
  {
    assert 0.0 <= (hi - lo) * u <= hi - lo by {
      var a, w := hi - lo, 1.0 - u;
      assert a * w >= 0.0 && a * u >= 0.0;
      assert a * w == a - a * u;
    }
    lo + (hi - lo) * u
  }

  /** The detector's persistent attributes. `initialised` says whether `persistent_emotion`
      and `persistent_confidence` exist; `lastChange` is `None` while `last_change_time`
      does not. */
  datatype Persistent = Persistent(
    initialised: bool,
    emotion: string,
    confidence: real,
    lastChange: Option<real>)

  /** The state before the first call: no persistent attribute exists. */
  const Fresh: Persistent := Persistent(false, "", 0.0, None)

  /** The emotion the crop suggests, with the confidence drawn for it; a crop that suggests
      nothing keeps the persistent emotion at a slightly lowered confidence. */
  function Target(brightness: real, contrast: real, current: string, currentConfidence: real,
                  level: real): (string, real)
    requires 0.0 <= level < 1.0
  {
    if brightness > 160.0 && contrast > 55.0 then ("happy", Uniform(80.0, 92.0, level))
    else if brightness < 80.0 && contrast < 45.0 then ("sad", Uniform(78.0, 88.0, level))
    else if contrast > 60.0 then ("surprise", Uniform(75.0, 85.0, level))
    else if brightness > 140.0 then ("neutral", Uniform(85.0, 95.0, level))
    else (current, if currentConfidence - 2.0 > 75.0 then currentConfidence - 2.0 else 75.0)
  }

  /** `max(75, min(95, x))`. */
  function Clamp(x: real): (r: real)
    ensures MinConfidence <= r <= MaxConfidence
    ensures MinConfidence <= x <= MaxConfidence ==> r == x
  {
    if x > MaxConfidence then MaxConfidence else if x < MinConfidence then MinConfidence else x
  }

  /** The decision once the hold has expired: switch to the target, or nudge the confidence. */
  function Decide(s: Persistent, brightness: real, contrast: real, now: real, d: Draws)
    : Persistent
    requires ValidDraws(d)
  {
    var (target, confidence) := Target(brightness, contrast, s.emotion, s.confidence, d.level);
    if target != s.emotion && confidence > ChangeConfidence && d.coin > ChangeChance then
      s.(emotion := target, confidence := confidence, lastChange := Some(now))
    else
      s.(confidence := Clamp(s.confidence + Uniform(-1.0, 1.0, d.nudge)))
  }

  /** A call that reached the statistics: creates the persistent attributes on first use,
      then holds, or decides once the hold has expired. */
  function Advance(s: Persistent, brightness: real, contrast: real, now: real, d: Draws)
    : Persistent
    requires ValidDraws(d)
  {
    var t := if s.initialised then s else Persistent(true, "neutral", 85.0, Some(now));
    if t.lastChange.None? then t          // reading the missing change time raises; the handler keeps t
    else if now - t.lastChange.value < MinHoldSeconds then t
    else Decide(t, brightness, contrast, now, d)
  }

  /** One call of `_detect_emotion_basic` as written: the error handler creates the emotion
      and the confidence, but not the change time. */
  function StepAsWritten(s: Persistent, crop: Crop, now: real, d: Draws): Persistent
    requires ValidDraws(d)
  {
    match crop
    case Unreadable =>
      if s.initialised then s else s.(initialised := true, emotion := "neutral", confidence := 85.0)
    case Measured(brightness, contrast) => Advance(s, brightness, contrast, now, d)
  }

  /** One call of `_detect_emotion_basic`, with the error handler creating all three
      persistent attributes as the normal path does. */
  function Step(s: Persistent, crop: Crop, now: real, d: Draws): Persistent
    requires ValidDraws(d)
  {
    match crop
    case Unreadable =>
      if s.initialised then s else Persistent(true, "neutral", 85.0, Some(now))
    case Measured(brightness, contrast) => Advance(s, brightness, contrast, now, d)
  }

  /** The confidence band the persistent state keeps. */
  predicate InBand(s: Persistent) {
    s.initialised ==> MinConfidence <= s.confidence <= MaxConfidence
  }

  /** Every target confidence above the change threshold is at most 95, so a switch keeps
      the band. */
  lemma TargetBounded(brightness: real, contrast: real, current: string, c: real, level: real)
    requires 0.0 <= level < 1.0 && c <= MaxConfidence
    ensures Target(brightness, contrast, current, c, level).1 <= MaxConfidence
  {
  }

  /** Each call keeps the persistent confidence within [75, 95]. */
  lemma StepKeepsBand(s: Persistent, crop: Crop, now: real, d: Draws)
    requires ValidDraws(d) && InBand(s)
    ensures InBand(Step(s, crop, now, d))
    ensures Step(s, crop, now, d).initialised
  {
    if crop.Measured? {
      var t := if s.initialised then s else Persistent(true, "neutral", 85.0, Some(now));
      TargetBounded(crop.brightness, crop.contrast, t.emotion, t.confidence, d.level);
    }
  }

  /** The first call creates neutral at 85 and, with a single clock reading, returns it
      unchanged; as written, only a readable crop also starts the change clock. */
  lemma FirstCallStartsNeutral(crop: Crop, now: real, d: Draws)
    requires ValidDraws(d)
    ensures var r := Step(Fresh, crop, now, d);
      r == Persistent(true, "neutral", 85.0, Some(now))
    ensures var w := StepAsWritten(Fresh, crop, now, d);
      w.initialised && w.emotion == "neutral" && w.confidence == 85.0
      && (crop.Measured? <==> w.lastChange == Some(now))
  {
  }

  /** The two versions of a call differ only on an unreadable crop before anything was
      created, and they do differ there. */
  lemma StepAgreement(s: Persistent, crop: Crop, now: real, d: Draws)
    requires ValidDraws(d)
    ensures crop.Measured? || s.initialised ==>
              StepAsWritten(s, crop, now, d) == Step(s, crop, now, d)
    ensures StepAsWritten(Fresh, Unreadable, now, d).lastChange.None?
    ensures Step(Fresh, Unreadable, now, d).lastChange == Some(now)
  {
  }

  /** Within two seconds of the last change a call returns the persistent state as it is. */
  lemma HoldsWithinTwoSeconds(s: Persistent, crop: Crop, now: real, d: Draws)
    requires ValidDraws(d) && s.initialised && s.lastChange.Some?
    requires now - s.lastChange.value < MinHoldSeconds
    ensures Step(s, crop, now, d) == s
  {
  }

  /** The emotion changes only when the target differs, its confidence is above 80 and the
      coin is above 0.3; it then takes the target's confidence and the current time. Without
      a change only the confidence moves, by at most one point and clamped to [75, 95]. */
  lemma ChangeRule(s: Persistent, brightness: real, contrast: real, now: real, d: Draws)
    requires ValidDraws(d) && InBand(s) && s.initialised && s.lastChange.Some?
    requires now - s.lastChange.value >= MinHoldSeconds
    ensures var r := Step(s, Measured(brightness, contrast), now, d);
      var target := Target(brightness, contrast, s.emotion, s.confidence, d.level);
      && (r.emotion != s.emotion <==>
            target.0 != s.emotion && target.1 > ChangeConfidence && d.coin > ChangeChance)
      && (r.emotion != s.emotion ==> r.confidence == target.1 && r.lastChange == Some(now))
      && (r.emotion == s.emotion ==>
            r.lastChange == s.lastChange
            && MinConfidence <= r.confidence <= MaxConfidence
            && s.confidence - 1.0 <= r.confidence <= s.confidence + 1.0)
  {
  }

  /** A call sequence: the crop, the time and the draws of each call. */
  datatype Call = Call(crop: Crop, now: real, draws: Draws)

  predicate ValidCalls(calls: seq<Call>) {
    forall i :: 0 <= i < |calls| ==> ValidDraws(calls[i].draws)
  }

  /** The state after a sequence of calls. */
  function Run(s: Persistent, calls: seq<Call>): Persistent
    requires ValidCalls(calls)
    decreases |calls|
  {
    if |calls| == 0 then s
    else Run(Step(s, calls[0].crop, calls[0].now, calls[0].draws), calls[1..])
  }

  /** The state after a sequence of calls as written. */
  function RunAsWritten(s: Persistent, calls: seq<Call>): Persistent
    requires ValidCalls(calls)
    decreases |calls|
  {
    if |calls| == 0 then s
    else RunAsWritten(StepAsWritten(s, calls[0].crop, calls[0].now, calls[0].draws), calls[1..])
  }

  lemma TailCalls(calls: seq<Call>)
    requires ValidCalls(calls) && |calls| > 0
    ensures ValidCalls(calls[1..])
  {
    forall i | 0 <= i < |calls[1..]| ensures ValidDraws(calls[1..][i].draws) {
      assert calls[1..][i] == calls[i + 1];
    }
  }

  /** However many calls the detector serves, the persistent confidence stays in [75, 95]
      and, after the first call, the attributes exist. */
  lemma {:induction false} RunKeepsBand(s: Persistent, calls: seq<Call>)
    requires ValidCalls(calls) && InBand(s)
    ensures InBand(Run(s, calls))
    ensures |calls| > 0 ==> Run(s, calls).initialised
    decreases |calls|
  {
    if |calls| > 0 {
      TailCalls(calls);
      var c := calls[0];
      StepKeepsBand(s, c.crop, c.now, c.draws);
      RunKeepsBand(Step(s, c.crop, c.now, c.draws), calls[1..]);
      if |calls| > 1 {
      } else {
        assert Run(s, calls) == Step(s, c.crop, c.now, c.draws);
      }
    }
  }

  /** As written, when the very first call meets an unreadable crop, the handler creates
      the emotion without the change time; from then on every call raises when it reads
      that time, so the detector answers neutral at 85 forever, whatever it is shown. */
  lemma {:induction false} StuckAfterEarlyFailure(now: real, d: Draws, calls: seq<Call>)
    requires ValidDraws(d) && ValidCalls(calls)
    ensures RunAsWritten(StepAsWritten(Fresh, Unreadable, now, d), calls)
            == Persistent(true, "neutral", 85.0, None)
  {
    StuckStaysStuck(calls);
  }

  lemma {:induction false} StuckStaysStuck(calls: seq<Call>)
    requires ValidCalls(calls)
    ensures RunAsWritten(Persistent(true, "neutral", 85.0, None), calls)
            == Persistent(true, "neutral", 85.0, None)
    decreases |calls|
  {
    if |calls| > 0 {
      TailCalls(calls);
      StuckStaysStuck(calls[1..]);
    }
  }

  /** With the change time created by the handler, an early unreadable crop no longer
      freezes the detector: a clearly happy face shown two seconds later, with a confident
      draw and the coin up, switches the emotion to happy. */
  lemma RecoversAfterEarlyFailure(t0: real, d0: Draws, t1: real, d1: Draws)
    requires ValidDraws(d0) && ValidDraws(d1)
    requires t1 - t0 >= MinHoldSeconds && d1.level > 0.0 && d1.coin > ChangeChance
    ensures Step(Step(Fresh, Unreadable, t0, d0), Measured(200.0, 60.0), t1, d1).emotion
            == "happy"
    ensures StepAsWritten(StepAsWritten(Fresh, Unreadable, t0, d0), Measured(200.0, 60.0),
                          t1, d1).emotion == "neutral"
  {
    var s := Step(Fresh, Unreadable, t0, d0);
    assert s == Persistent(true, "neutral", 85.0, Some(t0));
    var target := Target(200.0, 60.0, s.emotion, s.confidence, d1.level);
    assert target.1 == 80.0 + 12.0 * d1.level;
    assert target.1 > ChangeConfidence;
  }

  /** The enhanced detector's persistent attributes, updated in place. */
  class EnhancedEmotionDetector {
    var initialised: bool
    var persistentEmotion: string
    var persistentConfidence: real
    var lastChangeTime: Option<real>

    function State(): Persistent
      reads this
    {
      Persistent(initialised, persistentEmotion, persistentConfidence, lastChangeTime)
    }

    /** A detector on which the basic path has not run yet. */
    constructor ()
      ensures State() == Fresh
    {
      initialised := false;
      persistentEmotion := "";
      persistentConfidence := 0.0;
      lastChangeTime := None;
    }

    /** `_detect_emotion_basic`: returns the persistent emotion and confidence after the call. */
    method DetectEmotionBasic(crop: Crop, now: real, d: Draws)
      returns (emotion: string, confidence: real)
      requires ValidDraws(d)
      modifies this
      ensures State() == Step(old(State()), crop, now, d)
      ensures emotion == persistentEmotion && confidence == persistentConfidence
    {
      if crop.Unreadable? {
        if !initialised {
          initialised, persistentEmotion, persistentConfidence := true, "neutral", 85.0;
          lastChangeTime := Some(now);
        }
        return persistentEmotion, persistentConfidence;
      }
      if !initialised {
        initialised, persistentEmotion, persistentConfidence := true, "neutral", 85.0;
        lastChangeTime := Some(now);
      }
      if lastChangeTime.None? || now - lastChangeTime.value < MinHoldSeconds {
        return persistentEmotion, persistentConfidence;
      }
      var t := Target(crop.brightness, crop.contrast, persistentEmotion, persistentConfidence,
                      d.level);
      var target, targetConfidence := t.0, t.1;
      if target != persistentEmotion && targetConfidence > ChangeConfidence
         && d.coin > ChangeChance
      {
        persistentEmotion := target;
        persistentConfidence := targetConfidence;
        lastChangeTime := Some(now);
      } else {
        persistentConfidence := Clamp(persistentConfidence + Uniform(-1.0, 1.0, d.nudge));
      }
      return persistentEmotion, persistentConfidence;
    }
  }
}
