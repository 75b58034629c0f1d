/** The emotion stabiliser (`FEREmotionDetector`): it turns per-frame classifier scores into
    a debounced current emotion by frame throttling, a bounded FIFO of recent readings,
    majority voting and hysteresis, with a dwell-and-redraw fallback when the classifier
    gives nothing. Time is a parameter in seconds; the random draws are parameters in
    [0, 1). */
module FaceAnalyzer {
  import opened Ordering
  import opened Tally

  /** Only every third call classifies. */
  const FrameStride: nat := 3
  /** The FIFO keeps the five most recent readings. */
  const BufferCapacity: nat := 5
  /** A vote is held once the FIFO has three readings. */
  const MinBufferForVote: nat := 3
  /** The winning label needs three votes. */
  const MinVotes: nat := 3
  /** Seconds that must have passed since the last change, strictly. */
  const MinSecondsBetweenChanges: real := 2.0
  /** The winning label's mean confidence must exceed this. */
  const MinVoteConfidence: real := 60.0
  /** The fallback keeps the current emotion for more than this many seconds. */
  const FallbackDwellSeconds: real := 10.0
  /** The fallback's labels, drawn with weights 0.3, 0.4, 0.2 and 0.1. */
  const FallbackLabels: seq<string> := ["happy", "neutral", "sad", "surprise"]
  const FallbackWeights: seq<real> := [0.3, 0.4, 0.2, 0.1]

  /** The sum of the first `n` fallback weights. */
  function CumulativeWeight(n: nat): real
    requires n <= |FallbackWeights|
  {
    if n == 0 then 0.0 else CumulativeWeight(n - 1) + FallbackWeights[n - 1]
  }

  /** A buffered (label, confidence in percent) pair. */
  type Reading = (string, real)

  /** What the external classifier gave for one face crop. */
  datatype ClassifierResult =
    | NoFace                                 // no face result (empty or missing)
    | Raised                                 // the classifier threw
    | Scores(emotions: seq<(string, real)>)  // the first face's label scores, in dict order

  /** The two draws the fallback makes: one for the weighted label, one for the confidence. */
  datatype FallbackDraw = FallbackDraw(pick: real, level: real)

  predicate ValidDraw(d: FallbackDraw) {
    0.0 <= d.pick < 1.0 && 0.0 <= d.level < 1.0
  }

  /** The detector's fields. */
  datatype Snapshot = Snapshot(
    emotion: string,
    confidence: real,
    lastChange: real,
    buffer: seq<Reading>,
    frameCount: nat)

  function Score(e: (string, real)): real { e.1 }

  function Votes(e: (string, nat)): real { e.1 as real }

  /** The instantaneous reading: a label of maximal score (the first one, as `max` over the
      dict's items picks it) with that score scaled to a percentage. */
  function Dominant(emotions: seq<(string, real)>): (r: Reading)
    requires |emotions| > 0
    ensures exists i :: 0 <= i < |emotions| && r == (emotions[i].0, emotions[i].1 * 100.0)
                        && (forall j :: 0 <= j < |emotions| ==> emotions[j].1 <= emotions[i].1)
                        && (forall j :: 0 <= j < i ==> emotions[j].1 < emotions[i].1)
  {
    var i := ArgMax(emotions, Score);
    (emotions[i].0, emotions[i].1 * 100.0)
  }

  /** Appends a reading and, when that overflows the capacity, drops the oldest one only. */
  function Push(buffer: seq<Reading>, x: Reading): (r: seq<Reading>)
    ensures |buffer| <= BufferCapacity ==> |r| <= BufferCapacity
    ensures |r| > 0 && r[|r| - 1] == x
    ensures |buffer| < BufferCapacity ==> r == buffer + [x]
    ensures |buffer| >= BufferCapacity ==> r == buffer[1..] + [x]
  {
    var b := buffer + [x];
    if |b| > BufferCapacity then b[1..] else b
  }

  /** The labels of the buffered readings, in order. */
  function Labels(buffer: seq<Reading>): (r: seq<string>)
    ensures |r| == |buffer|
  {
    if |buffer| == 0 then [] else Labels(buffer[..|buffer| - 1]) + [buffer[|buffer| - 1].0]
  }

  /** How often a label occurs in the buffer. */
  function Occurrences(buffer: seq<Reading>, emo: string): nat {
    multiset(Labels(buffer))[emo]
  }

  /** The `emotion_counts` dict built from the buffer. */
  function VoteCounts(buffer: seq<Reading>): Counts {
    Histogram(Labels(buffer))
  }

  /** The majority vote: the first label (in order of first appearance) of maximal count,
      with that count. */
  function Best(buffer: seq<Reading>): (string, nat)
    requires |buffer| > 0
  {
    var c := VoteCounts(buffer);
    c[ArgMax(c, Votes)]
  }

  /** The vote picks a buffered label, reports its true number of readings, and no label
      has more readings. */
  lemma BestIsMajority(buffer: seq<Reading>)
    requires |buffer| > 0
    ensures Best(buffer).0 in Labels(buffer)
    ensures Best(buffer).1 == Occurrences(buffer, Best(buffer).0) > 0
    ensures forall l :: Occurrences(buffer, l) <= Best(buffer).1
  {
    var c := VoteCounts(buffer);
    assert Sum(c) > 0;
    var i := ArgMax(c, Votes);
    GetEntry(c, i);
    forall l ensures Occurrences(buffer, l) <= c[i].1 {
      if Get(c, l) > 0 {
        var j :| 0 <= j < |c| && c[j] == (l, Get(c, l));
        assert Votes(c[j]) <= Votes(c[i]);
      }
    }
  }

  /** The confidences of the buffered readings with this label, in order (the list that
      `np.mean` averages). */
  function Matching(buffer: seq<Reading>, emo: string): seq<real> {
    if |buffer| == 0 then []
    else
      var init, last := buffer[..|buffer| - 1], buffer[|buffer| - 1];
      Matching(init, emo) + (if last.0 == emo then [last.1] else [])
  }

  /** The averaged list has one confidence per buffered reading of the label. */
  lemma {:induction false} MatchingCount(buffer: seq<Reading>, emo: string)
    ensures |Matching(buffer, emo)| == Occurrences(buffer, emo)
  {
    if |buffer| > 0 {
      var init, last := buffer[..|buffer| - 1], buffer[|buffer| - 1];
      MatchingCount(init, emo);
      assert Labels(buffer) == Labels(init) + [last.0];
    }
  }

  function SumReals(xs: seq<real>): real {
    if |xs| == 0 then 0.0 else SumReals(xs[..|xs| - 1]) + xs[|xs| - 1]
  }

  /** The mean confidence of the readings with this label. */
  function MeanConfidence(buffer: seq<Reading>, emo: string): real
    requires |Matching(buffer, emo)| > 0
  {
    SumReals(Matching(buffer, emo)) / (|Matching(buffer, emo)| as real)
  }

  /** The mean confidence of the vote winner's readings. */
  function WinnerMean(buffer: seq<Reading>): real
    requires |buffer| > 0
  {
    BestIsMajority(buffer);
    MatchingCount(buffer, Best(buffer).0);
    MeanConfidence(buffer, Best(buffer).0)
  }

  /** The hysteresis test for committing `best` with mean confidence `avg`. */
  predicate Commits(s: Snapshot, best: (string, nat), avg: real, now: real) {
    && best.0 != s.emotion
    && best.1 >= MinVotes
    && now - s.lastChange > MinSecondsBetweenChanges
    && avg > MinVoteConfidence
  }

  /** The classifier path once a reading exists: buffer it, vote, and commit when the
      hysteresis test passes. */
  function Classify(s: Snapshot, x: Reading, now: real): Snapshot {
    var b := Push(s.buffer, x);
    var t := s.(buffer := b);
    if |b| < MinBufferForVote then t
    else
      var best := Best(b);
      var avg := WinnerMean(b);
      if Commits(s, best, avg, now) then t.(emotion := best.0, confidence := avg, lastChange := now)
      else t
  }

  /** `random.choices(FallbackLabels, weights=[0.3, 0.4, 0.2, 0.1])` for a uniform draw `u`:
      the first label whose cumulative weight exceeds `u`. */
  function WeightedPick(u: real): (l: string)
    ensures l in FallbackLabels
    ensures forall i :: 0 <= i < |FallbackLabels| ==>
              (l == FallbackLabels[i] <==>
                 (i == 0 || CumulativeWeight(i) <= u)
                 && (i == |FallbackLabels| - 1 || u < CumulativeWeight(i + 1)))
  {
    assert CumulativeWeight(1) == 0.3 && CumulativeWeight(2) == 0.7
           && CumulativeWeight(3) == 0.9;
    if u < 0.3 then "happy"
    else if u < 0.7 then "neutral"
    else if u < 0.9 then "sad"
    else "surprise"
  }

  /** `_fallback_emotion`: after more than ten seconds without a change, redraw the label and
      a confidence `random.uniform(70, 85)`; otherwise keep everything. */
  function Fallback(s: Snapshot, now: real, d: FallbackDraw): Snapshot {
    if now - s.lastChange > FallbackDwellSeconds then
      s.(emotion := WeightedPick(d.pick), confidence := 70.0 + 15.0 * d.level, lastChange := now)
    else s
  }

  /** `Classify` before the buffer holds enough readings for a vote. */
  lemma ClassifyBuffers(s: Snapshot, x: Reading, now: real)
    requires |Push(s.buffer, x)| < MinBufferForVote
    ensures Classify(s, x, now) == s.(buffer := Push(s.buffer, x))
  {
  }

  /** The call lands on a classifying frame. */
  predicate Sampled(s: Snapshot) {
    (s.frameCount + 1) % FrameStride == 0
  }

  /** The call takes the classifier path rather than the fallback. */
  predicate ClassifierPath(mlAvailable: bool, result: ClassifierResult) {
    mlAvailable && result.Scores? && |result.emotions| > 0
  }

  /** One `detect_emotion` call. */
  function Observe(s: Snapshot, mlAvailable: bool, result: ClassifierResult, now: real,
                   d: FallbackDraw): Snapshot
  {
    var t := s.(frameCount := s.frameCount + 1);
    if !Sampled(s) then t
    else if ClassifierPath(mlAvailable, result) then Classify(t, Dominant(result.emotions), now)
    else Fallback(t, now, d)
  }

  /** The buffer a classifying call leaves behind. */
  function PushedBuffer(s: Snapshot, result: ClassifierResult): seq<Reading>
    requires result.Scores? && |result.emotions| > 0
  {
    Push(s.buffer, Dominant(result.emotions))
  }

  // ---------------------------------------------------------------------------------------
  // Properties of one call

  /** Every call counts the frame; a call off the three-frame stride changes nothing else,
      whatever the classifier or its availability. */
  lemma ThrottledCallOnlyCounts(s: Snapshot, ml: bool, result: ClassifierResult, now: real,
                                d: FallbackDraw)
    ensures Observe(s, ml, result, now, d).frameCount == s.frameCount + 1
    ensures !Sampled(s) ==> Observe(s, ml, result, now, d) == s.(frameCount := s.frameCount + 1)
  {
  }

  /** The buffer never exceeds its capacity. It changes only on the classifier path, and
      there by appending the new reading and dropping at most the oldest entry. */
  lemma BufferStaysBounded(s: Snapshot, ml: bool, result: ClassifierResult, now: real,
                           d: FallbackDraw)
    requires |s.buffer| <= BufferCapacity
    ensures var r := Observe(s, ml, result, now, d);
      && |r.buffer| <= BufferCapacity
      && (if Sampled(s) && ClassifierPath(ml, result)
          then r.buffer == PushedBuffer(s, result)
          else r.buffer == s.buffer)
  {
  }

  /** A label holding three of at most five buffered readings is the unique strict
      majority, so the vote selects it. */
  lemma {:induction false} MajorityIsBest(buffer: seq<Reading>, emo: string)
    requires |buffer| <= BufferCapacity
    requires Occurrences(buffer, emo) >= MinVotes
    ensures Best(buffer).0 == emo
  {
    var best := Best(buffer);
    BestIsMajority(buffer);
    if best.0 != emo {
      TwoLabelsBound(Labels(buffer), best.0, emo);
      assert false;
    }
  }

  /** On the classifier path the current emotion changes exactly when the buffer holds at
      least three readings, the vote winner differs from the current emotion, has at least
      three votes, more than two seconds have passed and the winner's mean confidence is
      above 60. A committed change takes the winner, the mean of exactly its buffered
      confidences, and the current time; otherwise emotion, confidence and time stay. */
  lemma ClassifierCommitRule(s: Snapshot, ml: bool, result: ClassifierResult, now: real,
                             d: FallbackDraw)
    requires Sampled(s) && ClassifierPath(ml, result)
    ensures var r := Observe(s, ml, result, now, d);
      var b := PushedBuffer(s, result);
      && (r.emotion != s.emotion <==>
            |b| >= MinBufferForVote && Commits(s, Best(b), WinnerMean(b), now))
      && (r.emotion != s.emotion ==>
            r.emotion == Best(b).0 && r.confidence == WinnerMean(b)
            && r.lastChange == now)
      && (r.emotion == s.emotion ==>
            r.confidence == s.confidence && r.lastChange == s.lastChange)
  {
  }

  /** With no label reaching three buffered votes, a classifying call never changes the
      current state. */
  lemma NoMajorityNoChange(s: Snapshot, ml: bool, result: ClassifierResult, now: real,
                           d: FallbackDraw)
    requires Sampled(s) && ClassifierPath(ml, result)
    requires forall l :: Occurrences(PushedBuffer(s, result), l) < MinVotes
    ensures var r := Observe(s, ml, result, now, d);
      r.emotion == s.emotion && r.confidence == s.confidence && r.lastChange == s.lastChange
  {
    var b := PushedBuffer(s, result);
    if |b| > 0 {
      BestIsMajority(b);
      assert Occurrences(b, Best(b).0) < MinVotes;
    }
  }

  /** Three matching readings among the buffered ones, confident on average and outside the
      two-second dwell, make that label the current emotion. */
  lemma ConvergesToMajority(s: Snapshot, ml: bool, result: ClassifierResult, now: real,
                            d: FallbackDraw, emo: string)
    requires |s.buffer| <= BufferCapacity
    requires Sampled(s) && ClassifierPath(ml, result)
    requires |Matching(PushedBuffer(s, result), emo)| >= MinVotes
    requires now - s.lastChange > MinSecondsBetweenChanges
    requires MeanConfidence(PushedBuffer(s, result), emo) > MinVoteConfidence
    ensures Observe(s, ml, result, now, d).emotion == emo
  {
    var b := PushedBuffer(s, result);
    MatchingCount(b, emo);
    MajorityIsBest(b, emo);
    assert |b| >= MinBufferForVote by {
      assert |Labels(b)| == |b|;
    }
  }

  /** Within two seconds of the last change no call changes the emotion, its confidence or
      the change time, whatever the buffer holds and whichever path is taken. */
  lemma NoChangeWithinDwell(s: Snapshot, ml: bool, result: ClassifierResult, now: real,
                            d: FallbackDraw)
    requires now - s.lastChange <= MinSecondsBetweenChanges
    ensures var r := Observe(s, ml, result, now, d);
      r.emotion == s.emotion && r.confidence == s.confidence && r.lastChange == s.lastChange
  {
  }

  /** The fallback (no result, a classifier error, or no classifier) never touches the
      buffer. It changes the state only after more than ten seconds, and then to one of the
      four fallback labels with a confidence in [70, 85]. */
  lemma FallbackRule(s: Snapshot, ml: bool, result: ClassifierResult, now: real,
                     d: FallbackDraw)
    requires ValidDraw(d)
    requires Sampled(s) && !ClassifierPath(ml, result)
    ensures var r := Observe(s, ml, result, now, d);
      && r.buffer == s.buffer
      && (now - s.lastChange > FallbackDwellSeconds ==>
            r.emotion in FallbackLabels && 70.0 <= r.confidence <= 85.0 && r.lastChange == now)
      && (now - s.lastChange <= FallbackDwellSeconds ==>
            r == s.(frameCount := s.frameCount + 1))
  {
  }

  /** The detector object. */
  class FerEmotionDetector {
    var currentEmotion: string
    var emotionConfidence: real
    var lastEmotionChange: real
    var emotionBuffer: seq<Reading>
    var frameCount: nat
    const mlAvailable: bool

    ghost predicate Valid()
      reads this
    {
      |emotionBuffer| <= BufferCapacity
    }

    function State(): Snapshot
      reads this
    {
      Snapshot(currentEmotion, emotionConfidence, lastEmotionChange, emotionBuffer, frameCount)
    }

    /** A new detector: neutral at 85 %, changed "now", nothing buffered, no frame seen.
        Whether the classifier could be loaded is decided outside and passed in. */
    constructor (mlAvailable: bool, now: real)
      ensures Valid() && this.mlAvailable == mlAvailable
      ensures State() == Snapshot("neutral", 85.0, now, [], 0)
    {
      currentEmotion := "neutral";
      emotionConfidence := 85.0;
      lastEmotionChange := now;
      emotionBuffer := [];
      frameCount := 0;
      this.mlAvailable := mlAvailable;
    }

    /** `detect_emotion`: returns the (possibly just updated) current emotion and confidence. */
    method DetectEmotion(result: ClassifierResult, now: real, d: FallbackDraw)
      returns (emotion: string, confidence: real)
      requires Valid() && ValidDraw(d)
      modifies this
      ensures Valid()
      ensures State() == Observe(old(State()), mlAvailable, result, now, d)
      ensures emotion == currentEmotion && confidence == emotionConfidence
    {
      ghost var s := State();
      frameCount := frameCount + 1;
      ghost var t := State();
      assert t == s.(frameCount := s.frameCount + 1);
      if frameCount % FrameStride != 0 {
        assert !Sampled(s);
        return currentEmotion, emotionConfidence;
      }
      assert Sampled(s);
      if ClassifierPath(mlAvailable, result) {
        emotion, confidence := Vote(Dominant(result.emotions), now);
        assert State() == Classify(t, Dominant(result.emotions), now);
      } else {
        emotion, confidence := FallbackEmotion(now, d);
        assert State() == Fallback(t, now, d);
      }
    }

    /** The classifier branch of `detect_emotion`, from buffering the reading to the
        hysteresis commit. */
    method Vote(reading: Reading, now: real) returns (emotion: string, confidence: real)
      requires Valid()
      modifies this
      ensures Valid()
      ensures State() == Classify(old(State()), reading, now)
      ensures emotion == currentEmotion && confidence == emotionConfidence
    {
      ghost var s := State();
      var b := emotionBuffer + [reading];
      if |b| > BufferCapacity {
        b := b[1..];
      }
      assert |b| <= BufferCapacity;
      emotionBuffer := b;
      if |b| >= MinBufferForVote {
        var best, avg := HoldVote(b);
        if best.0 != currentEmotion && best.1 >= MinVotes
           && now - lastEmotionChange > MinSecondsBetweenChanges && avg > MinVoteConfidence
        {
          currentEmotion := best.0;
          emotionConfidence := avg;
          lastEmotionChange := now;
        }
      } else {
        ClassifyBuffers(s, reading, now);
      }
      emotion, confidence := currentEmotion, emotionConfidence;
    }

    /** `_fallback_emotion`. */
    method FallbackEmotion(now: real, d: FallbackDraw) returns (emotion: string, confidence: real)
      requires ValidDraw(d)
      modifies this
      ensures State() == Fallback(old(State()), now, d)
      ensures emotion == currentEmotion && confidence == emotionConfidence
    {
      if now - lastEmotionChange > FallbackDwellSeconds {
        currentEmotion := WeightedPick(d.pick);
        emotionConfidence := 70.0 + 15.0 * d.level;
        lastEmotionChange := now;
      }
      return currentEmotion, emotionConfidence;
    }
  }

  /** The majority vote over a non-empty buffer: the winning label with its count, and the
      mean confidence of its readings. */
  method HoldVote(buffer: seq<Reading>) returns (best: (string, nat), avg: real)
    requires |buffer| > 0
    ensures best == Best(buffer)
    ensures avg == WinnerMean(buffer)
  {
    var counts := CountVotes(buffer);
    best := counts[ArgMax(counts, Votes)];
    BestIsMajority(buffer);
    MatchingCount(buffer, best.0);
    avg := MeanConfidenceOf(buffer, best.0);
  }

  /** The loop that fills `emotion_counts` from the buffer. */
  method CountVotes(buffer: seq<Reading>) returns (counts: Counts)
    ensures counts == VoteCounts(buffer)
    ensures forall l :: Get(counts, l) == Occurrences(buffer, l)
  {
    counts := [];
    var i := 0;
    while i < |buffer|
      invariant 0 <= i <= |buffer|
      invariant counts == Histogram(Labels(buffer[..i]))
    {
      var ls := Labels(buffer[..i + 1]);
      assert buffer[..i + 1][..i] == buffer[..i];
      assert ls[..i] == Labels(buffer[..i]);
      counts := Bump(counts, buffer[i].0);
      i := i + 1;
    }
    assert buffer[..i] == buffer;
  }

  /** `np.mean` of the confidences of the readings with this label. */
  method MeanConfidenceOf(buffer: seq<Reading>, emo: string) returns (avg: real)
    requires |Matching(buffer, emo)| > 0
    ensures avg == MeanConfidence(buffer, emo)
  {
    var total := 0.0;
    var n := 0;
    var i := 0;
    while i < |buffer|
      invariant 0 <= i <= |buffer|
      invariant total == SumReals(Matching(buffer[..i], emo))
      invariant n == |Matching(buffer[..i], emo)|
    {
      assert buffer[..i + 1][..i] == buffer[..i];
      ghost var prev := Matching(buffer[..i], emo);
      ghost var next := Matching(buffer[..i + 1], emo);
      if buffer[i].0 == emo {
        assert next == prev + [buffer[i].1];
        assert next[..|next| - 1] == prev;
        total := total + buffer[i].1;
        n := n + 1;
      } else {
        assert next == prev;
      }
      i := i + 1;
    }
    assert buffer[..i] == buffer;
    avg := total / n as real;
  }
}
