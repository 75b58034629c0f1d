/** The analytics aggregation over a window of detection rows: the number of detections,
    the presence percentage, the emotion distribution (present rows with an emotion only)
    and the working-hours estimate of half a minute per present detection. The full
    server, the simple server and both exports compute it; `Summarize` is the one
    definition they are all proved against. Percentages and hours are exact reals. */
module Analytics {
  import opened Wrappers
  import opened Tally
  import opened DetectionLog

  /** Each present detection stands for half a minute of work. */
  const MinutesPerDetection: real := 0.5
  const SecondsPerDay: int := 86400

  /** The analytics response. */
  datatype Summary = Summary(
    totalDetections: nat,
    presencePercentage: real,
    emotionDistribution: Counts,
    workingHours: real)

  /** The response for a window without detections. */
  const EmptySummary: Summary := Summary(0, 0.0, [], 0.0)

  /** `d.is_present` is truthy. */
  predicate Present(r: Row) {
    Truthy(r.isPresent)
  }

  /** `d.emotion and d.is_present`: a non-empty emotion on a present row. */
  predicate Counted(r: Row) {
    r.emotion.Some? && r.emotion.value != "" && Present(r)
  }

  /** `sum(1 for d in detections if d.is_present)`. */
  function PresentCount(rows: seq<Row>): (n: nat)
    ensures n <= |rows|
  {
    if |rows| == 0 then 0
    else PresentCount(rows[..|rows| - 1]) + (if Present(rows[|rows| - 1]) then 1 else 0)
  }

  /** The emotions the distribution counts, in row order. */
  function CountedEmotions(rows: seq<Row>): (ls: seq<string>)
    ensures |ls| <= PresentCount(rows)
  {
    if |rows| == 0 then []
    else
      var last := rows[|rows| - 1];
      CountedEmotions(rows[..|rows| - 1]) + (if Counted(last) then [last.emotion.value] else [])
  }

  /** The `emotion_counts` dict, keys in the order the rows first show them. */
  function Distribution(rows: seq<Row>): Counts {
    Histogram(CountedEmotions(rows))
  }

  function WorkingHours(present: nat): real {
    present as real * MinutesPerDetection / 60.0
  }

  /** `present / total * 100 if total > 0 else 0`. */
  function PresencePercentage(present: nat, total: nat): real {
    if total > 0 then present as real / total as real * 100.0 else 0.0
  }

  /** The analytics of a window of rows. */
  function Summarize(rows: seq<Row>): Summary {
    var present := PresentCount(rows);
    Summary(|rows|, PresencePercentage(present, |rows|), Distribution(rows), WorkingHours(present))
  }

  /** The rows an analytics request covers: the employee's rows from `days` days before
      `now` onward. */
  function AnalyticsWindow(rows: seq<Row>, employeeId: string, now: int, days: int): seq<Row> {
    Select(rows, employeeId, Some(now - days * SecondsPerDay), None)
  }

  // ---------------------------------------------------------------------------------------
  // Properties

  /** The general formula gives the all-zero response on an empty window, so the early
      return of the servers agrees with the exports' unguarded computation. */
  lemma EmptyWindow()
    ensures Summarize([]) == EmptySummary
  {
  }

  /** `a / b <= 1` for `0 <= a <= b`, `b > 0`. */
  lemma RatioAtMostOne(a: real, b: real)
    requires 0.0 <= a <= b && b > 0.0
    ensures 0.0 <= a / b <= 1.0
  {
    assert a / b * b == a;
  }

  /** The presence percentage is present / total × 100 and lies in [0, 100]; the working
      hours are present × 0.5 / 60 and never exceed what the total would give. */
  lemma SummaryBounds(rows: seq<Row>)
    ensures var s := Summarize(rows);
      && s.totalDetections == |rows|
      && 0.0 <= s.presencePercentage <= 100.0
      && (|rows| > 0 ==>
            s.presencePercentage == PresentCount(rows) as real / |rows| as real * 100.0)
      && s.workingHours == PresentCount(rows) as real * 0.5 / 60.0
      && 0.0 <= s.workingHours <= |rows| as real * 0.5 / 60.0
  {
    if |rows| > 0 {
      RatioAtMostOne(PresentCount(rows) as real, |rows| as real);
    }
  }

  /** Every counted emotion is the emotion of a present row. */
  lemma {:induction false} CountedEmotionsFromRows(rows: seq<Row>, l: string)
    requires l in CountedEmotions(rows)
    ensures exists i :: 0 <= i < |rows| && Counted(rows[i]) && rows[i].emotion.value == l
  {
    var init, last := rows[..|rows| - 1], rows[|rows| - 1];
    if l in CountedEmotions(init) {
      CountedEmotionsFromRows(init, l);
      var i :| 0 <= i < |init| && Counted(init[i]) && init[i].emotion.value == l;
      assert rows[i] == init[i];
    } else {
      assert Counted(last) && last.emotion.value == l;
    }
  }

  /** The distribution has one entry per emotion seen on a present row, each counting the
      present rows with that emotion; its counts are positive and sum to at most the
      present count. */
  lemma DistributionSound(rows: seq<Row>)
    ensures var dist := Distribution(rows);
      && Distinct(dist)
      && (forall k :: Get(dist, k) == multiset(CountedEmotions(rows))[k])
      && Sum(dist) <= PresentCount(rows)
      && (forall j :: 0 <= j < |dist| ==>
            dist[j].1 > 0
            && exists i :: 0 <= i < |rows| && Counted(rows[i]) && rows[i].emotion.value == dist[j].0)
  {
    var dist := Distribution(rows);
    forall j | 0 <= j < |dist|
      ensures dist[j].1 > 0
      ensures exists i :: 0 <= i < |rows| && Counted(rows[i]) && rows[i].emotion.value == dist[j].0
    {
      TallyEntriesPositive(CountedEmotions(rows), j);
      CountedEmotionsFromRows(rows, dist[j].0);
    }
  }

  /** Presence counts add up over concatenation. */
  lemma {:induction false} PresentCountAppend(a: seq<Row>, b: seq<Row>)
    ensures PresentCount(a + b) == PresentCount(a) + PresentCount(b)
    ensures CountedEmotions(a + b) == CountedEmotions(a) + CountedEmotions(b)
    decreases |b|
  {
    if |b| > 0 {
      var b' := b[..|b| - 1];
      assert (a + b)[..|a + b| - 1] == a + b';
      PresentCountAppend(a, b');
    } else {
      assert a + b == a;
    }
  }

  /** Removing the same row from two permutations of each other leaves permutations. */
  lemma RemoveMatching(s: seq<Row>, t: seq<Row>, j: nat)
    requires multiset(s) == multiset(t) && |s| > 0 && j < |t| && t[j] == s[|s| - 1]
    ensures multiset(s[..|s| - 1]) == multiset(t[..j] + t[j + 1..])
  {
    var x, s', t' := s[|s| - 1], s[..|s| - 1], t[..j] + t[j + 1..];
    assert t == t[..j] + [x] + t[j + 1..];
    assert s == s' + [x];
    forall e ensures multiset(s')[e] == multiset(t')[e] {
      assert multiset(s)[e] == multiset(s')[e] + multiset{x}[e];
      assert multiset(t)[e] == multiset(t')[e] + multiset{x}[e];
    }
  }

  /** Taking one row out of a window takes out its share of the counts. */
  lemma ExtractRow(a: seq<Row>, x: Row, b: seq<Row>)
    ensures PresentCount(a + [x] + b) == PresentCount(a + b) + PresentCount([x])
    ensures multiset(CountedEmotions(a + [x] + b))
            == multiset(CountedEmotions(a + b)) + multiset(CountedEmotions([x]))
  {
    PresentCountAppend(a, [x]);
    PresentCountAppend(a + [x], b);
    PresentCountAppend(a, b);
  }

  /** A window is its rows before position `j`, the row at `j`, and the rows after it. */
  lemma SplitAt(t: seq<Row>, j: nat)
    requires j < |t|
    ensures t == t[..j] + [t[j]] + t[j + 1..]
  {
  }

  /** The inductive step: rows whose remainders agree agree once the same row is added
      back, at the end of one and at position `j` of the other. */
  lemma PutBack(s: seq<Row>, t: seq<Row>, j: nat)
    requires |s| > 0 && j < |t| && t[j] == s[|s| - 1]
    requires PresentCount(s[..|s| - 1]) == PresentCount(t[..j] + t[j + 1..])
    requires multiset(CountedEmotions(s[..|s| - 1]))
             == multiset(CountedEmotions(t[..j] + t[j + 1..]))
    ensures PresentCount(s) == PresentCount(t)
    ensures multiset(CountedEmotions(s)) == multiset(CountedEmotions(t))
  {
    var s', x := s[..|s| - 1], s[|s| - 1];
    SplitAt(s, |s| - 1);
    assert s[|s|..] == [];
    PresentCountAppend(s', [x]);
    SplitAt(t, j);
    ExtractRow(t[..j], x, t[j + 1..]);
  }

  /** Reordering the rows changes neither the present count nor the counted emotions. */
  lemma {:induction false} PermutationInvariant(s: seq<Row>, t: seq<Row>)
    requires multiset(s) == multiset(t)
    ensures PresentCount(s) == PresentCount(t)
    ensures multiset(CountedEmotions(s)) == multiset(CountedEmotions(t))
    decreases |s|
  {
    if |s| > 0 {
      var x := s[|s| - 1];
      assert x in multiset(t) by { assert x in multiset(s); }
      var j :| 0 <= j < |t| && t[j] == x;
      RemoveMatching(s, t, j);
      PermutationInvariant(s[..|s| - 1], t[..j] + t[j + 1..]);
      PutBack(s, t, j);
    }
  }

  /** The summary does not depend on the order of the rows, up to the order of the
      distribution's keys: the servers' unordered window and the exports' newest-first
      window give the same numbers. */
  lemma SummaryOrderIndependent(s: seq<Row>, t: seq<Row>)
    requires multiset(s) == multiset(t)
    ensures Summarize(s).totalDetections == Summarize(t).totalDetections
    ensures Summarize(s).presencePercentage == Summarize(t).presencePercentage
    ensures Summarize(s).workingHours == Summarize(t).workingHours
    ensures forall k :: Get(Summarize(s).emotionDistribution, k)
                        == Get(Summarize(t).emotionDistribution, k)
  {
    PermutationInvariant(s, t);
    assert |s| == |multiset(s)| == |t|;
  }

  /** The rows of the worked example: three present rows (two happy, one sad) and one
      absent row. */
  function ExampleRows(): seq<Row> {
    [Row(1, "EMP001", 10, 1, Some("happy"), Some(90.0)),
     Row(2, "EMP001", 20, 1, Some("happy"), Some(80.0)),
     Row(3, "EMP001", 30, 1, Some("sad"), Some(75.0)),
     Row(4, "EMP001", 40, 0, None, None)]
  }

  lemma ExampleCounted()
    ensures PresentCount(ExampleRows()) == 3
    ensures CountedEmotions(ExampleRows()) == ["happy", "happy", "sad"]
  {
    var rows := ExampleRows();
    assert rows[..3][..2][..1] == rows[..1];
    assert rows[..3][..2] == rows[..2];
    assert CountedEmotions(rows[..1]) == ["happy"];
    assert CountedEmotions(rows[..2]) == ["happy", "happy"];
    assert CountedEmotions(rows[..3]) == ["happy", "happy", "sad"];
  }

  lemma ExampleHistogram()
    ensures Histogram(["happy", "happy", "sad"]) == [("happy", 2), ("sad", 1)]
  {
    var ls := ["happy", "happy", "sad"];
    assert ls[..2][..1] == ["happy"];
    assert ls[..2] == ["happy", "happy"];
    assert Histogram(["happy"]) == [("happy", 1)];
    assert Histogram(["happy", "happy"]) == [("happy", 2)];
  }

  /** The worked example: 75 % presence, {happy: 2, sad: 1}, 0.025 hours. */
  lemma WorkedExample()
    ensures Summarize(ExampleRows()) == Summary(4, 75.0, [("happy", 2), ("sad", 1)], 0.025)
  {
    ExampleCounted();
    ExampleHistogram();
  }

  // ---------------------------------------------------------------------------------------
  // The loops of the servers' `get_analytics`

  /** The presence count, row by row. */
  method CountPresent(rows: seq<Row>) returns (n: nat)
    ensures n == PresentCount(rows)
  {
    n := 0;
    var i := 0;
    while i < |rows|
      invariant 0 <= i <= |rows|
      invariant n == PresentCount(rows[..i])
    {
      assert rows[..i + 1][..i] == rows[..i];
      if Present(rows[i]) {
        n := n + 1;
      }
      i := i + 1;
    }
    assert rows[..i] == rows;
  }

  /** One more row of the window bumps the distribution exactly when the row is counted. */
  lemma DistributionStep(rows: seq<Row>, i: nat)
    requires i < |rows|
    ensures Distribution(rows[..i + 1])
            == if Counted(rows[i]) then Bump(Distribution(rows[..i]), rows[i].emotion.value)
               else Distribution(rows[..i])
  {
    assert rows[..i + 1][..i] == rows[..i];
    var ls, prev := CountedEmotions(rows[..i + 1]), CountedEmotions(rows[..i]);
    assert rows[..i + 1][i] == rows[i];
    if Counted(rows[i]) {
      var e := rows[i].emotion.value;
      assert ls == prev + [e];
      assert ls[..|ls| - 1] == prev && ls[|ls| - 1] == e;
      assert Histogram(ls) == Bump(Histogram(prev), e);
    } else {
      assert ls == prev;
    }
  }

  /** The `emotion_counts` loop. */
  method EmotionDistribution(rows: seq<Row>) returns (counts: Counts)
    ensures counts == Distribution(rows)
  {
    counts := [];
    var i := 0;
    while i < |rows|
      invariant 0 <= i <= |rows|
      invariant counts == Distribution(rows[..i])
    {
      DistributionStep(rows, i);
      if Counted(rows[i]) {
        counts := Bump(counts, rows[i].emotion.value);
      }
      i := i + 1;
    }
    assert rows[..i] == rows;
  }

  /** `get_analytics` of either server (before rounding): the all-zero response for an
      empty window, the aggregation otherwise. */
  method GetAnalytics(rows: seq<Row>, employeeId: string, now: int, days: int)
    returns (summary: Summary)
    ensures summary == Summarize(AnalyticsWindow(rows, employeeId, now, days))
    ensures |AnalyticsWindow(rows, employeeId, now, days)| == 0 ==> summary == EmptySummary
  {
    var detections := AnalyticsWindow(rows, employeeId, now, days);
    if |detections| == 0 {
      EmptyWindow();
      return EmptySummary;
    }
    var total := |detections|;
    var present := CountPresent(detections);
    var percentage := if total > 0 then present as real / total as real * 100.0 else 0.0;
    var counts := EmotionDistribution(detections);
    var hours := present as real * MinutesPerDetection / 60.0;
    summary := Summary(total, percentage, counts, hours);
  }
}
