/** The CSV and PDF reports: the analytics block each export computes over the
    employee's newest-first window, the detection-row cells of the CSV log, and the PDF's
    most frequent emotion, emotion table and 20-row detection log. Page layout, the CSV
    writer and number formatting are outside the model; a cell holds the value that is
    printed. */
module Export {
  import opened Wrappers
  import opened Ordering
  import opened Tally
  import opened DetectionLog
  import opened Analytics

  /** The PDF's detection log shows at most this many rows. */
  const MaxLogRows: nat := 20

  const NotAvailable: string := "N/A"

  // ---------------------------------------------------------------------------------------
  // `str.capitalize` on ASCII text

  function Upper(c: char): char {
    if 'a' <= c <= 'z' then (c as int - 32) as char else c
  }

  function Lower(c: char): char {
    if 'A' <= c <= 'Z' then (c as int + 32) as char else c
  }

  function LowerAll(s: string): (r: string)
    ensures |r| == |s| && forall i :: 0 <= i < |s| ==> r[i] == Lower(s[i])
  {
    if |s| == 0 then [] else [Lower(s[0])] + LowerAll(s[1..])
  }

  /** First character upper case, the rest lower case. */
  function Capitalize(s: string): (r: string)
    ensures |r| == |s|
    ensures |s| > 0 ==> r[0] == Upper(s[0])
    ensures forall i :: 1 <= i < |s| ==> r[i] == Lower(s[i])
  {
    if |s| == 0 then [] else [Upper(s[0])] + LowerAll(s[1..])
  }

  // ---------------------------------------------------------------------------------------
  // The analytics block of both exports

  /** The rows an export covers: the analytics window, newest first. */
  function ExportWindow(rows: seq<Row>, employeeId: string, now: int, days: int): seq<Row> {
    NewestFirst(AnalyticsWindow(rows, employeeId, now, days))
  }

  /** The CSV export's analytics block: no early return, a guarded percentage, no rounding. */
  method CsvAnalytics(detections: seq<Row>) returns (summary: Summary)
    ensures summary == Summarize(detections)
    ensures |detections| == 0 ==> summary.presencePercentage == 0.0
  {
    var total := |detections|;
    var present := CountPresent(detections);
    var percentage := if total > 0 then present as real / total as real * 100.0 else 0.0;
    var hours := present as real * MinutesPerDetection / 60.0;
    var counts := EmotionDistribution(detections);
    summary := Summary(total, percentage, counts, hours);
  }

  /** The PDF export's analytics block: an empty window is a 404. */
  method PdfAnalytics(detections: seq<Row>) returns (r: Result<Summary>)
    ensures r.Failure? <==> |detections| == 0
    ensures r.Failure? ==> r.status == 404
    ensures r.Success? ==> r.value == Summarize(detections)
  {
    if |detections| == 0 {
      return Failure(404);
    }
    var total := |detections|;
    var present := CountPresent(detections);
    var percentage := present as real / total as real * 100.0;
    var hours := present as real * MinutesPerDetection / 60.0;
    var counts := EmotionDistribution(detections);
    return Success(Summary(total, percentage, counts, hours));
  }

  /** The exports read the window newest first, the servers in table order; the numbers
      and every emotion's count agree. */
  lemma ExportAgreesWithServer(rows: seq<Row>, employeeId: string, now: int, days: int)
    ensures var e := Summarize(ExportWindow(rows, employeeId, now, days));
      var s := Summarize(AnalyticsWindow(rows, employeeId, now, days));
      && e.totalDetections == s.totalDetections
      && e.presencePercentage == s.presencePercentage
      && e.workingHours == s.workingHours
      && forall k :: Get(e.emotionDistribution, k) == Get(s.emotionDistribution, k)
  {
    var w := AnalyticsWindow(rows, employeeId, now, days);
    SummaryOrderIndependent(NewestFirst(w), w);
  }

  // ---------------------------------------------------------------------------------------
  // CSV detection rows

  /** A printed confidence: `N/A`, or the value as a percentage. */
  datatype ConfidenceCell = NoConfidence | Percent(value: real)

  /** A line of the CSV detection log. */
  datatype CsvLine = CsvLine(
    timestamp: int,
    employeeId: string,
    status: string,
    emotion: string,
    confidence: ConfidenceCell)

  /** `emotion or 'N/A'`: a missing or empty emotion prints as N/A. */
  function EmotionCell(e: Option<string>): string {
    if e.Some? && e.value != "" then e.value else NotAvailable
  }

  /** A confidence prints only when it is present and non-zero. */
  function ConfidenceOf(c: Option<real>): ConfidenceCell {
    if c.Some? && c.value != 0.0 then Percent(c.value) else NoConfidence
  }

  function CsvRow(r: Row): CsvLine {
    CsvLine(r.timestamp, r.employeeId, if Present(r) then "Present" else "Not Present",
            EmotionCell(r.emotion), ConfidenceOf(r.confidence))
  }

  /** A CSV line says Present exactly for a present row, carries the row's emotion when it
      has a non-empty one and N/A otherwise, and shows the confidence exactly when it is
      given and non-zero (a zero confidence prints as N/A too). */
  lemma CsvRowRules(r: Row)
    ensures var line := CsvRow(r);
      && line.timestamp == r.timestamp && line.employeeId == r.employeeId
      && (line.status == "Present" <==> r.isPresent != 0)
      && (line.status == "Not Present" <==> r.isPresent == 0)
      && (r.emotion.Some? && r.emotion.value != "" ==> line.emotion == r.emotion.value)
      && (r.emotion.None? || r.emotion.value == "" ==> line.emotion == "N/A")
      && (line.confidence.Percent? <==> r.confidence.Some? && r.confidence.value != 0.0)
      && (line.confidence.Percent? ==> line.confidence.value == r.confidence.value)
  {
  }

  /** The loop writing the detailed detection log, one line per row in window order. */
  method WriteDetectionLog(detections: seq<Row>) returns (lines: seq<CsvLine>)
    ensures |lines| == |detections|
    ensures forall i :: 0 <= i < |detections| ==> lines[i] == CsvRow(detections[i])
  {
    lines := [];
    var i := 0;
    while i < |detections|
      invariant 0 <= i <= |detections|
      invariant |lines| == i
      invariant forall k :: 0 <= k < i ==> lines[k] == CsvRow(detections[k])
    {
      lines := lines + [CsvRow(detections[i])];
      i := i + 1;
    }
  }

  /** The loop writing the emotion distribution: capitalised label and count, in the
      dict's order. */
  method WriteDistribution(dist: Counts) returns (lines: seq<(string, nat)>)
    ensures |lines| == |dist|
    ensures forall i :: 0 <= i < |dist| ==> lines[i] == (Capitalize(dist[i].0), dist[i].1)
  {
    lines := [];
    var i := 0;
    while i < |dist|
      invariant 0 <= i <= |dist|
      invariant |lines| == i
      invariant forall k :: 0 <= k < i ==> lines[k] == (Capitalize(dist[k].0), dist[k].1)
    {
      lines := lines + [(Capitalize(dist[i].0), dist[i].1)];
      i := i + 1;
    }
  }

  // ---------------------------------------------------------------------------------------
  // PDF parts

  function Count(e: (string, nat)): int {
    e.1
  }

  function CountKey(e: (string, nat)): real {
    e.1 as real
  }

  /** "Most Frequent Emotion": the capitalised first label of maximal count, or N/A. */
  function MostFrequentEmotion(dist: Counts): (r: string)
    ensures |dist| == 0 ==> r == NotAvailable
    ensures |dist| > 0 ==>
              exists i :: 0 <= i < |dist| && r == Capitalize(dist[i].0)
                          && (forall j :: 0 <= j < |dist| ==> dist[j].1 <= dist[i].1)
                          && (forall j :: 0 <= j < i ==> dist[j].1 < dist[i].1)
  {
    if |dist| == 0 then NotAvailable
    else
      var i := ArgMax(dist, CountKey);
      assert forall j :: 0 <= j < |dist| ==> CountKey(dist[j]) <= CountKey(dist[i]);
      Capitalize(dist[i].0)
  }

  /** A row of the PDF's emotion table. */
  datatype TableRow = TableRow(emotion: string, count: nat, percentage: real)

  /** `count / total * 100 if total > 0 else 0`. */
  function Percentage(count: nat, total: nat): real {
    if total > 0 then count as real / total as real * 100.0 else 0.0
  }

  /** The table rows for entries already in display order. */
  function TableRows(entries: Counts, total: nat): (r: seq<TableRow>)
    ensures |r| == |entries|
    ensures forall i :: 0 <= i < |entries| ==>
              r[i] == TableRow(Capitalize(entries[i].0), entries[i].1,
                               Percentage(entries[i].1, total))
  {
    if |entries| == 0 then []
    else [TableRow(Capitalize(entries[0].0), entries[0].1, Percentage(entries[0].1, total))]
         + TableRows(entries[1..], total)
  }

  /** The emotion table: the entries by non-increasing count, each with its share of all
      counted emotions. */
  function EmotionTable(dist: Counts): seq<TableRow> {
    TableRows(SortDesc(dist, Count), Sum(dist))
  }

  /** Sum of the percentage column. */
  function PercentSum(rows: seq<TableRow>): real {
    if |rows| == 0 then 0.0 else rows[0].percentage + PercentSum(rows[1..])
  }

  /** Counts add up over concatenation. */
  lemma {:induction false} SumAppend(a: Counts, b: Counts)
    ensures Sum(a + b) == Sum(a) + Sum(b)
  {
    if |a| > 0 {
      assert (a + b)[1..] == a[1..] + b;
      SumAppend(a[1..], b);
    } else {
      assert a + b == b;
    }
  }

  /** Reordering the entries keeps their sum. */
  lemma {:induction false} SumPermutation(s: Counts, t: Counts)
    requires multiset(s) == multiset(t)
    ensures Sum(s) == Sum(t)
    decreases |s|
  {
    if |s| > 0 {
      var x := s[0];
      assert x in multiset(t) by { assert x in multiset(s); }
      var j :| 0 <= j < |t| && t[j] == x;
      var t' := t[..j] + t[j + 1..];
      assert t == t[..j] + [x] + t[j + 1..];
      assert s == [x] + s[1..];
      assert multiset(s[1..]) == multiset(t') by {
        forall e ensures multiset(s[1..])[e] == multiset(t')[e] {
          assert multiset(s)[e] == multiset{x}[e] + multiset(s[1..])[e];
          assert multiset(t)[e] == multiset(t[..j])[e] + multiset{x}[e] + multiset(t[j + 1..])[e];
        }
      }
      SumPermutation(s[1..], t');
      SumAppend(t[..j], [x]);
      SumAppend(t[..j] + [x], t[j + 1..]);
      SumAppend(t[..j], t[j + 1..]);
    }
  }

  /** Shares of one total add up. */
  lemma DivAdd(a: real, b: real, t: real)
    requires t > 0.0
    ensures a / t * 100.0 + b / t * 100.0 == (a + b) / t * 100.0
  {
    assert a / t + b / t == (a + b) / t;
  }

  /** With a positive total, the percentages of the rows are their counts' share of it. */
  lemma {:induction false} PercentSumOfRows(entries: Counts, total: nat)
    requires total > 0
    ensures PercentSum(TableRows(entries, total)) == Sum(entries) as real / total as real * 100.0
  {
    if |entries| > 0 {
      PercentSumOfRows(entries[1..], total);
      var c, rest, t := entries[0].1 as real, Sum(entries[1..]) as real, total as real;
      DivAdd(c, rest, t);
    }
  }

  /** The emotion table lists every entry of the distribution once, by non-increasing
      count, each with its capitalised label and its share of the sum of counts. */
  lemma EmotionTableOrder(dist: Counts)
    ensures var sorted := SortDesc(dist, Count);
      var table := EmotionTable(dist);
      && multiset(sorted) == multiset(dist)
      && |table| == |dist|
      && (forall i, j :: 0 <= i < j < |table| ==> table[j].count <= table[i].count)
      && (forall i :: 0 <= i < |table| ==>
            table[i].emotion == Capitalize(sorted[i].0) && table[i].count == sorted[i].1
            && table[i].percentage == Percentage(sorted[i].1, Sum(dist)))
  {
    var sorted := SortDesc(dist, Count);
    var table := EmotionTable(dist);
    forall i, j | 0 <= i < j < |table| ensures table[j].count <= table[i].count {
      assert Count(sorted[j]) <= Count(sorted[i]);
    }
  }

  /** When any emotion was counted, the percentage column adds up to 100. */
  lemma EmotionTablePercentages(dist: Counts)
    requires Sum(dist) > 0
    ensures PercentSum(EmotionTable(dist)) == 100.0
  {
    var sorted := SortDesc(dist, Count);
    var total := Sum(dist);
    SumPermutation(sorted, dist);
    PercentSumOfRows(sorted, total);
    assert EmotionTable(dist) == TableRows(sorted, total);
    WholeIsHundredPercent(total as real);
  }

  lemma WholeIsHundredPercent(t: real)
    requires t > 0.0
    ensures t / t * 100.0 == 100.0
  {
  }

  /** A row of the PDF's detection log. */
  datatype LogRow = LogRow(timestamp: int, status: string, emotion: string,
                           confidence: ConfidenceCell)

  function PdfLogRow(r: Row): LogRow {
    LogRow(r.timestamp, if Present(r) then "Present" else "Absent",
           if r.emotion.Some? && r.emotion.value != "" then Capitalize(r.emotion.value)
           else NotAvailable,
           ConfidenceOf(r.confidence))
  }

  /** `detections[:20]`, one log row each. */
  function PdfLog(detections: seq<Row>): seq<LogRow> {
    var shown := Take(detections, MaxLogRows);
    seq(|shown|, i requires 0 <= i < |shown| => PdfLogRow(shown[i]))
  }

  /** The PDF log shows the first twenty rows of the window, in order, and no more; a row
      says Present or Absent by its presence flag and shows N/A for a missing emotion or a
      missing or zero confidence. */
  lemma PdfLogContract(detections: seq<Row>)
    ensures var log := PdfLog(detections);
      && |log| == (if |detections| < MaxLogRows then |detections| else MaxLogRows)
      && |log| <= 20
      && forall i :: 0 <= i < |log| ==>
           && log[i].timestamp == detections[i].timestamp
           && (log[i].status == "Present" <==> detections[i].isPresent != 0)
           && (log[i].emotion == NotAvailable <==>
                 detections[i].emotion.None? || detections[i].emotion.value == "")
           && (detections[i].emotion.Some? && detections[i].emotion.value != "" ==>
                 log[i].emotion == Capitalize(detections[i].emotion.value))
           && (log[i].confidence.NoConfidence? <==>
                 detections[i].confidence.None? || detections[i].confidence.value == 0.0)
           && (log[i].confidence.Percent? ==>
                 log[i].confidence.value == detections[i].confidence.value)
  {
    var log := PdfLog(detections);
    forall i | 0 <= i < |log| && detections[i].emotion.Some? && detections[i].emotion.value != ""
      ensures log[i].emotion != NotAvailable
    {
      var e := detections[i].emotion.value;
      if |e| == 3 {
        assert Capitalize(e)[2] == Lower(e[2]) != 'A';
      }
    }
  }

  // ---------------------------------------------------------------------------------------
  // The endpoints

  datatype CsvReport = CsvReport(
    summary: Summary,
    distribution: seq<(string, nat)>,
    log: seq<CsvLine>)

  datatype PdfReport = PdfReport(
    employeeId: string,
    summary: Summary,
    mostFrequent: string,
    table: seq<TableRow>,
    log: seq<LogRow>)

  /** `export_csv`: always answers, even for an empty window. */
  method ExportCsv(rows: seq<Row>, employeeId: string, now: int, days: int)
    returns (report: CsvReport)
    ensures var w := ExportWindow(rows, employeeId, now, days);
      && report.summary == Summarize(w)
      && |report.distribution| == |report.summary.emotionDistribution|
      && (forall i :: 0 <= i < |report.distribution| ==>
            report.distribution[i] == (Capitalize(report.summary.emotionDistribution[i].0),
                                       report.summary.emotionDistribution[i].1))
      && |report.log| == |w|
      && forall i :: 0 <= i < |w| ==> report.log[i] == CsvRow(w[i])
  {
    var detections := ExportWindow(rows, employeeId, now, days);
    var summary := CsvAnalytics(detections);
    var distribution := WriteDistribution(summary.emotionDistribution);
    var log := WriteDetectionLog(detections);
    report := CsvReport(summary, distribution, log);
  }

  /** `export_pdf`: a 404 for an empty window, the report otherwise. */
  method ExportPdf(rows: seq<Row>, employeeId: string, now: int, days: int)
    returns (r: Result<PdfReport>)
    ensures var w := ExportWindow(rows, employeeId, now, days);
      && (r.Failure? <==> |w| == 0)
      && (r.Failure? ==> r.status == 404)
      && (r.Success? ==>
            var s := Summarize(w);
            r.value == PdfReport(employeeId, s, MostFrequentEmotion(s.emotionDistribution),
                                 EmotionTable(s.emotionDistribution), PdfLog(w)))
  {
    var detections := ExportWindow(rows, employeeId, now, days);
    var analytics := PdfAnalytics(detections);
    if analytics.Failure? {
      return Failure(analytics.status);
    }
    var s := analytics.value;
    r := Success(PdfReport(employeeId, s, MostFrequentEmotion(s.emotionDistribution),
                           EmotionTable(s.emotionDistribution), PdfLog(detections)));
  }
}
