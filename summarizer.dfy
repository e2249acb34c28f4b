/** summarizeMessageContent: condenses a backup report into a fixed-width
    table of (VMID, Name, Status, Time) rows followed by the report's
    totals. */
module Summarizer {
  import opened Text

  const LogsMarker := "Logs"
  const DetailsHeading := "Details"
  const HeaderMarker := "VMID"
  const RunningTimePrefix := "Total running time:"
  const SizePrefix := "Total size:"

  /** One table row: four cells left-justified in columns of 5, 25, 8 and 10
      runes, separated by single spaces. */
  function FormatRow(vmid: string, name: string, status: string, time: string): string {
    PadRight(vmid, 5) + " " + PadRight(name, 25) + " " + PadRight(status, 8) + " " + PadRight(time, 10)
  }

  /** The header row, built with the same layout as the data rows. */
  function Header(): string {
    FormatRow("VMID", "Name", "Status", "Time")
  }

  datatype TotalKind = RunningTime | Size

  /** What one input line contributes to the summary. */
  datatype Line =
    | Stop                                   // the "Logs" section starts: nothing further counts
    | Skip                                   // contributes nothing
    | Total(kind: TotalKind, text: string)   // a totals line, kept verbatim (trimmed)
    | Row(text: string)                      // a formatted data row

  /** The decision the loop body makes for one raw line. */
  function Classify(raw: string): Line {
    Judge(TrimSpace(raw))
  }

  /** The loop body's tests on a trimmed line, in their order. */
  function Judge(line: string): Line {
    if HasPrefix(line, LogsMarker) then Stop
    else if |line| == 0 || line == DetailsHeading || Contains(line, HeaderMarker) then Skip
    else if HasPrefix(line, RunningTimePrefix) then Total(RunningTime, line)
    else if HasPrefix(line, SizePrefix) then Total(Size, line)
    else
      var columns := Fields(line);
      if |columns| < 4 then Skip
      else Row(FormatRow(columns[0], columns[1], columns[2], columns[3]))
  }

  /** A line that opens the "Logs" section. */
  predicate IsStop(raw: string) {
    HasPrefix(TrimSpace(raw), LogsMarker)
  }

  /** The verdict on every line, in order. */
  function Verdicts(lines: seq<string>): (r: seq<Line>)
    ensures |r| == |lines|
  {
    if lines == [] then []
    else Verdicts(lines[..|lines| - 1]) + [Classify(lines[|lines| - 1])]
  }

  /** The verdicts before the first Stop: what the loop sees before it breaks. */
  function BeforeLogs(verdicts: seq<Line>): seq<Line> {
    if verdicts == [] || verdicts[0].Stop? then []
    else [verdicts[0]] + BeforeLogs(verdicts[1..])
  }

  /** No verdict says that the "Logs" section has started. */
  predicate NoStop(verdicts: seq<Line>) {
    verdicts == [] || (NoStop(verdicts[..|verdicts| - 1]) && !verdicts[|verdicts| - 1].Stop?)
  }

  function RowOf(verdict: Line): seq<string> {
    if verdict.Row? then [verdict.text] else []
  }

  /** The data rows, in input order. */
  function Rows(verdicts: seq<Line>): seq<string> {
    if verdicts == [] then []
    else Rows(verdicts[..|verdicts| - 1]) + RowOf(verdicts[|verdicts| - 1])
  }

  predicate IsTotal(verdict: Line, kind: TotalKind) {
    verdict.Total? && verdict.kind == kind
  }

  /** The text of the last totals line of the given kind, or "" when there is none. */
  function LastTotal(verdicts: seq<Line>, kind: TotalKind): string {
    if verdicts == [] then ""
    else if IsTotal(verdicts[|verdicts| - 1], kind) then verdicts[|verdicts| - 1].text
    else LastTotal(verdicts[..|verdicts| - 1], kind)
  }

  /** `lines` followed by `total`, unless no total was captured. */
  function WithTotal(lines: seq<string>, total: string): seq<string> {
    if total != "" then lines + [total] else lines
  }

  /** The output lines for the verdicts the loop took in: the header, the
      data rows, one blank line, then the captured totals, running time
      first. */
  function Render(verdicts: seq<Line>): seq<string> {
    [Header()] + WithTotal(WithTotal(Rows(verdicts) + [""], LastTotal(verdicts, RunningTime)), LastTotal(verdicts, Size))
  }

  /** The output lines for the given input lines. */
  function OutputLines(lines: seq<string>): seq<string> {
    Render(BeforeLogs(Verdicts(lines)))
  }

  /** The summary of a report, as a value. */
  function Summary(data: string): string {
    Join(OutputLines(Split(data)))
  }

  /** One more verdict extends the rows and totals by what it contributes. */
  lemma TakeOneMore(verdicts: seq<Line>, verdict: Line)
    ensures NoStop(verdicts + [verdict]) <==> NoStop(verdicts) && !verdict.Stop?
    ensures Rows(verdicts + [verdict]) == Rows(verdicts) + RowOf(verdict)
    ensures LastTotal(verdicts + [verdict], RunningTime) ==
      if IsTotal(verdict, RunningTime) then verdict.text else LastTotal(verdicts, RunningTime)
    ensures LastTotal(verdicts + [verdict], Size) ==
      if IsTotal(verdict, Size) then verdict.text else LastTotal(verdicts, Size)
  {
    assert (verdicts + [verdict])[..|verdicts|] == verdicts;
  }

  /** Verdicts are taken line by line, so they distribute over concatenation. */
  lemma {:induction false} VerdictsAppend(a: seq<string>, b: seq<string>)
    ensures Verdicts(a + b) == Verdicts(a) + Verdicts(b)
    decreases |b|
  {
    if b == [] {
      assert a + b == a;
    } else {
      var front := b[..|b| - 1];
      assert a + b == (a + front) + [b[|b| - 1]];
      assert (a + b)[..|a + b| - 1] == a + front;
      VerdictsAppend(a, front);
    }
  }

  /** One more line, one more verdict. */
  lemma VerdictsStep(lines: seq<string>, i: nat)
    requires i < |lines|
    ensures Verdicts(lines[..i + 1]) == Verdicts(lines[..i]) + [Classify(lines[i])]
  {
    assert lines[..i + 1][..i] == lines[..i];
  }

  /** The cut at the first Stop of a concatenation: inside the front part
      if it holds a Stop, otherwise the whole front part and the cut of the
      back part. */
  lemma {:induction false} BeforeLogsAppend(a: seq<Line>, b: seq<Line>)
    ensures |BeforeLogs(a)| <= |a|
    ensures BeforeLogs(a + b) == if |BeforeLogs(a)| < |a| then BeforeLogs(a) else a + BeforeLogs(b)
  {
    if a == [] {
      assert a + b == b;
    } else {
      assert (a + b)[0] == a[0];
      assert (a + b)[1..] == a[1..] + b;
      BeforeLogsAppend(a[1..], b);
    }
  }

  /** Without a Stop, nothing is cut. */
  lemma {:induction false} NoStopKeepsAll(verdicts: seq<Line>)
    requires NoStop(verdicts)
    ensures BeforeLogs(verdicts) == verdicts
  {
    if verdicts != [] {
      var front := verdicts[..|verdicts| - 1];
      var last := verdicts[|verdicts| - 1];
      NoStopKeepsAll(front);
      BeforeLogsAppend(front, [last]);
      assert verdicts == front + [last];
    }
  }

  /** A loop that sees no Stop among the first `i` verdicts and stops at
      verdict `i` has seen exactly the verdicts before the first Stop. */
  lemma CutAt(verdicts: seq<Line>, i: nat)
    requires i <= |verdicts| && NoStop(verdicts[..i])
    requires i == |verdicts| || verdicts[i].Stop?
    ensures BeforeLogs(verdicts) == verdicts[..i]
  {
    var front, back := verdicts[..i], verdicts[i..];
    assert verdicts == front + back;
    NoStopKeepsAll(front);
    BeforeLogsAppend(front, back);
  }

  /** The verdict on line `i` is the `i`-th verdict. */
  lemma {:induction false} VerdictsAt(lines: seq<string>, i: nat)
    requires i < |lines|
    ensures Verdicts(lines)[i] == Classify(lines[i])
  {
    if i < |lines| - 1 {
      VerdictsAt(lines[..|lines| - 1], i);
    }
  }

  /** The verdicts on a prefix of the lines are a prefix of the verdicts. */
  lemma VerdictsPrefix(lines: seq<string>, i: nat)
    requires i <= |lines|
    ensures Verdicts(lines)[..i] == Verdicts(lines[..i])
  {
    assert lines == lines[..i] + lines[i..];
    VerdictsAppend(lines[..i], lines[i..]);
  }

  /** A loop that sees no Stop among the verdicts on the first `i` lines
      and stops at line `i` has seen exactly the verdicts before the first
      Stop. */
  lemma VerdictsCut(lines: seq<string>, i: nat)
    requires i <= |lines| && NoStop(Verdicts(lines[..i]))
    requires i == |lines| || Classify(lines[i]).Stop?
    ensures BeforeLogs(Verdicts(lines)) == Verdicts(lines[..i])
  {
    VerdictsPrefix(lines, i);
    if i < |lines| {
      VerdictsAt(lines, i);
    }
    CutAt(Verdicts(lines), i);
  }

  /** The body of the loop of summarizeMessageContent for one raw line:
      either the line opens the "Logs" section and the loop stops, or the
      accumulators take in what the line contributes. `seen` is the verdict
      on every line taken so far. */
  method TakeLine(raw: string, ghost seen: seq<Line>,
                  cleanedLines: seq<string>, totalRunningTime: string, totalSize: string)
    returns (stop: bool, cleaned: seq<string>, runningTime: string, size: string)
    requires cleanedLines == Rows(seen)
    requires totalRunningTime == LastTotal(seen, RunningTime) && totalSize == LastTotal(seen, Size)
    ensures stop <==> Classify(raw).Stop?
    ensures stop ==> cleaned == cleanedLines && runningTime == totalRunningTime && size == totalSize
    ensures !stop ==>
      var now := seen + [Classify(raw)];
      cleaned == Rows(now) && runningTime == LastTotal(now, RunningTime) && size == LastTotal(now, Size)
  {
    stop, cleaned, runningTime, size := false, cleanedLines, totalRunningTime, totalSize;
    TakeOneMore(seen, Classify(raw));
    var line := TrimSpace(raw);
    if HasPrefix(line, LogsMarker) {
      stop := true;
      return;
    }
    if |line| == 0 {
      return;
    }
    if line == DetailsHeading {
      return;
    }
    if Contains(line, HeaderMarker) {
      return;
    }
    if HasPrefix(line, RunningTimePrefix) {
      runningTime := line;
      return;
    }
    if HasPrefix(line, SizePrefix) {
      size := line;
      return;
    }
    var columns := Fields(line);
    if |columns| < 4 {
      return;
    }
    columns := columns[..4];
    var cleanedLine := FormatRow(columns[0], columns[1], columns[2], columns[3]);
    cleaned := cleaned + [cleanedLine];
  }

  /** The loop of summarizeMessageContent: one pass over the lines that
      stops at the "Logs" section, collects the formatted rows in order and
      keeps the latest line of each kind of total. */
  method CleanLines(lines: seq<string>)
    returns (cleanedLines: seq<string>, totalRunningTime: string, totalSize: string)
    ensures var verdicts := BeforeLogs(Verdicts(lines));
      && cleanedLines == Rows(verdicts)
      && totalRunningTime == LastTotal(verdicts, RunningTime)
      && totalSize == LastTotal(verdicts, Size)
  {
    cleanedLines, totalRunningTime, totalSize := [], "", "";
    ghost var seen: seq<Line> := [];
    var i := 0;
    while i < |lines|
      invariant i <= |lines| && seen == Verdicts(lines[..i]) && NoStop(seen)
      invariant cleanedLines == Rows(seen)
      invariant totalRunningTime == LastTotal(seen, RunningTime)
      invariant totalSize == LastTotal(seen, Size)
    {
      var stop;
      stop, cleanedLines, totalRunningTime, totalSize :=
        TakeLine(lines[i], seen, cleanedLines, totalRunningTime, totalSize);
      if stop {
        break;
      }
      VerdictsStep(lines, i);
      seen := seen + [Classify(lines[i])];
      i := i + 1;
    }
    VerdictsCut(lines, i);
  }

  /** summarizeMessageContent: the header, the cleaned rows, a blank line and
      the captured totals, joined with newlines. */
  method Summarize(data: string) returns (summary: string)
    ensures summary == Summary(data)
  {
    var lines := Split(data);
    var cleanedLines, totalRunningTime, totalSize := CleanLines(lines);
    cleanedLines := cleanedLines + [""];
    if totalRunningTime != "" {
      cleanedLines := cleanedLines + [totalRunningTime];
    }
    if totalSize != "" {
      cleanedLines := cleanedLines + [totalSize];
    }
    var header := FormatRow("VMID", "Name", "Status", "Time");
    summary := Join([header] + cleanedLines);
  }
}
