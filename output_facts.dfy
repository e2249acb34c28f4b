/** The shape of the text summarizeMessageContent returns: every output
    line stays one line, so the summary splits back into the header, the
    rows, the blank line and the totals; and it always opens with the
    header row. */
module OutputFacts {
  import opened Text
  import opened Summarizer
  import opened SummaryFacts

  /** Padding a line keeps it on one line. */
  lemma PaddedSingleLine(s: string, width: nat)
    requires SingleLine(s)
    ensures SingleLine(PadRight(s, width))
  {
    PadRightShape(s, width);
    var p := PadRight(s, width);
    assert p == s + p[|s|..];
    BlankIsSpace(p[|s|..]);
    SingleLineConcat(s, p[|s|..]);
  }

  /** A row built from cells without '\n' has no '\n'. */
  lemma FormatRowSingleLine(vmid: string, name: string, status: string, time: string)
    requires SingleLine(vmid) && SingleLine(name) && SingleLine(status) && SingleLine(time)
    ensures SingleLine(FormatRow(vmid, name, status, time))
  {
    var p1, p2, p3, p4 := PadRight(vmid, 5), PadRight(name, 25), PadRight(status, 8), PadRight(time, 10);
    PaddedSingleLine(vmid, 5);
    PaddedSingleLine(name, 25);
    PaddedSingleLine(status, 8);
    PaddedSingleLine(time, 10);
    SingleLineConcat(p1, " ");
    SingleLineConcat(p1 + " ", p2);
    SingleLineConcat(p1 + " " + p2, " ");
    SingleLineConcat(p1 + " " + p2 + " ", p3);
    SingleLineConcat(p1 + " " + p2 + " " + p3, " ");
    SingleLineConcat(p1 + " " + p2 + " " + p3 + " ", p4);
  }

  /** The text a verdict carries into the output, if any, is one line. */
  predicate TextOnOneLine(verdict: Line) {
    (verdict.Row? || verdict.Total?) ==> SingleLine(verdict.text)
  }

  predicate AllOnOneLine(verdicts: seq<Line>) {
    forall j :: 0 <= j < |verdicts| ==> TextOnOneLine(verdicts[j])
  }

  /** A line without '\n' yields a row or a total without '\n'. */
  lemma ClassifySingleLine(raw: string)
    requires SingleLine(raw)
    ensures TextOnOneLine(Classify(raw))
  {
    var line := TrimSpace(raw);
    TrimSpaceSingleLine(raw);
    if Classify(raw).Row? {
      var columns := Fields(line);
      FieldsAreWords(line);
      assert columns[0] in columns && columns[1] in columns && columns[2] in columns && columns[3] in columns;
      NoSpaceIsSingleLine(columns[0]);
      NoSpaceIsSingleLine(columns[1]);
      NoSpaceIsSingleLine(columns[2]);
      NoSpaceIsSingleLine(columns[3]);
      FormatRowSingleLine(columns[0], columns[1], columns[2], columns[3]);
    }
  }

  lemma {:induction false} VerdictsSingleLine(lines: seq<string>)
    requires forall l :: l in lines ==> SingleLine(l)
    ensures AllOnOneLine(Verdicts(lines))
  {
    if lines != [] {
      var front := lines[..|lines| - 1];
      assert forall l :: l in front ==> l in lines;
      VerdictsSingleLine(front);
      assert lines[|lines| - 1] in lines;
      ClassifySingleLine(lines[|lines| - 1]);
    }
  }

  lemma {:induction false} BeforeLogsSingleLine(verdicts: seq<Line>)
    requires AllOnOneLine(verdicts)
    ensures AllOnOneLine(BeforeLogs(verdicts))
  {
    if verdicts != [] && !verdicts[0].Stop? {
      BeforeLogsSingleLine(verdicts[1..]);
      var cut := BeforeLogs(verdicts);
      assert cut == [verdicts[0]] + BeforeLogs(verdicts[1..]);
      assert forall j :: 1 <= j < |cut| ==> cut[j] == BeforeLogs(verdicts[1..])[j - 1];
    }
  }

  lemma {:induction false} RowsSingleLine(verdicts: seq<Line>)
    requires AllOnOneLine(verdicts)
    ensures forall r :: r in Rows(verdicts) ==> SingleLine(r)
    ensures SingleLine(LastTotal(verdicts, RunningTime)) && SingleLine(LastTotal(verdicts, Size))
  {
    if verdicts != [] {
      var front := verdicts[..|verdicts| - 1];
      assert AllOnOneLine(front) by {
        assert forall j :: 0 <= j < |front| ==> front[j] == verdicts[j];
      }
      RowsSingleLine(front);
      assert TextOnOneLine(verdicts[|verdicts| - 1]);
    }
  }

  /** Rendering verdicts whose texts are single lines gives single lines. */
  lemma RenderSingleLines(verdicts: seq<Line>)
    requires AllOnOneLine(verdicts)
    ensures forall l :: l in Render(verdicts) ==> SingleLine(l)
  {
    RowsSingleLine(verdicts);
    FormatRowSingleLine("VMID", "Name", "Status", "Time");
    var withBlank := Rows(verdicts) + [""];
    var withTime := WithTotal(withBlank, LastTotal(verdicts, RunningTime));
    var all := WithTotal(withTime, LastTotal(verdicts, Size));
    assert forall l :: l in withBlank ==> SingleLine(l);
    assert forall l :: l in withTime ==> SingleLine(l);
    assert forall l :: l in all ==> SingleLine(l);
  }

  /** No output line holds a '\n'. */
  lemma OutputSingleLines(lines: seq<string>)
    requires forall l :: l in lines ==> SingleLine(l)
    ensures forall l :: l in OutputLines(lines) ==> SingleLine(l)
  {
    VerdictsSingleLine(lines);
    BeforeLogsSingleLine(Verdicts(lines));
    RenderSingleLines(BeforeLogs(Verdicts(lines)));
  }

  /** The summary splits back into its output lines: the header, one line
      per row, one blank line, then one line per captured total, running
      time first. */
  lemma SummaryLines(data: string)
    ensures Split(Summary(data)) == OutputLines(Split(data))
    ensures var verdicts := BeforeLogs(Verdicts(Split(data)));
      |Split(Summary(data))| == 2 + |Rows(verdicts)|
        + (if LastTotal(verdicts, RunningTime) != "" then 1 else 0)
        + (if LastTotal(verdicts, Size) != "" then 1 else 0)
  {
    SplitSingleLines(data);
    OutputSingleLines(Split(data));
    SplitJoin(OutputLines(Split(data)));
  }

  /** The summary always starts with the 51-rune header row and a newline,
      so it is never shorter than 52 bytes. */
  lemma SummaryStartsWithHeader(data: string)
    ensures HasPrefix(Summary(data), Header() + "\n")
    ensures Utf8Length(Summary(data)) > 1
  {
    FormatRowColumns("VMID", "Name", "Status", "Time");
    var out := OutputLines(Split(data));
    assert out[0] == Header() && |out| >= 2;
    assert Summary(data) == Header() + "\n" + Join(out[1..]);
  }
}
