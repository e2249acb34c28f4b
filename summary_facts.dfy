/** What summarizeMessageContent promises about its output: where the
    report is cut, which lines vanish, and how rows and totals are laid
    out. */
module SummaryFacts {
  import opened Text
  import opened Summarizer

  /** A line that opens the "Logs" section is exactly a line whose verdict
      is Stop. */
  lemma ClassifyStop(raw: string)
    ensures Classify(raw).Stop? <==> IsStop(raw)
  {
  }

  /** The verdicts on lines around one line. */
  lemma VerdictsAround(pre: seq<string>, x: string, post: seq<string>)
    ensures Verdicts(pre + [x] + post) == Verdicts(pre) + [Classify(x)] + Verdicts(post)
  {
    VerdictsAppend(pre + [x], post);
    VerdictsAppend(pre, [x]);
    assert Verdicts([x]) == Verdicts([]) + [Classify(x)];
  }

  /** Whatever follows a Stop is cut off. */
  lemma StopCuts(a: seq<Line>, b: seq<Line>)
    ensures BeforeLogs(a + [Stop] + b) == BeforeLogs(a)
  {
    assert a + [Stop] + b == a + ([Stop] + b);
    BeforeLogsAppend(a, [Stop] + b);
    if |BeforeLogs(a)| == |a| {
      BeforeLogsAppend(a, []);
      assert a + [] == a;
    }
  }

  /** A line whose verdict is Skip adds no row and changes no total. */
  lemma {:induction false} SkipIsNeutral(a: seq<Line>, b: seq<Line>)
    ensures Rows(a + [Skip] + b) == Rows(a + b)
    ensures LastTotal(a + [Skip] + b, RunningTime) == LastTotal(a + b, RunningTime)
    ensures LastTotal(a + [Skip] + b, Size) == LastTotal(a + b, Size)
    decreases |b|
  {
    if b == [] {
      assert a + [Skip] + b == a + [Skip];
      assert a + b == a;
      TakeOneMore(a, Skip);
    } else {
      var front := b[..|b| - 1];
      var last := b[|b| - 1];
      assert a + [Skip] + b == (a + [Skip] + front) + [last];
      assert a + b == (a + front) + [last];
      SkipIsNeutral(a, front);
      TakeOneMore(a + [Skip] + front, last);
      TakeOneMore(a + front, last);
    }
  }

  /** Where the cut falls around a Skip verdict: inside the part before it,
      or after it, with the Skip kept. */
  lemma SkipCut(a: seq<Line>, b: seq<Line>)
    ensures || BeforeLogs(a + [Skip] + b) == BeforeLogs(a + b)
            || (BeforeLogs(a + [Skip] + b) == a + [Skip] + BeforeLogs(b) && BeforeLogs(a + b) == a + BeforeLogs(b))
  {
    assert a + [Skip] + b == a + ([Skip] + b);
    BeforeLogsAppend(a, [Skip] + b);
    BeforeLogsAppend(a, b);
    if |BeforeLogs(a)| == |a| {
      assert ([Skip] + b)[1..] == b;
      assert a + BeforeLogs([Skip] + b) == a + [Skip] + BeforeLogs(b);
    }
  }

  /** Wherever it stands, a Skip verdict leaves the rendered output as it
      would be without it. */
  lemma SkipVanishes(a: seq<Line>, b: seq<Line>)
    ensures Render(BeforeLogs(a + [Skip] + b)) == Render(BeforeLogs(a + b))
  {
    SkipCut(a, b);
    SkipIsNeutral(a, BeforeLogs(b));
  }

  /** Nothing from the first "Logs" line on reaches the summary: whatever
      follows such a line, the output is that of the lines before it. */
  lemma LogsEndsTheReport(pre: seq<string>, x: string, post: seq<string>)
    requires IsStop(x)
    ensures OutputLines(pre + [x] + post) == OutputLines(pre)
  {
    ClassifyStop(x);
    VerdictsAround(pre, x, post);
    StopCuts(Verdicts(pre), Verdicts(post));
  }

  /** A line the loop skips can be removed from the report without changing
      the output, wherever it stands. */
  lemma SkippedLineVanishes(pre: seq<string>, x: string, post: seq<string>)
    requires Classify(x) == Skip
    ensures OutputLines(pre + [x] + post) == OutputLines(pre + post)
  {
    VerdictsAround(pre, x, post);
    VerdictsAppend(pre, post);
    SkipVanishes(Verdicts(pre), Verdicts(post));
  }

  /** A cell padded to its column, with the separating space, is the cell
      followed by spaces. */
  lemma PaddedCell(cell: string, width: nat) returns (gap: string)
    ensures PadRight(cell, width) + " " == cell + gap
    ensures gap != [] && AllSpace(gap)
  {
    PadRightShape(cell, width);
    var padded := PadRight(cell, width);
    gap := padded[|cell|..] + " ";
    assert padded == cell + padded[|cell|..];
    BlankIsSpace(padded[|cell|..]);
  }

  /** The last cell padded to its column is the cell followed by spaces. */
  lemma PaddedLastCell(cell: string, width: nat) returns (tail: string)
    ensures PadRight(cell, width) == cell + tail
    ensures AllSpace(tail)
  {
    PadRightShape(cell, width);
    var padded := PadRight(cell, width);
    tail := padded[|cell|..];
    assert padded == cell + tail;
    BlankIsSpace(tail);
  }

  /** Four words separated by runs of spaces split back into those words. */
  lemma {:induction false} FieldsOfFourWords(a: string, g1: string, b: string, g2: string,
                                             c: string, g3: string, d: string, tail: string)
    requires a != [] && NoSpace(a) && b != [] && NoSpace(b) && c != [] && NoSpace(c) && d != [] && NoSpace(d)
    requires g1 != [] && AllSpace(g1) && g2 != [] && AllSpace(g2) && g3 != [] && AllSpace(g3) && AllSpace(tail)
    ensures Fields((a + g1) + (b + g2) + (c + g3) + (d + tail)) == [a, b, c, d]
  {
    var r4 := d + tail + [];
    var r3 := c + g3 + r4;
    var r2 := b + g2 + r3;
    assert (a + g1) + (b + g2) + (c + g3) + (d + tail) == a + g1 + r2;
    FieldsOfWord(d, tail, []);
    assert Fields([]) == [];
    FieldsOfWord(c, g3, r4);
    FieldsOfWord(b, g2, r3);
    FieldsOfWord(a, g1, r2);
  }

  /** Splitting a formatted row into fields gives back its four cells: the
      padding never glues two cells together nor splits one. */
  lemma FormatRowFields(vmid: string, name: string, status: string, time: string)
    requires vmid != [] && NoSpace(vmid) && name != [] && NoSpace(name)
    requires status != [] && NoSpace(status) && time != [] && NoSpace(time)
    ensures Fields(FormatRow(vmid, name, status, time)) == [vmid, name, status, time]
  {
    var g1 := PaddedCell(vmid, 5);
    var g2 := PaddedCell(name, 25);
    var g3 := PaddedCell(status, 8);
    var tail := PaddedLastCell(time, 10);
    assert FormatRow(vmid, name, status, time) ==
      (PadRight(vmid, 5) + " ") + (PadRight(name, 25) + " ") + (PadRight(status, 8) + " ") + PadRight(time, 10);
    FieldsOfFourWords(vmid, g1, name, g2, status, g3, time, tail);
  }

  /** Where the cells of four padded columns of widths `w1`..`w4`,
      separated by single spaces, start. */
  lemma ColumnsAt(p1: string, p2: string, p3: string, p4: string,
                  a: string, b: string, c: string, d: string, w1: nat, w2: nat, w3: nat, w4: nat)
    requires a <= p1 && b <= p2 && c <= p3 && d <= p4
    requires |p1| == w1 && |p2| == w2 && |p3| == w3 && |p4| == w4
    ensures var row := p1 + " " + p2 + " " + p3 + " " + p4;
      && |row| == w1 + w2 + w3 + w4 + 3
      && row[..|a|] == a
      && row[w1 + 1..w1 + 1 + |b|] == b
      && row[w1 + w2 + 2..w1 + w2 + 2 + |c|] == c
      && row[w1 + w2 + w3 + 3..w1 + w2 + w3 + 3 + |d|] == d
  {
    var row := p1 + " " + p2 + " " + p3 + " " + p4;
    assert row == p1 + (" " + (p2 + (" " + (p3 + (" " + p4)))));
    assert row[..|a|] == p1[..|a|];
    assert row[w1 + 1..w1 + 1 + |b|] == p2[..|b|];
    assert row[w1 + w2 + 2..w1 + w2 + 2 + |c|] == p3[..|c|];
    assert row[w1 + w2 + w3 + 3..w1 + w2 + w3 + 3 + |d|] == p4[..|d|];
  }

  /** The layout of a row of cells that fit their columns: 51 runes, with
      the cells starting at runes 0, 6, 32 and 41, as `%-5s %-25s %-8s
      %-10s` lays them out. */
  lemma FormatRowColumns(vmid: string, name: string, status: string, time: string)
    requires |vmid| <= 5 && |name| <= 25 && |status| <= 8 && |time| <= 10
    ensures var row := FormatRow(vmid, name, status, time);
      && |row| == 51
      && row[..|vmid|] == vmid
      && row[6..6 + |name|] == name
      && row[32..32 + |status|] == status
      && row[41..41 + |time|] == time
  {
    PadRightShape(vmid, 5);
    PadRightShape(name, 25);
    PadRightShape(status, 8);
    PadRightShape(time, 10);
    ColumnsAt(PadRight(vmid, 5), PadRight(name, 25), PadRight(status, 8), PadRight(time, 10),
              vmid, name, status, time, 5, 25, 8, 10);
  }

  /** Formatting the first four of a line's words and splitting the row
      again gives those four words back. */
  lemma FirstFourWords(columns: seq<string>)
    requires |columns| >= 4 && forall f :: f in columns ==> f != [] && NoSpace(f)
    ensures Fields(FormatRow(columns[0], columns[1], columns[2], columns[3])) == columns[..4]
  {
    assert columns[0] in columns && columns[1] in columns && columns[2] in columns && columns[3] in columns;
    FormatRowFields(columns[0], columns[1], columns[2], columns[3]);
    assert columns[..4] == [columns[0], columns[1], columns[2], columns[3]];
  }

  /** A row line keeps the first four of its fields, and splitting the
      formatted row gives exactly those four back. */
  lemma RowKeepsFirstFourFields(raw: string)
    requires Classify(raw).Row?
    ensures var columns := Fields(TrimSpace(raw));
      |columns| >= 4 && Fields(Classify(raw).text) == columns[..4]
  {
    FieldsAreWords(TrimSpace(raw));
    FirstFourWords(Fields(TrimSpace(raw)));
  }

  /** The prefix that marks a totals line of the given kind. */
  function TotalPrefix(kind: TotalKind): string {
    match kind
    case RunningTime => RunningTimePrefix
    case Size => SizePrefix
  }

  /** A line is captured as a total of a kind exactly when, trimmed, it
      starts with that kind's prefix and does not mention "VMID"; the total
      is the trimmed line itself. */
  lemma TotalIsTrimmedLine(raw: string, kind: TotalKind)
    ensures var line := TrimSpace(raw);
      Classify(raw) == Total(kind, line) <==> HasPrefix(line, TotalPrefix(kind)) && !Contains(line, HeaderMarker)
    ensures Classify(raw).Total? ==> Classify(raw).text == TrimSpace(raw)
  {
    var line := TrimSpace(raw);
    if HasPrefix(line, TotalPrefix(kind)) {
      assert line[..|TotalPrefix(kind)|] == TotalPrefix(kind);
      assert line[0] == 'T';
      assert !HasPrefix(line, LogsMarker);
      assert line != DetailsHeading;
      if kind == Size {
        assert line[6] == 's';
        assert !HasPrefix(line, RunningTimePrefix);
      }
    }
  }

  /** The lines the loop drops before looking for totals or rows: empty
      lines, the "Details" heading and any line that mentions "VMID" (a
      totals line among them). */
  predicate Dropped(raw: string) {
    var line := TrimSpace(raw);
    !HasPrefix(line, LogsMarker) && (line == [] || line == DetailsHeading || Contains(line, HeaderMarker))
  }

  /** A line too short to be a row: not a totals line, and fewer than four
      fields. */
  predicate TooShort(raw: string) {
    var line := TrimSpace(raw);
    && !HasPrefix(line, LogsMarker)
    && !HasPrefix(line, RunningTimePrefix) && !HasPrefix(line, SizePrefix)
    && |Fields(line)| < 4
  }

  /** Dropped lines and lines too short to be rows leave no trace in the
      output, wherever they stand. */
  lemma DroppedLinesVanish(pre: seq<string>, x: string, post: seq<string>)
    requires Dropped(x) || TooShort(x)
    ensures OutputLines(pre + [x] + post) == OutputLines(pre + post)
  {
    assert Classify(x) == Skip;
    SkippedLineVanishes(pre, x, post);
  }

  /** Without a totals line of its kind, LastTotal is "". */
  lemma {:induction false} LastTotalNone(verdicts: seq<Line>, kind: TotalKind)
    requires forall j :: 0 <= j < |verdicts| ==> !IsTotal(verdicts[j], kind)
    ensures LastTotal(verdicts, kind) == ""
  {
    if verdicts != [] {
      var front := verdicts[..|verdicts| - 1];
      assert forall j :: 0 <= j < |front| ==> front[j] == verdicts[j];
      LastTotalNone(front, kind);
    }
  }

  /** LastTotal is the text of the latest totals line of its kind: a later
      line of the same kind overrides an earlier one. */
  lemma {:induction false} LastTotalIsLatest(verdicts: seq<Line>, kind: TotalKind, j: nat)
    requires j < |verdicts| && IsTotal(verdicts[j], kind)
    requires forall k :: j < k < |verdicts| ==> !IsTotal(verdicts[k], kind)
    ensures LastTotal(verdicts, kind) == verdicts[j].text
  {
    if j < |verdicts| - 1 {
      var front := verdicts[..|verdicts| - 1];
      assert forall k :: j < k < |front| ==> front[k] == verdicts[k];
      LastTotalIsLatest(front, kind, j);
    }
  }
}
