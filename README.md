# pve-to-discord, modelled in Dafny

pve-to-discord relays Proxmox VE notifications to a Discord webhook. A
request carries a report (`messageContent`), a title, the public base URL of
the saved logs and the Discord webhook to post to. There are two outcomes:

- A short report whose title is not a backup job's (`vzdump`) is posted
  whole inside a code block.
- Any other report is saved to disk and condensed by
  `summarizeMessageContent`. The condensed form is a fixed-width table of
  VMID, Name, Status and Time rows, followed by the report's totals. The
  embed then carries that summary and a link to the saved log.

This project models that core:

- `text.dfy` (module `Text`): the parts of Go's `strings` and `fmt` that the
  relay uses, stated over strings of Unicode scalar values (Go runes):
  - `Split` and `Join` on `"\n"`;
  - `TrimSpace` with Go's `unicode.IsSpace` set;
  - `Fields`, `HasPrefix` and `Contains`;
  - the `%-Ns` padding;
  - the UTF-8 byte length that Go's `len` returns.
- `summarizer.dfy` (module `Summarizer`): `summarizeMessageContent`.
  - Its loop is the method `CleanLines`, and the loop body is `TakeLine`.
    `Summarize` does the splitting, the blank line, the totals, the header
    and the join, as the Go function does.
  - Each method is proved against a specification function. `Classify`
    gives the verdict on one line: Stop, Skip, Total or Row. `BeforeLogs`
    cuts the verdicts at the first "Logs" line. `Rows`, `LastTotal` and
    `Render` give the output.
- `summary_facts.dfy` (module `SummaryFacts`):
  - where the report is cut;
  - which lines vanish;
  - how rows are laid out and split back into their cells;
  - which lines become totals, and which total is kept.
- `output_facts.dfy` (module `OutputFacts`): the summary splits back into its
  output lines, and it always starts with the 51-rune header row. So the
  `len(summary) > 1` test always holds.
- `notification.dfy` (module `Notification`): the inline-or-summarise
  decision, the embed description and the Discord payload with its fixed
  branding.
- `logfile.dfy` (module `LogFile`): the `YYYY-MM-DD.HH-MM-SS.log` name a
  report is saved under, with a parser and round-trip lemmas.

Three facts about the code are worth stating up front:

- The embed colour is hard-coded. The code never fills in or reads
  `Severity` and always sends colour `"15036416"`.
  `Notification.BuildPayload` does the same.
- The 4096 inline threshold is compared with Go's `len`, which counts
  UTF-8 bytes, not characters. The model uses `Utf8Length`.
- The code has a branch that posts only the link when the summary is
  shorter than 2 bytes. `Notification.Description` keeps that branch as
  written, but `OutputFacts.SummaryStartsWithHeader` proves it is dead.

## Model

| member | source | states |
|---|---|---|
| Text.Utf8Length | main.go:87 | the byte length `len` measures is at least the rune count and at most four times it |
| Text.TrimSpaceSlice | main.go:183 | `strings.TrimSpace` returns a contiguous slice of the line with only spaces cut from both ends, and the result neither starts nor ends with a space |
| Text.TrimSpaceSingleLine | main.go:183 | trimming a line without newline gives a line without newline |
| Text.FieldsAreWords | main.go:216 | every field `strings.Fields` returns is non-empty and holds no space |
| Text.FieldsOfWord | main.go:216 | a word followed by a run of spaces is the first field, and the remaining fields come from the rest |
| Text.PadRightShape | main.go:227-228 | `%-Ns` keeps the cell whole at the front, pads with ' ' to N runes, and never truncates a longer cell |
| Text.SplitSingleLines | main.go:174 | no piece of `strings.Split(data, "\n")` holds a newline |
| Text.JoinSplit | main.go:174 | joining the pieces of a split with "\n" gives the data back |
| Text.SplitJoin | main.go:249 | splitting a "\n"-join of newline-free lines gives the lines back |
| Summarizer.TakeLine | main.go:182-231 | one loop iteration: it stops exactly on a "Logs" line and leaves the accumulators alone; otherwise rows and totals become those of the verdicts seen so far plus this line's |
| Summarizer.CleanLines | main.go:176-232 | the loop yields the rows of every line before the first "Logs" line, in order, and the last running-time and size totals among them ("" when none) |
| Summarizer.Summarize | main.go:173-253 | the returned text is the header, the rows, a blank line and the captured totals, joined by newlines: `Summary(data)` |
| Summarizer.TakeOneMore | main.go:206-231 | one more line appends its row, if any, and overrides the total of its kind |
| Summarizer.BeforeLogsAppend | main.go:186-188 | the cut at the first "Logs" line of two concatenated parts falls in the first part if it has such a line, else after the whole first part |
| Summarizer.VerdictsCut | main.go:186-188 | a loop that met no "Logs" line before index i and stops at i has seen exactly the lines before the first "Logs" line |
| Summarizer.VerdictsAppend | main.go:181-183 | lines are judged one at a time, so verdicts distribute over concatenation |
| SummaryFacts.ClassifyStop | main.go:186-188 | a line stops the loop exactly when, trimmed, it starts with "Logs" |
| SummaryFacts.StopCuts | main.go:186-188 | whatever follows a stop verdict never reaches the output |
| SummaryFacts.LogsEndsTheReport | main.go:186-188 | the output for lines pre + [a "Logs" line] + post equals the output for pre alone |
| SummaryFacts.SkipIsNeutral | main.go:191-203 | a skipped line adds no row and changes no total |
| SummaryFacts.SkipVanishes | main.go:191-203 | a skip verdict anywhere leaves the rendered output as it would be without it |
| SummaryFacts.SkippedLineVanishes | main.go:191-203 | removing a skipped line from the report, wherever it stands, leaves the output unchanged |
| SummaryFacts.DroppedLinesVanish | main.go:191-221 | empty lines, "Details", any line containing "VMID" (a totals line among them), and non-total lines with fewer than four fields leave no trace in the output |
| SummaryFacts.FormatRowFields | main.go:227-228 | splitting a formatted row into fields gives back exactly its four cells |
| SummaryFacts.FormatRowColumns | main.go:227-228 | a row of cells that fit their columns is 51 runes long, with the cells at runes 0, 6, 32 and 41 |
| SummaryFacts.FirstFourWords | main.go:216-228 | formatting a line's first four fields and splitting the row again gives those four fields |
| SummaryFacts.RowKeepsFirstFourFields | main.go:216-231 | a row comes from a line with at least four fields, and its fields are that line's first four |
| SummaryFacts.TotalIsTrimmedLine | main.go:201-213 | a line is captured as a total of a kind exactly when, trimmed, it starts with that kind's prefix and does not contain "VMID"; the total is the trimmed line |
| SummaryFacts.LastTotalNone | main.go:206-213 | without a totals line of its kind, the captured total stays "" |
| SummaryFacts.LastTotalIsLatest | main.go:206-213 | the captured total is the latest totals line of its kind |
| SummaryFacts.PaddedCell | main.go:227-228 | a padded cell followed by the separator is the cell followed by a non-empty run of spaces |
| OutputFacts.FormatRowSingleLine | main.go:227-228 | a row of newline-free cells has no newline |
| OutputFacts.ClassifySingleLine | main.go:183-228 | a newline-free input line yields a newline-free row or total |
| OutputFacts.RenderSingleLines | main.go:235-246 | the header, rows, blank line and totals are all newline-free |
| OutputFacts.OutputSingleLines | main.go:174-246 | every output line for the pieces of a split is newline-free |
| OutputFacts.SummaryLines | main.go:235-249 | the summary splits back into header, rows, one blank line and the captured totals (running time first), so it has 2 + rows + totals lines |
| OutputFacts.SummaryStartsWithHeader | main.go:246-249 | the summary starts with the header row and a newline, so `len(summary) > 1` always holds (main.go:100) |
| Notification.InlineDescription | main.go:87-88 | a report that fits is posted as "```" + report + "```", and the report can be read back from it |
| Notification.SummarisedDescription | main.go:89-104 | a report that does not fit is described by "```" + summary + "``` You can find the detailed log [here](" + base URL + file name + ")", which opens with the header row; the link-only branch at line 103 is dead |
| Notification.InlineThreshold | main.go:87 | 4096 runes or more is always summarised; fewer than 1024 runes with a non-backup title is always inlined |
| Notification.BackupIsSummarised | main.go:87 | a title containing "vzdump" always leads to the summary |
| Notification.PayloadShape | main.go:83-132 | the payload has username "Ordis", empty content and one embed, with the request's title, the description, colour "15036416", author "Proxmox VE" with the Proxmox icon, and footer "Ordis via pvetodiscord" |
| Notification.PayloadInputs | main.go:76-132 | the payload depends only on report, title and log link: never on the webhook URL or severity; an inlined report does not depend on the link at all |
| LogFile.Decimal | main.go:164 | a numeric time field is written as digits, at least as wide as its layout field |
| LogFile.DecimalValue | main.go:164 | the digits written for a number read back as that number |
| LogFile.DecimalWidth | main.go:164 | a number below 10^w takes exactly w digits |
| LogFile.DigitsDecimal | main.go:164 | a run of digits written back at its own width is the same run, leading zeros included |
| LogFile.ParseFileNameOfFileName | main.go:163-164 | a valid time's file name is 23 runes and parses back to that time |
| LogFile.FileNameOfParsed | main.go:164 | a name that parses is exactly the file name of the time it parses to |
| LogFile.FileNameInjective | main.go:164 | two different valid times never get the same file name |

## Left out

- The HTTP server, routing, static file serving and middleware (main.go:18-33). This is framework plumbing.
- JSON decoding of the request (main.go:68-81). A missing or non-string field makes the Go type assertion panic; the model takes the decoded fields as a `Request` value.
- JSON encoding of the payload, the POST to Discord and the relay of its response (main.go:134-159). This is network I/O. The code also dereferences a nil response when the POST fails (main.go:149); that path is not modelled.
- The clock and the disk write in `saveLogToDisk` (main.go:162-171).
  - The file name is an input of `Notification.Description`.
  - `LogFile.FileName` gives its layout for a time passed in.
  - A failed write is logged, and the error text is also written to the caller as a 400 response (main.go:94-97). The handler then carries on and posts to Discord. That response path is left out together with the rest of the relay.
- Go's time formatting code (`time.Format`) is not part of this model. `LogFile.FormatInt` follows its documented behaviour for numeric fields: zero padding to the field width, and a leading minus for negative values.
- LogFile.ParseFileNameOfFileName: the round trip is stated for years 0 to 9999 only. Outside that range Go writes more than four year digits or a minus sign, and the name is not 23 runes long.
- The `count` handler (main.go:255-265). It only lists a directory.
- Logging calls throughout. They have no effect on results.
- Strings are sequences of Unicode scalar values. Go strings holding invalid UTF-8 are not modelled; for them `TrimSpace`, `Fields` and `len` would see replacement runes or raw bytes.
