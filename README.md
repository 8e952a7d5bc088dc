# Key-value terminal printer, modelled in Dafny

This project models the key-value printer of the `log` package in `tui.go`. It has four parts:

- `NewTUI` makes a printer that keeps an `slog.Leveler`.
- `TUI.Debug`, `Info`, `Warn` and `Error` print only when the configured threshold is at or below their slog severity (-4, 0, 4, 8).
- `kvParse` splits the flat argument list `k1, v1, k2, v2, ...` into keys and values and refuses an odd count.
- `printTUI` prints a header line `"<time> <icon> <msg>"` followed by one row group per pair, in input order. The layout works like this:
  - The width is the terminal's reported width, or 80 when that is 0.
  - `longestKey` is the longest untrimmed key in bytes.
  - `longestValueThatFits` is the longest trimmed value among those for which `12 + longestKey + len(value) <= width`.
  - A pair whose trimmed value passes that same test is printed as an aligned row `"%*s| %-*s | %-*s |"`.
  - Any other pair is printed as an overflow block: a key line `"%*s| %-*s |"`, then the trimmed value on its own line.

Modelling choices:

- **Strings.** Go strings are byte sequences (`Bytes.Bytes`), because `len` counts bytes.
- **Padding.** Go's `fmt` pads `%*s` and `%-*s` to a width counted in runes. `Utf8.RuneCount` follows Go's UTF-8 decoder, including its treatment of invalid bytes. As a result, every inline row has the same number of runes: `12 + longestKey + longestValueThatFits + 7`. The byte lengths agree only when the cells are ASCII. `Layout.InlineRowsAlignedAscii` proves that case separately.
- **Width cap.** Go's `fmt` refuses a `*` width above 1,000,000: it writes `%!(BADWIDTH)` and then the argument without padding (`Fmt.PadRight`, `Fmt.PadLeft`). The alignment lemmas therefore hold for columns up to that cap. `Layout.KeyColumnTooWide` states what a longer key makes the printer write.
- **Trimming.** `strings.TrimSpace` strips the complete UTF-8 encodings of Unicode white-space runes from both ends (`Trim`).
- **Argument formatting.** Each argument is taken as the text `%v` gives it.
- **Output.** It is the sequence of lines written, in order (`Layout.Render`). The imperative loops of `kvParse` and `printTUI` are methods (`Fields.KvParse`, `Layout.MeasureKeys`, `Layout.MeasureValues`, `Layout.EmitRows`, `Layout.PrintTUI`). Each is proved equal to a specification function, and the properties are proved about those functions.

What the code does, and the model keeps:

- On an odd argument count, `kvParse` returns empty keys and values. `printTUI` then prints the diagnostic, then the header, then no rows.
- The check that keys and values have equal length can never fire, in either function. Both checks are kept as branches whose unreachability is proved.
- The fit test does not count the seven delimiter characters. An inline row can therefore be up to seven columns wider than the terminal, and no lemma claims otherwise.

## Model

| member | source | states |
|---|---|---|
| Fields.FieldKeys | tui.go:139-145 | the keys are the arguments at even positions, one per pair, in input order |
| Fields.FieldValues | tui.go:139-145 | the values are the arguments at odd positions, one per pair, in input order |
| Fields.InterleaveSplit | tui.go:139-145 | interleaving the keys and values of an even argument list gives that list back |
| Fields.SplitInterleave | tui.go:139-145 | splitting the interleaving of equally long keys and values gives both back |
| Fields.KvParse | tui.go:133-150 | error iff the count is odd, with empty keys and values and the count in the error; otherwise the even and odd arguments in order, equally many, which interleave back to the input; the length-mismatch error is unreachable |
| Utf8.RuneCount | tui.go:92-96 | the number of runes the width verbs count: at most the byte length, at least one for non-empty text |
| Utf8.AsciiRuneCount | tui.go:92-96 | ASCII text has as many runes as bytes |
| Utf8.RuneCountConcat | tui.go:92-96 | rune counts add up across a seam next to an ASCII byte |
| Fmt.PadRight | tui.go:94-95 | `%-*s` never truncates; for a width up to 1,000,000 it keeps the text as a prefix, follows it only with spaces, and is exactly max(runes, width) runes wide; above that it is `%!(BADWIDTH)` followed by the bare text |
| Fmt.PadLeft | tui.go:93 | `%*s` never truncates; for a width up to 1,000,000 it ends with the text, precedes it only with spaces, and is exactly max(runes, width) runes wide; above that it is `%!(BADWIDTH)` followed by the bare text |
| Fmt.PadRightAscii | tui.go:94-95 | ASCII text padded to a width between its own length and 1,000,000 is the text followed by exactly the missing spaces |
| Trim.LeftCut | tui.go:77 | the number of leading bytes trimmed: never more than the text, and 0 exactly when the text does not begin with a white-space rune |
| Trim.RightCut | tui.go:77 | the number of trailing bytes trimmed: never more than the text, and 0 exactly when the text does not end with a white-space rune |
| Trim.LeftCutStops | tui.go:77 | the left cut stops at the first byte that does not begin a white-space rune |
| Trim.RightCutStops | tui.go:77 | the right cut stops at the last byte that does not end a white-space rune |
| Trim.LeftCutIsSpace | tui.go:77 | the bytes the left cut drops are a sequence of whole white-space runes |
| Trim.RightCutIsSpace | tui.go:77 | the bytes the right cut drops are a sequence of whole white-space runes |
| Trim.TrimSpace | tui.go:77 | trimming never lengthens the text |
| Trim.TrimSpaceTrims | tui.go:87-88 | the trimmed text is a contiguous slice of the input that neither begins nor ends with a white-space rune |
| Trim.TrimSpaceKeeps | tui.go:87-88 | text with no white space at either end is unchanged |
| Trim.TrimSpaceIdempotent | tui.go:77 | trimming twice gives the same as trimming once |
| Layout.Diagnostic | tui.go:47-49 | the diagnostic line is ASCII: errTuiFail's text, `": "`, then errInvalidFields' text, and nothing else |
| Layout.Header | tui.go:52-53 | the header is the time, a space, the icon, a space and the message, in that order and nothing else |
| Layout.TermInfo | tui.go:153-158 | the terminal size, or (0, 0) when the size query fails |
| Layout.EffectiveWidth | tui.go:63-67 | the width is never 0: the reported width, or 80 in place of 0 |
| Layout.WidthFallback | tui.go:63-67 | a failed size query leads to width 80; a non-zero reported width is used as is |
| Layout.LongestKey | tui.go:69-74 | an upper bound on every untrimmed key length, attained by some key, 0 when there are no keys |
| Layout.MeasureKeys | tui.go:69-74 | the loop computes exactly LongestKey |
| Layout.LongestValueThatFits | tui.go:75-83 | 0 without values; when positive, indent, key column and value column together fit the width |
| Layout.LongestValueThatFitsSnoc | tui.go:75-83 | proof helper, the definition's recursive case unfolded at `values + [v]`: a further value raises the value column only when it fits and its trimmed length exceeds the column so far |
| Layout.LongestValueThatFitsIsMax | tui.go:75-83 | the longest trimmed value among those that fit, attained by a fitting value, 0 when none fits |
| Layout.MeasureValues | tui.go:75-83 | the loop computes exactly the longest value that fits |
| Layout.NonFittingValueIgnored | tui.go:78-82 | inserting a value that does not fit, anywhere, leaves the value column unchanged |
| Layout.InlineRow | tui.go:92-96 | an inline row is never shorter than the indent, both cells and the seven delimiter bytes: nothing is truncated |
| Layout.KeyLine | tui.go:99-101 | a key line is never shorter than the indent, the key and the four delimiter bytes |
| Layout.InlineRowRunes | tui.go:92-96 | an inline row with cells no wider than their columns, and columns no wider than 1,000,000, is indent + key column + value column + 7 runes wide |
| Layout.InlineRowAscii | tui.go:92-96 | with ASCII cells and columns up to 1,000,000 an inline row is 12 spaces, `"\| "`, the key and the spaces filling its column, `" \| "`, the value and its fill, `" \|"`, and its byte length is 12 + both columns + 7 |
| Layout.KeyLineRunes | tui.go:99-101 | an overflow key line with a key column up to 1,000,000 is indent + key column + 4 runes wide |
| Layout.KeyLineBadWidth | tui.go:99-101 | with a key column above 1,000,000 the key line is the indent, `"\| "`, `%!(BADWIDTH)`, the bare key and `" \|"` |
| Layout.Group | tui.go:86-105 | a pair's group is inline exactly when its trimmed value fits beside the key column, and an overflow block carries the trimmed value |
| Layout.Groups | tui.go:86-105 | one group per pair, in input order, each the group of its own pair |
| Layout.Plan | tui.go:86-105 | exactly one row group per pair |
| Layout.InlineIffFits | tui.go:86-105 | a pair is inline iff its trimmed value fits beside the longest key; an inline row shows the trimmed key and value padded to the two columns; an overflow block is the trimmed key's line and then the trimmed value verbatim |
| Layout.InlineRowsAligned | tui.go:80-96 | on a terminal at most 1,000,000 columns wide, every inline row's key is no longer than the key column and its value no longer than the value column, so all inline rows have the same rune width: 12 + longestKey + longestValueThatFits + 7 |
| Layout.InlineRowsAlignedAscii | tui.go:80-96 | on such a terminal and with ASCII cells all inline rows also have that same byte length |
| Layout.OverflowKeyAligned | tui.go:97-103 | an overflow block's trimmed key fits the key column, and, when the key column is at most 1,000,000 wide, its key line ends where the key column of the inline rows ends |
| Layout.KeyColumnTooWide | tui.go:97-103 | a longest key above 1,000,000 bytes on a terminal no wider than 12 + 1,000,000 columns makes every pair overflow, each key line holding `%!(BADWIDTH)` and the bare key |
| Layout.FitBoundary | tui.go:64-91 | at the default 80 columns with a 6-byte longest key, a 62-byte trimmed value is inline and a 63-byte one overflows |
| Layout.LinesLength | tui.go:86-105 | one line per inline pair and two per overflow block |
| Layout.LinesAppend | tui.go:86-105 | the lines of consecutive groups are the lines of the first groups followed by those of the rest |
| Layout.LinesAround | tui.go:86-105 | rows print in input order: a pair's lines come after those of the pairs before it and before those of the pairs after it |
| Layout.Render | tui.go:45-106 | an odd count prints the diagnostic and then the header, nothing else; an even count prints the header first and at least one line per pair |
| Layout.RenderEven | tui.go:58-105 | proof helper for `PrintTUI`, `Render`'s even branch written out: on an even count the header is followed by exactly the lines of the row groups |
| Layout.RenderShape | tui.go:45-106 | an odd count prints the diagnostic and the header only; no arguments print the header only; an even count prints the header first and then 1 + pairs + overflow-blocks lines in all |
| Layout.EmitRows | tui.go:86-105 | the row loop writes exactly the lines of the row groups, in order |
| Layout.PrintTUI | tui.go:45-106 | the lines written are exactly Render: the diagnostic on an odd count, the header, then the row groups; the second length check never fires |
| Tui.NewTUI | tui.go:38-43 | the printer keeps the options' level and no error is returned |
| Tui.GateAsWritten | tui.go:108-130 | as written, a gate panics iff the level is a nil Leveler, and otherwise prints iff the threshold is at or below the severity |
| Tui.ZeroOptionsPanic | tui.go:114-118 | a printer made from zero options panics, as written, on an Info call |
| Tui.Threshold | tui.go:108-130 | the threshold in force: the Leveler's level, or Info for a nil Leveler |
| Tui.CorrectedGate | tui.go:108-130 | the corrected gate agrees with the written one wherever that one does not panic, and lets a nil Leveler print from Info upwards |
| Tui.GateMonotone | tui.go:108-130 | if a call at one severity prints, every call at a higher severity prints |
| Tui.GateChain | tui.go:108-130 | Debug < Info < Warn < Error, and each entry point printing implies the next one prints |
| Tui.TUI.Debug | tui.go:108-112 | prints Render with the Debug icon iff the threshold is at most -4, else nothing |
| Tui.TUI.Info | tui.go:114-118 | prints Render with the Info icon iff the threshold is at most 0, else nothing |
| Tui.TUI.Warn | tui.go:120-124 | prints Render with the Warn icon iff the threshold is at most 4, else nothing |
| Tui.TUI.Error | tui.go:126-130 | prints Render with the Error icon iff the threshold is at most 8, else nothing |

## Left out

- spinner.go is not part of this model. It is a goroutine with a context, a wait group and sleeps, so it is concurrency.
- log.go is not part of this model. It only configures an external slog handler.
- `TUI.Table` (tui.go:163-224) is left out. It is built on runtime reflection over arbitrary structs.
- The terminal size query `term.GetSize` is a foreign call. `Layout.TermInfo` takes its result as an input, and `Layout.PrintTUI` takes the reported width.
- The wall-clock timestamp `time.Now().Format("15:04:05")` is an input (`now`).
- `%v` formatting of non-string arguments is left out. Arguments are given as their formatted text.
- The writes to standard output are modelled as the sequence of `Println`/`Printf` lines, one element per line the code ends with a newline. Text that holds line breaks of its own (the message, the time, a key, an inline or an overflow value) stays one element, although the terminal shows several lines. `Layout.RenderShape` and `Layout.LinesLength` count these elements, not terminal lines.
- `iconRun` is not used by the printer.
- A `slog.LevelVar` whose level changes between calls is left out. The level is a fixed threshold.
- Go's `int` is 64-bit. The sums `12 + longestKey + len(value)` are modelled as unbounded integers, because they stay far below 2^63 for any text that fits in memory.
- Trim.TrimSpace: its own contract only bounds the length. That it returns a slice neither beginning nor ending with white space, and keeps text without such white space, is stated by `Trim.TrimSpaceTrims` and `Trim.TrimSpaceKeeps`. That the dropped bytes are whole white-space runes is stated by `Trim.LeftCutIsSpace` and `Trim.RightCutIsSpace`.

## Findings

| source | as written | input that shows it | evidently intended | confidence | as-written member | corrected member |
|---|---|---|---|---|---|---|
| tui.go:108-130 | each gate calls `t.level.Level()`, but `NewTUI` copies `opts.Level` unchanged, and that is nil in zero `slog.HandlerOptions` | `NewTUI(slog.HandlerOptions{})` followed by `Info("m")` calls a method on a nil interface, which panics | slog's own convention: a nil Level means `LevelInfo` | not executed; high | Tui.GateAsWritten, Tui.ZeroOptionsPanic | Tui.Threshold, Tui.CorrectedGate |

The printer's entry points (`Tui.TUI.Debug` and the others) use the corrected gate. For every non-nil Leveler this is exactly the written behaviour.
