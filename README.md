# UWB serial plotter: line protocol and series buffer

This project models the core of the `MainWindow` of a desktop plotter for an
ultra-wideband ranging device. The reader thread hands over chunks of serial
text. `handle_serial_data` appends each chunk to `input_buffer`. It then splits
off every complete line and strips it. Blank lines are skipped. A line
containing `Received OEM App Command:` raises a tray notice with the command.
A line matching `Anchor\s+(\d+)\s+Distance\s+(\S+):\s+([\d\.]+)` adds a sample
to the series `(anchor_id, type_str)` in `plot_data`. Such a series is created
on first sight in the anchor's colour. It numbers its samples 1, 2, 3, … and
keeps only the last `windowSizeSlider.value()` of them. Moving the slider
trims every series. `clear_plot` drops every series. `stop_serial` discards the
unterminated text.

Layout:

- `Strings.dfy`: the pieces of Python's `str` the protocol uses.
  - `strip()` and `strip("\r")`, over the `str.isspace` set.
  - `in`, the first index of a character (`IndexOf`), and `int` of ASCII digits.
  - The regex classes `\s`, `\S` and `\d`.
- `AnchorPattern.dfy`: the anchor regex.
  - A deterministic matcher at one position, proved sound and complete.
  - The leftmost search of `re.search`.
  - `float` on the distance token.
- `OemNotice.dfy`: the command carried after the OEM marker.
- `SeriesStore.dfy`: `plot_data` as a map from `(anchor id, type)` to a series.
  - The append with trim, and the trim on resize.
  - The series invariant: aligned lists, at most `window` long, numbered consecutively up to `count`.
- `LineHandling.dfy`: what one stripped, non-blank line does, as a function of the store.
- `LineProtocol.dfy`: the loop of `handle_serial_data` as a function `Drain` of the buffer and the store.
  - `split("\n", 1)` and the `strip` of each line.
  - Its relation to the lines of the buffer.
  - Independence from chunk boundaries.
- `Plotter.dfy`: the class `MainWindow`.
  - Fields `inputBuffer`, `plotData` and `windowSize`.
  - Its methods work in place, with the loops of the source.
  - Each method is proved against the functions above.

Observable effects are modelled as a sequence of events:
- the tray notification (`Notified`)
- a point added to a curve (`Plotted`)
- the debug print for an unmatched line (`Unmatched`)

## Model

| member | source | states |
|---|---|---|
| Strings.Strip | plotter.py:193-194 | `str.strip`: the result is the slice of the input that leaves only stripped characters outside it and none at its ends |
| Strings.StripIdempotent | plotter.py:193-194 | stripping an already stripped line changes nothing |
| Strings.StripCRThenSpace | plotter.py:193-194 | `strip("\r")` followed by `strip()` equals `strip()` alone |
| Strings.FindFrom | plotter.py:200 | the first occurrence of a substring at or after a position, and no occurrence before it |
| Strings.Contains | plotter.py:200 | `marker in line` holds exactly when the marker occurs at some index of the line |
| Strings.IndexOf | plotter.py:192 | the cut point of `split("\n", 1)`: an index holding the character, with no earlier occurrence |
| Strings.IndexOfAppend | plotter.py:191-192 | the first newline of the buffer stays the first one when more text is appended |
| Strings.NatValue | plotter.py:206 | `int` of a string of ASCII digits, read in base ten with the most significant digit first; `NatValueAppend` and `NatValueLeadingZero` state its laws |
| Strings.NatValueLeadingZero | plotter.py:206 | `int` of the anchor digits ignores leading zeros |
| Strings.NatValueAppend | plotter.py:206 | `int(w + f)` is `int(w) * 10 ** len(f) + int(f)` for digit strings |
| Strings.CountAppend | plotter.py:208 | the number of dots in a token is additive over concatenation |
| AnchorPattern.Matches | plotter.py:204 | the meaning of the pattern at given group boundaries: `Anchor`, whitespace, digits, whitespace, `Distance`, whitespace, non-space characters up to a `:`, whitespace, then digits and dots; the matcher and the search are proved against it |
| AnchorPattern.MatchAt | plotter.py:204 | a match found at a position fits the pattern there, and its distance token cannot be extended |
| AnchorPattern.MatchAtComplete | plotter.py:204 | every fit of the pattern at a position is found there, with the same groups up to the greedy token |
| AnchorPattern.HeadAtComplete | plotter.py:204 | the `Anchor\s+(\d+)\s+` part of any fit is the one the matcher finds |
| AnchorPattern.TailAtComplete | plotter.py:204 | the `Distance\s+(\S+):\s+([\d\.]+)` part of any fit is found, with the longest token |
| AnchorPattern.Search | plotter.py:204 | `re.search`: a match at the first position where the pattern fits, and no fit before it |
| AnchorPattern.SearchIsLeftmost | plotter.py:204 | if the pattern fits anywhere, the search succeeds no later than that position |
| AnchorPattern.ParseFloat | plotter.py:208 | `float` accepts a digits-and-dots token exactly when it has at most one dot and at least one digit; the value is not negative |
| AnchorPattern.ParseFloatValue | plotter.py:208 | the value of `float`: a token of digits `w` is `int(w)`, and `w.f` is the integer of all its digits divided by ten to the number of fractional digits |
| AnchorPattern.DecimalValue | plotter.py:208 | the whole part plus the fraction scaled down equals all the digits scaled down once |
| AnchorPattern.ParseAnchorLine | plotter.py:204-208 | a reading has a non-empty whitespace-free type and a non-negative distance; a rejected token is digits and dots with several dots or no digit |
| AnchorPattern.ParseUsesLeftmostGreedyMatch | plotter.py:204-208 | the parse is `int` of group 1, group 2 and `float` of group 3 of the leftmost match |
| AnchorPattern.GreedyMatchIsFound | plotter.py:204 | a fit whose token is maximal is exactly what the matcher returns at its position |
| AnchorPattern.NoMatchMeansNoMatchAnywhere | plotter.py:204-205 | a line reported as unmatched has no fit of the pattern at any position |
| AnchorPattern.ExampleReading | plotter.py:204-208 | `Anchor 3 Distance RAW: 4.20` is a reading of 4.2 for anchor 3, type `RAW` |
| OemNotice.OemPayload | plotter.py:246-251 | a notice needs the marker in the line; its command is non-empty and stripped |
| OemNotice.PayloadAfterFirstMarker | plotter.py:248-251 | the command is the stripped text after the first marker, and there is none when that text is blank |
| SeriesStore.ColorOf | plotter.py:86-93 | anchors 1-5 get `r g b m y`, and anchor 6 gets black `k` from the table; any unlisted anchor gets `k` too, the default of the `.get` at plotter.py:163 |
| SeriesStore.ColorsDistinct | plotter.py:86-93 | anchors 1-5 have colours no other anchor has |
| SeriesStore.NewSeries | plotter.py:155-163 | the entry `init_anchor_data` creates: no samples, count 0, and the anchor's colour |
| SeriesStore.Last | plotter.py:221-225 | `xs[-n:]` is the suffix of `xs` of length `min(len(xs), n)` |
| SeriesStore.LastOfLast | plotter.py:221-225 | trimming before more samples arrive and trimming again is one trim of everything |
| SeriesStore.Trim | plotter.py:221-225 | a trim keeps the count and colour and leaves at most `window` samples |
| SeriesStore.TrimKeepsLatest | plotter.py:221-225 | a trim keeps the last `window` sample numbers and distances, and a series that fits is unchanged |
| SeriesStore.Append | plotter.py:215-225 | the count goes up by one; the last sample number is the new count and the last distance the new value |
| SeriesStore.AppendKeepsLatest | plotter.py:215-225 | after a sample the distances are the last `window` of the old distances followed by the new one |
| SeriesStore.AppendValid | plotter.py:215-225 | appending keeps the lists aligned, within the window and numbered consecutively up to the count |
| SeriesStore.TrimValid | plotter.py:388-391 | trimming a valid series to a new window makes it valid for that window |
| SeriesStore.TrimIdempotent | plotter.py:388-391 | trimming twice to one window is trimming once |
| SeriesStore.AppendAllValid | plotter.py:215-225 | after any number of samples the count has grown by that number and the series is still valid |
| SeriesStore.AppendAllKeepsLatest | plotter.py:215-225 | after any number of samples a series holds the last `window` distances ever received, oldest evicted first |
| SeriesStore.ResizeAll | plotter.py:384-392 | resizing keeps the same keys |
| SeriesStore.ResizeIdempotent | plotter.py:384-392 | resizing to the same window twice is resizing once |
| SeriesStore.ResizeValid | plotter.py:384-392 | after a resize every series is valid for the new window |
| SeriesStore.StoreUpdateValid | plotter.py:211-225 | replacing one series by a valid one keeps every series valid |
| LineHandling.Effect | plotter.py:203-239 | what a line does once the notice is shown and the pattern is tried: no match adds the debug report and leaves the store alone; a number `float` rejects fails before the store is touched; a reading creates its series if new, appends to it and reports the point |
| LineHandling.LineEffect | plotter.py:199-239 | one stripped, non-blank line: the notice of its command, then the `Effect` of its anchor parse |
| LineHandling.NoticeEvents | plotter.py:200-201 | a line raises at most one notice, exactly when it carries a non-empty command, and the notice shows that command |
| LineHandling.SeriesFor | plotter.py:211-213 | a reading goes to the existing series of its key; for a new key, to a series with no points, count 0 and the anchor's colour |
| LineHandling.FailsOnlyOnBadNumber | plotter.py:204-208 | handling a line fails exactly when the pattern matches and `float` rejects the token |
| LineHandling.NoticeComesFirst | plotter.py:199-208 | the notice of a line comes before everything else it causes, even when `float` then fails |
| LineHandling.NoticeDoesNotStopParse | plotter.py:199-205 | whether a notice was raised does not change what the line does to the store |
| LineHandling.CommandAndReadingBothTakeEffect | plotter.py:199-228 | a line with both a command and a reading shows the notice, then appends the reading and draws it: the events are the notice followed by the point, and the store is the appended one |
| LineHandling.OnlyReadingsChangeTheStore | plotter.py:204-239 | a line that is not a reading leaves `plot_data` unchanged |
| LineHandling.ReadingAppendsToItsSeries | plotter.py:210-219 | a reading adds its key if new, in the anchor's colour; it adds one to the count, ends the lists with the new number and distance, and leaves every other series alone |
| LineHandling.ReadingIsReported | plotter.py:215-226 | a reading is drawn after the notice, with sample number one more than the previous count |
| LineHandling.EffectKeepsStoreValid | plotter.py:210-225 | handling a line keeps every series valid |
| LineHandling.LineEffectKeepsStoreValid | plotter.py:199-239 | the same, for the line as handled |
| LineHandling.ClearRestartsIndex | plotter.py:313-316 | after `clear_plot` the first reading of any key is sample 1 |
| LineProtocol.Clean | plotter.py:193-194 | `line.strip("\r").strip()` |
| LineProtocol.CleanIsStrip | plotter.py:193-194 | the cleaned line is `line.strip()` |
| LineProtocol.SplitFirst | plotter.py:192 | `split("\n", 1)`: the part before the first newline, which contains none, and the rest |
| LineProtocol.SplitFirstAppend | plotter.py:188-192 | splitting off the first line is not affected by text appended later |
| LineProtocol.Lines | plotter.py:191-192 | the complete lines and the unterminated tail rebuild the buffer, and none of them holds a newline |
| LineProtocol.Passed | plotter.py:193-197 | every line handed on is non-blank and is `Clean` of one of the lines split off, and there are no more of them than lines split off |
| LineProtocol.PassedAreStripped | plotter.py:193-197 | every line handed on is non-blank and has no whitespace at either end |
| LineProtocol.Drain | plotter.py:188-197 | the remaining buffer is a suffix of the old one, and it holds no newline unless a line failed |
| LineProtocol.DrainMatchesLines | plotter.py:188-197 | the loop runs the handler over the stripped non-blank lines in order, stops at a failure, and otherwise keeps exactly the unterminated tail |
| LineProtocol.StepKeepsOutcome | plotter.py:191-197 | one turn of the loop does not change where the loop ends |
| LineProtocol.ChunkBoundaryIrrelevant | plotter.py:182-197 | as long as no line of the first chunk failed, feeding two chunks one after the other gives the same buffer, store and events as feeding them at once |
| LineProtocol.DrainKeepsStoreValid | plotter.py:188-225 | however many lines a chunk completes, every series stays valid |
| Plotter.MainWindow.constructor | plotter.py:130-132 | slider at its start value 100, with an empty `input_buffer` and an empty `plot_data` (plotter.py lines 69 and 83) |
| Plotter.MainWindow.InitAnchorData | plotter.py:150-163 | adds an empty series for the key in the anchor's colour and changes nothing else |
| Plotter.MainWindow.AddSample | plotter.py:215-225 | the series of the key becomes its `Append`, and the window stays valid |
| Plotter.MainWindow.PlotReading | plotter.py:211-225 | the key's series, created first when new, becomes its `Append` |
| Plotter.MainWindow.ShowOemNotification | plotter.py:241-263 | shows the line's notice, which exists only when the marker is in the line |
| Plotter.MainWindow.HandleLine | plotter.py:199-239 | one stripped line changes the store, reports events and fails exactly as `LineEffect` says |
| Plotter.MainWindow.HandleSerialData | plotter.py:182-239 | buffer, store, events and outcome are those of `Drain` of the old buffer plus the chunk |
| Plotter.MainWindow.TrimSeries | plotter.py:388-391 | one series is trimmed to the new value |
| Plotter.MainWindow.TrimAll | plotter.py:388-391 | the loop over the keys leaves every series trimmed to the new value, as `ResizeAll` says |
| Plotter.MainWindow.UpdateWindowSize | plotter.py:384-392 | the slider takes the value, every series is trimmed to it, and the store stays valid |
| Plotter.MainWindow.ClearPlot | plotter.py:313-316 | no series remain |
| Plotter.MainWindow.StopSerial | plotter.py:307-308 | the unterminated text is dropped, and the series are kept |

## Left out

- The serial port, `SerialReaderThread` and the signal that carries chunks to the window are not modelled. Each chunk is a parameter of `HandleSerialData`.
- The echo of each raw chunk to the terminal widget (plotter.py:185) is display only.
- Qt rendering is not modelled: curves, `setData`, the legend name, `plotWidget.clear()` and `addLegend()`. A curve is represented by its pen colour.
- Tray icon mechanics are modelled as the `Notified` event. The `try`/`except` of `show_oem_notification` is not modelled, since nothing inside it raises on a string.
- CSV logging is not modelled: the write after each reading (plotter.py:231-237), its timestamp (a clock), its mutex, and opening and closing the file in `toggle_logging` (plotter.py:329-369).
- The debug `print` of an unmatched line is modelled as the `Unmatched` event.
- Distances are exact decimals (`real`), not IEEE doubles. `float` on a digits-and-dots token is modelled as exact decimal parsing, with no rounding.
- AnchorPattern.ParseAnchorLine: the anchor id is an unbounded integer. The limit on the length of decimal strings that `int` converts is not modelled. That limit is 4300 digits by default in CPython 3.11 and later, and in the security releases of earlier versions. Above it `int` raises, and that would leave `handle_serial_data` the way a bad `float` does. The model instead plots such a line as a reading.
- `\d` is limited to ASCII digits. Python's `\d` also accepts other Unicode decimal digits, and `int` accepts them too.
- A token `float` rejects (such as `1.2.3` or `.`) makes `float` raise out of `handle_serial_data`. This is modelled as the outcome `ok == false`. Processing stops after that line: its text is already gone from the buffer, and its notice is already shown. What the Qt event loop does with the exception is not modelled.
- Device ids, location updates and region classification are not in this code, so they are not modelled. The code matches only `Anchor <id> Distance <type>: <value>`.
- The code lets a malformed number raise instead of treating the line as unrecognised, and the model follows the code.
- The slider's value is the field `windowSize`. `UpdateWindowSize` both sets it and trims. It requires the value to lie within the slider's range 10-1000, which Qt enforces.
- SeriesStore.Trim: its own contract states only count, colour and length. The kept contents are stated by `TrimKeepsLatest`, to keep proofs that unfold it cheap.
- SeriesStore.Append: its own contract states only the count, the colour and the last entries. The rest of the series is stated by `AppendKeepsLatest` and `AppendValid`.
