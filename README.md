# Aguila SDR core, modelled in Dafny

Aguila SDR is a software-defined-radio front end. It has Qt widgets for the spectrum and the waterfall, a spectrum-capture service, Python helpers that tune the waterfall's dB window, a chat layer that turns natural-language requests into tuning commands, and a set of HackRF transmitter scripts. This project models the sequential logic under that glue and proves what it promises.

One module per source file:

| module | file | what it holds |
|---|---|---|
| `Capture` | `spectrum_capture.dfy` | `SpectrumCapture`, a two-state object (idle or capturing). It has the range validator, the fixed early-return order of `captureRange`, buffer preparation and extraction, and the emitted signals as an appended event log. The receiver is a nullable object whose buffer fills are scripted: a status, values, or an exception. |
| `Waterfall` | `waterfall_display.dfy` | `WaterfallDisplay` has the bounded history of FFT rows (newest first) and `max_history` from the time span. It also has the 256-entry heat map, the clamped dB→colour index, the vertex strip rebuilt from the history, and the axis ticks. |
| `Visualizer` | `spectrum_visualizer.dfy` | `SpectrumVisualizer` keeps the latest frame only. It holds the line vertices and colours, the line and fill paths, and the grid and label loops. |
| `WaterfallOptimizer` | `waterfall_optimizer.dfy` | `calculate_optimal_settings`, the value choice of `optimize_waterfall` over scripted telnet reads, and the CLI's range checks. |
| `DisplayStepping` | `waterfall_display_optimizer.dfy` | `calculate_db_range`, and the write schedule of `test_stepping` with its restore-on-failure path. |
| `ChatCoordinator` | `chat_coordinator.dfy` | The `KEY: value` parser for the model's answer, the unit-aware frequency extractor, and the post-answer branch of `evaluate_request`. |
| `ChatSessions` | `chat_manager.dfy` | `ChatManager`: a map from chat id to a shared history object, with replace, initialise, extend and clear. |
| `Framing` | `framing.dfy` | Shared by the transmitters: MSB-first bit unpacking and its inverse, `format(n, '08b')`, UTF-8 encoding, `int(x)`, and `int(sample_rate / baud_rate)`. |
| `QpskTransmitter`, `OokDataTransmitter`, `OokTransmitter`, `SimpleFsk`, `KevinQpsk`, `SimplePsk`, `NancyQpsk`, `BasicQpsk` | one file each | Each script's packet or bit builder, its bit→symbol mapping and its sample layout. |
| `Wrappers` | `wrappers.dfy` | `Option` and `Result`. |

Floating-point values are exact reals. Python's and C++'s truncating conversions and integer divisions are written out. A complex baseband sample is modelled by its phase in degrees, or by its real value, or by its frequency offset, whichever the script varies. Exceptions become `Result` errors whose messages are Python's own. Clocks, the receiver, the telnet link, the tuning tool and the language model are parameters.

Some members have no row below because they promise nothing of their own; they are checked where they are used.
- Scenario methods replay a concrete run and assert its outcome: `Capture.CaptureScenario`, `Waterfall.SetColorMapIdempotent`, `ChatSessions.SimpleChatScenario`, `ChatSessions.ChatWithHistoryScenario`, `ChatSessions.MultipleSessionsScenario` and `ChatSessions.ClearAndFailScenario`.
  - The four `ChatSessions` scenarios restate the cases of `tests/test_chat_manager.py`.
  - `Capture.CaptureScenario` runs `SpectrumCapture::captureRange` against two concrete receivers, one fast enough and one too slow.
  - `Waterfall.SetColorMapIdempotent` calls `WaterfallDisplay::setColorMap` twice, with different names, and shows the same table results.
- `ChatCoordinator.Evaluate` is the specification function of `evaluate_request` (`resources/chat_coordinator.py:192-251`). `ChatCoordinator.EvaluateRequest` is proved equal to it. Its branches are stated by the rows for `DowngradeWithoutFrequency`, `TunesOnlyWhenAsked`, `ZeroIsNoFrequency` and `PassThrough`.

## Model

| member | source | states |
|---|---|---|
| WaterfallOptimizer.CalculateOptimalSettings | resources/waterfall_optimizer.py:97-143 | the settings dictionary has exactly the keys `max_db` and `min_db` |
| WaterfallOptimizer.RangeIsAlwaysForty | resources/waterfall_optimizer.py:116-122 | with the noise floor taken 30 dB below the peak the SNR is 30, so the range is always 40 dB, inside [30, 48] |
| WaterfallOptimizer.OptimalWindow | resources/waterfall_optimizer.py:97-143 | every window is 40 dB wide and lies inside [-110, -10] dB; when no clamp applies its top is the reference level (peak + 5, lowered by 5 for high gain) |
| WaterfallOptimizer.OptimalWindowClamps | resources/waterfall_optimizer.py:129-135 | a reference above -10 dB gives (-50, -10); one below -70 dB gives (-110, -70) |
| WaterfallOptimizer.DefaultReadings | resources/waterfall_optimizer.py:102-105 | with no readings the defaults (strength -50, gains 20 and 20) give the window (-85, -45) |
| WaterfallOptimizer.HighGainIsStrict | resources/waterfall_optimizer.py:108-114 | the high-gain adjustment applies only above 40 dB of total gain, not at 40 |
| WaterfallOptimizer.OptimizeWaterfall | resources/waterfall_optimizer.py:145-183 | the applied settings have the keys `min_db` and `max_db`, and the last two commands write the minimum, then the maximum |
| WaterfallOptimizer.OptimizeWaterfallChoice | resources/waterfall_optimizer.py:151-170 | both bounds given: they are used as they are and only the two writes are sent; a failed read: the default window (-100, -40); otherwise a 40 dB window inside [-110, -10] after the three reads |
| WaterfallOptimizer.ReadsStopAtFirstFailure | resources/waterfall_optimizer.py:156-167 | the reads stop at the first failure; the reading is complete exactly when all three reads succeed |
| WaterfallOptimizer.CliRequest | resources/waterfall_optimizer.py:191-199 | an error exactly when both bounds are given and form a window narrower than 30 dB; an accepted pair is at least 30 dB wide; a single bound is dropped |
| WaterfallOptimizer.CliOrderFirst | resources/waterfall_optimizer.py:193-194 | an inverted or empty window reports the order error before the width check |
| DisplayStepping.CalculateDbRange | resources/waterfall_display_optimizer.py:103-108 | every window is 30 dB wide and its minimum is -70 dB lowered by 7 dB per step |
| DisplayStepping.SteppingDown | resources/waterfall_display_optimizer.py:103-108 | step 0 is (-70, -40), and each further step lowers both bounds by exactly 7 dB |
| DisplayStepping.StepWrites | resources/waterfall_display_optimizer.py:146-153 | the first n steps send 2n writes |
| DisplayStepping.StepWritesAt | resources/waterfall_display_optimizer.py:146-153 | step k's writes sit at positions 2k (minimum) and 2k+1 (maximum) of the schedule |
| DisplayStepping.ScheduleShape | resources/waterfall_display_optimizer.py:146-164 | the schedule is seven windows from (-70, -40) down to (-112, -82), then the screenshot, then the default window (-85, -55) |
| DisplayStepping.SendSteps | resources/waterfall_display_optimizer.py:146-153 | the stepping loop sends the schedule's writes in order, up to and including the first one that fails |
| DisplayStepping.TestStepping | resources/waterfall_display_optimizer.py:135-182 | when nothing fails, the whole schedule is sent and the screenshot path is returned; when exchange k fails, the schedule up to k is sent, then the default window, and no screenshot is returned |
| DisplayStepping.DefaultsAlwaysRestored | resources/waterfall_display_optimizer.py:163-177 | on every path the last two writes set the default window (-85, -55) |
| ChatSessions.AsMessages | src/llm/chat_manager.py:61-67 | one message per stored entry, with the same content; it is a human message exactly when the role is "human" |
| ChatSessions.Conversation | src/llm/chat_manager.py:61-70 | the model is sent the converted history followed by the new message as a human message |
| ChatSessions.ToMessages | src/llm/chat_manager.py:62-67 | the conversion loop yields exactly the converted history |
| ChatSessions.Flatten | src/llm/chat_manager.py:77-80 | a session built by n exchanges holds 2n entries |
| ChatSessions.ExchangesAlternate | src/llm/chat_manager.py:61-80 | a history built only by exchanges converts to alternating human and AI messages carrying each exchange's message and reply |
| ChatSessions.ChatManager.SelectSession | src/llm/chat_manager.py:53-59 | the caller's list replaces the session; otherwise the stored list is reused, or a new empty list is stored |
| ChatSessions.ChatManager.Chat | src/llm/chat_manager.py:40-82 | the model sees the chosen session's entries and the message; only a reply appends the human and assistant entries to that same list object, which a caller-supplied list shares; other sessions and their lists are untouched |
| ChatSessions.ChatManager.GetChatHistory | src/llm/chat_manager.py:84-86 | the session's own list object, or a new empty list for an unknown id |
| ChatSessions.ChatManager.ClearChatHistory | src/llm/chat_manager.py:88-90 | the id is removed and every other session is kept; an unknown id changes nothing |
| ChatSessions.ChatManager.constructor | src/llm/chat_manager.py:9-25 | a new manager holds no sessions |
| Capture.PowerOfTwoTest | src/qtgui/spectrum_capture.cpp:119-123 | for a positive size the bit test `(n & (n - 1)) == 0` holds exactly when n is a power of two |
| Capture.PowerTestSound | src/qtgui/spectrum_capture.cpp:120 | every power of two passes the bit test |
| Capture.PowerTestComplete | src/qtgui/spectrum_capture.cpp:120 | every positive size that passes the bit test is a power of two |
| Capture.ValidateRange | src/qtgui/spectrum_capture.cpp:105-126 | a range is accepted exactly when start < end, the FFT size is a positive power of two, and 0 < requested rate <= the receiver's rate; otherwise one of the three messages is returned |
| Capture.ValidationOrder | src/qtgui/spectrum_capture.cpp:105-126 | the checks run in the source's order: structural validity, then the rate, then the power of two; the first failure is reported |
| Capture.IsValidIsStructuralOnly | src/qtgui/spectrum_capture.h:29-33 | isValid accepts a size of 3 and a rate above the receiver's; validateRange rejects both |
| Capture.Resize | src/qtgui/spectrum_capture.cpp:143 | `resize` keeps the prefix and zero-fills the new entries |
| Capture.WriteInto | src/qtgui/spectrum_capture.cpp:147 | the receiver overwrites the buffer's prefix and never writes past its end |
| Capture.ResultEchoesRange | src/qtgui/spectrum_capture.cpp:26-80 | every returned result carries the requested range, on every path |
| Capture.NoReceiverPath | src/qtgui/spectrum_capture.cpp:33-37 | without a receiver: a failed result, one captureError, no other change |
| Capture.AlreadyCapturingPath | src/qtgui/spectrum_capture.cpp:39-43 | a call during a capture is refused with one captureError, without touching the receiver, and the capture keeps running |
| Capture.ValidationFailurePath | src/qtgui/spectrum_capture.cpp:45-49 | a rejected range gives only captureError with the validation message; no captureStarted, and the object stays idle |
| Capture.SuccessPath | src/qtgui/spectrum_capture.cpp:51-80 | a capture succeeds exactly when the object is idle, the range is valid and both buffer fills succeed; it then emits started, 50 %, 100 % and complete, pulls the receiver twice, returns the receiver's FFT size of values stamped with the clock, and ends idle |
| Capture.PrepareFailurePath | src/qtgui/spectrum_capture.cpp:56-62 | a failed preparation gives captureStarted then captureError, no completion, and the object ends idle |
| Capture.ExtractionFailurePath | src/qtgui/spectrum_capture.cpp:64-79 | a std::exception during extraction gives the prefixed message, still emits captureComplete and no captureError, and the object ends idle |
| Capture.ForeignExceptionLeavesCapturing | src/qtgui/spectrum_capture.cpp:65-75 | an exception not derived from std::exception escapes and leaves the flag set, so the next call is refused as already in progress |
| Capture.LifecycleOrder | src/qtgui/spectrum_capture.cpp:26-80 | each call appends at least one signal; the first is captureStarted or captureError; captureComplete comes only last and only after captureStarted |
| Capture.SpectrumCapture.constructor | src/qtgui/spectrum_capture.cpp:7-19 | a new capture object is idle, holds the receiver, and has emitted nothing |
| Capture.SpectrumCapture.IsCapturing | src/qtgui/spectrum_capture.h:49 | isCapturing reads the flag and nothing else |
| Capture.SpectrumCapture.GetCurrentCenterFreq | src/qtgui/spectrum_capture.cpp:90-93 | the receiver's RF frequency, or 0 without a receiver |
| Capture.SpectrumCapture.GetCurrentSampleRate | src/qtgui/spectrum_capture.cpp:95-98 | the receiver's input rate, or 0 without a receiver |
| Capture.SpectrumCapture.GetCurrentFftSize | src/qtgui/spectrum_capture.cpp:100-103 | the receiver's FFT size, or 0 without a receiver |
| Capture.SpectrumCapture.Stop | src/qtgui/spectrum_capture.cpp:82-88 | the object ends idle; only a running capture emits "Capture stopped by user" |
| Capture.SpectrumCapture.PrepareCaptureParameters | src/qtgui/spectrum_capture.cpp:128-163 | the buffer is resized to the receiver's FFT size and filled once; success and the 50 % signal only for a non-negative status; any exception means failure |
| Capture.SpectrumCapture.ExtractFftData | src/qtgui/spectrum_capture.cpp:165-181 | a fresh buffer of the receiver's FFT size, or the runtime error for size 0 or a negative status; the receiver's own exception passes through; 100 % only on success |
| Capture.SpectrumCapture.CaptureRange | src/qtgui/spectrum_capture.cpp:26-80 | the outcome, the new state and the receiver pulls are those of the capture specification, which the path lemmas above characterise |
| Waterfall.PushedShape | src/qtgui/waterfall_display.cpp:124-126 | after a push the new row is first, the older rows follow in order, and at most the oldest row is dropped |
| Waterfall.PushedKeepsBound | src/qtgui/waterfall_display.cpp:124-126 | a push preserves "size <= max_history" |
| Waterfall.PushedOverfull | src/qtgui/waterfall_display.cpp:124-126 | after max_history has been lowered below the size, a push pops only one row, so the size stays above the bound |
| Waterfall.PushedIntoZero | src/qtgui/waterfall_display.cpp:124-126 | with max_history 0 every push is undone at once |
| Waterfall.PushAllKeepsNewest | src/qtgui/waterfall_display.cpp:124-126 | from within the bound, any sequence of pushes leaves exactly the newest max_history rows, newest first |
| Waterfall.HeatMapShape | src/qtgui/waterfall_display.cpp:159-191 | the table has 256 entries inside the unit cube, runs from black to white, and never gets darker from one entry to the next |
| Waterfall.BrightnessMonotone | src/qtgui/waterfall_display.cpp:165-187 | a later table entry is at least as bright as an earlier one |
| Waterfall.Position | src/qtgui/waterfall_display.cpp:196-197 | the position of a value in the window is clamped into [0, 1] |
| Waterfall.ColorIndex | src/qtgui/waterfall_display.cpp:196-200 | the truncated table index is always inside the table |
| Waterfall.Shade | src/qtgui/waterfall_display.cpp:193-202 | getColorForValue always returns an entry of the table |
| Waterfall.ColorIndexClamps | src/qtgui/waterfall_display.cpp:193-202 | in a proper window, values at or below the minimum take the first entry and values at or above the maximum take the last |
| Waterfall.ColorIndexMonotone | src/qtgui/waterfall_display.cpp:193-202 | in a proper window a larger value never takes an earlier entry |
| Waterfall.InvertedWindow | src/qtgui/waterfall_display.cpp:151-157 | setMinMax does not check the order; with min above max the colours run backwards |
| Waterfall.EmptyWindow | src/qtgui/waterfall_display.cpp:196-201 | with min equal to max the mapping is a threshold: white above the level, black at or below it |
| Waterfall.RowColors | src/qtgui/waterfall_display.cpp:222-234 | a row contributes one colour per bin, and one more per bin when a row follows it |
| Waterfall.StripColors | src/qtgui/waterfall_display.cpp:218-235 | the strip has as many colours as the vertex count StripSize gives |
| Waterfall.RowVertexCount | src/qtgui/waterfall_display.cpp:222-234 | a row contributes one vertex per bin, and one more per bin when a row follows it |
| Waterfall.StripSizeClosed | src/qtgui/waterfall_display.cpp:215-235 | the first n rows hold width·n + width·n vertices, or width·(n − 1) for the second term once the last row is included |
| Waterfall.StripVertexCount | src/qtgui/waterfall_display.cpp:218-235 | the strip's vertex count is the row-by-row count StripSize |
| Waterfall.VertexCount | src/qtgui/waterfall_display.cpp:209-235 | the whole strip has width·height + width·(height − 1) vertices and exactly as many colours |
| Waterfall.PositionsInRange | src/qtgui/waterfall_display.cpp:220-230 | every x position is in [-1, 1) and every y position in (-1, 1] |
| Waterfall.RowInClipSpace | src/qtgui/waterfall_display.cpp:222-234 | every vertex of a row lies in the z = 0 plane of the clip square |
| Waterfall.StripInClipSpace | src/qtgui/waterfall_display.cpp:218-235 | every vertex of the strip lies in the z = 0 plane of the clip square |
| Waterfall.RowColorsFromTable | src/qtgui/waterfall_display.cpp:227-232 | every colour of a row is a table entry |
| Waterfall.StripColorsFromTable | src/qtgui/waterfall_display.cpp:218-235 | every colour of the strip is a table entry |
| Waterfall.FrequencyLabels | src/qtgui/waterfall_display.cpp:257-263 | n steps of the frequency loop draw n labels |
| Waterfall.TimeLabels | src/qtgui/waterfall_display.cpp:266-272 | n steps of the time loop draw n labels |
| Waterfall.FrequencyLabelsAt | src/qtgui/waterfall_display.cpp:257-263 | label k of the frequency loop is tick k |
| Waterfall.TimeLabelsAt | src/qtgui/waterfall_display.cpp:266-272 | label k of the time loop is tick k |
| Waterfall.FrequencyTicks | src/qtgui/waterfall_display.cpp:254-263 | the 11 frequency labels run from center − bw/2 to center + bw/2 MHz in equal steps of bw/10, left to right |
| Waterfall.TimeTicks | src/qtgui/waterfall_display.cpp:266-272 | the 6 time labels run from 0 s to −span, top to bottom |
| Waterfall.BuildStrip | src/qtgui/waterfall_display.cpp:218-235 | the nested loops build exactly the strip's vertices and colours |
| Waterfall.BuildRow | src/qtgui/waterfall_display.cpp:222-234 | the inner loop builds exactly one row's vertices and colours |
| Waterfall.WaterfallDisplay.constructor | src/qtgui/waterfall_display.cpp:6-19 | a new widget has the window (-120, -20) dB, a 10 s span, room for 1024 rows, no rows, and GL not yet set up |
| Waterfall.WaterfallDisplay.InitializeColorMap | src/qtgui/waterfall_display.cpp:159-191 | the loop leaves the table equal to the heat map |
| Waterfall.WaterfallDisplay.InitializeGL | src/qtgui/waterfall_display.cpp:23-62 | after GL setup the table is the heat map and the widget is ready |
| Waterfall.WaterfallDisplay.UpdateVertices | src/qtgui/waterfall_display.cpp:204-243 | before GL setup, or with no rows, nothing changes; otherwise the geometry is the strip of the current history, window and table |
| Waterfall.WaterfallDisplay.UpdateData | src/qtgui/waterfall_display.cpp:111-133 | the history becomes the push of the row; the tuning and timestamp are overwritten; every other setting is kept; the geometry is rebuilt |
| Waterfall.WaterfallDisplay.SetTimeSpan | src/qtgui/waterfall_display.cpp:135-141 | max_history becomes trunc(seconds × 60) and no row is removed; the geometry is rebuilt |
| Waterfall.WaterfallDisplay.SetColorMap | src/qtgui/waterfall_display.cpp:143-149 | whatever the name, the table is the heat map again; the geometry is rebuilt |
| Waterfall.WaterfallDisplay.SetMinMax | src/qtgui/waterfall_display.cpp:151-157 | both bounds are stored as given, in either order; the geometry is rebuilt |
| Waterfall.WaterfallDisplay.DrawLabels | src/qtgui/waterfall_display.cpp:245-273 | the overlay is the 11 frequency labels followed by the 6 time labels |
| Waterfall.DrawFrequencyLabels | src/qtgui/waterfall_display.cpp:254-263 | the frequency loop draws the 11 frequency ticks in order |
| Waterfall.DrawTimeLabels | src/qtgui/waterfall_display.cpp:266-272 | the time loop draws the 6 time ticks in order |
| Visualizer.LineVertices | src/qtgui/spectrum_visualizer.cpp:122-131 | one vertex per bin |
| Visualizer.LineColors | src/qtgui/spectrum_visualizer.cpp:122-137 | one colour per bin |
| Visualizer.LineVerticesLayout | src/qtgui/spectrum_visualizer.cpp:127-131 | the vertices run left to right across clip space, x from −1 rising strictly and staying below 1, z = 0, and y is the bin's level `mag * scale + offset` |
| Visualizer.LevelColorShape | src/qtgui/spectrum_visualizer.cpp:133-137 | level −1 gives (0.2, 0.5, 0.8) and level 1 gives white; a higher level never darkens a channel; levels above 1 leave the unit cube, because nothing clamps them |
| Visualizer.LinePath | src/qtgui/spectrum_visualizer.cpp:160-168 | the first n steps of the loop add n path elements |
| Visualizer.LinePathAt | src/qtgui/spectrum_visualizer.cpp:160-168 | element k is a moveTo bin 0's screen point when k = 0 and a lineTo bin k's screen point otherwise |
| Visualizer.LinePathShape | src/qtgui/spectrum_visualizer.cpp:157-168 | the line has one element per bin: exactly one moveTo, first, then a lineTo to each further bin |
| Visualizer.ScreenPointsAcross | src/qtgui/spectrum_visualizer.cpp:161 | the screen x positions never go left and stay inside [0, width) |
| Visualizer.Ticks | src/qtgui/spectrum_visualizer.cpp:196-203 | a grid loop with a positive step draws limit/step + 1 lines |
| Visualizer.QuotientUnique | src/qtgui/spectrum_visualizer.cpp:196-203 | the grid loop stops after the line whose next position passes the limit, which is line limit/step |
| Visualizer.GridLineCounts | src/qtgui/spectrum_visualizer.cpp:187-204 | drawGrid never ends exactly when the widget is narrower than 10 or shorter than 8 pixels; otherwise it draws 11–20 vertical and 9–16 horizontal lines, the first at 0 and none past the edge |
| Visualizer.TickCount | src/qtgui/spectrum_visualizer.cpp:196-201 | with step = limit / parts the loop draws between parts + 1 and 2·parts lines |
| Visualizer.TicksWithin | src/qtgui/spectrum_visualizer.cpp:196-203 | every grid line lies within [0, limit] |
| Visualizer.PowerLabels | src/qtgui/spectrum_visualizer.cpp:227-233 | n steps of the power loop draw n labels |
| Visualizer.PowerLabelsAt | src/qtgui/spectrum_visualizer.cpp:227-233 | label k of the power loop is power tick k |
| Visualizer.PowerTicks | src/qtgui/spectrum_visualizer.cpp:226-233 | whatever the data, the nine power labels read 0, −15, …, −120 dB from top to bottom at x = 5 |
| Visualizer.ResizeVectors | src/qtgui/spectrum_visualizer.cpp:123-124 | `resize` keeps the prefix and fills new entries with the zero vector |
| Visualizer.SpectrumVisualizer.constructor | src/qtgui/spectrum_visualizer.cpp:8-20 | a new widget has scale 1, offset 0, no data and GL not yet set up |
| Visualizer.SpectrumVisualizer.InitializeGL | src/qtgui/spectrum_visualizer.cpp:32-46 | after GL setup the widget is marked initialised |
| Visualizer.SpectrumVisualizer.UpdateVertices | src/qtgui/spectrum_visualizer.cpp:117-146 | before GL setup, or with an empty frame, nothing changes; otherwise the vertices and colours are exactly the frame's line vertices and colours |
| Visualizer.SpectrumVisualizer.UpdateData | src/qtgui/spectrum_visualizer.cpp:67-84 | the new frame replaces the previous one (no history); the tuning and timestamp are overwritten; the geometry follows the new frame |
| Visualizer.SpectrumVisualizer.DrawSpectrum | src/qtgui/spectrum_visualizer.cpp:148-185 | nothing before GL setup or without data; otherwise the line path and the fill path, which is the line closed along the bottom edge |
| Visualizer.SpectrumVisualizer.DrawGrid | src/qtgui/spectrum_visualizer.cpp:187-204 | the grid lines of the specification, or a hang when a step is 0 |
| Visualizer.SpectrumVisualizer.GridLines | src/qtgui/spectrum_visualizer.cpp:196-203 | one grid loop draws exactly the ticks 0, step, 2·step, … up to the limit |
| Visualizer.SpectrumVisualizer.DrawLabels | src/qtgui/spectrum_visualizer.cpp:206-234 | the overlay is the 11 frequency labels followed by the 9 power labels |
| Visualizer.DrawPowerLabels | src/qtgui/spectrum_visualizer.cpp:226-233 | the power loop draws the 9 power ticks in order |
| ChatCoordinator.StripLeft | resources/chat_coordinator.py:262 | `strip` on the left drops exactly a whitespace prefix: what is left is a suffix that starts with a non-space |
| ChatCoordinator.StripRight | resources/chat_coordinator.py:262 | `strip` on the right drops exactly a whitespace suffix: what is left is a prefix that ends with a non-space |
| ChatCoordinator.Lower | resources/chat_coordinator.py:268-269 | `lower()` keeps the length |
| ChatCoordinator.SpacesToUnderscores | resources/chat_coordinator.py:268 | `replace(' ', '_')` keeps the length |
| ChatCoordinator.SplitOn | resources/chat_coordinator.py:262 | `split('\n')` gives at least one part, and no part holds the separator |
| ChatCoordinator.SplitThenJoin | resources/chat_coordinator.py:262 | splitting loses nothing: joining the parts with the separator gives the text back |
| ChatCoordinator.SplitFirst | resources/chat_coordinator.py:266-267 | `line.split(':', 1)` cuts the line at its first ':' into two parts that rebuild it |
| ChatCoordinator.SplitFirstUnique | resources/chat_coordinator.py:267 | that cut is the only one with no ':' before it |
| ChatCoordinator.Unbracket | resources/chat_coordinator.py:270-271 | a value in square brackets loses exactly its outer pair; any other value is kept |
| ChatCoordinator.Entries | resources/chat_coordinator.py:265-272 | every line contributes at most one entry |
| ChatCoordinator.ParseLlmResponse | resources/chat_coordinator.py:253-274 | the dictionary built from the lines of the stripped answer |
| ChatCoordinator.ParseLines | resources/chat_coordinator.py:262-274 | the loop over the lines builds the dictionary of the lines, each line with a ':' overwriting its key |
| ChatCoordinator.LineEntry | resources/chat_coordinator.py:266-272 | the key and value one line stores, or nothing without a ':' |
| ChatCoordinator.CollectKeys | resources/chat_coordinator.py:264-272 | a key is in the dictionary exactly when some entry carries it |
| ChatCoordinator.LastEntryFor | resources/chat_coordinator.py:272 | a key keeps the value of the last entry that carries it |
| ChatCoordinator.ParsedLinesMeaning | resources/chat_coordinator.py:262-274 | a key is present exactly when some line with a ':' normalises to it, and it holds the value of the last such line |
| ChatCoordinator.NormalizedKeys | resources/chat_coordinator.py:268 | keys never hold a space or an upper-case letter |
| ChatCoordinator.ValueKeepsColons | resources/chat_coordinator.py:267-272 | a value may hold further colons: only the first ':' separates the key |
| ChatCoordinator.BracketsRemoved | resources/chat_coordinator.py:270-271 | `[]` becomes empty and `[x]` becomes `x` |
| ChatCoordinator.NumberAt | resources/chat_coordinator.py:155-161 | a number is read at a position exactly when a digit stands there; it ends after that position, inside the text, and is not negative |
| ChatCoordinator.NumberAtText | resources/chat_coordinator.py:154-155 | in `D` or `D.F` followed by neither a digit nor a point, a match attempt at any digit reads to the end of the number, and from the first digit its value is `D + 0.F` |
| ChatCoordinator.MatchAt | resources/chat_coordinator.py:155-159 | a number followed by the pattern's unit is not negative |
| ChatCoordinator.Search | resources/chat_coordinator.py:166 | a match found by the search is not negative, and the text holds a digit at or after the start |
| ChatCoordinator.NumberUnitFirst | resources/chat_coordinator.py:154-166 | `D`, `D.F`, each with or without one space before a unit of the pattern, is the search's leftmost match, with value `D.F` |
| ChatCoordinator.NoUnitAfterNumber | resources/chat_coordinator.py:154-166 | after `D` or `D.F` and an optional space, a word that no unit of the pattern starts leaves the search without a match |
| ChatCoordinator.FirstNumber | resources/chat_coordinator.py:178 | a first number is found exactly when the text holds a digit, and it is not negative |
| ChatCoordinator.ParseFrequency | resources/chat_coordinator.py:150-190 | a frequency is only ever read from text that holds a digit |
| ChatCoordinator.RemoveCommas | resources/chat_coordinator.py:166 | the text without commas holds no comma and only characters of the text |
| ChatCoordinator.MegaRoundTrip | resources/chat_coordinator.py:150-170 | "N MHz" and "NMHz" are read as N·10^6 Hz, for every N |
| ChatCoordinator.KiloRoundTrip | resources/chat_coordinator.py:150-172 | "N kHz" and "NkHz" are read as N·1000 Hz, for every N; the MHz pattern does not match them |
| ChatCoordinator.HertzRoundTrip | resources/chat_coordinator.py:150-174 | "N Hz" and "NHz" are read as N Hz, for every N; neither the MHz nor the kHz pattern matches them |
| ChatCoordinator.MegaReads | resources/chat_coordinator.py:154-170 | "D MHz", "DMHz", "D.F MHz" and "D.FMHz" (e.g. "145.5 MHz") are read as `int(D.F · 10^6)` Hz |
| ChatCoordinator.KiloReads | resources/chat_coordinator.py:156-172 | "D kHz", "DkHz", "D.F kHz" and "D.FkHz" are read as `int(D.F · 1000)` Hz; the MHz pattern does not match them |
| ChatCoordinator.HertzReads | resources/chat_coordinator.py:158-174 | "D Hz", "DHz", "D.F Hz" and "D.FHz" are read as `int(D.F)` Hz; neither the MHz nor the kHz pattern matches them |
| ChatCoordinator.MegaBeatsEarlierKilo | resources/chat_coordinator.py:165-172 | the patterns are tried in turn over the whole text, so "A kHz B MHz" gives B·10^6, not A·1000 |
| ChatCoordinator.MegaMentionedElsewhere | resources/chat_coordinator.py:176-181 | with no number next to a unit, "N on mhz" still gives N·10^6 because "mhz" appears |
| ChatCoordinator.NumberOnMhz | resources/chat_coordinator.py:165-178 | in "N on mhz" none of the three unit patterns matches, and the first number is N |
| ChatCoordinator.NoDigitNoFrequency | resources/chat_coordinator.py:150-190 | text without a digit never gives a frequency |
| ChatCoordinator.FirstNumberNone | resources/chat_coordinator.py:178 | text without a digit has no first number |
| ChatCoordinator.AsValues | resources/chat_coordinator.py:240 | the parsed dictionary is returned with the same keys and values |
| ChatCoordinator.TuningFrequency | resources/chat_coordinator.py:226-231 | a frequency chosen for tuning is positive and comes from the request or from `frequency_mentioned` |
| ChatCoordinator.EvaluateRequest | resources/chat_coordinator.py:192-251 | parse the answer, then tune, downgrade or pass through; any raised error gives the low-confidence reply carrying the error message |
| ChatCoordinator.DowngradeWithoutFrequency | resources/chat_coordinator.py:224-238 | a tuning request without a usable frequency becomes `requires_tuning: false` with the reason in `needs_info`; the other keys are kept and the tool is not called |
| ChatCoordinator.TunesOnlyWhenAsked | resources/chat_coordinator.py:222-234 | the tool is called only when the model asked for tuning, with a positive frequency from the request or the answer; a usable one in the request wins |
| ChatCoordinator.ZeroIsNoFrequency | resources/chat_coordinator.py:226-231 | a frequency of 0 in the request counts as missing |
| ChatCoordinator.PassThrough | resources/chat_coordinator.py:224-240 | anything but `requires_tuning: true` returns the parsed answer untouched and tunes nothing |
| ChatCoordinator.DigitRun | resources/chat_coordinator.py:155 | `\d+` takes the whole run of digits: every character it takes is a digit, and the next one is not |
| ChatCoordinator.Scaled | resources/chat_coordinator.py:168-174 | `int(value * multiplier)` is the whole part of the scaled value |
| ChatCoordinator.MegaDecides | resources/chat_coordinator.py:165-170 | a number with MHz decides the result, as value·10^6 |
| ChatCoordinator.KiloDecides | resources/chat_coordinator.py:165-172 | with no number with MHz, a number with kHz decides the result, as value·1000 |
| ChatCoordinator.HertzDecides | resources/chat_coordinator.py:165-174 | with no number with MHz or kHz, a number with Hz decides the result |
| ChatCoordinator.MegaFallbackDecides | resources/chat_coordinator.py:176-181 | with no number next to a unit, the first number is scaled by 10^6 when "mhz" appears anywhere |
| Framing.Repeat | resources/qpsk_transmitter.py:121 | `[x] * n` has n elements, all x |
| Framing.Times | resources/qpsk_transmitter.py:125 | `s * n` has n times the length of s |
| Framing.TimesAt | resources/qpsk_transmitter.py:125 | position k of copy j of `s * n` holds `s[k]` |
| Framing.TimesSlice | resources/qpsk_transmitter.py:124-125 | copy j of `s * n` is s, whole, at offset `|s|·j` |
| Framing.Hold | resources/simple_psk.py:83-97 | holding every symbol for n samples gives n samples per symbol |
| Framing.HoldAt | resources/simple_psk.py:83-97 | sample j of symbol k's hold is symbol k |
| Framing.HoldSnoc | resources/simple_psk.py:83-97 | one more symbol adds n copies of it at the end and changes nothing before |
| Framing.BitsMsb | resources/ook_data_transmitter.py:63-65 | a byte gives eight bits |
| Framing.BitsMsbAt | resources/ook_data_transmitter.py:63-65 | bit i of a byte is `(byte >> (7 - i)) & 1` |
| Framing.BitsMsbValue | resources/ook_data_transmitter.py:61-66 | the bits of a byte, read most significant first, are the byte again |
| Framing.UnpackMsb | resources/ook_data_transmitter.py:61-66 | unpacking gives eight bits per byte |
| Framing.UnpackMsbSnoc | resources/ook_data_transmitter.py:62-66 | one more byte adds its eight bits at the end |
| Framing.UnpackMsbAppend | resources/ook_data_transmitter.py:59-66 | unpacking preamble, message and postamble together is unpacking each in turn |
| Framing.UnpackMsbAt | resources/ook_data_transmitter.py:62-65 | bit 8k + i of the unpacked packet is bit 7 − i of byte k |
| Framing.RegroupUnpack | resources/ook_data_transmitter.py:61-68 | regrouping the unpacked bits by eight gives every byte back |
| Framing.AlternatingBytes | resources/ook_data_transmitter.py:44-45 | 0xAA unpacks to 1,0,1,0,1,0,1,0 and 0x55 to 0,1,0,1,0,1,0,1 |
| Framing.BinaryDigitsValue | resources/simple_fsk.py:78 | the binary digits of n read back as n |
| Framing.BinaryDigitsFit | resources/simple_fsk.py:78 | n has at most k binary digits exactly when n < 2^k |
| Framing.PaddedDigits | resources/simple_fsk.py:78 | zero-padding the digits of n < 2^k to k is the k-bit MSB-first field of n |
| Framing.Format08bShape | resources/simple_fsk.py:78 | `format(n, '08b')` is eight digits exactly when n < 256, and then the MSB-first bits of n; a larger n gives all its digits, more than eight |
| Framing.Latin1 | resources/simple_fsk.py:76-78 | one code point per character |
| Framing.TextBitsLatin1 | resources/simple_fsk.py:73-80 | for characters below 256, text_to_bits gives eight bits per character, equal to unpacking the code points, and regrouping them gives the code points back |
| Framing.TextBitsWide | resources/simple_fsk.py:73-80 | every character gives at least eight bits, and a character at or above 256 gives more, so the bits no longer line up by eight |
| Framing.Utf8Char | resources/qpsk_transmitter.py:101 | a character encodes to one to four bytes, one byte exactly for ASCII, which is its code |
| Framing.Utf8Encode | resources/qpsk_transmitter.py:101 | `encode('utf-8')` gives one to four bytes per character; ASCII text encodes to its codes |
| Framing.Utf8DecodeFirstEncodes | resources/qpsk_transmitter.py:101 | a well-formed UTF-8 sequence at the head of a byte string is exactly what `encode('utf-8')` gives for the character it decodes to |
| Framing.Utf8CharDecodes | resources/qpsk_transmitter.py:101 | the bytes `encode('utf-8')` gives for one character decode back to that character and their own length, whatever follows them |
| Framing.Utf8Decode | resources/qpsk_transmitter.py:101 | any byte string that decodes is the UTF-8 encoding of the decoded text |
| Framing.Utf8RoundTrip | resources/qpsk_transmitter.py:101 | decoding the UTF-8 encoding of any text gives that text back, so the transmitted bytes lose nothing of the message |
| Framing.Trunc | resources/qpsk_transmitter.py:25 | `int(x)` truncates toward zero |
| Framing.QuotientBracket | resources/qpsk_transmitter.py:25 | `int(s / b)` for positive b is the largest n with n·b ≤ s |
| Framing.SamplesPerSymbol | resources/qpsk_transmitter.py:25 | fails exactly for a zero baud rate; otherwise, for non-negative rates, it is the number of whole symbol periods in a second of samples |
| SimplePsk.SymbolRoundTrip | resources/simple_psk.py:86-91 | the two phases give opposite symbols, and a symbol's sign gives its bit back |
| SimplePsk.Symbols | resources/simple_psk.py:83-91 | one symbol per bit |
| SimplePsk.CreatePskModulation | resources/simple_psk.py:67-105 | the signal is the ten alternating bits' symbols, each held for samples_per_symbol samples (none when that is negative) |
| SimplePsk.Modulate | resources/simple_psk.py:81-97 | the loop holds every bit's symbol for n samples, in order |
| SimplePsk.PskLayout | resources/simple_psk.py:78-97 | the signal is ten symbols long, and every sample of an even symbol is +1 and of an odd symbol −1 |
| SimplePsk.DefaultSamplesPerSymbol | resources/simple_psk.py:17-24 | the defaults give 2 000 000 samples per symbol |
| OokDataTransmitter.MessageBytes | resources/ook_data_transmitter.py:47-53 | a string is sent as its UTF-8 bytes; a list is sent as it is, and is refused exactly when one of its values lies outside 0..255 |
| OokDataTransmitter.Packet | resources/ook_data_transmitter.py:44-59 | the packet is 12 bytes longer than the message |
| OokDataTransmitter.PrepareMessage | resources/ook_data_transmitter.py:43-68 | fails exactly when the message bytes are refused; otherwise gives the packet's bits, eight per byte, most significant first |
| OokDataTransmitter.Unpack | resources/ook_data_transmitter.py:61-66 | the outer loop gives every byte's eight bits in order |
| OokDataTransmitter.ByteBits | resources/ook_data_transmitter.py:63-65 | the inner loop gives a byte's eight bits, most significant first |
| OokDataTransmitter.PreparedBits | resources/ook_data_transmitter.py:43-68 | the bits regroup into the packet; the first 64 alternate 1, 0 starting with 1; the message's own bits follow them |
| OokDataTransmitter.PreambleBit | resources/ook_data_transmitter.py:44-45 | bit p of the 0xAA preamble is 1 for even p and 0 for odd p |
| OokDataTransmitter.MessageBits | resources/ook_data_transmitter.py:58-59 | the message's bits sit right after the preamble's 64 |
| OokDataTransmitter.UnpackMiddle | resources/ook_data_transmitter.py:58-66 | the middle part of a packet unpacks to its own bits, after eight bits per preceding byte |
| OokDataTransmitter.TestPatternFrame | resources/ook_data_transmitter.py:116-118 | the `-p` test message is accepted as it is and makes a 144-bit frame |
| OokDataTransmitter.OutOfRangeRefused | resources/ook_data_transmitter.py:52-53 | a list holding a value outside 0..255 is refused with `bytes`' ValueError |
| OokDataTransmitter.CorrectedFrequency | resources/ook_data_transmitter.py:31-34 | the centre frequency is `f·10^6·(1 + ppm·10^-6)` Hz |
| OokDataTransmitter.DefaultCorrection | resources/ook_data_transmitter.py:107-108 | the default −69 ppm lowers the frequency by 69 Hz per MHz; 434.6 MHz becomes 434 570 012.6 Hz; 0 ppm changes nothing |
| OokDataTransmitter.DefaultSamplesPerSymbol | resources/ook_data_transmitter.py:17-29 | 2 MHz at the default 1200 baud gives 1666 samples per symbol |
| OokTransmitter.DataPattern | resources/ook_transmitter.py:50-80 | the simple pattern sends 560 bytes; message mode sends the message's UTF-8 bytes plus 80 bytes of framing |
| OokTransmitter.SimplePatternLayout | resources/ook_transmitter.py:56-63 | the simple pattern is 112 bytes: 0xFF in its first and last 16, 0x00 in between |
| OokTransmitter.SimpleDataLayout | resources/ook_transmitter.py:56-66 | the data is five copies of the 112-byte pattern, and the pattern reads the same backwards |
| OokTransmitter.MessageOf | resources/ook_transmitter.py:73-80 | a frame is recognised only with the 40-byte opening and closing in place, and yields exactly the bytes between them |
| OokTransmitter.MessageRoundTrip | resources/ook_transmitter.py:73-80 | message mode frames the UTF-8 message so that it is read back whole, and the postamble is the preamble reversed |
| OokTransmitter.CorrectedFrequency | resources/ook_transmitter.py:33-40 | the corrected frequency is `freq·(1 + ppm·10^-6)`; 0 ppm leaves it exactly as given; a negative correction lowers a positive frequency |
| OokTransmitter.DefaultSamplesPerSymbol | resources/ook_transmitter.py:17-28 | 2 MHz at the default 500 baud gives 4000 samples per symbol |
| SimpleFsk.TextToBits | resources/simple_fsk.py:73-80 | the loop gives every character's `'08b'` digits, in order |
| SimpleFsk.FrameBitsMessage | resources/simple_fsk.py:87-98 | a non-empty message is sent after sixteen alternating bits starting with 1, with its own bits next and the 8-bit postamble last: 24 bits more than the message's |
| SimpleFsk.FrameBitsLatin1 | resources/simple_fsk.py:87-98 | for text below code point 256 the frame is 24 + 8·len bits |
| SimpleFsk.FrameBitsDefault | resources/simple_fsk.py:87-106 | with no message, or an empty one, the ten bits 0,1,0,1,… are sent |
| SimpleFsk.FrameBitsNonEmpty | resources/simple_fsk.py:87-106 | there are always at least ten bits to send |
| SimpleFsk.Offsets | resources/simple_fsk.py:119-122 | one frequency offset per bit |
| SimpleFsk.CreateFskModulation | resources/simple_fsk.py:82-146 | succeeds exactly for a positive symbol length and then holds each framed bit's offset for that many samples; a negative length raises numpy's ValueError and zero raises the IndexError of `symbol_phases[-1]` |
| SimpleFsk.ModulateBits | resources/simple_fsk.py:116-134 | the symbol loop over any non-empty bit sequence, with the same outcomes |
| SimpleFsk.FskSignalLayout | resources/simple_fsk.py:116-134 | the signal has len(bits)·samples_per_symbol samples, and every sample of symbol k is −deviation for a 0 bit and +deviation for a 1 bit |
| SimpleFsk.DefaultSamplesPerSymbol | resources/simple_fsk.py:18-26 | 2 MHz at the default 50 baud gives 40 000 samples per symbol |
| KevinQpsk.GenerateBinaryData | resources/kevin_qpsk.py:73-96 | the loop and the pattern slice give the bits specified for the message or for `num_bits` |
| KevinQpsk.MessageData | resources/kevin_qpsk.py:75-88 | with a message the bits are its characters' digits, followed by a single 0 exactly when their count is odd; the count is always even and `num_bits` is ignored |
| KevinQpsk.Latin1MessageData | resources/kevin_qpsk.py:75-88 | text below code point 256 gives eight bits per character and needs no padding |
| KevinQpsk.PatternData | resources/kevin_qpsk.py:90-96 | without a message, bit i of the `num_bits` bits is bit i mod 8 of 0,0,0,1,1,0,1,1 |
| KevinQpsk.PhaseOf | resources/kevin_qpsk.py:126-137 | every bit pair gets one of the four phases 45°, 135°, 225°, 315° |
| KevinQpsk.PhaseRoundTrip | resources/kevin_qpsk.py:126-137 | 00→225°, 01→315°, 10→135°, 11→45°: the four pairs get four different phases, and each phase gives its pair back |
| KevinQpsk.Phases | resources/kevin_qpsk.py:113-137 | one phase per complete bit pair |
| KevinQpsk.CreateQpskModulation | resources/kevin_qpsk.py:98-146 | the signal holds the phase of each pair of the 32-bit request's data for 200 000 samples |
| KevinQpsk.ModulatePairs | resources/kevin_qpsk.py:113-144 | the pair loop reads pairs at even positions, skips an unpaired last bit, and holds each pair's phase for 200 000 samples |
| KevinQpsk.ModulationLayout | resources/kevin_qpsk.py:103-144 | the signal is (len/2)·200 000 samples, every sample of symbol k carries the phase of bits 2k and 2k+1, and without a message there are 16 symbols |
| KevinQpsk.SymbolLengthIgnoresBaud | resources/kevin_qpsk.py:107 | the hard-coded 200 000 agrees with samples_per_symbol at the default 10 baud only |
| NancyQpsk.CreateQpskPattern | resources/nancy_qpsk.py:70-112 | the pattern is the 24 runs of the design, 50 symbols per run, in order |
| NancyQpsk.RunSections | resources/nancy_qpsk.py:91-110 | the runs are the four long runs, the clockwise cycle twice, then the counter-clockwise cycle twice |
| NancyQpsk.AppendCycles | resources/nancy_qpsk.py:98-110 | one `for _ in range(2)` loop appends the four phases in order, n symbols each, twice |
| NancyQpsk.LongRuns | resources/nancy_qpsk.py:91-94 | four runs of 100 are the first eight runs of 50 |
| NancyQpsk.AppendRuns | resources/nancy_qpsk.py:99-102 | appending four runs of n symbols holds four more phases |
| NancyQpsk.PatternAt | resources/nancy_qpsk.py:75-110 | there are 1200 symbols, and symbol i is the phase of run i/50 |
| NancyQpsk.PatternSections | resources/nancy_qpsk.py:91-110 | symbols 0–399 are 100 each of 45°, 135°, 225°, 315°; 400–799 cycle clockwise and 800–1199 counter-clockwise, 50 each |
| NancyQpsk.PhaseChanges | resources/nancy_qpsk.py:91-110 | the phase changes between neighbouring symbols exactly at the run boundaries: after 100, 200 and 300 symbols, then every 50 from 400 on |
| NancyQpsk.PhaseCounts | resources/nancy_qpsk.py:91-110 | each of the four phases occurs in exactly 300 symbols |
| NancyQpsk.RunCounts | resources/nancy_qpsk.py:91-110 | each phase heads six of the 24 runs |
| NancyQpsk.SectionCounts | resources/nancy_qpsk.py:91-110 | a phase twice in the long runs and once in each cycle occurs six times in all |
| NancyQpsk.PairedCycleCount | resources/nancy_qpsk.py:91-94 | four distinct phases, each doubled, hold each of them twice |
| NancyQpsk.CycleCount | resources/nancy_qpsk.py:99-110 | a cycle through four distinct phases visits each once |
| NancyQpsk.HoldCount | resources/nancy_qpsk.py:91-110 | holding each entry n times multiplies every phase's count by n |
| NancyQpsk.RepeatCount | resources/nancy_qpsk.py:91-110 | n copies of one phase count n for it and 0 for the others |
| NancyQpsk.SampleLayout | resources/nancy_qpsk.py:24-44 | downstream every symbol is held for samples_per_symbol samples (20 000 at 2 MHz and 100 baud), so sample i·sps + j carries symbol i's phase |
| QpskTransmitter.DataPacket | resources/qpsk_transmitter.py:104-117 | a packet is 17 bytes longer than its message |
| QpskTransmitter.CreateDataPattern | resources/qpsk_transmitter.py:96-131 | succeeds exactly when the UTF-8 message fits the one length byte (at most 255 bytes), and then is 5·(33 + n) bytes |
| QpskTransmitter.DecodePacket | resources/qpsk_transmitter.py:104-117 | a receiver accepts a frame exactly when the preamble and the sync word are in place and the length byte's count of bytes follows, and then yields exactly those bytes |
| QpskTransmitter.PacketLayout | resources/qpsk_transmitter.py:104-117 | in order: 8×0xF0, 1A CF FC 1D, the length byte at offset 12, the message at 13, 4×0xF0; whatever follows, the receiver reads the message back |
| QpskTransmitter.DataPatternRoundTrip | resources/qpsk_transmitter.py:114-125 | each of the five repetitions carries the length byte, the message, the postamble and the 16 zero bytes, and decodes to the UTF-8 message |
| QpskTransmitter.RepetitionLayout | resources/qpsk_transmitter.py:120-125 | copy j of the packet and its padding starts at (33 + n)·j and decodes to the message |
| QpskTransmitter.UnitAt | resources/qpsk_transmitter.py:117-121 | a packet with its padding found anywhere in the data is a full repetition |
| QpskTransmitter.UnitLayout | resources/qpsk_transmitter.py:117-121 | the packet followed by its padding has the message, the postamble and the padding at their offsets and decodes to the message |
| QpskTransmitter.LengthLimit | resources/qpsk_transmitter.py:101-114 | a message of more than 255 characters is refused; a single ASCII character makes 170 bytes |
| QpskTransmitter.DefaultSamplesPerSymbol | resources/qpsk_transmitter.py:17-25 | the defaults give 1200 samples per symbol |
| BasicQpsk.CreateSimplePattern | resources/basic_qpsk.py:83-108 | the pattern is 128 bytes |
| BasicQpsk.PatternLayout | resources/basic_qpsk.py:91-103 | byte i is 0x00, 0x55, 0xAA or 0xFF as i lies in the first, second, third or fourth 32 bytes, and the pattern does not depend on the message |
| BasicQpsk.PatternBits | resources/basic_qpsk.py:91-103 | unpacked for the modulator the pattern is 1024 bits, eight per byte, most significant first |
| BasicQpsk.AlternatingBlocks | resources/basic_qpsk.py:94-100 | the 0x55 block unpacks to 0,1,0,1,… and the 0xAA block to 1,0,1,0,… |
| BasicQpsk.DefaultSamplesPerSymbol | resources/basic_qpsk.py:17-24 | the defaults give 10 000 samples per symbol |

## Left out

- Rendering. The following are not modelled: OpenGL shader, VAO and VBO setup, the draw calls in `paintGL`, `resizeGL`, and QPainter pens, brushes, fonts and text formatting. The model keeps the geometry sequences, the path elements and the tick values that those calls consume.
- The `QMutex` in `WaterfallDisplay` is not modelled: every update runs to completion before the next one starts.
- Qt signals are appended to an event log rather than delivered.
- Wall-clock timestamps are a `now` parameter whose value is unconstrained.
- The receiver class (`receiver.h`) is not part of this model. `Capture.Receiver` stands for it: it holds the rate, the FFT size and a scripted outcome for every call of `get_iq_fft_data`.
- Capture.SpectrumCapture.PrepareCaptureParameters: requires an attached receiver. The method is private, and `captureRange` calls it only after its own null check.
- Capture.SpectrumCapture.ExtractFftData: requires an attached receiver, for the same reason.
- Waterfall.WaterfallDisplay.UpdateData: requires every stored row to be at least as wide as the newest one once GL is set up. `updateVertices` reads `row[x]` for every x below the newest row's width, which is undefined behaviour for a narrower older row.
- Waterfall.WaterfallDisplay.UpdateVertices: carries the same row-width requirement.
- Waterfall.WaterfallDisplay.SetTimeSpan, SetColorMap and SetMinMax: carry the same row-width requirement, because each of them rebuilds the geometry.
- Waterfall.WaterfallDisplay.SetTimeSpan: also requires `seconds · 60` to convert to `size_t`. The C++ cast is undefined for values outside that range.
- Floating point is modelled as exact reals, so rounding is not captured. This covers the dB arithmetic, the vertex positions and tick values, the ppm frequency corrections, and `float(...) * 1_000_000` in `_parse_frequency`. For example, the model reads "145.1 MHz" as exactly 145 100 000 Hz. Infinities and NaN are not modelled; a NaN would only arise in `getColorForValue`'s equal-bounds case, and that case is modelled explicitly.
- ChatCoordinator.Lower: lower-cases ASCII letters only. Python's `str.lower()` also folds other scripts, so keys and values holding non-ASCII capitals are normalised differently.
- ChatCoordinator.NumberAt: `\d` is read as the ASCII digits `0`–`9`. Python's `re` also accepts other Unicode decimal digits, so a number written in other scripts' digits is not recognised.
- ChatCoordinator.Scaled: does not model Python's float parsing of very long digit strings. Past the float range, that parse gives infinity and `int` raises `OverflowError`.
- `_parse_llm_response`'s `except` branch (resources/chat_coordinator.py:276-283) is not modelled, because parsing a `str` cannot raise.
- The tools are not modelled. The `analyze_tuning_request` tool, the prompt, and the LangChain executor that produces the answer are left out; the answer or its exception message is a parameter. The tuning tool is also a parameter: a function from the frequency to its result or error.
- The language model in `ChatManager.chat` is a parameter of type message list → reply or error. Tracing, LangSmith and environment checks are left out.
- ChatSessions.ChatManager.Chat: history entries always carry a role and a content. A caller-supplied dictionary missing either key raises `KeyError` in the source, and that case is not modelled.
- The socket, telnet and screenshot I/O of both waterfall optimizers is modelled only by its outcomes. Each read is a scripted value or a failure, and each write made while optimizing is recorded as a command.
- DisplayStepping.TestStepping: the restoring connection of the except branch (`resources/waterfall_display_optimizer.py:174-177`) is taken to succeed. When it fails, the source lets that second exception propagate and returns nothing, which the model does not express.
- DisplayStepping.TestStepping: a failure of the first connection, before any write, is not modelled. `failsAt = 0` means that the first write was sent and then failed.
- The connection handshake of `resources/waterfall_optimizer.py` (lines 41-56) is not modelled: its capability queries `l ?` and `L ?` are sent on connect, but their answers are only logged and never steer a later step, so they are absent from the command log.
- WaterfallOptimizer.OptimizeWaterfall: takes every `WF_MIN_DB`/`WF_MAX_DB` write to be acknowledged. A failed write or a failed connection, which the source logs and re-raises, is not modelled.
- The transmitters' GNU Radio and osmosdr flowgraphs are not modelled. This covers `setup_blocks`, `chunks_to_symbols`, the RRC filter, HackRF setup and checks, `start_transmission`/`stop_transmission`, and the `main` loops. Where a block's effect on the data is simple, the model states it: `unpack_k_bits` as MSB-first unpacking, and `blocks.repeat` as holding each symbol.
- Complex sample synthesis is not modelled: `np.exp`, the continuous-phase `cumsum` of the FSK signal, and the cos/sin constellation points. A sample is its phase in degrees (QPSK), its real value ±1 (BPSK), or its frequency offset (FSK).
- SimpleFsk.CreateFskModulation: takes `samples_per_symbol` as a parameter. A zero sample rate, which makes `1/self.sample_rate` raise `ZeroDivisionError`, is not modelled.
- OokDataTransmitter.MessageBytes: models a `str` or a list of integers. The other arguments `bytes(...)` accepts, such as an integer `n` giving `n` zero bytes, are not modelled.
- Framing.Utf8Encode: takes the text as Unicode scalar values, which Dafny's `char` guarantees. Lone surrogates, for which Python's `encode('utf-8')` raises, cannot occur.
