# Oink memory usage report, modelled in Dafny

This project models the core of `Oink::Reports::MemoryUsageReport`. The report
replays Rails log inputs line by line. It reconstructs one in-flight request per
process (keyed by the `rails[<pid>]` tag) and, at every `Oink Log Entry Complete`
line, compares the process's memory reading with the reading at its previous
completion. A growth strictly above `@threshold` is an offence: it bumps the
action's counter in `@bad_actions`, extends its series in `@bad_actions_averaged`
and pushes a request record onto `@bad_requests`.

The project has four modules:

- `LineClassifier` (`line_classifier.dfy`, which also holds the `Wrappers` module
  with `Option`). It covers `IO#each_line`, `String#strip`, the four regex scans
  (`rails\[(\d+)\]`, `Oink Action: (([\w\/]+)#(\w+))`, `Memory usage: (\d+) `,
  `Oink Log Entry Complete`) with Ruby's leftmost-match rule, `String#to_i` on
  digit strings, and the `if`/`elsif` marker priority.
- `RequestState` (`request_state.dfy`). It holds the per-process record
  (`PidState`, with the `-1` sentinel as `Reading.Unknown`), the aggregates, and
  the pure transitions of `record_action`, `record_memory_usage` and
  `complete_entry`. It also defines the consistency invariant of the three
  aggregates.
- `Replay` (`replay.dfy`). It gives the replay as pure functions: one iteration
  of the `each_line` block (`StepSpec`) and a sequence of lines (`RunLines`). The
  report's promises are proved about these functions: process isolation, buffer
  contents, offence contents, the entry count, persistence across inputs and an
  invariant kept by every line.
- `MemoryUsageReport` (`memory_usage_report.dfy`). It holds the `Report` class,
  whose fields `pids`, `badActions`, `badActionsAveraged` and `badRequests` are
  updated in place by methods named after the Ruby ones. Each method is proved to
  follow the pure replay. `Print` runs the nested `each`/`each_line` loops and is
  proved against `RunLines`.

The header regex `HODEL_LOG_FORMAT_REGEX` is defined outside the modelled file.
It is a parameter of the report, `hodel: string -> Option<string>`. It is `None`
when a trimmed line does not match, and `Some(date)` when it matches with first
capture `date`.

A header-valid line with an action, memory or completion marker but no
`rails[...]` tag makes the Ruby code index `pids[nil]` and raise `NoMethodError`.
The model follows the code:
- such a line is stepped as `NilPid` with nothing changed;
- `Print` stops and returns `NoMethodError`;
- skipping such lines silently would differ from the code, so the model does
  not do it.

`print`'s local `oink_entry_count` counts the header-valid completion lines,
tagged or not. It does not count every header-valid line. The model follows the
code here too.

## Model

| member | source | states |
|---|---|---|
| LineClassifier.SplitLines | lib/oink/reports/memory_usage_report.rb:24 | the lines of an input put back together give the input; no line is empty; a newline occurs only at the end of a line, and every line but the last has one |
| LineClassifier.StripBounds | lib/oink/reports/memory_usage_report.rb:25 | `strip` keeps a slice with only whitespace (NUL, tab to CR, space) before and after it; a non-empty slice starts and ends with a non-whitespace character |
| LineClassifier.Leftmost | lib/oink/reports/memory_usage_report.rb:32 | a regex scan reports the first position where the pattern matches, with its capture; no earlier position matches; no result means no position matches |
| LineClassifier.PidAt | lib/oink/reports/memory_usage_report.rb:66 | a capture at a position is a non-empty digit run that `rails[`, the digits and `]` spell out there |
| LineClassifier.PidAtComplete | lib/oink/reports/memory_usage_report.rb:66 | wherever `rails[`, a non-empty digit run and `]` occur, the scan at that position captures exactly that run |
| LineClassifier.LabelAt | lib/oink/reports/memory_usage_report.rb:32 | a capture of `([\w\/]+)#(\w+)` is a non-empty path run and a non-empty word run joined by `#` at that position, the word run not followed by another word character |
| LineClassifier.LabelAtComplete | lib/oink/reports/memory_usage_report.rb:32 | wherever such a path run, `#` and longest word run occur, the scan captures exactly those two runs |
| LineClassifier.ActionAt | lib/oink/reports/memory_usage_report.rb:32 | an action capture at a position is `Oink Action: ` followed by a label there |
| LineClassifier.ActionAtComplete | lib/oink/reports/memory_usage_report.rb:32 | wherever `Oink Action: ` is followed by a label, the scan at that position captures that label's path and method |
| LineClassifier.MatchAction | lib/oink/reports/memory_usage_report.rb:32-33 | `$1` is absent exactly when no position carries an action marker; otherwise it is the path, `#` and method captured at the first such position |
| LineClassifier.MemoryAt | lib/oink/reports/memory_usage_report.rb:35 | a capture at a position is a non-empty digit run that `Memory usage: `, the digits and a space spell out there |
| LineClassifier.MemoryAtComplete | lib/oink/reports/memory_usage_report.rb:35 | wherever `Memory usage: `, a non-empty digit run and a space occur, the scan at that position captures exactly that run |
| LineClassifier.MatchMemory | lib/oink/reports/memory_usage_report.rb:35-37 | the reading is absent exactly when no position carries a memory marker; otherwise it is the decimal value of the digits captured at the first such position, so never negative |
| LineClassifier.HasCompleteMarker | lib/oink/reports/memory_usage_report.rb:40 | the completion test succeeds exactly when `Oink Log Entry Complete` occurs somewhere in the line |
| LineClassifier.ExtractPid | lib/oink/reports/memory_usage_report.rb:65-72 | the process id is absent exactly when no position of the line carries a `rails[<digits>]` tag; otherwise it is the non-empty digit string captured at the first position that carries one |
| LineClassifier.DecimalRoundTrip | lib/oink/reports/memory_usage_report.rb:37 | `to_i` reading of the decimal spelling of a number gives back the number |
| LineClassifier.Classify | lib/oink/reports/memory_usage_report.rb:32-40 | a line is an action line iff the action pattern matches; a memory line iff the action pattern does not and the memory pattern does; a completion line iff neither does and the completion marker is present; an action line carries the captured action and a memory line the captured reading |
| RequestState.CloseVerdict | lib/oink/reports/memory_usage_report.rb:97-125 | after a completion the record is reset: request finished, buffer empty, baseline is the former current reading (even if unknown), current reading unknown. An offence is recorded exactly when both readings are known and their difference is strictly above the threshold. Then the action's counter rises by one from zero if absent, its series gains the delta, and one record (action, date, buffered lines including the completion line, delta) is pushed. Otherwise the aggregates are unchanged |
| RequestState.ShrinkNeverOffends | lib/oink/reports/memory_usage_report.rb:105-108 | with a non-negative threshold, memory that did not grow is never an offence |
| RequestState.CycleRecord | lib/oink/reports/memory_usage_report.rb:68-85 | an action line, a memory line and a completion line, each buffered as seen, leave the record with those three lines appended, the action set, the reading sampled, the request open, and the baseline kept only if the previous request had finished |
| RequestState.TwoCycles | lib/oink/reports/memory_usage_report.rb:75-125 | two cycles of `Foo#bar` under threshold 1000: the first completion records nothing, the second (1000 to 5000 bytes) records one offence of 4000 with counter 1 whose buffer is exactly the second cycle's three lines |
| RequestState.JudgeKeepsConsistent | lib/oink/reports/memory_usage_report.rb:108-119 | judging a request keeps the aggregates consistent: each action's series is exactly the deltas of its pushed offences in order, its counter is the series' length, both maps share their keys, and every pushed delta exceeds the threshold |
| RequestState.NoOffencesConsistent | lib/oink/reports/memory_usage_report.rb:108-119 | the empty aggregates are consistent |
| Replay.StepSpec | lib/oink/reports/memory_usage_report.rb:25-53 | a line failing the header check changes nothing; no process other than the line's own changes; the line's process is known afterwards; the line raises exactly when it has a marker but no process tag, and then nothing changes; only a tagged completion line changes the aggregates |
| Replay.Dispatch | lib/oink/reports/memory_usage_report.rb:29-53 | the handler of a tagged line touches only that process, leaves it known, and changes the aggregates only for a completion marker |
| Replay.MarkerEffects | lib/oink/reports/memory_usage_report.rb:29-38 | a tagged non-completion line is appended to its process's buffer, starting from the fresh record on first sighting (empty buffer, unknown readings, empty action, finished request). An action line voids the baseline of a request still open, sets the action and opens the request. A memory line overwrites only the current reading. The aggregates are untouched |
| Replay.CompletionVerdict | lib/oink/reports/memory_usage_report.rb:40-51 | a tagged completion line is buffered first, and then `complete_entry` runs on that record with the header's date |
| Replay.StepLocal | lib/oink/reports/memory_usage_report.rb:65-126 | a process's record after a line depends only on its record before |
| Replay.StepKeepsValid | lib/oink/reports/memory_usage_report.rb:25-53 | every line keeps the report invariant: consistent aggregates, buffers holding only their own process's header-valid non-completion lines, and offences holding whole requests |
| Replay.CompletionKeepsValid | lib/oink/reports/memory_usage_report.rb:97-125 | a completion line keeps the report invariant |
| Replay.OtherKeepsValid | lib/oink/reports/memory_usage_report.rb:29-38 | a tagged non-completion line keeps the report invariant |
| Replay.SeenIsRequest | lib/oink/reports/memory_usage_report.rb:69 | the buffer at a completion line holds one request of that process, ending with its completion line |
| Replay.InitialValid | lib/oink/reports/memory_usage_report.rb:9 | a new report satisfies the invariant |
| Replay.RunStopsAtRaise | lib/oink/reports/memory_usage_report.rb:23-24 | once `print` has raised, no later line changes anything |
| Replay.RunCompose | lib/oink/reports/memory_usage_report.rb:23-24 | replaying two inputs in a row replays the second from the state the first left, with entry counts added: process records persist across inputs |
| Replay.AllLinesAppend | lib/oink/reports/memory_usage_report.rb:23-24 | the lines of several inputs are those of each input, in input order |
| Replay.RunKeepsValid | lib/oink/reports/memory_usage_report.rb:23-55 | a whole replay keeps the report invariant |
| Replay.EntryCount | lib/oink/reports/memory_usage_report.rb:40-42 | when nothing raised, `oink_entry_count` is the number of header-valid completion lines |
| Replay.RunIsolation | lib/oink/reports/memory_usage_report.rb:65-126 | lines attributed to other processes never change a process's record |
| Replay.RunLocality | lib/oink/reports/memory_usage_report.rb:23-55 | a process's record after an interleaved replay equals the record after replaying only that process's lines |
| Replay.BufferSinceCompletion | lib/oink/reports/memory_usage_report.rb:69 | until the process's next completion, its buffer grows by exactly its own trimmed lines, in order |
| Replay.StepBuffer | lib/oink/reports/memory_usage_report.rb:69 | a line that is not a completion of a process appends to that process's buffer exactly when it carries its tag |
| Replay.OffenceHoldsRequest | lib/oink/reports/memory_usage_report.rb:102-113 | an offence pushed at a process's completion holds every line of that process since its previous completion, the completion line included |
| Replay.BaselineStaysUnknown | lib/oink/reports/memory_usage_report.rb:75-85 | without a completion line of a process, an unknown baseline stays unknown |
| Replay.FirstCompletionNeverOffends | lib/oink/reports/memory_usage_report.rb:105 | the first completion of a process never records an offence |
| Replay.RepeatedActionVoidsBaseline | lib/oink/reports/memory_usage_report.rb:76-78 | an action line for a process whose request is still open makes the next completion record no offence, whatever memory lines come between |
| MemoryUsageReport.Report.constructor | lib/oink/reports/memory_usage_report.rb:9 | a new report keeps the given inputs, threshold and header regex, has no process and no offence, and satisfies the invariant |
| MemoryUsageReport.Report.ExtractPidFromLine | lib/oink/reports/memory_usage_report.rb:65-73 | returns the line's process id. A new process gets the fresh record with the line in its buffer, a known process gets the line appended, and nothing else changes |
| MemoryUsageReport.Report.RecordAction | lib/oink/reports/memory_usage_report.rb:75-81 | the baseline becomes unknown exactly when the request was open. The action is set and the request opened. Buffer, current reading and other processes are unchanged |
| MemoryUsageReport.Report.RecordMemoryUsage | lib/oink/reports/memory_usage_report.rb:83-85 | only the process's current reading changes, to the new reading |
| MemoryUsageReport.Report.CompleteEntry | lib/oink/reports/memory_usage_report.rb:88-126 | the process's record becomes `Close` of its old record and the aggregates become `Judge` of the old ones, done in place on the fields; `CloseVerdict` spells out what these are |
| MemoryUsageReport.Report.Step | lib/oink/reports/memory_usage_report.rb:25-53 | the new fields and status are those of `StepSpec`; the dispatched marker is the line's classification; the line is counted exactly when it is a header-valid completion line |
| MemoryUsageReport.Report.ReadLines | lib/oink/reports/memory_usage_report.rb:24-54 | stepping one input's lines in order gives the state, count and raise of `RunLines` |
| MemoryUsageReport.Report.Print | lib/oink/reports/memory_usage_report.rb:17-55 | the new fields are those of `RunLines` over all lines of all of `@inputs`. The result is `NoMethodError` when a line raised, and otherwise the number of header-valid completion lines. The report invariant is kept |

## Left out

- Text output to `output`: the threshold header and its `/1024` display, the verbose per-offence dump and the parsed-lines line (lines 18-21, 57, 114-116). `print_summary` is defined elsewhere and is not part of this model either. None of these changes the report's state.
- `generate_graph` and the Gruff chart set up at lines 11-15 and 128-162: a foreign library and file output.
- `@format`: it selects only output and charting, so the model has no format.
- `PriorityQueue` and `MemoryOinkedRequest` are not part of this model. `@bad_requests` is modelled as an append-only sequence holding every `Offence` pushed, in push order. The queue's capacity, its eviction of the lowest delta when full, and any reordering it applies for reading are not modelled. So `Consistent` and `OffencesAreRequests` describe the full history of pushed offences, not only the offences a bounded queue would still hold.
- `HODEL_LOG_FORMAT_REGEX` is not part of this model. It is the abstract `hodel` function of the report's configuration.
- `Base#initialize` is not part of this model. The constructor takes the inputs, the threshold and the header regex as parameters, and starts with empty maps and an empty offence sequence.
- A line that is not valid in its input's encoding makes `strip` (line 25) or the header match (line 28) raise `ArgumentError`, which ends `print`. The model's lines are decoded characters, so this case is not modelled: the raise condition of `StepSpec` and the result of `Print` hold for decodable input only.
- Ruby strings are byte strings. The model uses `seq<char>` and covers only ASCII whitespace, digits and word characters, which is all the patterns use.
- `@threshold` is taken to be an integer. A fractional threshold is not modelled.
- MemoryUsageReport.Report.Print: when a header-valid completion line without a process tag raises, the source has already incremented `oink_entry_count`. The count is then discarded with the exception, so the model returns `NoMethodError` without a count.
