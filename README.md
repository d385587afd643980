# Web-log analyzer, modelled in Dafny

This project models `LogAnalyzer`, a small web-server access-log statistics class. The analyzer
has three counter arrays:

- 24 hour-of-day slots;
- 31 day-of-month slots;
- 12 month-of-year slots.

One analysis pass drains the log reader. For each entry it adds one to the entry's hour slot, day
slot and month slot. Read-only queries then scan the arrays:

- the total number of accesses;
- the truncated average per month;
- the first busiest and first quietest hour, day and month;
- the busiest two-hour window.

Files:

- `counts.dfy`, module `Counts`: specifications over counter contents. These are `Sum`, the
  first-maximum and first-minimum predicates, and the two-hour-window predicates. The module also
  holds the two scanning methods that every busiest/quietest query shares.
- `log_entry.dfy`, module `LogEntries`: the log entries the reader yields, and `Tally`. `Tally`
  counts how many entries fall in a given slot.
- `log_analyzer.dfy`, module `Analyzer`: the class `LogAnalyzer`.
  - Its fields are the three `array<int>` counters, the log file name, and the entries the reader
    has not yet yielded (`pending`).
  - A ghost field `consumed` records the entries that analysis has drained.
  - `Valid()` states the invariant that the class keeps: every slot of every counter equals the
    tally of `consumed` for that slot.

The log reader is external to this code. It is modelled as the sequence of entries it would yield:
`hasNext()` is `pending != []` and `next()` takes `pending[0]`. A second analysis pass therefore
finds the reader exhausted and adds nothing.

## Model

| member | source | states |
|---|---|---|
| `Analyzer.LogAnalyzer.Demo` | LogAnalyzer.java:19-28 | the no-argument constructor gives fresh counter arrays of 24, 31 and 12 slots, all zero, and a reader over "demo.log" |
| `Analyzer.LogAnalyzer.FromFile` | LogAnalyzer.java:35-41 | the file-name constructor gives fresh 24/31/12-slot zeroed counters and a reader over the given file |
| `Analyzer.LogAnalyzer.AnalyzeData` | LogAnalyzer.java:46-57 | drains the reader. Each hour, day and month slot ends at its old value plus the number of drained entries carrying that index. The arrays and their lengths stay the same, and the counter invariant is preserved |
| `Analyzer.LogAnalyzer.NumberOfAccesses` | LogAnalyzer.java:100-108 | returns the sum of the hourly counters, which equals the number of entries analysed since construction; nothing is modified |
| `Analyzer.LogAnalyzer.AverageAccessesPerMonth` | LogAnalyzer.java:115-125 | returns the monthly total divided by the 12 monthly slots, truncated. This is the number of analysed entries divided by 12, so 12 times the result is at most that number and within 12 of it |
| `Analyzer.LogAnalyzer.BusiestHour` | LogAnalyzer.java:132-145 | returns an hour in range whose count is at least every other hour's; it is the lowest such hour |
| `Analyzer.LogAnalyzer.QuietestHour` | LogAnalyzer.java:171-184 | returns an hour in range whose count is at most every other hour's; it is the lowest such hour |
| `Analyzer.LogAnalyzer.BusiestDay` | LogAnalyzer.java:190-203 | returns the lowest day slot holding the largest daily count |
| `Analyzer.LogAnalyzer.QuietestDay` | LogAnalyzer.java:209-222 | returns the lowest day slot holding the smallest daily count |
| `Analyzer.LogAnalyzer.BusiestMonth` | LogAnalyzer.java:228-241 | returns the lowest month slot holding the largest monthly count |
| `Analyzer.LogAnalyzer.QuietestMonth` | LogAnalyzer.java:247-260 | returns the lowest month slot holding the smallest monthly count |
| `Analyzer.LogAnalyzer.BusiestTwoHoursAsWritten` | LogAnalyzer.java:152-164 | the literal loop reaches the read of `hourCounts[24]` at hour 23, so every call ends in an out-of-bounds exception at index 24 |
| `Analyzer.LogAnalyzer.BusiestTwoHours` | LogAnalyzer.java:152-164 | with the second read wrapped to `(hour + 1) % 24` and the baseline never updated, it returns the last hour whose window exceeds `hourCounts[0] + hourCounts[23]`, or 23 when no hour does |
| `Analyzer.LogAnalyzer.BusiestTwoHoursPeak` | LogAnalyzer.java:152-164 | with the baseline updated on every improvement, it returns the start of a two-hour window with the largest combined count. Ties go first to 23 and then to the lowest hour |
| `Analyzer.AnalyzeTwice` | LogAnalyzer.java:46-57 | analysing the same reader twice counts each entry once: after two passes the total equals the log's length |
| `Counts.Sum` | LogAnalyzer.java:100-108 | the total of counters that are all non-negative is non-negative |
| `Counts.SumBump` | LogAnalyzer.java:51 | incrementing one counter slot raises the total by exactly one |
| `Counts.FirstMaxIndex` | LogAnalyzer.java:132-145 | the shared busiest scan: a strictly-greater comparison starting from slot 0 yields the lowest index holding the maximum |
| `Counts.FirstMinIndex` | LogAnalyzer.java:171-184 | the shared quietest scan: a strictly-smaller comparison starting from slot 0 yields the lowest index holding the minimum |
| `Counts.FirstMaxUnique` | LogAnalyzer.java:138 | the first busiest slot is determined uniquely by the counts |
| `Counts.FirstMinUnique` | LogAnalyzer.java:177 | the first quietest slot is determined uniquely by the counts |
| `Counts.AllZeroPicksFirst` | LogAnalyzer.java:134-135 | when all counts are zero, both the busiest and the quietest query return slot 0, and no other slot |
| `Counts.PeakAndTroughExample` | LogAnalyzer.java:132-184 | for hourly counts 5, 1, …, 1, 9 the busiest hour is 23 and the quietest is 1 |
| `Counts.WrapAroundExample` | LogAnalyzer.java:154-163 | when only hour 23 (3) and hour 0 (4) are non-zero, both two-hour scans return 23 |
| `Counts.BaselineScanMissesPeak` | LogAnalyzer.java:154-163 | for hourly counts 0, 5, 5, 1, 0, … the never-updated baseline scan returns hour 3 (window of 1), while the busiest window starts at hour 1 (window of 10) |
| `LogEntries.Tally` | LogAnalyzer.java:46-57 | no slot counts more entries than were consumed |
| `LogEntries.TallyAppend` | LogAnalyzer.java:46-57 | counts over two stretches of the log add up, so successive passes accumulate |
| `LogEntries.TallyMissing` | LogAnalyzer.java:46-57 | a slot that no drained entry carries is left unchanged by a pass |
| `LogEntries.TallyTotal` | LogAnalyzer.java:100-108 | when every entry is in range, the slots of one counter family add up to the number of entries |

## Findings

| source | as written | input that shows it | evidently intended | confidence | as-written member | corrected member |
|---|---|---|---|---|---|---|
| LogAnalyzer.java:156-158 | the loop runs `hour` up to 23 and reads `hourCounts[hour + 1]` | any call: at hour 23 it reads `hourCounts[24]` of a 24-slot array | the window from hour 23 wraps to hour 0, `hourCounts[(hour + 1) % 24]` | high (not executed) | `Analyzer.LogAnalyzer.BusiestTwoHoursAsWritten` | `Analyzer.LogAnalyzer.BusiestTwoHours` |
| LogAnalyzer.java:154-163 | `firstPlace` keeps the window 23-0 for the whole loop; only `busiest` changes | hourly counts 0, 5, 5, 1, 0, …, 0: the scan returns 3 (window of 1), not 1 (window of 10) | `firstPlace` is updated together with `busiest`, as in `busiestHour` | medium (not executed) | `Counts.BaselineScanMissesPeak` | `Analyzer.LogAnalyzer.BusiestTwoHoursPeak` |

The first row has two halves.

- As written: `BusiestTwoHoursAsWritten` models the literal loop, Java's bounds check included.
- Corrected: `BusiestTwoHours` keeps the source's baseline behaviour and only wraps the index.

The second row has two halves.

- As written: `BusiestTwoHours` ensures `IsLastAboveBaseline`. `BaselineScanMissesPeak` shows that
  this result can miss the busiest window.
- Corrected: `BusiestTwoHoursPeak` updates the running best.

Notes on how the model reads the code:

- `analyzeData` uses the entry's day and month directly as indices into `dayCounts` and
  `monthCounts`. The model therefore requires 0 ≤ hour < 24, 0 ≤ day < 31 and 0 ≤ month < 12.
  The printing code labels slot `i` as day or month `i + 1`. A reader that yields 1-based days and
  months would be outside this precondition on day 31 and in December. The log entry class is not
  part of this model, so the model follows the indexing in the code.
- Every counter equals a tally of consumed entries, so it is never negative. On non-negative
  operands, Java's division (which truncates toward zero) agrees with Dafny's `/`.
- The six busiest/quietest methods of the source repeat one loop shape. The model writes that loop
  once, as `FirstMaxIndex` and `FirstMinIndex`, and the six query methods call it on their own
  array.
- Separate hourly, daily and monthly analysis passes and an hourly print method are not in this
  source. The model has the single combined `analyzeData`.

## Left out

- The log reader and log entry classes: opening the file, parsing lines and iterating are I/O. The
  entries the reader would yield for the file are a constructor parameter, so the content of
  "demo.log" is a parameter of `Demo`.
- `printDailyCounts`, `totalAccessesPerMonth` and `printData` (LogAnalyzer.java:64-92): console
  output, and a call into the reader's own printing.
- Java's 32-bit `int` arithmetic: counters and totals are unbounded integers, so wrap-around after
  2^31 - 1 accesses is not modelled.
- Analyzer.LogAnalyzer.AnalyzeData: an entry whose field is out of range makes Java throw
  ArrayIndexOutOfBoundsException part-way through a pass. The precondition excludes such an entry
  instead of modelling that partial update.
