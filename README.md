# File chunker: the chunk planner

The file chunker splits a text document into overlapping chunks of a fixed
number of lines, writes each chunk to its own file behind a metadata header,
and writes an index that lists every chunk. This project models its one
computation, the chunk planner inside `chunk_file`, and the two deterministic
formatting rules of its output, and proves what the chunker promises about
them.

- `ChunkPlan` (chunk_plan.dfy): the entry record `ChunkEntry`; the overlap rule
  `OverlapLines` (the configured percentage of a chunk, rounded down, never
  below one line) and `Step`; the planning loop `PlanChunks`, a `while` loop over
  `start_idx` and `chunk_num` that appends one entry per chunk, as the program
  does; and the reference plan `Plan`, which `PlanChunks` is proved to return.
  `Plan` states every chunk directly: chunk k starts at the running start
  `StartAfter(step, k)`, k steps into the document, which
  `StartAfterIsMultiple` shows is zero-based line `k * step`; and the number of chunks is given in closed
  form, `1 + ceil((total - size) / step)` for a document longer than a chunk.
  `PlanChunksChecked` is the planner with the configuration checked first.
- `ChunkProperties` (chunk_properties.dfy): the planner's promises, as lemmas
  about `Plan`: numbering, reported overlaps, bounds and payloads, the last
  chunk, the advance between chunks, coverage without gaps, reassembly of the
  document, and the non-terminating loop when the window cannot advance.
- `Decimal` (decimal.dfy): decimal digits, their parsing back, and left
  padding, as the `{n:03d}` and `{n:5d}` format specifications print numbers.
- `ChunkOutput` (chunk_output.dfy): the chunk file name `chunk-NNN.txt` and the
  index line of a chunk with its optional overlap note.

The planner's loop only stops when the window advances (`step > 0`) or when
the first chunk already reaches the last line. `PlanChunks` requires exactly
that (`LoopEnds`); `StalledLoopNeverBreaks` shows that otherwise the loop runs
forever. An empty document gives zero chunks, which is what the loop does
(its guard `start_idx < total_lines` fails at once).

## Model

| member | source | states |
|---|---|---|
| ChunkPlan.OverlapLines | scripts/chunk-file.py:27 | the overlap is at least one line, and otherwise the configured percentage of the chunk size rounded down (`r = 1` or `100 r <= size * percent`, and `size * percent < 100 (r + 1)`) |
| ChunkPlan.Step | scripts/chunk-file.py:28 | the window advances by the chunk size minus the overlap, always less than a full chunk, so consecutive chunks share at least one line; `LargePercentStalls` and `ScenarioStalled` say when it does not advance |
| ChunkPlan.StartOf | scripts/chunk-file.py:38-61 | chunk k starts at the running start `StartAfter(step, k)` (which `StartAfterIsMultiple` shows is `k * step`), inside the document, and is followed by another chunk exactly when it ends before the last line |
| ChunkPlan.PlanChunks | scripts/chunk-file.py:26-62 | the planning loop, whenever it terminates, returns exactly the reference plan `Plan` |
| ChunkPlan.PlanChunksChecked | scripts/chunk-file.py:27-38 | refuses with a configuration error exactly when the step is not positive, and otherwise returns the plan |
| ChunkProperties.PlanNumbering | scripts/chunk-file.py:36-62 | chunks are numbered consecutively from 1 in list order |
| ChunkProperties.PlanOverlapReports | scripts/chunk-file.py:42-54 | a non-empty document's first chunk starts at line 1 and reports overlap 0; every later chunk reports the overlap, which is at least 1 |
| ChunkProperties.PlanEntriesPlaced | scripts/chunk-file.py:38-55 | every chunk is a range `1 <= start <= end <= total`; its line count is the range's size, between 1 and the chunk size; its payload is exactly the document's lines in that range |
| ChunkProperties.EntryPlaced | scripts/chunk-file.py:39-55 | the same facts for one chunk of the plan |
| ChunkProperties.PlanEnd | scripts/chunk-file.py:38-59 | there are no chunks exactly when the document is empty; otherwise the last chunk ends at the last line and no earlier chunk reaches it |
| ChunkProperties.AdvanceAt | scripts/chunk-file.py:39-61 | chunk i + 1 starts `step` lines after chunk i, chunk i is full, and chunk i + 1 re-reads exactly the last overlap lines of chunk i |
| ChunkProperties.PlanAdvance | scripts/chunk-file.py:39-61 | the same for every pair of consecutive chunks |
| ChunkProperties.PlanCoversDocument | scripts/chunk-file.py:38-61 | the chunks are contiguous, every line from 1 to the total lies in some chunk, and no chunk reaches outside the document |
| ChunkProperties.ContiguousCovers | scripts/chunk-file.py:38-61 | contiguous ranges from line 1 to line total cover every line in between |
| ChunkProperties.JoinPrefix | scripts/chunk-file.py:53-61 | the first k chunks, each later one without its overlap, concatenate to the document up to the k-th chunk's end line |
| ChunkProperties.PlanReassembles | scripts/chunk-file.py:53-61 | the first chunk followed by every later chunk without its first overlap lines is the whole document |
| ChunkProperties.PlanShapeIgnoresContent | scripts/chunk-file.py:26-39 | the number of chunks and their boundaries depend only on the number of lines |
| ChunkProperties.LargePercentStalls | scripts/chunk-file.py:27-28 | an overlap of 100 percent or more makes the step zero or negative |
| ChunkPlan.StartAfterIsMultiple | scripts/chunk-file.py:35-61 | after k passes the loop's running `start_idx` equals `k * step` |
| ChunkProperties.StalledLoopNeverBreaks | scripts/chunk-file.py:38-61 | when the step is not positive and the document is longer than a chunk, after any number of passes the loop guard still holds and the break is not taken |
| ChunkProperties.ScenarioThreeChunks | scripts/chunk-file.py:26-62 | 1000 lines, size 500, 5 percent: overlap 25, step 475, chunks 1-500, 476-975 and 951-1000 (50 lines) |
| ChunkProperties.ScenarioOneChunk | scripts/chunk-file.py:26-62 | 500 lines, size 500: one chunk 1-500 with overlap 0 holding the whole document |
| ChunkProperties.ScenarioStalled | scripts/chunk-file.py:27-28 | size 100 at 100 percent, and size 1 at 0 percent, give step 0; size 0 gives step -1 |
| Decimal.Digits | scripts/chunk-file.py:67 | the decimal digits of n, at least one, without a leading zero |
| Decimal.ParseDigits | scripts/chunk-file.py:67 | the decimal digits of n read back as n |
| Decimal.PadLeft | scripts/chunk-file.py:105 | the padded string has the field width (or the string's length if longer), ends with the string and is filled on the left |
| Decimal.ZeroPaddedDigits | scripts/chunk-file.py:67 | zero padding keeps the value: the padded digits still read back as n |
| ChunkOutput.ChunkFileName | scripts/chunk-file.py:67 | the name is `chunk-`, at least three digits (exactly three below 1000) that read back as the chunk number, then `.txt` |
| ChunkOutput.FileNameRoundTrip | scripts/chunk-file.py:67 | the chunk number can be read back from its file name |
| ChunkOutput.FileNamesDistinct | scripts/chunk-file.py:67 | different chunk numbers give different file names |
| ChunkOutput.PlanFileNamesDistinct | scripts/chunk-file.py:65-68 | the chunks of a plan go to pairwise different files |
| ChunkOutput.IndexHead | scripts/chunk-file.py:105 | the head starts with `Chunk ` and ends with `)`; when every value fits its field it is 40 characters long, with the number, start line, end line and line count in fields of 3, 5, 5 and 3 characters at fixed places, each reading back as the entry's value once its padding spaces are trimmed, between the literal separators `: Lines `, `-`, ` (` and ` lines)` |
| ChunkOutput.IndexLine | scripts/chunk-file.py:104-108 | the index line begins with the head, ends in a newline, and carries the overlap note (`OverlapNote`, ` [Overlap: n lines from previous]`) exactly when the chunk's reported overlap is positive; its length is the head's plus the newline plus the note's, so nothing else lies between them |
| ChunkOutput.IndexLineExact | scripts/chunk-file.py:104-108 | any string with the index line's head, note, newline and length is the index line: the contract of `IndexLine` determines it |
| ChunkOutput.IndexNotesAllButFirst | scripts/chunk-file.py:104-108 | in the index of a plan, exactly the chunks after the first carry the overlap note |

## Left out

- Reading the input file and decoding it, creating the output directory, and writing the chunk files and `INDEX.txt`: file I/O. The document is a parameter, a sequence of lines.
- The creation timestamps in the chunk header and the index: they come from the clock.
- The base name of the input path in the chunk header: a library call, not modelled.
- The fixed text of the chunk header and of the index preamble: constant formatting around numbers the model already has (chunk number, line range, line count, overlap, total).
- The progress and summary lines printed to standard output.
- Command-line parsing, its defaults, and the check that the input file exists.
- ChunkPlan.OverlapLines: the program computes the percentage with a float division and truncates; the model uses integer division, which agrees for non-negative operands but does not model float rounding on very large products.
- ChunkPlan.PlanChunks: chunk size and overlap percent are natural numbers; negative values, which the command line would accept, are not modelled.
- ChunkOutput.IndexHead: a value too wide for its field (a chunk number or line count of 1000 or more, a line number of 100000 or more) widens that field, as the format specification does; the contract then states only the first word and the closing parenthesis, not where each field falls.

## Findings

| source | as written | input that shows it | evidently intended | confidence | as-written member | corrected member |
|---|---|---|---|---|---|---|
| scripts/chunk-file.py:27-61 | the loop advances by `step = chunk_size - overlap_lines` with no check that `step > 0` | 200 lines with chunk size 100 and overlap 100 percent (step 0), or 2 lines with chunk size 1 (overlap 1, step 0): `start_idx` never moves and the loop never ends | refuse a configuration whose window cannot advance | high; not executed | ChunkProperties.StalledLoopNeverBreaks | ChunkPlan.PlanChunksChecked |
