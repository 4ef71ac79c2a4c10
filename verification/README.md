# Date-boundary locator of extract_logs

`extract_logs` is meant to copy the lines of one day out of a large log
file. Every line starts with a `YYYY-MM-DD` date, and the lines are sorted by
that date. The core is `find_line_position` in `src/extract_logs.cpp`. It
runs a binary search over byte offsets. At each midpoint it walks back to
what it takes to be the start of a line, reads a chunk with `fgets`, and
compares the chunk's 10-byte date key with the target. Then it scans forward,
chunk by chunk, from where the search ended. In start mode it is meant to
return the offset of the first line with the target date, or `UINT64_MAX`
when there is none. In end mode it is meant to return the first line after
that date, or the file size. As written it can miss that line or never
return. On six lines of three days, two of 2024-01-01, three of 2024-01-02
and one of 2024-01-03, it reports 2024-01-02 missing
(`Defects.ThreeDaysMissesStart`; see "## Findings"). `validate_date` checks
the shape of the requested date, and `get_date_from_line` extracts a line's
key.

The project has two halves.

- **As written.** The code is modelled byte for byte:
  - `fseeko` with a `uint64_t` offset. It succeeds below `seekEnd` and fails
    from there on, leaving the cursor where it was. `seekEnd` is a parameter
    because the file system decides it: it is 2^63, where a `uint64_t` turns
    into a negative `off_t`, when the file system accepts every `off_t`
    offset, and lower on one with a smaller maximum file size, such as ext4;
  - `fgetc` at end of file;
  - `fgets` into a 256-byte buffer;
  - `strlen`-based key extraction;
  - `std::string` ordering;
  - `uint64_t` wrap-around at lines 60, 95 and 101.

  The binary-search loop may not terminate, so it is driven by fuel.
  - `Bytes`, `Dates` and `Stdio` hold the primitives.
  - `Realignment` holds the backward walk of lines 66-81.
  - `Search` holds one iteration and the loop.
  - `Scan` holds the linear scan.
  - `Locate` holds `find_line_position`.
- **As intended.** `Lines` defines the line structure of a log, well-formedness
  and sortedness. `Corrected` is the locator with its defects repaired. On
  every well-formed sorted log it is proved to return the first line of the
  target date and the boundary after that date. `Corrected.Extract` is the
  byte range that `main` copies.

`Defects` shows each defect on a concrete log and states what the repaired
locator returns on the same log.

The comment at line 66 says the walk aligns to the line start. The code at
line 79 seeks one byte past that start instead. The model follows the code,
and the difference is recorded under "## Findings".

## Model

| member | source | states |
|---|---|---|
| Bytes.StrLen | src/extract_logs.cpp:37 | strlen counts the bytes before the first NUL: none of them is NUL, and the byte at the count is NUL unless the buffer ends there |
| Bytes.LtIsLexicographic | src/extract_logs.cpp:92 | `current_date < target_date` is dictionary order: it holds exactly when some index witnesses a common prefix followed by a smaller byte or the end of the left string |
| Bytes.LtTrichotomy | src/extract_logs.cpp:91-102 | two keys are ordered one way, equal, or ordered the other way, and never both ways, so the bound updates never contradict each other |
| Bytes.LeIsLtOrEq | src/extract_logs.cpp:98 | `current_date <= target_date` (the library's `!(b < a)`) means less than or equal |
| Bytes.LtTransitive | src/extract_logs.cpp:92 | the key order is transitive |
| Dates.ValidateDate | src/extract_logs.cpp:24-34 | the date is accepted exactly when it has ten bytes, dashes at indices 4 and 7 and digits elsewhere |
| Dates.ValidFrom | src/extract_logs.cpp:26-32 | the loop from index i returns true exactly when every remaining position passes its test |
| Dates.ValidateDateExamples | src/extract_logs.cpp:24-34 | only the shape is checked: month 13 passes, while one-digit fields, a missing dash and the empty string fail |
| Dates.DateFromLine | src/extract_logs.cpp:36-39 | the key is empty exactly when the buffer has fewer than ten bytes before a NUL; otherwise it is the first ten bytes, none of them NUL |
| Dates.DateFromLinePrefix | src/extract_logs.cpp:36-39 | the key depends only on the first ten bytes of the buffer |
| Stdio.ReadLen | src/extract_logs.cpp:85 | fgets consumes bytes up to the first newline inclusive, at most 255, and no further than the end of the file |
| Stdio.Fgets | src/extract_logs.cpp:85 | fgets fails exactly at or past the end of the file; otherwise the chunk is the file bytes from the cursor up to the first newline, the 255-byte cap or the end of the file, and the cursor moves past it |
| Stdio.FgetsIs | src/extract_logs.cpp:85 | the chunk fgets returns is determined by where the next newline, the cap or the end of the file falls |
| Realignment.BackScan | src/extract_logs.cpp:70-74 | inside the file, the walk finds the last newline among bytes 1..p and no newline lies between it and p; when none is found, bytes 1..p hold none; it never gets stuck inside the file |
| Realignment.RealignInFile | src/extract_logs.cpp:64-83 | for a midpoint inside the file, the line start is 0 when mid is 0 or bytes 1..mid hold no newline; otherwise it is two bytes past the last newline q, because the seek goes to ftello + 1 with the cursor already at q + 1 (q + 1 in the one case where q + 2 is beyond the file system's reach) |
| Realignment.BackScanPastEnd | src/extract_logs.cpp:70-77 | past the end of the file fgetc returns EOF and the walk steps down two bytes at a time; in a file of at most one byte it is stuck at offset 1 when it started from an odd offset |
| Realignment.BackScanAtEof | src/extract_logs.cpp:70-74 | one pass at or past the end of the file: stuck at offset 1, done at 0 or 2, two bytes lower otherwise |
| Search.Initial | src/extract_logs.cpp:60 | the first window is never empty, so the loop runs at least once; it lies inside the file exactly when the file is not empty (on an empty file `high` wraps past the end) |
| Search.Mid | src/extract_logs.cpp:63 | the midpoint lies in the window and splits it into halves that differ by at most one |
| Search.Step | src/extract_logs.cpp:62-103 | one iteration: it hangs exactly when the walk is stuck and leaves the loop exactly when the line start is at or past the end of the file; a keyless chunk leaves the window unchanged; a key before the target moves `low` past the chunk; any other key sets `high` to `line_start - 1` on uint64_t |
| Search.Run | src/extract_logs.cpp:62-104 | when the loop exits, `low` is within the file |
| Search.FixedPointNeverExits | src/extract_logs.cpp:62-104 | an iteration that leads back to its own state repeats until the fuel runs out, so the loop never exits |
| Search.EmptyKeyStalls | src/extract_logs.cpp:85-88 | after a keyless chunk read from a seekable midpoint, the next iteration repeats itself for ever |
| Scan.Chunks | src/extract_logs.cpp:108-111 | the chunks that repeated fgets calls return tile the file from the scan's start to its end, in order, and each chunk is exactly what fgets returns when called at its start |
| Scan.LinearScan | src/extract_logs.cpp:106-127 | an offset the scan returns lies at or after where it started and inside the file, and the chunk read there has an accepted key |
| Scan.LinearScanStep | src/extract_logs.cpp:108-127 | one chunk of the scan: keyless and lower keys are read past; an accepted key returns this offset; a later key in start mode ends the scan empty-handed |
| Scan.LinearScanMeaning | src/extract_logs.cpp:106-127 | the scan returns the offset of a chunk where it stops, every earlier chunk having let it read on, and it reports nothing exactly when no chunk is such a place |
| Scan.AcceptsExcludesGoesOn | src/extract_logs.cpp:113-126 | no key both lets the scan read on and is accepted |
| Scan.ScanPastEnd | src/extract_logs.cpp:107-111 | a scan from the end of the file reads nothing |
| Locate.FindLinePosition | src/extract_logs.cpp:60-130 | any offset other than the sentinels starts with ten bytes equal to the target (start mode) or above it (end mode) |
| Locate.AfterSearch | src/extract_logs.cpp:106-130 | after the binary search the locator returns exactly when the search exited, and the answer is a sentinel or an offset keyed as above |
| Locate.AcceptedKeyInFile | src/extract_logs.cpp:116-125 | a chunk whose key the scan accepts begins with that key in the file |
| Locate.ExitAtEndIsSentinel | src/extract_logs.cpp:106-130 | a search that leaves `low` at the end of the file yields UINT64_MAX in start mode and the file size in end mode |
| Locate.RepeatsAfterFirstStep | src/extract_logs.cpp:62-104 | when the first iteration reaches a state that repeats itself, the locator never returns |
| Lines.LineStartOf | src/extract_logs.cpp:66-81 | the line start the walk is meant to find: a line start at or below mid, with no newline between it and mid |
| Lines.LineStartOfContains | src/extract_logs.cpp:66-81 | that start is the last line start at or below mid, and its line runs past mid |
| Lines.LineEnd | src/extract_logs.cpp:85 | a line ends after its first newline, or at the end of the file, with no newline inside |
| Lines.NoLineStartInside | src/extract_logs.cpp:93 | no line begins strictly inside another, so the offset after a line is the next candidate |
| Corrected.Narrow | src/extract_logs.cpp:62-103 | a repaired iteration keeps `low` at a line start or the end of the file and strictly shrinks the window; a keyless line moves `low` past it instead of stalling |
| Corrected.SearchFrom | src/extract_logs.cpp:60-104 | the repaired search terminates on every file, and it ends at a line start or the end of the file, no lower than it began |
| Corrected.SearchFromPartitions | src/extract_logs.cpp:62-104 | on a well-formed sorted log the search ends at the boundary: every line before it sorts before the target and no line from it on does |
| Corrected.NarrowKeeps | src/extract_logs.cpp:90-103 | each repaired iteration keeps both halves of that partition |
| Corrected.ScanLines | src/extract_logs.cpp:106-127 | the scan over whole lines returns only a line start whose key is accepted |
| Corrected.Locate | src/extract_logs.cpp:60-130 | the repaired locator returns only a line start whose key is accepted |
| Corrected.FindEnd | src/extract_logs.cpp:121-130 | the end offset is the file size or a line start whose key is after the target |
| Corrected.StartCorrect | src/extract_logs.cpp:106-130 | on a well-formed sorted log the start search finds the first line with the target date, and reports none only when no line has it |
| Corrected.EndCorrect | src/extract_logs.cpp:121-130 | on a well-formed sorted log the end search finds the boundary: lines before it are not after the target, lines from it on are |
| Corrected.BetweenBoundaries | src/extract_logs.cpp:154-168 | between the start and the end offset lie exactly the lines with the target date |
| Corrected.Extract | src/extract_logs.cpp:154-175 | the copied range is no longer than the file |
| Corrected.ExtractCorrect | src/extract_logs.cpp:154-175 | on a well-formed sorted log the start precedes the end; the bytes copied are file[start..end], which holds exactly the lines with the target date; with no start, nothing is copied and no line has that date |
| Defects.OffByOneMissesLine | src/extract_logs.cpp:79 | on "2024-01-01\n2024-01-02\n" the start search for 2024-01-02 returns UINT64_MAX although the second line has that date |
| Defects.ThreeDaysMissesStart | src/extract_logs.cpp:62-130 | on six lines of three days (two of 2024-01-01, three of 2024-01-02, one of 2024-01-03) the start search for 2024-01-02 returns UINT64_MAX on every file system and for every fuel of at least 2, although the third line has that date: both midpoints are newlines, and both chunks read one byte into a line sort below the target |
| Defects.ThreeDaysRepaired | src/extract_logs.cpp:62-130 | on the same log the repaired locator finds the start at 26 and the end at 65, and the bytes copied are exactly the three lines of 2024-01-02 |
| Defects.OffByOneRealign | src/extract_logs.cpp:79 | realigning the newline at offset 10 lands at 12, one byte past the line start 11 |
| Defects.OffByOneRepaired | src/extract_logs.cpp:66-83 | the repaired locator finds the second day at 11, the first line with its date |
| Defects.KeylessLineStalls | src/extract_logs.cpp:88 | on "2024-01-01\nab\n2024-01-02\n" the locator never returns, for every target and mode |
| Defects.KeylessLineRepaired | src/extract_logs.cpp:88 | the repaired locator steps past the keyless line and finds 2024-01-02 at 14 |
| Defects.KeylessLineHidesMatch | src/extract_logs.cpp:88 | stepping past a keyless line gives progress, not correctness: on "2024-01-02\nab\n2024-01-03\n" the line at 0 holds 2024-01-02, yet the repaired start search reports none and nothing is copied |
| Defects.WrapNeverEnds | src/extract_logs.cpp:95 | on the one-line log "2024-01-01 x\n" the start search for its own date never returns, because `high` wraps to UINT64_MAX, whether or not the file system can seek to the next midpoint 2^63 - 1 |
| Defects.WrapRepaired | src/extract_logs.cpp:95 | the repaired locator, whose window closes at -1, finds that line at 0 |
| Defects.EmptyFileHangs | src/extract_logs.cpp:60 | on an empty file the loop always runs with midpoint 2^63 - 1; for every target and mode the locator never returns exactly when the file system can seek to that offset (the walk from it gets stuck at offset 1), and otherwise it returns UINT64_MAX in start mode and 0 in end mode |
| Defects.EmptyFileRepaired | src/extract_logs.cpp:60 | the repaired locator on an empty file finds no start, ends at 0 and copies nothing |

## Left out

- File access at lines 42-58 is left out. `stat`, `fopen`, their error messages and `exit(1)` are not modelled. The file is a byte sequence given as a parameter, and its size is its length.
- The platform macros at lines 8-20 are left out, because they only rename calls.
- `main` at lines 133-182 is left out: argument handling, `mkdir`, the output file, the console messages and the `fread` copy loop. What `main` intends to copy, the bytes from the start offset to the end offset, is `Corrected.Extract`.
- `fclose` at lines 118, 123 and 129 is left out, because it does not change any value returned.
- Read errors other than end of file are not modelled. `fgets` and `fgetc` fail only at or past the end of the file.
- `isdigit` is the C-locale digit test on bytes. Its undefined behaviour on negative `char` values is not modelled.
- Search.Run: the loop is driven by fuel. Once the loop has left, more fuel gives the same answer, but no lemma states this: its proof over the concrete `Step` cost the verifier too much. The non-termination results are stated for every fuel, so they do not depend on it.
- Corrected.StartCorrect: correctness is proved only for logs in which every line carries a date key and the keys are sorted. On a log with keyless lines the repair of line 88 guarantees only that the search ends. It can miss a matching line: on "2024-01-02\nab\n2024-01-03\n" the repaired start search for 2024-01-02 reports none (Defects.KeylessLineHidesMatch). A search that is correct with keyless lines would need a direction for them, for example the key of the next dated line. That is not modelled.
- Corrected.EndCorrect: the same restriction as Corrected.StartCorrect. On a log with keyless lines the end offset is not proved to be the boundary after the target's date.
- Corrected.ExtractCorrect: the same restriction as Corrected.StartCorrect. On a log with keyless lines the copied range is not proved to hold the target's lines. On "2024-01-02\nab\n2024-01-03\n" nothing is copied for 2024-01-02 (Defects.KeylessLineHidesMatch).
- Corrected.ScanLines: the repaired model reads whole lines. It does not model the 255-byte `fgets` cap, so a line longer than 255 bytes is one line there.
- Realignment.RealignInFile: for a newline at q with q + 2 out of the file system's reach the result is q + 1. Only a file of the largest size the file system allows, ending in a newline, has such a newline.
- `fseeko` is reduced to one limit, `seekEnd`. Every offset below it can be reached and none from it on. A file system whose reachable offsets have gaps is not modelled.

## Findings

| source | as written | input that shows it | evidently intended | confidence | as-written member | corrected member |
|---|---|---|---|---|---|---|
| src/extract_logs.cpp:79 | after `fgetc` read the newline at q the cursor is already q + 1, and `fseeko(file, ftello(file) + 1, SEEK_SET)` moves it to q + 2 | log "2024-01-01\n2024-01-02\n", start of 2024-01-02: returns UINT64_MAX. The same happens on six lines of three days (Defects.ThreeDaysMissesStart) | realign to the start of the line that holds `mid`: one past the last newline strictly before `mid`, or 0 if there is none. `Corrected.Narrow` does this with `Lines.LineStartOf`, and then the first line with the date is found. Simply seeking to `ftello(file)` instead differs when `mid` is itself a newline, because the walk reads `mid` first and would take the line after it | not executed | Defects.OffByOneMissesLine | Defects.OffByOneRepaired |
| src/extract_logs.cpp:88 | a chunk without a key `continue`s with `low` and `high` unchanged, so the same midpoint is read again for ever | log "2024-01-01\nab\n2024-01-02\n", any target, either mode: never returns | a keyless probe must still shrink the window. The model moves `low` past the keyless line. That restores termination on every log, but not correctness on logs with keyless lines (Defects.KeylessLineHidesMatch) | not executed | Defects.KeylessLineStalls | Defects.KeylessLineRepaired |
| src/extract_logs.cpp:95 | `high = line_start - 1` on uint64_t wraps to UINT64_MAX when the line starts at 0 | log "2024-01-01 x\n", start of 2024-01-01: never returns, on every file system | a window that closes below 0, so the search ends with `low` at 0 (line 101 wraps the same way in end mode) | not executed | Defects.WrapNeverEnds | Defects.WrapRepaired |
| src/extract_logs.cpp:60 | `high = file_size - 1` on uint64_t wraps to UINT64_MAX for an empty file | empty log, any target, either mode, on a file system that can seek to offset 2^63 - 1 (the full off_t range): never returns. Where that seek fails, the locator happens to return the right answer | an empty window for an empty file, so start mode reports no line and end mode returns 0 | not executed | Defects.EmptyFileHangs | Defects.EmptyFileRepaired |
