# BDC: Phred-score averaging and GBFF feature parsing, modelled in Dafny

This project models the core of five course programs on large sequencing data.

- **Assignments 1 to 4** compute the average Phred quality score per read position of an Illumina FASTQ file.
  - Quality characters are decoded as `ord(c) - 33`.
  - The work is split into chunks and reduced per chunk.
  - The partial results are merged and divided.
  - Assignment 1 uses a local process pool.
  - Assignment 2 uses a job queue served to a worker.
  - Assignment 3 has a chunk mode and a combine mode.
  - Assignment 4 uses MPI: byte ranges are scattered and partial sums and counts are gathered.
- **Assignment 5** parses GenBank flat-file (GBFF) records.
  - It pulls the identifier, the organism and the feature table out of each record.
  - It splits every feature entry into key and location.
  - It keeps the features whose location matches a pattern, and parses that location.
  - It drops the genes that a coding sequence (CDS) lies within.

Modelling choices:

- Characters are integer code points and strings are `seq<char>`. Sums and counts are unbounded integers, and averages are exact `real` quotients.
- Python exceptions are values of a `Result` type: `IndexError`, `KeyError`, `ValueError`, `ZeroDivisionError`, `TypeError`.
- `pool.map`, `comm.scatter` and `comm.gather` are order-preserving sequential maps.
- The job queues of assignment 2 are a class with two FIFO sequence fields.
- A Python `dict` is an insertion-ordered list of entries.
- Where the program updates state step by step, the model has a method with a loop, proved equal to a specification function. This covers `chunks`, `calculate_quals`, `calculate_phred_scores`, the byte-range planner, `read_fastq_chunk`, the gather fold, `process_results` and `extract_feature_data`. The specification's properties are proved as lemmas.

Modules:

| file | module | models |
|---|---|---|
| common.dfy | Common | `Option`, `Result`, Python exceptions, `Flatten`, `Map` |
| text.dfy | Text | `strip`, `split()`, `split(sep)`, `sep.join`, `str(n)`, `int(s)` |
| quality.dfy | Quality | `calculate_quals`, `calculate_phred_scores` |
| partition.dfy | Partition | `chunks` |
| merge.dfy | Merge | `zip`-and-sum merge, zero-extended merge, per-position means |
| local_pool.dfy | LocalPool | assignment 1 and assignment 3 pipelines |
| queue_broker.dfy | QueueBroker | assignment 2 queues, worker and server merge |
| byte_ranges.dfy | ByteRanges | assignment 4 byte-range plan, scatter, `read_fastq_chunk` |
| collective.dfy | Collective | assignment 4 gather fold and `process_results` |
| mpi_run.dfy | MpiRun | assignment 4 `main` over all ranks |
| gbff.dfy | Gbff | assignment 5 record scan, entry and location splitters, filters |

## Model

| member | source | states |
|---|---|---|
| Partition.Chunks | Assignment1/assignment1.py:32-40 | Returns `mysize` chunks, none when `mysize <= 0`. Chunk `i` is the slice between the floor bounds `i·L/n` and `(i+1)·L/n`. Concatenated, the chunks give back the input. The partitioner is copied unchanged into assignment 2 (lines 73-81) and assignment 3 (lines 37-45). |
| Partition.ChunksOf | Assignment1/assignment1.py:35-39 | The list has exactly `mysize` chunks, and none for `mysize <= 0`. |
| Partition.ChunkAt | Assignment1/assignment1.py:36-38 | Chunk `i` holds `floor((i+1)·L/n) - floor(i·L/n)` elements. |
| Partition.ChunksCover | Assignment1/assignment1.py:36-38 | Concatenating the chunks in order yields the input, with no gap or overlap. |
| Partition.ChunksPrefix | Assignment1/assignment1.py:36-38 | The first `k` chunks concatenated are the input up to bound `k`. |
| Partition.ChunkSizes | Assignment1/assignment1.py:36-38 | Every chunk holds `L/n` or `L/n + 1` elements, so two chunk sizes differ by at most one. |
| Partition.FirstChunkEmpty | Assignment1/assignment1.py:36-38 | With more chunks than elements, the first chunk is empty. |
| Partition.SingleChunk | Assignment1/assignment1.py:35-38 | One chunk is the whole input. |
| Partition.BoundStep | Assignment1/assignment1.py:36-37 | Consecutive chunk bounds are `L/n` or `L/n + 1` apart. |
| Partition.BoundMonotone | Assignment1/assignment1.py:36-37 | Chunk bounds never decrease. |
| Partition.BoundEnds | Assignment1/assignment1.py:36-37 | The first bound is 0 and the last is the input length. |
| Quality.CalculateQuals | Assignment1/assignment1.py:62-71 | The result has one entry per position up to the longest line (none for no lines). Entry `i` is the sum of `ord(c) - 33` over the lines longer than `i`. The loop appends exactly when the index equals the current length. The reducer is copied unchanged into assignment 2 (lines 103-112) and assignment 3 (lines 67-76). |
| Quality.CalculatePhredScores | Assignment4/assignment4.py:60-73 | `sums` and `counts` have equal length, that of the longest line. `sums[i]` is column `i`'s score sum. `counts[i]` is the number of lines reaching `i`, which is at least 1. |
| Quality.AddQuals | Assignment1/assignment1.py:66-70 | Adding one line grows the totals to the longer of the two lengths. Each position gains that character's score where the line reaches it and is unchanged elsewhere. |
| Quality.AddPhreds | Assignment4/assignment4.py:65-72 | Adding one line does the same to the sums, and adds 1 to the count of every position the line reaches. |
| Quality.Profile | Assignment1/assignment1.py:64-71 | A per-position profile has the longest line's length. |
| Quality.MaxLen | Assignment1/assignment1.py:66-70 | The longest length bounds every line and is reached by one of them; it is 0 for no lines. |
| Quality.ColumnAppend | Assignment1/assignment1.py:65-70 | Column totals add up over a concatenation of line lists. |
| Quality.ColumnBeyond | Assignment1/assignment1.py:66-70 | No line contributes at or past the longest line's length. |
| Quality.ColumnCountBounds | Assignment4/assignment4.py:64-72 | A column count lies between 0 and the number of lines. It is at least 1 below the longest length. |
| Quality.ColumnSnoc | Assignment1/assignment1.py:65-70 | Adding one line adds its score to every column it reaches and may raise the longest length. |
| Merge.MinLen | Assignment1/assignment1.py:108 | The length of `zip(*parts)`: no longer than any part and equal to one of them, 0 for no parts. |
| Merge.ZipSumIsPrefix | Assignment1/assignment1.py:108 | The truncating `zip` merge has the shortest part's length. It is the zero-extended merge cut to that length. |
| Merge.ZipSumAgreesIff | Assignment1/assignment1.py:108 | The truncating and the zero-extended merges agree exactly when all parts have the same length. |
| Merge.ZipSumEmptyPart | Assignment1/assignment1.py:103-108 | One empty chunk result empties the truncating merge. |
| Merge.SumAtPermutation | Assignment2/assignment2.py:161-164 | Column sums do not depend on the order of the parts. |
| Merge.LengthsPermutation | Assignment2/assignment2.py:161-164 | The shortest and longest part lengths do not depend on the order of the parts. |
| Merge.MergesPermutation | Assignment2/assignment2.py:161-164 | Both merges give the same result whatever the order of the parts. |
| Merge.GetProfile | Assignment4/assignment4.py:132-134 | A chunk's profile read with a zero default past its end is its column total. |
| Merge.ExtendSumOfProfiles | Assignment3/assignment3.py:128-143 | The zero-extended merge of per-chunk profiles is the profile of all their lines together. |
| Merge.ProfilesColumns | Assignment3/assignment3.py:128-143 | Per-chunk profiles have the longest line of all chunks, and their column sums are the whole input's. |
| Merge.MeansOfProfile | Assignment4/assignment4.py:90 | Dividing a reducer's own sums by its own counts never fails. Position `i` is the mean score of the lines reaching `i`. |
| LocalPool.ChunkedZipSum | Assignment1/assignment1.py:103-108 | Below the merged length, entry `i` of the merge of the chunk results is column `i`'s score sum over the whole input. |
| LocalPool.ChunkedAverages | Assignment1/assignment1.py:103-108 | For any chunk count the averaging never raises. The result has the shortest chunk result's length, and entry `i` is column `i`'s sum divided by the record count. |
| LocalPool.Assignment1Result | Assignment1/assignment1.py:102-108 | Assignment 1 never raises. Its output has the shortest chunk result's length, and entry `i` is column `i`'s score sum divided by `len(qualities)`. |
| LocalPool.Assignment1FewRecords | Assignment1/assignment1.py:103-108 | With fewer than four records one chunk is empty, so the output is empty. |
| LocalPool.CombinedCountsCover | Assignment3/assignment3.py:131-132 | `combined_counts`, the sum of the chunk lengths, is `len(qualities)`. |
| LocalPool.ChunkModeIsAssignment1 | Assignment3/assignment3.py:125-133 | The chunk mode of assignment 3 computes exactly what assignment 1 computes. |
| LocalPool.CombineModeResult | Assignment3/assignment3.py:142-144 | The combine mode never raises. It has one entry per position up to the longest record, each column's score sum divided by the record count. |
| LocalPool.ChunkModeIsPrefixOfCombineMode | Assignment3/assignment3.py:130-144 | The chunk mode is the combine mode cut to the shortest chunk result's length. |
| LocalPool.ExtendedMergeIsDirect | Assignment3/assignment3.py:128-143 | Merging chunk results with zero extension gives `calculate_quals` of the whole input, for any chunk count. |
| LocalPool.TruncationDropsPositions | Assignment1/assignment1.py:103-108 | A single record `II` gives an empty assignment 1 output. The combine mode gives 40, 40. |
| LocalPool.CorrectedAveragesMeans | Assignment1/assignment1.py:102-108 | The corrected engine never divides by zero. It has one entry per position up to the longest record, each the mean score of exactly the records reaching it. |
| LocalPool.CorrectedIsDirect | Assignment3/assignment3.py:126-133 | The corrected engine over chunks equals the per-position mean of the whole input. |
| LocalPool.TotalCountDivisor | Assignment3/assignment3.py:143-144 | Records `!!` and `III` give 20, 20, 20 in combine mode. The third position is divided by 2 records though only one reaches it. |
| LocalPool.CorrectedOnExample | Assignment3/assignment3.py:143-144 | The corrected engine gives 20, 20, 40 on the same records, with any chunk count. |
| QueueBroker.TasksFor | Assignment2/assignment2.py:139-140 | One task per chunk, in order, each carrying the function and its chunk. |
| QueueBroker.ServeAll | Assignment2/assignment2.py:215-219 | A worker answers a run of tasks with one envelope each, in queue order. |
| QueueBroker.FirstPill | Assignment2/assignment2.py:209-213 | The first sentinel has only tasks ahead of it. |
| QueueBroker.JobQueues.constructor | Assignment2/assignment2.py:131-133 | Both queues start empty. |
| QueueBroker.JobQueues.SendData | Assignment2/assignment2.py:139-140 | The job queue gains one task per chunk at its back. The result queue is unchanged. |
| QueueBroker.JobQueues.SendPoisonPill | Assignment2/assignment2.py:156 | The sentinel is appended to the job queue. |
| QueueBroker.JobQueues.PeonStep | Assignment2/assignment2.py:207-223 | On an empty queue nothing changes. A dequeued sentinel is put back and the worker stops with no result. A dequeued task adds exactly one envelope, which carries `ERROR` when the function is unresolved. |
| QueueBroker.JobQueues.Peon | Assignment2/assignment2.py:205-223 | Every task ahead of the first sentinel is answered in queue order. The sentinel is left at the back for the next worker. |
| QueueBroker.JobQueues.TakeResults | Assignment2/assignment2.py:144-151 | The server takes the first `count` envelopes off the result queue. |
| QueueBroker.Phreds | Assignment2/assignment2.py:161-163 | The payload of every result, in order. |
| QueueBroker.MergeLength | Assignment2/assignment2.py:164 | A successful merge has the length of the shortest result. |
| QueueBroker.MergeOrderIndependent | Assignment2/assignment2.py:161-164 | The merged averages do not depend on the order in which results arrived. |
| QueueBroker.ChunkPayloads | Assignment2/assignment2.py:139-140 | The payload for chunk `k` is `calculate_quals` of chunk `k`. |
| QueueBroker.MergeOfChunkResults | Assignment2/assignment2.py:161-164 | In any arrival order, entry `i` is column `i`'s score sum divided by `deler`, the record count passed at line 261, below the shortest chunk result. |
| QueueBroker.MergeInOrder | Assignment2/assignment2.py:164 | The server's merge is the local pool's truncating merge and division. |
| QueueBroker.ServeChunks | Assignment2/assignment2.py:138-163 | Queueing one task per chunk and the sentinel, letting the worker serve the queue and taking one result per chunk gives `calculate_quals` of every chunk, in chunk order. |
| QueueBroker.RunFile | Assignment2/assignment2.py:129-165 | No output without chunks. Otherwise the output is the truncating merge of the chunk results divided by the record count. |
| ByteRanges.FilePlan | Assignment4/assignment4.py:110-115 | `nproc` ranges per file. Range `i` starts at `i * (size // nproc)`, and the last stops at the file size. |
| ByteRanges.PlanRanges | Assignment4/assignment4.py:107-115 | The planning loop builds the ranges of every file, file after file. |
| ByteRanges.PlanLength | Assignment4/assignment4.py:109-115 | The plan holds `nproc` ranges per file. |
| ByteRanges.FilePlanShape | Assignment4/assignment4.py:110-115 | Per file, ranges start at 0 and follow each other without gap or overlap. They end at the file size, and all but the last span `size // nproc` bytes. |
| ByteRanges.SmallFilePlan | Assignment4/assignment4.py:111-114 | In a file smaller than `nproc` bytes, all ranges but the last are empty and the last covers the file. |
| ByteRanges.Scatter | Assignment4/assignment4.py:119 | Rank `k` receives element `k`. A list whose length is not the rank count raises a ValueError. |
| ByteRanges.ScatterPlan | Assignment4/assignment4.py:107-119 | The plan can be scattered exactly when one file is given. |
| ByteRanges.LineEnd | Assignment4/assignment4.py:55 | `readline` moves the position past the next newline, or to the end of the text. |
| ByteRanges.ReadLine | Assignment4/assignment4.py:55 | Scanning to the next newline ends where `LineEnd` says. |
| ByteRanges.ReadFastqChunk | Assignment4/assignment4.py:49-58 | From `start`, a whole line is read whenever the position is below `stop`. The line is stripped and kept when not empty. |
| ByteRanges.MidLineFragment | Assignment4/assignment4.py:49-58 | For `ABCD\nE\n` and two ranks, rank 0 reads `ABCD` and rank 1 reads `D` and `E`. The whole file holds only `ABCD` and `E`. |
| ByteRanges.AlignUpProps | Assignment4/assignment4.py:53-55 | The aligned start is the first line start at or after the offset. |
| ByteRanges.LineEndSame | Assignment4/assignment4.py:55 | Every offset inside a line has the same line end. |
| ByteRanges.ReadSplit | Assignment4/assignment4.py:54-57 | Reading up to `c` is reading up to `b`, then on from where that stopped. |
| ByteRanges.WalkAligned | Assignment4/assignment4.py:54-57 | From a line start, reading stops at the first line start at or past `b`. |
| ByteRanges.AlignedSplit | Assignment4/assignment4.py:49-58 | Adjacent ranges read with the corrected reader give exactly the lines of their union. |
| ByteRanges.AlignedPlanCover | Assignment4/assignment4.py:107-120 | The corrected reads of a file's ranges, concatenated in plan order, are exactly the lines of the whole file. |
| ByteRanges.AlignedPrefix | Assignment4/assignment4.py:107-120 | The corrected reads of the first `k` ranges are the lines up to range `k`'s end. |
| Collective.Keys | Assignment4/assignment4.py:128-130 | The dictionary's keys, in insertion order. |
| Collective.Find | Assignment4/assignment4.py:129 | A lookup gives the first entry with the key. It finds nothing exactly when the key is absent. |
| Collective.FindSnoc | Assignment4/assignment4.py:129-130 | Inserting a new key never moves an existing lookup. |
| Collective.FindUpdate | Assignment4/assignment4.py:132-134 | Updating a value in place keeps every lookup where it was. |
| Collective.Dedup | Assignment4/assignment4.py:128-130 | The distinct keys in order of first appearance: no duplicates, same members. |
| Collective.AddInto | Assignment4/assignment4.py:132-134 | The index loop succeeds exactly when the later partial's sums are no longer than the kept sums, the kept counts and its own counts. Otherwise it raises an IndexError. On success the kept lengths are unchanged. |
| Collective.AddInPlace | Assignment4/assignment4.py:132-134 | The in-place loop computes `AddInto`. |
| Collective.GatherMerge | Assignment4/assignment4.py:126-134 | The dictionary-building loop computes the fold `Gather`. |
| Collective.GatherAsWritten | Assignment4/assignment4.py:126-134 | On well-formed partials the fold succeeds exactly when no partial is longer than its file's first partial. It then equals the zero-extending fold and keeps each file's first length. |
| Collective.GatherFailsWithIndexError | Assignment4/assignment4.py:132-134 | The only exception the fold raises is an IndexError. |
| Collective.GatherKeys | Assignment4/assignment4.py:128-130 | A successful fold's keys are the distinct gathered keys, in order of first appearance. |
| Collective.GatherDistinct | Assignment4/assignment4.py:128-130 | With distinct keys the fold inserts every pair as it is. |
| Collective.ReGather | Assignment4/assignment4.py:80-87 | The second fold in `process_results` leaves the gathered dictionary unchanged. |
| Collective.GatherErrPersists | Assignment4/assignment4.py:128-134 | Once the fold has raised, no later pair is looked at. |
| Collective.GatherExtendSpec | Assignment4/assignment4.py:126-134 | The corrected fold holds one entry per distinct key, in order of first appearance. A file's entry holds the zero-extended totals of all its partials. |
| Collective.AddIntoIsExtend | Assignment4/assignment4.py:132-134 | When the later partial is no longer than the kept one, the in-place addition is the zero-extending one. |
| Collective.FirstPartialShorter | Assignment4/assignment4.py:129-134 | A file whose first partial is shorter than a later one makes the fold raise an IndexError. The zero-extending fold keeps both positions. |
| Collective.CombinedSnoc | Assignment4/assignment4.py:132-134 | Adding one more partial with zero extension extends the totals by it. |
| Collective.AveragesSpec | Assignment4/assignment4.py:89-90 | Averaging succeeds exactly when every file does, with one list per file in order. Otherwise the error is that of the first file that fails; a file missing from the dictionary fails with a KeyError. |
| Collective.AveragesOkIff | Assignment4/assignment4.py:89-90 | Averaging succeeds exactly when every listed file averages successfully. |
| Collective.AveragesValues | Assignment4/assignment4.py:89-90 | On success there is one list per file, and list `k` is file `k`'s averages. |
| Collective.AveragesFirstError | Assignment4/assignment4.py:89-90 | On failure the error is that of a file before which every file succeeds. |
| Collective.AveragesErrPersists | Assignment4/assignment4.py:89-90 | Once a file fails, no later file is looked at. |
| Collective.ReportOfGathered | Assignment4/assignment4.py:75-90 | On the dictionary of lines 127-134 the report averages that dictionary directly. |
| Collective.ProcessResults | Assignment4/assignment4.py:75-90 | The re-fold and the per-file division, as loops. |
| MpiRun.RankWork | Assignment4/assignment4.py:120-122 | A rank reads its range and sends the file with its sums and counts. |
| MpiRun.PlanWithin | Assignment4/assignment4.py:110-115 | Every planned range lies within its file. |
| MpiRun.RunAssignment4 | Assignment4/assignment4.py:101-135 | Plan, scatter, every rank's work in rank order, gather, fold and report compute `Assignment4`. |
| MpiRun.ReduceFlatten | Assignment4/assignment4.py:120-134 | Reducing each rank's lines and adding the partials with zero extension is reducing all the lines at once. |
| MpiRun.SameKeyGatherExtend | Assignment4/assignment4.py:126-134 | Pairs that all carry one file fold into a single entry with the totals of all of them. |
| MpiRun.DedupSame | Assignment4/assignment4.py:128-130 | A list of one repeated key has that key as its only distinct key. |
| MpiRun.ReportOne | Assignment4/assignment4.py:80-90 | The report of a one-file dictionary is that file's per-position means. |
| MpiRun.Assignment4NeedsOneFile | Assignment4/assignment4.py:107-119 | With several files or none, the run raises a ValueError at the scatter. |
| MpiRun.OneFilePlan | Assignment4/assignment4.py:107-119 | With one file the plan is that file's ranges, and the scatter delivers them. |
| MpiRun.GatherOneKey | Assignment4/assignment4.py:126-134 | One file's pairs fold to an IndexError exactly when a later partial is longer than the first. Otherwise they fold to one entry with all the totals. |
| MpiRun.RankPartials | Assignment4/assignment4.py:120-124 | Rank `k` sends the file's path and the reduction of the lines of range `k`. |
| MpiRun.Assignment4OneFile | Assignment4/assignment4.py:101-135 | On one file the run raises an IndexError exactly when some rank's longest line is longer than rank 0's. Otherwise the averages are the per-position means over all lines the ranks read. |
| MpiRun.CorrectedOneFile | Assignment4/assignment4.py:101-135 | The corrected run on one file never fails. Its averages are the per-position means over the file's lines, each counted once. |
| Gbff.SecondToken | Assignment5/assignment5.py:62-63 | `line.split()[1]`, a non-empty word without whitespace, or nothing when there is no second token. |
| Gbff.HeaderEnd | Assignment5/assignment5.py:54-67 | The header ends at the first line starting with `FEATURES`. |
| Gbff.BlockLen | Assignment5/assignment5.py:55-58 | The feature block is the leading run of lines that start with five spaces. |
| Gbff.LastWith | Assignment5/assignment5.py:62-65 | The last line of the header that starts with a keyword, so the last `LOCUS` or `SOURCE` line wins. |
| Gbff.Entries | Assignment5/assignment5.py:58-59 | At most one token list per block line. |
| Gbff.EntriesAreWords | Assignment5/assignment5.py:58-59 | Every token of every collected feature line is a non-empty word free of whitespace. |
| Gbff.FormatAll | Assignment5/assignment5.py:69-71 | Entries are numbered from 1, one per feature. The formatting raises an IndexError exactly when a feature line has fewer than two tokens. |
| Gbff.ScanBlock | Assignment5/assignment5.py:55-61 | In feature mode the scan collects the block's feature lines and stops at the first line without the five-space indent. A line of exactly five spaces raises an IndexError. |
| Gbff.ScanHeader | Assignment5/assignment5.py:54-67 | Before `FEATURES`, a `LOCUS` line without a second token or a single-word `SOURCE` line raises an IndexError. Otherwise identifier and organism come from the last such lines, and the scan turns to feature mode after the `FEATURES` line. |
| Gbff.ScanRecordLines | Assignment5/assignment5.py:53-67 | The line loop, with its mode flag, `break` and `continue`, computes the recursive scan `ScanLines` from the empty state. |
| Gbff.ScanMeetsLinesSpec | Assignment5/assignment5.py:50-72 | On any list of lines, the scan followed by the row of lines 68-72 gives the header-then-table statement: an IndexError for a broken header, otherwise the header's fields with the table's numbered entries. |
| Gbff.ScanMeetsSpec | Assignment5/assignment5.py:50-72 | The line scan computes the whole-record statement `ExtractSpec`. |
| Gbff.ExtractFeatureData | Assignment5/assignment5.py:40-72 | The loop with its mode flag, `break` and `continue` returns exactly `ExtractSpec`. The identifier is the second token of the last `LOCUS` line before `FEATURES`. The organism is the last `SOURCE` line after its first word. The features are the feature-opening lines of the indented block, numbered and joined by `//`. A missing field is None. |
| Gbff.DecomposeFeatureInfo | Assignment5/assignment5.py:74-93 | The identifier and organism are carried over. The only errors are the ValueError of `int(info[0])` and the IndexError of a missing piece. |
| Gbff.DecomposeRoundTrip | Assignment5/assignment5.py:85-92 | An entry as line 70 formats it: `"i, key, location"` decomposes back to `(i, key, location)` when neither key nor location holds `", "`. |
| Gbff.DecomposeEmpty | Assignment5/assignment5.py:85-89 | An empty feature string decomposes to the ValueError of `int("")`. |
| Gbff.Explode | Assignment5/assignment5.py:137 | One row per `//`-separated piece of the features field, keeping identifier and organism. |
| Gbff.ExplodeDecompose | Assignment5/assignment5.py:85-92 | Exploding a scanned record's features and decomposing every piece gives back each feature's number, key and location, when they hold no `/`. |
| Gbff.ParseFeatureLocation | Assignment5/assignment5.py:95-120 | `complement` is set exactly when the location starts with `complement`. The only error is a ValueError. Identifier, organism, index and key are carried over. |
| Gbff.PatternComplete | Assignment5/assignment5.py:141 | Every optional `complement(`, digits, `..`, digits, optional `)` matches the pattern. |
| Gbff.PatternSound | Assignment5/assignment5.py:141 | Every match is such a string, its two optional parts chosen independently. |
| Gbff.ParseBalanced | Assignment5/assignment5.py:106-117 | A location with both wrapper parts or neither parses to the numbers its two digit strings denote. |
| Gbff.ParseOpenOnly | Assignment5/assignment5.py:106-117 | Under the pattern of line 141, with `complement(` but no `)`, the location matches. The slice `[11:-1]` then drops the last digit of the stop. |
| Gbff.ParseCloseOnly | Assignment5/assignment5.py:112-117 | Under the pattern of line 141, with `)` but no `complement(`, the location matches, and `int` of the stop raises a ValueError. |
| Gbff.UnclosedComplement | Assignment5/assignment5.py:106-117 | Under the pattern of line 141, `complement(12..34` matches and parses to start 12, stop 3. |
| Gbff.UnopenedLocation | Assignment5/assignment5.py:112-117 | Under the pattern of line 141, `12..34)` matches and the parser raises a ValueError. |
| Gbff.BalancedParses | Assignment5/assignment5.py:106-117 | Under the pattern of line 141, every location the balanced pattern accepts parses to the numbers on either side of `..` and the strand its wrapper gives. |
| Gbff.BalancedShapes | Assignment5/assignment5.py:141 | The balanced pattern accepts a shape exactly when both wrapper parts or neither are present. |
| Gbff.MapAll | Assignment5/assignment5.py:143 | A row-wise map succeeds exactly when every row does, with results in order. Otherwise it fails with some row's error. |
| Gbff.ParseAll | Assignment5/assignment5.py:143 | Parsing the filtered table succeeds exactly when every row parses. Its only error is a ValueError. |
| Gbff.SelectBalancedParses | Assignment5/assignment5.py:139-143 | With the balanced pattern no selected feature raises. Row `k` of the parse is the `k`-th kept feature with its identifier, organism, index and a wanted key, the numbers on either side of `..` as start and stop, and `complement` exactly when the location starts with it. |
| Gbff.UnopenedAbortsSelection | Assignment5/assignment5.py:139-143 | A `gene` at `12..34)` passes the filter and aborts the parse with a ValueError. |
| Gbff.UnopenedDroppedWhenBalanced | Assignment5/assignment5.py:139-143 | The balanced filter drops that feature. |
| Gbff.Filter | Assignment5/assignment5.py:139-142 | A filter never yields more rows than it was given. |
| Gbff.FilterMembers | Assignment5/assignment5.py:139-142 | A filter keeps every row that satisfies its condition and only such rows. |
| Gbff.ExcludeCodingGenes | Assignment5/assignment5.py:147-167 | A feature is kept exactly when it is not a gene, or no CDS lies within it. Lying within means the same identifier, the same strand, `gene.start <= cds.start` and `cds.stop <= gene.stop`. |
| Gbff.ExcludeCount | Assignment5/assignment5.py:157-167 | The result and the dropped genes together are the table, as a multiset. |
| Gbff.ExcludeKeepsNonGenes | Assignment5/assignment5.py:167 | The features that are not genes come through unchanged and in order. |
| Gbff.ExcludeIdempotent | Assignment5/assignment5.py:157-167 | Excluding twice is excluding once. |
| Text.TokensAreWords | Assignment5/assignment5.py:63 | `split()` yields non-empty words without whitespace. |
| Text.SplitOn | Assignment5/assignment5.py:86 | `split(sep)` yields at least one piece. |
| Text.SplitJoin | Assignment5/assignment5.py:86 | Splitting on an unbordered separator such as `", "` undoes a join whose pieces do not hold it. |
| Text.SplitJoinFree | Assignment5/assignment5.py:137 | Splitting on `//` undoes a join whose pieces hold no `/`. |
| Text.ParseNatToString | Assignment5/assignment5.py:89 | The index written by line 70 reads back: `int(str(n)) == n`. |
| Text.ParseInt | Assignment5/assignment5.py:116-117 | `int(s)` fails only with a ValueError. |
| Text.ParseIntSpec | Assignment5/assignment5.py:116-117 | `int(s)` succeeds exactly when the stripped string is digits with at most one leading `+` or `-`, and then gives the signed value of the digits. Otherwise it fails with a ValueError. |
| Text.ParsePadded | Assignment5/assignment5.py:116-117 | Any whitespace around an optionally signed numeral is ignored: `int` gives the digits' value, negated after a `-`. |

## Left out

- Reading FASTQ files in assignments 1 to 3 (`read_fastq`) is not modelled: the pipelines start from the list of quality lines.
- The CSV and console output (`generate_output`, and the writes of assignment4.py:91-99) is left out: the model returns the averages the programs write. This includes the print of line 97, which names the stale loop variable `file`.
- Argument parsing, output file naming and the loop over the files given on the command line are left out: every pipeline is modelled for one file.
- Assignment 2's network managers, sleeps and process start-up are not modelled. One worker serves the queue; several workers racing on the queue are left out.
- QueueBroker.JobQueues.Peon: requires a sentinel in the job queue. Without one the real worker sleeps and polls forever.
- QueueBroker.JobQueues.TakeResults: requires enough envelopes in the result queue. Otherwise the real server polls forever.
- QueueBroker.ServeChunks: the sentinel is queued before the worker runs. `runserver` puts it only after it has collected every result (assignment2.py:145-156). The sequential worker needs the sentinel in the queue to stop, and with one FIFO worker the payloads are the same.
- MPI concurrency is not modelled: the ranks run one after another, in rank order, which is the order `comm.gather` returns.
- ByteRanges.ReadFastqChunk: requires `stop` within the text, as every planned range is. Past the end of the file the real loop never terminates, because `tell()` stays below `stop`. ReadLines itself stops at the end of the text.
- ByteRanges.LineEnd: a line ends only at `\n`. With Python's default newline handling, a text-mode `readline()` also ends a line at a lone `\r` and reads `\r\n` as one line end. Files with carriage returns are not modelled.
- A FASTQ file is modelled as text with one character per byte; multi-byte UTF-8 characters are not modelled.
- As written, `read_fastq_chunk` scores every line of its range: headers, sequences and `+` lines as well as quality lines. The model keeps that behaviour.
- The corrected assignment 4 run still requires a single file, because the scatter of line 119 is left as it is.
- LocalPool.CorrectedAverages: on no records the corrected engine returns an empty list, as the program does; it does not raise an error for the empty input.
- Partition.Chunks: the bounds `int(i * len / mysize)` go through floating point; the model uses the exact floor, which differs only beyond 2^53.
- Text.ParseInt: accepts ASCII digits, one sign and surrounding whitespace. Python's underscores and non-ASCII digits are not modelled.
- The Spark session, `spark.read.text` with its `//\n` record separator, `toDF` schema inference and the analysis questions (assignment5.py:169-204) are left out. Only the row functions and the two row rules are modelled.
- Gbff.ExtractFeatureData: a row field the record never sets is modelled as None. In the program it is absent from the `Row`, and Spark's schema decides what it becomes.
- Gbff.ExcludeCodingGenes: the DataFrame union's row order is modelled as the non-genes followed by the kept genes. Spark does not promise an order.

## Findings

| source | as written | input that shows it | evidently intended | confidence | as-written member | corrected member |
|---|---|---|---|---|---|---|
| Assignment1/assignment1.py:108 | `zip(*phredscores)` truncates the merged sums to the shortest chunk result (also assignment2.py:164 and assignment3.py:130) | one record `II`: three of the four chunks are empty and the output is empty | one average per position up to the longest record | high, not executed | LocalPool.TruncationDropsPositions | LocalPool.CorrectedAveragesMeans |
| Assignment3/assignment3.py:144 | every position is divided by the total record count (also assignment1.py:108 and assignment2.py:164) | records `!!` and `III`: position 2 is 40 / 2 = 20 | the mean over the records that reach the position, 40 | medium, not executed | LocalPool.TotalCountDivisor | LocalPool.CorrectedOnExample |
| Assignment4/assignment4.py:132-134 | a later partial is added index by index into the first partial kept for its file | two ranks whose first partial has 1 position and the second 2: IndexError | zero-extending addition of all partials | high, not executed | Collective.FirstPartialShorter | Collective.GatherExtendSpec |
| Assignment4/assignment4.py:113-114 | byte ranges are cut at arbitrary offsets; the reader reads from mid-line | `ABCD\nE\n` on two ranks: rank 1 reads `D` as a line of its own | every line read once, by the range it starts in | high, not executed | ByteRanges.MidLineFragment | ByteRanges.AlignedPlanCover |
| Assignment5/assignment5.py:141 | the two optional parts of the location pattern are independent | `complement(12..34` parses to stop 3; `12..34)` raises a ValueError | `complement(` exactly when `)` | high, not executed | Gbff.UnclosedComplement | Gbff.BalancedParses |
