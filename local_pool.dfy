/** The local-pool pipelines: assignment 1 (`chunks(qualities, 4)`, a process
    pool over `calculate_quals`, the truncating merge divided by the record
    count, assignment1.py:102-108) and assignment 3 (the same chunk mode,
    divided by the summed chunk lengths, assignment3.py:125-133, and the
    combine mode over the whole file, assignment3.py:142-144).

    `pool.map` is modelled as an order-preserving sequential map. */
module LocalPool {
  import opened Common
  import opened Quality
  import opened Partition
  import opened Merge

  /** Both programs split every file into four chunks (assignment1.py:103,
      assignment3.py:126). */
  const NumChunks := 4

  /** `pool.map(calculate_quals, chunks)`. */
  function PoolMap(chunks: seq<seq<Line>>): seq<seq<int>>
  {
    ProfilesOf(chunks, Score)
  }

  /** assignment1.py:102-108: `[sum(i) / len(qualities) for i in zip(*phredscores)]`. */
  function Assignment1Averages(qualities: seq<Line>): Result<seq<real>>
  {
    DivideAll(ZipSum(PoolMap(ChunksOf(qualities, NumChunks))), |qualities|)
  }

  /** assignment3.py:126-133: the same truncating merge, divided by
      `combined_counts = sum(len(chunk) for chunk in qual_chunked)`. */
  function ChunkModeAverages(qualities: seq<Line>): Result<seq<real>>
  {
    var chunks := ChunksOf(qualities, NumChunks);
    DivideAll(ZipSum(PoolMap(chunks)), TotalLength(chunks))
  }

  /** assignment3.py:143-144: `calculate_quals` over the whole file, each
      entry divided by `len(qualities)`. */
  function CombineModeAverages(qualities: seq<Line>): Result<seq<real>>
  {
    DivideAll(Quals(qualities), |qualities|)
  }

  /** The column sums the chunk results carry: below the merged length, entry
      `i` of the truncating merge is column `i`'s sum over the whole input. */
  lemma ChunkedZipSum(qualities: seq<Line>, n: nat)
    requires n > 0
    ensures var z := ZipSum(PoolMap(ChunksOf(qualities, n)));
      |z| <= MaxLen(qualities) &&
      forall i :: 0 <= i < |z| ==> z[i] == ColumnSum(qualities, i)
  {
    var chunks := ChunksOf(qualities, n);
    ChunksCover(qualities, n);
    ProfilesColumns(chunks, Score);
    ZipSumIsPrefix(PoolMap(chunks));
  }

  /** Dividing the truncating merge of any number of chunk results by the
      record count never raises; entry `i` is column `i`'s score sum over
      the whole input divided by that count. */
  lemma ChunkedAverages(qualities: seq<Line>, n: nat)
    requires n > 0
    ensures DivideAll(ZipSum(PoolMap(ChunksOf(qualities, n))), |qualities|).Ok?
    ensures var r := DivideAll(ZipSum(PoolMap(ChunksOf(qualities, n))), |qualities|).value;
      var results := PoolMap(ChunksOf(qualities, n));
      |r| == MinLen(results) <= MaxLen(qualities) &&
      (forall k :: 0 <= k < |results| ==> |r| <= |results[k]|) &&
      forall i :: 0 <= i < |r| ==> r[i] == ColumnSum(qualities, i) as real / |qualities| as real
  {
    ChunkedZipSum(qualities, n);
    ZipSumIsPrefix(PoolMap(ChunksOf(qualities, n)));
    if qualities == [] {
      assert MaxLen(qualities) == 0;
    }
  }

  /** Assignment 1 never raises: its output has the length of the shortest
      chunk result, and entry `i` is column `i`'s score sum divided by the
      total record count, not by the number of records reaching `i`. */
  lemma Assignment1Result(qualities: seq<Line>)
    ensures Assignment1Averages(qualities).Ok?
    ensures var r := Assignment1Averages(qualities).value;
      var results := PoolMap(ChunksOf(qualities, NumChunks));
      |r| == MinLen(results) &&
      (forall k :: 0 <= k < |results| ==> |r| <= |results[k]|) &&
      forall i :: 0 <= i < |r| ==> r[i] == ColumnSum(qualities, i) as real / |qualities| as real
  {
    ChunkedAverages(qualities, NumChunks);
  }

  /** With fewer than four records one chunk is empty, so the whole output is empty. */
  lemma Assignment1FewRecords(qualities: seq<Line>)
    requires |qualities| < NumChunks
    ensures Assignment1Averages(qualities) == Ok([])
  {
    var chunks := ChunksOf(qualities, NumChunks);
    FirstChunkEmpty(qualities, NumChunks);
    assert chunks[0] == [];
    assert MaxLen(chunks[0]) == 0;
    assert PoolMap(chunks)[0] == Profile(chunks[0], Score) == [];
    ZipSumEmptyPart(PoolMap(chunks), 0);
    assert ZipSum(PoolMap(chunks)) == [];
    assert |DivideAll([], |qualities|).value| == 0;
    assert Assignment1Averages(qualities) == DivideAll(ZipSum(PoolMap(chunks)), |qualities|);
  }

  /** `combined_counts` is the record count, because the chunks cover the input. */
  lemma CombinedCountsCover(qualities: seq<Line>, n: nat)
    requires n > 0
    ensures TotalLength(ChunksOf(qualities, n)) == |qualities|
  {
    ChunksCover(qualities, n);
    FlattenLength(ChunksOf(qualities, n));
  }

  /** Assignment 3's chunk mode computes exactly what assignment 1 computes. */
  lemma ChunkModeIsAssignment1(qualities: seq<Line>)
    ensures ChunkModeAverages(qualities) == Assignment1Averages(qualities)
  {
    CombinedCountsCover(qualities, NumChunks);
  }

  /** The combine mode never raises: one entry per position up to the longest
      record, each column's score sum divided by the total record count. */
  lemma CombineModeResult(qualities: seq<Line>)
    ensures CombineModeAverages(qualities).Ok?
    ensures var r := CombineModeAverages(qualities).value;
      |r| == MaxLen(qualities) &&
      forall i :: 0 <= i < |r| ==> r[i] == ColumnSum(qualities, i) as real / |qualities| as real
  {
    if qualities == [] {
      assert MaxLen(qualities) == 0;
    }
  }

  /** The chunk mode agrees with the combine mode at every position it keeps:
      its output is the combine mode's output cut to the shortest chunk result. */
  lemma ChunkModeIsPrefixOfCombineMode(qualities: seq<Line>)
    ensures ChunkModeAverages(qualities).Ok? && CombineModeAverages(qualities).Ok?
    ensures var chunkMode := ChunkModeAverages(qualities).value;
      var combineMode := CombineModeAverages(qualities).value;
      |chunkMode| == MinLen(PoolMap(ChunksOf(qualities, NumChunks))) <= |combineMode| &&
      chunkMode == combineMode[..|chunkMode|]
  {
    ChunkModeIsAssignment1(qualities);
    Assignment1Result(qualities);
    CombineModeResult(qualities);
    ChunkedZipSum(qualities, NumChunks);
  }

  /** Corrected merge: folding the chunk results with zero extension gives
      exactly `calculate_quals` over the whole input, for any chunk count. */
  lemma ExtendedMergeIsDirect(qualities: seq<Line>, n: nat)
    requires n > 0
    ensures ExtendSum(PoolMap(ChunksOf(qualities, n))) == Quals(qualities)
  {
    ChunksCover(qualities, n);
    ExtendSumOfProfiles(ChunksOf(qualities, n), Score);
  }

  /** A single record of two `I`s (score 40): the truncating merge of
      assignment 1 drops both positions, the combine mode keeps them. */
  lemma TruncationDropsPositions()
    ensures Assignment1Averages([[73, 73]]) == Ok([])
    ensures CombineModeAverages([[73, 73]]) == Ok([40.0, 40.0])
  {
    var q: seq<Line> := [[73, 73]];
    Assignment1FewRecords(q);
    CombineModeResult(q);
    assert q[..0] == [];
    assert MaxLen(q) == 2;
    assert ColumnSum(q, 0) == 40 && ColumnSum(q, 1) == 40;
    var r := CombineModeAverages(q).value;
    assert r == [40.0, 40.0];
  }

  /** The corrected engine: zero-extended merge of per-chunk sums and per-chunk
      counts, then the per-position mean `sum / count`. */
  function CorrectedAverages(qualities: seq<Line>, n: nat): Result<seq<real>>
    requires n > 0
  {
    var chunks := ChunksOf(qualities, n);
    Means(ExtendSum(ProfilesOf(chunks, Score)), ExtendSum(ProfilesOf(chunks, One)))
  }

  /** The corrected engine never divides by zero and yields, per position, the
      mean score of exactly the records that reach that position. */
  lemma CorrectedAveragesMeans(qualities: seq<Line>, n: nat)
    requires n > 0
    ensures CorrectedAverages(qualities, n).Ok?
    ensures |CorrectedAverages(qualities, n).value| == MaxLen(qualities)
    ensures forall i :: 0 <= i < MaxLen(qualities) ==>
      ColumnCount(qualities, i) >= 1 &&
      CorrectedAverages(qualities, n).value[i] == ColumnSum(qualities, i) as real / ColumnCount(qualities, i) as real
  {
    CorrectedIsDirect(qualities, n);
    MeansOfProfile(qualities);
  }

  /** The corrected engine on chunks is the per-position mean of the whole input. */
  lemma CorrectedIsDirect(qualities: seq<Line>, n: nat)
    requires n > 0
    ensures CorrectedAverages(qualities, n) == Means(Quals(qualities), Counts(qualities))
  {
    var chunks := ChunksOf(qualities, n);
    ChunksCover(qualities, n);
    ExtendSumOfProfiles(chunks, Score);
    ExtendSumOfProfiles(chunks, One);
  }

  /** Records `!!` and `III` (scores 0 and 40): the combine mode divides the
      third position by 2 records although only one reaches it. */
  lemma TotalCountDivisor()
    ensures CombineModeAverages([[33, 33], [73, 73, 73]]) == Ok([20.0, 20.0, 20.0])
  {
    var a, b := [33, 33], [73, 73, 73];
    CombineModeResult([a, b]);
    MaxLenOfTwo(a, b);
    ColumnOfTwo(a, b, 0, Score);
    ColumnOfTwo(a, b, 1, Score);
    ColumnOfTwo(a, b, 2, Score);
    var r := CombineModeAverages([a, b]).value;
    assert r == [20.0, 20.0, 20.0];
  }

  /** The same records through the corrected engine, with any number of
      chunks: 20, 20 and 40. */
  lemma CorrectedOnExample(q: seq<Line>, n: nat)
    requires q == [[33, 33], [73, 73, 73]] && n > 0
    ensures CorrectedAverages(q, n) == Ok([20.0, 20.0, 40.0])
  {
    var a, b := q[0], q[1];
    assert q == [a, b];
    MaxLenOfTwo(a, b);
    ColumnOfTwo(a, b, 0, Score);
    ColumnOfTwo(a, b, 1, Score);
    ColumnOfTwo(a, b, 2, Score);
    ColumnOfTwo(a, b, 0, One);
    ColumnOfTwo(a, b, 1, One);
    ColumnOfTwo(a, b, 2, One);
    assert Quals(q) == [40, 40, 40];
    assert Counts(q) == [2, 2, 1];
    CorrectedIsDirect(q, n);
    MeansOnExample();
  }

  lemma MeansOnExample()
    ensures Means([40, 40, 40], [2, 2, 1]) == Ok([20.0, 20.0, 40.0])
  {
    var counts := [2, 2, 1];
    assert forall i :: 0 <= i < 3 ==> counts[i] != 0;
    var m := Means([40, 40, 40], counts).value;
    assert m == [20.0, 20.0, 40.0];
  }

  /** Column totals of a two-line input, written out. */
  lemma ColumnOfTwo(a: Line, b: Line, i: nat, w: int -> int)
    ensures Column([a, b], i, w) == (if i < |a| then w(a[i]) else 0) + (if i < |b| then w(b[i]) else 0)
  {
    assert [a, b][..1] == [a];
    assert [a][..0] == [];
    assert Column([a], i, w) == Column([], i, w) + (if i < |a| then w(a[i]) else 0);
    assert Column([a, b], i, w) == Column([a], i, w) + (if i < |b| then w(b[i]) else 0);
  }

  lemma MaxLenOfTwo(a: Line, b: Line)
    ensures MaxLen([a, b]) == if |a| < |b| then |b| else |a|
  {
    assert [a, b][..1] == [a];
    assert [a][..0] == [];
  }
}
