/** One run of assignment 4 (assignment4.py:101-135): rank 0 plans the byte
    ranges, `comm.scatter` gives rank `k` range `k`, every rank reads its
    range and reduces its lines to sums and counts, `comm.gather` collects
    the `(file, (sums, counts))` pairs in rank order on rank 0, which folds
    them and averages every file.

    The ranks run one after another here; the gathered list is the ranks'
    results in rank order, which is what `comm.gather` returns. */
module MpiRun {
  import opened Common
  import opened Text
  import opened Quality
  import opened Merge
  import opened ByteRanges
  import opened Collective

  /** `ord(char)` of every character of every line. */
  function Codes(lines: seq<String>): seq<Line>
  {
    Map((s: String) => Map((c: char) => c as int, s), lines)
  }

  /** `calculate_phred_scores` of a rank's lines, as a partial result. */
  function Reduce(lines: seq<String>): Partial
  {
    Partial(Quals(Codes(lines)), Counts(Codes(lines)))
  }

  /** What rank `k` sends to `comm.gather` for its range (lines 120-122). */
  function RankEntry(chunk: ByteRange): Entry
  {
    Entry(chunk.file.path, Reduce(ReadLines(chunk.file.content, chunk.start, chunk.stop)))
  }

  function Paths(files: seq<FastqFile>): seq<String>
  {
    Map((f: FastqFile) => f.path, files)
  }

  /** The whole run: the averages per given file, or the exception that ends
      it. */
  function Assignment4(files: seq<FastqFile>, nproc: nat): Result<seq<seq<real>>>
    requires nproc >= 1
  {
    match Scatter(Plan(files, nproc), nproc)
    case Err(e) => Err(e)
    case Ok(chunks) =>
      match Gather(Map(RankEntry, chunks))
      case Err(e) => Err(e)
      case Ok(results) => Report(results, Paths(files))
  }

  /** Rank `k`'s work for one range (lines 120-122). */
  method RankWork(chunk: ByteRange) returns (result: Entry)
    requires chunk.stop <= |chunk.file.content|
    ensures result == RankEntry(chunk)
  {
    var qualityScores := ReadFastqChunk(chunk.file.content, chunk.start, chunk.stop);
    var phredSums, counts := CalculatePhredScores(Codes(qualityScores));
    IsProfile(Codes(qualityScores), Score, phredSums);
    IsProfile(Codes(qualityScores), One, counts);
    result := Entry(chunk.file.path, Partial(phredSums, counts));
  }

  /** Every planned range lies within its file. */
  lemma {:induction false} PlanWithin(files: seq<FastqFile>, nproc: nat)
    requires nproc >= 1
    ensures forall k :: 0 <= k < |Plan(files, nproc)| ==>
      Plan(files, nproc)[k].stop <= |Plan(files, nproc)[k].file.content|
  {
    if files != [] {
      var f := files[|files| - 1];
      PlanWithin(files[..|files| - 1], nproc);
      FilePlanShape(f, nproc);
    }
  }

  /** `main()` of every rank, the ranks taken in rank order. */
  method RunAssignment4(files: seq<FastqFile>, nproc: nat) returns (r: Result<seq<seq<real>>>)
    requires nproc >= 1
    ensures r == Assignment4(files, nproc)
  {
    var chunks := PlanRanges(files, nproc);
    var scattered := Scatter(chunks, nproc);
    if scattered.Err? {
      return Err(scattered.error);
    }
    PlanWithin(files, nproc);
    var allResults := RunRanks(chunks);
    var results := GatherMerge(allResults);
    if results.Err? {
      return Err(results.error);
    }
    r := ProcessResults(results.value, Paths(files));
  }

  /** Every rank does its work on its own range, in rank order. */
  method RunRanks(chunks: seq<ByteRange>) returns (allResults: seq<Entry>)
    requires forall k :: 0 <= k < |chunks| ==> chunks[k].stop <= |chunks[k].file.content|
    ensures allResults == Map(RankEntry, chunks)
  {
    allResults := [];
    for rank := 0 to |chunks|
      invariant allResults == Map(RankEntry, chunks[..rank])
    {
      var result := RankWork(chunks[rank]);
      assert chunks[..rank + 1] == chunks[..rank] + [chunks[rank]];
      allResults := allResults + [result];
    }
    assert chunks[..|chunks|] == chunks;
  }

  lemma CodesAppend(a: seq<String>, b: seq<String>)
    ensures Codes(a + b) == Codes(a) + Codes(b)
  {
  }

  lemma {:induction false} CodesFlatten(parts: seq<seq<String>>)
    ensures Codes(Flatten(parts)) == Flatten(Map(Codes, parts))
  {
    if parts != [] {
      var init, last := parts[..|parts| - 1], parts[|parts| - 1];
      CodesFlatten(init);
      CodesAppend(Flatten(init), last);
      var m := Map(Codes, parts);
      assert m[..|m| - 1] == Map(Codes, init);
    }
  }

  function Partials(xs: seq<Entry>): seq<Partial>
  {
    Map((e: Entry) => e.partial, xs)
  }

  /** Reducing the ranks' lines one by one and adding the results with zero
      extension is reducing all their lines at once. */
  lemma ReduceFlatten(ls: seq<seq<String>>)
    ensures Combined(Map(Reduce, ls)) == Reduce(Flatten(ls))
  {
    var chunks := Map(Codes, ls);
    var ps := Map(Reduce, ls);
    assert SumsOf(ps) == ProfilesOf(chunks, Score);
    assert CountsOf(ps) == ProfilesOf(chunks, One);
    ExtendSumOfProfiles(chunks, Score);
    ExtendSumOfProfiles(chunks, One);
    CodesFlatten(ls);
  }

  lemma {:induction false} PartsForAll(xs: seq<Entry>, f: String)
    requires forall k :: 0 <= k < |xs| ==> xs[k].file == f
    ensures PartsFor(xs, f) == Partials(xs)
  {
    if xs != [] {
      var init := xs[..|xs| - 1];
      PartsForAll(init, f);
      assert Partials(xs) == Partials(init) + [xs[|xs| - 1].partial];
    }
  }

  lemma {:induction false} FirstLenSameKey(xs: seq<Entry>, f: String)
    requires xs != [] && forall k :: 0 <= k < |xs| ==> xs[k].file == f
    ensures FirstLen(xs, f) == |xs[0].partial.sums|
  {
    var init := xs[..|xs| - 1];
    if init != [] {
      FirstLenSameKey(init, f);
      assert Keys(init)[0] == f;
    }
  }

  /** Pairs that all carry the same file fold into a single entry holding
      the zero-extended totals of all of them. */
  lemma SameKeyGatherExtend(xs: seq<Entry>, f: String)
    requires xs != [] && forall k :: 0 <= k < |xs| ==> xs[k].file == f
    ensures GatherExtend(xs) == [Entry(f, Combined(Partials(xs)))]
  {
    var d := GatherExtend(xs);
    SameKeyShape(xs, f);
    FindIs(d, f, 0);
    GatherExtendSpec(xs);
    assert d[0].partial == Combined(PartsFor(xs, f));
    PartsForAll(xs, f);
  }

  lemma SameKeyShape(xs: seq<Entry>, f: String)
    requires xs != [] && forall k :: 0 <= k < |xs| ==> xs[k].file == f
    ensures |GatherExtend(xs)| == 1 && GatherExtend(xs)[0].file == f
    ensures GatherExtend(xs) == [GatherExtend(xs)[0]]
  {
    GatherExtendSpec(xs);
    DedupSame(Keys(xs), f);
    assert Keys(GatherExtend(xs)) == [f];
  }

  lemma {:induction false} DedupSame(ks: seq<String>, f: String)
    requires ks != [] && forall k :: 0 <= k < |ks| ==> ks[k] == f
    ensures Dedup(ks) == [f]
  {
    var init := ks[..|ks| - 1];
    if init == [] {
      assert Dedup(init) == [];
    } else {
      DedupSame(init, f);
    }
  }

  /** The report of a dictionary holding one file is that file's averages. */
  lemma ReportOne(path: String, p: Partial)
    ensures Report([Entry(path, p)], [path]) == match Means(p.sums, p.counts)
      case Err(e) => Err(e)
      case Ok(avg) => Ok([avg])
  {
    var d := [Entry(path, p)];
    GatherDistinct(d);
    FindIs(d, path, 0);
    var files := [path];
    assert files[..0] == [];
    assert Averages(d, files[..0]) == Ok([]);
    assert FileAverages(d, path) == Means(p.sums, p.counts);
    var noAverages: seq<seq<real>> := [];
    assert forall avg :: noAverages + [avg] == [avg];
  }

  /** Rank `k` reads the lines of range `k` of the plan. */
  function RangeReads(plan: seq<ByteRange>): seq<seq<String>>
  {
    Map((r: ByteRange) => ReadLines(r.file.content, r.start, r.stop), plan)
  }

  /** Several files cannot be scattered over the ranks: the run raises a
      ValueError before any range is read. */
  lemma Assignment4NeedsOneFile(files: seq<FastqFile>, nproc: nat)
    requires nproc >= 1 && |files| != 1
    ensures Assignment4(files, nproc) == Err(ValueError)
  {
    ScatterPlan(files, nproc);
  }

  lemma OneFilePlan(f: FastqFile, nproc: nat)
    requires nproc >= 1
    ensures Plan([f], nproc) == FilePlan(f, nproc)
    ensures Scatter(Plan([f], nproc), nproc) == Ok(FilePlan(f, nproc))
  {
    assert [f][..0] == [];
  }

  /** The fold of pairs that all carry one file: an IndexError exactly when
      a later partial is longer than the first, else one entry with the
      zero-extended totals. */
  lemma GatherOneKey(parts: seq<Entry>, path: String)
    requires parts != [] && AllWellFormed(parts)
    requires forall k :: 0 <= k < |parts| ==> parts[k].file == path
    ensures Gather(parts) ==
      if forall k :: 0 <= k < |parts| ==> |parts[k].partial.sums| <= |parts[0].partial.sums|
      then Ok([Entry(path, Combined(Partials(parts)))])
      else Err(IndexError)
  {
    GatherAsWritten(parts);
    FirstLenSameKey(parts, path);
    if Gather(parts).Ok? {
      SameKeyGatherExtend(parts, path);
    } else {
      assert Gather(parts).error == IndexError by {
        GatherFailsWithIndexError(parts);
      }
    }
  }

  lemma PathsOne(f: FastqFile)
    ensures Paths([f]) == [f.path]
  {
  }

  /** What the ranks send for the ranges of one file. */
  lemma RankPartials(f: FastqFile, nproc: nat)
    requires nproc >= 1
    ensures var parts := Map(RankEntry, FilePlan(f, nproc));
      var rankLines := RangeReads(FilePlan(f, nproc));
      |parts| == nproc && AllWellFormed(parts) &&
      (forall k :: 0 <= k < nproc ==> parts[k].file == f.path) &&
      (forall k :: 0 <= k < nproc ==> |parts[k].partial.sums| == MaxLen(Codes(rankLines[k]))) &&
      Partials(parts) == Map(Reduce, rankLines)
  {
  }

  /** No rank's longest line is longer than rank 0's. */
  predicate FirstRankLongest(rankLines: seq<seq<String>>)
  {
    forall k :: 0 <= k < |rankLines| ==> MaxLen(Codes(rankLines[k])) <= MaxLen(Codes(rankLines[0]))
  }

  lemma Assignment4Unfold(f: FastqFile, nproc: nat)
    requires nproc >= 1
    ensures Assignment4([f], nproc) == match Gather(Map(RankEntry, FilePlan(f, nproc)))
      case Err(e) => Err(e)
      case Ok(results) => Report(results, [f.path])
  {
    OneFilePlan(f, nproc);
    PathsOne(f);
  }

  /** A run on one file: the fold raises an IndexError exactly when some
      rank's longest line is longer than rank 0's; otherwise the file's
      averages are the per-position means over all the lines the ranks read,
      taken together. */
  lemma Assignment4OneFile(f: FastqFile, nproc: nat)
    requires nproc >= 1
    ensures var rankLines := RangeReads(FilePlan(f, nproc));
      var lines := Codes(Flatten(rankLines));
      Means(Quals(lines), Counts(lines)).Ok? &&
      Assignment4([f], nproc) ==
        if FirstRankLongest(rankLines) then Ok([Means(Quals(lines), Counts(lines)).value]) else Err(IndexError)
  {
    var rankLines := RangeReads(FilePlan(f, nproc));
    var lines := Codes(Flatten(rankLines));
    MeansOfProfile(lines);
    var parts := Map(RankEntry, FilePlan(f, nproc));
    Assignment4Unfold(f, nproc);
    RankPartials(f, nproc);
    GatherOneKey(parts, f.path);
    if FirstRankLongest(rankLines) {
      assert forall k :: 0 <= k < |parts| ==> |parts[k].partial.sums| <= |parts[0].partial.sums|;
      ReduceFlatten(rankLines);
      ReportOne(f.path, Reduce(Flatten(rankLines)));
    } else {
      var k :| 0 <= k < |rankLines| && MaxLen(Codes(rankLines[k])) > MaxLen(Codes(rankLines[0]));
      assert |parts[k].partial.sums| > |parts[0].partial.sums|;
    }
  }

  /** The corrected rank: it skips the line its range starts inside of. */
  function AlignedRankEntry(chunk: ByteRange): Entry
  {
    Entry(chunk.file.path, Reduce(ReadAligned(chunk.file.content, chunk.start, chunk.stop)))
  }

  /** The corrected run: ranks read whole lines only, and rank 0 folds the
      partials with zero extension. */
  function CorrectedAssignment4(files: seq<FastqFile>, nproc: nat): Result<seq<seq<real>>>
    requires nproc >= 1
  {
    match Scatter(Plan(files, nproc), nproc)
    case Err(e) => Err(e)
    case Ok(chunks) => Report(GatherExtend(Map(AlignedRankEntry, chunks)), Paths(files))
  }

  lemma CorrectedUnfold(f: FastqFile, nproc: nat)
    requires nproc >= 1
    ensures CorrectedAssignment4([f], nproc) ==
      Report(GatherExtend(Map(AlignedRankEntry, FilePlan(f, nproc))), [f.path])
  {
    OneFilePlan(f, nproc);
    PathsOne(f);
  }

  /** The corrected ranks' pairs for the ranges of one file. */
  lemma AlignedRankPartials(f: FastqFile, nproc: nat)
    requires nproc >= 1
    ensures var parts := Map(AlignedRankEntry, FilePlan(f, nproc));
      |parts| == nproc &&
      (forall k :: 0 <= k < nproc ==> parts[k].file == f.path) &&
      Partials(parts) == Map(Reduce, Map((r: ByteRange) => ReadAligned(r.file.content, r.start, r.stop), FilePlan(f, nproc)))
  {
    FilePlanShape(f, nproc);
  }

  /** The corrected run on one file never fails, and its averages are the
      per-position means over the lines of the whole file, each line counted
      once. */
  lemma CorrectedOneFile(f: FastqFile, nproc: nat)
    requires nproc >= 1
    ensures var lines := Codes(ReadLines(f.content, 0, |f.content|));
      Means(Quals(lines), Counts(lines)).Ok? &&
      CorrectedAssignment4([f], nproc) == Ok([Means(Quals(lines), Counts(lines)).value])
  {
    var rankLines := Map((r: ByteRange) => ReadAligned(r.file.content, r.start, r.stop), FilePlan(f, nproc));
    AlignedPlanCover(f, nproc);
    var lines := Codes(Flatten(rankLines));
    MeansOfProfile(lines);
    var parts := Map(AlignedRankEntry, FilePlan(f, nproc));
    CorrectedUnfold(f, nproc);
    AlignedRankPartials(f, nproc);
    SameKeyGatherExtend(parts, f.path);
    ReduceFlatten(rankLines);
    ReportOne(f.path, Reduce(Flatten(rankLines)));
  }
}
