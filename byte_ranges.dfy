/** Assignment 4's work units: rank 0 cuts every file into `nproc` byte
    ranges (assignment4.py:107-115), `comm.scatter` hands one range to each
    rank (line 119), and each rank reads the lines of its range
    (`read_fastq_chunk`, lines 49-58).

    A file is its text, one character per byte; offsets are indices into it. */
module ByteRanges {
  import opened Common
  import opened Text
  import opened Partition

  const NL := '\n'

  /** A FastQ file: its path and its contents. */
  datatype FastqFile = FastqFile(path: String, content: String)

  /** A work unit `(file_path, start, stop)`. */
  datatype ByteRange = ByteRange(file: FastqFile, start: nat, stop: nat)

  /** Range `i` of `nproc`: `chunk_size = file_size // nproc`, start at
      `i * chunk_size`, and the last range stretched to the end of the file. */
  function RangeOf(f: FastqFile, nproc: nat, i: nat): ByteRange
    requires nproc >= 1
  {
    var size := |f.content|;
    var chunkSize := size / nproc;
    var start := i * chunkSize;
    ByteRange(f, start, if i < nproc - 1 then start + chunkSize else size)
  }

  /** The ranges of one file, in order. */
  function FilePlan(f: FastqFile, nproc: nat): (r: seq<ByteRange>)
    requires nproc >= 1
    ensures |r| == nproc && forall i :: 0 <= i < nproc ==> r[i] == RangeOf(f, nproc, i)
  {
    seq(nproc, i requires 0 <= i < nproc => RangeOf(f, nproc, i))
  }

  /** The list rank 0 builds: the ranges of every file, file after file. */
  function Plan(files: seq<FastqFile>, nproc: nat): seq<ByteRange>
    requires nproc >= 1
  {
    if files == [] then [] else Plan(files[..|files| - 1], nproc) + FilePlan(files[|files| - 1], nproc)
  }

  /** The planning loop of rank 0 (assignment4.py:108-115). */
  method PlanRanges(files: seq<FastqFile>, nproc: nat) returns (chunks: seq<ByteRange>)
    requires nproc >= 1
    ensures chunks == Plan(files, nproc)
  {
    chunks := [];
    for k := 0 to |files|
      invariant chunks == Plan(files[..k], nproc)
    {
      var f := files[k];
      var fileSize := |f.content|;
      var chunkSize := fileSize / nproc;
      ghost var before := chunks;
      for i := 0 to nproc
        invariant chunks == before + FilePlan(f, nproc)[..i]
      {
        var start := i * chunkSize;
        var stop := if i < nproc - 1 then start + chunkSize else fileSize;
        chunks := chunks + [ByteRange(f, start, stop)];
      }
      assert FilePlan(f, nproc)[..nproc] == FilePlan(f, nproc);
      assert files[..k + 1][..k] == files[..k];
    }
    assert files[..|files|] == files;
  }

  /** The plan holds `nproc` ranges per file. */
  lemma {:induction false} PlanLength(files: seq<FastqFile>, nproc: nat)
    requires nproc >= 1
    ensures |Plan(files, nproc)| == nproc * |files|
  {
    if files != [] {
      PlanLength(files[..|files| - 1], nproc);
      assert nproc * (|files| - 1) + nproc == nproc * |files|;
    }
  }

  /** Per file: ranges start at 0, follow each other without gap or overlap,
      end at the file size, and all but the last span `file_size // nproc`
      bytes. */
  lemma FilePlanShape(f: FastqFile, nproc: nat)
    requires nproc >= 1
    ensures var r := FilePlan(f, nproc);
      r[0].start == 0 && r[nproc - 1].stop == |f.content| &&
      (forall i :: 0 <= i < nproc ==> r[i].file == f && r[i].start <= r[i].stop <= |f.content|) &&
      (forall i :: 0 <= i < nproc - 1 ==>
        r[i].stop == r[i + 1].start && r[i].stop - r[i].start == |f.content| / nproc)
  {
    var r := FilePlan(f, nproc);
    forall i | 0 <= i < nproc
      ensures r[i].file == f && r[i].start <= r[i].stop <= |f.content|
    {
      RangeBounds(|f.content|, nproc, i);
    }
    forall i | 0 <= i < nproc - 1
      ensures r[i].stop == r[i + 1].start && r[i].stop - r[i].start == |f.content| / nproc
    {
      RangeBounds(|f.content|, nproc, i);
    }
  }

  lemma RangeBounds(size: nat, nproc: nat, i: nat)
    requires nproc >= 1 && i < nproc
    ensures i * (size / nproc) + size / nproc == (i + 1) * (size / nproc) <= size
  {
    var c := size / nproc;
    MulMonotone(c, i + 1, nproc);
    assert c * nproc <= size;
  }

  /** A file smaller than `nproc` bytes: every range but the last is empty,
      and the last covers the whole file. */
  lemma SmallFilePlan(f: FastqFile, nproc: nat)
    requires nproc >= 1 && |f.content| < nproc
    ensures var r := FilePlan(f, nproc);
      (forall i :: 0 <= i < nproc - 1 ==> r[i].start == r[i].stop == 0) &&
      r[nproc - 1] == ByteRange(f, 0, |f.content|)
  {
    DivUnique(|f.content|, nproc, 0, |f.content|);
  }

  /** `comm.scatter(sendobj)` with `size` ranks: rank `k` receives
      `sendobj[k]`; a list of any other length raises a ValueError. */
  function Scatter<T>(sendobj: seq<T>, size: nat): (r: Result<seq<T>>)
    ensures r.Ok? <==> |sendobj| == size
    ensures r.Ok? ==> r.value == sendobj
  {
    if |sendobj| != size then Err(ValueError) else Ok(sendobj)
  }

  /** The plan can be scattered exactly when a single file is given. */
  lemma ScatterPlan(files: seq<FastqFile>, nproc: nat)
    requires nproc >= 1
    ensures Scatter(Plan(files, nproc), nproc).Ok? <==> |files| == 1
  {
    PlanLength(files, nproc);
    if |files| >= 2 {
      MulMonotone(nproc, 2, |files|);
    }
  }

  /** The offset just past the next newline at or after `p`, or the end of
      the text: where `readline` leaves the file position. */
  function LineEnd(content: String, p: nat): (e: nat)
    ensures p < |content| ==> p < e <= |content| && (content[e - 1] == NL || e == |content|)
    ensures p < |content| ==> forall y :: p <= y < e - 1 ==> content[y] != NL
    ensures p >= |content| ==> e == |content|
    decreases |content| - p
  {
    if p >= |content| then |content|
    else if content[p] == NL then p + 1
    else LineEnd(content, p + 1)
  }

  /** A stripped line as the reader keeps it: dropped when empty. */
  function Kept(line: String): seq<String>
  {
    if line == [] then [] else [line]
  }

  /** The lines `read_fastq_chunk` keeps, from offset `pos` on: a whole line
      is read whenever it starts before `stop`, stripped, and kept when not
      empty. Reading also ends at the end of the text. */
  function ReadLines(content: String, pos: nat, stop: nat): seq<String>
    decreases |content| - pos
  {
    if pos >= stop || pos >= |content| then []
    else
      var e := LineEnd(content, pos);
      Kept(Strip(content[pos..e])) + ReadLines(content, e, stop)
  }

  /** `file.readline()` from offset `pos`: scan to the next newline and past it. */
  method ReadLine(content: String, pos: nat) returns (e: nat)
    requires pos < |content|
    ensures e == LineEnd(content, pos)
  {
    e := pos;
    while e < |content| && content[e] != NL
      invariant pos <= e <= |content|
      invariant LineEnd(content, e) == LineEnd(content, pos)
    {
      e := e + 1;
    }
    if e < |content| {
      e := e + 1;
    }
  }

  /** `read_fastq_chunk(file_path, start, stop)`: seek to `start`, then read
      lines while the position is below `stop`. */
  method ReadFastqChunk(content: String, start: nat, stop: nat) returns (qualityScores: seq<String>)
    requires stop <= |content|
    ensures qualityScores == ReadLines(content, start, stop)
  {
    qualityScores := [];
    var pos := start;
    ghost var total := ReadLines(content, start, stop);
    while pos < stop
      invariant qualityScores + ReadLines(content, pos, stop) == total
      decreases |content| - pos
    {
      var e := ReadLine(content, pos);
      var quality := Strip(content[pos..e]);
      ghost var before := qualityScores;
      if quality != [] {
        qualityScores := qualityScores + [quality];
      }
      ReadOne(content, pos, e, stop, quality, before, qualityScores);
      pos := e;
    }
    assert ReadLines(content, pos, stop) == [];
  }

  /** One line read and kept (or dropped) on top of the lines read so far. */
  lemma ReadOne(content: String, pos: nat, e: nat, stop: nat, quality: String, before: seq<String>, after: seq<String>)
    requires pos < stop <= |content| && e == LineEnd(content, pos)
    requires quality == Strip(content[pos..e])
    requires after == if quality == [] then before else before + [quality]
    ensures pos < e && after + ReadLines(content, e, stop) == before + ReadLines(content, pos, stop)
  {
    var kept := Kept(quality);
    assert ReadLines(content, pos, stop) == kept + ReadLines(content, e, stop);
    assert after == before + kept;
    AppendAssoc(before, kept, ReadLines(content, e, stop));
  }

  /** Reading the ranges `[0, 3)` and `[3, 7)` of `ABCD\nE\n` (the plan for
      two ranks): rank 0 reads the whole line `ABCD` and rank 1 reads its
      tail `D` again as a line of its own, where reading the whole file
      gives `ABCD` once. */
  lemma MidLineFragment(content: String)
    requires content == "ABCD\nE\n"
    ensures FilePlan(FastqFile("f", content), 2) ==
      [ByteRange(FastqFile("f", content), 0, 3), ByteRange(FastqFile("f", content), 3, 7)]
    ensures ReadLines(content, 0, 3) == ["ABCD"] && ReadLines(content, 3, 7) == ["D", "E"]
    ensures ReadLines(content, 0, 7) == ["ABCD", "E"]
  {
    ExamplePlan(content);
    ExampleFromThree(content);
    ExampleFromZero(content);
  }

  lemma ExamplePlan(content: String)
    requires |content| == 7
    ensures FilePlan(FastqFile("f", content), 2) ==
      [ByteRange(FastqFile("f", content), 0, 3), ByteRange(FastqFile("f", content), 3, 7)]
  {
    var f := FastqFile("f", content);
    assert |f.content| / 2 == 3;
    assert RangeOf(f, 2, 0) == ByteRange(f, 0, 3);
    assert RangeOf(f, 2, 1) == ByteRange(f, 3, 7);
  }

  lemma ExampleFromThree(content: String)
    requires content == "ABCD\nE\n"
    ensures ReadLines(content, 5, 7) == ["E"] && ReadLines(content, 3, 7) == ["D", "E"]
  {
    ExampleFromFive(content);
    TailOfFirstLine(content);
    ReadStep(content, 3, 7, "D");
  }

  lemma TailOfFirstLine(content: String)
    requires content == "ABCD\nE\n"
    ensures LineEnd(content, 3) == 5 && Strip(content[3..5]) == "D"
  {
    LineEndsOfExample(content);
    assert content[3..5] == "D" + [NL];
    StripLine("D");
  }

  lemma ExampleFromFive(content: String)
    requires content == "ABCD\nE\n"
    ensures ReadLines(content, 5, 7) == ["E"]
  {
    LineEndsOfExample(content);
    assert content[5..7] == "E" + [NL];
    StripLine("E");
    ReadStep(content, 5, 7, "E");
    assert ReadLines(content, 7, 7) == [];
  }

  lemma ExampleFromZero(content: String)
    requires content == "ABCD\nE\n"
    ensures ReadLines(content, 0, 3) == ["ABCD"] && ReadLines(content, 0, 7) == ["ABCD", "E"]
  {
    FirstLineOfExample(content);
    ExampleFromFive(content);
    ReadStep(content, 0, 3, "ABCD");
    assert ReadLines(content, 5, 3) == [];
    ReadStep(content, 0, 7, "ABCD");
  }

  lemma FirstLineOfExample(content: String)
    requires content == "ABCD\nE\n"
    ensures LineEnd(content, 0) == 5 && Strip(content[0..5]) == "ABCD"
  {
    LineEndsOfExample(content);
    assert content[0..5] == "ABCD" + [NL];
    StripLine("ABCD");
  }

  /** One kept line: the stripped line read from `pos` is not empty. */
  lemma ReadStep(content: String, pos: nat, stop: nat, w: String)
    requires pos < stop && pos < |content| && w != []
    requires Strip(content[pos..LineEnd(content, pos)]) == w
    ensures ReadLines(content, pos, stop) == [w] + ReadLines(content, LineEnd(content, pos), stop)
  {
  }

  lemma LineEndsOfExample(content: String)
    requires content == "ABCD\nE\n"
    ensures LineEnd(content, 0) == LineEnd(content, 3) == 5 && LineEnd(content, 5) == 7
  {
    assert content[4] == NL && content[6] == NL;
    assert content[3] != NL && content[5] != NL;
    assert LineEnd(content, 4) == 5;
    assert LineEnd(content, 3) == 5;
    assert content[2] != NL && content[1] != NL && content[0] != NL;
    assert LineEnd(content, 2) == 5;
    assert LineEnd(content, 1) == 5;
    assert LineEnd(content, 6) == 7;
  }

  lemma StripLine(w: String)
    requires w != [] && NoSpace(w)
    ensures Strip(w + [NL]) == w
  {
    var s := w + [NL];
    assert s[0] == w[0] && !IsSpace(s[0]);
    assert LStrip(s) == s;
    assert s[..|s| - 1] == w && IsSpace(s[|s| - 1]);
    assert RStrip(s) == RStrip(w);
    assert !IsSpace(w[|w| - 1]);
    assert RStrip(w) == w;
  }

  /** Offset `p` starts a line: the start or the end of the text, or just
      past a newline. */
  predicate Boundary(content: String, p: nat)
  {
    p == 0 || p == |content| || (0 < p < |content| && content[p - 1] == NL)
  }

  /** The first line start at or after `b`. */
  function AlignUp(content: String, b: nat): nat
  {
    if b >= |content| || Boundary(content, b) then b else LineEnd(content, b)
  }

  /** The corrected reader: skip the partial line a range starts in (the
      previous range reads it whole), then read as before. */
  function ReadAligned(content: String, a: nat, b: nat): seq<String>
  {
    ReadLines(content, AlignUp(content, a), b)
  }

  lemma AlignUpProps(content: String, x: nat)
    requires x <= |content|
    ensures x <= AlignUp(content, x) <= |content| && Boundary(content, AlignUp(content, x))
    ensures forall y :: x <= y < AlignUp(content, x) ==> !Boundary(content, y)
  {
  }

  /** Inside a line, every offset has the same line end. */
  lemma {:induction false} LineEndSame(content: String, p: nat, y: nat)
    requires p <= y < LineEnd(content, p) && p < |content|
    ensures LineEnd(content, y) == LineEnd(content, p)
    decreases y - p
  {
    if y > p {
      LineEndSame(content, p + 1, y);
    }
  }

  /** The first offset at or past `b` that reading from `p` reaches. */
  function Walk(content: String, p: nat, b: nat): nat
    decreases |content| - p
  {
    if p >= b || p >= |content| then p else Walk(content, LineEnd(content, p), b)
  }

  lemma AppendAssoc<T>(x: seq<T>, y: seq<T>, z: seq<T>)
    ensures x + (y + z) == (x + y) + z
  {
  }

  /** Reading up to `c` is reading up to `b`, then on from where that stopped. */
  lemma {:induction false} ReadSplit(content: String, p: nat, b: nat, c: nat)
    requires b <= c <= |content|
    ensures ReadLines(content, p, c) == ReadLines(content, p, b) + ReadLines(content, Walk(content, p, b), c)
    decreases |content| - p
  {
    if p < b && p < |content| {
      var e := LineEnd(content, p);
      var line := Kept(Strip(content[p..e]));
      ReadSplit(content, e, b, c);
      assert ReadLines(content, p, c) == line + ReadLines(content, e, c);
      assert ReadLines(content, p, b) == line + ReadLines(content, e, b);
      assert Walk(content, p, b) == Walk(content, e, b);
      AppendAssoc(line, ReadLines(content, e, b), ReadLines(content, Walk(content, e, b), c));
    } else {
      assert ReadLines(content, p, b) == [] && Walk(content, p, b) == p;
    }
  }

  /** From a line start, reading stops at the first line start at or past `b`. */
  lemma {:induction false} WalkAligned(content: String, p: nat, b: nat)
    requires b <= |content| && Boundary(content, p) && p <= b
    ensures Walk(content, p, b) == AlignUp(content, b)
    decreases |content| - p
  {
    if p < b {
      var e := LineEnd(content, p);
      if e <= b {
        WalkAligned(content, e, b);
      } else {
        LineEndSame(content, p, b);
      }
    }
  }

  /** Adjacent ranges read with the corrected reader give exactly the lines
      of their union: nothing lost, nothing read twice. */
  lemma AlignedSplit(content: String, a: nat, b: nat, c: nat)
    requires a <= b <= c <= |content|
    ensures ReadAligned(content, a, b) + ReadAligned(content, b, c) == ReadAligned(content, a, c)
  {
    var p := AlignUp(content, a);
    AlignUpProps(content, a);
    if p <= b {
      SplitAtLineStart(content, p, b, c);
    } else {
      AlignUpPast(content, a, b);
      assert ReadLines(content, p, b) == [];
    }
  }

  /** From a line start, reading up to `b` and then on from `b`'s next line
      start reads every line up to `c` once. */
  lemma SplitAtLineStart(content: String, p: nat, b: nat, c: nat)
    requires Boundary(content, p) && p <= b <= c <= |content|
    ensures ReadLines(content, p, b) + ReadLines(content, AlignUp(content, b), c) == ReadLines(content, p, c)
  {
    ReadSplit(content, p, b, c);
    WalkAligned(content, p, b);
  }

  /** An offset inside the partial line that `a` starts in shares `a`'s next
      line start. */
  lemma AlignUpPast(content: String, a: nat, b: nat)
    requires a <= b < AlignUp(content, a) && AlignUp(content, a) <= |content|
    ensures AlignUp(content, b) == AlignUp(content, a)
  {
    if a < b {
      AlignUpProps(content, a);
      assert !Boundary(content, a) && !Boundary(content, b);
      LineEndSame(content, a, b);
    }
  }

  /** The corrected reads of a file's ranges, concatenated in plan order,
      are the lines of the whole file. */
  lemma AlignedPlanCover(f: FastqFile, nproc: nat)
    requires nproc >= 1
    ensures Flatten(Map((r: ByteRange) => ReadAligned(r.file.content, r.start, r.stop), FilePlan(f, nproc)))
      == ReadLines(f.content, 0, |f.content|)
  {
    var pieces := Map((r: ByteRange) => ReadAligned(r.file.content, r.start, r.stop), FilePlan(f, nproc));
    FilePlanShape(f, nproc);
    AlignedPrefix(f, nproc, nproc);
    assert pieces[..nproc] == pieces;
  }

  lemma {:induction false} AlignedPrefix(f: FastqFile, nproc: nat, k: nat)
    requires 1 <= k <= nproc
    ensures var plan := FilePlan(f, nproc);
      Flatten(Map((r: ByteRange) => ReadAligned(r.file.content, r.start, r.stop), plan)[..k])
        == ReadAligned(f.content, 0, plan[k - 1].stop)
  {
    var plan := FilePlan(f, nproc);
    var pieces := Map((r: ByteRange) => ReadAligned(r.file.content, r.start, r.stop), plan);
    FilePlanShape(f, nproc);
    if k == 1 {
      assert pieces[..1] == [pieces[0]];
      assert pieces[..1][..0] == [];
    } else {
      AlignedPrefix(f, nproc, k - 1);
      assert pieces[..k][..k - 1] == pieces[..k - 1];
      AlignedSplit(f.content, 0, plan[k - 2].stop, plan[k - 1].stop);
    }
  }
}
