/** The per-position reducers: the column sums of Phred scores over a list of
    quality lines (`calculate_quals` in assignments 1 to 3) and the parallel
    sums and counts of assignment 4 (`calculate_phred_scores`).

    The specification is a column total: `Column(lines, i, w)` adds `w(l[i])`
    over every line `l` that is longer than `i`. With `w = Score` it is the
    column's score sum, with `w = One` the number of lines reaching column `i`. */
module Quality {
  import opened Common

  /** One quality line, as the code points of its characters. */
  type Line = seq<int>

  /** The Phred+33 decoding of one character, `ord(c) - 33`. */
  function Score(c: int): int { c - 33 }

  /** The weight that counts observations. */
  function One(c: int): int { 1 }

  /** The length of the longest line; 0 when there are none. */
  function MaxLen(lines: seq<seq<int>>): (m: nat)
    ensures forall k :: 0 <= k < |lines| ==> |lines[k]| <= m
    ensures lines == [] ==> m == 0
    ensures lines != [] ==> exists k :: 0 <= k < |lines| && |lines[k]| == m
  {
    if lines == [] then 0
    else
      var m := MaxLen(lines[..|lines| - 1]);
      var l := |lines[|lines| - 1]|;
      if m < l then l else m
  }

  /** Sum of `w(l[i])` over the lines `l` longer than `i`. */
  function Column(lines: seq<Line>, i: nat, w: int -> int): int
  {
    if lines == [] then 0
    else
      var l := lines[|lines| - 1];
      Column(lines[..|lines| - 1], i, w) + (if i < |l| then w(l[i]) else 0)
  }

  function ColumnSum(lines: seq<Line>, i: nat): int { Column(lines, i, Score) }

  function ColumnCount(lines: seq<Line>, i: nat): int { Column(lines, i, One) }

  /** One column total per position, up to the longest line. */
  function Profile(lines: seq<Line>, w: int -> int): (r: seq<int>)
    ensures |r| == MaxLen(lines)
  {
    seq(MaxLen(lines), i requires 0 <= i => Column(lines, i, w))
  }

  /** A list with one entry per position holding that column's total is the profile. */
  lemma IsProfile(lines: seq<Line>, w: int -> int, s: seq<int>)
    requires |s| == MaxLen(lines)
    requires forall i :: 0 <= i < |s| ==> s[i] == Column(lines, i, w)
    ensures s == Profile(lines, w)
  {
  }

  /** What `calculate_quals` computes, and `phred_sums` of `calculate_phred_scores`. */
  function Quals(lines: seq<Line>): seq<int> { Profile(lines, Score) }

  /** The `counts` of `calculate_phred_scores`. */
  function Counts(lines: seq<Line>): seq<int> { Profile(lines, One) }

  lemma {:induction false} MaxLenAppend(a: seq<Line>, b: seq<Line>)
    ensures MaxLen(a + b) == if MaxLen(a) < MaxLen(b) then MaxLen(b) else MaxLen(a)
  {
    if b == [] {
      assert a + b == a;
    } else {
      assert (a + b)[..|a + b| - 1] == a + b[..|b| - 1];
      MaxLenAppend(a, b[..|b| - 1]);
    }
  }

  /** Column totals add up over a concatenation of line lists. */
  lemma {:induction false} ColumnAppend(a: seq<Line>, b: seq<Line>, i: nat, w: int -> int)
    ensures Column(a + b, i, w) == Column(a, i, w) + Column(b, i, w)
  {
    if b == [] {
      assert a + b == a;
    } else {
      assert (a + b)[..|a + b| - 1] == a + b[..|b| - 1];
      ColumnAppend(a, b[..|b| - 1], i, w);
    }
  }

  /** No line reaches a column at or past the longest line. */
  lemma {:induction false} ColumnBeyond(lines: seq<Line>, i: nat, w: int -> int)
    requires MaxLen(lines) <= i
    ensures Column(lines, i, w) == 0
  {
    if lines != [] {
      ColumnBeyond(lines[..|lines| - 1], i, w);
    }
  }

  /** The count of a column is the number of lines reaching it: between 1 and
      the number of lines below the longest line, and never negative. */
  lemma {:induction false} ColumnCountBounds(lines: seq<Line>, i: nat)
    ensures 0 <= ColumnCount(lines, i) <= |lines|
    ensures i < MaxLen(lines) ==> 1 <= ColumnCount(lines, i)
  {
    if lines != [] {
      var init := lines[..|lines| - 1];
      ColumnCountBounds(init, i);
      if i < MaxLen(lines) && |lines[|lines| - 1]| <= i {
        assert i < MaxLen(init);
      }
    }
  }

  /** One step of the reducers' outer loop: adding one line to the list. */
  lemma ColumnSnoc(lines: seq<Line>, l: Line, i: nat, w: int -> int)
    ensures Column(lines + [l], i, w) == Column(lines, i, w) + (if i < |l| then w(l[i]) else 0)
    ensures MaxLen(lines + [l]) == if MaxLen(lines) < |l| then |l| else MaxLen(lines)
  {
    assert (lines + [l])[..|lines + [l]| - 1] == lines;
  }

  /** `after` is `before` with `w` of every character of `line` added at
      its position, extended with zeros first where `line` is longer. */
  predicate Added(before: seq<int>, after: seq<int>, line: Line, w: int -> int)
  {
    |after| == (if |before| < |line| then |line| else |before|) &&
    forall i :: 0 <= i < |after| ==>
      after[i] == (if i < |before| then before[i] else 0) + (if i < |line| then w(line[i]) else 0)
  }

  /** Totals of a list of lines, plus one more line, are the totals of the
      longer list. */
  lemma AddedColumns(lines: seq<Line>, l: Line, before: seq<int>, after: seq<int>, w: int -> int)
    requires |before| == MaxLen(lines) && forall i :: 0 <= i < |before| ==> before[i] == Column(lines, i, w)
    requires Added(before, after, l, w)
    ensures |after| == MaxLen(lines + [l])
    ensures forall i :: 0 <= i < |after| ==> after[i] == Column(lines + [l], i, w)
  {
    ColumnSnoc(lines, l, 0, w);
    forall i | 0 <= i < |after| ensures after[i] == Column(lines + [l], i, w) {
      ColumnSnoc(lines, l, i, w);
      if |before| <= i {
        ColumnBeyond(lines, i, w);
      }
    }
  }

  /** One more line added column by column extends the profile of a prefix
      to the profile of the next prefix. */
  lemma AddedProfile(lines: seq<Line>, k: nat, before: seq<int>, after: seq<int>, w: int -> int)
    requires k < |lines|
    requires before == Profile(lines[..k], w)
    requires Added(before, after, lines[k], w)
    ensures after == Profile(lines[..k + 1], w)
  {
    assert lines[..k + 1] == lines[..k] + [lines[k]];
    AddedColumns(lines[..k], lines[k], before, after, w);
    IsProfile(lines[..k + 1], w, after);
  }

  /** The inner loop of `calculate_quals` (assignment1.py:66-70): add each
      score at its position; `results[item] += score` raises IndexError past
      the end, and the handler appends the score instead. */
  method AddQuals(results: seq<int>, qual: Line) returns (r: seq<int>)
    ensures Added(results, r, qual, Score)
  {
    r := results;
    var item := 0;
    while item < |qual|
      invariant 0 <= item <= |qual|
      invariant |r| == if |results| < item then item else |results|
      invariant forall i :: 0 <= i < |r| ==>
        r[i] == (if i < |results| then results[i] else 0) + (if i < item then Score(qual[i]) else 0)
    {
      var score := qual[item] - 33;
      if item < |r| {
        r := r[item := r[item] + score];
      } else {
        r := r + [score];
      }
      item := item + 1;
    }
  }

  /** `calculate_quals` (assignment1.py:62-71, and the identical copies in
      assignments 2 and 3): one entry per position up to the longest line,
      entry `i` the sum of `ord(c) - 33` over the lines that reach `i`. */
  method CalculateQuals(quality: seq<Line>) returns (results: seq<int>)
    ensures |results| == MaxLen(quality)
    ensures forall i :: 0 <= i < |results| ==> results[i] == ColumnSum(quality, i)
  {
    results := [];
    var k := 0;
    while k < |quality|
      invariant 0 <= k <= |quality|
      invariant results == Profile(quality[..k], Score)
    {
      var before := results;
      results := AddQuals(results, quality[k]);
      AddedProfile(quality, k, before, results, Score);
      k := k + 1;
    }
    assert quality[..k] == quality;
  }

  /** The inner loop of `calculate_phred_scores` (assignment4.py:65-72): the
      score and a count of one go to the line's position in both lists, which
      grow together past their end. */
  method AddPhreds(sums: seq<int>, counts: seq<int>, line: Line) returns (sums': seq<int>, counts': seq<int>)
    requires |sums| == |counts|
    ensures Added(sums, sums', line, Score) && Added(counts, counts', line, One)
  {
    sums', counts' := sums, counts;
    var index := 0;
    while index < |line|
      invariant 0 <= index <= |line|
      invariant |sums'| == |counts'| == if |sums| < index then index else |sums|
      invariant forall i :: 0 <= i < |sums'| ==>
        sums'[i] == (if i < |sums| then sums[i] else 0) + (if i < index then Score(line[i]) else 0)
      invariant forall i :: 0 <= i < |counts'| ==>
        counts'[i] == (if i < |counts| then counts[i] else 0) + (if i < index then 1 else 0)
    {
      var score := line[index] - 33;
      if |sums'| <= index {
        sums' := sums' + [score];
        counts' := counts' + [1];
      } else {
        sums' := sums'[index := sums'[index] + score];
        counts' := counts'[index := counts'[index] + 1];
      }
      index := index + 1;
    }
  }

  /** `calculate_phred_scores` (assignment4.py:60-73): equal-length `sums` and
      `counts`, as long as the longest line; `sums[i]` is the score sum of
      column `i` and `counts[i]` the number of lines reaching it, at least 1. */
  method CalculatePhredScores(qualityScores: seq<Line>) returns (phredSums: seq<int>, counts: seq<int>)
    ensures |phredSums| == |counts| == MaxLen(qualityScores)
    ensures forall i :: 0 <= i < |phredSums| ==> phredSums[i] == ColumnSum(qualityScores, i)
    ensures forall i :: 0 <= i < |counts| ==> counts[i] == ColumnCount(qualityScores, i) >= 1
  {
    phredSums, counts := [], [];
    var k := 0;
    while k < |qualityScores|
      invariant 0 <= k <= |qualityScores|
      invariant phredSums == Profile(qualityScores[..k], Score)
      invariant counts == Profile(qualityScores[..k], One)
    {
      var sums0, counts0 := phredSums, counts;
      phredSums, counts := AddPhreds(phredSums, counts, qualityScores[k]);
      AddedProfile(qualityScores, k, sums0, phredSums, Score);
      AddedProfile(qualityScores, k, counts0, counts, One);
      k := k + 1;
    }
    assert qualityScores[..k] == qualityScores;
    forall i | 0 <= i < |counts|
      ensures counts[i] >= 1
    {
      ColumnCountBounds(qualityScores, i);
    }
  }
}
