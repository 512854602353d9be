/** Merging per-chunk partial results position by position.

    Two folds are modelled. `ZipSum` is Python's `[sum(c) for c in zip(*parts)]`:
    `zip` stops at the shortest part, so the merge is truncated to the shortest
    partial (assignment1.py:108, assignment2.py:164, assignment3.py:130).
    `ExtendSum` is the zero-extending fold that keeps every position observed
    by any part. Both add column `i` of every part, `SumAt(parts, i)`; they
    differ only in how many positions they keep. `Means` is the per-position
    quotient `sums[i] / counts[i]` of assignment4.py:90. */
module Merge {
  import opened Common
  import opened Quality

  /** The sum of column `i` over all parts; a part too short to reach `i` adds 0. */
  function SumAt(parts: seq<seq<int>>, i: nat): int
  {
    if parts == [] then 0 else SumAt(parts[..|parts| - 1], i) + Get(parts[|parts| - 1], i)
  }

  /** The length of the shortest part, and 0 for no parts: the length of `zip(*parts)`. */
  function MinLen(parts: seq<seq<int>>): (m: nat)
    ensures forall k :: 0 <= k < |parts| ==> m <= |parts[k]|
    ensures parts == [] ==> m == 0
    ensures parts != [] ==> exists k :: 0 <= k < |parts| && |parts[k]| == m
  {
    if parts == [] then 0
    else if |parts| == 1 then |parts[0]|
    else
      var m := MinLen(parts[..|parts| - 1]);
      var l := |parts[|parts| - 1]|;
      if l < m then l else m
  }

  /** `[sum(column) for column in zip(*parts)]`. */
  function ZipSum(parts: seq<seq<int>>): (r: seq<int>)
  {
    seq(MinLen(parts), i requires 0 <= i => SumAt(parts, i))
  }

  /** The zero-extending fold: one entry per position reached by any part. */
  function ExtendSum(parts: seq<seq<int>>): (r: seq<int>)
  {
    seq(MaxLen(parts), i requires 0 <= i => SumAt(parts, i))
  }

  /** `[s / d for s in sums]`: Python divides only when there is an entry. */
  function DivideAll(sums: seq<int>, d: int): Result<seq<real>>
  {
    if sums != [] && d == 0 then Err(ZeroDivisionError)
    else Ok(seq(|sums|, i requires 0 <= i < |sums| => sums[i] as real / d as real))
  }

  /** `[sums[i] / counts[i] for i in range(len(sums))]`: position `i` first
      reads `counts[i]`, then divides, so the first failing position decides
      between a ZeroDivisionError and an IndexError. */
  function Means(sums: seq<int>, counts: seq<int>): Result<seq<real>>
  {
    if exists i :: 0 <= i < |sums| && i < |counts| && counts[i] == 0 then Err(ZeroDivisionError)
    else if |counts| < |sums| then Err(IndexError)
    else Ok(seq(|sums|, i requires 0 <= i < |sums| => sums[i] as real / counts[i] as real))
  }

  /** The per-chunk reduction of a list of chunks, as `pool.map` returns it. */
  function ProfilesOf(chunks: seq<seq<Line>>, w: int -> int): seq<seq<int>>
  {
    Map((c: seq<Line>) => Profile(c, w), chunks)
  }

  /** The truncating merge keeps exactly the positions every part reaches: its
      length is that of the shortest part, and it is the zero-extended merge
      cut to that length. */
  lemma ZipSumIsPrefix(parts: seq<seq<int>>)
    ensures |ZipSum(parts)| == MinLen(parts) <= MaxLen(parts)
    ensures forall k :: 0 <= k < |parts| ==> |ZipSum(parts)| <= |parts[k]|
    ensures ZipSum(parts) == ExtendSum(parts)[..MinLen(parts)]
  {
    if parts != [] {
      assert MinLen(parts) <= |parts[0]| <= MaxLen(parts);
    }
  }

  /** The two merges agree exactly when every part has the same length. */
  lemma ZipSumAgreesIff(parts: seq<seq<int>>)
    ensures ZipSum(parts) == ExtendSum(parts) <==> MinLen(parts) == MaxLen(parts)
  {
    ZipSumIsPrefix(parts);
    if ZipSum(parts) == ExtendSum(parts) {
      assert |ZipSum(parts)| == |ExtendSum(parts)|;
    }
  }

  /** One empty part empties the whole truncating merge. */
  lemma ZipSumEmptyPart(parts: seq<seq<int>>, k: nat)
    requires k < |parts| && parts[k] == []
    ensures ZipSum(parts) == []
  {
  }

  lemma {:induction false} SumAtRemove(q: seq<seq<int>>, j: nat, i: nat)
    requires j < |q|
    ensures SumAt(q, i) == Get(q[j], i) + SumAt(RemoveAt(q, j), i)
    decreases |q|
  {
    var init := q[..|q| - 1];
    if j == |q| - 1 {
      assert RemoveAt(q, j) == init;
    } else {
      SumAtRemove(init, j, i);
      assert RemoveAt(q, j) == RemoveAt(init, j) + [q[|q| - 1]];
      assert RemoveAt(q, j)[..|RemoveAt(q, j)| - 1] == RemoveAt(init, j);
    }
  }

  /** Column sums do not depend on the order of the parts. */
  lemma {:induction false} SumAtPermutation(p: seq<seq<int>>, q: seq<seq<int>>, i: nat)
    requires multiset(p) == multiset(q)
    ensures SumAt(p, i) == SumAt(q, i)
    decreases |p|
  {
    if p == [] {
      assert q == [] by { assert |multiset(q)| == 0; }
    } else {
      var x := p[|p| - 1];
      var init := p[..|p| - 1];
      assert p == init + [x];
      assert x in multiset(q) by { assert x in multiset(p); }
      var j :| 0 <= j < |q| && q[j] == x;
      var rest := RemoveAt(q, j);
      assert multiset(init) == multiset(rest) by {
        assert multiset(p) == multiset(init) + multiset{x};
        assert multiset(q) == multiset(rest) + multiset{x};
        forall y ensures multiset(init)[y] == multiset(rest)[y] {
          assert multiset(p)[y] == multiset(q)[y];
        }
      }
      SumAtPermutation(init, rest, i);
      SumAtRemove(q, j, i);
    }
  }

  /** The shortest and the longest length do not depend on the order of the parts. */
  lemma LengthsPermutation(p: seq<seq<int>>, q: seq<seq<int>>)
    requires multiset(p) == multiset(q)
    ensures MinLen(p) == MinLen(q) && MaxLen(p) == MaxLen(q)
  {
    SameMembers(p, q);
    if p != [] {
      assert p[0] in q;
      MinLenMembers(p, q);
      MinLenMembers(q, p);
      MaxLenMembers(p, q);
      MaxLenMembers(q, p);
    } else {
      assert q == [] by { assert |multiset(q)| == 0; }
    }
  }

  lemma SameMembers(p: seq<seq<int>>, q: seq<seq<int>>)
    requires multiset(p) == multiset(q)
    ensures forall x :: x in p <==> x in q
  {
    forall x ensures x in p <==> x in q {
      assert x in p <==> x in multiset(p);
      assert x in q <==> x in multiset(q);
    }
  }

  lemma MinLenMembers(p: seq<seq<int>>, q: seq<seq<int>>)
    requires p != [] && q != [] && forall x :: x in p ==> x in q
    ensures MinLen(q) <= MinLen(p)
  {
    var k :| 0 <= k < |p| && |p[k]| == MinLen(p);
    assert p[k] in q;
    var j :| 0 <= j < |q| && q[j] == p[k];
  }

  lemma MaxLenMembers(p: seq<seq<int>>, q: seq<seq<int>>)
    requires p != [] && q != [] && forall x :: x in p ==> x in q
    ensures MaxLen(p) <= MaxLen(q)
  {
    var k :| 0 <= k < |p| && |p[k]| == MaxLen(p);
    assert p[k] in q;
    var j :| 0 <= j < |q| && q[j] == p[k];
  }

  /** Both merges give the same result whatever the order of the parts. */
  lemma MergesPermutation(p: seq<seq<int>>, q: seq<seq<int>>)
    requires multiset(p) == multiset(q)
    ensures ZipSum(p) == ZipSum(q)
    ensures ExtendSum(p) == ExtendSum(q)
  {
    LengthsPermutation(p, q);
    forall i: nat ensures SumAt(p, i) == SumAt(q, i) {
      SumAtPermutation(p, q, i);
    }
  }

  /** A chunk's profile read with a zero default is its column total. */
  lemma GetProfile(lines: seq<Line>, w: int -> int, i: nat)
    ensures Get(Profile(lines, w), i) == Column(lines, i, w)
  {
    if MaxLen(lines) <= i {
      ColumnBeyond(lines, i, w);
    }
  }

  /** Merging the per-chunk profiles with zero extension gives the profile of
      all the chunks' lines taken together: splitting the work changes nothing. */
  lemma {:induction false} ExtendSumOfProfiles(chunks: seq<seq<Line>>, w: int -> int)
    ensures ExtendSum(ProfilesOf(chunks, w)) == Profile(Flatten(chunks), w)
  {
    ProfilesColumns(chunks, w);
  }

  lemma {:induction false} ProfilesColumns(chunks: seq<seq<Line>>, w: int -> int)
    ensures MaxLen(ProfilesOf(chunks, w)) == MaxLen(Flatten(chunks))
    ensures forall i: nat :: SumAt(ProfilesOf(chunks, w), i) == Column(Flatten(chunks), i, w)
  {
    if chunks != [] {
      var init, last := chunks[..|chunks| - 1], chunks[|chunks| - 1];
      var ps := ProfilesOf(chunks, w);
      assert ps[..|ps| - 1] == ProfilesOf(init, w);
      ProfilesColumns(init, w);
      assert ps[|ps| - 1] == Profile(last, w);
      assert Flatten(chunks) == Flatten(init) + last;
      MaxLenAppend(Flatten(init), last);
      forall i: nat ensures SumAt(ps, i) == Column(Flatten(chunks), i, w) {
        GetProfile(last, w, i);
        ColumnAppend(Flatten(init), last, i, w);
      }
    }
  }

  /** The per-position mean never divides by zero on a reducer's own sums and
      counts: position `i` is the mean score of the lines that reach it. */
  lemma MeansOfProfile(lines: seq<Line>)
    ensures Means(Quals(lines), Counts(lines)).Ok?
    ensures var m := Means(Quals(lines), Counts(lines)).value;
      |m| == MaxLen(lines) &&
      forall i :: 0 <= i < |m| ==>
        ColumnCount(lines, i) >= 1 && m[i] == ColumnSum(lines, i) as real / ColumnCount(lines, i) as real
  {
    var counts := Counts(lines);
    forall i | 0 <= i < |counts| ensures counts[i] == ColumnCount(lines, i) >= 1 {
      ColumnCountBounds(lines, i);
    }
    assert !exists i :: 0 <= i < |Quals(lines)| && i < |counts| && counts[i] == 0;
  }
}
