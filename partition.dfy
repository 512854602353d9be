/** The index-range partitioner `chunks(number, mysize)` of assignments 1 to 3:
    chunk `i` is the slice `[i·L/n, (i+1)·L/n)` of a list of length `L`.

    The source computes the bounds as `int(i * len / mysize)` through a float
    division; the model uses the exact floor `(i * L) / n`. */
module Partition {
  import opened Common

  /** The first index of chunk `i` (and the end of chunk `i - 1`). */
  function Bound(i: nat, len: nat, n: nat): nat
    requires n > 0
  {
    i * len / n
  }

  lemma MulMonotone(n: nat, a: int, b: int)
    requires a <= b
    ensures n * a <= n * b
  {
    assert n * b - n * a == n * (b - a);
  }

  lemma MulLessCancel(n: nat, x: int, y: int)
    ensures n * x < n * y ==> x < y
  {
    if y <= x {
      MulMonotone(n, y, x);
    }
  }

  /** `x / n` is the quotient of any decomposition `x == n * q + r`, `0 <= r < n`. */
  lemma DivUnique(x: int, n: int, q: int, r: int)
    requires n > 0 && 0 <= r < n && x == n * q + r
    ensures x / n == q
  {
    var q', r' := x / n, x % n;
    assert x == n * q' + r' && 0 <= r' < n;
    assert n * q < n * (q' + 1) by { assert n * (q' + 1) == n * q' + n; }
    assert n * q' < n * (q + 1) by { assert n * (q + 1) == n * q + n; }
    MulLessCancel(n, q, q' + 1);
    MulLessCancel(n, q', q + 1);
  }

  lemma DivMonotone(a: nat, b: nat, n: nat)
    requires n > 0 && a <= b
    ensures a / n <= b / n
  {
    var qa, qb := a / n, b / n;
    assert n * (qb + 1) == n * qb + n;
    MulLessCancel(n, qa, qb + 1);
  }

  lemma BoundMonotone(i: nat, j: nat, len: nat, n: nat)
    requires n > 0 && i <= j
    ensures Bound(i, len, n) <= Bound(j, len, n)
  {
    assert i * len <= j * len;
    DivMonotone(i * len, j * len, n);
  }

  lemma BoundEnds(len: nat, n: nat)
    requires n > 0
    ensures Bound(0, len, n) == 0 && Bound(n, len, n) == len
  {
    DivUnique(n * len, n, len, 0);
  }

  lemma BoundWithin(i: nat, len: nat, n: nat)
    requires 0 < n && i <= n
    ensures Bound(i, len, n) <= len
  {
    BoundMonotone(i, n, len, n);
    BoundEnds(len, n);
  }

  /** Chunk `i` of `xs` split into `n` chunks: `number[start:end]`. */
  function ChunkAt<T>(xs: seq<T>, n: nat, i: nat): (c: seq<T>)
    requires i < n
    ensures |c| == Bound(i + 1, |xs|, n) - Bound(i, |xs|, n)
  {
    BoundMonotone(i, i + 1, |xs|, n);
    BoundWithin(i + 1, |xs|, n);
    xs[Bound(i, |xs|, n)..Bound(i + 1, |xs|, n)]
  }

  /** The list `chunks(xs, mysize)` returns: `range(mysize)` is empty when
      `mysize <= 0`, so no chunk at all is produced then. */
  function ChunksOf<T>(xs: seq<T>, mysize: int): (r: seq<seq<T>>)
    ensures |r| == if mysize > 0 then mysize else 0
  {
    if mysize <= 0 then [] else seq(mysize, i requires 0 <= i < mysize => ChunkAt(xs, mysize, i))
  }

  /** The first `k` chunks, concatenated, are the prefix of `xs` up to bound `k`. */
  lemma {:induction false} ChunksPrefix<T>(xs: seq<T>, n: nat, k: nat)
    requires 0 < n && k <= n
    ensures Bound(k, |xs|, n) <= |xs|
    ensures Flatten(ChunksOf(xs, n)[..k]) == xs[..Bound(k, |xs|, n)]
  {
    BoundWithin(k, |xs|, n);
    if k == 0 {
      BoundEnds(|xs|, n);
    } else {
      var cs := ChunksOf(xs, n);
      assert cs[..k][..k - 1] == cs[..k - 1];
      ChunksPrefix(xs, n, k - 1);
      BoundMonotone(k - 1, k, |xs|, n);
      assert xs[..Bound(k, |xs|, n)] == xs[..Bound(k - 1, |xs|, n)] + cs[k - 1];
    }
  }

  /** Concatenating the chunks in order gives back the input: no gaps, no overlaps. */
  lemma ChunksCover<T>(xs: seq<T>, n: nat)
    requires n > 0
    ensures Flatten(ChunksOf(xs, n)) == xs
  {
    ChunksPrefix(xs, n, n);
    BoundEnds(|xs|, n);
    assert ChunksOf(xs, n)[..n] == ChunksOf(xs, n);
  }

  /** Consecutive bounds are `L/n` or `L/n + 1` apart. */
  lemma BoundStep(i: nat, len: nat, n: nat)
    requires n > 0
    ensures var d := Bound(i + 1, len, n) - Bound(i, len, n); d == len / n || d == len / n + 1
  {
    var a := i * len;
    assert (i + 1) * len == a + len;
    var qa, ra := a / n, a % n;
    var q, r := len / n, len % n;
    assert a + len == n * (qa + q) + (ra + r);
    if ra + r < n {
      DivUnique(a + len, n, qa + q, ra + r);
    } else {
      assert a + len == n * (qa + q + 1) + (ra + r - n);
      DivUnique(a + len, n, qa + q + 1, ra + r - n);
    }
  }

  /** Every chunk holds `L/n` or `L/n + 1` elements, so any two chunk sizes
      differ by at most one. */
  lemma ChunkSizes<T>(xs: seq<T>, n: nat, i: nat, j: nat)
    requires i < n && j < n
    ensures |ChunkAt(xs, n, i)| == |xs| / n || |ChunkAt(xs, n, i)| == |xs| / n + 1
    ensures -1 <= |ChunkAt(xs, n, i)| - |ChunkAt(xs, n, j)| <= 1
  {
    BoundStep(i, |xs|, n);
    BoundStep(j, |xs|, n);
  }

  /** With more chunks than elements the first chunk is empty. */
  lemma FirstChunkEmpty<T>(xs: seq<T>, n: nat)
    requires |xs| < n
    ensures ChunkAt(xs, n, 0) == []
  {
    DivUnique(|xs|, n, 0, |xs|);
  }

  /** A single chunk is the whole input. */
  lemma SingleChunk<T>(xs: seq<T>)
    ensures ChunksOf(xs, 1) == [xs]
  {
    BoundEnds(|xs|, 1);
    assert ChunksOf(xs, 1)[0] == xs;
  }

  /** `chunks` (assignment1.py:32-40; the same code at assignment2.py:73-81
      and assignment3.py:37-45). */
  method Chunks<T>(number: seq<T>, mysize: int) returns (mychunks: seq<seq<T>>)
    ensures |mychunks| == if mysize > 0 then mysize else 0
    ensures mychunks == ChunksOf(number, mysize)
    ensures mysize > 0 ==> Flatten(mychunks) == number
  {
    mychunks := [];
    var i := 0;
    while i < mysize
      invariant 0 <= i
      invariant mysize > 0 ==> i <= mysize && mychunks == ChunksOf(number, mysize)[..i]
      invariant mysize <= 0 ==> mychunks == []
    {
      BoundMonotone(i, i + 1, |number|, mysize);
      BoundWithin(i + 1, |number|, mysize);
      var start := i * |number| / mysize;
      var end := (i + 1) * |number| / mysize;
      mychunks := mychunks + [number[start..end]];
      i := i + 1;
    }
    if mysize > 0 {
      assert ChunksOf(number, mysize)[..mysize] == ChunksOf(number, mysize);
      ChunksCover(number, mysize);
    }
  }
}
