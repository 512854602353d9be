/** Assignment 4's collection of the ranks' partial results: rank 0 folds the
    gathered `(file, (sums, counts))` pairs into one dictionary
    (assignment4.py:126-134), `process_results` folds that dictionary once more
    (lines 80-87) and divides sums by counts per file (lines 89-90).

    A dictionary is a list of entries in insertion order, as a Python `dict`
    iterates; a lookup finds the entry with the key. The fold keeps the first
    partial of each file and adds every later partial of that file into it,
    index by index over the later partial's length. */
module Collective {
  import opened Common
  import opened Quality
  import opened Merge
  import opened Text

  /** `(phred_sums, counts)` of one rank. */
  datatype Partial = Partial(sums: seq<int>, counts: seq<int>)

  /** One dictionary item, or one gathered `(file, partial)` pair. */
  datatype Entry = Entry(file: String, partial: Partial)

  /** What `calculate_phred_scores` always returns: as many counts as sums. */
  predicate WellFormed(p: Partial)
  {
    |p.sums| == |p.counts|
  }

  predicate AllWellFormed(xs: seq<Entry>)
  {
    forall k :: 0 <= k < |xs| ==> WellFormed(xs[k].partial)
  }

  /** The keys, in order. */
  function Keys(d: seq<Entry>): (r: seq<String>)
    ensures |r| == |d| && forall j :: 0 <= j < |d| ==> r[j] == d[j].file
  {
    Map((e: Entry) => e.file, d)
  }

  predicate Distinct(s: seq<String>)
  {
    forall i, j :: 0 <= i < j < |s| ==> s[i] != s[j]
  }

  /** The index of the first entry with key `f`. */
  function Find(d: seq<Entry>, f: String): (r: Option<nat>)
    ensures r.Some? ==> r.value < |d| && d[r.value].file == f
    ensures r.Some? ==> forall j :: 0 <= j < r.value ==> d[j].file != f
    ensures r.None? <==> f !in Keys(d)
  {
    if d == [] then None
    else if d[0].file == f then Some(0)
    else match Find(d[1..], f)
      case None => None
      case Some(j) => Some(j + 1)
  }

  /** The lookup is the first index holding the key. */
  lemma FindIs(d: seq<Entry>, f: String, j: nat)
    requires j < |d| && d[j].file == f && forall i :: 0 <= i < j ==> d[i].file != f
    ensures Find(d, f) == Some(j)
  {
  }

  lemma FindSnoc(d: seq<Entry>, x: Entry, f: String)
    ensures Find(d + [x], f) ==
      if Find(d, f).Some? then Find(d, f) else if x.file == f then Some(|d|) else None
  {
    var d' := d + [x];
    if Find(d, f).Some? {
      FindIs(d', f, Find(d, f).value);
    } else if x.file == f {
      FindIs(d', f, |d|);
    } else {
      assert f !in Keys(d');
    }
  }

  /** Replacing an entry's value keeps every lookup where it was. */
  lemma FindUpdate(d: seq<Entry>, j: nat, e: Entry, f: String)
    requires j < |d| && e.file == d[j].file
    ensures Find(d[j := e], f) == Find(d, f)
  {
    var d' := d[j := e];
    assert Keys(d') == Keys(d);
    if Find(d, f).Some? {
      FindIs(d', f, Find(d, f).value);
    }
  }

  /** The distinct keys of `ks`, in order of first appearance. */
  function Dedup(ks: seq<String>): (r: seq<String>)
    ensures Distinct(r)
    ensures forall k :: k in r <==> k in ks
  {
    if ks == [] then []
    else
      var r := Dedup(ks[..|ks| - 1]);
      var k := ks[|ks| - 1];
      assert forall k' :: k' in ks <==> k' in ks[..|ks| - 1] || k' == k by {
        assert ks == ks[..|ks| - 1] + [k];
      }
      if k in r then r else r + [k]
  }

  /** One later partial added into the kept one (lines 132-134). Line 133
      reads index `i` of the kept sums, line 134 index `i` of the kept counts
      and of the later counts, for every index `i` of the later sums; the first
      of these reads past its list raises an IndexError. */
  function AddInto(acc: Partial, p: Partial): (r: Result<Partial>)
    ensures r.Ok? <==> |p.sums| <= |acc.sums| && |p.sums| <= |acc.counts| && |p.sums| <= |p.counts|
    ensures r.Err? ==> r.error == IndexError
    ensures r.Ok? ==> |r.value.sums| == |acc.sums| && |r.value.counts| == |acc.counts|
  {
    var n := |p.sums|;
    if n > |acc.sums| || n > |acc.counts| || n > |p.counts| then Err(IndexError)
    else Ok(Partial(
      seq(|acc.sums|, i requires 0 <= i < |acc.sums| => if i < n then acc.sums[i] + p.sums[i] else acc.sums[i]),
      seq(|acc.counts|, i requires 0 <= i < |acc.counts| => if i < n then acc.counts[i] + p.counts[i] else acc.counts[i])))
  }

  /** Position-wise addition of two lists, the shorter one read as 0 past its end. */
  function AddPadded(a: seq<int>, b: seq<int>): seq<int>
  {
    seq(if |a| < |b| then |b| else |a|, i requires 0 <= i => Get(a, i) + Get(b, i))
  }

  /** The zero-extending addition: every position either partial reaches. */
  function Extend(acc: Partial, p: Partial): Partial
  {
    Partial(AddPadded(acc.sums, p.sums), AddPadded(acc.counts, p.counts))
  }

  /** One step of the fold at lines 128-134: a new key is inserted with its
      partial; a known key gets the partial added into its value. */
  function Insert(d: seq<Entry>, x: Entry): Result<seq<Entry>>
  {
    match Find(d, x.file)
    case None => Ok(d + [x])
    case Some(j) =>
      match AddInto(d[j].partial, x.partial)
      case Err(e) => Err(e)
      case Ok(merged) => Ok(d[j := Entry(d[j].file, merged)])
  }

  /** The fold of lines 127-134 over the gathered pairs, in rank order. */
  function Gather(xs: seq<Entry>): Result<seq<Entry>>
  {
    if xs == [] then Ok([])
    else
      match Gather(xs[..|xs| - 1])
      case Err(e) => Err(e)
      case Ok(d) => Insert(d, xs[|xs| - 1])
  }

  function InsertExtend(d: seq<Entry>, x: Entry): seq<Entry>
  {
    match Find(d, x.file)
    case None => d + [x]
    case Some(j) => d[j := Entry(d[j].file, Extend(d[j].partial, x.partial))]
  }

  /** The corrected fold: later partials are added with zero extension. */
  function GatherExtend(xs: seq<Entry>): seq<Entry>
  {
    if xs == [] then [] else InsertExtend(GatherExtend(xs[..|xs| - 1]), xs[|xs| - 1])
  }

  /** The partials gathered for key `f`, in rank order. */
  function PartsFor(xs: seq<Entry>, f: String): seq<Partial>
  {
    if xs == [] then []
    else PartsFor(xs[..|xs| - 1], f) + (if xs[|xs| - 1].file == f then [xs[|xs| - 1].partial] else [])
  }

  function SumsOf(ps: seq<Partial>): seq<seq<int>>
  {
    Map((p: Partial) => p.sums, ps)
  }

  function CountsOf(ps: seq<Partial>): seq<seq<int>>
  {
    Map((p: Partial) => p.counts, ps)
  }

  /** The position-wise totals of a list of partials, zero-extended. */
  function Combined(ps: seq<Partial>): Partial
  {
    Partial(ExtendSum(SumsOf(ps)), ExtendSum(CountsOf(ps)))
  }

  lemma {:induction false} SumAtBeyond(parts: seq<seq<int>>, i: nat)
    requires MaxLen(parts) <= i
    ensures SumAt(parts, i) == 0
  {
    if parts != [] {
      SumAtBeyond(parts[..|parts| - 1], i);
    }
  }

  lemma ExtendSumSnoc(parts: seq<seq<int>>, q: seq<int>)
    ensures ExtendSum(parts + [q]) == AddPadded(ExtendSum(parts), q)
  {
    var ps := parts + [q];
    assert ps[..|ps| - 1] == parts;
    forall i: nat ensures SumAt(parts, i) == Get(ExtendSum(parts), i) {
      if MaxLen(parts) <= i {
        SumAtBeyond(parts, i);
      }
    }
  }

  /** Adding one more partial with zero extension extends the totals by it. */
  lemma CombinedSnoc(ps: seq<Partial>, p: Partial)
    ensures Combined(ps + [p]) == Extend(Combined(ps), p)
  {
    MapSnoc((p: Partial) => p.sums, ps, p);
    MapSnoc((p: Partial) => p.counts, ps, p);
    ExtendSumSnoc(SumsOf(ps), p.sums);
    ExtendSumSnoc(CountsOf(ps), p.counts);
  }

  lemma CombinedOne(p: Partial)
    ensures Combined([p]) == p
  {
    assert SumsOf([p]) == [p.sums];
    assert CountsOf([p]) == [p.counts];
    ExtendSumOne(p.sums);
    ExtendSumOne(p.counts);
  }

  lemma ExtendSumOne(q: seq<int>)
    ensures ExtendSum([q]) == q
  {
    assert MaxLen([q]) == |q|;
    forall i | 0 <= i < |q| ensures ExtendSum([q])[i] == q[i] {
      assert [q][..0] == [];
      assert SumAt([q], i) == SumAt([], i) + Get(q, i);
    }
  }

  lemma {:induction false} PartsForAbsent(xs: seq<Entry>, f: String)
    requires f !in Keys(xs)
    ensures PartsFor(xs, f) == []
  {
    if xs != [] {
      assert Keys(xs[..|xs| - 1]) == Keys(xs)[..|xs| - 1];
      PartsForAbsent(xs[..|xs| - 1], f);
    }
  }

  lemma KeysSnoc(xs: seq<Entry>, x: Entry)
    ensures Keys(xs + [x]) == Keys(xs) + [x.file]
  {
  }

  /** The corrected fold holds one entry per distinct key, in order of first
      appearance, and the entry of `f` holds the zero-extended totals of all
      of `f`'s partials. */
  lemma {:induction false} GatherExtendSpec(xs: seq<Entry>)
    ensures Keys(GatherExtend(xs)) == Dedup(Keys(xs))
    ensures forall f :: Find(GatherExtend(xs), f).Some? ==>
      GatherExtend(xs)[Find(GatherExtend(xs), f).value].partial == Combined(PartsFor(xs, f))
  {
    if xs != [] {
      var init, x := xs[..|xs| - 1], xs[|xs| - 1];
      assert xs == init + [x];
      GatherExtendSpec(init);
      KeysSnoc(init, x);
      var d := GatherExtend(init);
      if Find(d, x.file).None? {
        InsertNew(init, x);
      } else {
        InsertKnown(init, x);
      }
    }
  }

  lemma InsertNew(init: seq<Entry>, x: Entry)
    requires Keys(GatherExtend(init)) == Dedup(Keys(init))
    requires forall f :: Find(GatherExtend(init), f).Some? ==>
      GatherExtend(init)[Find(GatherExtend(init), f).value].partial == Combined(PartsFor(init, f))
    requires Find(GatherExtend(init), x.file).None?
    ensures Keys(GatherExtend(init + [x])) == Dedup(Keys(init + [x]))
    ensures forall f :: Find(GatherExtend(init + [x]), f).Some? ==>
      GatherExtend(init + [x])[Find(GatherExtend(init + [x]), f).value].partial == Combined(PartsFor(init + [x], f))
  {
    var xs := init + [x];
    var d := GatherExtend(init);
    assert xs[..|xs| - 1] == init;
    var d' := GatherExtend(xs);
    assert d' == d + [x];
    KeysSnoc(init, x);
    KeysSnoc(d, x);
    assert x.file !in Keys(init);
    assert Keys(xs)[..|xs| - 1] == Keys(init);
    forall f | Find(d', f).Some? ensures d'[Find(d', f).value].partial == Combined(PartsFor(xs, f)) {
      FindSnoc(d, x, f);
      if f == x.file {
        PartsForAbsent(init, f);
        assert PartsFor(xs, f) == [x.partial];
        CombinedOne(x.partial);
      } else {
        assert PartsFor(xs, f) == PartsFor(init, f);
      }
    }
  }

  lemma InsertKnown(init: seq<Entry>, x: Entry)
    requires Keys(GatherExtend(init)) == Dedup(Keys(init))
    requires forall f :: Find(GatherExtend(init), f).Some? ==>
      GatherExtend(init)[Find(GatherExtend(init), f).value].partial == Combined(PartsFor(init, f))
    requires Find(GatherExtend(init), x.file).Some?
    ensures Keys(GatherExtend(init + [x])) == Dedup(Keys(init + [x]))
    ensures forall f :: Find(GatherExtend(init + [x]), f).Some? ==>
      GatherExtend(init + [x])[Find(GatherExtend(init + [x]), f).value].partial == Combined(PartsFor(init + [x], f))
  {
    var xs := init + [x];
    var d := GatherExtend(init);
    assert xs[..|xs| - 1] == init;
    var j := Find(d, x.file).value;
    var e := Entry(d[j].file, Extend(d[j].partial, x.partial));
    var d' := GatherExtend(xs);
    assert d' == d[j := e];
    KeysSnoc(init, x);
    assert Keys(d') == Keys(d);
    assert x.file in Keys(init);
    assert Keys(xs)[..|xs| - 1] == Keys(init);
    forall f | Find(d', f).Some? ensures d'[Find(d', f).value].partial == Combined(PartsFor(xs, f)) {
      FindUpdate(d, j, e, f);
      if f == x.file {
        assert PartsFor(xs, f) == PartsFor(init, f) + [x.partial];
        CombinedSnoc(PartsFor(init, f), x.partial);
      } else {
        assert PartsFor(xs, f) == PartsFor(init, f);
      }
    }
  }

  /** The length of the first partial gathered for `f`, or 0. */
  function FirstLen(xs: seq<Entry>, f: String): nat
  {
    if xs == [] then 0
    else
      var init, x := xs[..|xs| - 1], xs[|xs| - 1];
      if f in Keys(init) then FirstLen(init, f) else if x.file == f then |x.partial.sums| else 0
  }

  /** No partial is longer than the first partial of its file. */
  predicate FirstLongest(xs: seq<Entry>)
  {
    forall k :: 0 <= k < |xs| ==> |xs[k].partial.sums| <= FirstLen(xs, xs[k].file)
  }

  lemma FirstLenSnoc(xs: seq<Entry>, x: Entry, f: String)
    ensures FirstLen(xs + [x], f) ==
      if f in Keys(xs) then FirstLen(xs, f) else if x.file == f then |x.partial.sums| else 0
  {
    assert (xs + [x])[..|xs|] == xs;
  }

  lemma FirstLongestSnoc(xs: seq<Entry>, x: Entry)
    ensures FirstLongest(xs + [x]) <==>
      FirstLongest(xs) && |x.partial.sums| <= FirstLen(xs + [x], x.file)
  {
    var ys := xs + [x];
    forall k | 0 <= k < |xs| ensures FirstLen(ys, ys[k].file) == FirstLen(xs, xs[k].file) {
      assert xs[k].file in Keys(xs);
      FirstLenSnoc(xs, x, xs[k].file);
    }
  }

  /** When the later partial is no longer than the kept one, which holds as
      many counts as sums, the in-place addition is the zero-extending one. */
  lemma AddIntoIsExtend(acc: Partial, p: Partial)
    requires WellFormed(acc) && WellFormed(p) && |p.sums| <= |acc.sums|
    ensures AddInto(acc, p) == Ok(Extend(acc, p))
  {
    var r := AddInto(acc, p).value;
    var e := Extend(acc, p);
    assert |r.sums| == |e.sums| && |r.counts| == |e.counts|;
    assert forall i :: 0 <= i < |r.sums| ==> r.sums[i] == e.sums[i];
    assert forall i :: 0 <= i < |r.counts| ==> r.counts[i] == e.counts[i];
    assert r.sums == e.sums && r.counts == e.counts;
  }

  /** Every entry of a fold result holds as many counts as sums, as many as
      the first partial of its key. */
  predicate FirstLengths(d: seq<Entry>, xs: seq<Entry>)
  {
    forall j :: 0 <= j < |d| ==>
      |d[j].partial.sums| == |d[j].partial.counts| == FirstLen(xs, d[j].file)
  }

  /** The fold of lines 127-134 on well-formed partials succeeds exactly when
      no partial is longer than the first partial of its file; it then keeps
      each file's first length and agrees with the zero-extending fold. */
  lemma {:induction false} GatherAsWritten(xs: seq<Entry>)
    requires AllWellFormed(xs)
    ensures Gather(xs).Ok? <==> FirstLongest(xs)
    ensures Gather(xs).Ok? ==> Gather(xs).value == GatherExtend(xs) && FirstLengths(Gather(xs).value, xs)
  {
    if xs != [] {
      var init, x := xs[..|xs| - 1], xs[|xs| - 1];
      assert xs == init + [x];
      GatherAsWritten(init);
      FirstLongestSnoc(init, x);
      if Gather(init).Ok? {
        GatherExtendSpec(init);
        if Find(Gather(init).value, x.file).None? {
          GatherNewKey(init, x);
        } else {
          GatherKnownKey(init, x);
        }
      }
    }
  }

  /** The only exception the fold raises is an IndexError. */
  lemma {:induction false} GatherFailsWithIndexError(xs: seq<Entry>)
    ensures Gather(xs).Err? ==> Gather(xs).error == IndexError
  {
    if xs != [] {
      GatherFailsWithIndexError(xs[..|xs| - 1]);
    }
  }

  lemma GatherNewKey(init: seq<Entry>, x: Entry)
    requires AllWellFormed(init + [x])
    requires Gather(init).Ok? && Gather(init).value == GatherExtend(init)
    requires FirstLengths(Gather(init).value, init)
    requires Keys(GatherExtend(init)) == Dedup(Keys(init))
    requires Find(Gather(init).value, x.file).None?
    ensures Gather(init + [x]) == Ok(GatherExtend(init + [x]))
    ensures FirstLen(init + [x], x.file) == |x.partial.sums|
    ensures FirstLengths(Gather(init + [x]).value, init + [x])
  {
    var xs := init + [x];
    assert xs[..|xs| - 1] == init;
    var d := Gather(init).value;
    assert (init + [x])[|init|] == x;
    FirstLenSnoc(init, x, x.file);
    assert Gather(xs) == Ok(d + [x]);
    NewKeyLengths(init, x);
  }

  /** A file gathered for the first time starts its entry with its own
      lengths; the entries already there keep theirs. */
  lemma NewKeyLengths(init: seq<Entry>, x: Entry)
    requires AllWellFormed(init + [x])
    requires Gather(init).Ok? && Gather(init).value == GatherExtend(init)
    requires FirstLengths(Gather(init).value, init)
    requires Keys(GatherExtend(init)) == Dedup(Keys(init))
    requires Find(Gather(init).value, x.file).None?
    ensures FirstLengths(Gather(init).value + [x], init + [x])
  {
    var xs := init + [x];
    var d := Gather(init).value;
    var d' := d + [x];
    assert xs[|init|] == x;
    forall j | 0 <= j < |d'| ensures |d'[j].partial.sums| == |d'[j].partial.counts| == FirstLen(xs, d'[j].file) {
      if j < |d| {
        assert d[j].file in Keys(d);
        FirstLenSnoc(init, x, d[j].file);
      } else {
        FirstLenSnoc(init, x, x.file);
      }
    }
  }

  lemma GatherKnownKey(init: seq<Entry>, x: Entry)
    requires AllWellFormed(init + [x])
    requires Gather(init).Ok? && Gather(init).value == GatherExtend(init)
    requires FirstLengths(Gather(init).value, init)
    requires Keys(GatherExtend(init)) == Dedup(Keys(init))
    requires Find(Gather(init).value, x.file).Some?
    ensures Gather(init + [x]).Ok? <==> |x.partial.sums| <= FirstLen(init + [x], x.file)
    ensures Gather(init + [x]).Ok? ==>
      Gather(init + [x]).value == GatherExtend(init + [x]) && FirstLengths(Gather(init + [x]).value, init + [x])
  {
    var xs := init + [x];
    assert xs[..|xs| - 1] == init;
    assert xs[|init|] == x;
    var d := Gather(init).value;
    var j := Find(d, x.file).value;
    assert d[j].file in Keys(d);
    FirstLenSnoc(init, x, x.file);
    var acc := d[j].partial;
    assert |acc.sums| == |acc.counts| == FirstLen(xs, x.file);
    if |x.partial.sums| <= |acc.sums| {
      AddIntoIsExtend(acc, x.partial);
      var d' := d[j := Entry(d[j].file, Extend(acc, x.partial))];
      assert Gather(xs) == Ok(d');
      forall i | 0 <= i < |d'| ensures |d'[i].partial.sums| == |d'[i].partial.counts| == FirstLen(xs, d'[i].file) {
        assert d[i].file in Keys(d);
        FirstLenSnoc(init, x, d[i].file);
      }
    }
  }

  /** The keys of a successful fold are the distinct gathered keys, in order
      of first appearance. */
  lemma {:induction false} GatherKeys(xs: seq<Entry>)
    ensures Gather(xs).Ok? ==> Keys(Gather(xs).value) == Dedup(Keys(xs))
  {
    if xs != [] && Gather(xs).Ok? {
      var init, x := xs[..|xs| - 1], xs[|xs| - 1];
      assert xs == init + [x];
      GatherKeys(init);
      KeysSnoc(init, x);
      var d := Gather(init).value;
      match Find(d, x.file)
      case None =>
        KeysSnoc(d, x);
      case Some(j) =>
        assert x.file in Keys(d);
        assert Keys(Gather(xs).value) == Keys(d);
    }
  }

  /** With distinct keys the fold inserts every pair as it is. */
  lemma {:induction false} GatherDistinct(xs: seq<Entry>)
    requires Distinct(Keys(xs))
    ensures Gather(xs) == Ok(xs)
  {
    if xs != [] {
      var init, x := xs[..|xs| - 1], xs[|xs| - 1];
      assert xs == init + [x];
      KeysSnoc(init, x);
      assert Keys(init) == Keys(xs)[..|xs| - 1];
      GatherDistinct(init);
      assert x.file !in Keys(init) by {
        forall i | 0 <= i < |init| ensures Keys(init)[i] != x.file {
          assert Keys(xs)[i] != Keys(xs)[|xs| - 1];
        }
      }
    }
  }

  /** Folding a fold result again (lines 80-87) changes nothing. */
  lemma ReGather(xs: seq<Entry>)
    requires Gather(xs).Ok?
    ensures Gather(Gather(xs).value) == Gather(xs)
  {
    GatherKeys(xs);
    GatherDistinct(Gather(xs).value);
  }

  /** Once the fold has raised, the remaining pairs are not looked at. */
  lemma {:induction false} GatherErrPersists(xs: seq<Entry>, k: nat)
    requires k <= |xs| && Gather(xs[..k]).Err?
    ensures Gather(xs) == Gather(xs[..k])
    decreases |xs| - k
  {
    if k < |xs| {
      var init := xs[..|xs| - 1];
      assert init[..k] == xs[..k];
      GatherErrPersists(init, k);
    } else {
      assert xs[..k] == xs;
    }
  }

  /** Lines 132-134: the later partial's sums and counts added, index by
      index, into the kept lists. */
  method AddInPlace(acc: Partial, p: Partial) returns (r: Result<Partial>)
    ensures r == AddInto(acc, p)
  {
    var sums, counts := acc.sums, acc.counts;
    for i := 0 to |p.sums|
      invariant i <= |acc.sums| && i <= |acc.counts| && i <= |p.counts|
      invariant |sums| == |acc.sums| && |counts| == |acc.counts|
      invariant forall t :: 0 <= t < |sums| ==>
        sums[t] == if t < i then acc.sums[t] + p.sums[t] else acc.sums[t]
      invariant forall t :: 0 <= t < |counts| ==>
        counts[t] == if t < i then acc.counts[t] + p.counts[t] else acc.counts[t]
    {
      if i >= |sums| {
        return Err(IndexError);
      }
      sums := sums[i := sums[i] + p.sums[i]];
      if i >= |counts| || i >= |p.counts| {
        return Err(IndexError);
      }
      counts := counts[i := counts[i] + p.counts[i]];
    }
    r := Ok(Partial(sums, counts));
    assert sums == AddInto(acc, p).value.sums;
    assert counts == AddInto(acc, p).value.counts;
  }

  /** The fold of lines 127-134 as the program runs it: the dictionary is
      built pair by pair, and a known key's lists are updated in place. */
  method GatherMerge(allResults: seq<Entry>) returns (r: Result<seq<Entry>>)
    ensures r == Gather(allResults)
  {
    var results: seq<Entry> := [];
    for k := 0 to |allResults|
      invariant Gather(allResults[..k]) == Ok(results)
    {
      var res := allResults[k];
      assert allResults[..k + 1] == allResults[..k] + [res];
      assert allResults[..k + 1][..k] == allResults[..k];
      var found := Find(results, res.file);
      if found.None? {
        results := results + [res];
      } else {
        var j := found.value;
        var merged := AddInPlace(results[j].partial, res.partial);
        if merged.Err? {
          GatherErrPersists(allResults, k + 1);
          return Err(merged.error);
        }
        results := results[j := Entry(results[j].file, merged.value)];
      }
    }
    assert allResults[..|allResults|] == allResults;
    r := Ok(results);
  }

  /** A file whose first partial is shorter than a later one: the fold of
      lines 127-134 raises an IndexError, where the zero-extending fold keeps
      both positions. */
  lemma FirstPartialShorter(f: String, xs: seq<Entry>)
    requires xs == [Entry(f, Partial([40], [1])), Entry(f, Partial([40, 40], [1, 1]))]
    ensures Gather(xs) == Err(IndexError)
    ensures GatherExtend(xs) == [Entry(f, Partial([80, 40], [2, 1]))]
  {
    assert xs[..1] == [xs[0]] && xs[..1][..0] == [];
    var empty: seq<Entry> := [];
    assert xs[0].file == f && Find(empty, f) == None;
    assert empty + [xs[0]] == [xs[0]];
    assert Insert(empty, xs[0]) == Ok([xs[0]]);
    assert Gather(xs[..1]) == Ok([xs[0]]);
    assert GatherExtend(xs[..1]) == [xs[0]];
    assert Find([xs[0]], f) == Some(0);
    var e := Extend(xs[0].partial, xs[1].partial);
    assert e.sums == [80, 40] && e.counts == [2, 1];
  }

  /** `[sums[i] / counts[i] for i in range(len(sums))]` for one file of the
      dictionary (line 90); a file that is not a key raises a KeyError. */
  function FileAverages(d: seq<Entry>, f: String): Result<seq<real>>
  {
    match Find(d, f)
    case None => Err(KeyError)
    case Some(j) => Means(d[j].partial.sums, d[j].partial.counts)
  }

  /** The averages of every file, in the order the files were given
      (lines 89-90); the first file that fails decides the error. */
  function Averages(d: seq<Entry>, files: seq<String>): Result<seq<seq<real>>>
  {
    if files == [] then Ok([])
    else
      match Averages(d, files[..|files| - 1])
      case Err(e) => Err(e)
      case Ok(rs) =>
        match FileAverages(d, files[|files| - 1])
        case Err(e) => Err(e)
        case Ok(avg) => Ok(rs + [avg])
  }

  /** Averaging succeeds exactly when every file does, with one list per file
      in order; otherwise the error is that of the first file that fails. */
  lemma AveragesSpec(d: seq<Entry>, files: seq<String>)
    ensures Averages(d, files).Ok? <==> forall k :: 0 <= k < |files| ==> FileAverages(d, files[k]).Ok?
    ensures Averages(d, files).Ok? ==>
      |Averages(d, files).value| == |files| &&
      forall k :: 0 <= k < |files| ==> Averages(d, files).value[k] == FileAverages(d, files[k]).value
    ensures Averages(d, files).Err? ==>
      exists k :: 0 <= k < |files| && FileAverages(d, files[k]) == Err(Averages(d, files).error) &&
        forall i :: 0 <= i < k ==> FileAverages(d, files[i]).Ok?
  {
    AveragesOkIff(d, files);
    if Averages(d, files).Ok? {
      AveragesValues(d, files);
    } else {
      AveragesFirstError(d, files);
    }
  }

  lemma {:induction false} AveragesOkIff(d: seq<Entry>, files: seq<String>)
    ensures Averages(d, files).Ok? <==> forall k :: 0 <= k < |files| ==> FileAverages(d, files[k]).Ok?
  {
    if files != [] {
      var init := files[..|files| - 1];
      AveragesOkIff(d, init);
      AllFilesOkSnoc(d, files);
    }
  }

  /** Every file of `files` has averages. */
  predicate AllFilesOk(d: seq<Entry>, files: seq<String>)
  {
    forall k :: 0 <= k < |files| ==> FileAverages(d, files[k]).Ok?
  }

  lemma AllFilesOkSnoc(d: seq<Entry>, files: seq<String>)
    requires files != []
    ensures AllFilesOk(d, files) <==>
      AllFilesOk(d, files[..|files| - 1]) && FileAverages(d, files[|files| - 1]).Ok?
  {
    var init := files[..|files| - 1];
    assert forall k :: 0 <= k < |init| ==> files[k] == init[k];
  }

  lemma {:induction false} AveragesValues(d: seq<Entry>, files: seq<String>)
    requires Averages(d, files).Ok?
    ensures |Averages(d, files).value| == |files|
    ensures forall k :: 0 <= k < |files| ==> FileAverages(d, files[k]) == Ok(Averages(d, files).value[k])
  {
    if files != [] {
      var init, last := files[..|files| - 1], files[|files| - 1];
      AveragesValues(d, init);
      var rs, avg := Averages(d, init).value, FileAverages(d, last).value;
      assert Averages(d, files).value == rs + [avg];
      forall k | 0 <= k < |files|
        ensures FileAverages(d, files[k]) == Ok(Averages(d, files).value[k])
      {
        if k < |init| {
          assert files[k] == init[k];
          assert Averages(d, files).value[k] == rs[k];
          assert FileAverages(d, init[k]) == Ok(rs[k]);
        } else {
          assert files[k] == last && Averages(d, files).value[k] == avg;
        }
      }
    }
  }

  lemma {:induction false} AveragesFirstError(d: seq<Entry>, files: seq<String>)
    requires Averages(d, files).Err?
    ensures exists k :: 0 <= k < |files| && FileAverages(d, files[k]) == Err(Averages(d, files).error) &&
                        forall i :: 0 <= i < k ==> FileAverages(d, files[i]).Ok?
  {
    var init := files[..|files| - 1];
    if Averages(d, init).Err? {
      AveragesFirstError(d, init);
      var k :| 0 <= k < |init| && FileAverages(d, init[k]) == Err(Averages(d, init).error) &&
        forall i :: 0 <= i < k ==> FileAverages(d, init[i]).Ok?;
      assert forall i :: 0 <= i < |init| ==> files[i] == init[i];
      assert FileAverages(d, files[k]) == Err(Averages(d, files).error);
    } else {
      AveragesOkIff(d, init);
      var k := |files| - 1;
      assert forall i :: 0 <= i < k ==> files[i] == init[i];
      assert FileAverages(d, files[k]) == Err(Averages(d, files).error);
    }
  }

  lemma {:induction false} AveragesErrPersists(d: seq<Entry>, files: seq<String>, k: nat)
    requires k <= |files| && Averages(d, files[..k]).Err?
    ensures Averages(d, files) == Averages(d, files[..k])
    decreases |files| - k
  {
    if k < |files| {
      var init := files[..|files| - 1];
      assert init[..k] == files[..k];
      AveragesErrPersists(d, init, k);
    } else {
      assert files[..k] == files;
    }
  }

  /** `process_results` without its output: fold the gathered dictionary
      again (lines 80-87), then average every given file (lines 89-90). */
  function Report(results: seq<Entry>, files: seq<String>): Result<seq<seq<real>>>
  {
    match Gather(results)
    case Err(e) => Err(e)
    case Ok(combined) => Averages(combined, files)
  }

  /** On the dictionary the fold of lines 127-134 built, the second fold is
      the identity, so the report averages that dictionary directly. */
  lemma ReportOfGathered(xs: seq<Entry>, files: seq<String>)
    requires Gather(xs).Ok?
    ensures Report(Gather(xs).value, files) == Averages(Gather(xs).value, files)
  {
    ReGather(xs);
  }

  /** `process_results(results, output_file, fastq_files)` (lines 75-99)
      returning the averages it would write. */
  method ProcessResults(results: seq<Entry>, fastqFiles: seq<String>) returns (r: Result<seq<seq<real>>>)
    ensures r == Report(results, fastqFiles)
  {
    var combined := GatherMerge(results);
    if combined.Err? {
      return Err(combined.error);
    }
    var d := combined.value;
    var out: seq<seq<real>> := [];
    for k := 0 to |fastqFiles|
      invariant Averages(d, fastqFiles[..k]) == Ok(out)
    {
      var f := fastqFiles[k];
      assert fastqFiles[..k + 1][..k] == fastqFiles[..k];
      assert fastqFiles[..k + 1][k] == f;
      var found := Find(d, f);
      if found.None? {
        AveragesErrPersists(d, fastqFiles, k + 1);
        return Err(KeyError);
      }
      var averages := Means(d[found.value].partial.sums, d[found.value].partial.counts);
      if averages.Err? {
        AveragesErrPersists(d, fastqFiles, k + 1);
        return Err(averages.error);
      }
      out := out + [averages.value];
    }
    assert fastqFiles[..|fastqFiles|] == fastqFiles;
    r := Ok(out);
  }
}
