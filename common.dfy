/** Values shared by every part of the model: optional values, the Python
    exceptions the programs can raise, and two small sequence helpers. */
module Common {

  datatype Option<T> = None | Some(value: T)

  /** The exceptions that end a run of the modelled programs. */
  datatype PyError =
    | IndexError          // a list or string index past its end
    | KeyError            // a dictionary lookup of a missing key
    | ValueError          // `int()` of a non-number, or a wrong unpacking count
    | ZeroDivisionError   // a division by zero
    | TypeError           // adding a string to a number
    | AttributeError      // reading a field a `Row` does not have

  datatype Result<T> = Ok(value: T) | Err(error: PyError)

  /** Element `i` of `s`, or 0 past its end: a missing position contributes nothing. */
  function Get(s: seq<int>, i: nat): int
  {
    if i < |s| then s[i] else 0
  }

  /** The concatenation of a sequence of sequences, in order. */
  function Flatten<T>(parts: seq<seq<T>>): seq<T>
  {
    if parts == [] then [] else Flatten(parts[..|parts| - 1]) + parts[|parts| - 1]
  }

  /** Total length of the parts. */
  function TotalLength<T>(parts: seq<seq<T>>): nat
  {
    if parts == [] then 0 else TotalLength(parts[..|parts| - 1]) + |parts[|parts| - 1]|
  }

  lemma {:induction false} FlattenLength<T>(parts: seq<seq<T>>)
    ensures |Flatten(parts)| == TotalLength(parts)
  {
    if parts != [] {
      FlattenLength(parts[..|parts| - 1]);
    }
  }

  lemma {:induction false} FlattenAppend<T>(a: seq<seq<T>>, b: seq<seq<T>>)
    ensures Flatten(a + b) == Flatten(a) + Flatten(b)
  {
    if b == [] {
      assert a + b == a;
    } else {
      var c, init, last := a + b, b[..|b| - 1], b[|b| - 1];
      assert c[..|c| - 1] == a + init && c[|c| - 1] == last;
      FlattenAppend(a, init);
      assert Flatten(c) == Flatten(a + init) + last;
      assert Flatten(b) == Flatten(init) + last;
    }
  }

  /** `f` applied to every element, in order (Python's `map`). */
  function Map<A, B>(f: A -> B, s: seq<A>): (r: seq<B>)
    ensures |r| == |s| && forall k :: 0 <= k < |s| ==> r[k] == f(s[k])
  {
    seq(|s|, k requires 0 <= k < |s| => f(s[k]))
  }

  /** `s` without its element at index `j`. */
  function RemoveAt<T>(s: seq<T>, j: nat): (r: seq<T>)
    requires j < |s|
    ensures multiset(s) == multiset(r) + multiset{s[j]}
  {
    assert s == s[..j] + [s[j]] + s[j + 1..];
    s[..j] + s[j + 1..]
  }

  lemma MapRemoveAt<A, B>(f: A -> B, q: seq<A>, j: nat)
    requires j < |q|
    ensures Map(f, RemoveAt(q, j)) == RemoveAt(Map(f, q), j)
  {
  }

  lemma MapSnoc<A, B>(f: A -> B, p: seq<A>, x: A)
    ensures Map(f, p + [x]) == Map(f, p) + [f(x)]
  {
  }

  /** Rearranging a list rearranges its image: `map` commutes with permutation. */
  lemma {:induction false} MapPermutation<A, B>(f: A -> B, p: seq<A>, q: seq<A>)
    requires multiset(p) == multiset(q)
    ensures multiset(Map(f, p)) == multiset(Map(f, q))
    decreases |p|
  {
    if p == [] {
      assert q == [] by { assert |multiset(q)| == 0; }
    } else {
      var x := p[|p| - 1];
      var init := p[..|p| - 1];
      assert p == init + [x];
      assert x in multiset(q) by { assert x in multiset(p); }
      var j :| 0 <= j < |q| && q[j] == x;
      var rest := RemoveAt(q, j);
      assert multiset(init) == multiset(rest) by {
        assert multiset(p) == multiset(init) + multiset{x};
        assert multiset(q) == multiset(rest) + multiset{x};
        forall y ensures multiset(init)[y] == multiset(rest)[y] {
          assert multiset(p)[y] == multiset(q)[y];
        }
      }
      MapPermutation(f, init, rest);
      MapSnoc(f, init, x);
      MapRemoveAt(f, q, j);
      var mq := Map(f, q);
      assert multiset(mq) == multiset(RemoveAt(mq, j)) + multiset{f(x)};
    }
  }
}
