/** The Python string operations the record parsers rely on: `strip`,
    `split()` on whitespace, `split(sep)`, `sep.join`, `str(n)` of a natural
    number and `int(s)`.

    Whitespace is Python's `str.isspace`: space, the control characters `\t`
    to `\r`, the separators with codes 28 to 31, and the Unicode line and
    space separators (U+0085, U+00A0, U+1680, U+2000 to U+200A, U+2028,
    U+2029, U+202F, U+205F and U+3000). */
module Text {
  import opened Common

  type String = seq<char>

  predicate IsSpace(c: char)
  {
    var n := c as int;
    if n <= 32 then n == 32 || 9 <= n <= 13 || 28 <= n <= 31
    else WideSpace(n)
  }

  /** The whitespace characters beyond ASCII. */
  predicate WideSpace(n: int)
  {
    n == 0x85 || n == 0xA0 || n == 0x1680 || (0x2000 <= n <= 0x200A) ||
    n == 0x2028 || n == 0x2029 || n == 0x202F || n == 0x205F || n == 0x3000
  }

  predicate IsDigit(c: char)
  {
    '0' <= c <= '9'
  }

  predicate StartsWith(s: String, prefix: String)
  {
    |prefix| <= |s| && s[..|prefix|] == prefix
  }

  /** `s.lstrip()`. */
  function LStrip(s: String): (r: String)
    ensures |r| <= |s| && r == s[|s| - |r|..]
    ensures r == [] || !IsSpace(r[0])
    ensures forall k :: 0 <= k < |s| - |r| ==> IsSpace(s[k])
  {
    if s != [] && IsSpace(s[0]) then
      var r := LStrip(s[1..]);
      LeadingSpaces(s, |s| - |r|);
      r
    else s
  }

  /** A whitespace character followed by `n - 1` more is a run of `n`. */
  lemma LeadingSpaces(s: String, n: nat)
    requires s != [] && IsSpace(s[0]) && 1 <= n <= |s|
    requires forall k :: 0 <= k < n - 1 ==> IsSpace(s[1..][k])
    ensures forall k :: 0 <= k < n ==> IsSpace(s[k])
  {
    forall k | 1 <= k < n ensures IsSpace(s[k]) {
      assert s[k] == s[1..][k - 1];
    }
  }

  /** `s.rstrip()`. */
  function RStrip(s: String): (r: String)
    ensures |r| <= |s| && r == s[..|r|]
    ensures r == [] || !IsSpace(r[|r| - 1])
    ensures forall k :: |r| <= k < |s| ==> IsSpace(s[k])
  {
    if s != [] && IsSpace(s[|s| - 1]) then RStrip(s[..|s| - 1]) else s
  }

  /** `s.strip()`: the slice of `s` between its leading and trailing whitespace. */
  function Strip(s: String): (r: String)
    ensures |r| <= |s|
    ensures r == [] || (!IsSpace(r[0]) && !IsSpace(r[|r| - 1]))
  {
    RStrip(LStrip(s))
  }

  /** The index of the first whitespace character of `s`, or `|s|`. */
  function WordEnd(s: String): (k: nat)
    ensures k <= |s| && (k == |s| || IsSpace(s[k]))
    ensures forall j :: 0 <= j < k ==> !IsSpace(s[j])
  {
    if s == [] || IsSpace(s[0]) then 0 else 1 + WordEnd(s[1..])
  }

  predicate NoSpace(w: String)
  {
    forall k :: 0 <= k < |w| ==> !IsSpace(w[k])
  }

  /** A string with no whitespace at either end is its own `strip()`. */
  lemma StripTrimmed(s: String)
    requires s != [] && !IsSpace(s[0]) && !IsSpace(s[|s| - 1])
    ensures Strip(s) == s
  {
    assert LStrip(s) == s;
    assert RStrip(s) == s;
  }

  /** `s.split()`: the maximal runs of non-whitespace characters, in order. */
  function Tokens(s: String): seq<String>
    decreases |s|
  {
    var t := LStrip(s);
    if t == [] then []
    else
      var k := WordEnd(t);
      assert k > 0 by { assert !IsSpace(t[0]); }
      [t[..k]] + Tokens(t[k..])
  }

  /** Every element is a non-empty word without whitespace. */
  predicate Words(ts: seq<String>)
  {
    forall k :: 0 <= k < |ts| ==> ts[k] != [] && NoSpace(ts[k])
  }

  /** Every token `split()` yields is a non-empty word without whitespace. */
  lemma {:induction false} TokensAreWords(s: String)
    ensures Words(Tokens(s))
    decreases |s|
  {
    var t := LStrip(s);
    if t != [] {
      var k := WordEnd(t);
      assert !IsSpace(t[0]);
      TokensAreWords(t[k..]);
      var rest := Tokens(t[k..]);
      assert Tokens(s) == [t[..k]] + rest;
      forall j | 0 <= j < |Tokens(s)| ensures Tokens(s)[j] != [] && NoSpace(Tokens(s)[j]) {
        if j > 0 {
          assert Tokens(s)[j] == rest[j - 1];
        }
      }
    }
  }

  /** `s.split(maxsplit=1)` on a string with no surrounding whitespace: the
      first word, and the rest after the whitespace that follows it when
      anything is left. */
  function SplitOnce(s: String): (r: seq<String>)
    ensures |r| <= 2 && (r == [] <==> LStrip(s) == [])
  {
    var t := LStrip(s);
    if t == [] then []
    else
      var k := WordEnd(t);
      var rest := LStrip(t[k..]);
      if rest == [] then [t[..k]] else [t[..k], rest]
  }

  /** Whether `sep` occurs in `s` starting at index `i`. */
  predicate OccursAt(s: String, sep: String, i: nat)
  {
    i + |sep| <= |s| && s[i..i + |sep|] == sep
  }

  predicate Contains(s: String, sep: String)
  {
    exists i: nat :: i <= |s| && OccursAt(s, sep, i)
  }

  /** The first occurrence of `sep` in `s` at or after `i`. */
  function FindFrom(s: String, sep: String, i: nat): (r: Option<nat>)
    requires |sep| > 0
    ensures r.Some? ==> i <= r.value && OccursAt(s, sep, r.value)
    ensures r.Some? ==> forall j :: i <= j < r.value ==> !OccursAt(s, sep, j)
    ensures r.None? ==> forall j :: i <= j ==> !OccursAt(s, sep, j)
    decreases |s| - i
  {
    if |s| < i + |sep| then None
    else if s[i..i + |sep|] == sep then Some(i)
    else FindFrom(s, sep, i + 1)
  }

  /** `s.split(sep)`: the pieces between the leftmost non-overlapping
      occurrences of `sep`; always at least one piece. */
  function SplitOn(s: String, sep: String): (r: seq<String>)
    requires |sep| > 0
    ensures |r| >= 1
    decreases |s|
  {
    match FindFrom(s, sep, 0)
    case None => [s]
    case Some(k) => [s[..k]] + SplitOn(s[k + |sep|..], sep)
  }

  /** `sep.join(parts)`. */
  function Join(parts: seq<String>, sep: String): String
  {
    if parts == [] then []
    else if |parts| == 1 then parts[0]
    else Join(parts[..|parts| - 1], sep) + sep + parts[|parts| - 1]
  }

  /** No proper prefix of `sep` is also a suffix of it, so two occurrences
      of `sep` can never overlap. */
  predicate Unbordered(sep: String)
  {
    forall k :: 0 < k < |sep| ==> sep[..k] != sep[|sep| - k..]
  }

  /** An occurrence of `sep` in `a + sep + b` that starts inside `a` lies
      wholly in `a`, or straddles the boundary, and then `sep` has a border. */
  lemma OccurrenceInPiece(a: String, sep: String, b: String, j: nat)
    ensures j < |a| && OccursAt(a + sep + b, sep, j) ==>
      Contains(a, sep) || exists k :: 0 < k < |sep| && sep[..k] == sep[|sep| - k..]
  {
    var s := a + sep + b;
    if j < |a| && OccursAt(s, sep, j) {
      if j + |sep| <= |a| {
        assert a[j..j + |sep|] == s[j..j + |sep|];
        assert OccursAt(a, sep, j);
      } else {
        var k := |sep| - (|a| - j);
        forall t | 0 <= t < k ensures sep[t] == sep[|sep| - k + t] {
          assert s[j..j + |sep|][|sep| - k + t] == s[|a| + t];
        }
        assert sep[..k] == sep[|sep| - k..];
      }
    }
  }

  /** In `a + sep + b`, when `a` holds no `sep` and `sep` is unbordered, the
      first occurrence of `sep` is the one right after `a`. */
  lemma FindAfterPiece(a: String, sep: String, b: String)
    requires |sep| > 0 && Unbordered(sep) && !Contains(a, sep)
    ensures FindFrom(a + sep + b, sep, 0) == Some(|a|)
  {
    var s := a + sep + b;
    assert OccursAt(s, sep, |a|) by { assert s[|a|..|a| + |sep|] == sep; }
    forall j: nat | j < |a| ensures !OccursAt(s, sep, j) {
      OccurrenceInPiece(a, sep, b, j);
    }
  }

  /** Splitting on an unbordered separator undoes a join, provided no piece
      contains the separator. */
  lemma {:induction false} SplitJoin(parts: seq<String>, sep: String)
    requires |sep| > 0 && Unbordered(sep) && parts != []
    requires forall k :: 0 <= k < |parts| ==> !Contains(parts[k], sep)
    ensures SplitOn(Join(parts, sep), sep) == parts
    decreases |parts|
  {
    if |parts| == 1 {
      assert FindFrom(parts[0], sep, 0).None?;
    } else {
      var rest := parts[1..];
      JoinCons(parts[0], rest, sep);
      FindAfterPiece(parts[0], sep, Join(rest, sep));
      var s := parts[0] + sep + Join(rest, sep);
      assert s[..|parts[0]|] == parts[0];
      assert s[|parts[0]| + |sep|..] == Join(rest, sep);
      SplitJoin(rest, sep);
      assert parts == [parts[0]] + rest;
    }
  }

  lemma {:induction false} JoinCons(first: String, rest: seq<String>, sep: String)
    requires rest != []
    ensures Join([first] + rest, sep) == first + sep + Join(rest, sep)
    decreases |rest|
  {
    var ps := [first] + rest;
    if |rest| == 1 {
      assert ps[..1] == [first];
    } else {
      var init, last := rest[..|rest| - 1], rest[|rest| - 1];
      JoinCons(first, init, sep);
      assert ps[..|ps| - 1] == [first] + init;
      assert ps[|ps| - 1] == last;
      assert Join(ps, sep) == Join([first] + init, sep) + sep + last;
      assert Join(rest, sep) == Join(init, sep) + sep + last;
    }
  }

  function DigitChar(d: nat): char
    requires d < 10
  {
    ('0' as int + d) as char
  }

  /** `str(n)`: the decimal digits of `n`, without leading zeros. */
  function NatToString(n: nat): (r: String)
    ensures r != [] && forall k :: 0 <= k < |r| ==> IsDigit(r[k])
  {
    if n < 10 then [DigitChar(n)] else NatToString(n / 10) + [DigitChar(n % 10)]
  }

  function DigitValue(c: char): nat
    requires IsDigit(c)
  {
    c as int - '0' as int
  }

  /** The number a string of decimal digits denotes. */
  function DigitsValue(ds: String): nat
    requires forall k :: 0 <= k < |ds| ==> IsDigit(ds[k])
  {
    if ds == [] then 0
    else DigitsValue(ds[..|ds| - 1]) * 10 + DigitValue(ds[|ds| - 1])
  }

  predicate AllDigits(ds: String)
  {
    ds != [] && forall k :: 0 <= k < |ds| ==> IsDigit(ds[k])
  }

  /** `int(s)`: surrounding whitespace, one optional sign, then at least one
      ASCII digit; anything else is a ValueError. */
  function ParseInt(s: String): (r: Result<int>)
    ensures r.Err? ==> r.error == ValueError
  {
    var t := Strip(s);
    if t != [] && (t[0] == '+' || t[0] == '-') then
      if AllDigits(t[1..]) then
        var v: int := DigitsValue(t[1..]);
        Ok(if t[0] == '-' then -v else v)
      else Err(ValueError)
    else if AllDigits(t) then Ok(DigitsValue(t))
    else Err(ValueError)
  }

  /** `int(s)` succeeds exactly on a stripped numeral with at most one sign,
      and then gives its signed value. */
  lemma ParseIntSpec(s: String)
    ensures var t := Strip(s);
      ParseInt(s).Ok? <==> AllDigits(t) || (t != [] && (t[0] == '+' || t[0] == '-') && AllDigits(t[1..]))
    ensures var t := Strip(s);
      ParseInt(s).Ok? ==> ParseInt(s).value == if AllDigits(t) then DigitsValue(t) as int
        else if t[0] == '-' then -(DigitsValue(t[1..]) as int) else DigitsValue(t[1..])
  {
    var t := Strip(s);
    if t != [] && (t[0] == '+' || t[0] == '-') {
      assert !IsDigit(t[0]);
    }
  }

  lemma {:induction false} DigitsOfNat(n: nat)
    ensures DigitsValue(NatToString(n)) == n
  {
    if n >= 10 {
      DigitsOfNat(n / 10);
      var r := NatToString(n);
      assert r[..|r| - 1] == NatToString(n / 10);
    }
  }

  /** `int(str(n)) == n`. */
  lemma ParseNatToString(n: nat)
    ensures ParseInt(NatToString(n)) == Ok(n)
  {
    DigitsOfNat(n);
    ParseDigits(NatToString(n));
  }

  /** A string of digits holds no space and no `", "`. */
  lemma DigitsHaveNoSeparator(ds: String, sep: String)
    requires forall k :: 0 <= k < |ds| ==> IsDigit(ds[k])
    requires |sep| > 0 && !IsDigit(sep[0])
    ensures !Contains(ds, sep)
  {
    forall i: nat | i <= |ds| ensures !OccursAt(ds, sep, i) {
      if i + |sep| <= |ds| {
        assert ds[i..i + |sep|][0] == ds[i];
      }
    }
  }

  /** In `a + sep + b`, when `a` holds no character equal to the first one of
      `sep`, the first occurrence of `sep` is the one right after `a`. */
  lemma FindAfterFreePiece(a: String, sep: String, b: String)
    requires |sep| > 0 && forall k :: 0 <= k < |a| ==> a[k] != sep[0]
    ensures FindFrom(a + sep + b, sep, 0) == Some(|a|)
  {
    var s := a + sep + b;
    assert OccursAt(s, sep, |a|) by { assert s[|a|..|a| + |sep|] == sep; }
    forall j: nat | j < |a| ensures !OccursAt(s, sep, j) {
      assert s[j] == a[j];
      if j + |sep| <= |s| {
        assert s[j..j + |sep|][0] == s[j];
      }
    }
  }

  /** Splitting on a separator undoes a join when no piece holds the
      separator's first character; the separator may overlap itself. */
  lemma {:induction false} SplitJoinFree(parts: seq<String>, sep: String)
    requires |sep| > 0 && parts != []
    requires forall k, i :: 0 <= k < |parts| && 0 <= i < |parts[k]| ==> parts[k][i] != sep[0]
    ensures SplitOn(Join(parts, sep), sep) == parts
    decreases |parts|
  {
    if |parts| == 1 {
      var s := parts[0];
      forall j: nat | j <= |s| ensures !OccursAt(s, sep, j) {
        if j + |sep| <= |s| {
          assert s[j..j + |sep|][0] == s[j];
        }
      }
      assert FindFrom(s, sep, 0).None?;
    } else {
      var rest := parts[1..];
      JoinCons(parts[0], rest, sep);
      FindAfterFreePiece(parts[0], sep, Join(rest, sep));
      var s := parts[0] + sep + Join(rest, sep);
      assert s[..|parts[0]|] == parts[0];
      assert s[|parts[0]| + |sep|..] == Join(rest, sep);
      SplitJoinFree(rest, sep);
      assert parts == [parts[0]] + rest;
    }
  }

  /** A word without whitespace holds no `", "`. */
  lemma NoSpaceNoComma(w: String)
    requires NoSpace(w)
    ensures !Contains(w, ", ")
  {
    var sep := ", ";
    forall i: nat | i <= |w| ensures !OccursAt(w, sep, i) {
      if i + 2 <= |w| {
        assert w[i..i + 2][1] == w[i + 1];
        assert IsSpace(sep[1]);
      }
    }
  }

  predicate AllSpace(w: String)
  {
    forall k :: 0 <= k < |w| ==> IsSpace(w[k])
  }

  /** `int` reads a numeral with an optional sign and any whitespace around
      it as the signed number the digits denote. */
  lemma ParsePadded(w1: String, sign: String, ds: String, w2: String)
    requires AllSpace(w1) && AllSpace(w2) && AllDigits(ds)
    requires sign == [] || sign == "+" || sign == "-"
    ensures ParseInt(w1 + (sign + ds) + w2) ==
      Ok(if sign == "-" then -(DigitsValue(ds) as int) else DigitsValue(ds))
  {
    var t := sign + ds;
    assert t[|t| - 1] == ds[|ds| - 1];
    assert !IsSpace(t[0]) by {
      if sign == [] { assert t[0] == ds[0]; } else { assert t[0] == sign[0]; }
    }
    StripPadded(w1, t, w2);
    ParseNumeral(w1 + t + w2, sign, ds);
  }

  /** What `int` makes of a string whose stripped form is a numeral. */
  lemma ParseNumeral(s: String, sign: String, ds: String)
    requires AllDigits(ds) && (sign == [] || sign == "+" || sign == "-")
    requires Strip(s) == sign + ds
    ensures ParseInt(s) == Ok(if sign == "-" then -(DigitsValue(ds) as int) else DigitsValue(ds))
  {
    if sign == [] {
      assert sign + ds == ds;
      ParseUnsigned(s, ds);
    } else {
      ParseSigned(s, sign[0], ds);
    }
  }

  lemma ParseUnsigned(s: String, ds: String)
    requires AllDigits(ds) && Strip(s) == ds
    ensures ParseInt(s) == Ok(DigitsValue(ds))
  {
    assert IsDigit(ds[0]);
  }

  lemma ParseSigned(s: String, c: char, ds: String)
    requires AllDigits(ds) && (c == '+' || c == '-') && Strip(s) == [c] + ds
    ensures ParseInt(s) == Ok(if c == '-' then -(DigitsValue(ds) as int) else DigitsValue(ds))
  {
    var t := [c] + ds;
    assert t[1..] == ds;
    assert t[0] == c && !AllDigits(t);
  }

  /** Whitespace around a string with no whitespace at either end is what
      `strip()` takes off. */
  lemma StripPadded(w1: String, x: String, w2: String)
    requires AllSpace(w1) && AllSpace(w2)
    requires x != [] && !IsSpace(x[0]) && !IsSpace(x[|x| - 1])
    ensures Strip(w1 + x + w2) == x
  {
    assert w1 + x + w2 == w1 + (x + w2);
    LStripSpaces(w1, x + w2);
    RStripSpaces(x, w2);
  }

  /** `lstrip()` stops at the first character that is not whitespace. */
  lemma LStripSpaces(w: String, y: String)
    requires AllSpace(w) && y != [] && !IsSpace(y[0])
    ensures LStrip(w + y) == y
  {
    var s := w + y;
    var r := LStrip(s);
    var d := |s| - |r|;
    assert s[|w|] == y[0];
    assert d <= |w|;
    forall k | 0 <= k < |w| ensures IsSpace(s[k]) {
      assert s[k] == w[k];
    }
    assert r[0] == s[d];
    assert r == s[|w|..] == y;
  }

  /** `rstrip()` stops at the last character that is not whitespace. */
  lemma RStripSpaces(y: String, w: String)
    requires AllSpace(w) && y != [] && !IsSpace(y[|y| - 1])
    ensures RStrip(y + w) == y
  {
    var s := y + w;
    var r := RStrip(s);
    var n := |r|;
    assert s[|y| - 1] == y[|y| - 1];
    assert n >= |y|;
    forall k | |y| <= k < |s| ensures IsSpace(s[k]) {
      assert s[k] == w[k - |y|];
    }
    assert r[n - 1] == s[n - 1];
    assert r == s[..|y|] == y;
  }

  /** `int(ds)` on a string of digits is the number the digits denote. */
  lemma ParseDigits(ds: String)
    requires AllDigits(ds)
    ensures ParseInt(ds) == Ok(DigitsValue(ds))
  {
    StripTrimmed(ds);
    ParseUnsigned(ds, ds);
  }
}
