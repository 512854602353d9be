/** Parsing of GenBank flat-file (GBFF) records: the line scanner that pulls
    the identifier, the organism and the feature table out of one record,
    the splitters that turn one feature entry into its key and location,
    the location pattern the feature table is filtered on, and the rule
    that drops the genes a coding sequence lies within. */
module Gbff {
  import opened Common
  import opened Text

  /** The indentation of a feature-table line. */
  const Five: String := "     "

  /** What the record scan has collected so far: the row's two optional
      fields, the mode flag, and the token lists of the feature lines. */
  datatype ScanState = ScanState(
    identifier: Option<String>,
    organism: Option<String>,
    atFeatures: bool,
    features: seq<seq<String>>)

  const Start := ScanState(None, None, false, [])

  /** The row built from one record; a field the record never set is None. */
  datatype Extracted = Extracted(identifier: Option<String>, organism: Option<String>, features: String)

  lemma FirstChar(s: String, prefix: String)
    requires |prefix| > 0 && StartsWith(s, prefix)
    ensures s[0] == prefix[0]
  {
    assert s[..|prefix|][0] == s[0];
  }

  /** `line.split()[1]`, or None when the line has fewer than two tokens. */
  function SecondToken(line: String): (r: Option<String>)
    ensures r.Some? ==> r.value != [] && NoSpace(r.value)
  {
    var ts := Tokens(line);
    TokensAreWords(line);
    if |ts| >= 2 then Some(ts[1]) else None
  }

  /** `line.strip().split(maxsplit=1)[1]`, or None when the stripped line is
      a single word. */
  function AfterFirstWord(line: String): Option<String>
  {
    var ps := SplitOnce(Strip(line));
    if |ps| >= 2 then Some(ps[1]) else None
  }

  /** A feature-table line that opens a new feature: it has a sixth
      character and that character is not a space. */
  predicate OpensFeature(line: String)
  {
    |line| > 5 && line[5] != ' '
  }

  /** The scan of lines 54-67, one line at a time; `Ok(st)` is the state it
      stops in, at the end of the record or at the `break`. */
  function ScanLines(lines: seq<String>, st: ScanState): Result<ScanState>
    decreases |lines|
  {
    if lines == [] then Ok(st)
    else
      var line := lines[0];
      if st.atFeatures then
        if !StartsWith(line, Five) then Ok(st)
        else if |line| == 5 then Err(IndexError)
        else ScanLines(lines[1..],
          if line[5] != ' ' then st.(features := st.features + [Tokens(Strip(line))]) else st)
      else if StartsWith(line, "LOCUS") then
        match SecondToken(line)
        case None => Err(IndexError)
        case Some(id) => ScanLines(lines[1..], st.(identifier := Some(id)))
      else if StartsWith(line, "SOURCE") then
        match AfterFirstWord(line)
        case None => Err(IndexError)
        case Some(org) => ScanLines(lines[1..], st.(organism := Some(org)))
      else
        ScanLines(lines[1..], if StartsWith(line, "FEATURES") then st.(atFeatures := true) else st)
  }

  // ---------------------------------------------------------------------
  // What the scan computes, stated over the whole record

  /** The index of the first line that opens the feature table, or `|lines|`. */
  function HeaderEnd(lines: seq<String>): (h: nat)
    ensures h <= |lines|
    ensures h < |lines| ==> StartsWith(lines[h], "FEATURES")
    ensures forall k :: 0 <= k < h ==> !StartsWith(lines[k], "FEATURES")
  {
    if lines == [] || StartsWith(lines[0], "FEATURES") then 0 else 1 + HeaderEnd(lines[1..])
  }

  /** The length of the leading run of lines that start with five spaces. */
  function BlockLen(lines: seq<String>): (n: nat)
    ensures n <= |lines|
    ensures forall k :: 0 <= k < n ==> StartsWith(lines[k], Five)
    ensures n < |lines| ==> !StartsWith(lines[n], Five)
  {
    if lines == [] || !StartsWith(lines[0], Five) then 0 else 1 + BlockLen(lines[1..])
  }

  /** The index of the last line that starts with `prefix`. */
  function LastWith(lines: seq<String>, prefix: String): (r: Option<nat>)
    ensures r.Some? ==> r.value < |lines| && StartsWith(lines[r.value], prefix)
    ensures r.Some? ==> forall k :: r.value < k < |lines| ==> !StartsWith(lines[k], prefix)
    ensures r.None? ==> forall k :: 0 <= k < |lines| ==> !StartsWith(lines[k], prefix)
  {
    if lines == [] then None
    else match LastWith(lines[1..], prefix)
      case Some(k) => Some(k + 1)
      case None => if StartsWith(lines[0], prefix) then Some(0) else None
  }

  /** A header line the scan fails on: a `LOCUS` line without a second
      token, or a `SOURCE` line that is a single word. */
  predicate BadHeaderLine(line: String)
  {
    (StartsWith(line, "LOCUS") && SecondToken(line).None?)
    || (StartsWith(line, "SOURCE") && AfterFirstWord(line).None?)
  }

  predicate HeaderBroken(header: seq<String>)
  {
    exists k :: 0 <= k < |header| && BadHeaderLine(header[k])
  }

  /** The identifier after the header: from the last `LOCUS` line, else `prior`. */
  function HeaderIdentifier(header: seq<String>, prior: Option<String>): Option<String>
  {
    match LastWith(header, "LOCUS")
    case None => prior
    case Some(k) => SecondToken(header[k])
  }

  /** The organism after the header: from the last `SOURCE` line, else `prior`. */
  function HeaderOrganism(header: seq<String>, prior: Option<String>): Option<String>
  {
    match LastWith(header, "SOURCE")
    case None => prior
    case Some(k) => AfterFirstWord(header[k])
  }

  /** A feature-table line of exactly five spaces, whose sixth character
      the scan reads. */
  predicate BareIndent(block: seq<String>)
  {
    exists k :: 0 <= k < |block| && |block[k]| == 5
  }

  /** The feature token lists an indented line adds: one list when it opens
      a feature, none otherwise. */
  function Opened(line: String): seq<seq<String>>
  {
    if OpensFeature(line) then [Tokens(Strip(line))] else []
  }

  /** The token lists of the lines of `block` that open a feature, in order. */
  function Entries(block: seq<String>): (r: seq<seq<String>>)
    ensures |r| <= |block|
  {
    if block == [] then []
    else Opened(block[0]) + Entries(block[1..])
  }

  lemma OpenedAreWords(line: String)
    ensures forall k :: 0 <= k < |Opened(line)| ==> Words(Opened(line)[k])
  {
    if OpensFeature(line) {
      var x := Strip(line);
      TokensAreWords(x);
      OneList(Tokens(x));
    }
  }

  lemma OneList(ts: seq<String>)
    requires Words(ts)
    ensures forall k :: 0 <= k < |[ts]| ==> Words([ts][k])
  {
  }

  /** Every token of every entry is a non-empty word without whitespace. */
  lemma {:induction false} EntriesAreWords(block: seq<String>)
    ensures forall k :: 0 <= k < |Entries(block)| ==> Words(Entries(block)[k])
  {
    if block != [] {
      var first, rest := Opened(block[0]), Entries(block[1..]);
      OpenedAreWords(block[0]);
      EntriesAreWords(block[1..]);
      assert Entries(block) == first + rest;
    }
  }

  /** The feature table that follows the `FEATURES` line: the entries of
      its leading run of indented lines. */
  function FeatureTable(lines: seq<String>): Result<seq<seq<String>>>
  {
    var block := lines[..BlockLen(lines)];
    if BareIndent(block) then Err(IndexError) else Ok(Entries(block))
  }

  /** One entry of the `features` field: its number, key and location. */
  function FormatEntry(i: nat, f: seq<String>): String
    requires |f| >= 2
  {
    NatToString(i) + ", " + f[0] + ", " + f[1]
  }

  /** The entries numbered from 1, or the IndexError of a feature line with
      fewer than two tokens. */
  function FormatAll(fs: seq<seq<String>>): (r: Result<seq<String>>)
    ensures r.Ok? <==> forall k :: 0 <= k < |fs| ==> |fs[k]| >= 2
    ensures r.Err? ==> r.error == IndexError
    ensures r.Ok? ==> |r.value| == |fs|
    ensures r.Ok? ==> forall k :: 0 <= k < |fs| ==> r.value[k] == FormatEntry(k + 1, fs[k])
  {
    if forall k :: 0 <= k < |fs| ==> |fs[k]| >= 2 then
      Ok(seq(|fs|, k requires 0 <= k < |fs| => FormatEntry(k + 1, fs[k])))
    else Err(IndexError)
  }

  /** The row of one record, stated over the whole record: the header ends
      at the first `FEATURES` line; the identifier and the organism come
      from the last `LOCUS` and `SOURCE` lines before it; the features are
      the lines of the indented run after it that open a feature, numbered
      and joined by `"//"`. */
  function ExtractSpec(record: String): Result<Extracted>
  {
    LinesSpec(SplitOn(record, "\n"))
  }

  /** `ExtractSpec` once the record is split into lines. */
  function LinesSpec(lines: seq<String>): Result<Extracted>
  {
    var h := HeaderEnd(lines);
    var header := lines[..h];
    if HeaderBroken(header) then Err(IndexError)
    else
      var table := if h == |lines| then Ok([]) else FeatureTable(lines[h + 1..]);
      match table
      case Err(e) => Err(e)
      case Ok(fs) => Emit(HeaderIdentifier(header, None), HeaderOrganism(header, None), fs)
  }

  /** The row written at the end of a record (lines 68-72): the entries
      numbered and joined by `"//"`. */
  function Emit(id: Option<String>, org: Option<String>, fs: seq<seq<String>>): Result<Extracted>
  {
    match FormatAll(fs)
    case Err(e) => Err(e)
    case Ok(entries) => Ok(Extracted(id, org, Join(entries, "//")))
  }

  // ---------------------------------------------------------------------
  // The scan meets the statement

  /** Peeling one indented line of more than five characters off the table. */
  lemma FeatureTableCons(lines: seq<String>)
    requires lines != [] && StartsWith(lines[0], Five) && |lines[0]| > 5
    ensures FeatureTable(lines) ==
      match FeatureTable(lines[1..])
      case Err(e) => Err(e)
      case Ok(fs) => Ok(Opened(lines[0]) + fs)
  {
    var rest := lines[1..];
    var block := lines[..BlockLen(lines)];
    assert block[0] == lines[0];
    assert block[1..] == rest[..BlockLen(rest)];
    assert BareIndent(block) <==> BareIndent(block[1..]) by {
      if BareIndent(block[1..]) {
        var k :| 0 <= k < |block[1..]| && |block[1..][k]| == 5;
        assert |block[k + 1]| == 5;
      }
      if BareIndent(block) {
        var k :| 0 <= k < |block| && |block[k]| == 5;
        assert |block[1..][k - 1]| == 5;
      }
    }
  }

  lemma ScanFeatureLine(lines: seq<String>, st: ScanState)
    requires st.atFeatures && lines != [] && StartsWith(lines[0], Five) && |lines[0]| > 5
    ensures ScanLines(lines, st) == ScanLines(lines[1..], st.(features := st.features + Opened(lines[0])))
  {
    if !OpensFeature(lines[0]) {
      assert st.features + [] == st.features;
    }
  }

  lemma {:induction false} ScanBlock(lines: seq<String>, st: ScanState)
    requires st.atFeatures
    ensures ScanLines(lines, st) ==
      match FeatureTable(lines)
      case Err(e) => Err(e)
      case Ok(fs) => Ok(st.(features := st.features + fs))
    decreases |lines|
  {
    if lines == [] || !StartsWith(lines[0], Five) {
      ScanBlockStop(lines, st);
      assert st.features + [] == st.features;
    } else if |lines[0]| == 5 {
      ScanBlockBare(lines, st);
    } else {
      var head := Opened(lines[0]);
      var st' := st.(features := st.features + head);
      ScanFeatureLine(lines, st);
      ScanBlock(lines[1..], st');
      FeatureTableCons(lines);
      BlockStep(ScanLines(lines, st), FeatureTable(lines[1..]), FeatureTable(lines), st, head);
    }
  }

  /** One line of the block, stated over the results only. */
  lemma BlockStep(scan: Result<ScanState>, tail: Result<seq<seq<String>>>, table: Result<seq<seq<String>>>,
                  st: ScanState, head: seq<seq<String>>)
    requires scan == match tail
      case Err(e) => Err(e)
      case Ok(fs) => Ok(st.(features := st.features + head).(features := st.features + head + fs))
    requires table == match tail
      case Err(e) => Err(e)
      case Ok(fs) => Ok(head + fs)
    ensures scan == match table
      case Err(e) => Err(e)
      case Ok(fs) => Ok(st.(features := st.features + fs))
  {
    match tail
    case Err(e) =>
    case Ok(fs) =>
      assert st.features + head + fs == st.features + (head + fs);
  }

  /** An empty or unindented first line ends the block: nothing is added. */
  lemma ScanBlockStop(lines: seq<String>, st: ScanState)
    requires st.atFeatures && (lines == [] || !StartsWith(lines[0], Five))
    ensures ScanLines(lines, st) == Ok(st) && FeatureTable(lines) == Ok([])
  {
    assert BlockLen(lines) == 0;
    assert lines[..0] == [];
  }

  /** A first line of exactly five spaces raises in both descriptions. */
  lemma ScanBlockBare(lines: seq<String>, st: ScanState)
    requires st.atFeatures && lines != [] && StartsWith(lines[0], Five) && |lines[0]| == 5
    ensures ScanLines(lines, st) == Err(IndexError) && FeatureTable(lines) == Err(IndexError)
  {
    var block := lines[..BlockLen(lines)];
    assert |block[0]| == 5;
  }

  /** Where the scan goes after the header: the end of the record, or the
      feature table in feature mode. */
  function AfterHeader(lines: seq<String>, h: nat, st: ScanState): Result<ScanState>
    requires h <= |lines|
  {
    if h == |lines| then Ok(st) else ScanLines(lines[h + 1..], st.(atFeatures := true))
  }

  lemma HeaderFieldsCons(header: seq<String>, id: Option<String>, org: Option<String>)
    requires header != []
    ensures HeaderIdentifier(header, id)
      == HeaderIdentifier(header[1..], if StartsWith(header[0], "LOCUS") then SecondToken(header[0]) else id)
    ensures HeaderOrganism(header, org)
      == HeaderOrganism(header[1..], if StartsWith(header[0], "SOURCE") then AfterFirstWord(header[0]) else org)
  {
    LastWithCons(header, "LOCUS");
    LastWithCons(header, "SOURCE");
  }

  /** The last line with a prefix, seen from the first line on. */
  lemma LastWithCons(lines: seq<String>, prefix: String)
    requires lines != []
    ensures match LastWith(lines[1..], prefix)
      case Some(k) => LastWith(lines, prefix) == Some(k + 1) && lines[k + 1] == lines[1..][k]
      case None => LastWith(lines, prefix) == if StartsWith(lines[0], prefix) then Some(0) else None
  {
  }

  lemma HeaderBrokenCons(header: seq<String>)
    requires header != []
    ensures HeaderBroken(header) <==> BadHeaderLine(header[0]) || HeaderBroken(header[1..])
  {
    if HeaderBroken(header[1..]) {
      var k :| 0 <= k < |header[1..]| && BadHeaderLine(header[1..][k]);
      assert BadHeaderLine(header[k + 1]);
    }
    if HeaderBroken(header) && !BadHeaderLine(header[0]) {
      var k :| 0 <= k < |header| && BadHeaderLine(header[k]);
      assert BadHeaderLine(header[1..][k - 1]);
    }
  }

  /** One header line: the state the scan carries on with. */
  function HeaderStep(line: String, st: ScanState): ScanState
  {
    st.(identifier := if StartsWith(line, "LOCUS") then SecondToken(line) else st.identifier,
        organism := if StartsWith(line, "SOURCE") then AfterFirstWord(line) else st.organism)
  }

  /** No line starts with two of the header keywords. */
  lemma HeaderPrefixes(line: String)
    ensures StartsWith(line, "LOCUS") ==> !StartsWith(line, "SOURCE") && !StartsWith(line, "FEATURES")
    ensures StartsWith(line, "SOURCE") ==> !StartsWith(line, "FEATURES")
  {
    if StartsWith(line, "LOCUS") { FirstChar(line, "LOCUS"); }
    if StartsWith(line, "SOURCE") { FirstChar(line, "SOURCE"); }
    if StartsWith(line, "FEATURES") { FirstChar(line, "FEATURES"); }
  }

  lemma ScanFeaturesLine(lines: seq<String>, st: ScanState)
    requires !st.atFeatures && lines != [] && StartsWith(lines[0], "FEATURES")
    ensures ScanLines(lines, st) == ScanLines(lines[1..], st.(atFeatures := true))
  {
    HeaderPrefixes(lines[0]);
  }

  lemma ScanHeaderLine(lines: seq<String>, st: ScanState)
    requires !st.atFeatures && lines != [] && !StartsWith(lines[0], "FEATURES")
    ensures ScanLines(lines, st) ==
      if BadHeaderLine(lines[0]) then Err(IndexError) else ScanLines(lines[1..], HeaderStep(lines[0], st))
  {
    HeaderPrefixes(lines[0]);
  }

  lemma {:induction false} ScanHeader(lines: seq<String>, st: ScanState)
    requires !st.atFeatures
    ensures var h := HeaderEnd(lines);
      ScanLines(lines, st) ==
        if HeaderBroken(lines[..h]) then Err(IndexError)
        else AfterHeader(lines, h, st.(identifier := HeaderIdentifier(lines[..h], st.identifier),
                                       organism := HeaderOrganism(lines[..h], st.organism)))
    decreases |lines|
  {
    var h := HeaderEnd(lines);
    if lines == [] {
    } else if StartsWith(lines[0], "FEATURES") {
      assert lines[..h] == [];
      assert !HeaderBroken(lines[..h]);
      ScanFeaturesLine(lines, st);
    } else {
      var header := lines[..h];
      var rest := lines[1..];
      assert header[0] == lines[0];
      assert header[1..] == rest[..HeaderEnd(rest)];
      HeaderBrokenCons(header);
      HeaderFieldsCons(header, st.identifier, st.organism);
      ScanHeaderLine(lines, st);
      if !BadHeaderLine(lines[0]) {
        ScanHeader(rest, HeaderStep(lines[0], st));
        if h < |lines| {
          assert rest[HeaderEnd(rest) + 1..] == lines[h + 1..];
        }
      }
    }
  }

  /** The row the scan's final state gives (lines 69-72). */
  function RowOf(st: ScanState): Result<Extracted>
  {
    Emit(st.identifier, st.organism, st.features)
  }

  lemma ScanMeetsSpec(record: String)
    ensures ExtractSpec(record) ==
      match ScanLines(SplitOn(record, "\n"), Start)
      case Err(e) => Err(e)
      case Ok(st) => RowOf(st)
  {
    ScanMeetsLinesSpec(SplitOn(record, "\n"));
  }

  lemma ScanMeetsLinesSpec(lines: seq<String>)
    ensures LinesSpec(lines) ==
      match ScanLines(lines, Start)
      case Err(e) => Err(e)
      case Ok(st) => RowOf(st)
  {
    var h := HeaderEnd(lines);
    if HeaderBroken(lines[..h]) {
      ScanBrokenHeader(lines);
    } else if h == |lines| {
      ScanHeaderOnly(lines);
    } else {
      ScanWithTable(lines);
    }
  }

  /** The header after which the table starts, as the scan leaves it. */
  function HeaderState(header: seq<String>): ScanState
  {
    Start.(identifier := HeaderIdentifier(header, None), organism := HeaderOrganism(header, None))
  }

  lemma ScanBrokenHeader(lines: seq<String>)
    requires HeaderBroken(lines[..HeaderEnd(lines)])
    ensures LinesSpec(lines) == Err(IndexError) && ScanLines(lines, Start) == Err(IndexError)
  {
    ScanHeader(lines, Start);
  }

  lemma ScanHeaderOnly(lines: seq<String>)
    requires !HeaderBroken(lines[..HeaderEnd(lines)]) && HeaderEnd(lines) == |lines|
    ensures var st := HeaderState(lines[..HeaderEnd(lines)]);
      ScanLines(lines, Start) == Ok(st) && LinesSpec(lines) == RowOf(st)
  {
    ScanHeader(lines, Start);
  }

  lemma ScanWithTable(lines: seq<String>)
    requires !HeaderBroken(lines[..HeaderEnd(lines)]) && HeaderEnd(lines) < |lines|
    ensures LinesSpec(lines) ==
      match ScanLines(lines, Start)
      case Err(e) => Err(e)
      case Ok(st) => RowOf(st)
  {
    var h := HeaderEnd(lines);
    var st := HeaderState(lines[..h]);
    var rest := lines[h + 1..];
    ScanHeader(lines, Start);
    assert ScanLines(lines, Start) == ScanLines(rest, st.(atFeatures := true));
    assert LinesSpec(lines) ==
      match FeatureTable(rest)
      case Err(e) => Err(e)
      case Ok(fs) => Emit(st.identifier, st.organism, fs);
    ScanTable(rest, st);
  }

  /** The scan of the feature table, from the state the header left. */
  lemma ScanTable(rest: seq<String>, st: ScanState)
    requires st.features == []
    ensures (match ScanLines(rest, st.(atFeatures := true))
      case Err(e) => Err(e)
      case Ok(s) => RowOf(s)) ==
      (match FeatureTable(rest)
      case Err(e) => Err(e)
      case Ok(fs) => Emit(st.identifier, st.organism, fs))
  {
    ScanBlock(rest, st.(atFeatures := true));
    match FeatureTable(rest)
    case Err(e) =>
    case Ok(fs) =>
      assert [] + fs == fs;
  }

  /** `extract_feature_data`: the lines of the record are scanned, then the
      numbered entries are joined by `"//"`. */
  method ExtractFeatureData(record: String) returns (r: Result<Extracted>)
    ensures r == ExtractSpec(record)
  {
    ScanMeetsSpec(record);
    var scanned := ScanRecordLines(SplitOn(record, "\n"));
    match scanned
    case Err(e) => r := Err(e);
    case Ok(st) => r := RowOf(st);
  }

  /** The line loop of `extract_feature_data` (lines 53-67) with its mode
      flag, `break` and `continue`; an exception ends the scan. */
  method ScanRecordLines(lines: seq<String>) returns (r: Result<ScanState>)
    ensures r == ScanLines(lines, Start)
  {
    var identifier: Option<String> := None;
    var organism: Option<String> := None;
    var features: seq<seq<String>> := [];
    var atFeatures := false;
    var i := 0;
    while i < |lines|
      invariant 0 <= i <= |lines|
      invariant ScanLines(lines[i..], ScanState(identifier, organism, atFeatures, features))
        == ScanLines(lines, Start)
    {
      var line := lines[i];
      ghost var st := ScanState(identifier, organism, atFeatures, features);
      assert lines[i..][0] == line && lines[i..][1..] == lines[i + 1..];
      if atFeatures {
        if !StartsWith(line, Five) {
          break;
        }
        if |line| == 5 {
          r := Err(IndexError);
          return;
        }
        ScanFeatureLine(lines[i..], st);
        if line[5] != ' ' {
          features := features + [Tokens(Strip(line))];
        } else {
          assert features + [] == features;
        }
        i := i + 1;
        continue;
      }
      HeaderPrefixes(line);
      if StartsWith(line, "FEATURES") {
        ScanFeaturesLine(lines[i..], st);
      } else {
        ScanHeaderLine(lines[i..], st);
      }
      if StartsWith(line, "LOCUS") {
        var ts := Tokens(line);
        if |ts| < 2 {
          r := Err(IndexError);
          return;
        }
        identifier := Some(ts[1]);
      } else if StartsWith(line, "SOURCE") {
        var ps := SplitOnce(Strip(line));
        if |ps| < 2 {
          r := Err(IndexError);
          return;
        }
        organism := Some(ps[1]);
      } else if StartsWith(line, "FEATURES") {
        atFeatures := true;
      }
      i := i + 1;
    }
    r := Ok(ScanState(identifier, organism, atFeatures, features));
  }

  // ---------------------------------------------------------------------
  // One feature entry

  /** A row of the exploded table: one feature entry with its record's
      identifier and organism. */
  datatype Feature = Feature(
    identifier: Option<String>,
    organism: Option<String>,
    index: int,
    key: String,
    location: String)

  /** `decompose_feature_info` (lines 74-93): split the entry on `", "`;
      `int(info[0])` comes first, so a bad number is a ValueError before a
      missing key or location is an IndexError. Pieces after the third are
      dropped. */
  function DecomposeFeatureInfo(row: Extracted): (r: Result<Feature>)
    ensures r.Ok? ==> r.value.identifier == row.identifier && r.value.organism == row.organism
    ensures r.Err? ==> r.error == ValueError || r.error == IndexError
  {
    var info := SplitOn(row.features, ", ");
    match ParseInt(info[0])
    case Err(e) => Err(e)
    case Ok(i) =>
      if |info| < 3 then Err(IndexError)
      else Ok(Feature(row.identifier, row.organism, i, info[1], info[2]))
  }

  lemma FormatEntryJoin(i: nat, key: String, location: String)
    ensures FormatEntry(i, [key, location]) == Join([NatToString(i), key, location], ", ")
  {
    var parts := [NatToString(i), key, location];
    assert parts[..2] == [NatToString(i), key];
    assert parts[..2][..1] == [NatToString(i)];
    assert Join(parts[..2], ", ") == NatToString(i) + ", " + key;
  }

  /** An entry written by the record scan decomposes back into its number,
      key and location, as long as neither holds `", "`. */
  lemma DecomposeRoundTrip(id: Option<String>, org: Option<String>, i: nat, key: String, location: String)
    requires !Contains(key, ", ") && !Contains(location, ", ")
    ensures DecomposeFeatureInfo(Extracted(id, org, FormatEntry(i, [key, location])))
      == Ok(Feature(id, org, i, key, location))
  {
    SplitEntry(i, key, location);
    ParseNatToString(i);
    DecomposeThree(Extracted(id, org, FormatEntry(i, [key, location])), NatToString(i), i, key, location);
  }

  /** A row whose features split into a number and two more pieces. */
  lemma DecomposeThree(row: Extracted, n: String, i: int, key: String, location: String)
    requires SplitOn(row.features, ", ") == [n, key, location] && ParseInt(n) == Ok(i)
    ensures DecomposeFeatureInfo(row) == Ok(Feature(row.identifier, row.organism, i, key, location))
  {
  }

  /** An entry splits on `", "` into its number, key and location. */
  lemma SplitEntry(i: nat, key: String, location: String)
    requires !Contains(key, ", ") && !Contains(location, ", ")
    ensures SplitOn(FormatEntry(i, [key, location]), ", ") == [NatToString(i), key, location]
  {
    FormatEntryJoin(i, key, location);
    DigitsHaveNoSeparator(NatToString(i), ", ");
    CommaUnbordered();
    SplitThree(NatToString(i), key, location, ", ");
  }

  lemma CommaUnbordered()
    ensures Unbordered(", ")
  {
    var sep: String := ", ";
    forall k | 0 < k < |sep|
      ensures sep[..k] != sep[|sep| - k..]
    {
      assert sep[..k][0] == ',' && sep[|sep| - k..][0] == ' ';
    }
  }

  /** Three pieces free of the separator come back from their join. */
  lemma SplitThree(a: String, b: String, c: String, sep: String)
    requires |sep| > 0 && Unbordered(sep)
    requires !Contains(a, sep) && !Contains(b, sep) && !Contains(c, sep)
    ensures SplitOn(Join([a, b, c], sep), sep) == [a, b, c]
  {
    var parts := [a, b, c];
    forall k | 0 <= k < |parts|
      ensures !Contains(parts[k], sep)
    {
      assert parts[k] == if k == 0 then a else if k == 1 then b else c;
    }
    SplitJoin(parts, sep);
  }

  /** A row with no feature entries decomposes to a ValueError: `int("")`. */
  lemma DecomposeEmpty(id: Option<String>, org: Option<String>)
    ensures DecomposeFeatureInfo(Extracted(id, org, [])) == Err(ValueError)
  {
    assert SplitOn([], ", ") == [[]];
  }

  /** `explode(split(features, "//"))` on one row: a row per piece. */
  function Explode(row: Extracted): (r: seq<Extracted>)
    ensures |r| == |SplitOn(row.features, "//")|
    ensures forall k :: 0 <= k < |r| ==>
      r[k] == Extracted(row.identifier, row.organism, SplitOn(row.features, "//")[k])
  {
    Map((piece: String) => Extracted(row.identifier, row.organism, piece), SplitOn(row.features, "//"))
  }

  predicate NoSlash(w: String)
  {
    forall j :: 0 <= j < |w| ==> w[j] != '/'
  }

  lemma EntryHasNoSlash(i: nat, f: seq<String>)
    requires |f| >= 2 && NoSlash(f[0]) && NoSlash(f[1])
    ensures NoSlash(FormatEntry(i, f))
  {
    var n := NatToString(i);
    var e := FormatEntry(i, f);
    forall j | 0 <= j < |e| ensures e[j] != '/' {
      if j < |n| {
        assert e[j] == n[j];
      } else if j < |n| + 2 {
        assert e[j] == ", "[j - |n|];
      } else if j < |n| + 2 + |f[0]| {
        assert e[j] == f[0][j - |n| - 2];
      } else if j < |n| + 4 + |f[0]| {
        assert e[j] == ", "[j - |n| - 2 - |f[0]|];
      } else {
        assert e[j] == f[1][j - |n| - 4 - |f[0]|];
      }
    }
  }

  /** Exploding the `features` field of a scanned record and decomposing
      each piece gives back every feature's number, key and location, when
      no key or location holds a `/`. */
  lemma ExplodeDecompose(id: Option<String>, org: Option<String>, fs: seq<seq<String>>)
    requires fs != []
    requires forall k :: 0 <= k < |fs| ==> |fs[k]| >= 2
    requires forall k :: 0 <= k < |fs| ==> NoSpace(fs[k][0]) && NoSpace(fs[k][1])
    requires forall k :: 0 <= k < |fs| ==> NoSlash(fs[k][0]) && NoSlash(fs[k][1])
    ensures FormatAll(fs).Ok?
    ensures var rows := Explode(Extracted(id, org, Join(FormatAll(fs).value, "//")));
      |rows| == |fs| &&
      forall k :: 0 <= k < |fs| ==>
        DecomposeFeatureInfo(rows[k]) == Ok(Feature(id, org, k + 1, fs[k][0], fs[k][1]))
  {
    FormatAllNoSlash(fs);
    FormatAllDecomposes(id, org, fs);
    ExplodeJoin(id, org, FormatAll(fs).value);
  }

  /** Every formatted entry is free of `/`. */
  lemma FormatAllNoSlash(fs: seq<seq<String>>)
    requires forall k :: 0 <= k < |fs| ==> |fs[k]| >= 2
    requires forall k :: 0 <= k < |fs| ==> NoSlash(fs[k][0]) && NoSlash(fs[k][1])
    ensures FormatAll(fs).Ok? && |FormatAll(fs).value| == |fs|
    ensures forall k :: 0 <= k < |fs| ==> NoSlash(FormatAll(fs).value[k])
  {
    var entries := FormatAll(fs).value;
    forall k | 0 <= k < |fs| ensures NoSlash(entries[k]) {
      assert entries[k] == FormatEntry(k + 1, fs[k]);
      EntryHasNoSlash(k + 1, fs[k]);
    }
  }

  /** Every formatted entry decomposes back into its feature. */
  lemma FormatAllDecomposes(id: Option<String>, org: Option<String>, fs: seq<seq<String>>)
    requires forall k :: 0 <= k < |fs| ==> |fs[k]| >= 2
    requires forall k :: 0 <= k < |fs| ==> NoSpace(fs[k][0]) && NoSpace(fs[k][1])
    ensures FormatAll(fs).Ok? && |FormatAll(fs).value| == |fs|
    ensures forall k :: 0 <= k < |fs| ==>
      DecomposeFeatureInfo(Extracted(id, org, FormatAll(fs).value[k])) == Ok(Feature(id, org, k + 1, fs[k][0], fs[k][1]))
  {
    DecomposeEach(id, org, fs, FormatAll(fs).value);
  }

  lemma DecomposeEach(id: Option<String>, org: Option<String>, fs: seq<seq<String>>, entries: seq<String>)
    requires |entries| == |fs|
    requires forall k :: 0 <= k < |fs| ==> |fs[k]| >= 2 && entries[k] == FormatEntry(k + 1, fs[k])
    requires forall k :: 0 <= k < |fs| ==> NoSpace(fs[k][0]) && NoSpace(fs[k][1])
    ensures forall k :: 0 <= k < |fs| ==>
      DecomposeFeatureInfo(Extracted(id, org, entries[k])) == Ok(Feature(id, org, k + 1, fs[k][0], fs[k][1]))
  {
    forall k | 0 <= k < |fs|
      ensures DecomposeFeatureInfo(Extracted(id, org, entries[k])) == Ok(Feature(id, org, k + 1, fs[k][0], fs[k][1]))
    {
      DecomposeEntry(id, org, k + 1, fs[k]);
    }
  }

  /** Entries free of `/`, joined by `"//"` and exploded, come back one row
      per entry. */
  lemma ExplodeJoin(id: Option<String>, org: Option<String>, entries: seq<String>)
    requires entries != [] && forall k :: 0 <= k < |entries| ==> NoSlash(entries[k])
    ensures var rows := Explode(Extracted(id, org, Join(entries, "//")));
      |rows| == |entries| && forall k :: 0 <= k < |rows| ==> rows[k] == Extracted(id, org, entries[k])
  {
    SplitJoinFree(entries, "//");
  }

  /** One formatted entry decomposes back into its feature. */
  lemma DecomposeEntry(id: Option<String>, org: Option<String>, i: nat, f: seq<String>)
    requires |f| >= 2 && NoSpace(f[0]) && NoSpace(f[1])
    ensures DecomposeFeatureInfo(Extracted(id, org, FormatEntry(i, f))) == Ok(Feature(id, org, i, f[0], f[1]))
  {
    NoSpaceNoComma(f[0]);
    NoSpaceNoComma(f[1]);
    assert FormatEntry(i, f) == FormatEntry(i, [f[0], f[1]]);
    DecomposeRoundTrip(id, org, i, f[0], f[1]);
  }

  // ---------------------------------------------------------------------
  // Feature locations

  /** A feature with its location split into coordinates and strand. */
  datatype Located = Located(
    identifier: Option<String>,
    organism: Option<String>,
    index: int,
    key: String,
    start: int,
    stop: int,
    complement: bool)

  /** Python's `location[11:-1]`: empty unless more than twelve characters. */
  function Inner(location: String): String
  {
    if |location| > 12 then location[11..|location| - 1] else []
  }

  /** `parse_feature_location` (lines 95-120): a location starting with
      `complement` is on the reverse strand and loses its first eleven and
      its last character; what is left must split on `..` into exactly two
      integers. */
  function ParseFeatureLocation(f: Feature): (r: Result<Located>)
    ensures r.Err? ==> r.error == ValueError
    ensures r.Ok? ==> r.value.complement == StartsWith(f.location, "complement")
    ensures r.Ok? ==> r.value.identifier == f.identifier && r.value.organism == f.organism
    ensures r.Ok? ==> r.value.index == f.index && r.value.key == f.key
  {
    var complement := StartsWith(f.location, "complement");
    var location := if complement then Inner(f.location) else f.location;
    var parts := SplitOn(location, "..");
    if |parts| != 2 then Err(ValueError)
    else
      match ParseInt(parts[0])
      case Err(e) => Err(e)
      case Ok(start) =>
        match ParseInt(parts[1])
        case Err(e) => Err(e)
        case Ok(stop) => Ok(Located(f.identifier, f.organism, f.index, f.key, start, stop, complement))
  }

  const Complement: String := "complement("

  /** The strings the pattern of line 141 describes: an optional
      `complement(`, digits, `..`, digits, an optional `)`. */
  function Shape(open: bool, d1: String, d2: String, close: bool): String
  {
    (if open then Complement else []) + d1 + ".." + d2 + (if close then ")" else [])
  }

  predicate EndsWithParen(s: String)
  {
    s != [] && s[|s| - 1] == ')'
  }

  /** The location without the optional `complement(` and the optional `)`. */
  function Unwrapped(location: String): String
  {
    var a := AfterOpen(location);
    if EndsWithParen(a) then a[..|a| - 1] else a
  }

  /** The location without the optional `complement(`. */
  function AfterOpen(location: String): String
  {
    if StartsWith(location, Complement) then location[11..] else location
  }

  predicate DigitsPair(b: String)
  {
    var parts := SplitOn(b, "..");
    |parts| == 2 && AllDigits(parts[0]) && AllDigits(parts[1])
  }

  /** `^(?:complement\()?\d+\.{2}\d+\)?$` (line 141). Neither optional part
      can be matched by a digit, so each is present exactly when the
      location starts with `complement(` or ends with `)`. */
  predicate MatchesLocationPattern(location: String)
  {
    DigitsPair(Unwrapped(location))
  }

  lemma DigitsNoChar(ds: String, c: char)
    requires AllDigits(ds) && !IsDigit(c)
    ensures forall j :: 0 <= j < |ds| ==> ds[j] != c
  {
  }

  /** Two digit strings joined by `..` split back into the two. */
  lemma SplitDigits(d1: String, d2: String)
    requires AllDigits(d1) && AllDigits(d2)
    ensures SplitOn(d1 + ".." + d2, "..") == [d1, d2]
  {
    DigitsNoChar(d1, '.');
    DigitsNoChar(d2, '.');
    SplitDotted(d1, d2);
  }

  /** A pair that splits into two pieces is the two pieces joined by `..`. */
  lemma SplitTwo(b: String)
    requires |SplitOn(b, "..")| == 2
    ensures b == SplitOn(b, "..")[0] + ".." + SplitOn(b, "..")[1]
  {
    var k := FindFrom(b, "..", 0).value;
    assert b[k + 2..] == SplitOn(b, "..")[1];
    assert b == b[..k] + b[k..k + 2] + b[k + 2..];
  }

  lemma ShapeParts(open: bool, d1: String, d2: String, close: bool)
    requires AllDigits(d1) && AllDigits(d2)
    ensures StartsWith(Shape(open, d1, d2, close), Complement) == open
    ensures StartsWith(Shape(open, d1, d2, close), "complement") == open
    ensures EndsWithParen(Shape(open, d1, d2, close)) == close
    ensures Unwrapped(Shape(open, d1, d2, close)) == d1 + ".." + d2
  {
    ShapeStart(open, d1, d2, close);
    ShapeEnd(open, d1, d2, close);
  }

  /** The shape starts with the wrapper exactly when `open`; without it the
      core and the optional `)` are left. */
  lemma ShapeStart(open: bool, d1: String, d2: String, close: bool)
    requires AllDigits(d1) && AllDigits(d2)
    ensures StartsWith(Shape(open, d1, d2, close), Complement) == open
    ensures StartsWith(Shape(open, d1, d2, close), "complement") == open
    ensures AfterOpen(Shape(open, d1, d2, close)) == d1 + ".." + d2 + (if close then ")" else [])
  {
    var t := d1 + ".." + d2 + (if close then ")" else []);
    var s := Shape(open, d1, d2, close);
    if open {
      assert s == Complement + t;
      assert s[..11] == Complement;
      assert s[..10] == "complement";
      assert s[11..] == t;
    } else {
      assert s == t;
      assert s[0] == d1[0];
      if StartsWith(s, Complement) { FirstChar(s, Complement); }
      if StartsWith(s, "complement") { FirstChar(s, "complement"); }
    }
  }

  /** The shape ends with `)` exactly when `close`. */
  lemma ShapeEnd(open: bool, d1: String, d2: String, close: bool)
    requires AllDigits(d1) && AllDigits(d2)
    ensures EndsWithParen(Shape(open, d1, d2, close)) == close
    ensures Unwrapped(Shape(open, d1, d2, close)) == d1 + ".." + d2
  {
    var core := d1 + ".." + d2;
    var t := core + (if close then ")" else []);
    ShapeStart(open, d1, d2, close);
    assert Shape(open, d1, d2, close) == (if open then Complement else []) + t;
    EndsLike(if open then Complement else [], t);
    assert core[|core| - |d2|..] == d2;
    TailParen(core, d2, close);
  }

  lemma EndsLike(pre: String, t: String)
    requires t != []
    ensures EndsWithParen(pre + t) == EndsWithParen(t)
  {
    assert (pre + t)[|pre + t| - 1] == t[|t| - 1];
  }

  lemma TailParen(core: String, d2: String, close: bool)
    requires AllDigits(d2) && |core| >= |d2| && core[|core| - |d2|..] == d2
    ensures var t := core + (if close then ")" else []);
      EndsWithParen(t) == close && (if EndsWithParen(t) then t[..|t| - 1] else t) == core
  {
    var t := core + (if close then ")" else []);
    assert core[|core| - 1] == d2[|d2| - 1];
    if close {
      assert t[..|t| - 1] == core;
    } else {
      assert t == core;
    }
  }

  /** Every string of the described shape matches. */
  lemma PatternComplete(open: bool, d1: String, d2: String, close: bool)
    requires AllDigits(d1) && AllDigits(d2)
    ensures MatchesLocationPattern(Shape(open, d1, d2, close))
  {
    ShapeParts(open, d1, d2, close);
    SplitDigits(d1, d2);
  }

  lemma PrependAssoc<T>(h: seq<T>, x: seq<T>, y: seq<T>, z: seq<T>)
    ensures h + (x + y + z) == h + x + y + z
  {
  }

  /** Every match is a string of the described shape. */
  lemma PatternSound(location: String)
    requires MatchesLocationPattern(location)
    ensures var parts := SplitOn(Unwrapped(location), "..");
      AllDigits(parts[0]) && AllDigits(parts[1]) &&
      location == Shape(StartsWith(location, Complement), parts[0], parts[1], EndsWithParen(AfterOpen(location)))
  {
    var a := AfterOpen(location);
    var b := Unwrapped(location);
    var parts := SplitOn(b, "..");
    SplitTwo(b);
    UnwrapTail(location);
    OpenHead(location);
    Reassemble(location, a, b, parts[0], parts[1], StartsWith(location, Complement), EndsWithParen(a));
  }

  /** Putting the wrapper back around the two pieces gives the shape. */
  lemma Reassemble(location: String, a: String, b: String, d1: String, d2: String, open: bool, close: bool)
    requires location == (if open then Complement else []) + a
    requires a == b + (if close then ")" else [])
    requires b == d1 + ".." + d2
    ensures location == Shape(open, d1, d2, close)
  {
    var head: String := if open then Complement else [];
    var tail: String := if close then ")" else [];
    assert location == (head + b) + tail;
    PrependAssoc(head, d1, "..", d2);
  }

  /** Taking off the closing parenthesis and putting it back. */
  lemma UnwrapTail(location: String)
    ensures var a := AfterOpen(location);
      a == Unwrapped(location) + (if EndsWithParen(a) then ")" else [])
  {
    var a := AfterOpen(location);
    if EndsWithParen(a) {
      assert a == a[..|a| - 1] + [a[|a| - 1]];
    }
  }

  /** Taking off `complement(` and putting it back. */
  lemma OpenHead(location: String)
    ensures location == (if StartsWith(location, Complement) then Complement else []) + AfterOpen(location)
  {
    if StartsWith(location, Complement) {
      assert location == location[..11] + location[11..];
    }
  }

  /** What the parser makes of the two digit strings once the wrapper is off. */
  lemma ParseDigitPair(f: Feature, location: String, d1: String, d2: String, complement: bool)
    requires AllDigits(d1) && AllDigits(d2)
    requires StartsWith(f.location, "complement") == complement
    requires (if complement then Inner(f.location) else f.location) == location
    requires location == d1 + ".." + d2
    ensures ParseFeatureLocation(f)
      == Ok(Located(f.identifier, f.organism, f.index, f.key, DigitsValue(d1), DigitsValue(d2), complement))
  {
    SplitDigits(d1, d2);
    ParseDigits(d1);
    ParseDigits(d2);
  }

  /** A location with both wrapper parts or neither parses to the numbers
      its two digit strings denote. */
  lemma ParseBalanced(f: Feature, open: bool, d1: String, d2: String)
    requires AllDigits(d1) && AllDigits(d2)
    requires f.location == Shape(open, d1, d2, open)
    ensures ParseFeatureLocation(f)
      == Ok(Located(f.identifier, f.organism, f.index, f.key, DigitsValue(d1), DigitsValue(d2), open))
  {
    ShapeParts(open, d1, d2, open);
    var core := d1 + ".." + d2;
    if open {
      assert f.location == Complement + core + ")";
      assert Inner(f.location) == core;
    } else {
      assert f.location == core;
    }
    ParseDigitPair(f, core, d1, d2, open);
  }

  /** With `complement(` but no `)`, the slice `[11:-1]` cuts the last digit
      of the stop instead of the parenthesis. */
  lemma ParseOpenOnly(f: Feature, d1: String, d2: String)
    requires AllDigits(d1) && AllDigits(d2) && |d2| >= 2
    requires f.location == Shape(true, d1, d2, false)
    ensures MatchesLocationPattern(f.location)
    ensures ParseFeatureLocation(f)
      == Ok(Located(f.identifier, f.organism, f.index, f.key, DigitsValue(d1), DigitsValue(d2[..|d2| - 1]), true))
  {
    PatternComplete(true, d1, d2, false);
    ShapeStart(true, d1, d2, false);
    var d := d2[..|d2| - 1];
    InnerOfOpen(d1, d2);
    assert AllDigits(d);
    ParseDigitPair(f, d1 + ".." + d, d1, d, true);
  }

  /** `[11:-1]` of an opened, unclosed shape drops the wrapper and the last digit. */
  lemma InnerOfOpen(d1: String, d2: String)
    requires |d1| >= 1 && |d2| >= 1
    ensures Inner(Shape(true, d1, d2, false)) == d1 + ".." + d2[..|d2| - 1]
  {
    var s := Shape(true, d1, d2, false);
    var mid := d1 + ".." + d2[..|d2| - 1];
    assert |s| == 11 + |mid| + 1;
    forall i | 0 <= i < |mid| ensures s[11 + i] == mid[i] {
      if i < |d1| {
        assert s[11 + i] == d1[i];
      } else if i < |d1| + 2 {
        assert s[11 + i] == '.';
      } else {
        assert s[11 + i] == d2[i - |d1| - 2];
      }
    }
    assert s[11..|s| - 1] == mid;
  }

  /** With `)` but no `complement(`, the stop keeps the parenthesis and is
      not a number. */
  lemma ParseCloseOnly(f: Feature, d1: String, d2: String)
    requires AllDigits(d1) && AllDigits(d2)
    requires f.location == Shape(false, d1, d2, true)
    ensures MatchesLocationPattern(f.location)
    ensures ParseFeatureLocation(f) == Err(ValueError)
  {
    PatternComplete(false, d1, d2, true);
    ShapeParts(false, d1, d2, true);
    var d := d2 + ")";
    assert f.location == d1 + ".." + d;
    DigitsNoChar(d1, '.');
    DigitsNoChar(d2, '.');
    assert forall j :: 0 <= j < |d| ==> d[j] != '.';
    SplitDotted(d1, d);
    ParseWithParen(d2);
    ParseDigits(d1);
  }

  /** Two pieces without a dot, joined by `".."`, split back apart. */
  lemma SplitDotted(a: String, b: String)
    requires forall j :: 0 <= j < |a| ==> a[j] != '.'
    requires forall j :: 0 <= j < |b| ==> b[j] != '.'
    ensures SplitOn(a + ".." + b, "..") == [a, b]
  {
    assert Join([a, b], "..") == a + ".." + b by {
      assert [a, b][..1] == [a];
    }
    SplitJoinFree([a, b], "..");
  }

  lemma ParseWithParen(ds: String)
    requires AllDigits(ds)
    ensures ParseInt(ds + ")") == Err(ValueError)
  {
    var d := ds + ")";
    assert d[0] == ds[0] && d[|d| - 1] == ')';
    StripTrimmed(d);
    assert !AllDigits(d);
  }

  /** `complement(12..34` passes the pattern and parses to 12..3. */
  lemma UnclosedComplement(f: Feature)
    requires f.location == "complement(12..34"
    ensures MatchesLocationPattern(f.location)
    ensures ParseFeatureLocation(f) == Ok(Located(f.identifier, f.organism, f.index, f.key, 12, 3, true))
  {
    UnclosedShape();
    ParseOpenOnly(f, "12", "34");
    ExampleDigits();
  }

  lemma UnclosedShape()
    ensures "complement(12..34" == Shape(true, "12", "34", false)
    ensures AllDigits("12") && AllDigits("34")
  {
  }

  lemma ExampleDigits()
    ensures "34"[..|"34"| - 1] == "3"
    ensures DigitsValue("3") == 3 && DigitsValue("12") == 12
  {
    assert "3"[..0] == "";
    assert "12"[..1] == "1";
    assert "1"[..0] == "";
  }

  /** `12..34)` passes the pattern and makes the parser raise. */
  lemma UnopenedLocation(f: Feature)
    requires f.location == "12..34)"
    ensures MatchesLocationPattern(f.location)
    ensures ParseFeatureLocation(f) == Err(ValueError)
  {
    assert f.location == Shape(false, "12", "34", true);
    ParseCloseOnly(f, "12", "34");
  }

  /** The pattern with its two optional parts tied together:
      `^(?:complement\(\d+\.{2}\d+\)|\d+\.{2}\d+)$`. */
  predicate MatchesBalancedPattern(location: String)
  {
    MatchesLocationPattern(location) && StartsWith(location, Complement) == EndsWithParen(AfterOpen(location))
  }

  /** Every location the balanced pattern accepts parses, to the numbers on
      either side of `..` and the strand its wrapper gives. */
  lemma BalancedParses(f: Feature)
    requires MatchesBalancedPattern(f.location)
    ensures var parts := SplitOn(Unwrapped(f.location), "..");
      ParseFeatureLocation(f) == Ok(Located(f.identifier, f.organism, f.index, f.key,
        DigitsValue(parts[0]), DigitsValue(parts[1]), StartsWith(f.location, Complement)))
  {
    PatternSound(f.location);
    var parts := SplitOn(Unwrapped(f.location), "..");
    ParseBalanced(f, StartsWith(f.location, Complement), parts[0], parts[1]);
  }

  /** The balanced pattern accepts exactly the balanced shapes. */
  lemma BalancedShapes(open: bool, d1: String, d2: String, close: bool)
    requires AllDigits(d1) && AllDigits(d2)
    ensures MatchesBalancedPattern(Shape(open, d1, d2, close)) <==> open == close
  {
    PatternComplete(open, d1, d2, close);
    ShapeParts(open, d1, d2, close);
    var s := Shape(open, d1, d2, close);
    if open {
      assert AfterOpen(s) == d1 + ".." + d2 + (if close then ")" else []);
    } else {
      assert AfterOpen(s) == s;
    }
  }

  // ---------------------------------------------------------------------
  // Selecting features and excluding coding genes

  /** The feature keys the analysis keeps (lines 20-22). */
  const DesiredKeys: seq<String> := ["CDS", "ncRNA", "rRNA", "gene"]

  /** The elements of `s` that satisfy `p`, in order. */
  function Filter<T>(p: T -> bool, s: seq<T>): (r: seq<T>)
    ensures |r| <= |s|
  {
    if s == [] then [] else (if p(s[0]) then [s[0]] else []) + Filter(p, s[1..])
  }

  /** A filter keeps exactly the elements that satisfy its condition. */
  lemma {:induction false} FilterMembers<T>(p: T -> bool, s: seq<T>)
    ensures forall x :: x in Filter(p, s) <==> x in s && p(x)
    decreases |s|
  {
    if s != [] {
      FilterMembers(p, s[1..]);
      var head: seq<T> := if p(s[0]) then [s[0]] else [];
      assert Filter(p, s) == head + Filter(p, s[1..]);
      assert s == [s[0]] + s[1..];
    }
  }

  lemma {:induction false} FilterAppend<T>(p: T -> bool, a: seq<T>, b: seq<T>)
    ensures Filter(p, a + b) == Filter(p, a) + Filter(p, b)
    decreases |a|
  {
    if a == [] {
      assert a + b == b;
    } else {
      var c := a + b;
      var head: seq<T> := if p(a[0]) then [a[0]] else [];
      assert c[0] == a[0] && c[1..] == a[1..] + b;
      FilterAppend(p, a[1..], b);
      assert Filter(p, c) == head + Filter(p, a[1..] + b);
      assert Filter(p, a) == head + Filter(p, a[1..]);
    }
  }

  lemma {:induction false} FilterKeepsAll<T>(p: T -> bool, s: seq<T>)
    requires forall x :: x in s ==> p(x)
    ensures Filter(p, s) == s
    decreases |s|
  {
    if s != [] {
      FilterKeepsAll(p, s[1..]);
    }
  }

  lemma {:induction false} FilterDropsAll<T>(p: T -> bool, s: seq<T>)
    requires forall x :: x in s ==> !p(x)
    ensures Filter(p, s) == []
    decreases |s|
  {
    if s != [] {
      FilterDropsAll(p, s[1..]);
    }
  }

  /** Three filters whose predicates split every element exactly one way
      share the elements out between them. */
  lemma {:induction false} FilterThreeWay<T>(a: T -> bool, b: T -> bool, c: T -> bool, s: seq<T>)
    requires forall x :: a(x) || b(x) || c(x)
    requires forall x :: !(a(x) && b(x)) && !(a(x) && c(x)) && !(b(x) && c(x))
    ensures multiset(Filter(a, s)) + multiset(Filter(b, s)) + multiset(Filter(c, s)) == multiset(s)
    decreases |s|
  {
    if s != [] {
      var x, t := s[0], s[1..];
      FilterThreeWay(a, b, c, t);
      FilterBagCons(a, s);
      FilterBagCons(b, s);
      FilterBagCons(c, s);
      BagStep(x, a(x), b(x), c(x), multiset(Filter(a, s)), multiset(Filter(b, s)), multiset(Filter(c, s)),
        multiset(Filter(a, t)), multiset(Filter(b, t)), multiset(Filter(c, t)), multiset(t));
      assert s == [x] + t;
    }
  }

  /** One element that exactly one of three bags takes, on top of bags that
      already share out `rest`. */
  lemma BagStep<T>(x: T, pa: bool, pb: bool, pc: bool, fa: multiset<T>, fb: multiset<T>, fc: multiset<T>,
                   ra: multiset<T>, rb: multiset<T>, rc: multiset<T>, rest: multiset<T>)
    requires (pa || pb || pc) && !(pa && pb) && !(pa && pc) && !(pb && pc)
    requires ra + rb + rc == rest
    requires fa == (if pa then multiset{x} else multiset{}) + ra
    requires fb == (if pb then multiset{x} else multiset{}) + rb
    requires fc == (if pc then multiset{x} else multiset{}) + rc
    ensures fa + fb + fc == multiset{x} + rest
  {
  }

  lemma FilterBagCons<T>(p: T -> bool, s: seq<T>)
    requires s != []
    ensures multiset(Filter(p, s)) ==
      (if p(s[0]) then multiset{s[0]} else multiset{}) + multiset(Filter(p, s[1..]))
  {
    var head: seq<T> := if p(s[0]) then [s[0]] else [];
    assert Filter(p, s) == head + Filter(p, s[1..]);
  }

  /** The filter of lines 139-142: a wanted key and a location matching the
      pattern. */
  predicate Selected(f: Feature)
  {
    f.key in DesiredKeys && MatchesLocationPattern(f.location)
  }

  /** `f` over every element; the first element it fails on aborts. */
  function MapAll<A, B>(f: A -> Result<B>, s: seq<A>): (r: Result<seq<B>>)
    ensures r.Ok? <==> forall k :: 0 <= k < |s| ==> f(s[k]).Ok?
    ensures r.Err? ==> exists k :: 0 <= k < |s| && f(s[k]) == Err(r.error)
    ensures r.Ok? ==> |r.value| == |s|
    ensures r.Ok? ==> forall k :: 0 <= k < |s| ==> r.value[k] == f(s[k]).value
  {
    if s == [] then Ok([])
    else
      match MapAll(f, s[..|s| - 1])
      case Err(e) => Err(e)
      case Ok(prefix) =>
        match f(s[|s| - 1])
        case Err(e) => Err(e)
        case Ok(x) => Ok(prefix + [x])
  }

  /** `map(parse_feature_location)` over a table; a row that raises aborts
      the whole job with its ValueError. */
  function ParseAll(fs: seq<Feature>): (r: Result<seq<Located>>)
    ensures r.Ok? <==> forall k :: 0 <= k < |fs| ==> ParseFeatureLocation(fs[k]).Ok?
    ensures r.Err? ==> r.error == ValueError
    ensures r.Ok? ==> |r.value| == |fs|
    ensures r.Ok? ==> forall k :: 0 <= k < |fs| ==> r.value[k] == ParseFeatureLocation(fs[k]).value
  {
    MapAll(ParseFeatureLocation, fs)
  }

  /** Lines 139-143: filter the decomposed features, then parse their
      locations. */
  function SelectFeatures(fs: seq<Feature>): Result<seq<Located>>
  {
    ParseAll(Filter(Selected, fs))
  }

  /** The filter with the balanced pattern. */
  predicate SelectedBalanced(f: Feature)
  {
    f.key in DesiredKeys && MatchesBalancedPattern(f.location)
  }

  function SelectBalanced(fs: seq<Feature>): Result<seq<Located>>
  {
    ParseAll(Filter(SelectedBalanced, fs))
  }

  /** With the balanced pattern no selected feature makes the parser raise,
      and each parsed feature carries its location's two numbers. */
  lemma SelectBalancedParses(fs: seq<Feature>)
    ensures SelectBalanced(fs).Ok?
    ensures var kept := Filter(SelectedBalanced, fs);
      ParseAll(kept).Ok? && forall k :: 0 <= k < |kept| ==> ParsedAs(kept[k], ParseAll(kept).value[k])
  {
    var kept := Filter(SelectedBalanced, fs);
    FilterMembers(SelectedBalanced, fs);
    forall k | 0 <= k < |kept| ensures SelectedBalanced(kept[k]) {
      assert kept[k] in kept;
    }
    KeptParse(kept);
  }

  /** `g` is the row `f` parses to: same key, the location's two numbers and
      its strand. */
  predicate ParsedAs(f: Feature, g: Located)
  {
    MatchesBalancedPattern(f.location) &&
    var parts := SplitOn(Unwrapped(f.location), "..");
    g.identifier == f.identifier && g.organism == f.organism && g.index == f.index &&
    g.key == f.key && g.key in DesiredKeys &&
    g.start == DigitsValue(parts[0]) && g.stop == DigitsValue(parts[1]) &&
    g.complement == StartsWith(f.location, Complement)
  }

  lemma KeptParse(kept: seq<Feature>)
    requires forall k :: 0 <= k < |kept| ==> SelectedBalanced(kept[k])
    ensures ParseAll(kept).Ok?
    ensures forall k :: 0 <= k < |kept| ==> ParsedAs(kept[k], ParseAll(kept).value[k])
  {
    forall k | 0 <= k < |kept| ensures ParseFeatureLocation(kept[k]).Ok? &&
      ParsedAs(kept[k], ParseFeatureLocation(kept[k]).value)
    {
      BalancedParses(kept[k]);
    }
  }

  /** One feature with location `12..34)` passes the filter of line 141 and
      aborts the parse; the balanced filter drops it. */
  lemma UnopenedAbortsSelection(f: Feature)
    requires f == Feature(None, None, 1, "gene", "12..34)")
    ensures SelectFeatures([f]) == Err(ValueError)
  {
    UnopenedLocation(f);
    assert f.key in DesiredKeys by { assert DesiredKeys[3] == "gene"; }
    FilterOne(Selected, f);
  }

  /** The balanced filter drops that feature. */
  lemma UnopenedDroppedWhenBalanced(f: Feature)
    requires f == Feature(None, None, 1, "gene", "12..34)")
    ensures SelectBalanced([f]) == Ok([])
  {
    assert f.location == Shape(false, "12", "34", true);
    BalancedShapes(false, "12", "34", true);
    FilterOne(SelectedBalanced, f);
  }

  lemma FilterOne<T>(p: T -> bool, x: T)
    ensures Filter(p, [x]) == if p(x) then [x] else []
  {
    assert [x][1..] == [];
  }

  predicate IsGene(f: Located)
  {
    f.key == "gene"
  }

  predicate NotGene(f: Located)
  {
    !IsGene(f)
  }

  /** The join condition of lines 160-165 with a CDS on the right: same
      identifier, same strand, and the CDS's span inside the gene's. A
      missing identifier matches nothing, as SQL's null does. */
  predicate Covers(cds: Located, gene: Located)
  {
    cds.key == "CDS" && gene.identifier.Some? && cds.identifier == gene.identifier
    && gene.start <= cds.start && cds.stop <= gene.stop && gene.complement == cds.complement
  }

  /** Some CDS of the table lies within `gene`. */
  predicate Coding(gene: Located, fs: seq<Located>)
  {
    exists c :: c in fs && Covers(c, gene)
  }

  function UncoveredGene(fs: seq<Located>): Located -> bool
  {
    (g: Located) => IsGene(g) && !Coding(g, fs)
  }

  function CoveredGene(fs: seq<Located>): Located -> bool
  {
    (g: Located) => IsGene(g) && Coding(g, fs)
  }

  /** `exclude_coding_genes` (lines 147-167): every feature that is not a
      gene, then the genes no CDS lies within (the left anti join). */
  function ExcludeCodingGenes(fs: seq<Located>): (r: seq<Located>)
    ensures forall x :: x in r <==> x in fs && (NotGene(x) || !Coding(x, fs))
  {
    FilterMembers(NotGene, fs);
    FilterMembers(UncoveredGene(fs), fs);
    Filter(NotGene, fs) + Filter(UncoveredGene(fs), fs)
  }

  /** Nothing is duplicated or invented: the result and the dropped genes
      together are the table. */
  lemma ExcludeCount(fs: seq<Located>)
    ensures multiset(ExcludeCodingGenes(fs)) + multiset(Filter(CoveredGene(fs), fs)) == multiset(fs)
  {
    FilterThreeWay(NotGene, UncoveredGene(fs), CoveredGene(fs), fs);
  }

  /** The features that are not genes come through unchanged and in order. */
  lemma ExcludeKeepsNonGenes(fs: seq<Located>)
    ensures Filter(NotGene, ExcludeCodingGenes(fs)) == Filter(NotGene, fs)
  {
    var n := Filter(NotGene, fs);
    var u := Filter(UncoveredGene(fs), fs);
    FilterAppend(NotGene, n, u);
    FilterMembers(NotGene, fs);
    FilterMembers(UncoveredGene(fs), fs);
    FilterKeepsAll(NotGene, n);
    FilterDropsAll(NotGene, u);
    assert n + [] == n;
  }

  /** Excluding twice is excluding once: the CDS rows all survive the first
      pass, so a gene kept by it is still uncovered. */
  lemma ExcludeIdempotent(fs: seq<Located>)
    ensures ExcludeCodingGenes(ExcludeCodingGenes(fs)) == ExcludeCodingGenes(fs)
  {
    var n := Filter(NotGene, fs);
    var u := Filter(UncoveredGene(fs), fs);
    var r := n + u;
    ExcludeKeepsNonGenes(fs);
    FilterMembers(NotGene, fs);
    FilterMembers(UncoveredGene(fs), fs);
    FilterAppend(UncoveredGene(r), n, u);
    FilterDropsAll(UncoveredGene(r), n);
    forall x | x in u ensures UncoveredGene(r)(x) {
    }
    FilterKeepsAll(UncoveredGene(r), u);
    assert [] + u == u;
  }
}
