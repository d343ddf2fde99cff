/** The text formats of the BRITE-Constellation files that carry a time
    series, and the metadata reader that keeps, per file URI, the header
    values and the series read from the file.

    Python's `float()` is a parameter `toFloat`: `None` stands for the
    `ValueError` it raises. A file is the sequence of its lines exactly as
    Python iterates over them. */
module Reader {
  import opened Wrappers
  import opened Strings
  import Seqs
  import StorageName

  /** A `defaultdict(list)` of named series. */
  type Series = map<string, seq<real>>

  /** The series of `key`, empty when the key was never touched. */
  function Get(s: Series, key: string): seq<real> {
    if key in s then s[key] else []
  }

  /** `data[key].append(v)` on a `defaultdict(list)`. */
  function Append(s: Series, key: string, v: real): (r: Series)
    ensures forall k :: k in r <==> k in s || k == key
    ensures Get(r, key) == Get(s, key) + [v]
    ensures forall k :: k != key ==> Get(r, k) == Get(s, k)
  {
    s[key := Get(s, key) + [v]]
  }

  /** What the reader keeps per file URI: the header values and the series. */
  datatype ReaderState = ReaderState(metadata: map<string, map<string, string>>, timeSeries: map<string, Series>)

  /** The exceptions the parsers raise, each with what it is about. */
  datatype ReadError =
    | MissingToken(line: string)     // IndexError: a data line with too few values
    | NotANumber(token: string)      // ValueError from float()
    | WrongDefaultAxis(uri: string)  // no header names the expected time axis
    | MissingEquals(line: string)    // IndexError: a header line without '='
    | MissingSlash(line: string)     // ValueError: a header value without '/'
    | UnknownColumn(key: string)     // KeyError: no header declares this column

  function Number(token: string, toFloat: string -> Option<real>): Result<real, ReadError> {
    match toFloat(token)
    case None => Err(NotANumber(token))
    case Some(v) => Ok(v)
  }

  predicate IsComment(line: string) {
    |line| > 0 && line[0] == '#'
  }

  predicate IsDataLine(line: string) {
    |line| > 0 && line[0] != '#'
  }

  /** The lines that hold values; empty lines and comments hold none. */
  function DataLines(lines: seq<string>): seq<string> {
    Seqs.Filter(lines, IsDataLine)
  }

  // ---------------------------------------------------------------------
  // The decorrelated (`.ndatdb`) and averaged (`.avedb`) formats.

  /** The names of the time, magnitude and magnitude-error series. */
  type BjdKeys = (string, string, string)

  const DecorrelatedKeys: BjdKeys := ("BJD", "BRITEMAG", "SIGMA_BRITEMAG")
  const AveragedKeys: BjdKeys := ("ave_BJD", "ave_BRITEMAG", "ave_SIGMA_BRITEMAG")

  predicate DistinctKeys(keys: BjdKeys) {
    keys.0 != keys.1 && keys.1 != keys.2 && keys.0 != keys.2
  }

  lemma KeysAreDistinct()
    ensures DistinctKeys(DecorrelatedKeys) && DistinctKeys(AveragedKeys)
  {
  }

  /** The header text that shows the time axis has the expected origin. */
  const DefaultAxis: string := "2456000.0"

  predicate MarksDefaultAxis(line: string) {
    IsComment(line) && Contains(line, DefaultAxis)
  }

  predicate HasDefaultAxis(lines: seq<string>) {
    exists k :: 0 <= k < |lines| && MarksDefaultAxis(lines[k])
  }

  /** A data line that yields a point: at least four values, and the
      first, second and fourth are numbers. */
  predicate WellFormed(line: string, toFloat: string -> Option<real>) {
    var t := Tokens(line);
    |t| >= 4 && toFloat(t[0]).Some? && toFloat(t[1]).Some? && toFloat(t[3]).Some?
  }

  /** The number in column `idx` (0, 1 or 3) of a well-formed data line. */
  function Field(line: string, idx: nat, toFloat: string -> Option<real>): real
    requires WellFormed(line, toFloat) && (idx == 0 || idx == 1 || idx == 3)
  {
    toFloat(Tokens(line)[idx]).value
  }

  /** One data line: the time, the magnitude and its error, converted in
      that order; the first missing or unreadable value is the error. */
  function BjdPoint(line: string, toFloat: string -> Option<real>): Result<(real, real, real), ReadError> {
    var t := Tokens(line);
    if |t| == 0 then Err(MissingToken(line))
    else
      var time :- Number(t[0], toFloat);
      if |t| < 2 then Err(MissingToken(line))
      else
        var mag :- Number(t[1], toFloat);
        if |t| < 4 then Err(MissingToken(line))
        else
          var err :- Number(t[3], toFloat);
          Ok((time, mag, err))
  }

  /** A data line yields a point exactly when it is well formed, and the
      point is its first, second and fourth value. */
  lemma BjdPointOk(line: string, toFloat: string -> Option<real>)
    ensures BjdPoint(line, toFloat).Ok? <==> WellFormed(line, toFloat)
    ensures BjdPoint(line, toFloat).Ok? ==>
      BjdPoint(line, toFloat).value == (Field(line, 0, toFloat), Field(line, 1, toFloat), Field(line, 3, toFloat))
  {
  }

  /** What the loop of `_read_bjd_file` carries from line to line. */
  datatype BjdScan = BjdScan(defaultFound: bool, series: Series)

  /** One iteration of the loop of `_read_bjd_file`. */
  function BjdStep(acc: BjdScan, line: string, keys: BjdKeys, toFloat: string -> Option<real>): Result<BjdScan, ReadError> {
    if |line| == 0 then Ok(acc)
    else if line[0] == '#' then
      Ok(acc.(defaultFound := acc.defaultFound || Find(line, DefaultAxis).Some?))
    else
      var p :- BjdPoint(line, toFloat);
      Ok(acc.(series := Append(Append(Append(acc.series, keys.0, p.0), keys.1, p.1), keys.2, p.2)))
  }

  /** The loop of `_read_bjd_file`: the first failing line ends it. */
  function ScanBjd(acc: BjdScan, lines: seq<string>, keys: BjdKeys, toFloat: string -> Option<real>): Result<BjdScan, ReadError>
    decreases |lines|
  {
    if |lines| == 0 then Ok(acc)
    else
      var next :- BjdStep(acc, lines[0], keys, toFloat);
      ScanBjd(next, lines[1..], keys, toFloat)
  }

  /** `_read_bjd_file`: on success the file's header values are empty and its
      series are the three columns read; on failure nothing is stored. */
  function ReadBjdFile(state: ReaderState, lines: seq<string>, uri: string, keys: BjdKeys, toFloat: string -> Option<real>): Result<ReaderState, ReadError> {
    var scan :- ScanBjd(BjdScan(false, map[]), lines, keys, toFloat);
    if !scan.defaultFound then Err(WrongDefaultAxis(uri))
    else Ok(Store(state, uri, map[], scan.series))
  }

  predicate AllWellFormed(lines: seq<string>, toFloat: string -> Option<real>) {
    forall k :: 0 <= k < |lines| && IsDataLine(lines[k]) ==> WellFormed(lines[k], toFloat)
  }

  /** Column `idx` of every data line, in file order. */
  function Column(lines: seq<string>, idx: nat, toFloat: string -> Option<real>): (c: seq<real>)
    requires AllWellFormed(lines, toFloat) && (idx == 0 || idx == 1 || idx == 3)
    ensures |c| == |DataLines(lines)|
  {
    if |lines| == 0 then []
    else
      assert AllWellFormed(lines[1..], toFloat) by {
        forall k | 0 <= k < |lines[1..]| && IsDataLine(lines[1..][k])
          ensures WellFormed(lines[1..][k], toFloat)
        {
          assert lines[1..][k] == lines[k + 1];
        }
      }
      (if IsDataLine(lines[0]) then [Field(lines[0], idx, toFloat)] else []) + Column(lines[1..], idx, toFloat)
  }

  /** The series a file is read into: nothing when it has
      no data line, otherwise the three named columns. */
  function BjdSeries(lines: seq<string>, keys: BjdKeys, toFloat: string -> Option<real>): Series
    requires AllWellFormed(lines, toFloat)
  {
    if |DataLines(lines)| == 0 then map[]
    else map[keys.0 := Column(lines, 0, toFloat), keys.1 := Column(lines, 1, toFloat), keys.2 := Column(lines, 3, toFloat)]
  }

  /** The series after a scan: what the scan started with, each of the three
      columns appended to its series, and no other series touched. */
  ghost predicate Extends(before: Series, after: Series, lines: seq<string>, keys: BjdKeys, toFloat: string -> Option<real>)
    requires AllWellFormed(lines, toFloat)
  {
    && (forall k :: k in after <==> k in before || (|DataLines(lines)| > 0 && (k == keys.0 || k == keys.1 || k == keys.2)))
    && Get(after, keys.0) == Get(before, keys.0) + Column(lines, 0, toFloat)
    && Get(after, keys.1) == Get(before, keys.1) + Column(lines, 1, toFloat)
    && Get(after, keys.2) == Get(before, keys.2) + Column(lines, 3, toFloat)
    && forall k :: k != keys.0 && k != keys.1 && k != keys.2 ==> Get(after, k) == Get(before, k)
  }

  /** The scan succeeds exactly when every data line is well formed, finds
      the time axis exactly when some comment names it, and appends the
      columns of the data lines. */
  lemma {:induction false} ScanBjdOutcome(acc: BjdScan, lines: seq<string>, keys: BjdKeys, toFloat: string -> Option<real>)
    requires DistinctKeys(keys)
    ensures ScanBjd(acc, lines, keys, toFloat).Ok? <==> AllWellFormed(lines, toFloat)
    ensures ScanBjd(acc, lines, keys, toFloat).Ok? ==>
      var r := ScanBjd(acc, lines, keys, toFloat).value;
      && (r.defaultFound <==> acc.defaultFound || HasDefaultAxis(lines))
      && Extends(acc.series, r.series, lines, keys, toFloat)
    decreases |lines|
  {
    if |lines| > 0 {
      var line := lines[0];
      var tail := lines[1..];
      BjdPointOk(line, toFloat);
      ContainsIffFound(line, DefaultAxis);
      var step := BjdStep(acc, line, keys, toFloat);
      assert AllWellFormed(lines, toFloat) <==> (IsDataLine(line) ==> WellFormed(line, toFloat)) && AllWellFormed(tail, toFloat) by {
        if (IsDataLine(line) ==> WellFormed(line, toFloat)) && AllWellFormed(tail, toFloat) {
          forall k | 0 <= k < |lines| && IsDataLine(lines[k])
            ensures WellFormed(lines[k], toFloat)
          {
            if k > 0 {
              assert lines[k] == tail[k - 1];
            }
          }
        }
        if AllWellFormed(lines, toFloat) {
          forall k | 0 <= k < |tail| && IsDataLine(tail[k])
            ensures WellFormed(tail[k], toFloat)
          {
            assert tail[k] == lines[k + 1];
          }
        }
      }
      if step.Ok? {
        ScanBjdOutcome(step.value, tail, keys, toFloat);
        assert HasDefaultAxis(lines) <==> MarksDefaultAxis(line) || HasDefaultAxis(tail) by {
          if HasDefaultAxis(tail) {
            var k :| 0 <= k < |tail| && MarksDefaultAxis(tail[k]);
            assert lines[k + 1] == tail[k];
          }
          if HasDefaultAxis(lines) {
            var k :| 0 <= k < |lines| && MarksDefaultAxis(lines[k]);
            if k > 0 {
              assert tail[k - 1] == lines[k];
            }
          }
        }
        if AllWellFormed(lines, toFloat) {
          BjdStepAppends(acc, lines, keys, toFloat);
        }
      }
    }
  }

  /** One line's contribution to the columns. */
  lemma BjdStepAppends(acc: BjdScan, lines: seq<string>, keys: BjdKeys, toFloat: string -> Option<real>)
    requires DistinctKeys(keys)
    requires |lines| > 0 && AllWellFormed(lines, toFloat)
    requires BjdStep(acc, lines[0], keys, toFloat).Ok?
    requires AllWellFormed(lines[1..], toFloat)
    requires var next := BjdStep(acc, lines[0], keys, toFloat).value;
      ScanBjd(next, lines[1..], keys, toFloat).Ok? &&
      Extends(next.series, ScanBjd(next, lines[1..], keys, toFloat).value.series, lines[1..], keys, toFloat)
    ensures Extends(acc.series, ScanBjd(acc, lines, keys, toFloat).value.series, lines, keys, toFloat)
  {
    var line, tail := lines[0], lines[1..];
    var next := BjdStep(acc, line, keys, toFloat).value;
    var after := ScanBjd(next, tail, keys, toFloat).value.series;
    assert ScanBjd(acc, lines, keys, toFloat).value.series == after;
    assert DataLines(lines) == (if IsDataLine(line) then [line] else []) + DataLines(tail);
    if IsDataLine(line) {
      BjdPointOk(line, toFloat);
      ExtendsByRow(acc.series, next.series, after, lines, keys, toFloat);
    } else {
      assert next.series == acc.series;
      ExtendsBySkip(acc.series, after, lines, keys, toFloat);
    }
  }

  /** A line without values adds nothing to the columns. */
  lemma ExtendsBySkip(before: Series, after: Series, lines: seq<string>, keys: BjdKeys, toFloat: string -> Option<real>)
    requires |lines| > 0 && !IsDataLine(lines[0]) && AllWellFormed(lines, toFloat) && AllWellFormed(lines[1..], toFloat)
    requires Extends(before, after, lines[1..], keys, toFloat)
    ensures Extends(before, after, lines, keys, toFloat)
  {
    var tail := lines[1..];
    assert DataLines(lines) == DataLines(tail);
    assert Column(lines, 0, toFloat) == Column(tail, 0, toFloat);
    assert Column(lines, 1, toFloat) == Column(tail, 1, toFloat);
    assert Column(lines, 3, toFloat) == Column(tail, 3, toFloat);
  }

  /** A data line's three values followed by the rest of the file's columns. */
  lemma ExtendsByRow(before: Series, middle: Series, after: Series, lines: seq<string>, keys: BjdKeys, toFloat: string -> Option<real>)
    requires |lines| > 0 && IsDataLine(lines[0]) && AllWellFormed(lines, toFloat) && AllWellFormed(lines[1..], toFloat)
    requires DistinctKeys(keys)
    requires middle == Append(Append(Append(before, keys.0, Field(lines[0], 0, toFloat)), keys.1, Field(lines[0], 1, toFloat)), keys.2, Field(lines[0], 3, toFloat))
    requires Extends(middle, after, lines[1..], keys, toFloat)
    requires DataLines(lines) == [lines[0]] + DataLines(lines[1..])
    ensures Extends(before, after, lines, keys, toFloat)
  {
    var line, tail := lines[0], lines[1..];
    var t, m, e := Field(line, 0, toFloat), Field(line, 1, toFloat), Field(line, 3, toFloat);
    AppendRow(before, middle, keys, t, m, e);
    assert Get(after, keys.0) == Get(before, keys.0) + Column(lines, 0, toFloat) by {
      assert Column(lines, 0, toFloat) == [t] + Column(tail, 0, toFloat);
      Regroup(Get(before, keys.0), t, Column(tail, 0, toFloat));
    }
    assert Get(after, keys.1) == Get(before, keys.1) + Column(lines, 1, toFloat) by {
      assert Column(lines, 1, toFloat) == [m] + Column(tail, 1, toFloat);
      Regroup(Get(before, keys.1), m, Column(tail, 1, toFloat));
    }
    assert Get(after, keys.2) == Get(before, keys.2) + Column(lines, 3, toFloat) by {
      assert Column(lines, 3, toFloat) == [e] + Column(tail, 3, toFloat);
      Regroup(Get(before, keys.2), e, Column(tail, 3, toFloat));
    }
  }

  /** The three appends of one data line, each to its own series. */
  lemma AppendRow(before: Series, middle: Series, keys: BjdKeys, t: real, m: real, e: real)
    requires DistinctKeys(keys)
    requires middle == Append(Append(Append(before, keys.0, t), keys.1, m), keys.2, e)
    ensures forall k :: k in middle <==> k in before || k == keys.0 || k == keys.1 || k == keys.2
    ensures Get(middle, keys.0) == Get(before, keys.0) + [t]
    ensures Get(middle, keys.1) == Get(before, keys.1) + [m]
    ensures Get(middle, keys.2) == Get(before, keys.2) + [e]
    ensures forall k :: k != keys.0 && k != keys.1 && k != keys.2 ==> Get(middle, k) == Get(before, k)
  {
    var s1 := Append(before, keys.0, t);
    var s2 := Append(s1, keys.1, m);
    assert Get(s2, keys.0) == Get(s1, keys.0);
  }

  /** The time, magnitude and error series of a successfully read file have
      one value per data line. */
  lemma BjdSeriesLengths(lines: seq<string>, keys: BjdKeys, toFloat: string -> Option<real>)
    requires AllWellFormed(lines, toFloat)
    ensures var s := BjdSeries(lines, keys, toFloat);
      forall k :: k in s ==> |s[k]| == |DataLines(lines)| && (k == keys.0 || k == keys.1 || k == keys.2)
  {
  }

  /** `_read_bjd_file` in full: it fails on the first malformed data line,
      then fails when no comment names the time axis, and otherwise stores
      empty header values and the three columns under `uri` alone. */
  lemma ReadBjdFileOutcome(state: ReaderState, lines: seq<string>, uri: string, keys: BjdKeys, toFloat: string -> Option<real>)
    requires DistinctKeys(keys)
    ensures var r := ReadBjdFile(state, lines, uri, keys, toFloat);
      && (r.Ok? <==> AllWellFormed(lines, toFloat) && HasDefaultAxis(lines))
      && (AllWellFormed(lines, toFloat) && !HasDefaultAxis(lines) ==> r == Err(WrongDefaultAxis(uri)))
      && (r.Ok? ==>
            r.value.metadata == state.metadata[uri := map[]] &&
            r.value.timeSeries == state.timeSeries[uri := BjdSeries(lines, keys, toFloat)])
  {
    var init := BjdScan(false, map[]);
    ScanBjdOutcome(init, lines, keys, toFloat);
    var scan := ScanBjd(init, lines, keys, toFloat);
    if scan.Ok? {
      var s := scan.value.series;
      var b := BjdSeries(lines, keys, toFloat);
      assert s == b by {
        assert forall k :: k in s <==> k in b;
        forall k | k in s
          ensures s[k] == b[k]
        {
          assert Get(s, k) == s[k] && Get(b, k) == b[k];
        }
      }
    }
  }

  /** The first malformed data line decides the error of the scan. */
  lemma {:induction false} ScanBjdFirstError(acc: BjdScan, lines: seq<string>, j: nat, keys: BjdKeys, toFloat: string -> Option<real>)
    requires j < |lines| && IsDataLine(lines[j]) && !WellFormed(lines[j], toFloat)
    requires forall k :: 0 <= k < j && IsDataLine(lines[k]) ==> WellFormed(lines[k], toFloat)
    ensures ScanBjd(acc, lines, keys, toFloat) == Err(BjdPoint(lines[j], toFloat).error)
    decreases |lines|
  {
    BjdPointOk(lines[0], toFloat);
    if j > 0 {
      var next := BjdStep(acc, lines[0], keys, toFloat);
      assert next.Ok?;
      forall k | 0 <= k < j - 1 && IsDataLine(lines[1..][k])
        ensures WellFormed(lines[1..][k], toFloat)
      {
        assert lines[1..][k] == lines[k + 1];
      }
      ScanBjdFirstError(next.value, lines[1..], j - 1, keys, toFloat);
    }
  }

  /** A malformed data line fails the read before the time axis is looked
      at, with the error of the first such line, and stores nothing. */
  lemma ReadBjdFileFirstError(state: ReaderState, lines: seq<string>, j: nat, uri: string, keys: BjdKeys, toFloat: string -> Option<real>)
    requires j < |lines| && IsDataLine(lines[j]) && !WellFormed(lines[j], toFloat)
    requires forall k :: 0 <= k < j && IsDataLine(lines[k]) ==> WellFormed(lines[k], toFloat)
    ensures ReadBjdFile(state, lines, uri, keys, toFloat) == Err(BjdPoint(lines[j], toFloat).error)
  {
    ScanBjdFirstError(BjdScan(false, map[]), lines, j, keys, toFloat);
  }

  /** Iterating a file yields a blank line as a lone newline, which is
      neither empty nor a comment: it has no values, so the read fails. */
  lemma BlankLineFailsBjd(acc: BjdScan, keys: BjdKeys, toFloat: string -> Option<real>)
    ensures BjdStep(acc, "\n", keys, toFloat) == Err(MissingToken("\n"))
  {
    TokensOfSpace("\n");
  }

  // ---------------------------------------------------------------------
  // The un-decorrelated (`.orig`) format.

  /** What the loop of `_read_orig_file` carries: the header values read so
      far and the series. */
  datatype OrigScan = OrigScan(metadata: map<string, string>, series: Series)

  /** A header line holding this text separates sections and is skipped. */
  const Separator: string := "----------"

  /** The header key that names the series of value number `x` (from 0) of a data line. */
  function ColumnKey(x: nat): string {
    "column" + Decimal(x + 1)
  }

  /** A comment line `# keyword = value / comment`: records the value under
      the keyword and, for a keyword mentioning `column`, starts an empty
      series named by the value. */
  function OrigHeader(acc: OrigScan, line: string): Result<OrigScan, ReadError> {
    var ll := SplitOnce(line, "=");
    if Find(ll[0], Separator).Some? then Ok(acc)
    else if |ll| < 2 then Err(MissingEquals(line))
    else
      var keyword := Strip(Replace(ll[0], "# ", ""));
      var vc := SplitOnce(ll[1], "/");
      if |vc| < 2 then Err(MissingSlash(line))
      else
        var value := Strip(vc[0]);
        Ok(OrigScan(acc.metadata[keyword := value],
                    if Find(keyword, "column").Some? then acc.series[value := []] else acc.series))
  }

  /** The values of a data line from position `x` on, each appended to the
      series its column key names. */
  function OrigRow(acc: OrigScan, tokens: seq<string>, x: nat, toFloat: string -> Option<real>): Result<OrigScan, ReadError>
    requires x <= |tokens|
    decreases |tokens| - x
  {
    if x == |tokens| then Ok(acc)
    else
      var key := ColumnKey(x);
      if key !in acc.metadata then Err(UnknownColumn(key))
      else
        var v :- Number(tokens[x], toFloat);
        OrigRow(acc.(series := Append(acc.series, acc.metadata[key], v)), tokens, x + 1, toFloat)
  }

  /** One iteration of the loop of `_read_orig_file`. */
  function OrigStep(acc: OrigScan, line: string, toFloat: string -> Option<real>): Result<OrigScan, ReadError> {
    if |line| == 0 then Ok(acc)
    else if line[0] == '#' then OrigHeader(acc, line)
    else OrigRow(acc, Tokens(line), 0, toFloat)
  }

  /** The loop of `_read_orig_file`: the first failing line ends it. */
  function ScanOrig(acc: OrigScan, lines: seq<string>, toFloat: string -> Option<real>): Result<OrigScan, ReadError>
    decreases |lines|
  {
    if |lines| == 0 then Ok(acc)
    else
      var next :- OrigStep(acc, lines[0], toFloat);
      ScanOrig(next, lines[1..], toFloat)
  }

  /** `_read_orig_file`: stores the header values and the series under `uri`. */
  function ReadOrigFile(state: ReaderState, lines: seq<string>, uri: string, toFloat: string -> Option<real>): Result<ReaderState, ReadError> {
    var scan :- ScanOrig(OrigScan(map[], map[]), lines, toFloat);
    Ok(Store(state, uri, scan.metadata, scan.series))
  }

  /** `"# " + keyword + " "` cleaned as the header keyword is: the marker
      removed, then stripped. */
  lemma HeaderKeyword(keyword: string)
    requires '#' !in keyword && Trimmed(keyword)
    ensures Strip(Replace("# " + keyword + " ", "# ", "")) == keyword
  {
    var rest := keyword + " ";
    assert "# " + keyword + " " == "# " + rest;
    DropMarker(rest);
    assert AllSpace(" ") && AllSpace("");
    assert "" + keyword + " " == rest;
    StripPadded("", keyword, " ");
  }

  /** Only the leading marker goes when the rest holds no `#`. */
  lemma DropMarker(rest: string)
    requires '#' !in rest
    ensures Replace("# " + rest, "# ", "") == rest
  {
    var head := "# " + rest;
    assert head[0..2] == "# ";
    FindAt(head, "# ", 0);
    ReplaceFirst(head, "# ", "", 0);
    assert head[2..] == rest;
    AbsentLead(rest, "# ");
    ReplaceAbsent(rest, "# ", "");
  }

  /** The text after `=` split at its first `/`, and the value stripped. */
  lemma HeaderValue(value: string, comment: string)
    requires '/' !in value && Trimmed(value)
    ensures var vc := SplitOnce(" " + value + " / " + comment, "/");
      |vc| == 2 && Strip(vc[0]) == value
  {
    var after := " " + value + " ";
    assert " " + value + " / " + comment == after + "/" + (" " + comment);
    assert '/' !in after by {
      assert forall k :: 0 <= k < |after| ==> after[k] == ' ' || after[k] == value[k - 1];
      assert forall k :: 0 <= k < |value| ==> value[k] in value;
    }
    SplitOnceAt(after, "/", " " + comment);
    StripPadded(" ", value, " ");
  }

  /** The line split at its first `=`, with no separator before it. */
  lemma HeaderSplit(keyword: string, value: string, comment: string)
    requires '=' !in keyword && '-' !in keyword
    ensures var ll := SplitOnce("# " + keyword + " = " + value + " / " + comment, "=");
      ll == ["# " + keyword + " ", " " + value + " / " + comment] && Find(ll[0], Separator).None?
  {
    var head := "# " + keyword + " ";
    var tail := " " + value + " / " + comment;
    assert forall k :: 0 <= k < |keyword| ==> keyword[k] in keyword;
    assert forall k :: 0 <= k < |head| ==> head[k] == '#' || head[k] == ' ' || head[k] == keyword[k - 2];
    assert "# " + keyword + " = " + value + " / " + comment == head + "=" + tail;
    SplitOnceAt(head, "=", tail);
    AbsentLead(head, Separator);
  }

  /** A header written as `# keyword = value / comment` reads back as that
      keyword and value; a keyword mentioning `column` declares the series
      named by the value, empty, replacing any earlier one of that name. */
  lemma HeaderRoundTrip(acc: OrigScan, keyword: string, value: string, comment: string, toFloat: string -> Option<real>)
    requires '=' !in keyword && '#' !in keyword && '-' !in keyword && Trimmed(keyword)
    requires '/' !in value && Trimmed(value)
    ensures OrigStep(acc, "# " + keyword + " = " + value + " / " + comment, toFloat) ==
      Ok(OrigScan(acc.metadata[keyword := value],
                  if Contains(keyword, "column") then acc.series[value := []] else acc.series))
  {
    HeaderSplit(keyword, value, comment);
    HeaderKeyword(keyword);
    HeaderValue(value, comment);
    ContainsIffFound(keyword, "column");
  }

  /** Of two headers with one keyword, the later value is the one kept. */
  lemma LaterHeaderWins(acc: OrigScan, keyword: string, first: string, second: string, comment: string, toFloat: string -> Option<real>)
    requires '=' !in keyword && '#' !in keyword && '-' !in keyword && Trimmed(keyword)
    requires '/' !in first && Trimmed(first) && '/' !in second && Trimmed(second)
    ensures var lines := ["# " + keyword + " = " + first + " / " + comment, "# " + keyword + " = " + second + " / " + comment];
      ScanOrig(acc, lines, toFloat).Ok? && keyword in ScanOrig(acc, lines, toFloat).value.metadata &&
      ScanOrig(acc, lines, toFloat).value.metadata[keyword] == second
  {
    var lines := ["# " + keyword + " = " + first + " / " + comment, "# " + keyword + " = " + second + " / " + comment];
    HeaderRoundTrip(acc, keyword, first, comment, toFloat);
    var mid := OrigStep(acc, lines[0], toFloat).value;
    HeaderRoundTrip(mid, keyword, second, comment, toFloat);
    var last := OrigStep(mid, lines[1], toFloat).value;
    assert last.metadata[keyword] == second;
    assert ScanOrig(mid, [lines[1]], toFloat) == ScanOrig(last, [], toFloat);
    assert lines[1..] == [lines[1]];
    assert ScanOrig(acc, lines, toFloat) == ScanOrig(mid, lines[1..], toFloat);
  }

  /** A comment whose text before its first `=` holds the separator changes
      nothing. */
  lemma SeparatorSkipped(acc: OrigScan, line: string, toFloat: string -> Option<real>)
    requires IsComment(line) && Contains(SplitOnce(line, "=")[0], Separator)
    ensures OrigStep(acc, line, toFloat) == Ok(acc)
  {
    ContainsIffFound(SplitOnce(line, "=")[0], Separator);
  }

  /** A header line without `=` that is not a separator fails the read, and
      so does one whose value has no `/` after it. */
  lemma MalformedHeader(acc: OrigScan, line: string, toFloat: string -> Option<real>)
    requires IsComment(line) && !Contains(SplitOnce(line, "=")[0], Separator)
    ensures !Contains(line, "=") ==> OrigStep(acc, line, toFloat) == Err(MissingEquals(line))
    ensures var ll := SplitOnce(line, "=");
      |ll| == 2 && !Contains(ll[1], "/") ==> OrigStep(acc, line, toFloat) == Err(MissingSlash(line))
  {
    ContainsIffFound(SplitOnce(line, "=")[0], Separator);
  }

  /** The headers declare series `names[x]` for the values `x` of a row. */
  predicate Declares(metadata: map<string, string>, names: seq<string>) {
    forall x :: 0 <= x < |names| ==> ColumnKey(x) in metadata && metadata[ColumnKey(x)] == names[x]
  }

  predicate Distinct(names: seq<string>) {
    forall x, y :: 0 <= x < y < |names| ==> names[x] != names[y]
  }

  /** `n` names none of the columns from position `x` on. */
  predicate NotAmong(n: string, names: seq<string>, x: nat) {
    forall y :: x <= y < |names| ==> names[y] != n
  }

  /** A row of numbers under declared, distinct column names appends each
      number to its own series and leaves every other series alone. */
  lemma {:induction false} OrigRowAppends(acc: OrigScan, tokens: seq<string>, x: nat, names: seq<string>, toFloat: string -> Option<real>)
    requires x <= |tokens| == |names|
    requires Declares(acc.metadata, names) && Distinct(names)
    requires forall y :: x <= y < |tokens| ==> toFloat(tokens[y]).Some?
    ensures OrigRow(acc, tokens, x, toFloat).Ok?
    ensures var r := OrigRow(acc, tokens, x, toFloat).value;
      && r.metadata == acc.metadata
      && (forall y :: x <= y < |names| ==> Get(r.series, names[y]) == Get(acc.series, names[y]) + [toFloat(tokens[y]).value])
      && (forall n :: NotAmong(n, names, x) ==> Get(r.series, n) == Get(acc.series, n))
    decreases |tokens| - x
  {
    if x < |tokens| {
      var v := toFloat(tokens[x]).value;
      var next := acc.(series := Append(acc.series, names[x], v));
      assert OrigRow(acc, tokens, x, toFloat) == OrigRow(next, tokens, x + 1, toFloat);
      OrigRowAppends(next, tokens, x + 1, names, toFloat);
      var r := OrigRow(acc, tokens, x, toFloat).value;
      assert NotAmong(names[x], names, x + 1);
      forall y | x < y < |names|
        ensures Get(r.series, names[y]) == Get(acc.series, names[y]) + [toFloat(tokens[y]).value]
      {
        assert names[y] != names[x];
      }
      forall n | NotAmong(n, names, x)
        ensures Get(r.series, n) == Get(acc.series, n)
      {
        assert NotAmong(n, names, x + 1);
      }
    }
  }

  /** A value whose column no header declares fails the read with that key. */
  lemma OrigRowUndeclared(acc: OrigScan, tokens: seq<string>, x: nat, toFloat: string -> Option<real>)
    requires x < |tokens| && ColumnKey(x) !in acc.metadata
    ensures OrigRow(acc, tokens, x, toFloat) == Err(UnknownColumn(ColumnKey(x)))
  {
  }

  lemma Regroup(g: seq<real>, v: real, c: seq<real>)
    ensures (g + [v]) + c == g + ([v] + c)
  {
  }

  /** Value number `x` of every data line of a table, in file order. */
  function OrigColumn(lines: seq<string>, x: nat, toFloat: string -> Option<real>): seq<real>
    requires forall k :: 0 <= k < |lines| ==> x < |Tokens(lines[k])| && toFloat(Tokens(lines[k])[x]).Some?
  {
    if |lines| == 0 then []
    else [toFloat(Tokens(lines[0])[x]).value] + OrigColumn(lines[1..], x, toFloat)
  }

  /** Rows of numbers, each with one value per declared column. */
  predicate Table(lines: seq<string>, width: nat, toFloat: string -> Option<real>) {
    forall k :: 0 <= k < |lines| ==>
      IsDataLine(lines[k]) && |Tokens(lines[k])| == width &&
      forall y :: 0 <= y < width ==> toFloat(Tokens(lines[k])[y]).Some?
  }

  /** Reading a table after the headers that declare its columns appends
      column `x` of the table to the series `names[x]`: every declared series
      grows by one value per row. */
  lemma {:induction false} ScanOrigTable(acc: OrigScan, lines: seq<string>, names: seq<string>, toFloat: string -> Option<real>)
    requires Declares(acc.metadata, names) && Distinct(names)
    requires Table(lines, |names|, toFloat)
    ensures ScanOrig(acc, lines, toFloat).Ok?
    ensures var r := ScanOrig(acc, lines, toFloat).value;
      && r.metadata == acc.metadata
      && (forall x :: 0 <= x < |names| ==> Get(r.series, names[x]) == Get(acc.series, names[x]) + OrigColumn(lines, x, toFloat))
      && (forall n :: NotAmong(n, names, 0) ==> Get(r.series, n) == Get(acc.series, n))
    decreases |lines|
  {
    if |lines| > 0 {
      var t, tail := Tokens(lines[0]), lines[1..];
      OrigTableStep(acc, lines, names, toFloat);
      var next := OrigStep(acc, lines[0], toFloat).value;
      ScanOrigTable(next, tail, names, toFloat);
      var r := ScanOrig(next, tail, toFloat).value;
      assert ScanOrig(acc, lines, toFloat) == Ok(r);
      forall x | 0 <= x < |names|
        ensures Get(r.series, names[x]) == Get(acc.series, names[x]) + OrigColumn(lines, x, toFloat)
      {
        var v := toFloat(t[x]).value;
        assert OrigColumn(lines, x, toFloat) == [v] + OrigColumn(tail, x, toFloat);
        Regroup(Get(acc.series, names[x]), v, OrigColumn(tail, x, toFloat));
      }
    }
  }

  /** The first row of a table: its values appended, the rest still a table. */
  lemma OrigTableStep(acc: OrigScan, lines: seq<string>, names: seq<string>, toFloat: string -> Option<real>)
    requires Declares(acc.metadata, names) && Distinct(names)
    requires |lines| > 0 && Table(lines, |names|, toFloat)
    ensures Table(lines[1..], |names|, toFloat)
    ensures OrigStep(acc, lines[0], toFloat).Ok?
    ensures var next := OrigStep(acc, lines[0], toFloat).value;
      && next.metadata == acc.metadata
      && (forall x :: 0 <= x < |names| ==>
            Get(next.series, names[x]) == Get(acc.series, names[x]) + [toFloat(Tokens(lines[0])[x]).value])
      && (forall n :: NotAmong(n, names, 0) ==> Get(next.series, n) == Get(acc.series, n))
  {
    var line, tail := lines[0], lines[1..];
    assert Table(tail, |names|, toFloat) by {
      assert forall k :: 0 <= k < |tail| ==> tail[k] == lines[k + 1];
    }
    assert IsDataLine(line) && |Tokens(line)| == |names|;
    OrigRowAppends(acc, Tokens(line), 0, names, toFloat);
    assert OrigStep(acc, line, toFloat) == OrigRow(acc, Tokens(line), 0, toFloat);
  }


  // ---------------------------------------------------------------------
  // Dispatch and the reader.

  /** Only `uri`'s entries may differ between the two states. */
  ghost predicate OnlyTouches(before: ReaderState, after: ReaderState, uri: string) {
    && (forall u :: u != uri ==> (u in after.metadata <==> u in before.metadata))
    && (forall u :: u != uri && u in before.metadata ==> after.metadata[u] == before.metadata[u])
    && (forall u :: u != uri ==> (u in after.timeSeries <==> u in before.timeSeries))
    && (forall u :: u != uri && u in before.timeSeries ==> after.timeSeries[u] == before.timeSeries[u])
  }


  /** The header values and series of one file stored under its URI. */
  function Store(state: ReaderState, uri: string, metadata: map<string, string>, series: Series): (r: ReaderState)
    ensures OnlyTouches(state, r, uri)
    ensures uri in r.metadata && r.metadata[uri] == metadata
    ensures uri in r.timeSeries && r.timeSeries[uri] == series
  {
    ReaderState(state.metadata[uri := metadata], state.timeSeries[uri := series])
  }

  /** `_read_file`: the parser is chosen by the file name's extension; a file
      that carries no time series is not read. */
  function ReadFile(state: ReaderState, lines: seq<string>, uri: string, toFloat: string -> Option<real>): (r: Result<ReaderState, ReadError>)
    ensures !StorageName.HasData(uri) ==> r == Ok(state)
    ensures r.Ok? ==> OnlyTouches(state, r.value, uri)
    ensures r.Ok? && StorageName.HasData(uri) ==> uri in r.value.metadata && uri in r.value.timeSeries
  {
    if EndsWith(uri, ".orig") then ReadOrigFile(state, lines, uri, toFloat)
    else if EndsWith(uri, ".ndatdb") then ReadBjdFile(state, lines, uri, DecorrelatedKeys, toFloat)
    else if EndsWith(uri, ".avedb") then ReadBjdFile(state, lines, uri, AveragedKeys, toFloat)
    else Ok(state)
  }

  /** The parser each data file goes to. */
  lemma ReadFileDispatch(state: ReaderState, lines: seq<string>, root: string, ext: string, toFloat: string -> Option<real>)
    requires ext in StorageName.Extensions
    ensures ext == ".orig" ==> ReadFile(state, lines, root + ext, toFloat) == ReadOrigFile(state, lines, root + ext, toFloat)
    ensures ext == ".ndatdb" ==> ReadFile(state, lines, root + ext, toFloat) == ReadBjdFile(state, lines, root + ext, DecorrelatedKeys, toFloat)
    ensures ext == ".avedb" ==> ReadFile(state, lines, root + ext, toFloat) == ReadBjdFile(state, lines, root + ext, AveragedKeys, toFloat)
    ensures ext != ".orig" && ext != ".ndatdb" && ext != ".avedb" ==> ReadFile(state, lines, root + ext, toFloat) == Ok(state)
  {
    StorageName.SuffixOfNamed(root, ext, ".orig");
    StorageName.SuffixOfNamed(root, ext, ".ndatdb");
    StorageName.SuffixOfNamed(root, ext, ".avedb");
  }

  /** A destination URI with the lines of the source file behind it. */
  datatype Entry = Entry(uri: string, lines: seq<string>)

  /** One turn of `set_time_series`: a URI already read is skipped, and
      nothing is read for a file without a time series. */
  function LoadOne(state: ReaderState, e: Entry, fileName: string, toFloat: string -> Option<real>): Result<ReaderState, ReadError> {
    if e.uri in state.timeSeries || !StorageName.HasData(fileName) then Ok(state)
    else ReadFile(state, e.lines, e.uri, toFloat)
  }

  /** The entries handled in order; the first failure ends the pass. */
  function LoadEach(state: ReaderState, entries: seq<Entry>, fileName: string, toFloat: string -> Option<real>): Result<ReaderState, ReadError>
    decreases |entries|
  {
    if |entries| == 0 then Ok(state)
    else
      var before :- LoadEach(state, entries[..|entries| - 1], fileName, toFloat);
      LoadOne(before, entries[|entries| - 1], fileName, toFloat)
  }

  /** Series already read are kept as they are. */
  predicate KeepsSeries(before: ReaderState, after: ReaderState) {
    forall u :: u in before.timeSeries ==> u in after.timeSeries && after.timeSeries[u] == before.timeSeries[u]
  }

  /** The URIs of `entries`. */
  function Uris(entries: seq<Entry>): set<string>
    decreases |entries|
  {
    if |entries| == 0 then {} else Uris(entries[..|entries| - 1]) + {entries[|entries| - 1].uri}
  }

  /** The two states agree on `u`: both its header values and its series. */
  ghost predicate SameAt(before: ReaderState, after: ReaderState, u: string) {
    && (u in after.metadata <==> u in before.metadata)
    && (u in before.metadata ==> after.metadata[u] == before.metadata[u])
    && (u in after.timeSeries <==> u in before.timeSeries)
    && (u in before.timeSeries ==> after.timeSeries[u] == before.timeSeries[u])
  }

  /** What one turn of the loop does: keeps the series already read and
      every other URI, and reads the entry's URI when it is a data file. */
  lemma LoadOneEffect(current: ReaderState, e: Entry, fileName: string, toFloat: string -> Option<real>)
    requires LoadOne(current, e, fileName, toFloat).Ok?
    ensures var next := LoadOne(current, e, fileName, toFloat).value;
      && KeepsSeries(current, next)
      && (forall u :: u != e.uri ==> SameAt(current, next, u))
      && (StorageName.HasData(fileName) && StorageName.HasData(e.uri) ==> e.uri in next.timeSeries)
      && (!StorageName.HasData(fileName) ==> next == current)
  {
    if !(e.uri in current.timeSeries || !StorageName.HasData(fileName)) {
      var r := ReadFile(current, e.lines, e.uri, toFloat);
      assert OnlyTouches(current, r.value, e.uri);
    }
  }

  /** `set_time_series` of the file-system reader: reads every destination
      URI of a data file that is not read yet. Nothing happens for a file
      without a time series, series read before are never read again, only
      the listed URIs change, and every listed data URI ends up read. */
  method SetTimeSeries(state: ReaderState, entries: seq<Entry>, fileName: string, toFloat: string -> Option<real>)
    returns (r: Result<ReaderState, ReadError>)
    ensures r == LoadEach(state, entries, fileName, toFloat)
    ensures !StorageName.HasData(fileName) ==> r == Ok(state)
    ensures r.Ok? ==> KeepsSeries(state, r.value)
    ensures r.Ok? ==> forall u :: u !in Uris(entries) ==> SameAt(state, r.value, u)
    ensures r.Ok? && StorageName.HasData(fileName) ==>
      forall k :: 0 <= k < |entries| && StorageName.HasData(entries[k].uri) ==> entries[k].uri in r.value.timeSeries
  {
    var current := state;
    var i := 0;
    assert entries[..0] == [];
    while i < |entries|
      invariant 0 <= i <= |entries|
      invariant Progress(state, entries[..i], current, fileName, toFloat)
    {
      var e := entries[i];
      assert entries[..i + 1] == entries[..i] + [e];
      var next := LoadOne(current, e, fileName, toFloat);
      if next.Err? {
        assert LoadEach(state, entries[..i + 1], fileName, toFloat) == next;
        LoadEachStops(state, entries, i + 1, fileName, toFloat);
        return next;
      }
      ProgressStep(state, entries[..i], e, current, fileName, toFloat);
      current := next.value;
      i := i + 1;
    }
    assert entries[..i] == entries;
    r := Ok(current);
  }

  /** What the loop of `set_time_series` has achieved once the entries
      `done` are handled and left `current`. */
  ghost predicate Progress(state: ReaderState, done: seq<Entry>, current: ReaderState, fileName: string, toFloat: string -> Option<real>) {
    && LoadEach(state, done, fileName, toFloat) == Ok(current)
    && (!StorageName.HasData(fileName) ==> current == state)
    && KeepsSeries(state, current)
    && (forall u :: u !in Uris(done) ==> SameAt(state, current, u))
    && (StorageName.HasData(fileName) ==>
          forall k :: 0 <= k < |done| && StorageName.HasData(done[k].uri) ==> done[k].uri in current.timeSeries)
  }

  /** One more entry handled without failure keeps the loop's progress. */
  lemma ProgressStep(state: ReaderState, done: seq<Entry>, e: Entry, current: ReaderState, fileName: string, toFloat: string -> Option<real>)
    requires Progress(state, done, current, fileName, toFloat)
    requires LoadOne(current, e, fileName, toFloat).Ok?
    ensures Progress(state, done + [e], LoadOne(current, e, fileName, toFloat).value, fileName, toFloat)
  {
    var after := done + [e];
    assert after[..|after| - 1] == done;
    assert Uris(after) == Uris(done) + {e.uri};
    LoadOneEffect(current, e, fileName, toFloat);
    var next := LoadOne(current, e, fileName, toFloat).value;
    assert forall k :: 0 <= k < |done| ==> after[k] == done[k];
  }

  /** Once a pass has failed, handling more entries does not change the error. */
  lemma {:induction false} LoadEachStops(state: ReaderState, entries: seq<Entry>, i: nat, fileName: string, toFloat: string -> Option<real>)
    requires i <= |entries| && LoadEach(state, entries[..i], fileName, toFloat).Err?
    ensures LoadEach(state, entries, fileName, toFloat) == LoadEach(state, entries[..i], fileName, toFloat)
    decreases |entries| - i
  {
    if i < |entries| {
      assert entries[..i + 1][..i] == entries[..i];
      LoadEachStops(state, entries, i + 1, fileName, toFloat);
    } else {
      assert entries[..i] == entries;
    }
  }

  /** Handling the same entries a second time reads nothing and changes nothing. */
  lemma {:induction false} LoadEachIdempotent(entries: seq<Entry>, done: ReaderState, fileName: string, toFloat: string -> Option<real>)
    requires forall k :: 0 <= k < |entries| ==>
      entries[k].uri in done.timeSeries || !StorageName.HasData(entries[k].uri) || !StorageName.HasData(fileName)
    ensures LoadEach(done, entries, fileName, toFloat) == Ok(done)
    decreases |entries|
  {
    if |entries| > 0 {
      LoadEachIdempotent(entries[..|entries| - 1], done, fileName, toFloat);
    }
  }

  /** `set_time_series` is idempotent: a second call on its result is a no-op. */
  lemma SetTimeSeriesIdempotent(state: ReaderState, entries: seq<Entry>, fileName: string, toFloat: string -> Option<real>)
    requires LoadEach(state, entries, fileName, toFloat).Ok?
    ensures var done := LoadEach(state, entries, fileName, toFloat).value;
      LoadEach(done, entries, fileName, toFloat) == Ok(done)
  {
    var done := LoadEach(state, entries, fileName, toFloat).value;
    LoadedDataUris(state, entries, fileName, toFloat);
    LoadEachIdempotent(entries, done, fileName, toFloat);
  }

  /** After a successful pass every listed data URI has been read. */
  lemma {:induction false} LoadedDataUris(state: ReaderState, entries: seq<Entry>, fileName: string, toFloat: string -> Option<real>)
    requires LoadEach(state, entries, fileName, toFloat).Ok?
    ensures var done := LoadEach(state, entries, fileName, toFloat).value;
      forall k :: 0 <= k < |entries| ==>
        entries[k].uri in done.timeSeries || !StorageName.HasData(entries[k].uri) || !StorageName.HasData(fileName)
    decreases |entries|
  {
    if |entries| > 0 {
      var init := entries[..|entries| - 1];
      LoadedDataUris(state, init, fileName, toFloat);
      var before := LoadEach(state, init, fileName, toFloat).value;
      var done := LoadEach(state, entries, fileName, toFloat).value;
      var e := entries[|entries| - 1];
      LoadOneEffect(before, e, fileName, toFloat);
      forall k | 0 <= k < |entries|
        ensures entries[k].uri in done.timeSeries || !StorageName.HasData(entries[k].uri) || !StorageName.HasData(fileName)
      {
        if k < |init| {
          assert entries[k] == init[k];
        }
      }
    }
  }
}
