/** The few operations on Python `str` values the ingestion code relies on:
    `endswith`, `in`, `find`, `replace`, `split(sep, 1)`, `strip()`, `split()`
    and `str(n)` for a natural number. */
module Strings {
  import opened Wrappers

  predicate StartsWith(s: string, prefix: string) {
    |prefix| <= |s| && s[..|prefix|] == prefix
  }

  predicate EndsWith(s: string, suffix: string) {
    |suffix| <= |s| && s[|s| - |suffix|..] == suffix
  }

  /** `sub` occurs in `s` starting at index `i`. */
  predicate OccursAt(s: string, sub: string, i: nat) {
    i + |sub| <= |s| && s[i..i + |sub|] == sub
  }

  /** Python's `sub in s`. */
  predicate Contains(s: string, sub: string) {
    exists i: nat :: i + |sub| <= |s| && OccursAt(s, sub, i)
  }

  /** A suffix of a concatenation that fits in the right operand is decided by that operand alone. */
  lemma EndsWithConcat(root: string, e: string, suffix: string)
    requires |suffix| <= |e|
    ensures EndsWith(root + e, suffix) <==> EndsWith(e, suffix)
  {
    var s := root + e;
    assert s[|s| - |suffix|..] == e[|e| - |suffix|..];
  }

  /** Two suffixes of one string: the shorter is a suffix of the longer. */
  lemma EndsWithBoth(s: string, a: string, b: string)
    requires EndsWith(s, a) && EndsWith(s, b) && |b| <= |a|
    ensures EndsWith(a, b)
  {
    assert a[|a| - |b|..] == s[|s| - |b|..];
  }

  /** First index at or after `from` where `sub` occurs (Python's `s.find(sub, from)`). */
  function FindFrom(s: string, sub: string, from: nat): (r: Option<nat>)
    requires from <= |s|
    ensures r.Some? ==> from <= r.value && OccursAt(s, sub, r.value)
    ensures r.Some? ==> forall j: nat :: from <= j < r.value ==> !OccursAt(s, sub, j)
    ensures r.None? ==> forall j: nat :: from <= j ==> !OccursAt(s, sub, j)
    decreases |s| - from
  {
    if OccursAt(s, sub, from) then Some(from)
    else if from == |s| then None
    else FindFrom(s, sub, from + 1)
  }

  /** First occurrence of `sub` in `s`, or None when it does not occur. */
  function Find(s: string, sub: string): (r: Option<nat>)
    ensures r.Some? ==> OccursAt(s, sub, r.value)
    ensures r.Some? ==> forall j: nat :: j < r.value ==> !OccursAt(s, sub, j)
    ensures r.None? ==> forall j: nat :: !OccursAt(s, sub, j)
  {
    FindFrom(s, sub, 0)
  }

  /** `sub in s` exactly when `s.find(sub)` finds it. */
  lemma ContainsIffFound(s: string, sub: string)
    ensures Contains(s, sub) <==> Find(s, sub).Some?
  {
    var f := Find(s, sub);
    if f.Some? {
      assert OccursAt(s, sub, f.value);
    }
  }

  /** The text of `s` before the first occurrence of `sub` does not contain `sub`. */
  lemma PrefixBeforeFirstIsFree(s: string, sub: string, i: nat)
    requires |sub| > 0 && OccursAt(s, sub, i)
    requires forall j: nat :: j < i ==> !OccursAt(s, sub, j)
    ensures !Contains(s[..i], sub)
  {
    forall j: nat | j + |sub| <= i
      ensures !OccursAt(s[..i], sub, j)
    {
      assert !OccursAt(s, sub, j);
      assert s[..i][j..j + |sub|] == s[j..j + |sub|];
    }
  }

  /** Python's `s.split(sep)` for a non-empty separator: the pieces between
      the non-overlapping occurrences of `sep`, found left to right. */
  function Split(s: string, sep: string): (pieces: seq<string>)
    requires |sep| > 0
    ensures |pieces| > 0
    ensures forall k :: 0 <= k < |pieces| ==> !Contains(pieces[k], sep)
    ensures Join(pieces, sep) == s
    decreases |s|
  {
    match Find(s, sep)
    case None => [s]
    case Some(i) =>
      PrefixBeforeFirstIsFree(s, sep, i);
      var rest := Split(s[i + |sep|..], sep);
      assert s == s[..i] + sep + s[i + |sep|..];
      [s[..i]] + rest
  }

  /** `glue.join(pieces)`. */
  function Join(pieces: seq<string>, glue: string): string
    requires |pieces| > 0
  {
    if |pieces| == 1 then pieces[0] else pieces[0] + glue + Join(pieces[1..], glue)
  }

  /** Python's `s.replace(target, replacement)`: every non-overlapping occurrence of
      `target`, scanning left to right, is replaced by `replacement`; an empty `target`
      inserts `replacement` before every character and at the end. */
  function Replace(s: string, target: string, replacement: string): string
    decreases |s|
  {
    if |target| == 0 then Interleave(s, replacement)
    else
      var found := Find(s, target);
      if found.None? then s
      else s[..found.value] + replacement + Replace(s[found.value + |target|..], target, replacement)
  }

  function Interleave(s: string, glue: string): string
    decreases |s|
  {
    if |s| == 0 then glue else glue + [s[0]] + Interleave(s[1..], glue)
  }

  /** Replacing is joining the `sep`-free pieces of `s` with the replacement text:
      no occurrence of `target` is left behind in the original material. */
  lemma {:induction false} ReplaceIsSplitJoin(s: string, target: string, replacement: string)
    requires |target| > 0
    ensures Replace(s, target, replacement) == Join(Split(s, target), replacement)
    decreases |s|
  {
    match Find(s, target)
    case None =>
    case Some(i) =>
      ReplaceIsSplitJoin(s[i + |target|..], target, replacement);
  }

  /** A text that does not occur is not replaced: the string comes back unchanged. */
  lemma ReplaceAbsent(s: string, target: string, replacement: string)
    requires |target| > 0 && !Contains(s, target)
    ensures Replace(s, target, replacement) == s
  {
    ContainsIffFound(s, target);
  }

  /** Replacing a text by itself changes nothing. */
  lemma ReplaceSelf(s: string, target: string)
    ensures Replace(s, target, target) == s
  {
    if |target| == 0 {
      InterleaveEmpty(s);
    } else {
      ReplaceSelfNonEmpty(s, target);
    }
  }

  lemma {:induction false} ReplaceSelfNonEmpty(s: string, target: string)
    requires |target| > 0
    ensures Replace(s, target, target) == s
    decreases |s|
  {
    if Find(s, target).Some? {
      var i := Find(s, target).value;
      var rest := s[i + |target|..];
      ReplaceSelfNonEmpty(rest, target);
      ReplaceFirst(s, target, target, i);
    }
  }

  /** One step of `replace`: the text up to the first occurrence, the replacement, and the rest replaced. */
  lemma ReplaceFirst(s: string, target: string, replacement: string, i: nat)
    requires |target| > 0 && Find(s, target) == Some(i)
    ensures Replace(s, target, replacement) == s[..i] + replacement + Replace(s[i + |target|..], target, replacement)
    ensures s == s[..i] + target + s[i + |target|..]
  {
    assert s[i..i + |target|] == target;
    assert s == s[..i] + s[i..i + |target|] + s[i + |target|..];
  }

  lemma {:induction false} InterleaveEmpty(s: string)
    ensures Interleave(s, "") == s
    decreases |s|
  {
    if |s| > 0 {
      InterleaveEmpty(s[1..]);
      assert s == [s[0]] + s[1..];
    }
  }

  /** Python's `s.split(sep, 1)`: one piece when `sep` does not occur,
      otherwise the text before and after its first occurrence. */
  function SplitOnce(s: string, sep: string): (r: seq<string>)
    requires |sep| > 0
    ensures |r| == 1 || |r| == 2
    ensures |r| == 1 ==> r[0] == s && !Contains(s, sep)
    ensures |r| == 2 ==> r[0] + sep + r[1] == s && !Contains(r[0], sep)
  {
    match Find(s, sep)
    case None => [s]
    case Some(i) =>
      PrefixBeforeFirstIsFree(s, sep, i);
      assert s == s[..i] + sep + s[i + |sep|..];
      [s[..i], s[i + |sep|..]]
  }

  /** The first occurrence is at `i` when `sub` occurs there and nowhere before. */
  lemma FindAt(s: string, sub: string, i: nat)
    requires OccursAt(s, sub, i)
    requires forall j: nat :: j < i ==> !OccursAt(s, sub, j)
    ensures Find(s, sub) == Some(i)
  {
  }

  /** A text whose first character does not occur in `s` is not found in it. */
  lemma AbsentLead(s: string, sub: string)
    requires |sub| > 0 && sub[0] !in s
    ensures !Contains(s, sub) && Find(s, sub).None?
  {
    forall j: nat | j + |sub| <= |s|
      ensures !OccursAt(s, sub, j)
    {
      assert s[j..j + |sub|][0] == s[j];
    }
    ContainsIffFound(s, sub);
  }

  /** `(a + c + b).split(c, 1) == [a, b]` for a one-character separator `c` absent from `a`. */
  lemma SplitOnceAt(a: string, sep: string, b: string)
    requires |sep| == 1 && sep[0] !in a
    ensures SplitOnce(a + sep + b, sep) == [a, b]
  {
    var s := a + sep + b;
    forall j: nat | j < |a|
      ensures !OccursAt(s, sep, j)
    {
      assert s[j] == a[j];
      assert s[j..j + 1][0] == s[j];
    }
    assert s[|a|..|a| + 1] == sep;
    FindAt(s, sep, |a|);
    assert s[..|a|] == a;
    assert s[|a| + 1..] == b;
  }

  /** The characters Python's `str.isspace` accepts. */
  predicate IsSpace(c: char) {
    c == ' ' || ('\t' <= c <= '\r') || ('\U{1C}' <= c <= '\U{1F}') || c == '\U{85}' || c == '\U{A0}'
    || c == '\U{1680}' || ('\U{2000}' <= c <= '\U{200A}') || c == '\U{2028}' || c == '\U{2029}'
    || c == '\U{202F}' || c == '\U{205F}' || c == '\U{3000}'
  }

  predicate NoSpace(s: string) {
    forall k :: 0 <= k < |s| ==> !IsSpace(s[k])
  }

  predicate AllSpace(s: string) {
    forall k :: 0 <= k < |s| ==> IsSpace(s[k])
  }

  function StripLeft(s: string): (r: string)
    ensures |r| <= |s| && r == s[|s| - |r|..]
    ensures AllSpace(s[..|s| - |r|])
    ensures |r| > 0 ==> !IsSpace(r[0])
  {
    if |s| > 0 && IsSpace(s[0]) then StripLeft(s[1..]) else s
  }

  function StripRight(s: string): (r: string)
    ensures |r| <= |s| && r == s[..|r|]
    ensures AllSpace(s[|r|..])
    ensures |r| > 0 ==> !IsSpace(r[|r| - 1])
  {
    if |s| > 0 && IsSpace(s[|s| - 1]) then StripRight(s[..|s| - 1]) else s
  }

  /** Python's `s.strip()`: the slice of `s` left after removing whitespace at both ends. */
  function Strip(s: string): (r: string)
    ensures exists i, j :: 0 <= i <= j <= |s| && r == s[i..j] && AllSpace(s[..i]) && AllSpace(s[j..])
    ensures |r| > 0 ==> !IsSpace(r[0]) && !IsSpace(r[|r| - 1])
  {
    var left := StripLeft(s);
    var r := StripRight(left);
    var i := |s| - |left|;
    assert s[i..i + |r|] == r;
    assert s[i + |r|..] == left[|r|..];
    r
  }

  /** No whitespace at either end: what `strip()` leaves unchanged. */
  predicate Trimmed(s: string) {
    |s| == 0 || (!IsSpace(s[0]) && !IsSpace(s[|s| - 1]))
  }

  lemma {:induction false} StripLeftOf(pad: string, rest: string)
    requires AllSpace(pad) && (|rest| == 0 || !IsSpace(rest[0]))
    ensures StripLeft(pad + rest) == rest
    decreases |pad|
  {
    if |pad| > 0 {
      assert (pad + rest)[1..] == pad[1..] + rest;
      StripLeftOf(pad[1..], rest);
    } else {
      assert pad + rest == rest;
    }
  }

  lemma {:induction false} StripRightOf(rest: string, pad: string)
    requires AllSpace(pad) && (|rest| == 0 || !IsSpace(rest[|rest| - 1]))
    ensures StripRight(rest + pad) == rest
    decreases |pad|
  {
    if |pad| > 0 {
      var s := rest + pad;
      assert s[..|s| - 1] == rest + pad[..|pad| - 1];
      StripRightOf(rest, pad[..|pad| - 1]);
    } else {
      assert rest + pad == rest;
    }
  }

  /** `strip()` gives back a trimmed text from between any whitespace padding. */
  lemma StripPadded(left: string, core: string, right: string)
    requires AllSpace(left) && AllSpace(right) && Trimmed(core)
    ensures Strip(left + core + right) == core
  {
    if |core| == 0 {
      assert left + core + right == (left + right) + "";
      StripLeftOf(left + right, "");
    } else {
      assert left + core + right == left + (core + right);
      StripLeftOf(left, core + right);
      StripRightOf(core, right);
    }
  }

  /** Length of the run of non-space characters that starts `s`. */
  function WordLength(s: string): (n: nat)
    ensures n <= |s| && NoSpace(s[..n])
    ensures n < |s| ==> IsSpace(s[n])
  {
    if |s| == 0 || IsSpace(s[0]) then 0
    else
      var m := WordLength(s[1..]);
      assert s[..1 + m] == [s[0]] + s[1..][..m];
      1 + m
  }

  /** Python's `s.split()`: the maximal runs of non-whitespace characters, in order. */
  function Tokens(s: string): (ts: seq<string>)
    ensures forall k :: 0 <= k < |ts| ==> |ts[k]| > 0 && NoSpace(ts[k])
    decreases |s|
  {
    if |s| == 0 then []
    else if IsSpace(s[0]) then Tokens(s[1..])
    else
      var n := WordLength(s);
      [s[..n]] + Tokens(s[n..])
  }

  /** A whitespace-only string has no tokens. */
  lemma {:induction false} TokensOfSpace(s: string)
    requires AllSpace(s)
    ensures Tokens(s) == []
    decreases |s|
  {
    if |s| > 0 {
      TokensOfSpace(s[1..]);
    }
  }

  lemma WordLengthOfWord(w: string, rest: string)
    requires |w| > 0 && NoSpace(w)
    requires |rest| == 0 || IsSpace(rest[0])
    ensures WordLength(w + rest) == |w|
    decreases |w|
  {
    if |w| > 1 {
      assert (w + rest)[1..] == w[1..] + rest;
      WordLengthOfWord(w[1..], rest);
    } else {
      assert (w + rest)[1..] == rest;
    }
  }

  /** `" ".join(ts).split() == ts` for non-empty whitespace-free tokens. */
  lemma {:induction false} TokensOfJoin(ts: seq<string>)
    requires |ts| > 0
    requires forall k :: 0 <= k < |ts| ==> |ts[k]| > 0 && NoSpace(ts[k])
    ensures Tokens(Join(ts, " ")) == ts
    decreases |ts|
  {
    var s := Join(ts, " ");
    if |ts| == 1 {
      WordLengthOfWord(ts[0], "");
      assert s == ts[0] + "";
      assert s[|ts[0]|..] == [];
    } else {
      var rest := Join(ts[1..], " ");
      assert s == ts[0] + (" " + rest);
      WordLengthOfWord(ts[0], " " + rest);
      assert s[..|ts[0]|] == ts[0];
      assert s[|ts[0]|..] == " " + rest;
      assert (" " + rest)[1..] == rest;
      TokensOfJoin(ts[1..]);
      assert ts == [ts[0]] + ts[1..];
    }
  }

  function DigitChar(d: nat): char
    requires d < 10
  {
    "0123456789"[d]
  }

  /** Python's `str(n)` for a natural number. */
  function Decimal(n: nat): (r: string)
    ensures |r| > 0
    ensures forall k :: 0 <= k < |r| ==> '0' <= r[k] <= '9'
    ensures |r| > 1 ==> r[0] != '0'
  {
    if n < 10 then [DigitChar(n)] else Decimal(n / 10) + [DigitChar(n % 10)]
  }

  /** Reads back a string of decimal digits. */
  function DecimalValue(s: string): nat
    requires forall k :: 0 <= k < |s| ==> '0' <= s[k] <= '9'
  {
    if |s| == 0 then 0 else 10 * DecimalValue(s[..|s| - 1]) + (s[|s| - 1] as int - '0' as int)
  }

  /** `int(str(n)) == n`, so distinct numbers print differently. */
  lemma {:induction false} DecimalRoundTrip(n: nat)
    ensures DecimalValue(Decimal(n)) == n
  {
    if n >= 10 {
      DecimalRoundTrip(n / 10);
      var r := Decimal(n);
      assert r[..|r| - 1] == Decimal(n / 10);
    }
  }

  lemma DecimalInjective(m: nat, n: nat)
    requires Decimal(m) == Decimal(n)
    ensures m == n
  {
    DecimalRoundTrip(m);
    DecimalRoundTrip(n);
  }
}
