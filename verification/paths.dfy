/** The POSIX flavour of Python's `os.path.basename`, `os.path.dirname`
    and `os.path.splitext`, which the file names of an observation go through. */
module Paths {

  /** Python's `s.rfind(c)`: the last index holding `c`, or -1. */
  function RFind(s: string, c: char): (i: int)
    ensures -1 <= i < |s|
    ensures i >= 0 ==> s[i] == c
    ensures forall j :: i < j < |s| ==> s[j] != c
  {
    if |s| == 0 then -1
    else if s[|s| - 1] == c then |s| - 1
    else RFind(s[..|s| - 1], c)
  }

  /** A string holding no `c` has none to find. */
  lemma RFindAbsent(s: string, c: char)
    requires c !in s
    ensures RFind(s, c) == -1
  {
    forall j | 0 <= j < |s|
      ensures s[j] != c
    {
      assert s[j] in s;
    }
  }

  /** The last `c` is at `i` when `s[i]` is `c` and nothing after it is. */
  lemma RFindAt(s: string, c: char, i: nat)
    requires i < |s| && s[i] == c
    requires forall j :: i < j < |s| ==> s[j] != c
    ensures RFind(s, c) == i
  {
  }

  /** `os.path.basename`: everything after the last slash. */
  function Basename(p: string): (r: string)
    ensures '/' !in r
    ensures |r| <= |p| && r == p[|p| - |r|..]
  {
    var r := p[RFind(p, '/') + 1..];
    assert forall k :: 0 <= k < |r| ==> r[k] == p[RFind(p, '/') + 1 + k];
    r
  }

  /** A name without slashes is its own basename under any directory. */
  lemma BasenameOfJoin(dir: string, name: string)
    requires '/' !in name
    ensures Basename(dir + "/" + name) == name
  {
    var p := dir + "/" + name;
    forall j | |dir| < j < |p|
      ensures p[j] != '/'
    {
      assert p[j] == name[j - |dir| - 1];
    }
    RFindAt(p, '/', |dir|);
    assert p[|dir| + 1..] == name;
  }

  lemma BasenameOfName(name: string)
    requires '/' !in name
    ensures Basename(name) == name
  {
    RFindAbsent(name, '/');
  }

  predicate AllSlashes(s: string) {
    forall k :: 0 <= k < |s| ==> s[k] == '/'
  }

  function RStripSlashes(s: string): (r: string)
    ensures |r| <= |s| && r == s[..|r|] && AllSlashes(s[|r|..])
    ensures |r| > 0 ==> r[|r| - 1] != '/'
  {
    if |s| > 0 && s[|s| - 1] == '/' then RStripSlashes(s[..|s| - 1]) else s
  }

  /** Stripping trailing slashes never reaches back past a non-slash character. */
  lemma {:induction false} RStripKeeps(s: string, j: nat)
    requires j < |s| && s[j] != '/'
    ensures |RStripSlashes(s)| > j
    decreases |s|
  {
    if s[|s| - 1] == '/' {
      RStripKeeps(s[..|s| - 1], j);
    }
  }

  /** `os.path.dirname`: the text up to the last slash, with trailing
      slashes removed unless it consists of slashes only. */
  function Dirname(p: string): string {
    var head := p[..RFind(p, '/') + 1];
    if |head| > 0 && !AllSlashes(head) then RStripSlashes(head) else head
  }

  /** The directory part is empty exactly when the path has no slash. */
  lemma DirnameEmptyIff(p: string)
    ensures Dirname(p) == "" <==> '/' !in p
  {
    var i := RFind(p, '/');
    var head := p[..i + 1];
    if '/' in p {
      var k :| 0 <= k < |p| && p[k] == '/';
      assert i >= k;
      if !AllSlashes(head) {
        var j :| 0 <= j < |head| && head[j] != '/';
        RStripKeeps(head, j);
      }
    } else {
      RFindAbsent(p, '/');
    }
  }

  predicate AllDots(s: string) {
    forall k :: 0 <= k < |s| ==> s[k] == '.'
  }

  /** The shape of an extension as `splitext` returns it: empty, or a dot
      followed by characters that are neither dots nor slashes. */
  predicate IsExtension(e: string) {
    |e| == 0 || (e[0] == '.' && forall k :: 1 <= k < |e| ==> e[k] != '.' && e[k] != '/')
  }

  /** `os.path.splitext`: splits off the text from the last dot of the last
      path component, unless that component has nothing but dots before it. */
  function SplitExt(p: string): (r: (string, string))
    ensures r.0 + r.1 == p
    ensures IsExtension(r.1)
    ensures |r.1| > 0 ==> !AllDots(r.0[RFind(r.0, '/') + 1..])
  {
    var sep := RFind(p, '/');
    var dot := RFind(p, '.');
    if dot > sep && !AllDots(p[sep + 1..dot]) then
      var root := p[..dot];
      assert RFind(root, '/') == sep by {
        if sep >= 0 {
          RFindAt(root, '/', sep);
        } else {
          assert '/' !in root;
          RFindAbsent(root, '/');
        }
      }
      assert root[sep + 1..] == p[sep + 1..dot];
      (root, p[dot..])
    else
      (p, "")
  }

  /** A root that holds no slash and is not made of dots only loses exactly a
      trailing extension: `splitext("x.y" + ".orig") == ("x.y", ".orig")`. */
  lemma SplitExtOfRoot(root: string, ext: string)
    requires '/' !in root && !AllDots(root)
    requires |ext| > 0 && IsExtension(ext)
    ensures SplitExt(root + ext) == (root, ext)
  {
    var p := root + ext;
    forall j | 0 <= j < |p|
      ensures p[j] != '/'
    {
      if j < |root| {
        assert p[j] == root[j];
        assert root[j] in root;
      } else {
        assert p[j] == ext[j - |root|];
      }
    }
    assert '/' !in p;
    RFindAbsent(p, '/');
    forall j | |root| < j < |p|
      ensures p[j] != '.'
    {
      assert p[j] == ext[j - |root|];
    }
    RFindAt(p, '.', |root|);
    assert p[0..|root|] == root;
    assert p[|root|..] == ext;
  }

  /** A name whose only dots lead it has no extension: `splitext(".bashrc")` keeps the name. */
  lemma SplitExtLeadingDots(dots: string, rest: string)
    requires AllDots(dots)
    requires '.' !in rest && '/' !in rest
    ensures SplitExt(dots + rest) == (dots + rest, "")
  {
    var p := dots + rest;
    forall j | 0 <= j < |p|
      ensures p[j] != '/'
    {
      if j >= |dots| {
        assert p[j] == rest[j - |dots|];
        assert rest[j - |dots|] in rest;
      }
    }
    assert '/' !in p;
    RFindAbsent(p, '/');
    forall j | |dots| <= j < |p|
      ensures p[j] != '.'
    {
      assert p[j] == rest[j - |dots|];
      assert rest[j - |dots|] in rest;
    }
    if |dots| == 0 {
      assert '.' !in p;
      RFindAbsent(p, '.');
    } else {
      RFindAt(p, '.', |dots| - 1);
      assert AllDots(p[0..|dots| - 1]);
    }
  }
}
