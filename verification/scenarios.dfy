/** Directory listings made of whole or partial observations, and what
    `_build_todo_list` makes of them: the listings of the data-source tests,
    any number of complete observations, and the count-only completeness
    rule. */
module Scenarios {
  import Seqs
  import Paths
  import StorageName
  import opened DataSource
  import opened Composable

  /** The files of observation `root` in directory `dir`, one per extension,
      in extension order. */
  function ObsFiles(dir: string, root: string, exts: seq<string>): (files: seq<string>)
    ensures |files| == |exts|
    ensures forall k :: 0 <= k < |exts| ==> files[k] == dir + "/" + root + exts[k]
  {
    if |exts| == 0 then [] else [dir + "/" + root + exts[0]] + ObsFiles(dir, root, exts[1..])
  }

  /** Extensions drawn from the configured seven. */
  predicate Configured(exts: seq<string>) {
    forall k :: 0 <= k < |exts| ==> exts[k] in StorageName.Extensions
  }

  predicate IsSentinelExtension(ext: string) {
    ext == ".lst" || ext == ".md5"
  }

  /** A root and a configured extension make a name without a slash. */
  lemma NamedHasNoSlash(root: string, ext: string)
    requires StorageName.IsRoot(root) && ext in StorageName.Extensions
    ensures '/' !in root + ext
  {
    assert '/' !in ext;
  }

  /** The observation id of `dir/root.ext` is `root`, whatever the directory. */
  lemma ObsIdOfFile(dir: string, root: string, ext: string)
    requires StorageName.IsRoot(root) && ext in StorageName.Extensions
    ensures ObsIdOf(dir + "/" + root + ext) == root
  {
    NamedHasNoSlash(root, ext);
    assert dir + "/" + root + ext == dir + "/" + (root + ext);
    Paths.BasenameOfJoin(dir, root + ext);
    StorageName.RemoveExtensionsOfNamed(root, ext);
  }

  lemma ObsFilesIds(dir: string, root: string, exts: seq<string>)
    requires StorageName.IsRoot(root) && Configured(exts)
    ensures forall k :: 0 <= k < |exts| ==> ObsIdOf(ObsFiles(dir, root, exts)[k]) == root
  {
    forall k | 0 <= k < |exts|
      ensures ObsIdOf(ObsFiles(dir, root, exts)[k]) == root
    {
      ObsIdOfFile(dir, root, exts[k]);
    }
  }

  /** The sentinels among an observation's files are the files of its
      sentinel extensions. */
  lemma {:induction false} ObsFilesSentinels(dir: string, root: string, exts: seq<string>)
    requires Configured(exts)
    ensures Seqs.Filter(ObsFiles(dir, root, exts), IsSentinel)
      == ObsFiles(dir, root, Seqs.Filter(exts, IsSentinelExtension))
  {
    if |exts| > 0 {
      ObsFilesSentinels(dir, root, exts[1..]);
      StorageName.ClassifyNamed(dir + "/" + root, exts[0]);
      assert ObsFiles(dir, root, exts)[1..] == ObsFiles(dir, root, exts[1..]);
      if IsSentinelExtension(exts[0]) {
        var kept := [exts[0]] + Seqs.Filter(exts[1..], IsSentinelExtension);
        assert kept[1..] == Seqs.Filter(exts[1..], IsSentinelExtension);
      }
    }
  }

  /** How many of the extensions are sentinel extensions. */
  function SentinelCount(exts: seq<string>): nat {
    |Seqs.Filter(exts, IsSentinelExtension)|
  }

  /** Two of the first six configured extensions are sentinels. */
  lemma FirstSixSentinels()
    ensures Configured(StorageName.Extensions[..6]) && SentinelCount(StorageName.Extensions[..6]) == 2
  {
    var e := StorageName.Extensions;
    assert e[..6] == e[..2] + e[2..4] + e[4..6];
    Seqs.FilterConcat(e[..2] + e[2..4], e[4..6], IsSentinelExtension);
    Seqs.FilterConcat(e[..2], e[2..4], IsSentinelExtension);
    Seqs.FilterNone(e[..2], IsSentinelExtension);
    Seqs.FilterAll(e[2..4], IsSentinelExtension);
    Seqs.FilterNone(e[4..6], IsSentinelExtension);
  }

  /** All seven configured extensions are configured, and two of them, as
      two of the first six, are sentinels. */
  lemma SentinelExtensions()
    ensures Configured(StorageName.Extensions) && Configured(StorageName.Extensions[..6])
    ensures SentinelCount(StorageName.Extensions) == 2 && SentinelCount(StorageName.Extensions[..6]) == 2
  {
    FirstSixSentinels();
    LastIsNoSentinel();
  }

  /** The seventh configured extension is not a sentinel. */
  lemma LastIsNoSentinel()
    ensures SentinelCount(StorageName.Extensions) == SentinelCount(StorageName.Extensions[..6])
  {
    var e := StorageName.Extensions;
    assert e == e[..6] + [e[6]];
    Seqs.FilterSnoc(e[..6], e[6], IsSentinelExtension);
  }

  /** What a todo list amounts to: the complete record count, the number of
      files left to store, and the failures, successes and moves recorded. */
  datatype Tally = Tally(records: nat, todo: nat, failures: nat, successes: nat, moves: nat)

  function TallyOf(r: TodoList): Tally {
    Tally(r.completeRecordCount, |r.todo|, Failures(r.events), Successes(r.events), Moves(r.events))
  }

  function Plus(a: Tally, b: Tally): Tally {
    Tally(a.records + b.records, a.todo + b.todo, a.failures + b.failures,
          a.successes + b.successes, a.moves + b.moves)
  }

  function Times(n: nat, t: Tally): Tally {
    Tally(n * t.records, n * t.todo, n * t.failures, n * t.successes, n * t.moves)
  }

  /** The tally of a whole observation of `n` files, `s` of them sentinels:
      every file is a record, the sentinels succeed (and are moved when
      cleaning up), the rest is left to do. */
  function WholeTally(n: nat, s: nat, cfg: Config): Tally
    requires s <= n
  {
    Tally(n, n - s, 0, s, if cfg.cleanupWhenStoring then s else 0)
  }

  /** An observation with as many files as there are configured extensions
      passes the grouping whole, and only the sentinel pass acts on it. */
  lemma GroupedWhole(files: seq<string>, root: string, cfg: Config)
    requires forall k :: 0 <= k < |files| ==> ObsIdOf(files[k]) == root
    requires |files| == |cfg.extensions|
    ensures BuildTodo(files, cfg).todo == SentinelRemoval(files, cfg).kept
    ensures BuildTodo(files, cfg).completeRecordCount == |files|
    ensures BuildTodo(files, cfg).events == SentinelRemoval(files, cfg).events
  {
    UniformGroup(files, ObsIdOf, root, |cfg.extensions|);
    assert Grouping(files, cfg) == Pass(files, []);
    assert [] + SentinelRemoval(files, cfg).events == SentinelRemoval(files, cfg).events;
  }

  /** An observation with a file count other than the configured one is
      rejected whole by the grouping, and the sentinel pass sees nothing. */
  lemma GroupedAway(files: seq<string>, root: string, cfg: Config)
    requires forall k :: 0 <= k < |files| ==> ObsIdOf(files[k]) == root
    requires |files| != |cfg.extensions|
    ensures BuildTodo(files, cfg).todo == []
    ensures BuildTodo(files, cfg).completeRecordCount == 0
    ensures BuildTodo(files, cfg).events == Log(files, RejectionOf(cfg))
  {
    GroupingRejectsAll(files, root, cfg);
    NothingToRemove(cfg);
  }

  lemma GroupingRejectsAll(files: seq<string>, root: string, cfg: Config)
    requires forall k :: 0 <= k < |files| ==> ObsIdOf(files[k]) == root
    requires |files| != |cfg.extensions|
    ensures Grouping(files, cfg) == Pass([], Log(files, RejectionOf(cfg)))
  {
    UniformGroup(files, ObsIdOf, root, |cfg.extensions|);
  }

  lemma NothingToRemove(cfg: Config)
    ensures SentinelRemoval([], cfg) == Pass([], [])
  {
  }

  /** The files of one observation, as many as there are configured
      extensions, `s` of them sentinels: every file counts as a record, the
      sentinels succeed (and are moved when cleaning up), the rest is left
      to do, and nothing fails. */
  lemma WholeObservation(files: seq<string>, root: string, s: nat, cfg: Config)
    requires forall k :: 0 <= k < |files| ==> ObsIdOf(files[k]) == root
    requires |files| == |cfg.extensions| && |Seqs.Filter(files, IsSentinel)| == s
    ensures s <= |files| && TallyOf(BuildTodo(files, cfg)) == WholeTally(|files|, s, cfg)
  {
    GroupedWhole(files, root, cfg);
    SentinelRemovalConserves(files, cfg);
    Seqs.FilterPartition(files, IsSentinel);
  }

  /** A todo list holding nothing but the rejection of `files`: every file
      failed, each moved to the failure directory first when cleaning up. */
  lemma RejectedTally(files: seq<string>, cfg: Config)
    ensures var log := Log(files, RejectionOf(cfg));
      TallyOf(TodoList([], 0, log)) == Tally(0, 0, |files|, 0, if cfg.cleanupWhenStoring then |files| else 0)
      && Seqs.Filter(log, IsMove) == (if cfg.cleanupWhenStoring then Log(files, MoveTo(cfg.failureDestination)) else [])
  {
    RejectionLogParts(files, cfg);
    SingleEventLogLength(files);
    MoveLog(files, cfg.failureDestination);
  }

  /** The files of one observation, not as many as there are configured
      extensions: nothing to do, no record, every file failed in listing
      order, each moved to the failure directory first when cleaning up. */
  lemma PartialObservation(files: seq<string>, root: string, cfg: Config)
    requires forall k :: 0 <= k < |files| ==> ObsIdOf(files[k]) == root
    requires |files| != |cfg.extensions|
    ensures BuildTodo(files, cfg).todo == [] && BuildTodo(files, cfg).events == Log(files, RejectionOf(cfg))
    ensures TallyOf(BuildTodo(files, cfg))
      == Tally(0, 0, |files|, 0, if cfg.cleanupWhenStoring then |files| else 0)
    ensures Seqs.Filter(BuildTodo(files, cfg).events, IsMove)
      == (if cfg.cleanupWhenStoring then Log(files, MoveTo(cfg.failureDestination)) else [])
  {
    GroupedAway(files, root, cfg);
    RejectedTally(files, cfg);
  }

  /** All the files of one observation, one per configured extension: each
      is a record, the sentinels succeed, the rest is left to do. */
  lemma CompleteObservation(dir: string, root: string, exts: seq<string>, cfg: Config)
    requires StorageName.IsRoot(root) && Configured(exts) && |exts| == |cfg.extensions|
    ensures SentinelCount(exts) <= |exts|
    ensures TallyOf(BuildTodo(ObsFiles(dir, root, exts), cfg)) == WholeTally(|exts|, SentinelCount(exts), cfg)
  {
    ObsFilesIds(dir, root, exts);
    ObsFilesSentinels(dir, root, exts);
    WholeObservation(ObsFiles(dir, root, exts), root, SentinelCount(exts), cfg);
  }

  /** An observation with a file count other than the configured one:
      nothing to do, no record counted, and every file failed in listing
      order, each moved to the failure directory first when cleaning up. */
  lemma IncompleteObservation(dir: string, root: string, exts: seq<string>, cfg: Config)
    requires StorageName.IsRoot(root) && Configured(exts) && |exts| != |cfg.extensions|
    ensures var files := ObsFiles(dir, root, exts);
      var r := BuildTodo(files, cfg);
      r.todo == [] && r.events == Log(files, RejectionOf(cfg))
      && TallyOf(r) == Tally(0, 0, |exts|, 0, if cfg.cleanupWhenStoring then |exts| else 0)
      && Seqs.Filter(r.events, IsMove) == (if cfg.cleanupWhenStoring then Log(files, MoveTo(cfg.failureDestination)) else [])
  {
    ObsFilesIds(dir, root, exts);
    PartialObservation(ObsFiles(dir, root, exts), root, cfg);
  }

  /** Two todo lists whose logs are each a grouping log followed by a
      sentinel log, and a third that joins their lists, their counts, and
      both grouping logs followed by both sentinel logs: the third tally is
      the sum of the other two. */
  lemma TallyOfJoined(r: TodoList, ra: TodoList, rb: TodoList,
                      ga: seq<Event>, gb: seq<Event>, sa: seq<Event>, sb: seq<Event>)
    requires r.todo == ra.todo + rb.todo
    requires r.completeRecordCount == ra.completeRecordCount + rb.completeRecordCount
    requires r.events == (ga + gb) + (sa + sb) && ra.events == ga + sa && rb.events == gb + sb
    ensures TallyOf(r) == Plus(TallyOf(ra), TallyOf(rb))
  {
    CountsOfConcat(ga + gb, sa + sb);
    CountsOfConcat(ga, gb);
    CountsOfConcat(sa, sb);
    CountsOfConcat(ga, sa);
    CountsOfConcat(gb, sb);
  }

  /** Two listings without an observation in common add up. */
  lemma TodoOfDisjoint(a: seq<string>, b: seq<string>, cfg: Config)
    requires forall i, j :: 0 <= i < |a| && 0 <= j < |b| ==> ObsIdOf(a[i]) != ObsIdOf(b[j])
    ensures var r := BuildTodo(a + b, cfg); var ra := BuildTodo(a, cfg); var rb := BuildTodo(b, cfg);
      r.todo == ra.todo + rb.todo && TallyOf(r) == Plus(TallyOf(ra), TallyOf(rb))
  {
    var ga, gb := Grouping(a, cfg), Grouping(b, cfg);
    var sa, sb := SentinelRemoval(ga.kept, cfg), SentinelRemoval(gb.kept, cfg);
    assert Grouping(a + b, cfg) == Pass(ga.kept + gb.kept, ga.events + gb.events) by {
      GroupingOfDisjoint(a, b, cfg);
    }
    assert SentinelRemoval(ga.kept + gb.kept, cfg) == Pass(sa.kept + sb.kept, sa.events + sb.events) by {
      SentinelRemovalConcat(ga.kept, gb.kept, cfg);
    }
    var r, ra, rb := BuildTodo(a + b, cfg), BuildTodo(a, cfg), BuildTodo(b, cfg);
    assert r.todo == sa.kept + sb.kept && r.completeRecordCount == |ga.kept| + |gb.kept|;
    assert r.events == (ga.events + gb.events) + (sa.events + sb.events);
    TallyOfJoined(r, ra, rb, ga.events, gb.events, sa.events, sb.events);
  }

  /** The listing of complete observations `roots` in one directory, each
      with one file per extension. */
  function Listing(dir: string, roots: seq<string>, exts: seq<string>): seq<string> {
    if |roots| == 0 then [] else ObsFiles(dir, roots[0], exts) + Listing(dir, roots[1..], exts)
  }

  predicate Distinct(roots: seq<string>) {
    forall i, j :: 0 <= i < j < |roots| ==> roots[i] != roots[j]
  }

  predicate AllRoots(roots: seq<string>) {
    forall k :: 0 <= k < |roots| ==> StorageName.IsRoot(roots[k])
  }

  lemma {:induction false} ListingIds(dir: string, roots: seq<string>, exts: seq<string>)
    requires AllRoots(roots) && Configured(exts)
    ensures forall k :: 0 <= k < |Listing(dir, roots, exts)| ==> ObsIdOf(Listing(dir, roots, exts)[k]) in roots
  {
    if |roots| > 0 {
      ListingIds(dir, roots[1..], exts);
      ObsFilesIds(dir, roots[0], exts);
      var head := ObsFiles(dir, roots[0], exts);
      var rest := Listing(dir, roots[1..], exts);
      forall k | 0 <= k < |head + rest|
        ensures ObsIdOf((head + rest)[k]) in roots
      {
        if k >= |head| {
          assert (head + rest)[k] == rest[k - |head|];
          var i :| 0 <= i < |roots[1..]| && roots[1..][i] == ObsIdOf(rest[k - |head|]);
          assert roots[i + 1] == roots[1..][i];
        }
      }
    }
  }

  /** The observation of the first root shares no id with the listing of
      the other, distinct, roots. */
  lemma HeadIsDisjoint(dir: string, roots: seq<string>, exts: seq<string>)
    requires |roots| > 0 && AllRoots(roots) && Distinct(roots) && Configured(exts)
    ensures var head := ObsFiles(dir, roots[0], exts);
      var rest := Listing(dir, roots[1..], exts);
      forall i, j :: 0 <= i < |head| && 0 <= j < |rest| ==> ObsIdOf(head[i]) != ObsIdOf(rest[j])
  {
    var head := ObsFiles(dir, roots[0], exts);
    var rest := Listing(dir, roots[1..], exts);
    ObsFilesIds(dir, roots[0], exts);
    ListingIds(dir, roots[1..], exts);
    forall i, j | 0 <= i < |head| && 0 <= j < |rest|
      ensures ObsIdOf(head[i]) != ObsIdOf(rest[j])
    {
      var m :| 0 <= m < |roots[1..]| && roots[1..][m] == ObsIdOf(rest[j]);
      assert roots[m + 1] != roots[0];
    }
  }

  lemma TimesSucc(n: nat, t: Tally)
    ensures Times(n + 1, t) == Plus(t, Times(n, t))
  {
    assert (n + 1) * t.records == t.records + n * t.records;
    assert (n + 1) * t.todo == t.todo + n * t.todo;
    assert (n + 1) * t.failures == t.failures + n * t.failures;
    assert (n + 1) * t.successes == t.successes + n * t.successes;
    assert (n + 1) * t.moves == t.moves + n * t.moves;
  }

  /** `n` complete observations add up to `n` times one of them. */
  lemma {:induction false} CompleteObservations(dir: string, roots: seq<string>, exts: seq<string>, cfg: Config)
    requires AllRoots(roots) && Distinct(roots) && Configured(exts) && |exts| == |cfg.extensions|
    ensures SentinelCount(exts) <= |exts|
    ensures TallyOf(BuildTodo(Listing(dir, roots, exts), cfg))
      == Times(|roots|, WholeTally(|exts|, SentinelCount(exts), cfg))
  {
    Seqs.FilterPartition(exts, IsSentinelExtension);
    if |roots| == 0 {
      assert Listing(dir, roots, exts) == [];
      assert BuildTodo([], cfg) == TodoList([], 0, []);
    } else {
      var head := ObsFiles(dir, roots[0], exts);
      var rest := Listing(dir, roots[1..], exts);
      assert Listing(dir, roots, exts) == head + rest;
      var one := WholeTally(|exts|, SentinelCount(exts), cfg);
      CompleteObservations(dir, roots[1..], exts, cfg);
      CompleteObservation(dir, roots[0], exts, cfg);
      HeadIsDisjoint(dir, roots, exts);
      TodoOfDisjoint(head, rest, cfg);
      TimesSucc(|roots| - 1, one);
    }
  }

  /** Six complete observations, as in the runner test: 42 records, 30
      files to store, 12 sentinels succeeded, nothing failed. */
  lemma SixObservations(dir: string, roots: seq<string>, cfg: Config)
    requires |roots| == 6 && AllRoots(roots) && Distinct(roots) && |cfg.extensions| == 7
    ensures var t := TallyOf(BuildTodo(Listing(dir, roots, StorageName.Extensions), cfg));
      t.records == 42 && t.todo == 30 && t.failures == 0 && t.successes == 12
  {
    SentinelExtensions();
    CompleteObservations(dir, roots, StorageName.Extensions, cfg);
  }

  /** The first data-source test: one complete observation with cleanup on
      leaves 5 to do and 2 successes, each with a move (7 = 5 + 0 + 2). */
  lemma NominalListing(dir: string, cfg: Config)
    requires |cfg.extensions| == 7 && cfg.cleanupWhenStoring
    ensures TallyOf(BuildTodo(ObsFiles(dir, "A", StorageName.Extensions), cfg)) == Tally(7, 5, 0, 2, 2)
  {
    assert StorageName.IsRoot("A") by { assert "A"[0] != '.'; }
    SentinelExtensions();
    CompleteObservation(dir, "A", StorageName.Extensions, cfg);
  }

  /** The second data-source test: the `.rlogdb` file is missing, so all six
      files fail, each moved to the failure directory in listing order
      (6 = 0 + 6 + 0). */
  lemma MissingFileListing(dir: string, cfg: Config)
    requires |cfg.extensions| == 7 && cfg.cleanupWhenStoring
    ensures var files := ObsFiles(dir, "A", StorageName.Extensions[..6]);
      var r := BuildTodo(files, cfg);
      var moves := Seqs.Filter(r.events, IsMove);
      r.todo == [] && TallyOf(r) == Tally(0, 0, 6, 0, 6)
      && forall k :: 0 <= k < 6 ==>
           moves[k] == Moved(dir + "/A" + StorageName.Extensions[k], cfg.failureDestination)
  {
    var exts := StorageName.Extensions[..6];
    var files := ObsFiles(dir, "A", exts);
    assert StorageName.IsRoot("A") by { assert "A"[0] != '.'; }
    assert Configured(exts) && |exts| == 6 by { SentinelExtensions(); }
    IncompleteObservation(dir, "A", exts, cfg);
    assert forall k :: 0 <= k < 6 ==>
             Log(files, MoveTo(cfg.failureDestination))[k] == Moved(dir + "/A" + StorageName.Extensions[k], cfg.failureDestination) by {
      MoveLog(files, cfg.failureDestination);
      forall k | 0 <= k < 6
        ensures files[k] == dir + "/A" + StorageName.Extensions[k]
      {
        assert dir + "/" + "A" == dir + "/A";
      }
    }
  }

  /** Two observations in one listing, one partial and one whole: the
      partial one's files all fail and the whole one is stored. */
  lemma PartialThenWhole(a: seq<string>, rootA: string, b: seq<string>, rootB: string, s: nat, cfg: Config)
    requires forall k :: 0 <= k < |a| ==> ObsIdOf(a[k]) == rootA
    requires forall k :: 0 <= k < |b| ==> ObsIdOf(b[k]) == rootB
    requires rootA != rootB && |a| != |cfg.extensions| && |b| == |cfg.extensions|
    requires |Seqs.Filter(b, IsSentinel)| == s
    ensures s <= |b|
    ensures TallyOf(BuildTodo(a + b, cfg))
      == Plus(Tally(0, 0, |a|, 0, if cfg.cleanupWhenStoring then |a| else 0), WholeTally(|b|, s, cfg))
  {
    PartialObservation(a, rootA, cfg);
    WholeObservation(b, rootB, s, cfg);
    TodoOfDisjoint(a, b, cfg);
  }

  /** The ids of the third data-source test's observations: `A` without its
      `.rlogdb`, and `B` whole. */
  lemma MixedBagIds(dir: string)
    ensures var a := ObsFiles(dir, "A", StorageName.Extensions[..6]);
      |a| == 6 && forall k :: 0 <= k < |a| ==> ObsIdOf(a[k]) == "A"
    ensures var b := ObsFiles(dir, "B", StorageName.Extensions);
      |b| == 7 && (forall k :: 0 <= k < |b| ==> ObsIdOf(b[k]) == "B")
      && |Seqs.Filter(b, IsSentinel)| == 2
  {
    assert StorageName.IsRoot("A") by { assert "A"[0] != '.'; }
    assert StorageName.IsRoot("B") by { assert "B"[0] != '.'; }
    SentinelExtensions();
    ObsFilesIds(dir, "A", StorageName.Extensions[..6]);
    ObsFilesIds(dir, "B", StorageName.Extensions);
    ObsFilesSentinels(dir, "B", StorageName.Extensions);
  }

  /** The third data-source test: an incomplete `A` and a complete `B` with
      cleanup off leave 5 to do, 6 failures, 2 successes and no move
      (13 = 5 + 6 + 2). */
  lemma MixedBagListing(dir: string, cfg: Config)
    requires |cfg.extensions| == 7 && !cfg.cleanupWhenStoring
    ensures var listing := ObsFiles(dir, "A", StorageName.Extensions[..6]) + ObsFiles(dir, "B", StorageName.Extensions);
      |listing| == 13 && TallyOf(BuildTodo(listing, cfg)) == Tally(7, 5, 6, 2, 0)
  {
    MixedBagIds(dir);
    PartialThenWhole(ObsFiles(dir, "A", StorageName.Extensions[..6]), "A",
                     ObsFiles(dir, "B", StorageName.Extensions), "B", 2, cfg);
  }

  /** A listing where observation `A` has seven files though `.avedb` comes
      twice, from two directories, and `.rlogdb` is missing. */
  function DoubledListing(d1: string, d2: string): seq<string> {
    ObsFiles(d1, "A", [".avedb"]) + ObsFiles(d2, "A", StorageName.Extensions[..6])
  }

  lemma DoubledListingShape(d1: string, d2: string)
    ensures |DoubledListing(d1, d2)| == 7
    ensures forall k :: 0 <= k < |DoubledListing(d1, d2)| ==> ObsIdOf(DoubledListing(d1, d2)[k]) == "A"
    ensures |Seqs.Filter(DoubledListing(d1, d2), IsSentinel)| == 2
  {
    var a := ObsFiles(d1, "A", [".avedb"]);
    var b := ObsFiles(d2, "A", StorageName.Extensions[..6]);
    assert StorageName.IsRoot("A") by { assert "A"[0] != '.'; }
    SentinelExtensions();
    assert forall k :: 0 <= k < |a + b| ==> ObsIdOf((a + b)[k]) == "A" by {
      ObsFilesIds(d1, "A", [".avedb"]);
      ObsFilesIds(d2, "A", StorageName.Extensions[..6]);
      forall k | 0 <= k < |a + b|
        ensures ObsIdOf((a + b)[k]) == "A"
      {
        if k >= |a| {
          assert (a + b)[k] == b[k - |a|];
        }
      }
    }
    assert |Seqs.Filter(a + b, IsSentinel)| == 2 by {
      ObsFilesSentinels(d1, "A", [".avedb"]);
      assert Seqs.Filter([".avedb"], IsSentinelExtension) == [];
      ObsFilesSentinels(d2, "A", StorageName.Extensions[..6]);
      Seqs.FilterConcat(a, b, IsSentinel);
    }
  }

  /** Completeness is a count: the doubled listing is taken for a complete
      observation, seven records and five files to store, the two sentinels
      succeeded, nothing failed. */
  lemma CountOnlyCompleteness(d1: string, d2: string, cfg: Config)
    requires |cfg.extensions| == 7
    ensures TallyOf(BuildTodo(DoubledListing(d1, d2), cfg)) == WholeTally(7, 2, cfg)
  {
    DoubledListingShape(d1, d2);
    WholeObservation(DoubledListing(d1, d2), "A", 2, cfg);
  }

  /** Why grouping must come first: with the sentinels removed beforehand,
      a complete observation that has sentinels is left with fewer files
      than configured and is rejected whole. */
  lemma SentinelsFirstRejectComplete(dir: string, root: string, exts: seq<string>, cfg: Config)
    requires StorageName.IsRoot(root) && Configured(exts) && |exts| == |cfg.extensions|
    requires SentinelCount(exts) > 0
    ensures var left := SentinelRemoval(ObsFiles(dir, root, exts), cfg).kept;
      |left| == |exts| - SentinelCount(exts)
      && Grouping(left, cfg).kept == [] && Failures(Grouping(left, cfg).events) == |left|
  {
    var files := ObsFiles(dir, root, exts);
    var left := SentinelRemoval(files, cfg).kept;
    ObsFilesIds(dir, root, exts);
    ObsFilesSentinels(dir, root, exts);
    Seqs.FilterPartition(files, IsSentinel);
    FilterKeepsKey(files, Seqs.Not(IsSentinel), ObsIdOf, root);
    UniformGroup(left, ObsIdOf, root, |cfg.extensions|);
    RejectionLogParts(left, cfg);
    SingleEventLogLength(left);
  }
}
