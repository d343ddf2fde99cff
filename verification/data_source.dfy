/** The BRITE-Constellation local-files data source: the two passes that
    reconcile the flat directory listing with the seven-file observations
    (`group_work_by_obs`, `remove_unarchived`), and the sentinel rules of
    `clean_up` and `default_filter`.

    Moving a file and capturing a failure or success in the execution report
    are side effects of the source; here they are the events of a log. */
module DataSource {
  import Paths
  import Seqs
  import StorageName

  datatype Config = Config(
    extensions: seq<string>,
    cleanupWhenStoring: bool,
    failureDestination: string,
    successDestination: string)

  /** A move of a file, a failure captured for an entry, or a success
      captured for an observation id and file name. */
  datatype Event =
    | Moved(entry: string, destination: string)
    | Failed(entry: string, reason: string)
    | Succeeded(obsId: string, fileName: string)

  /** A pass over the work list: what is left of it, and what it recorded. */
  datatype Pass = Pass(kept: seq<string>, events: seq<Event>)

  const ManifestErrors: string := "manifest errors"

  /** `_get_obs_id_from_fqn`. */
  function ObsIdOf(fqn: string): string {
    StorageName.RemoveExtensions(Paths.Basename(fqn))
  }

  /** The entries whose key is `id`. */
  function SameKey(key: string -> string, id: string): string -> bool {
    fqn => key(fqn) == id
  }

  /** How often `id` occurs as a key over the work list: a `Counter` lookup. */
  function KeyCount(work: seq<string>, key: string -> string, id: string): nat {
    |Seqs.Filter(work, SameKey(key, id))|
  }

  /** An entry whose key does not occur exactly `n` times. */
  function IncompleteBy(work: seq<string>, key: string -> string, n: nat): string -> bool {
    fqn => KeyCount(work, key, key(fqn)) != n
  }

  /** The `Counter` of observation ids over the work list, at `id`. */
  function ObsCount(work: seq<string>, id: string): nat {
    KeyCount(work, ObsIdOf, id)
  }

  /** An entry whose observation id does not occur exactly `n` times. */
  function Incomplete(work: seq<string>, n: nat): string -> bool {
    IncompleteBy(work, ObsIdOf, n)
  }

  /** A `.lst` or `.md5` file: tracked, but never stored or ingested. */
  predicate IsSentinel(fqn: string) {
    !StorageName.IsArchived(fqn)
  }

  predicate IsMove(e: Event) { e.Moved? }
  predicate IsFailure(e: Event) { e.Failed? }
  predicate IsSuccess(e: Event) { e.Succeeded? }

  /** The events of each entry, in entry order. */
  function Log(entries: seq<string>, eventsOf: string -> seq<Event>): seq<Event> {
    if |entries| == 0 then [] else eventsOf(entries[0]) + Log(entries[1..], eventsOf)
  }

  function MoveTo(destination: string): string -> seq<Event> {
    fqn => [Moved(fqn, destination)]
  }

  function FailureOf(fqn: string): seq<Event> {
    [Failed(fqn, ManifestErrors)]
  }

  function SuccessOf(fqn: string): seq<Event> {
    [Succeeded(ObsIdOf(fqn), Paths.Basename(fqn))]
  }

  /** A rejected entry: moved to the failure directory when cleaning up, then failed. */
  function RejectionOf(cfg: Config): string -> seq<Event> {
    fqn => (if cfg.cleanupWhenStoring then [Moved(fqn, cfg.failureDestination)] else []) + FailureOf(fqn)
  }

  /** A sentinel: moved to the success directory when cleaning up, then succeeded. */
  function SentinelOf(cfg: Config): string -> seq<Event> {
    fqn => (if cfg.cleanupWhenStoring then [Moved(fqn, cfg.successDestination)] else []) + SuccessOf(fqn)
  }

  lemma {:induction false} LogConcat(a: seq<string>, b: seq<string>, eventsOf: string -> seq<Event>)
    ensures Log(a + b, eventsOf) == Log(a, eventsOf) + Log(b, eventsOf)
  {
    if |a| > 0 {
      LogConcat(a[1..], b, eventsOf);
      assert (a + b)[1..] == a[1..] + b;
    } else {
      assert a + b == b;
    }
  }

  lemma LogSnoc(a: seq<string>, x: string, eventsOf: string -> seq<Event>)
    ensures Log(a + [x], eventsOf) == Log(a, eventsOf) + eventsOf(x)
  {
    LogConcat(a, [x], eventsOf);
  }

  /** One event per entry, carrying that entry. */
  lemma {:induction false} MoveLog(entries: seq<string>, destination: string)
    ensures var log := Log(entries, MoveTo(destination));
      |log| == |entries| && forall k :: 0 <= k < |log| ==> log[k] == Moved(entries[k], destination)
  {
    if |entries| > 0 {
      MoveLog(entries[1..], destination);
    }
  }

  /** The events of one rejected entry, kind by kind. */
  lemma RejectionParts(fqn: string, cfg: Config)
    ensures var head := RejectionOf(cfg)(fqn);
      Seqs.Filter(head, IsMove) == (if cfg.cleanupWhenStoring then MoveTo(cfg.failureDestination)(fqn) else [])
      && Seqs.Filter(head, IsFailure) == FailureOf(fqn)
      && Seqs.Filter(head, IsSuccess) == []
  {
    var failed := [Failed(fqn, ManifestErrors)];
    if cfg.cleanupWhenStoring {
      var moved := [Moved(fqn, cfg.failureDestination)];
      assert RejectionOf(cfg)(fqn) == moved + failed;
      Seqs.FilterConcat(moved, failed, IsMove);
      Seqs.FilterConcat(moved, failed, IsFailure);
      Seqs.FilterConcat(moved, failed, IsSuccess);
    } else {
      assert RejectionOf(cfg)(fqn) == failed;
    }
  }

  /** The events of one sentinel, kind by kind. */
  lemma SentinelParts(fqn: string, cfg: Config)
    ensures var head := SentinelOf(cfg)(fqn);
      Seqs.Filter(head, IsMove) == (if cfg.cleanupWhenStoring then MoveTo(cfg.successDestination)(fqn) else [])
      && Seqs.Filter(head, IsSuccess) == SuccessOf(fqn)
      && Seqs.Filter(head, IsFailure) == []
  {
    var ok := SuccessOf(fqn);
    if cfg.cleanupWhenStoring {
      var moved := [Moved(fqn, cfg.successDestination)];
      assert SentinelOf(cfg)(fqn) == moved + ok;
      Seqs.FilterConcat(moved, ok, IsMove);
      Seqs.FilterConcat(moved, ok, IsFailure);
      Seqs.FilterConcat(moved, ok, IsSuccess);
    } else {
      assert SentinelOf(cfg)(fqn) == ok;
    }
  }

  /** The events a rejection log holds, kind by kind: the moves to the failure
      directory (only when cleaning up) and one failure per entry, in entry
      order, and no success. */
  lemma {:induction false} RejectionLogParts(entries: seq<string>, cfg: Config)
    ensures var log := Log(entries, RejectionOf(cfg));
      Seqs.Filter(log, IsMove) == (if cfg.cleanupWhenStoring then Log(entries, MoveTo(cfg.failureDestination)) else [])
      && Seqs.Filter(log, IsFailure) == Log(entries, FailureOf)
      && Seqs.Filter(log, IsSuccess) == []
  {
    if |entries| > 0 {
      var fqn := entries[0];
      RejectionLogParts(entries[1..], cfg);
      RejectionParts(fqn, cfg);
      var rest := Log(entries[1..], RejectionOf(cfg));
      Seqs.FilterConcat(RejectionOf(cfg)(fqn), rest, IsMove);
      Seqs.FilterConcat(RejectionOf(cfg)(fqn), rest, IsFailure);
      Seqs.FilterConcat(RejectionOf(cfg)(fqn), rest, IsSuccess);
    }
  }

  /** The events a sentinel log holds, kind by kind: the moves to the success
      directory (only when cleaning up) and one success per entry, whether or
      not cleaning up, and no failure. */
  lemma {:induction false} SentinelLogParts(entries: seq<string>, cfg: Config)
    ensures var log := Log(entries, SentinelOf(cfg));
      Seqs.Filter(log, IsMove) == (if cfg.cleanupWhenStoring then Log(entries, MoveTo(cfg.successDestination)) else [])
      && Seqs.Filter(log, IsSuccess) == Log(entries, SuccessOf)
      && Seqs.Filter(log, IsFailure) == []
  {
    if |entries| > 0 {
      var fqn := entries[0];
      SentinelLogParts(entries[1..], cfg);
      SentinelParts(fqn, cfg);
      var rest := Log(entries[1..], SentinelOf(cfg));
      Seqs.FilterConcat(SentinelOf(cfg)(fqn), rest, IsMove);
      Seqs.FilterConcat(SentinelOf(cfg)(fqn), rest, IsFailure);
      Seqs.FilterConcat(SentinelOf(cfg)(fqn), rest, IsSuccess);
    }
  }

  /** One event per entry for the single-event logs. */
  lemma {:induction false} SingleEventLogLength(entries: seq<string>)
    ensures |Log(entries, FailureOf)| == |entries|
    ensures |Log(entries, SuccessOf)| == |entries|
  {
    if |entries| > 0 {
      SingleEventLogLength(entries[1..]);
    }
  }

  function Failures(log: seq<Event>): nat { |Seqs.Filter(log, IsFailure)| }
  function Successes(log: seq<Event>): nat { |Seqs.Filter(log, IsSuccess)| }
  function Moves(log: seq<Event>): nat { |Seqs.Filter(log, IsMove)| }

  /** The counts of two logs played one after the other add up. */
  lemma CountsOfConcat(a: seq<Event>, b: seq<Event>)
    ensures Failures(a + b) == Failures(a) + Failures(b)
    ensures Successes(a + b) == Successes(a) + Successes(b)
    ensures Moves(a + b) == Moves(a) + Moves(b)
  {
    Seqs.FilterConcat(a, b, IsFailure);
    Seqs.FilterConcat(a, b, IsSuccess);
    Seqs.FilterConcat(a, b, IsMove);
  }

  /** What `group_work_by_obs` does, stated as filters: the members of
      incomplete observations are rejected in listing order, the rest stay. */
  function Grouping(work: seq<string>, cfg: Config): Pass {
    var incomplete := Incomplete(work, |cfg.extensions|);
    Pass(Seqs.Filter(work, Seqs.Not(incomplete)), Log(Seqs.Filter(work, incomplete), RejectionOf(cfg)))
  }

  /** What `remove_unarchived` does, stated as filters. */
  function SentinelRemoval(work: seq<string>, cfg: Config): Pass {
    Pass(Seqs.Filter(work, Seqs.Not(IsSentinel)), Log(Seqs.Filter(work, IsSentinel), SentinelOf(cfg)))
  }

  /** `group_work_by_obs`: collects the entries of every observation whose
      file count differs from the number of configured extensions, then
      rejects each of them. */
  method GroupWorkByObs(work: seq<string>, cfg: Config) returns (kept: seq<string>, events: seq<Event>)
    ensures Pass(kept, events) == Grouping(work, cfg)
  {
    var incomplete := Incomplete(work, |cfg.extensions|);
    kept, events := RejectEach(work, incomplete, cfg);
  }

  /** The loop of `group_work_by_obs`: for each entry to reject, in listing
      order, records the move and the failure and removes the entry from the
      work list with `list.remove`. */
  method RejectEach(work: seq<string>, reject: string -> bool, cfg: Config) returns (kept: seq<string>, events: seq<Event>)
    ensures kept == Seqs.Filter(work, Seqs.Not(reject))
    ensures events == Log(Seqs.Filter(work, reject), RejectionOf(cfg))
  {
    var cleanUpFiles := Seqs.Filter(work, reject);
    kept := work;
    events := [];
    Seqs.DropNothing(work, reject);
    var i := 0;
    while i < |cleanUpFiles|
      invariant 0 <= i <= |cleanUpFiles|
      invariant kept == Seqs.DropMatching(work, reject, i)
      invariant events == Log(cleanUpFiles[..i], RejectionOf(cfg))
    {
      var fqn := cleanUpFiles[i];
      if cfg.cleanupWhenStoring {
        events := events + [Moved(fqn, cfg.failureDestination)];
      }
      events := events + [Failed(fqn, ManifestErrors)];
      LogSnoc(cleanUpFiles[..i], fqn, RejectionOf(cfg));
      assert cleanUpFiles[..i + 1] == cleanUpFiles[..i] + [fqn];
      Seqs.RemoveNextMatching(work, reject, i);
      kept := Seqs.RemoveFirst(kept, fqn);
      i := i + 1;
    }
    Seqs.DropAllMatching(work, reject);
    assert cleanUpFiles[..i] == cleanUpFiles;
  }

  /** `remove_unarchived`: records a success (and a move when cleaning up)
      for every sentinel in listing order, then removes those entries with
      `list.remove`. */
  method RemoveUnarchived(work: seq<string>, cfg: Config) returns (kept: seq<string>, events: seq<Event>)
    ensures Pass(kept, events) == SentinelRemoval(work, cfg)
  {
    var removeThese;
    removeThese, events := CaptureSentinels(work, cfg);
    kept := RemoveEach(work, IsSentinel, removeThese);
  }

  /** The first loop of `remove_unarchived`: the sentinels in listing order,
      each moved when cleaning up and captured as a success. */
  method CaptureSentinels(work: seq<string>, cfg: Config) returns (removeThese: seq<string>, events: seq<Event>)
    ensures removeThese == Seqs.Filter(work, IsSentinel)
    ensures events == Log(removeThese, SentinelOf(cfg))
  {
    removeThese := [];
    events := [];
    for i := 0 to |work|
      invariant removeThese == Seqs.Filter(work[..i], IsSentinel)
      invariant events == Log(removeThese, SentinelOf(cfg))
    {
      var entry := work[i];
      Seqs.FilterSnoc(work[..i], entry, IsSentinel);
      assert work[..i + 1] == work[..i] + [entry];
      if IsSentinel(entry) {
        SentinelSnoc(removeThese, entry, cfg);
        if cfg.cleanupWhenStoring {
          events := events + [Moved(entry, cfg.successDestination)];
        }
        removeThese := removeThese + [entry];
        events := events + [Succeeded(ObsIdOf(entry), Paths.Basename(entry))];
      }
    }
    assert work[..|work|] == work;
  }

  /** One more sentinel extends the log by its move (when cleaning up) and its success. */
  lemma SentinelSnoc(entries: seq<string>, fqn: string, cfg: Config)
    ensures cfg.cleanupWhenStoring ==>
      Log(entries + [fqn], SentinelOf(cfg))
      == Log(entries, SentinelOf(cfg)) + [Moved(fqn, cfg.successDestination)] + [Succeeded(ObsIdOf(fqn), Paths.Basename(fqn))]
    ensures !cfg.cleanupWhenStoring ==>
      Log(entries + [fqn], SentinelOf(cfg)) == Log(entries, SentinelOf(cfg)) + [Succeeded(ObsIdOf(fqn), Paths.Basename(fqn))]
  {
    LogSnoc(entries, fqn, SentinelOf(cfg));
  }

  /** The second loop of `remove_unarchived`: `list.remove` of each entry of
      `removeThese`, which lists the entries satisfying `p` in order. */
  method RemoveEach(work: seq<string>, p: string -> bool, removeThese: seq<string>) returns (kept: seq<string>)
    requires removeThese == Seqs.Filter(work, p)
    ensures kept == Seqs.Filter(work, Seqs.Not(p))
  {
    kept := work;
    Seqs.DropNothing(work, p);
    for j := 0 to |removeThese|
      invariant kept == Seqs.DropMatching(work, p, j)
    {
      Seqs.RemoveNextMatching(work, p, j);
      kept := Seqs.RemoveFirst(kept, removeThese[j]);
    }
    Seqs.DropAllMatching(work, p);
  }

  /** Whatever the key: after rejecting the entries whose key does not occur
      exactly `n` times, every key left occurs exactly `n` times among the
      entries left, and an entry stays exactly when its key occurred `n`
      times in the listing. */
  lemma CompleteGroupsRemain(work: seq<string>, key: string -> string, n: nat)
    ensures var kept := Seqs.Filter(work, Seqs.Not(IncompleteBy(work, key, n)));
      (forall k :: 0 <= k < |kept| ==> KeyCount(kept, key, key(kept[k])) == n)
      && (forall k :: 0 <= k < |work| ==> (work[k] in kept <==> KeyCount(work, key, key(work[k])) == n))
  {
    var complete := Seqs.Not(IncompleteBy(work, key, n));
    var kept := Seqs.Filter(work, complete);
    Seqs.FilterMembers(work, complete);
    forall k | 0 <= k < |kept|
      ensures KeyCount(kept, key, key(kept[k])) == n
    {
      var id := key(kept[k]);
      forall j | 0 <= j < |work| && SameKey(key, id)(work[j])
        ensures complete(work[j])
      {
      }
      Seqs.FilterSubsumed(work, complete, SameKey(key, id));
    }
  }

  /** Keys counted over two lists add up. */
  lemma KeyCountConcat(a: seq<string>, b: seq<string>, key: string -> string, id: string)
    ensures KeyCount(a + b, key, id) == KeyCount(a, key, id) + KeyCount(b, key, id)
  {
    Seqs.FilterConcat(a, b, SameKey(key, id));
  }

  /** A list whose entries all share the key `id`: the key occurs once per
      entry and no other key occurs; the group is kept whole when it has
      `n` entries and rejected whole otherwise. */
  lemma UniformGroup(xs: seq<string>, key: string -> string, id: string, n: nat)
    requires forall k :: 0 <= k < |xs| ==> key(xs[k]) == id
    ensures KeyCount(xs, key, id) == |xs|
    ensures forall other :: other != id ==> KeyCount(xs, key, other) == 0
    ensures |xs| == n ==> Seqs.Filter(xs, IncompleteBy(xs, key, n)) == [] && Seqs.Filter(xs, Seqs.Not(IncompleteBy(xs, key, n))) == xs
    ensures |xs| != n ==> Seqs.Filter(xs, IncompleteBy(xs, key, n)) == xs && Seqs.Filter(xs, Seqs.Not(IncompleteBy(xs, key, n))) == []
  {
    Seqs.FilterAll(xs, SameKey(key, id));
    forall other | other != id
      ensures KeyCount(xs, key, other) == 0
    {
      Seqs.FilterNone(xs, SameKey(key, other));
    }
    var incomplete := IncompleteBy(xs, key, n);
    if |xs| == n {
      Seqs.FilterNone(xs, incomplete);
      Seqs.FilterAll(xs, Seqs.Not(incomplete));
    } else {
      Seqs.FilterAll(xs, incomplete);
      Seqs.FilterNone(xs, Seqs.Not(incomplete));
    }
  }

  /** Filtering a list whose entries share a key leaves entries with that key. */
  lemma FilterKeepsKey(xs: seq<string>, p: string -> bool, key: string -> string, id: string)
    requires forall k :: 0 <= k < |xs| ==> key(xs[k]) == id
    ensures forall k :: 0 <= k < |Seqs.Filter(xs, p)| ==> key(Seqs.Filter(xs, p)[k]) == id
  {
    Seqs.FilterMembers(xs, p);
  }

  /** Two lists without a key in common are grouped independently: an entry
      of one is complete in the concatenation exactly when it is complete in
      its own list. */
  lemma DisjointGroups(a: seq<string>, b: seq<string>, key: string -> string, n: nat)
    requires forall i, j :: 0 <= i < |a| && 0 <= j < |b| ==> key(a[i]) != key(b[j])
    ensures Seqs.Filter(a + b, IncompleteBy(a + b, key, n))
      == Seqs.Filter(a, IncompleteBy(a, key, n)) + Seqs.Filter(b, IncompleteBy(b, key, n))
    ensures Seqs.Filter(a + b, Seqs.Not(IncompleteBy(a + b, key, n)))
      == Seqs.Filter(a, Seqs.Not(IncompleteBy(a, key, n))) + Seqs.Filter(b, Seqs.Not(IncompleteBy(b, key, n)))
  {
    var whole := IncompleteBy(a + b, key, n);
    forall k | 0 <= k < |a|
      ensures whole(a[k]) == IncompleteBy(a, key, n)(a[k])
      ensures Seqs.Not(whole)(a[k]) == Seqs.Not(IncompleteBy(a, key, n))(a[k])
    {
      KeyCountConcat(a, b, key, key(a[k]));
      Seqs.FilterNone(b, SameKey(key, key(a[k])));
    }
    forall k | 0 <= k < |b|
      ensures whole(b[k]) == IncompleteBy(b, key, n)(b[k])
      ensures Seqs.Not(whole)(b[k]) == Seqs.Not(IncompleteBy(b, key, n))(b[k])
    {
      KeyCountConcat(a, b, key, key(b[k]));
      Seqs.FilterNone(a, SameKey(key, key(b[k])));
    }
    Seqs.FilterConcat(a, b, whole);
    Seqs.FilterConcat(a, b, Seqs.Not(whole));
    Seqs.FilterCongruent(a, whole, IncompleteBy(a, key, n));
    Seqs.FilterCongruent(b, whole, IncompleteBy(b, key, n));
    Seqs.FilterCongruent(a, Seqs.Not(whole), Seqs.Not(IncompleteBy(a, key, n)));
    Seqs.FilterCongruent(b, Seqs.Not(whole), Seqs.Not(IncompleteBy(b, key, n)));
  }

  /** Grouping a listing made of two listings without an observation in
      common is grouping each of them, one after the other. */
  lemma GroupingOfDisjoint(a: seq<string>, b: seq<string>, cfg: Config)
    requires forall i, j :: 0 <= i < |a| && 0 <= j < |b| ==> ObsIdOf(a[i]) != ObsIdOf(b[j])
    ensures Grouping(a + b, cfg)
      == Pass(Grouping(a, cfg).kept + Grouping(b, cfg).kept, Grouping(a, cfg).events + Grouping(b, cfg).events)
  {
    var n := |cfg.extensions|;
    DisjointGroups(a, b, ObsIdOf, n);
    LogConcat(Seqs.Filter(a, Incomplete(a, n)), Seqs.Filter(b, Incomplete(b, n)), RejectionOf(cfg));
  }

  /** Sentinel removal works entry by entry, so it splits over a concatenation. */
  lemma SentinelRemovalConcat(a: seq<string>, b: seq<string>, cfg: Config)
    ensures SentinelRemoval(a + b, cfg)
      == Pass(SentinelRemoval(a, cfg).kept + SentinelRemoval(b, cfg).kept,
              SentinelRemoval(a, cfg).events + SentinelRemoval(b, cfg).events)
  {
    Seqs.FilterConcat(a, b, IsSentinel);
    Seqs.FilterConcat(a, b, Seqs.Not(IsSentinel));
    LogConcat(Seqs.Filter(a, IsSentinel), Seqs.Filter(b, IsSentinel), SentinelOf(cfg));
  }

  /** After grouping, every observation id left in the work list occurs
      there exactly as often as there are configured extensions, and an
      entry stays exactly when its observation was complete in the listing. */
  lemma GroupingLeavesCompleteObservations(work: seq<string>, cfg: Config)
    ensures var n := |cfg.extensions|; var kept := Grouping(work, cfg).kept;
      (forall k :: 0 <= k < |kept| ==> ObsCount(kept, ObsIdOf(kept[k])) == n)
      && (forall k :: 0 <= k < |work| ==> (work[k] in kept <==> ObsCount(work, ObsIdOf(work[k])) == n))
  {
    CompleteGroupsRemain(work, ObsIdOf, |cfg.extensions|);
  }

  /** Whatever the entries rejected: rejecting only removes entries, and
      every entry removed is failed once. */
  lemma RejectionConserves(work: seq<string>, reject: string -> bool, cfg: Config)
    ensures var log := Log(Seqs.Filter(work, reject), RejectionOf(cfg));
      |Seqs.Filter(work, Seqs.Not(reject))| + Failures(log) == |work|
      && Successes(log) == 0
      && Moves(log) == (if cfg.cleanupWhenStoring then Failures(log) else 0)
  {
    var rejected := Seqs.Filter(work, reject);
    Seqs.FilterPartition(work, reject);
    RejectionLogParts(rejected, cfg);
    SingleEventLogLength(rejected);
    MoveLog(rejected, cfg.failureDestination);
  }

  /** Grouping only removes entries, and every entry removed is failed once:
      nothing is lost and nothing is counted twice. */
  lemma GroupingConserves(work: seq<string>, cfg: Config)
    ensures var g := Grouping(work, cfg);
      |g.kept| + Failures(g.events) == |work|
      && Successes(g.events) == 0
      && Moves(g.events) == (if cfg.cleanupWhenStoring then Failures(g.events) else 0)
  {
    RejectionConserves(work, Incomplete(work, |cfg.extensions|), cfg);
  }

  /** Sentinel removal removes only entries, and records one success per
      removed entry whatever the cleanup setting, moving it only when
      cleaning up. */
  lemma SentinelRemovalConserves(work: seq<string>, cfg: Config)
    ensures var s := SentinelRemoval(work, cfg);
      |s.kept| + Successes(s.events) == |work|
      && Failures(s.events) == 0
      && Moves(s.events) == (if cfg.cleanupWhenStoring then Successes(s.events) else 0)
  {
    var removed := Seqs.Filter(work, IsSentinel);
    Seqs.FilterPartition(work, IsSentinel);
    SentinelLogParts(removed, cfg);
    SingleEventLogLength(removed);
    MoveLog(removed, cfg.successDestination);
  }

  /** Sentinel removal keeps exactly the archived entries. */
  lemma SentinelRemovalKeepsArchived(work: seq<string>, cfg: Config)
    ensures var kept := SentinelRemoval(work, cfg).kept;
      (forall k :: 0 <= k < |kept| ==> StorageName.IsArchived(kept[k]))
      && (forall k :: 0 <= k < |work| ==> (work[k] in kept <==> StorageName.IsArchived(work[k])))
  {
    var kept := SentinelRemoval(work, cfg).kept;
    Seqs.FilterMembers(work, Seqs.Not(IsSentinel));
    forall k | 0 <= k < |kept|
      ensures StorageName.IsArchived(kept[k])
    {
      assert Seqs.Not(IsSentinel)(kept[k]);
    }
  }

  /** What `clean_up` does with an entry: an archived file goes through the
      inherited clean-up; a sentinel is handled here. */
  datatype CleanUpAction = Inherited | Local(events: seq<Event>)

  /** `clean_up`: for a sentinel, a move to the success directory and a
      success, both only when cleaning up. */
  function CleanUp(entry: string, cfg: Config): CleanUpAction {
    if StorageName.IsArchived(entry) then Inherited
    else if cfg.cleanupWhenStoring then
      Local([Moved(entry, cfg.successDestination), Succeeded(ObsIdOf(entry), Paths.Basename(entry))])
    else Local([])
  }

  /** A sentinel cleaned up while cleaning up leaves the record
      `remove_unarchived` would; otherwise it leaves none, where
      `remove_unarchived` still records the success. */
  lemma CleanUpOfSentinel(entry: string, cfg: Config)
    requires IsSentinel(entry)
    ensures cfg.cleanupWhenStoring ==> CleanUp(entry, cfg) == Local(SentinelOf(cfg)(entry))
    ensures !cfg.cleanupWhenStoring ==>
      CleanUp(entry, cfg) == Local([]) && SentinelOf(cfg)(entry) == SuccessOf(entry)
  {
  }

  /** `default_filter`: a sentinel is always admitted; an archived file gets
      the inherited verdict `inherited`. */
  function DefaultFilter(path: string, inherited: bool): (admit: bool)
    ensures IsSentinel(path) ==> admit
    ensures StorageName.IsArchived(path) ==> admit == inherited
  {
    if StorageName.IsArchived(path) then inherited else true
  }

  /** `default_filter` and `remove_unarchived` agree: without the inherited
      verdict, the filter admits exactly the entries the sentinel pass takes
      out of the work list, and what that pass keeps gets the inherited
      verdict. */
  lemma DefaultFilterOfWork(work: seq<string>, cfg: Config, k: nat, inherited: bool)
    requires k < |work|
    ensures DefaultFilter(work[k], false) <==> work[k] !in SentinelRemoval(work, cfg).kept
    ensures work[k] in SentinelRemoval(work, cfg).kept ==> DefaultFilter(work[k], inherited) == inherited
  {
    SentinelRemovalKeepsArchived(work, cfg);
  }
}
