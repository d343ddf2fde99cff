/** File naming rules of a BRITE-Constellation observation: the observation
    (file) identifier, the classification of a file by its extension, the
    preview and thumbnail names, and the path of a sibling file. */
module StorageName {
  import opened Wrappers
  import opened Strings
  import Paths

  /** The seven extensions configured for one observation, in the order the
      deployment lists them. */
  const Extensions: seq<string> := [".avedb", ".freq0db", ".lst", ".md5", ".ndatdb", ".orig", ".rlogdb"]

  /** Every plane of the collection uses this product identifier. */
  const ProductId: string := "timeseries"

  /** `remove_extensions`: drops the final dotted suffix, as `os.path.splitext` does. */
  function RemoveExtensions(fileName: string): string {
    Paths.SplitExt(fileName).0
  }

  /** `set_file_id`: the file identifier is the name without its extension. */
  function FileId(fileName: string): string {
    RemoveExtensions(fileName)
  }

  /** `is_archived` (also reached as `archived`): the `.lst` and `.md5`
      sentinels are never stored or ingested. */
  predicate IsArchived(fileName: string) {
    !(EndsWith(fileName, ".lst") || EndsWith(fileName, ".md5"))
  }

  predicate HasDecorrelatedMetadata(fileName: string) {
    EndsWith(fileName, ".ndatdb")
  }

  predicate HasUndecorrelatedMetadata(fileName: string) {
    EndsWith(fileName, ".orig")
  }

  /** The files whose content is a time series. */
  predicate HasData(fileName: string) {
    EndsWith(fileName, ".orig") || EndsWith(fileName, ".ndatdb") || EndsWith(fileName, ".avedb")
  }

  /** The file whose ingestion triggers preview generation. */
  predicate IsLastToIngest(fileName: string) {
    EndsWith(fileName, ".rlogdb")
  }

  /** A root that can carry an extension: no directory part and not made of dots only. */
  predicate IsRoot(root: string) {
    '/' !in root && !Paths.AllDots(root)
  }

  lemma ExtensionsAreWellFormed()
    ensures forall e :: e in Extensions ==> |e| > 1 && Paths.IsExtension(e)
  {
  }

  /** No configured extension ends with a different configured extension. */
  lemma ExtensionsAreSuffixFree()
    ensures forall e, f :: e in Extensions && f in Extensions ==> (EndsWith(e, f) <==> e == f)
  {
  }

  /** On `root + ext`, a configured suffix is present exactly when it is the extension itself. */
  lemma SuffixOfNamed(root: string, ext: string, suffix: string)
    requires ext in Extensions && suffix in Extensions
    ensures EndsWith(root + ext, suffix) <==> ext == suffix
  {
    ExtensionsAreSuffixFree();
    if |suffix| <= |ext| {
      EndsWithConcat(root, ext, suffix);
    } else if EndsWith(root + ext, suffix) {
      EndsWithConcat(root, ext, ext);
      EndsWithBoth(root + ext, suffix, ext);
    }
  }

  /** Every file of an observation carries the observation's identifier:
      `remove_extensions(root + ext) == root` for each configured extension. */
  lemma RemoveExtensionsOfNamed(root: string, ext: string)
    requires IsRoot(root) && ext in Extensions
    ensures RemoveExtensions(root + ext) == root
    ensures FileId(root + ext) == root
  {
    ExtensionsAreWellFormed();
    Paths.SplitExtOfRoot(root, ext);
  }

  /** Only the final suffix goes: `x.y.orig` belongs to observation `x.y`. */
  lemma RemoveExtensionsKeepsInnerDots()
    ensures RemoveExtensions("x.y.orig") == "x.y"
  {
    var root := "x.y";
    assert root[0] != '.';
    assert root + ".orig" == "x.y.orig";
    Paths.SplitExtOfRoot(root, ".orig");
  }

  /** A name whose dots all lead it has no extension to remove. */
  lemma RemoveExtensionsOfHiddenName()
    ensures RemoveExtensions(".bashrc") == ".bashrc"
  {
    var dots, rest := ".", "bashrc";
    assert dots + rest == ".bashrc";
    Paths.SplitExtLeadingDots(dots, rest);
  }

  /** How each configured extension classifies a file named `root + ext`. */
  lemma ClassifyNamed(root: string, ext: string)
    requires ext in Extensions
    ensures IsArchived(root + ext) <==> ext != ".lst" && ext != ".md5"
    ensures HasData(root + ext) <==> ext == ".orig" || ext == ".ndatdb" || ext == ".avedb"
    ensures HasUndecorrelatedMetadata(root + ext) <==> ext == ".orig"
    ensures HasDecorrelatedMetadata(root + ext) <==> ext == ".ndatdb"
    ensures IsLastToIngest(root + ext) <==> ext == ".rlogdb"
  {
    SuffixOfNamed(root, ext, ".lst");
    SuffixOfNamed(root, ext, ".md5");
    SuffixOfNamed(root, ext, ".orig");
    SuffixOfNamed(root, ext, ".ndatdb");
    SuffixOfNamed(root, ext, ".avedb");
    SuffixOfNamed(root, ext, ".rlogdb");
  }

  /** Whatever the name: the two metadata kinds exclude each other, each
      carries data, every data file is archived, and the last file to ingest
      is archived but carries no data. */
  lemma ClassificationIsConsistent(fileName: string)
    ensures !(HasUndecorrelatedMetadata(fileName) && HasDecorrelatedMetadata(fileName))
    ensures HasUndecorrelatedMetadata(fileName) ==> HasData(fileName)
    ensures HasDecorrelatedMetadata(fileName) ==> HasData(fileName)
    ensures HasData(fileName) ==> IsArchived(fileName)
    ensures IsLastToIngest(fileName) ==> IsArchived(fileName) && !HasData(fileName)
  {
    var s := fileName;
    if HasData(s) || IsLastToIngest(s) {
      var ext :=
        if EndsWith(s, ".orig") then ".orig"
        else if EndsWith(s, ".ndatdb") then ".ndatdb"
        else if EndsWith(s, ".avedb") then ".avedb"
        else ".rlogdb";
      var root := s[..|s| - |ext|];
      assert s == root + ext;
      ClassifyNamed(root, ext);
    }
  }

  /** `prev`: the preview name, distinct for the un-decorrelated plane. */
  function Prev(obsId: string, fileName: string): string {
    if HasUndecorrelatedMetadata(fileName) then obsId + "_un_prev.jpg" else obsId + "_prev.jpg"
  }

  /** `thumb`: the thumbnail name, distinct for the un-decorrelated plane. */
  function Thumb(obsId: string, fileName: string): string {
    if HasUndecorrelatedMetadata(fileName) then obsId + "_un_prev_256.jpg" else obsId + "_prev_256.jpg"
  }

  /** The thumbnail is the preview name with `_256` before `.jpg`; the
      `.orig` file's pair never collides with the other files' pair. */
  lemma PreviewNames(obsId: string, fileName: string, other: string)
    requires HasUndecorrelatedMetadata(fileName) && !HasUndecorrelatedMetadata(other)
    ensures var p := Prev(obsId, fileName); EndsWith(p, ".jpg") && Thumb(obsId, fileName) == p[..|p| - 4] + "_256.jpg"
    ensures var p := Prev(obsId, other); EndsWith(p, ".jpg") && Thumb(obsId, other) == p[..|p| - 4] + "_256.jpg"
    ensures StartsWith(Prev(obsId, fileName), obsId) && StartsWith(Prev(obsId, other), obsId)
    ensures Prev(obsId, fileName) != Prev(obsId, other)
    ensures Thumb(obsId, fileName) != Thumb(obsId, other)
    ensures Prev(obsId, fileName) != Thumb(obsId, other) && Prev(obsId, other) != Thumb(obsId, fileName)
  {
    var un := obsId + "_un_prev.jpg";
    var pl := obsId + "_prev.jpg";
    assert un[..|un| - 4] + "_256.jpg" == obsId + "_un_prev_256.jpg";
    assert pl[..|pl| - 4] + "_256.jpg" == obsId + "_prev_256.jpg";
    assert un[..|obsId|] == obsId && pl[..|obsId|] == obsId;
    assert un[|obsId| + 1] == 'u' && pl[|obsId| + 1] == 'p';
    assert (obsId + "_un_prev_256.jpg")[|obsId| + 1] == 'u' && (obsId + "_prev_256.jpg")[|obsId| + 1] == 'p';
    assert un[|un| - 4..] == ".jpg" && pl[|pl| - 4..] == ".jpg";
    assert (obsId + "_prev_256.jpg")[|obsId| + 6] == '2';
    assert (obsId + "_un_prev_256.jpg")[|obsId| + 9] == '2';
    assert un[|obsId| + 8] == '.' && (obsId + "_un_prev_256.jpg")[|obsId| + 8] == '_';
    assert pl[|obsId| + 5] == '.' && (obsId + "_prev_256.jpg")[|obsId| + 5] == '_';
  }

  /** `use_different_file`: the sibling path, with every occurrence of the
      original extension replaced, and the base name its URI is built from. */
  function UseDifferentFile(source: string, originalExtension: string, newExtension: string): (string, string) {
    var fqn := Replace(source, originalExtension, newExtension);
    (fqn, Paths.Basename(fqn))
  }

  /** The path `get_entry` opens: a bare file name is prefixed with `./`. */
  function EntryPath(source: string, originalExtension: string, newExtension: string): string {
    var fqn := UseDifferentFile(source, originalExtension, newExtension).0;
    if Paths.Dirname(fqn) == "" then "./" + fqn else fqn
  }

  /** The path opened always has a directory part, and only a bare name is changed. */
  lemma EntryPathHasDirectory(source: string, originalExtension: string, newExtension: string)
    ensures var fqn := UseDifferentFile(source, originalExtension, newExtension).0;
      var r := EntryPath(source, originalExtension, newExtension);
      '/' in r && (r == fqn <==> '/' in fqn) && ('/' !in fqn ==> r == "./" + fqn)
  {
    var fqn := UseDifferentFile(source, originalExtension, newExtension).0;
    Paths.DirnameEmptyIff(fqn);
    var r := EntryPath(source, originalExtension, newExtension);
    if '/' !in fqn {
      assert r == "./" + fqn;
      assert r[1] == '/';
      assert r != fqn;
    }
  }

  /** A path that does not contain the original extension is used unchanged. */
  lemma UseDifferentFileAbsent(source: string, originalExtension: string, newExtension: string)
    requires |originalExtension| > 0 && !Contains(source, originalExtension)
    ensures UseDifferentFile(source, originalExtension, newExtension).0 == source
  {
    ReplaceAbsent(source, originalExtension, newExtension);
  }

  /** A well-formed extension that does not occur in `prefix` first occurs
      in `prefix + ext` where `ext` begins: its one dot cannot straddle the
      join. */
  lemma NoEarlierOccurrence(prefix: string, ext: string)
    requires !Contains(prefix, ext) && |ext| > 0 && Paths.IsExtension(ext)
    ensures forall j: nat :: j < |prefix| ==> !OccursAt(prefix + ext, ext, j)
  {
    var s := prefix + ext;
    forall j: nat | j < |prefix|
      ensures !OccursAt(s, ext, j)
    {
      if j + |ext| <= |prefix| {
        assert s[j..j + |ext|] == prefix[j..j + |ext|];
        assert !OccursAt(prefix, ext, j);
      } else if j + |ext| <= |s| {
        var d := |prefix| - j;
        assert s[j..j + |ext|][d] == ext[0] == '.';
        assert ext[d] != '.';
      }
    }
  }

  /** Swapping the extension of `/dir/root.ndatdb` gives `/dir/root.orig`
      when the extension does not already occur before it; directories may
      hold dots. */
  lemma UseDifferentFileSwapsExtension(prefix: string, ext: string, newExtension: string)
    requires !Contains(prefix, ext) && ext in Extensions
    ensures UseDifferentFile(prefix + ext, ext, newExtension).0 == prefix + newExtension
    ensures UseDifferentFile(prefix + ext, ext, newExtension).1 == Paths.Basename(prefix + newExtension)
  {
    var s := prefix + ext;
    ExtensionsAreWellFormed();
    assert ext[0] == '.';
    NoEarlierOccurrence(prefix, ext);
    assert s[|prefix|..] == ext;
    assert OccursAt(s, ext, |prefix|);
    assert Find(s, ext) == Some(|prefix|) by {
      var f := Find(s, ext);
      assert f.Some? && f.value <= |prefix|;
    }
    ReplaceFirst(s, ext, newExtension, |prefix|);
    assert s[|prefix| + |ext|..] == "";
    ReplaceAbsent("", ext, newExtension);
    assert s[..|prefix|] == prefix;
  }
}
