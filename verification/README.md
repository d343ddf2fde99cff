# brite2caom2 in Dafny

A model of the parts of brite2caom2, the BRITE-Constellation ingestion
pipeline, that decide what happens to each file:

- **File names** (`StorageName`, with `Paths` for the POSIX `os.path`
  functions). A file's observation id is its base name without the final
  extension, as `os.path.splitext` computes it. A file is classified by its
  suffix:
  - `.lst` and `.md5` are sentinels, which are tracked but never archived;
  - `.orig`, `.ndatdb` and `.avedb` carry a time series;
  - `.rlogdb` is the last file of an observation to be ingested.

  The module also gives the preview and thumbnail names, and the path of a
  sibling file.
- **Work-list reconciliation** (`DataSource`, `Composable`). The local-files
  data source makes two passes over the flat directory listing:
  - `group_work_by_obs` rejects every file of an observation whose file
    count differs from the number of configured extensions. Each rejected
    file gets a `manifest errors` failure, and a move to the failure
    directory when cleaning up.
  - `remove_unarchived` takes the sentinels out of the work list. Each one
    gets a success, and a move to the success directory when cleaning up.

  `_build_todo_list` runs grouping, takes the complete record count, and
  then runs sentinel removal. Moves and report captures are the events of a
  log. Each pass is written twice:
  - as a method that follows the source loops, including `list.remove`;
  - as a pure reference function built from filters.

  The two are proved equal.
- **Text parsers** (`Reader`, with `Strings` for the Python `str`
  methods). Three parsers are modelled:
  - the column-picking parser for `.ndatdb` and `.avedb` files, including
    the check for the `2456000.0` time-axis header;
  - the `# keyword = value / comment` header parser for `.orig` files,
    including column registration;
  - the dispatch on the URI suffix, and the skip rules of `set_time_series`.

  Python's exceptions are the cases of `ReadError`. `float()` is a
  parameter `toFloat: string -> Option<real>`, where `None` means
  `ValueError`. A file is the sequence of lines that iterating it yields,
  and each line keeps its newline.
- **Mapping rules** (`MainApp`):
  - which mapping class a file gets;
  - the artifact product type;
  - the bandpass named by the satellite identifier;
  - which artifacts `update` touches;
  - the chunk clearing of `_update_artifact`;
  - the plane copy of `_update_copy_metadata`.

  The observation keeps only the fields these rules read or write.

`Scenarios` replays the data-source and runner tests as lemmas over any
directory. It also proves a general tally for `n` complete observations:
their listing gives `7n` records and leaves `5n` files to store.

The data source and the mapping factory call `BriteName.archived` with a
file name, but storage_name.py defines only `is_archived`; the code appears
to be partway through a rename (main_app.py also imports `add_entry`, where
storage_name.py defines `get_entry`). The model assumes that `archived`
names `is_archived` (`StorageName.IsArchived`). The artifact loop of
`update` names `archived` without calling it (main_app.py line 149). Under
that assumption `not` of a function is always false, so the test never
skips an artifact, and the model has no archived test there. If `archived`
did not exist, that line would raise `AttributeError` on the matching
artifact instead. A sentinel never reaches `update`, because the mapping
factory gives it no mapping (`MainApp.MappingFor`).

Completeness is decided by a count alone, as the source decides it.
A group of the right size with one extension repeated and another missing
is accepted (`Scenarios.CountOnlyCompleteness`). The parser for `.ndatdb`
and `.avedb` files fails on a blank line in the middle of a file
(`Reader.BlankLineFailsBjd`). Iterating a file yields that line as `"\n"`,
which is neither empty nor a comment, and `split()` gives it no value to
read.

## Model

| member | source | states |
|---|---|---|
| `StorageName.RemoveExtensionsOfNamed` | brite2caom2/storage_name.py:144-153 | For a root without `/` that is not all dots, and each configured extension, `remove_extensions(root + ext)` and the file id are `root`. So all seven files of an observation share one id |
| `StorageName.RemoveExtensionsKeepsInnerDots` | brite2caom2/storage_name.py:151-153 | Only the final suffix goes: `x.y.orig` gives `x.y` |
| `StorageName.RemoveExtensionsOfHiddenName` | brite2caom2/storage_name.py:151-153 | A name whose only dot leads it, `.bashrc`, comes back unchanged |
| `StorageName.ExtensionsAreSuffixFree` | brite2caom2/tests/test_data_source.py:79 | No configured extension ends with a different configured extension |
| `StorageName.SuffixOfNamed` | brite2caom2/storage_name.py:98-116 | On `root + ext`, a configured suffix test succeeds exactly when the suffix is `ext` |
| `StorageName.ClassifyNamed` | brite2caom2/storage_name.py:98-116 | For each configured extension: archived unless `.lst`/`.md5` (the `is_archived` rule), has data iff `.orig`/`.ndatdb`/`.avedb`, un-decorrelated iff `.orig`, decorrelated iff `.ndatdb`, last to ingest iff `.rlogdb` |
| `StorageName.ClassificationIsConsistent` | brite2caom2/storage_name.py:98-116 | For any name: the two metadata kinds exclude each other and each implies data; data implies archived; the last file to ingest is archived and has no data |
| `StorageName.PreviewNames` | brite2caom2/storage_name.py:118-130 | Preview and thumbnail start with the observation id and end in `.jpg`; the thumbnail is the preview with `_256` before `.jpg`; the `.orig` pair differs from every other file's pair |
| `StorageName.UseDifferentFileAbsent` | brite2caom2/storage_name.py:135-142 | A path that does not contain the original extension is returned unchanged |
| `StorageName.UseDifferentFileSwapsExtension` | brite2caom2/storage_name.py:135-142 | On a prefix that does not already contain it, plus a configured extension, swapping gives the prefix plus the new extension, and the second result is the base name of that path, from which the URI is built |
| `StorageName.EntryPathHasDirectory` | brite2caom2/storage_name.py:171-173 | The path opened always contains `/`; it differs from the sibling path exactly when that path has no directory, and then it is `./` plus the path |
| `Paths.SplitExt` | brite2caom2/storage_name.py:153 | `os.path.splitext`: the two parts concatenate to the input; the extension is empty or one dot followed by characters that are neither dots nor slashes; when one is split off, the last path component before it is not made only of dots |
| `Paths.SplitExtOfRoot` | brite2caom2/storage_name.py:151-153 | For a slash-free root that is not all dots, `splitext(root + ext)` is `(root, ext)` for any well-formed extension |
| `Paths.SplitExtLeadingDots` | brite2caom2/storage_name.py:151-153 | A name whose dots all lead it has no extension |
| `Paths.BasenameOfJoin` | brite2caom2/data_source.py:169-171 | Under any directory, the base name of `dir/name` is `name` |
| `Paths.DirnameEmptyIff` | brite2caom2/storage_name.py:172-173 | `dirname(p)` is empty exactly when `p` has no `/` |
| `Strings.ReplaceIsSplitJoin` | brite2caom2/storage_name.py:140 | `str.replace` is the split at the target joined with the replacement, so every occurrence is replaced |
| `Strings.SplitOnce` | brite2caom2/reader.py:168 | `split(sep, 1)`: one piece when `sep` is absent; otherwise two pieces around the first `sep` |
| `Strings.Strip` | brite2caom2/reader.py:171-173 | `strip()`: the input minus whitespace runs at both ends, with no whitespace left at either end |
| `Strings.TokensOfJoin` | brite2caom2/reader.py:143 | `split()` gives back the non-empty, space-free tokens a line was joined from |
| `Strings.DecimalInjective` | brite2caom2/reader.py:180-182 | `str(x + 1)` differs for different `x`, so each value position has its own `column` key |
| `DataSource.RejectEach` | brite2caom2/data_source.py:114-129 | The rejection loop with `list.remove` leaves the listing minus the rejected entries, in order; it logs each rejected entry in listing order: a move when cleaning up, then a failure |
| `DataSource.GroupWorkByObs` | brite2caom2/data_source.py:104-129 | `group_work_by_obs` equals the reference pass: keep the entries of complete observations, reject the others |
| `DataSource.CaptureSentinels` | brite2caom2/data_source.py:155-165 | The first loop of `remove_unarchived` collects exactly the sentinels in listing order, each logged with a move when cleaning up and a success |
| `DataSource.SentinelSnoc` | brite2caom2/data_source.py:157-165 | One more sentinel adds its move (only when cleaning up) and then its success to the log |
| `DataSource.RemoveEach` | brite2caom2/data_source.py:166-167 | Removing the collected entries one by one with `list.remove` leaves exactly the other entries, in order |
| `DataSource.RemoveUnarchived` | brite2caom2/data_source.py:153-167 | `remove_unarchived` equals the reference sentinel pass |
| `DataSource.CompleteGroupsRemain` | brite2caom2/data_source.py:109-117 | For any key: after rejecting the entries whose key count is not `n`, every remaining key occurs `n` times among the remaining entries, and an entry stays iff its key occurred `n` times |
| `DataSource.GroupingLeavesCompleteObservations` | brite2caom2/data_source.py:109-129 | After grouping, every observation id left occurs exactly `len(extensions)` times, and an entry stays iff its observation was complete in the listing |
| `DataSource.UniformGroup` | brite2caom2/data_source.py:109-117 | Files sharing one id are kept whole when there are `n` of them and rejected whole otherwise |
| `DataSource.DisjointGroups` | brite2caom2/data_source.py:109-117 | Two lists without a key in common: an entry is complete in the concatenation iff it is complete in its own list |
| `DataSource.GroupingOfDisjoint` | brite2caom2/data_source.py:104-129 | Grouping a listing of two parts without a common observation groups each part, and concatenates the kept lists and the logs |
| `DataSource.SentinelRemovalConcat` | brite2caom2/data_source.py:153-167 | Sentinel removal splits over a concatenation |
| `DataSource.RejectionLogParts` | brite2caom2/data_source.py:118-128 | A rejection log holds, in entry order, one failure per entry, moves to the failure directory exactly when cleaning up, and no success |
| `DataSource.SentinelLogParts` | brite2caom2/data_source.py:156-165 | A sentinel log holds, in entry order, one success per entry whatever the setting, moves to the success directory exactly when cleaning up, and no failure |
| `DataSource.RejectionConserves` | brite2caom2/data_source.py:118-129 | Whatever is rejected: kept plus failures equals the listing; there are no successes; moves equal failures when cleaning up and are zero otherwise |
| `DataSource.GroupingConserves` | brite2caom2/data_source.py:104-129 | Grouping loses nothing and counts nothing twice: kept plus failures equals the listing |
| `DataSource.SentinelRemovalConserves` | brite2caom2/data_source.py:153-167 | Kept plus successes equals the work list; there are no failures; moves equal successes when cleaning up and are zero otherwise |
| `DataSource.SentinelRemovalKeepsArchived` | brite2caom2/data_source.py:153-167 | Sentinel removal keeps exactly the archived entries |
| `DataSource.CleanUpOfSentinel` | brite2caom2/data_source.py:131-143 | `clean_up` of a sentinel while cleaning up records what `remove_unarchived` records: the move, then the success. Otherwise it records nothing, where `remove_unarchived` still records the success |
| `DataSource.DefaultFilter` | brite2caom2/data_source.py:145-151 | A sentinel is always admitted; an archived file gets the inherited verdict |
| `DataSource.DefaultFilterOfWork` | brite2caom2/data_source.py:145-167 | `default_filter` and `remove_unarchived` agree: with the inherited verdict false, the filter admits an entry iff sentinel removal takes it out of the work list; an entry sentinel removal keeps gets the inherited verdict |
| `Composable.BuildTodoList` | brite2caom2/composable.py:113-128 | Grouping, the record count, then sentinel removal: listed = todo + failures + successes; record count = todo + successes; only archived files of complete observations are left; every failure precedes every success |
| `Composable.TodoListProperties` | brite2caom2/composable.py:119-128 | The same four facts, stated of the reference passes for any listing |
| `Composable.TodoIsArchivedAndComplete` | brite2caom2/composable.py:124-128 | Every file left to do is archived and belongs to an observation counted `len(extensions)` times in the listing |
| `Scenarios.ObsIdOfFile` | brite2caom2/data_source.py:169-171 | The observation id of `dir/root.ext` is `root`, whatever the directory |
| `Scenarios.ObsFilesSentinels` | brite2caom2/data_source.py:156-160 | The sentinels among an observation's files are the files of its sentinel extensions |
| `Scenarios.SentinelExtensions` | brite2caom2/tests/test_data_source.py:79 | Two of the seven configured extensions are sentinels, and both are among the first six |
| `Scenarios.GroupedWhole` | brite2caom2/composable.py:123-128 | An observation of the configured size passes grouping whole: the record count is its size, and the todo list and log are those of sentinel removal |
| `Scenarios.GroupedAway` | brite2caom2/composable.py:123-128 | An observation of another size leaves nothing to do, no record, and only its rejection log |
| `Scenarios.WholeObservation` | brite2caom2/composable.py:123-128 | A whole observation of `n` files with `s` sentinels gives `n` records, `n - s` to do, no failure, `s` successes, and `s` moves when cleaning up |
| `Scenarios.PartialObservation` | brite2caom2/data_source.py:114-129 | A partial observation gives no record, all its files failed in listing order, and each moved to the failure directory first when cleaning up |
| `Scenarios.CompleteObservation` | brite2caom2/composable.py:119-128 | The tally of `dir/root + ext` for configured extensions of the configured count |
| `Scenarios.IncompleteObservation` | brite2caom2/data_source.py:109-129 | The same listing with the wrong count: every file failed, with moves to the failure directory in listing order when cleaning up |
| `Scenarios.TodoOfDisjoint` | brite2caom2/composable.py:119-128 | The todo lists and tallies of two listings without a common observation add up |
| `Scenarios.CompleteObservations` | brite2caom2/composable.py:119-128 | `n` distinct complete observations give `n` times the tally of one |
| `Scenarios.SixObservations` | brite2caom2/tests/test_composable.py:159-178 | Six complete observations: 42 records, 30 files to store, 12 successes, no failure |
| `Scenarios.NominalListing` | brite2caom2/tests/test_data_source.py:100-126 | One complete observation with cleanup on: 7 records, 5 to do, 2 successes, 2 moves, no failure |
| `Scenarios.MissingFileListing` | brite2caom2/tests/test_data_source.py:131-173 | Without the `.rlogdb` file: nothing to do, 6 failures, and 6 moves to the failure directory, in listing order and naming each file |
| `Scenarios.PartialThenWhole` | brite2caom2/data_source.py:104-167 | A partial and a whole observation in one listing: the tally is the partial one's rejection plus the whole one's tally |
| `Scenarios.MixedBagListing` | brite2caom2/tests/test_data_source.py:178-208 | 13 files, `A` missing one, cleanup off: 5 to do, 6 failures, 2 successes, no move (13 = 5 + 6 + 2) |
| `Scenarios.CountOnlyCompleteness` | brite2caom2/data_source.py:109-113 | Seven files with `.avedb` twice and `.rlogdb` missing are taken for a complete observation: 7 records, 5 to do, 2 successes, no failure |
| `Scenarios.SentinelsFirstRejectComplete` | brite2caom2/composable.py:121-128 | With the passes swapped, a complete observation with sentinels would be rejected whole, which is why grouping runs first |
| `Reader.Append` | brite2caom2/reader.py:144-146 | `defaultdict(list)` append: adds the value at the end of that key's series, creates the key if absent, and leaves every other key alone |
| `Reader.KeysAreDistinct` | brite2caom2/reader.py:113-116 | The decorrelated and averaged key triples each name three different series |
| `Reader.BjdPointOk` | brite2caom2/reader.py:143-146 | A data line yields a point iff it has at least four values and values 0, 1 and 3 are numbers; the point is those values, and value 2 is ignored |
| `Reader.ScanBjdOutcome` | brite2caom2/reader.py:127-147 | The loop succeeds iff every data line is well formed. It finds the time axis iff some comment contains `2456000.0`. It appends columns 0, 1 and 3 to the three series, adds no other key, and creates the keys only if there is a data line |
| `Reader.ReadBjdFileOutcome` | brite2caom2/reader.py:118-153 | `_read_bjd_file` succeeds iff every data line is well formed and the axis header is present. A well-formed file without that header gives `Wrong default x-axis`. On success `metadata[uri]` is empty, `time_series[uri]` is the three columns, and nothing else changes |
| `Reader.BjdSeriesLengths` | brite2caom2/reader.py:143-152 | The series stored are the three keys only, each with one value per data line |
| `Reader.ScanBjdFirstError` | brite2caom2/reader.py:127-146 | The first malformed data line decides the error |
| `Reader.ReadBjdFileFirstError` | brite2caom2/reader.py:118-153 | A malformed data line fails the read, before the axis check, and nothing is stored |
| `Reader.BlankLineFailsBjd` | brite2caom2/reader.py:127-146 | A lone newline is a data line without values, so the read fails with the missing-value error |
| `Reader.HeaderSplit` | brite2caom2/reader.py:168-169 | A header line splits at its first `=` and is not a separator line |
| `Reader.HeaderKeyword` | brite2caom2/reader.py:171 | The keyword comes back after the `# ` is removed and the text is stripped |
| `Reader.HeaderValue` | brite2caom2/reader.py:172-173 | The value is the text before the first `/`, stripped |
| `Reader.HeaderRoundTrip` | brite2caom2/reader.py:167-177 | `# keyword = value / comment` records the value under the keyword. A keyword containing `column` also declares an empty series named by the value, and it replaces any earlier series of that name |
| `Reader.LaterHeaderWins` | brite2caom2/reader.py:171-174 | Of two headers with one keyword, the later value is kept |
| `Reader.SeparatorSkipped` | brite2caom2/reader.py:168-170 | A comment whose text before its first `=` (the whole text when there is none) contains `----------` changes nothing |
| `Reader.MalformedHeader` | brite2caom2/reader.py:168-172 | A non-separator header without `=` fails (the IndexError); one whose value has no `/` fails (the unpacking ValueError) |
| `Reader.OrigRowAppends` | brite2caom2/reader.py:179-182 | Under declared, distinct column names, value `x` of a row is appended to the series `metadata["column" + str(x + 1)]`, and no other series changes |
| `Reader.OrigRowUndeclared` | brite2caom2/reader.py:180-182 | A value whose column key no header declares fails with that key (the KeyError) |
| `Reader.ScanOrigTable` | brite2caom2/reader.py:163-182 | Rows read under declared headers append column `x` of the table to series `names[x]`, leave the header values alone, and touch no other series |
| `Reader.ReadFile` | brite2caom2/reader.py:104-116 | A file without a time series is not read. A successful read changes only `uri`'s entries, and stores both header values and series for `uri` |
| `Reader.ReadFileDispatch` | brite2caom2/reader.py:111-116 | `.orig` goes to the orig parser, `.ndatdb` to the bjd parser with `BJD`/`BRITEMAG`/`SIGMA_BRITEMAG`, `.avedb` with the `ave_` keys; other extensions change nothing |
| `Reader.LoadOneEffect` | brite2caom2/reader.py:219-226 | One turn of `set_time_series` keeps every series already read and every other URI. It reads the entry's URI when both file and URI carry data, and changes nothing for a file without data |
| `Reader.SetTimeSeries` | brite2caom2/reader.py:218-226 | Nothing happens for a file without data; series read before are never read again; only the listed URIs change; every listed data URI ends up read |
| `Reader.LoadedDataUris` | brite2caom2/reader.py:218-226 | After a successful pass every listed data URI is read |
| `Reader.SetTimeSeriesIdempotent` | brite2caom2/reader.py:218-226 | A second `set_time_series` on the result reads nothing and changes nothing |
| `MainApp.MappingFor` | brite2caom2/main_app.py:345-357 | No mapping iff the file is a sentinel; the un-decorrelated mapping iff `.orig`; the decorrelated mapping iff `.ndatdb` |
| `MainApp.MappingOfNamed` | brite2caom2/main_app.py:345-357 | The mapping of each configured extension: none for `.lst`/`.md5`, un-decorrelated for `.orig`, decorrelated for `.ndatdb`, plain otherwise |
| `MainApp.ArtifactProductType` | brite2caom2/main_app.py:123-129 | A science artifact's file always has a mapping; the last file to ingest and the sentinels are information |
| `MainApp.ProductTypeOfNamed` | brite2caom2/main_app.py:123-129 | Science iff `.orig`/`.ndatdb`/`.avedb`, info for `.freq0db`/`.lst`/`.md5`/`.rlogdb`; every science file has a mapping |
| `MainApp.Bandpass` | brite2caom2/main_app.py:259-268 | A bandpass is chosen iff `SatellID` is present, non-empty and ends in `b` or `r`; Blue iff `b`, Red iff `r`; lower < upper |
| `MainApp.UnknownFilterReported` | brite2caom2/main_app.py:267-268 | Any other last character is refused with that character |
| `MainApp.ClearChunk` | brite2caom2/main_app.py:302-317 | A cleared chunk has no `naxis`, no position, energy or time axis, and time and energy WCS reduced to their range; each of those two WCS keeps its presence, axis type, unit and range |
| `MainApp.ClearChunkFixpoints` | brite2caom2/main_app.py:299-317 | Clearing leaves a chunk alone iff it already allows no cutout; clearing twice is clearing once |
| `MainApp.UpdateArtifact` | brite2caom2/main_app.py:299-317 | Every chunk of every part is cleared; URI, product type, content type and the part names are kept |
| `MainApp.UpdateArtifactClears` | brite2caom2/main_app.py:299-317 | After `_update_artifact` no chunk allows a cutout, and a second call changes nothing |
| `MainApp.TouchArtifact` | brite2caom2/main_app.py:152-156 | A touched artifact gets `text/plain` and keeps its URI and product type. Under a metadata mapping it keeps every part, and each part is the cleared original (same name, every chunk cleared); under the plain mapping its parts are kept as they are |
| `MainApp.UpdateArtifacts` | brite2caom2/main_app.py:142-156 | An artifact is touched iff its URI is the file's URI and its plane has the collection's product id; untouched artifacts, plane fields and artifact keys are kept |
| `MainApp.UpdateCopyMetadata` | brite2caom2/main_app.py:162-176 | With both planes present, the decorrelated plane takes the un-decorrelated provenance, becomes calibrated, and keeps its product id; its artifacts are kept because the part copy for four or more artifacts is left out. Otherwise nothing changes; other planes never change |
| `MainApp.TouchArtifactIdempotent` | brite2caom2/main_app.py:152-156 | Touching an artifact twice is touching it once |
| `MainApp.UpdateArtifactsIdempotent` | brite2caom2/main_app.py:142-156 | The artifact loop applied to its own result changes nothing |
| `MainApp.ArtifactsAfterCopy` | brite2caom2/main_app.py:142-176 | The modelled plane copy keeps product ids and artifacts, so an artifact loop with nothing left to do still has nothing to do |
| `MainApp.CopyMetadataIdempotent` | brite2caom2/main_app.py:171-176 | Copying plane metadata twice is copying it once |
| `MainApp.Update` | brite2caom2/main_app.py:131-160 | `update` keeps the observation id, the planes and each plane's artifact keys; the file's artifact in a plane with the collection's product id is touched and every other artifact is kept |
| `MainApp.UpdateIdempotent` | brite2caom2/main_app.py:131-160 | `update`, without the part copy for four or more artifacts, applied to its own result changes nothing |
| `MainApp.UpdateOfAbsentUri` | brite2caom2/main_app.py:142-158 | When no artifact in a plane with the collection's product id carries the file's URI, `update` touches no artifact: only the plane copy acts |

## Left out

- A source without `BriteName.archived`: the model takes `archived` to name `is_archived`. Without it, the calls in the data source and the mapping factory, and line 149 of main_app.py on a matching artifact, would raise `AttributeError`.
- Directory scanning (`get_work`, `os.scandir`), `_move_action`, and the execution reporter's internals: these are I/O. Moves and captures are the `Moved`, `Failed` and `Succeeded` events of a log, and the capture timestamps are dropped.
- `clean_up` for an archived entry: it calls the inherited clean-up, which is not part of this model. `CleanUp` only says that the inherited one is used.
- `default_filter` for an archived entry: the inherited verdict is a parameter.
- File opening, `cadcget` retrieval, `fits.Header`, and the remote `set_file_info`: these are I/O. A file is given as the lines that iterating it yields.
- `float()`: a parameter `toFloat`, because floating-point parsing is not modelled.
- `BriteStorageClientMetadataReader.set_time_series`: it reads through the storage client. The file-system reader's version is modelled.
- Blueprint settings in `accumulate_blueprint`, `SkyCoord.from_name`, `utcnow` release dates, and all float arithmetic. This covers resolving power, plate-scale `cd11`, and the BJD/HJD offsets of the time range. It is configuration plumbing, network name resolution, clocks and floating point. The bandpass choice and its limits are modelled.
- `update_artifact_meta`: it copies file-info metadata computed elsewhere.
- Part and chunk copying in `_update_copy_metadata`, the branch for a decorrelated plane with four or more artifacts (main_app.py lines 178-190). It copies the parts and chunks of the `.ndatdb` artifact into every artifact whose URI holds neither `.jpg` nor `.natdb`, that artifact included, and raises `KeyError` when the plane has no `.ndatdb` artifact. Its effect depends on the behaviour of caom2 containers, which are not part of this model.
- MainApp.UpdateCopyMetadata: the decorrelated plane's artifacts are stated to be kept only because that branch is left out. With four or more artifacts the source adds part copies to them, or raises `KeyError`.
- MainApp.ArtifactsAfterCopy: holds only because the part copy for four or more artifacts is left out; with it, the copied parts would change the artifacts the loop compares.
- MainApp.UpdateIdempotent: proved for `update` without the part copy for four or more artifacts; with it, each call would add further part copies, and it may raise `KeyError`.
- MainApp.UpdateCopyMetadata: the source assigns the un-decorrelated plane's provenance object to the decorrelated plane, so the two planes share one object; the model copies the value. No modelled rule changes a provenance afterwards, so the two readings agree here.
- MainApp.UpdateArtifacts: the `not self._storage_name.archived` test of main_app.py line 149 is read as written, a function that is never called, so it never skips an artifact; the file's archived status plays no part in the loop.
- StorageName.UseDifferentFile and StorageName.UseDifferentFileSwapsExtension: the second result stands for the URI by the base name it is built from; `_get_uri` and the storage scheme are not part of this model.
- `MainApp.TouchArtifact`: for the plain mapping, the inherited `_update_artifact` is assumed to do nothing to the artifact.
- The WCS of a chunk keeps only its axis (type, unit, range, function). Other fields are not read or written by the modelled rules.
- Preview generation (plotting with matplotlib and numpy). Its one decision, acting only on `.rlogdb`, is `StorageName.IsLastToIngest`.
- `_run`, `_common_init` and `run`: configuration and client wiring.
- `Reader.ScanBjdOutcome`, `Reader.ReadBjdFileOutcome` and `Reader.BjdSeriesLengths` assume the three series keys are distinct. Both key triples the source uses are distinct (`Reader.KeysAreDistinct`), so a triple with a repeated key is not stated.
- `Reader.OrigRowAppends` and `Reader.ScanOrigTable` assume the declared column names are distinct. With a repeated name the source appends both values to one series, which is not stated.
- `Reader.HeaderRoundTrip` and `Reader.LaterHeaderWins` are stated for keywords without `=`, `#` or `-` and with no surrounding whitespace, and for values without `/` and with no surrounding whitespace. Other header lines are covered by `OrigHeader` itself and by `Reader.MalformedHeader` and `Reader.SeparatorSkipped`.
- `Scenarios.NominalListing`, `Scenarios.MissingFileListing` and `Scenarios.MixedBagListing` take any directory in place of the tests' `/test_files`.
