# ckanext-cloudstorage: storage/catalog reconciliation, modelled in Dafny

ckanext-cloudstorage keeps the files uploaded to CKAN resources in a cloud
container. An upload of resource `id` with url `filename` is stored under the
object name `resources/<id>/<munge_filename(filename)>`. The maintenance
commands compare the container listing with the catalog:

- `list-linked-uploads` and `list-unlinked-uploads` list the objects that an
  active upload resource of an active dataset does or does not account for.
- `remove-unlinked-uploads` deletes the unlinked objects.
- `list-missing-uploads` lists the active upload resources whose object is
  missing.
- `migrate` uploads a local storage directory of the old file store into the
  container.

`cli.py` keeps an older version of the unlinked and missing commands. That
version filters the catalog on `url_type` alone.

The model works on values handed to it:

- The catalog query result is a sequence of `Row`s. `Catalog.Row` holds the
  columns the queries read, including the package state.
- The container listing is a sequence of `StorageObject`s, each with a name
  and a size in bytes.
- `munge_filename` and `render_datetime` are fields of a `Host` value. The
  model therefore holds for any implementation of them.
- The container is a `Storage.Container` object. Its delete and upload calls
  may succeed or fail, and each call is recorded in a ghost call log.
- `resource_show` is a function parameter that answers `None` for
  `NotFound`.
- `os.walk` is a sequence of `WalkEntry(root, files)`, and `os.path.isdir` is
  a boolean.

Modules:

- `Paths`: Python's `str.split('/')`, `os.path.join` and `url.split('/')[-1]`.
- `Catalog`: rows, storage objects, the storage key and the expected-key set.
- `Reports`: `_humanize_space` and the CSV rows of `_write_uploads_to_csv`.
- `Uploads`: `_get_uploads`, the two listing commands and
  `list_missing_uploads`.
- `Storage`: the container.
- `Cleanup`: `remove_unlinked_uploads`.
- `LegacyCli`: the older commands in `cli.py`.
- `Migration`: `_migrate`.
- `Sequences` and `Wrappers`: generic helpers. `IsSubsequence` states order
  preservation, and `Result` models the `IndexError` that an unguarded
  `split('/')[k]` raises.

## Model

| member | source | states |
|---|---|---|
| Paths.Split | ckanext/cloudstorage/utils.py:56 | `str.split('/')` always yields at least one segment |
| Paths.SplitHasTwoSegments | ckanext/cloudstorage/utils.py:56 | `name.split('/')[1]` exists, with no IndexError, exactly when the name contains a '/' |
| Paths.SplitNoSeparator | ckanext/cloudstorage/cli.py:103 | a string without '/' splits into itself alone |
| Paths.SplitAround | ckanext/cloudstorage/cli.py:103 | splitting at an inserted '/' splits the two sides separately |
| Paths.SplitSegmentsHaveNoSeparator | ckanext/cloudstorage/utils.py:56 | no segment produced by split contains '/' |
| Paths.JoinSplit | ckanext/cloudstorage/utils.py:56 | rejoining the segments with '/' gives back the string |
| Paths.SplitJoin | ckanext/cloudstorage/utils.py:28-31 | splitting a '/'-join of separator-free segments gives back those segments |
| Paths.PathJoinComponents | ckanext/cloudstorage/utils.py:28-31 | `os.path.join(a, b)` is `a + '/' + b` when `a` is non-empty without a trailing '/' and `b` is not absolute |
| Catalog.StorageKey | ckanext/cloudstorage/utils.py:28-31 | for an id that is a plain path component and a munged name without '/', the key is `resources/<id>/<munged name>` |
| Catalog.ExpectedKeys | ckanext/cloudstorage/utils.py:28-41 | the key of every active upload resource of an active dataset is expected, and every expected key is the key of such a resource |
| Catalog.KeyNamesItsResource | ckanext/cloudstorage/utils.py:28-31 | the storage key of a resource with a non-empty id that contains no '/' splits into exactly `resources`, the id and the munged filename |
| Catalog.ExpectedKeysNameEligibleRows | ckanext/cloudstorage/utils.py:28-41 | the expected-key set holds the key of every active upload resource of an active dataset, and each key in it names such a resource by its second segment |
| Catalog.Lookup | ckanext/cloudstorage/utils.py:58-71 | the per-object query finds an upload row with the requested id, and finds nothing exactly when no upload row has that id |
| Uploads.Select | ckanext/cloudstorage/utils.py:47-54 | the selection is never longer than the listing; its contents are stated by `Uploads.SelectMembership` |
| Uploads.RecordFor | ckanext/cloudstorage/utils.py:72-82 | upload_url is the object name and upload_size its size/1000; resource_id is present exactly when a row was found, and then id, url and both states are the row's |
| Uploads.RecordForFields | ckanext/cloudstorage/utils.py:72-82 | for a found row, all eight catalog fields come from it: id, url, package_id and owner_org as they are, created and last_modified through render_datetime, and both states |
| Uploads.RecordForNone | ckanext/cloudstorage/utils.py:72-82 | without a row, all eight catalog fields are None |
| Uploads.Enrich | ckanext/cloudstorage/utils.py:56-82 | the record carries the object's name and size/1000; it names a resource only when the id segment is non-empty, and then names that id |
| Uploads.EnrichUpload | ckanext/cloudstorage/utils.py:56-82 | a name with a '/' yields its enriched record; a name without one raises IndexError |
| Uploads.EnrichedStep | ckanext/cloudstorage/utils.py:47-83 | one kept object extends the record list by its record and the total by its size/1000 |
| Uploads.EnrichAll | ckanext/cloudstorage/utils.py:56-82 | one record per selected object |
| Uploads.GetUploads | ckanext/cloudstorage/utils.py:24-85 | objects-only mode returns the selected objects in listing order with total 0. Otherwise the result is one enriched record per selected object with total = sum of size/1000, or an IndexError when a selected name has no '/' |
| Uploads.SelectStep | ckanext/cloudstorage/utils.py:47-54 | one loop step keeps the object exactly when it is linked or unlinked as asked |
| Uploads.EnrichAllSnoc | ckanext/cloudstorage/utils.py:72-82 | appending an object appends its record |
| Uploads.SelectMembership | ckanext/cloudstorage/utils.py:47-50 | an object is selected iff it is listed and its name is in, or is not in, the expected keys, as asked |
| Uploads.SelectPartition | ckanext/cloudstorage/utils.py:47-50 | the linked and the unlinked selections together are exactly the listing, as a multiset |
| Uploads.SelectKeepsOrder | ckanext/cloudstorage/utils.py:47-53 | each selection is a subsequence of the listing |
| Uploads.UnlinkedShrinksWithKeys | ckanext/cloudstorage/utils.py:47-50 | more expected keys yield a subsequence of the unlinked objects |
| Uploads.StorageKeyHasSeparator | ckanext/cloudstorage/utils.py:28-31 | every storage key contains a '/' |
| Uploads.LinkedAreSplittable | ckanext/cloudstorage/utils.py:56 | the linked listing never raises the IndexError |
| Uploads.EnrichAllOnePerObject | ckanext/cloudstorage/utils.py:72-83 | record i carries object i's name as upload_url and its size/1000 as upload_size |
| Uploads.EnrichUnresolved | ckanext/cloudstorage/utils.py:57-82 | a record's catalog fields are all empty exactly when the object's id segment is empty or matches no upload row |
| Uploads.LinkedEntriesResolve | ckanext/cloudstorage/utils.py:56-73 | when catalog ids are non-empty and contain no '/', a linked object's id segment is non-empty and its record names that resource |
| Uploads.TotalIsSumOfEntrySizes | ckanext/cloudstorage/utils.py:80-83 | the reported total equals the sum of the upload_size fields of the records |
| Uploads.MissingRecords | ckanext/cloudstorage/utils.py:207-225 | one record per missing resource |
| Uploads.MissingRowsStep | ckanext/cloudstorage/utils.py:208-225 | one loop step appends a record exactly when the row's key is not among the object names |
| Uploads.MissingUploads | ckanext/cloudstorage/utils.py:187-225 | the records of the active upload rows of active datasets whose key is not an object name, in query order |
| Uploads.ListMissingUploads | ckanext/cloudstorage/utils.py:187-231 | with an output path, the CSV of the missing records, header row first and nothing when none are missing; without one, their number |
| Uploads.EligibleRowsMembership | ckanext/cloudstorage/utils.py:202-205 | a row is queried iff it is an active upload of an active dataset |
| Uploads.MissingRowsMembership | ckanext/cloudstorage/utils.py:214 | a row is reported missing iff its key is not an object name |
| Uploads.MissingRecordsAt | ckanext/cloudstorage/utils.py:215-225 | record i is built from row i, with upload_url and upload_size empty and both states active |
| Uploads.MissingUploadsExactly | ckanext/cloudstorage/utils.py:187-225 | a row is reported iff it is an eligible row whose key has no object, and every record carries no upload fields and active states |
| Uploads.MissingRowsKeepOrder | ckanext/cloudstorage/utils.py:208-215 | the missing rows keep query order |
| Uploads.LinkedOrMissing | ckanext/cloudstorage/utils.py:28-50 | every eligible row's key either names a listed object or the row is reported missing, never both |
| Uploads.ListUploads | ckanext/cloudstorage/utils.py:131-152 | with an output path, the CSV of the enriched selection, header row first; without one, its count and humanized total; an IndexError propagates |
| Reports.HumanizeSpace | ckanext/cloudstorage/utils.py:88-95 | the loop's result is `Humanize(space)` |
| Reports.Humanize | ckanext/cloudstorage/utils.py:88-95 | the figure is below 1000 unless the input comes back unchanged as KB; a KB result is always the input itself |
| Reports.HumanizeSmallestScale | ckanext/cloudstorage/utils.py:88-95 | the unit is the smallest scale at which the quotient is below 1000; from 1000 TB upward, the input comes back as KB |
| Reports.HumanizeExamples | ckanext/cloudstorage/utils.py:88-95 | 500 → 500 KB, 1500 → 1.5 MB, 10^6 → 1 GB, 0 → 0 KB, 1000 → 1 MB |
| Reports.CsvRowRoundTrip | ckanext/cloudstorage/utils.py:105-126 | a CSV row has the header's ten columns, in header order, and parses back to the record it was written from |
| Reports.WriteUploadsToCsv | ckanext/cloudstorage/utils.py:98-128 | nothing is written iff the list is empty; otherwise the header and then one row per upload, in order |
| Storage.WithoutMembership | ckanext/cloudstorage/utils.py:164 | a successful delete removes exactly the objects with that name |
| Storage.Container.ListObjects | ckanext/cloudstorage/utils.py:43 | the listing is the container's contents |
| Storage.Container.DeleteObject | ckanext/cloudstorage/utils.py:164 | the call is logged; on success the object is gone, on failure nothing changes |
| Storage.Container.UploadResource | ckanext/cloudstorage/cli.py:136-140 | the call, with its outcome, is logged |
| Cleanup.ObjectsOf | ckanext/cloudstorage/utils.py:163 | one object per delete call |
| Cleanup.Tally | ckanext/cloudstorage/utils.py:160-171 | success + failures = number of delete calls, and saved + used stays at the starting used space |
| Cleanup.DeleteStep | ckanext/cloudstorage/utils.py:162-171 | one more delete call appends its object, counts its outcome and removes the object from the container when it succeeds |
| Cleanup.TallyAccounts | ckanext/cloudstorage/utils.py:160-171 | success + failures = attempts, success counts the deleted objects and failures the kept ones, saved = deleted size, and saved + used stays constant |
| Cleanup.RemoveUnlinkedUploads | ckanext/cloudstorage/utils.py:155-184 | exactly one delete per unlinked object, in listing order; the counters tally the outcomes; the container loses exactly the deleted objects; the summary is the one the code prints, `SummaryAsWritten` of the counters |
| Cleanup.SummaryAsWritten | ckanext/cloudstorage/utils.py:173-184 | the Deleted line appears iff something was deleted, the Failed line iff something failed, the Remaining line iff used space is non-zero; below 1000 KB the Deleted line reports `used_space` |
| Cleanup.SavedAsWrittenIsNegative | ckanext/cloudstorage/utils.py:173-184 | as written, deleting objects of positive total size reports a negative "Saved" amount and a negative "Remaining" line |
| Cleanup.SavedSpaceCounterexample | ckanext/cloudstorage/utils.py:158-184 | deleting one unlinked 2000-byte object prints "Saved -2.0 KB" and "Remaining -2.0 KB" where 2.0 KB saved and nothing remaining were meant |
| Cleanup.SummaryReportsSavedAndRemaining | ckanext/cloudstorage/utils.py:173-184 | the corrected summary reports the deleted count and humanized saved space, the failure count, and the humanized size of the objects left undeleted; each line appears exactly when it is non-zero |
| LegacyCli.UploadRowsStep | ckanext/cloudstorage/cli.py:186-196 | one step of the key loop takes the row iff it is an upload |
| LegacyCli.KeysOfSnoc | ckanext/cloudstorage/cli.py:192-196 | the key loop appends the row's storage key |
| LegacyCli.NamesOfSnoc | ckanext/cloudstorage/cli.py:201-204 | the name list appends the object's name |
| LegacyCli.LegacyKeys | ckanext/cloudstorage/cli.py:185-196 | a key is in the older command's key list iff it is the storage key of some upload row |
| LegacyCli.LegacyKeysExactly | ckanext/cloudstorage/cli.py:185-196 | the same iff, as a lemma over all keys |
| LegacyCli.KeysOfOrigin | ckanext/cloudstorage/cli.py:192-196 | every key in the key list is the key of a queried row |
| LegacyCli.GetUnlinkedUploads | ckanext/cloudstorage/cli.py:182-216 | the listed objects, or their names, whose name is not the key of any upload row (of any state), in listing order |
| LegacyCli.LegacyUnlinkedMembership | ckanext/cloudstorage/cli.py:198-204 | an object is unlinked for the older command iff it is listed and no upload row's key is its name |
| LegacyCli.UploadRowsMembership | ckanext/cloudstorage/cli.py:186-190 | a row is queried iff its url_type is upload |
| LegacyCli.KeysOfMembership | ckanext/cloudstorage/cli.py:192-196 | every queried row's key is in the key list |
| LegacyCli.CurrentKeysWithinLegacy | ckanext/cloudstorage/cli.py:185-196 | the key set of `utils.py` is contained in the older command's key set |
| LegacyCli.LegacyUnlinkedWithinCurrent | ckanext/cloudstorage/cli.py:200-204 | every object the older command calls unlinked is unlinked for `utils.py` too, in the same order |
| LegacyCli.RemoveUnlinkedUploads | ckanext/cloudstorage/cli.py:219-238 | one delete per unlinked object, in order; success + failures = number unlinked; the container loses exactly the deleted objects |
| LegacyCli.ListMissingUploads | ckanext/cloudstorage/cli.py:241-266 | the ids of upload rows, of any state, whose key is not an object name, in query order |
| LegacyCli.MissingRowsSnoc | ckanext/cloudstorage/cli.py:253-260 | one row appended to the query appends it to the missing rows iff its key has no object |
| LegacyCli.MissingIdsStep | ckanext/cloudstorage/cli.py:253-260 | one loop step appends the id iff the row is an upload whose key has no object |
| LegacyCli.LegacyMissingExactly | ckanext/cloudstorage/cli.py:241-260 | a row is reported iff it is an upload row whose key has no object |
| LegacyCli.CurrentMissingWithinLegacy | ckanext/cloudstorage/cli.py:246-260 | what `utils.py` reports missing the older command reports too, in the same order |
| Migration.IdentityShape | ckanext/cloudstorage/cli.py:103-107 | the identity ends with the file name and, for a file name without '/', contains no '/' |
| Migration.EntryTasks | ckanext/cloudstorage/cli.py:106-114 | every task of a directory passes the single-id filter |
| Migration.Tasks | ckanext/cloudstorage/cli.py:97-114 | every task in the map passes the single-id filter, and the only failure of the walk is IndexError |
| Migration.TasksFailExactly | ckanext/cloudstorage/cli.py:97-114 | the walk fails iff some directory with files has a root of fewer than two segments |
| Migration.BuildTasks | ckanext/cloudstorage/cli.py:97-114 | the walk loop builds exactly the task map `Tasks`, or fails with IndexError on a root with fewer than two segments that has files |
| Migration.AddEntryTasks | ckanext/cloudstorage/cli.py:103-114 | the inner loop adds exactly the directory's `EntryTasks` over the tasks already built |
| Migration.TasksSnoc | ckanext/cloudstorage/cli.py:97-114 | one more walk entry adds its files' tasks over the earlier ones |
| Migration.EntryTasksStep | ckanext/cloudstorage/cli.py:106-114 | one more file adds its task when it is wanted |
| Migration.UnionUpdate | ckanext/cloudstorage/cli.py:112 | a task assignment after a merge equals the merge with that assignment |
| Migration.TasksErrorPersists | ckanext/cloudstorage/cli.py:102-103 | an IndexError in any walk entry aborts the whole walk |
| Migration.SingleIdTasks | ckanext/cloudstorage/cli.py:107-109 | with a non-empty single id, at most that id gets a task |
| Migration.EmptyEntriesIgnored | ckanext/cloudstorage/cli.py:100-101 | a directory with no files adds nothing, even when its path is too short to split |
| Migration.TaskOrigin | ckanext/cloudstorage/cli.py:97-114 | every task is the identity (last two root segments + file name) of a wanted walked file, mapped to its joined path |
| Migration.TaskCoverage | ckanext/cloudstorage/cli.py:97-114 | conversely, every wanted walked file has a task under its identity |
| Migration.EntryOrigin | ckanext/cloudstorage/cli.py:106-114 | per directory, every task is the wanted identity of one of its files, mapped to its joined path |
| Migration.EntryCoverage | ckanext/cloudstorage/cli.py:106-114 | per directory, every wanted file identity has a task |
| Migration.LaterOverwrites | ckanext/cloudstorage/cli.py:112 | the tasks of two walks in sequence are the first walk's map overwritten by the second's |
| Migration.UnionAssoc | ckanext/cloudstorage/cli.py:112 | merging task maps is associative |
| Migration.TasksPrefixOk | ckanext/cloudstorage/cli.py:97-114 | when a non-empty walk yields tasks, so does the walk without its last directory |
| Migration.RunTasks | ckanext/cloudstorage/cli.py:116-143 | every task is visited once; each uploadable task gets exactly one upload call with its resource id, its url's last segment and its path; `failed` lists the tasks whose upload raised |
| Migration.FailedOfSnoc | ckanext/cloudstorage/cli.py:138-142 | an attempt appends its task to the failed list iff it raised, and to the successes otherwise |
| Migration.FailedSucceededSplit | ckanext/cloudstorage/cli.py:138-142 | failures and successes together are exactly the attempts, as a multiset |
| Migration.FailedWereAttempted | ckanext/cloudstorage/cli.py:138-142 | every failed task had an attempt that raised |
| Migration.FailedDistinct | ckanext/cloudstorage/cli.py:116-142 | no task is listed as failed twice |
| Migration.FailuresIsolated | ckanext/cloudstorage/cli.py:116-143 | only uploadable tasks can fail; NotFound and non-upload resources never appear in `failed`; failures plus successes are exactly the attempted tasks |
| Migration.WriteLines | ckanext/cloudstorage/cli.py:145-147 | no lines write an empty log; a character is in the log iff it is in one of the lines |
| Migration.WriteLinesAppend | ckanext/cloudstorage/cli.py:145-147 | writing two lists in turn writes their concatenation |
| Migration.Migrate | ckanext/cloudstorage/cli.py:76-148 | nothing happens without a directory or on a walk IndexError; otherwise all tasks run, and a failure log holding the failed ids back-to-back exists iff some upload failed |

## Left out

- Console output (`print`, `click.echo`) is left out, apart from the values
  the removal summary and the listing summary carry.
- The CSV encoding, the file opened for it and its "Nothing to write" and
  "Wrote N row(s)" messages are left out. `Reports.WriteUploadsToCsv` returns
  the rows as cells.
- The SQL queries are replaced by a sequence of rows and the filters the
  queries apply. Query order is the sequence order.
- `.first()` on the per-object query is modelled as the first matching row.
  The database does not fix that order.
- Python floats become Dafny reals, so `size / 1000.0` and the division loop
  of `_humanize_space` do not round.
- The iteration order of `resources.iteritems()` in `_migrate` is
  unspecified. The model picks any remaining key at each step.
- `Storage.Container.UploadResource` records the upload. It does not add the
  object to the container's contents, because `ResourceCloudStorage`'s key
  scheme is outside this model.
- Opening each local file in `_migrate` (`open(file_path, 'rb')`) is left
  out. An I/O error there would abort the whole command rather than being
  collected in `failed`.
- The failure log of `_migrate` is a value. The model creates no temporary
  file, and the log's name is not printed.
- `initdb`, `_fix_cors`, the command dispatch in `cli.py` and
  `commands.py`, the download view and the plugin classes are not part of
  this model.
- `_list_unlinked_uploads` only prints the list and its length. It is
  covered by `LegacyCli.GetUnlinkedUploads` with `returnObjects` false.
- `LegacyCli.RemoveUnlinkedUploads` only counts. Like the source, it prints
  no space figures.
- Uploads.Select: its own contract states only that the selection is no
  longer than the listing, because a membership clause there makes every
  caller's proof too costly. `Uploads.SelectMembership` states the contents
  and `Uploads.SelectKeepsOrder` the order.
- Migration.Identity: its own contract is empty for the same reason.
  `Migration.IdentityShape` states its shape.
- The older commands in `cli.py` query `Resource` without joining
  `Package`. The model gives them the same joined rows as `utils.py`, so a
  resource whose package row is missing is in neither. The older key list and
  missing ids would include such a resource, and the model does not.
- The `migrate` failure log has no newline between ids, because the ids are
  passed to `writelines` as they are. A log with one id per line would be
  the natural reading, but the code does not write one.

## Findings

| source | as written | input that shows it | evidently intended | confidence | as-written member | corrected member |
|---|---|---|---|---|---|---|
| ckanext/cloudstorage/utils.py:158-184 | The objects-only listing returns a total of 0, so `used_space` becomes minus the deleted size. The "Saved" line then humanizes `used_space` instead of `saved_space`. | One unlinked object `resources/gone/data.csv` of 2000 bytes, deleted successfully. The command prints "Saved -2.0 KB." and "Remaining space used by unlinked uploads: -2.0 KB." | "Saved 2.0 KB." and no remaining line, because nothing unlinked is left | not executed | Cleanup.SummaryAsWritten, Cleanup.SavedAsWrittenIsNegative, Cleanup.SavedSpaceCounterexample | Cleanup.SummaryReportsSavedAndRemaining |
