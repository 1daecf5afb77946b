# Archiver for Google Photos, modelled in Dafny

This project models the archiving core of `gparch.py`, the `PhotosAccount` pipeline.

- It lists a collection: the library, the favorites, the albums or the shared albums. Each listing follows `nextPageToken` until the server stops sending one.
- It turns the listed items into download tasks. Only images and videos get a task. Each task is aimed at the item's recorded path, or at a sanitized filename in the collection's directory.
- It downloads each task whose file is not on disk. A 200 reply is saved under a collision-free name, and then best-effort XMP metadata is written.
- It records every success in the `media` table of the sqlite index.
- Albums get a directory of their own, also collision-free, which is recorded in the `albums` table.

The modules follow the program's structure:

| file | module | what it holds |
|---|---|---|
| `text.dfy` | `Text` | `Option`; `str(n)` for naturals; Python's `in` on strings; `rfind`; how Python clamps slice bounds |
| `files.dfy` | `Files` | the filesystem as two sets of paths (`files`, `dirs`), and `safe_mkdir` |
| `naming.dfy` | `Naming` | `auto_mkdir` and `auto_filename`: the candidate names, and the loop that searches for a free one |
| `index.dfy` | `Index` | the two tables, plus `select_*` (first row with a uuid) and `insert_*` |
| `remote.dfy` | `Remote` | the Photos Library API as a script of replies; the four pagination loops |
| `metadata.dfy` | `Metadata` | the metadata block of `download_media_item` |
| `tasks.dfy` | `Tasks` | the task built for an item and the effect of one download, as functions; idempotence lemmas |
| `archive.dfy` | `Archive` | the `PhotosAccount` class: index tables, download counter, and the pipeline methods proved against the functions above |

How the environment is represented:

- **The filesystem.** It is a `FileSystem` object with two sets, `files` and `dirs`. `os.path.exists` means membership in either set. `os.path.isfile`, used by the skip test in `download_media_item`, means membership in `files`.
- **The server.** For each request loop it is a sequence of replies. Reply `i` answers request `i`. A reply records whether its entries key is present and the `nextPageToken` it carries. `Ends(pages)` says that the script reaches a reply without a token.
- **The worker pool.** `Pool.schedule(n)` is a permutation of the `n` tasks and gives the order in which results come back. Each task runs to completion in that order. `Pool.response(i)` is the HTTP outcome of task `i`, and `Pool.xmp(i)` is how libxmp behaves for it.
- **`sanitize`.** It is a parameter.
- **`os.path.abspath`.** It is the identity.

Behaviours of the code worth noting:

- **Album page size.** `list_albums` asks for `pageSize=50` (gparch.py:470, 482). The model's `AlbumPageSize` is 50.
- **Items with missing keys.** `process_media_items` reads `id` and `mimeType` of every item, `filename` only of an item the index does not have (gparch.py:316-319), and `baseUrl` and `mediaMetadata.creationTime` only of an image or video item (gparch.py:330-351). A missing key among those it reads raises `KeyError`; the item is not skipped. `RemoteItem` holds all of these fields as required, so such an item cannot be expressed.
- **No index backfill.** A file already on disk at the target path is skipped. No row is added for it, even when the index has none (gparch.py:211, 263-264).
- **Vanished files.** When an item's recorded file has vanished, the item is fetched again to the recorded path, and a second row with the same uuid is inserted (`Tasks.VanishedFileRecordedTwice`).
- **Same-name items.** Two un-indexed items whose names sanitize alike in one directory aim at the same path. When the first has been saved before the second is looked at, the second is skipped by the `isfile` test and never fetched (`Tasks.SameNameSecondItemSkipped`). That is what happens with one worker thread, and in this model's sequential drain. With several threads both may pass the `isfile` test before either writes, and the second is then saved as `name (1)`; that interleaving is not modelled.
- **Names without a dot.** In `auto_filename`, a path without a "." gets its marker before the last character, because `rfind` returns -1 (`Naming.FileCandidateShape`).

## Model

| member | source | states |
|---|---|---|
| Text.NatToString | gparch.py:69 | `str(n)` is a non-empty string of decimal digits, a single digit exactly when n < 10, and without a leading zero |
| Text.NatToStringInjective | gparch.py:69 | distinct instance numbers give distinct `str(instance)` texts |
| Text.Contains | gparch.py:330 | the `in` test on strings holds exactly when the substring occurs at some position |
| Text.RFind | gparch.py:86 | `rfind` gives -1 exactly when the character is absent; otherwise the position of its last occurrence |
| Text.SliceIndex | gparch.py:87-89 | a slice bound is clamped to `0..len`: one past the end becomes `len`, and a negative bound counts from the end |
| Files.FileSystem.SafeMkdir | gparch.py:55-60 | the directory exists afterwards; it is created only when nothing existed at the path; files are unchanged |
| Naming.Marker | gparch.py:69 | the marker is " (", then `str(n)`, then ")" |
| Naming.Candidate | gparch.py:63-96 | instance 0 tries the path itself; a numbered candidate is the path with ` (n)` inserted (stated by MarkerInCandidate and FileCandidateShape) |
| Naming.MarkerInCandidate | gparch.py:67-72 | a numbered candidate is the path with its marker inserted: at the end for directories, at the split point for files; the text before and after the marker is the path's |
| Naming.CandidateInjective | gparch.py:63-96 | distinct instance numbers give distinct candidate names |
| Naming.TriedSnoc | gparch.py:63-96 | the next instance's candidate has not been tried before, and it is the only one added |
| Naming.TriedSize | gparch.py:63-96 | after n misses, n distinct names have been tried |
| Naming.TakenBound | gparch.py:63-96 | the number of consecutive taken candidates is at most the number of existing paths, so the search ends |
| Naming.FreeInstance | gparch.py:74-77 | the search ends at an instance no larger than the number of existing paths; every earlier candidate exists and this one does not |
| Naming.FreeName | gparch.py:63-96 | the chosen name does not exist; it is the path itself when that is free; it is the candidate of an instance all of whose predecessors exist |
| Naming.FreeInstanceIsLeast | gparch.py:74-77 | the chosen instance is the first one whose candidate does not exist |
| Naming.SearchFreeName | gparch.py:63-96 | the loop returns a name that does not exist, namely the first free candidate |
| Naming.AutoFilename | gparch.py:80-96 | the returned name does not exist, is the first free candidate, and is the path itself when that is free |
| Naming.AutoMkdir | gparch.py:63-77 | the created directory did not exist before, is the first free candidate, is the only directory added, and files are unchanged |
| Naming.FileCandidateShape | gparch.py:84-90 | the marker goes before the last "."; with no "." it goes before the final character; an empty path becomes the bare marker |
| Index.FirstMatch | gparch.py:285-288 | a lookup answers the first row with the uuid, and answers None exactly when no row has it |
| Index.FirstMatchStable | gparch.py:285-293 | appending rows never changes a lookup that already found a row |
| Index.FirstMatchAppended | gparch.py:285-293 | for an absent uuid, a lookup after appending finds the first appended row that has it |
| Index.SelectMediaAfterInsert | gparch.py:285-294 | after `insert_media_item`, an indexed item keeps its first row, a new item is found at the new row, and other uuids stay absent |
| Index.SelectAlbumAfterInsert | gparch.py:296-305 | the same for `insert_album` and `select_album` |
| Index.SelectMedia | gparch.py:285-288 | a found row is in the table and has the uuid; None holds exactly when no row has the uuid |
| Index.SelectAlbum | gparch.py:296-299 | a found row is in the table and has the uuid; None holds exactly when no row has the uuid |
| Index.SelectAlbumStable | gparch.py:296-305 | a recorded album keeps its row however many album rows are appended |
| Remote.LastFrom | gparch.py:448-462 | reading from reply i on, the loop stops at the first reply without `nextPageToken` |
| Remote.LastPage | gparch.py:448-462 | the loop stops at the first reply without `nextPageToken` |
| Remote.DrainFrom | gparch.py:447-462 | reading from reply i on, only a strict loop can fail, and only when a reply it reads lacks the entries key |
| Remote.ListingOf | gparch.py:442-514 | the loop returns early with an empty listing exactly when the first reply is falsy; it fails only in a strict loop with a page lacking the key |
| Remote.FlattenAppend | gparch.py:451-452 | accumulating the entries of two runs of pages concatenates them |
| Remote.DrainFromIsFlatten | gparch.py:447-462 | from reply i on, the lenient loop collects the entries of every reply up to the first one without a token |
| Remote.DrainIsFlatten | gparch.py:447-462 | the lenient loop collects, in order, the entries of every reply up to the first one without a token |
| Remote.StrictDrainFrom | gparch.py:498-510 | from reply i on, the strict loop fails exactly when a reply it reads lacks the key |
| Remote.StrictDrain | gparch.py:492-514 | with every entries key present the strict loop gives the same list; a missing key on a page it reads makes it fail |
| Remote.Paginate | gparch.py:442-542 | the listing is the drained script or an empty/failed outcome; the first request carries the initial token; each later request carries the previous reply's token; one request per page read |
| Remote.ListMediaItems | gparch.py:442-465 | the items are all entries of the pages read; every request is `mediaItems.list` with pageSize 100; the first has no token |
| Remote.ListAlbums | gparch.py:467-490 | the albums are all entries of the pages read; every request is `albums.list` with pageSize 50 |
| Remote.SearchFavorites | gparch.py:516-542 | the items are all entries of the pages read; every request is the favorites search with pageSize 100; the first has token "" |
| Remote.ListSharedAlbums | gparch.py:492-514 | an empty first reply gives an empty list; otherwise the call fails exactly when a page read lacks `sharedAlbums`, and otherwise gives all entries |
| Remote.EntriesOrEmpty | gparch.py:442-465 | the entries of a successful listing are the flattened pages |
| Metadata.SidecarPath | gparch.py:246-247 | the sidecar name is the media path followed by exactly ".xmp" |
| Metadata.Embed | gparch.py:216-254 | nothing is attempted without a truthy description or a creation time; an unparsable creation time fails before either write; with a parsable date, a file that opens and accepts the packet is written in place, and otherwise the sidecar is created exactly when its path is not a directory, and receives the packet exactly when serializing succeeds (a failed serialization leaves it without its packet); an in-place write needs the file opened and libxmp accepting the packet; a failure that leaves no file comes only from the date parser or a sidecar path that is a directory |
| Tasks.TaskFor | gparch.py:307-354 | an item gets a task exactly when it is an image or a video; the task carries its id, the album, `=d`/`=dv`, the recorded or fresh path, the description and the creation time |
| Tasks.TasksFor | gparch.py:307-354 | there are no more tasks than items, and every task carries the batch's album |
| Tasks.TasksForSingle | gparch.py:309-353 | a single item gives its task when it is an image or a video, and nothing otherwise |
| Tasks.TasksForAppend | gparch.py:309-354 | the tasks of a concatenation are the concatenation of the tasks |
| Tasks.MediaIndices | gparch.py:330-353 | each index points at an image or video item |
| Tasks.MediaIndicesIncreasing | gparch.py:309-354 | the media items keep their input order |
| Tasks.MediaIndicesCover | gparch.py:330-353 | every image or video item is among them |
| Tasks.TasksFromMediaIndices | gparch.py:309-354 | task k comes from the k-th media item |
| Tasks.TasksForSources | gparch.py:307-354 | the processing is an order-preserving filter and map onto exactly the image and video items |
| Tasks.TasksForLength | gparch.py:307-354 | one task per image or video item, whatever the index holds |
| Tasks.DownloadStep | gparch.py:208-268 | a task whose file exists is skipped without a request; a success needs a 200 reply; it is saved under the first free name; the row carries the task's uuid and album; the metadata block runs on the saved file; only the file and, whenever the metadata block opened one, its sidecar are written, including a sidecar left without its packet |
| Tasks.FailedSerializeLeavesSidecar | gparch.py:246-250 | a saved download with a parsable date, no in-place write and a packet that cannot be serialized leaves both the media file and its sidecar, which was opened before serializing raised |
| Tasks.MetadataIsolated | gparch.py:216-254 | the outcome of a download does not depend on what the metadata calls do |
| Tasks.SavedTaskAttemptsMetadata | gparch.py:208-268 | every task built from an item carries a creation time, so a success always attempts metadata |
| Tasks.RerunSkipsSavedItem | gparch.py:208-264 | an item saved once is, on a later run, aimed at its recorded path and skipped without a request, whichever collection lists it |
| Tasks.SameNameSecondItemSkipped | gparch.py:208-264 | a second un-indexed item with the same sanitized name in the same directory is skipped and never fetched |
| Tasks.VanishedFileRecordedTwice | gparch.py:208-283 | an indexed item whose file vanished is fetched to its recorded path and a second row with the same uuid is added, while lookups keep the first |
| Archive.SavedRows | gparch.py:276-283 | a drain inserts no more rows than it has outcomes |
| Archive.SavedRowsExact | gparch.py:276-283 | the rows inserted are exactly the ones from truthy outcomes |
| Archive.SavedRowsSnoc | gparch.py:276-283 | one more outcome adds its row exactly when it is truthy |
| Archive.ReplayedSnoc | gparch.py:270-283 | one more run of `download_media_item`, against the files the previous runs left, extends the replay of the drain |
| Archive.StepFacts | gparch.py:208-268 | one step only adds files; a task is skipped as already on disk exactly when its file exists; a saved row matches its task, had a 200 reply, and names a file that did not exist and now does |
| Archive.DrainedStep | gparch.py:270-283 | one more task keeps the record: outcome k belongs to task order[k]; saved rows match their task and had a 200 reply; a task whose file existed before the drain is skipped, and a task skipped as already on disk had its file present; inserted paths are fresh and pairwise distinct |
| Archive.DrainedSnoc | gparch.py:270-283 | the same record, kept by one more replayed step |
| Archive.DrainSnoc | gparch.py:270-283 | one more `download_media_item` step, run against the files the drain has left so far, extends the replay and keeps the drain record; the inserted rows gain its row exactly when it is truthy, and files only grow |
| Archive.SavedRowsFromTasks | gparch.py:270-283 | a drain inserts at most one row per task, each carrying the batch's album |
| Archive.AlbumsRecordedSnoc | gparch.py:364-440 | albums recorded so far stay recorded as rows are appended, and the album just run is added once its row exists |
| Archive.NewAlbumRowsSnoc | gparch.py:414-424 | an album run that appends nothing, or one row of the given kind for the album, keeps every appended row accounted for |
| Archive.PhotosAccount.AlbumRunsSnoc | gparch.py:364-370 | one more album run, from the state the previous runs left, extends the record of the album loop |
| Archive.PhotosAccount.constructor | gparch.py:119-149 | the index is loaded when its file exists and created empty otherwise; the five layout directories exist afterwards, and only missing ones are created |
| Archive.PhotosAccount.MakeLayout | gparch.py:144-149 | each of the five layout directories exists afterwards; only missing ones are created; files are unchanged |
| Archive.PhotosAccount.InitDb | gparch.py:188-203 | a missing database file is created with empty tables; an existing one is opened as stored |
| Archive.PhotosAccount.InsertMediaItem | gparch.py:290-294 | the media table gains exactly the given row at its end |
| Archive.PhotosAccount.InsertAlbum | gparch.py:301-305 | the album table gains exactly the given row at its end |
| Archive.PhotosAccount.ProcessMediaItems | gparch.py:307-354 | the loop returns the task list of the items against the current media table |
| Archive.PhotosAccount.DownloadMediaItem | gparch.py:208-268 | the result and the files written are those of one download step; directories are unchanged; the counter grows exactly on success |
| Archive.PhotosAccount.RunTask | gparch.py:274-283 | one task runs as one step of `download_media_item`: the result and the files written are that step's; its row is inserted exactly when the result is truthy; directories are unchanged |
| Archive.PhotosAccount.Download | gparch.py:270-283 | every task runs once in the pool's order, each as a `download_media_item` step against the files the earlier steps left (the returned replay), ending with the files now on disk; the media table gains one row per truthy outcome, in that order; the counter grows by as much; each row matches its task and had a 200 reply; the new paths are fresh and pairwise distinct |
| Archive.PhotosAccount.AlbumDirectory | gparch.py:414-424 | a recorded album keeps its directory and tables; otherwise a fresh directory is created under Albums or Shared Albums and recorded with the title and the shared flag; either way a lookup of the album afterwards gives that directory |
| Archive.PhotosAccount.DownloadBatch | gparch.py:426-433 | the tasks are `process_media_items` of the items against the table as it was; they are drained as `download` does (the replay); the media table gains exactly the rows of the truthy outcomes, at most one per image or video item, each for the batch's album; the counter grows with it |
| Archive.PhotosAccount.DownloadSingleAlbum | gparch.py:372-440 | the run is `AlbumRan` from the old state to the new: an album without `mediaItemsCount`, or with an empty first reply, changes nothing; otherwise the directory is the recorded one or the first free one under the sanitized title ("Unnamed Album" when there is none), the album is recorded with it, the items of the search listing are processed into that directory and drained (the replay), and the media table gains exactly the rows of the truthy outcomes, each carrying the album's id |
| Archive.PhotosAccount.DownloadAlbums | gparch.py:364-440 | the listed albums are run one after the other, album i taking the account from states[i] to states[i+1] as `AlbumRan` says (its directory, its recording, its batch and its media rows), from the old state to the final one; both tables only grow; every new album row is of the given kind and for a listed album; every listed album that is not skipped is recorded afterwards |
| Archive.PhotosAccount.DownloadAllAlbums | gparch.py:364-366 | every album of the listing is run in order as `AlbumRan` says, from the old state to the final one; new album rows are non-shared and for albums of the listing; every listed album that is not skipped is recorded afterwards |
| Archive.PhotosAccount.DownloadAllSharedAlbums | gparch.py:368-370 | the call fails, changing neither the tables nor the filesystem, exactly when the listing lacks `sharedAlbums` on a page it reads; otherwise every album of the listing is run in order as `AlbumRan` says, new album rows are shared and for albums of the listing, and every listed album that is not skipped is recorded afterwards |
| Archive.PhotosAccount.DownloadLibrary | gparch.py:356-357 | the listed library items are processed into Library and drained (the replay); the media table gains exactly the rows of the truthy outcomes, at most one per media item, none with an album |
| Archive.PhotosAccount.DownloadFavorites | gparch.py:360-361 | the listed favorites are processed into Favorites and drained (the replay); the media table gains exactly the rows of the truthy outcomes, at most one per media item, none with an album |

## Left out

- OAuth and service construction (`get_google_api_service`) are not modelled. They are interactive I/O against Google's servers.
- Session timing (`get_session_stats`) and the entry point are not modelled. They are clock and CLI I/O.
- `cxfreeze_setup.py` is not part of this model. It is packaging.
- Debug output is not modelled: the `debug` directory and the `save_json` dumps. They only write JSON copies of replies and do not affect what is archived.
- Progress bars and console messages are not modelled. They are output only.
- Streaming the body in `write_response` is reduced to the file appearing at the chosen path. The model does not represent file contents, or a write that fails part-way and is caught by the outer handler, which returns False.
- Parent directories are not modelled. A write into a missing directory cannot be expressed. The database file is also created before `safe_mkdir(base_dir)` runs (gparch.py:141 before 145), and the model does not check that the base directory exists.
- Real concurrency is not modelled. `download` drains the pool in one arbitrary permutation, and each task runs atomically. Interleavings in which two workers race for the same free name, or both pass the `isfile` test for the same path, are not captured.
- libxmp and `datetime.fromisoformat` are foreign code, so their answers are the booleans of `XmpEnv`. An exception from `set_property` is not modelled separately. Neither is an exception from the `close_file()` in the `finally` block, which in the source turns a finished download into a False result.
- `sanitize` (from the `sanitize_filename` package) is a parameter and is not modelled.
- `os.path.abspath` in `auto_mkdir` is taken as the identity on the path.
- Remote.Paginate, Remote.ListMediaItems, Remote.ListAlbums, Remote.ListSharedAlbums, Remote.SearchFavorites: they require the reply script to end with a reply without a token. A server that sends tokens forever is not modelled.
- Archive.PhotosAccount.DownloadBatch: it calls `download` even when there are no tasks, where `download_single_album` only prints. The effect on the model state is the same.
- Items with missing keys are not modelled. An item without `id` or `mimeType`, an un-indexed item without `filename`, or an image or video item without `baseUrl` or `mediaMetadata.creationTime` raises `KeyError` in `process_media_items`, which ends the run.
- A listing request that raises is not modelled. Every `.execute()` in the pagination loops (gparch.py:396, 405, 445, 455-458, 470, 480-483, 494, 504-507, 526, 536), for example on an HTTP error, is uncaught and ends the run after the albums already processed; in the model every request gets a reply.
- The recursion depth limit of `auto_filename` and `auto_mkdir` (gparch.py:77, 96) is not modelled. After about a thousand taken candidates the source raises `RecursionError`: for a file it is caught at gparch.py:265 and the download gives False, and for a directory it ends the run. The model's search always finds a free name.
- Integer overflow does not apply: the counter and the instance numbers are Python integers, which are unbounded.
