/** The archiving account (class PhotosAccount, gparch.py:118-440): the index
    tables, the download counter and the pipeline that lists a collection,
    turns its items into download tasks, runs them and records each success.

    The thread pool of `download` is a sequential drain here: the pool's
    schedule gives the order in which outcomes come back (any permutation of
    the tasks), and each task is run to completion in that order. */
module Archive {
  import opened Text
  import opened Files
  import opened Naming
  import opened Index
  import opened Remote
  import opened Metadata
  import opened Tasks

  const DatabaseName := "database.sqlite3"
  const UnnamedAlbum := "Unnamed Album"

  /** order lists each of 0 .. n-1 exactly once. */
  predicate IsPermutation(order: seq<nat>, n: nat) {
    && |order| == n
    && (forall k :: 0 <= k < n ==> order[k] < n)
    && (forall k, l :: 0 <= k < l < n ==> order[k] != order[l])
  }

  /** What the worker pool meets: the server's reply and the metadata calls'
      behaviour for task i of a batch, and the completion order of a batch of
      n tasks. */
  datatype Pool = Pool(response: nat -> HttpResponse, xmp: nat -> XmpEnv, schedule: nat -> seq<nat>)

  ghost predicate ValidPool(pool: Pool) {
    forall n: nat :: IsPermutation(pool.schedule(n), n)
  }

  /** The rows `download` inserts for outcomes drained in this order: one per
      truthy outcome. */
  function SavedRows(outcomes: seq<DownloadResult>): (rows: seq<MediaRow>)
    ensures |rows| <= |outcomes|
    decreases |outcomes|
  {
    if outcomes == [] then []
    else
      var last := outcomes[|outcomes| - 1];
      SavedRows(outcomes[..|outcomes| - 1]) + (if last.Saved? then [last.row] else [])
  }

  lemma SavedRowsSnoc(outcomes: seq<DownloadResult>, r: DownloadResult)
    ensures SavedRows(outcomes + [r]) == SavedRows(outcomes) + (if r.Saved? then [r.row] else [])
  {
    assert (outcomes + [r])[..|outcomes|] == outcomes;
  }

  /** Exactly the truthy outcomes give rows: every row comes from a truthy
      outcome and every truthy outcome gives its row. */
  lemma {:induction false} SavedRowsExact(outcomes: seq<DownloadResult>)
    ensures forall row :: row in SavedRows(outcomes) ==> Saved(row) in outcomes
    ensures forall r :: r in outcomes && r.Saved? ==> r.row in SavedRows(outcomes)
    decreases |outcomes|
  {
    if outcomes != [] {
      var init := outcomes[..|outcomes| - 1];
      var last := outcomes[|outcomes| - 1];
      SavedRowsExact(init);
      assert outcomes == init + [last];
      forall r | r in outcomes && r.Saved? ensures r.row in SavedRows(outcomes) {
        if r != last {
          assert r in init;
        }
      }
    }
  }

  /** No two rows of the sequence share a path. */
  predicate DistinctPaths(rows: seq<MediaRow>) {
    forall k, l :: 0 <= k < l < |rows| ==> rows[k].path != rows[l].path
  }

  /** What a drain of `tasks` in `order` has done so far, against the files
      and paths that existed before it (`oldFiles`, `oldExisting`) and the
      files there are now: outcome k belongs to task order[k], a saved
      outcome carries that task's item and album and had a 200 reply, a task
      whose file existed before the drain got no request, a task skipped as
      already on disk had its file present, and every inserted row names a file
      that exists now, did not exist before, and no other row names. */
  ghost predicate Drained(tasks: seq<DownloadTask>, order: seq<nat>, response: nat -> HttpResponse,
                          outcomes: seq<DownloadResult>, oldFiles: set<string>, oldExisting: set<string>,
                          files: set<string>)
  {
    DrainedTasks(tasks, order, response, outcomes, oldFiles, files) && DrainedRows(outcomes, oldExisting, files)
  }

  /** The part of Drained about each outcome and its task. */
  ghost predicate DrainedTasks(tasks: seq<DownloadTask>, order: seq<nat>, response: nat -> HttpResponse,
                               outcomes: seq<DownloadResult>, oldFiles: set<string>, files: set<string>)
  {
    && |outcomes| <= |order|
    && (forall k :: 0 <= k < |outcomes| ==> order[k] < |tasks|)
    && (forall k :: 0 <= k < |outcomes| && outcomes[k].Saved? ==>
          && outcomes[k].row.uuid == tasks[order[k]].uuid
          && outcomes[k].row.albumUuid == tasks[order[k]].albumUuid
          && response(order[k]) == Response(200))
    && (forall k :: 0 <= k < |outcomes| && tasks[order[k]].path in oldFiles ==> outcomes[k] == AlreadyOnDisk)
    && (forall k :: 0 <= k < |outcomes| && outcomes[k] == AlreadyOnDisk ==> tasks[order[k]].path in files)
  }

  /** The part of Drained about the inserted rows. */
  ghost predicate DrainedRows(outcomes: seq<DownloadResult>, oldExisting: set<string>, files: set<string>)
  {
    && (forall row :: row in SavedRows(outcomes) ==> row.path in files && row.path !in oldExisting)
    && DistinctPaths(SavedRows(outcomes))
  }

  /** One run of download_media_item: `result` is its outcome for `task`
      against the files `before` and the directories `dirs`, and `after`
      adds exactly what it wrote. */
  ghost predicate ReplayStep(task: DownloadTask, response: HttpResponse, env: XmpEnv, dirs: set<string>,
                             before: set<string>, result: DownloadResult, after: set<string>)
  {
    var s := DownloadStep(task, before, dirs, response, env);
    result == s.result && after == before + s.written
  }

  /** The drain replayed step by step: outcome k is what download_media_item
      gives task order[k] (with that task's reply and metadata behaviour)
      against the files seen[k] present when it ran, and seen[k + 1] adds
      what that step wrote. */
  ghost predicate Replayed(tasks: seq<DownloadTask>, order: seq<nat>, pool: Pool, dirs: set<string>,
                           outcomes: seq<DownloadResult>, seen: seq<set<string>>)
  {
    && |seen| == |outcomes| + 1 && |outcomes| <= |order|
    && (forall k :: 0 <= k < |outcomes| ==> order[k] < |tasks|)
    && (forall k {:trigger ReplayStep(tasks[order[k]], pool.response(order[k]), pool.xmp(order[k]), dirs,
                                      seen[k], outcomes[k], seen[k + 1])} :: 0 <= k < |outcomes| ==>
          ReplayStep(tasks[order[k]], pool.response(order[k]), pool.xmp(order[k]), dirs,
                     seen[k], outcomes[k], seen[k + 1]))
  }

  /** One more step of download_media_item extends the replay. */
  lemma ReplayedSnoc(tasks: seq<DownloadTask>, order: seq<nat>, pool: Pool, dirs: set<string>,
                     outcomes: seq<DownloadResult>, seen: seq<set<string>>, res: DownloadResult, files: set<string>)
    requires Replayed(tasks, order, pool, dirs, outcomes, seen)
    requires |outcomes| < |order| && order[|outcomes|] < |tasks|
    requires var i := order[|outcomes|];
             ReplayStep(tasks[i], pool.response(i), pool.xmp(i), dirs, seen[|outcomes|], res, files)
    ensures Replayed(tasks, order, pool, dirs, outcomes + [res], seen + [files])
  {
    var n := |outcomes|;
    var os, ss := outcomes + [res], seen + [files];
    forall k | 0 <= k < n + 1
      ensures ReplayStep(tasks[order[k]], pool.response(order[k]), pool.xmp(order[k]), dirs, ss[k], os[k], ss[k + 1])
    {
      if k < n {
        assert os[k] == outcomes[k] && ss[k] == seen[k] && ss[k + 1] == seen[k + 1];
      }
    }
  }

  /** What one process_media_items-then-download run did: the tasks built,
      the outcomes in completion order and the files seen before each step. */
  datatype Batch = Batch(tasks: seq<DownloadTask>, outcomes: seq<DownloadResult>, seen: seq<set<string>>)

  /** The account's state between album runs: both tables, the download
      counter and the filesystem. */
  datatype Snapshot = Snapshot(media: seq<MediaRow>, albums: seq<AlbumRow>, downloads: nat,
                               files: set<string>, dirs: set<string>)

  /** `b` is the run of process_media_items on `items` against the media
      table `media0`, followed by a drain that started on the files `files0`,
      ran with the directories `dirs` and left the files `files1`. */
  ghost predicate BatchRan(b: Batch, items: seq<RemoteItem>, saveDir: string, albumUuid: Option<string>,
                           media0: seq<MediaRow>, sanitize: string -> string, pool: Pool,
                           files0: set<string>, dirs: set<string>, files1: set<string>)
  {
    && b.tasks == TasksFor(items, saveDir, albumUuid, media0, sanitize)
    && |b.outcomes| == |b.tasks| && |b.seen| == |b.tasks| + 1
    && b.seen[0] == files0 && b.seen[|b.tasks|] == files1
    && Replayed(b.tasks, pool.schedule(|b.tasks|), pool, dirs, b.outcomes, b.seen)
  }

  /** One more task run keeps the drain's record. */
  lemma DrainedSnoc(tasks: seq<DownloadTask>, order: seq<nat>, response: nat -> HttpResponse,
                    outcomes: seq<DownloadResult>, res: DownloadResult,
                    oldFiles: set<string>, oldExisting: set<string>,
                    files: set<string>, files': set<string>, dirs: set<string>, env: XmpEnv)
    requires Drained(tasks, order, response, outcomes, oldFiles, oldExisting, files)
    requires |outcomes| < |order| && order[|outcomes|] < |tasks|
    requires oldFiles <= files && oldExisting <= files + dirs
    requires ReplayStep(tasks[order[|outcomes|]], response(order[|outcomes|]), env, dirs, files, res, files')
    ensures Drained(tasks, order, response, outcomes + [res], oldFiles, oldExisting, files')
  {
    StepFacts(tasks[order[|outcomes|]], response(order[|outcomes|]), env, dirs, files, res, files');
    DrainedStep(tasks, order, response, outcomes, res, oldFiles, oldExisting, files, files', dirs);
  }

  /** One more replayed step extends the whole record of the drain: the
      replay, the drain's facts and the rows it inserts. */
  lemma DrainSnoc(tasks: seq<DownloadTask>, order: seq<nat>, pool: Pool, dirs: set<string>,
                  outcomes: seq<DownloadResult>, seen: seq<set<string>>, res: DownloadResult,
                  oldFiles: set<string>, oldExisting: set<string>, files': set<string>)
    requires Replayed(tasks, order, pool, dirs, outcomes, seen)
    requires Drained(tasks, order, pool.response, outcomes, oldFiles, oldExisting, seen[|outcomes|])
    requires |outcomes| < |order| && order[|outcomes|] < |tasks|
    requires oldFiles <= seen[|outcomes|] && oldExisting <= seen[|outcomes|] + dirs
    requires var i := order[|outcomes|];
             ReplayStep(tasks[i], pool.response(i), pool.xmp(i), dirs, seen[|outcomes|], res, files')
    ensures Replayed(tasks, order, pool, dirs, outcomes + [res], seen + [files'])
    ensures Drained(tasks, order, pool.response, outcomes + [res], oldFiles, oldExisting, files')
    ensures SavedRows(outcomes + [res]) == SavedRows(outcomes) + (if res.Saved? then [res.row] else [])
    ensures seen[|outcomes|] <= files'
  {
    var i := order[|outcomes|];
    ReplayedSnoc(tasks, order, pool, dirs, outcomes, seen, res, files');
    DrainedSnoc(tasks, order, pool.response, outcomes, res, oldFiles, oldExisting,
                seen[|outcomes|], files', dirs, pool.xmp(i));
    StepFacts(tasks[i], pool.response(i), pool.xmp(i), dirs, seen[|outcomes|], res, files');
    SavedRowsSnoc(outcomes, res);
  }

  /** What the drain's record needs to know of one step. */
  lemma StepFacts(t: DownloadTask, response: HttpResponse, env: XmpEnv, dirs: set<string>,
                  files: set<string>, res: DownloadResult, files': set<string>)
    requires ReplayStep(t, response, env, dirs, files, res, files')
    ensures files <= files'
    ensures t.path in files <==> res == AlreadyOnDisk
    ensures res.Saved? ==>
              && res.row.uuid == t.uuid && res.row.albumUuid == t.albumUuid && response == Response(200)
              && res.row.path !in files + dirs && res.row.path in files'
  {
  }

  lemma DrainedStep(tasks: seq<DownloadTask>, order: seq<nat>, response: nat -> HttpResponse,
                    outcomes: seq<DownloadResult>, res: DownloadResult,
                    oldFiles: set<string>, oldExisting: set<string>,
                    files: set<string>, files': set<string>, dirs: set<string>)
    requires Drained(tasks, order, response, outcomes, oldFiles, oldExisting, files)
    requires |outcomes| < |order| && order[|outcomes|] < |tasks|
    requires oldFiles <= files <= files' && oldExisting <= files + dirs
    requires var t := tasks[order[|outcomes|]];
             && (t.path in files <==> res == AlreadyOnDisk)
             && (res.Saved? ==>
                   && res.row.uuid == t.uuid && res.row.albumUuid == t.albumUuid
                   && response(order[|outcomes|]) == Response(200)
                   && res.row.path !in files + dirs && res.row.path in files')
    ensures Drained(tasks, order, response, outcomes + [res], oldFiles, oldExisting, files')
  {
    DrainedTasksStep(tasks, order, response, outcomes, res, oldFiles, files, files');
    DrainedRowsStep(outcomes, res, oldExisting, files, files', dirs);
  }

  lemma DrainedTasksStep(tasks: seq<DownloadTask>, order: seq<nat>, response: nat -> HttpResponse,
                         outcomes: seq<DownloadResult>, res: DownloadResult,
                         oldFiles: set<string>, files: set<string>, files': set<string>)
    requires DrainedTasks(tasks, order, response, outcomes, oldFiles, files)
    requires |outcomes| < |order| && order[|outcomes|] < |tasks|
    requires oldFiles <= files <= files'
    requires var t := tasks[order[|outcomes|]];
             && (t.path in files <==> res == AlreadyOnDisk)
             && (res.Saved? ==>
                   && res.row.uuid == t.uuid && res.row.albumUuid == t.albumUuid
                   && response(order[|outcomes|]) == Response(200))
    ensures DrainedTasks(tasks, order, response, outcomes + [res], oldFiles, files')
  {
    var n := |outcomes|;
    forall k | 0 <= k < n + 1 && (outcomes + [res])[k].Saved?
      ensures (outcomes + [res])[k].row.uuid == tasks[order[k]].uuid
    {
      if k < n {
        assert (outcomes + [res])[k] == outcomes[k];
      }
    }
    forall k | 0 <= k < n + 1 && tasks[order[k]].path in oldFiles
      ensures (outcomes + [res])[k] == AlreadyOnDisk
    {
      if k < n {
        assert (outcomes + [res])[k] == outcomes[k];
      }
    }
    forall k | 0 <= k < n + 1 && (outcomes + [res])[k] == AlreadyOnDisk
      ensures tasks[order[k]].path in files'
    {
      if k < n {
        assert (outcomes + [res])[k] == outcomes[k];
      }
    }
  }

  lemma DrainedRowsStep(outcomes: seq<DownloadResult>, res: DownloadResult, oldExisting: set<string>,
                        files: set<string>, files': set<string>, dirs: set<string>)
    requires DrainedRows(outcomes, oldExisting, files)
    requires files <= files' && oldExisting <= files + dirs
    requires res.Saved? ==> res.row.path !in files + dirs && res.row.path in files'
    ensures DrainedRows(outcomes + [res], oldExisting, files')
  {
    SavedRowsSnoc(outcomes, res);
    var rows := SavedRows(outcomes + [res]);
    if res.Saved? {
      forall k, l | 0 <= k < l < |rows| ensures rows[k].path != rows[l].path {
        if l == |rows| - 1 {
          assert rows[k] in SavedRows(outcomes);
        }
      }
    }
  }

  class PhotosAccount {
    const baseDir: string
    const fs: FileSystem
    var media: seq<MediaRow>
    var albums: seq<AlbumRow>
    var downloads: nat

    function DbPath(): string { baseDir + "/" + DatabaseName }
    function LibDir(): string { baseDir + "/Library" }
    function AlbumsDir(): string { baseDir + "/Albums" }
    function SharedAlbumsDir(): string { baseDir + "/Shared Albums" }
    function FavoritesDir(): string { baseDir + "/Favorites" }

    /** The directories __init__ makes sure of. */
    function LayoutDirs(): set<string> {
      {baseDir, LibDir(), AlbumsDir(), SharedAlbumsDir(), FavoritesDir()}
    }

    /** __init__: open the index (creating it when the file is missing), then
        create the archive layout. `stored` is what an existing database file
        holds. */
    constructor (directory: string, fs: FileSystem, stored: Database)
      modifies fs
      ensures baseDir == directory && this.fs == fs && downloads == 0
      ensures DbPath() in old(fs.Existing()) ==> media == stored.media && albums == stored.albums
      ensures DbPath() !in old(fs.Existing()) ==> media == [] && albums == []
      ensures fs.files == old(fs.files) + ({DbPath()} - old(fs.Existing()))
      ensures fs.dirs == old(fs.dirs) + (LayoutDirs() - old(fs.Existing()))
    {
      baseDir := directory;
      this.fs := fs;
      downloads := 0;
      media := [];
      albums := [];
      new;
      InitDb(stored);
      assert DbPath() !in LayoutDirs() by {
        assert |DbPath()| == |baseDir| + 17 && |LibDir()| == |baseDir| + 8 && |AlbumsDir()| == |baseDir| + 7;
        assert |SharedAlbumsDir()| == |baseDir| + 14 && |FavoritesDir()| == |baseDir| + 10;
      }
      MakeLayout();
    }

    /** The five safe_mkdir calls of __init__ (gparch.py:144-149). */
    method MakeLayout()
      modifies fs
      ensures fs.files == old(fs.files)
      ensures fs.dirs == old(fs.dirs) + (LayoutDirs() - old(fs.Existing()))
    {
      ghost var d0, e0 := fs.dirs, fs.Existing();
      assert |LibDir()| == |baseDir| + 8 && |AlbumsDir()| == |baseDir| + 7;
      assert |SharedAlbumsDir()| == |baseDir| + 14 && |FavoritesDir()| == |baseDir| + 10;
      fs.SafeMkdir(baseDir);
      assert fs.dirs == d0 + ({baseDir} - e0) && fs.Existing() == e0 + {baseDir};
      fs.SafeMkdir(LibDir());
      ghost var made := {baseDir, LibDir()};
      assert fs.dirs == d0 + (made - e0) && fs.Existing() == e0 + made;
      fs.SafeMkdir(AlbumsDir());
      made := made + {AlbumsDir()};
      assert fs.dirs == d0 + (made - e0) && fs.Existing() == e0 + made;
      fs.SafeMkdir(SharedAlbumsDir());
      made := made + {SharedAlbumsDir()};
      assert fs.dirs == d0 + (made - e0) && fs.Existing() == e0 + made;
      fs.SafeMkdir(FavoritesDir());
      made := made + {FavoritesDir()};
      assert made == LayoutDirs();
    }

    /** init_db: a missing database file is created with two empty tables; an
        existing one is opened unchanged. */
    method InitDb(stored: Database)
      modifies this`media, this`albums, fs
      ensures DbPath() in old(fs.Existing()) ==>
                media == stored.media && albums == stored.albums && fs.files == old(fs.files)
      ensures DbPath() !in old(fs.Existing()) ==>
                media == [] && albums == [] && fs.files == old(fs.files) + {DbPath()}
      ensures fs.dirs == old(fs.dirs)
    {
      if DbPath() !in fs.files + fs.dirs {
        fs.files := fs.files + {DbPath()};
        media, albums := [], [];
      } else {
        media, albums := stored.media, stored.albums;
      }
    }

    /** insert_media_item: append one row. */
    method InsertMediaItem(row: MediaRow)
      modifies this`media
      ensures media == old(media) + [row]
    {
      media := media + [row];
    }

    /** insert_album: append one row. */
    method InsertAlbum(row: AlbumRow)
      modifies this`albums
      ensures albums == old(albums) + [row]
    {
      albums := albums + [row];
    }

    /** process_media_items: one task per image or video item, in input
        order, aimed at the item's recorded path or at a fresh one in
        `saveDir`. */
    method ProcessMediaItems(items: seq<RemoteItem>, saveDir: string, albumUuid: Option<string>,
                             sanitize: string -> string)
      returns (tasks: seq<DownloadTask>)
      ensures tasks == TasksFor(items, saveDir, albumUuid, media, sanitize)
    {
      tasks := [];
      for i := 0 to |items|
        invariant tasks == TasksFor(items[..i], saveDir, albumUuid, media, sanitize)
      {
        var item := items[i];
        var path: string;
        var entry := SelectMedia(media, item.id);
        if entry.None? {
          path := saveDir + "/" + sanitize(item.filename);
        } else {
          path := entry.value.path;
        }
        assert path == TargetPath(item, saveDir, media, sanitize);
        ghost var before := tasks;
        if Contains(item.mimeType, "image") {
          tasks := tasks + [DownloadTask(item.id, albumUuid, item.baseUrl + "=d", path,
                                         item.description, Some(item.creationTime))];
        } else if Contains(item.mimeType, "video") {
          tasks := tasks + [DownloadTask(item.id, albumUuid, item.baseUrl + "=dv", path,
                                         item.description, Some(item.creationTime))];
        }
        assert tasks == before + TasksFor([item], saveDir, albumUuid, media, sanitize) by {
          TasksForSingle(item, saveDir, albumUuid, media, sanitize);
        }
        assert items[..i + 1] == items[..i] + [items[i]];
        TasksForAppend(items[..i], [items[i]], saveDir, albumUuid, media, sanitize);
      }
      assert items[..|items|] == items;
    }

    /** download_media_item: skip a task whose file exists, fetch it
        otherwise, save a 200 reply under a free name, attempt the metadata
        and count the download. */
    method DownloadMediaItem(task: DownloadTask, response: HttpResponse, env: XmpEnv)
      returns (res: DownloadResult)
      modifies this`downloads, fs
      ensures var s := DownloadStep(task, old(fs.files), old(fs.dirs), response, env);
              res == s.result && fs.files == old(fs.files) + s.written
      ensures fs.dirs == old(fs.dirs)
      ensures downloads == old(downloads) + (if res.Saved? then 1 else 0)
    {
      if task.path in fs.files {
        return AlreadyOnDisk;
      }
      match response {
        case ConnectionError =>
          return RequestFailed;
        case Response(status) =>
          if status != 200 {
            return BadStatus(status);
          }
          var path := AutoFilename(fs.files + fs.dirs, task.path);
          fs.files := fs.files + {path};
          var meta := Embed(path, task.description, task.creationTime, fs.dirs, env);
          if meta.Sidecar? || meta.EmptySidecar? {
            fs.files := fs.files + {meta.file};
          }
          downloads := downloads + 1;
          res := Saved(MediaRow(task.uuid, path, task.albumUuid));
      }
    }

    /** One task of `download`: the worker's download_media_item, then the
        main thread's insert when the outcome is truthy. */
    method RunTask(task: DownloadTask, response: HttpResponse, env: XmpEnv) returns (res: DownloadResult)
      modifies this`media, this`downloads, fs
      ensures ReplayStep(task, response, env, old(fs.dirs), old(fs.files), res, fs.files)
      ensures media == old(media) + (if res.Saved? then [res.row] else [])
      ensures downloads == old(downloads) + (if res.Saved? then 1 else 0)
      ensures fs.dirs == old(fs.dirs)
    {
      res := DownloadMediaItem(task, response, env);
      if res.Saved? {
        InsertMediaItem(res.row);
      }
    }

    /** download: run every task once, in the pool's completion order, and
        insert one media row per truthy outcome as it comes back. */
    method Download(tasks: seq<DownloadTask>, pool: Pool)
      returns (ghost outcomes: seq<DownloadResult>, ghost seen: seq<set<string>>)
      requires IsPermutation(pool.schedule(|tasks|), |tasks|)
      modifies this`media, this`downloads, fs
      ensures |outcomes| == |tasks| && |seen| == |tasks| + 1
      ensures seen[0] == old(fs.files) && seen[|tasks|] == fs.files
      ensures Replayed(tasks, pool.schedule(|tasks|), pool, fs.dirs, outcomes, seen)
      ensures media == old(media) + SavedRows(outcomes)
      ensures downloads == old(downloads) + |SavedRows(outcomes)|
      ensures fs.dirs == old(fs.dirs) && old(fs.files) <= fs.files
      ensures Drained(tasks, pool.schedule(|tasks|), pool.response, outcomes, old(fs.files), old(fs.Existing()), fs.files)
    {
      var order := pool.schedule(|tasks|);
      ghost var files0, existing0 := fs.files, fs.Existing();
      outcomes, seen := [], [fs.files];
      for k := 0 to |tasks|
        invariant |outcomes| == k && |seen| == k + 1
        invariant seen[0] == files0 && seen[k] == fs.files
        invariant Replayed(tasks, order, pool, fs.dirs, outcomes, seen)
        invariant media == old(media) + SavedRows(outcomes)
        invariant downloads == old(downloads) + |SavedRows(outcomes)|
        invariant fs.dirs == old(fs.dirs) && files0 <= fs.files
        invariant Drained(tasks, order, pool.response, outcomes, files0, existing0, fs.files)
      {
        var i := order[k];
        var res := RunTask(tasks[i], pool.response(i), pool.xmp(i));
        DrainSnoc(tasks, order, pool, fs.dirs, outcomes, seen, res, files0, existing0, fs.files);
        outcomes, seen := outcomes + [res], seen + [fs.files];
      }
    }

    /** The directory of an album (gparch.py:414-424): the recorded one when
        the album is in the index, otherwise a fresh directory under `parent`
        that is then recorded. */
    method AlbumDirectory(albumId: string, title: string, shared: bool) returns (dir: string)
      modifies this`albums, fs
      ensures fs.files == old(fs.files)
      ensures SelectAlbum(old(albums), albumId).Some? ==>
                && dir == SelectAlbum(old(albums), albumId).value.path
                && albums == old(albums) && fs.dirs == old(fs.dirs)
      ensures SelectAlbum(old(albums), albumId).None? ==>
                var parent := if shared then SharedAlbumsDir() else AlbumsDir();
                && dir == FreeName(AppendSuffix, old(fs.Existing()), parent + "/" + title)
                && dir !in old(fs.Existing())
                && albums == old(albums) + [AlbumRow(albumId, dir, title, shared)]
                && fs.dirs == old(fs.dirs) + {dir}
      ensures SelectAlbum(albums, albumId).Some? && SelectAlbum(albums, albumId).value.path == dir
    {
      var entry := SelectAlbum(albums, albumId);
      if entry.Some? {
        dir := entry.value.path;
      } else if !shared {
        dir := AutoMkdir(fs, AlbumsDir() + "/" + title);
        InsertAlbum(AlbumRow(albumId, dir, title, shared));
        SelectAlbumAfterInsert(old(albums), AlbumRow(albumId, dir, title, shared), albumId);
      } else {
        dir := AutoMkdir(fs, SharedAlbumsDir() + "/" + title);
        InsertAlbum(AlbumRow(albumId, dir, title, shared));
        SelectAlbumAfterInsert(old(albums), AlbumRow(albumId, dir, title, shared), albumId);
      }
    }

    /** process_media_items followed by download: the tasks are those of
        the items against the media table as it was, the drain is replayed
        by `batch`, and its truthy outcomes are appended to the table: at
        most one row per image or video item, each for the batch's album. */
    method DownloadBatch(items: seq<RemoteItem>, saveDir: string, albumUuid: Option<string>,
                         sanitize: string -> string, pool: Pool)
      returns (ghost batch: Batch)
      requires ValidPool(pool)
      modifies this`media, this`downloads, fs
      ensures BatchRan(batch, items, saveDir, albumUuid, old(media), sanitize, pool, old(fs.files), fs.dirs, fs.files)
      ensures media == old(media) + SavedRows(batch.outcomes)
      ensures downloads == old(downloads) + |SavedRows(batch.outcomes)|
      ensures |SavedRows(batch.outcomes)| <= |MediaIndices(items)|
      ensures forall row :: row in SavedRows(batch.outcomes) ==> row.albumUuid == albumUuid
      ensures fs.dirs == old(fs.dirs) && old(fs.files) <= fs.files
    {
      var tasks := ProcessMediaItems(items, saveDir, albumUuid, sanitize);
      TasksForLength(items, saveDir, albumUuid, media, sanitize);
      ghost var outcomes, seen := Download(tasks, pool);
      SavedRowsFromTasks(tasks, pool.schedule(|tasks|), outcomes, albumUuid);
      batch := Batch(tasks, outcomes, seen);
    }

    /** One run of download_single_album from `before` to `after`. A skipped
        album (no "mediaItemsCount", or an empty first search reply) changes
        nothing. Otherwise the album's directory is its recorded one, or the
        first free name under Albums or Shared Albums for its sanitized
        title, created and recorded; the search listing is processed into
        that directory and drained (`batch`), and the media table gains the
        rows of the truthy outcomes. */
    ghost predicate AlbumRan(album: RemoteAlbum, shared: bool, pages: seq<Reply<RemoteItem>>,
                             sanitize: string -> string, pool: Pool,
                             before: Snapshot, dir: string, batch: Batch, after: Snapshot)
    {
      && Ends(pages)
      && if album.mediaItemsCount.None? || !pages[0].Truthy() then after == before
         else
           var title := sanitize(album.title.GetOr(UnnamedAlbum));
           var parent := if shared then SharedAlbumsDir() else AlbumsDir();
           var recorded := SelectAlbum(before.albums, album.id);
           && (recorded.Some? ==> dir == recorded.value.path && after.albums == before.albums && after.dirs == before.dirs)
           && (recorded.None? ==>
                 && dir == FreeName(AppendSuffix, before.files + before.dirs, parent + "/" + title)
                 && dir !in before.files + before.dirs
                 && after.albums == before.albums + [AlbumRow(album.id, dir, title, shared)]
                 && after.dirs == before.dirs + {dir})
           && SelectAlbum(after.albums, album.id).Some? && SelectAlbum(after.albums, album.id).value.path == dir
           && BatchRan(batch, Flatten(pages[..LastPage(pages) + 1]), dir, Some(album.id), before.media,
                       sanitize, pool, before.files, after.dirs, after.files)
           && after.media == before.media + SavedRows(batch.outcomes)
           && after.downloads == before.downloads + |SavedRows(batch.outcomes)|
    }

    /** The first |dirs| albums of `list` were run one after the other:
        album i took the account from states[i] to states[i + 1]. */
    ghost predicate AlbumRuns(list: seq<RemoteAlbum>, shared: bool, contents: nat -> seq<Reply<RemoteItem>>,
                              sanitize: string -> string, pools: nat -> Pool,
                              states: seq<Snapshot>, dirs: seq<string>, batches: seq<Batch>)
    {
      && |states| == |dirs| + 1 && |batches| == |dirs| && |dirs| <= |list|
      && forall i :: 0 <= i < |dirs| ==>
           AlbumRan(list[i], shared, contents(i), sanitize, pools(i), states[i], dirs[i], batches[i], states[i + 1])
    }

    /** One more album run extends the record. */
    lemma AlbumRunsSnoc(list: seq<RemoteAlbum>, shared: bool, contents: nat -> seq<Reply<RemoteItem>>,
                        sanitize: string -> string, pools: nat -> Pool,
                        states: seq<Snapshot>, dirs: seq<string>, batches: seq<Batch>,
                        dir: string, batch: Batch, after: Snapshot)
      requires AlbumRuns(list, shared, contents, sanitize, pools, states, dirs, batches)
      requires |dirs| < |list|
      requires AlbumRan(list[|dirs|], shared, contents(|dirs|), sanitize, pools(|dirs|),
                        states[|dirs|], dir, batch, after)
      ensures AlbumRuns(list, shared, contents, sanitize, pools, states + [after], dirs + [dir], batches + [batch])
    {
      var n := |dirs|;
      var ss, ds, bs := states + [after], dirs + [dir], batches + [batch];
      forall i | 0 <= i < n + 1
        ensures AlbumRan(list[i], shared, contents(i), sanitize, pools(i), ss[i], ds[i], bs[i], ss[i + 1])
      {
        if i < n {
          assert ss[i] == states[i] && ss[i + 1] == states[i + 1] && ds[i] == dirs[i] && bs[i] == batches[i];
        }
      }
    }

    /** download_single_album: skip an album without "mediaItemsCount" or
        whose first search reply is empty, list its items, reuse its recorded
        directory or create and record a fresh one under Albums or Shared
        Albums, then download its items. */
    method DownloadSingleAlbum(album: RemoteAlbum, shared: bool, pages: seq<Reply<RemoteItem>>,
                               sanitize: string -> string, pool: Pool)
      returns (ghost dir: string, ghost batch: Batch)
      requires Ends(pages) && ValidPool(pool)
      modifies this`media, this`albums, this`downloads, fs
      ensures AlbumRan(album, shared, pages, sanitize, pool,
                       Snapshot(old(media), old(albums), old(downloads), old(fs.files), old(fs.dirs)),
                       dir, batch, Snapshot(media, albums, downloads, fs.files, fs.dirs))
      ensures |old(media)| <= |media| && media[..|old(media)|] == old(media)
      ensures |media| - |old(media)| == downloads - old(downloads)
      ensures |media| - |old(media)| <= |MediaIndices(Flatten(pages[..LastPage(pages) + 1]))|
      ensures forall row :: row in media[|old(media)|..] ==> row.albumUuid == Some(album.id)
      ensures old(fs.files) <= fs.files
    {
      dir, batch := "", Batch([], [], [{}]);
      if album.mediaItemsCount.None? {
        return;
      }
      var title := sanitize(album.title.GetOr(UnnamedAlbum));
      var listing, sent := Paginate(pages, AlbumSearch(album.id), SearchPageSize, Some(""), false);
      if listing.NoResponse? {
        return;
      }
      var items := EntriesOrEmpty(pages, listing);
      var d := AlbumDirectory(album.id, title, shared);
      dir := d;
      batch := DownloadBatch(items, d, Some(album.id), sanitize, pool);
      assert media[|old(media)|..] == SavedRows(batch.outcomes);
    }

    /** The loop of download_all_albums and download_all_shared_albums:
        album i of the listing is searched through contents(i) and run
        through pools(i). Both tables only grow; every new album row is for a
        listed album and of the given kind. */
    method DownloadAlbums(list: seq<RemoteAlbum>, shared: bool, contents: nat -> seq<Reply<RemoteItem>>,
                          sanitize: string -> string, pools: nat -> Pool)
      returns (ghost states: seq<Snapshot>, ghost dirs: seq<string>, ghost batches: seq<Batch>)
      requires forall i: nat :: Ends(contents(i)) && ValidPool(pools(i))
      modifies this`media, this`albums, this`downloads, fs
      ensures |dirs| == |list| && AlbumRuns(list, shared, contents, sanitize, pools, states, dirs, batches)
      ensures states[0] == Snapshot(old(media), old(albums), old(downloads), old(fs.files), old(fs.dirs))
      ensures states[|list|] == Snapshot(media, albums, downloads, fs.files, fs.dirs)
      ensures |old(media)| <= |media| && media[..|old(media)|] == old(media)
      ensures |media| - |old(media)| == downloads - old(downloads)
      ensures |old(albums)| <= |albums| && albums[..|old(albums)|] == old(albums)
      ensures forall row :: row in albums[|old(albums)|..] ==>
                row.isShared == shared && exists a :: a in list && a.id == row.uuid
      ensures old(fs.files) <= fs.files && old(fs.dirs) <= fs.dirs
      ensures AlbumsRecorded(albums, list, contents, |list|)
    {
      states, dirs, batches := [Snapshot(media, albums, downloads, fs.files, fs.dirs)], [], [];
      for i := 0 to |list|
        invariant |dirs| == i && AlbumRuns(list, shared, contents, sanitize, pools, states, dirs, batches)
        invariant states[0] == Snapshot(old(media), old(albums), old(downloads), old(fs.files), old(fs.dirs))
        invariant states[i] == Snapshot(media, albums, downloads, fs.files, fs.dirs)
        invariant |old(media)| <= |media| && media[..|old(media)|] == old(media)
        invariant |media| - |old(media)| == downloads - old(downloads)
        invariant NewAlbumRows(old(albums), albums, list, i, shared)
        invariant old(fs.files) <= fs.files && old(fs.dirs) <= fs.dirs
        invariant AlbumsRecorded(albums, list, contents, i)
      {
        ghost var media0, albums0 := media, albums;
        ghost var dir, batch := DownloadSingleAlbum(list[i], shared, contents(i), sanitize, pools(i));
        ghost var after := Snapshot(media, albums, downloads, fs.files, fs.dirs);
        AlbumRunsSnoc(list, shared, contents, sanitize, pools, states, dirs, batches, dir, batch, after);
        states, dirs, batches := states + [after], dirs + [dir], batches + [batch];
        AppendedTail(old(media), media0, media);
        AlbumsRecordedSnoc(albums0, albums, list, contents, i);
        NewAlbumRowsSnoc(old(albums), albums0, albums, list, i, shared);
      }
      assert list[..|list|] == list;
    }

    /** download_all_albums: every album of the user's listing. */
    method DownloadAllAlbums(albumPages: seq<Reply<RemoteAlbum>>, contents: nat -> seq<Reply<RemoteItem>>,
                             sanitize: string -> string, pools: nat -> Pool)
      returns (ghost states: seq<Snapshot>, ghost dirs: seq<string>, ghost batches: seq<Batch>)
      requires Ends(albumPages)
      requires forall i: nat :: Ends(contents(i)) && ValidPool(pools(i))
      modifies this`media, this`albums, this`downloads, fs
      ensures |old(media)| <= |media| && media[..|old(media)|] == old(media)
      ensures |media| - |old(media)| == downloads - old(downloads)
      ensures |old(albums)| <= |albums| && albums[..|old(albums)|] == old(albums)
      ensures forall row :: row in albums[|old(albums)|..] ==>
                !row.isShared && exists a :: a in Flatten(albumPages[..LastPage(albumPages) + 1]) && a.id == row.uuid
      ensures var listed := Flatten(albumPages[..LastPage(albumPages) + 1]);
              AlbumsRecorded(albums, listed, contents, |listed|)
      ensures var listed := Flatten(albumPages[..LastPage(albumPages) + 1]);
              && |dirs| == |listed| && AlbumRuns(listed, false, contents, sanitize, pools, states, dirs, batches)
              && states[0] == Snapshot(old(media), old(albums), old(downloads), old(fs.files), old(fs.dirs))
              && states[|listed|] == Snapshot(media, albums, downloads, fs.files, fs.dirs)
    {
      var list, sent := ListAlbums(albumPages);
      states, dirs, batches := DownloadAlbums(list, false, contents, sanitize, pools);
    }

    /** download_all_shared_albums: every shared album; a listing page
        without "sharedAlbums" raises before anything is downloaded
        (`ok` is false). */
    method DownloadAllSharedAlbums(albumPages: seq<Reply<RemoteAlbum>>, contents: nat -> seq<Reply<RemoteItem>>,
                                   sanitize: string -> string, pools: nat -> Pool)
      returns (ok: bool, ghost states: seq<Snapshot>, ghost dirs: seq<string>, ghost batches: seq<Batch>)
      requires Ends(albumPages)
      requires forall i: nat :: Ends(contents(i)) && ValidPool(pools(i))
      modifies this`media, this`albums, this`downloads, fs
      ensures !ok <==> albumPages[0].Truthy() &&
                       exists j :: 0 <= j <= LastPage(albumPages) && albumPages[j].entries.None?
      ensures !ok ==> media == old(media) && albums == old(albums) && downloads == old(downloads)
                      && fs.files == old(fs.files) && fs.dirs == old(fs.dirs)
      ensures |old(media)| <= |media| && media[..|old(media)|] == old(media)
      ensures |media| - |old(media)| == downloads - old(downloads)
      ensures |old(albums)| <= |albums| && albums[..|old(albums)|] == old(albums)
      ensures forall row :: row in albums[|old(albums)|..] ==>
                row.isShared && exists a :: a in Flatten(albumPages[..LastPage(albumPages) + 1]) && a.id == row.uuid
      ensures var listed := Flatten(albumPages[..LastPage(albumPages) + 1]);
              ok ==> AlbumsRecorded(albums, listed, contents, |listed|)
      ensures var listed := Flatten(albumPages[..LastPage(albumPages) + 1]);
              ok ==>
                && |dirs| == |listed| && AlbumRuns(listed, true, contents, sanitize, pools, states, dirs, batches)
                && states[0] == Snapshot(old(media), old(albums), old(downloads), old(fs.files), old(fs.dirs))
                && states[|listed|] == Snapshot(media, albums, downloads, fs.files, fs.dirs)
    {
      var list, sent := ListSharedAlbums(albumPages);
      if list.None? {
        return false, [], [], [];
      }
      ok := true;
      states, dirs, batches := DownloadAlbums(list.value, true, contents, sanitize, pools);
    }

    /** download_library: every library item into Library. */
    method DownloadLibrary(pages: seq<Reply<RemoteItem>>, sanitize: string -> string, pool: Pool)
      returns (ghost batch: Batch)
      requires Ends(pages) && ValidPool(pool)
      modifies this`media, this`downloads, fs
      ensures BatchRan(batch, Flatten(pages[..LastPage(pages) + 1]), LibDir(), None, old(media), sanitize, pool,
                       old(fs.files), fs.dirs, fs.files)
      ensures media == old(media) + SavedRows(batch.outcomes)
      ensures downloads == old(downloads) + |SavedRows(batch.outcomes)|
      ensures |SavedRows(batch.outcomes)| <= |MediaIndices(Flatten(pages[..LastPage(pages) + 1]))|
      ensures forall row :: row in SavedRows(batch.outcomes) ==> row.albumUuid.None?
      ensures fs.dirs == old(fs.dirs) && old(fs.files) <= fs.files
    {
      var items, sent := ListMediaItems(pages);
      batch := DownloadBatch(items, LibDir(), None, sanitize, pool);
    }

    /** download_favorites: every favorite item into Favorites. */
    method DownloadFavorites(pages: seq<Reply<RemoteItem>>, sanitize: string -> string, pool: Pool)
      returns (ghost batch: Batch)
      requires Ends(pages) && ValidPool(pool)
      modifies this`media, this`downloads, fs
      ensures BatchRan(batch, Flatten(pages[..LastPage(pages) + 1]), FavoritesDir(), None, old(media), sanitize, pool,
                       old(fs.files), fs.dirs, fs.files)
      ensures media == old(media) + SavedRows(batch.outcomes)
      ensures downloads == old(downloads) + |SavedRows(batch.outcomes)|
      ensures |SavedRows(batch.outcomes)| <= |MediaIndices(Flatten(pages[..LastPage(pages) + 1]))|
      ensures forall row :: row in SavedRows(batch.outcomes) ==> row.albumUuid.None?
      ensures fs.dirs == old(fs.dirs) && old(fs.files) <= fs.files
    {
      var items, sent := SearchFavorites(pages);
      batch := DownloadBatch(items, FavoritesDir(), None, sanitize, pool);
    }
  }

  /** Every one of the first n listed albums that download_single_album does
      not skip (it has "mediaItemsCount" and its first search reply is not
      empty) has a row in the album table. */
  ghost predicate AlbumsRecorded(albums: seq<AlbumRow>, list: seq<RemoteAlbum>,
                                 contents: nat -> seq<Reply<RemoteItem>>, n: nat)
  {
    forall j: nat ::
      (j < n && j < |list| && list[j].mediaItemsCount.Some? && |contents(j)| > 0 && contents(j)[0].Truthy()) ==>
        SelectAlbum(albums, list[j].id).Some?
  }

  /** Appending album rows keeps the albums recorded so far, and album n is
      recorded once its own run has recorded it. */
  lemma AlbumsRecordedSnoc(albums0: seq<AlbumRow>, albums: seq<AlbumRow>, list: seq<RemoteAlbum>,
                           contents: nat -> seq<Reply<RemoteItem>>, n: nat)
    requires AlbumsRecorded(albums0, list, contents, n)
    requires |albums0| <= |albums| && albums[..|albums0|] == albums0
    requires n < |list| && list[n].mediaItemsCount.Some? && |contents(n)| > 0 && contents(n)[0].Truthy() ==>
               SelectAlbum(albums, list[n].id).Some?
    ensures AlbumsRecorded(albums, list, contents, n + 1)
  {
    forall j: nat | j < n && j < |list| && list[j].mediaItemsCount.Some? && |contents(j)| > 0 && contents(j)[0].Truthy()
      ensures SelectAlbum(albums, list[j].id).Some?
    {
      assert albums == albums0 + albums[|albums0|..];
      SelectAlbumStable(albums0, albums[|albums0|..], list[j].id);
    }
  }

  /** The album rows appended since `albums0` are of the given kind and for
      albums among the first n listed. */
  ghost predicate NewAlbumRows(albums0: seq<AlbumRow>, albums: seq<AlbumRow>, list: seq<RemoteAlbum>,
                               n: nat, shared: bool)
  {
    && |albums0| <= |albums| && albums[..|albums0|] == albums0 && n <= |list|
    && forall row :: row in albums[|albums0|..] ==> row.isShared == shared && exists a :: a in list[..n] && a.id == row.uuid
  }

  /** One album run that appended nothing, or one row for album n of the
      given kind, keeps the appended rows accounted for. */
  lemma NewAlbumRowsSnoc(albums0: seq<AlbumRow>, albums1: seq<AlbumRow>, albums2: seq<AlbumRow>,
                         list: seq<RemoteAlbum>, n: nat, shared: bool)
    requires NewAlbumRows(albums0, albums1, list, n, shared) && n < |list|
    requires albums2 == albums1 || exists dir, title :: albums2 == albums1 + [AlbumRow(list[n].id, dir, title, shared)]
    ensures NewAlbumRows(albums0, albums2, list, n + 1, shared)
  {
    AppendedTail(albums0, albums1, albums2);
    forall row | row in albums2[|albums0|..]
      ensures row.isShared == shared && exists a :: a in list[..n + 1] && a.id == row.uuid
    {
      assert list[..n + 1] == list[..n] + [list[n]];
      var k :| |albums0| <= k < |albums2| && albums2[k] == row;
      if k < |albums1| {
        assert albums1[k] in albums1[|albums0|..];
      } else {
        assert row.uuid == list[n].id;
      }
    }
  }

  /** A table that grew twice by appending grew by appending. */
  lemma AppendedTail<R>(a: seq<R>, b: seq<R>, c: seq<R>)
    requires |a| <= |b| && b[..|a|] == a
    requires |b| <= |c| && c[..|b|] == b
    ensures |a| <= |c| && c[..|a|] == a
  {
    assert c[..|a|] == c[..|b|][..|a|];
  }

  /** The rows a drain inserts carry the album of the batch, and there are no
      more of them than tasks. */
  lemma SavedRowsFromTasks(tasks: seq<DownloadTask>, order: seq<nat>, outcomes: seq<DownloadResult>,
                           albumUuid: Option<string>)
    requires |outcomes| == |tasks| && IsPermutation(order, |tasks|)
    requires forall t :: t in tasks ==> t.albumUuid == albumUuid
    requires forall k :: 0 <= k < |tasks| && outcomes[k].Saved? ==> outcomes[k].row.albumUuid == tasks[order[k]].albumUuid
    ensures |SavedRows(outcomes)| <= |tasks|
    ensures forall row :: row in SavedRows(outcomes) ==> row.albumUuid == albumUuid
  {
    SavedRowsExact(outcomes);
    forall row | row in SavedRows(outcomes) ensures row.albumUuid == albumUuid {
      var k :| 0 <= k < |outcomes| && outcomes[k] == Saved(row);
      assert tasks[order[k]] in tasks;
    }
  }
}
