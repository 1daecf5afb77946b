/** What the archiver decides per item, as functions of the state it reads:
    the download task process_media_items builds from a remote item
    (gparch.py:307-354) and what download_media_item does with one task
    (gparch.py:208-268). The PhotosAccount methods are proved against these. */
module Tasks {
  import opened Text
  import opened Naming
  import opened Index
  import opened Remote
  import opened Metadata

  /** The tuple `(uuid, album_uuid, url, path, description, creation_time)`. */
  datatype DownloadTask = DownloadTask(
    uuid: string,
    albumUuid: Option<string>,
    url: string,
    path: string,
    description: Option<string>,
    creationTime: Option<string>)

  /** The reply to `requests.get(url, stream=True)`, or the exception it raised. */
  datatype HttpResponse = ConnectionError | Response(status: int)

  /** What download_media_item returns: False, an implicit None, or the tuple
      `(uuid, path, album_uuid)`; only the tuple is truthy. */
  datatype DownloadResult =
    | AlreadyOnDisk           // `return False` at line 264
    | RequestFailed           // an exception caught at line 265
    | BadStatus(status: int)  // status other than 200: falls off the end, None
    | Saved(row: MediaRow)    // the tuple
  {
    predicate Truthy() { Saved? }
  }

  /** The test at lines 330 and 342: "image" is tested first. */
  predicate IsImage(item: RemoteItem) {
    Contains(item.mimeType, "image")
  }

  predicate IsMedia(item: RemoteItem) {
    IsImage(item) || Contains(item.mimeType, "video")
  }

  /** The download variant: "=d" for images, "=dv" for videos. */
  function UrlFor(item: RemoteItem): string {
    item.baseUrl + (if IsImage(item) then "=d" else "=dv")
  }

  /** Where the item goes: the stored path of its first index row, else the
      save directory joined with the sanitized filename. */
  function TargetPath(item: RemoteItem, saveDir: string, media: seq<MediaRow>,
                      sanitize: string -> string): string
  {
    match SelectMedia(media, item.id)
    case Some(row) => row.path
    case None => saveDir + "/" + sanitize(item.filename)
  }

  /** The task process_media_items appends for one item, if any. */
  function TaskFor(item: RemoteItem, saveDir: string, albumUuid: Option<string>,
                   media: seq<MediaRow>, sanitize: string -> string): (t: Option<DownloadTask>)
    ensures t.Some? <==> IsMedia(item)
    ensures t.Some? ==> t.value.uuid == item.id && t.value.albumUuid == albumUuid
    ensures t.Some? ==> t.value.url == UrlFor(item) && t.value.path == TargetPath(item, saveDir, media, sanitize)
    ensures t.Some? ==> t.value.description == item.description && t.value.creationTime == Some(item.creationTime)
  {
    if IsMedia(item) then
      Some(DownloadTask(item.id, albumUuid, UrlFor(item), TargetPath(item, saveDir, media, sanitize),
                        item.description, Some(item.creationTime)))
    else None
  }

  /** The list process_media_items returns. */
  function TasksFor(items: seq<RemoteItem>, saveDir: string, albumUuid: Option<string>,
                    media: seq<MediaRow>, sanitize: string -> string): (ts: seq<DownloadTask>)
    ensures |ts| <= |items|
    ensures forall t :: t in ts ==> t.albumUuid == albumUuid
    decreases |items|
  {
    if items == [] then []
    else
      var rest := TasksFor(items[1..], saveDir, albumUuid, media, sanitize);
      match TaskFor(items[0], saveDir, albumUuid, media, sanitize)
      case None => rest
      case Some(t) => [t] + rest
  }

  /** The tasks of one item: its task when it has one. */
  lemma TasksForSingle(item: RemoteItem, saveDir: string, albumUuid: Option<string>,
                       media: seq<MediaRow>, sanitize: string -> string)
    ensures TasksFor([item], saveDir, albumUuid, media, sanitize) ==
            if IsMedia(item) then [TaskFor(item, saveDir, albumUuid, media, sanitize).value] else []
  {
    assert [item][1..] == [];
  }

  /** The tasks of a concatenation are the concatenation of the tasks. */
  lemma {:induction false} TasksForAppend(a: seq<RemoteItem>, b: seq<RemoteItem>, saveDir: string,
                                          albumUuid: Option<string>, media: seq<MediaRow>,
                                          sanitize: string -> string)
    ensures TasksFor(a + b, saveDir, albumUuid, media, sanitize) ==
            TasksFor(a, saveDir, albumUuid, media, sanitize) + TasksFor(b, saveDir, albumUuid, media, sanitize)
    decreases |a|
  {
    if a == [] {
      assert a + b == b;
    } else {
      assert (a + b)[0] == a[0];
      assert (a + b)[1..] == a[1..] + b;
      TasksForAppend(a[1..], b, saveDir, albumUuid, media, sanitize);
    }
  }

  /** Indices of the items that yield a task, in increasing order. */
  function MediaIndices(items: seq<RemoteItem>): (ix: seq<nat>)
    ensures forall k :: 0 <= k < |ix| ==> ix[k] < |items| && IsMedia(items[ix[k]])
    decreases |items|
  {
    if items == [] then []
    else
      var rest := Shift(MediaIndices(items[1..]));
      if IsMedia(items[0]) then [0] + rest else rest
  }

  /** Every index moved one place up. */
  function Shift(ix: seq<nat>): (r: seq<nat>)
    ensures |r| == |ix| && forall k :: 0 <= k < |ix| ==> r[k] == ix[k] + 1
  {
    seq(|ix|, k requires 0 <= k < |ix| => ix[k] + 1)
  }

  predicate Increasing(ix: seq<nat>) {
    forall k, l :: 0 <= k < l < |ix| ==> ix[k] < ix[l]
  }

  /** The media indices are increasing. */
  lemma {:induction false} MediaIndicesIncreasing(items: seq<RemoteItem>)
    ensures Increasing(MediaIndices(items))
    decreases |items|
  {
    if items != [] {
      MediaIndicesIncreasing(items[1..]);
      var ixTail := MediaIndices(items[1..]);
      var rest := Shift(ixTail);
      forall k, l | 0 <= k < l < |rest| ensures rest[k] < rest[l] {
        assert rest[k] == ixTail[k] + 1 && rest[l] == ixTail[l] + 1;
      }
      assert forall k :: 0 <= k < |rest| ==> 0 < rest[k];
      if IsMedia(items[0]) {
        var ix := [0] + rest;
        assert forall k :: 0 < k < |ix| ==> ix[k] == rest[k - 1];
      }
    }
  }

  /** Every media item has its index among the media indices. */
  lemma {:induction false} MediaIndicesCover(items: seq<RemoteItem>, i: nat)
    requires i < |items| && IsMedia(items[i])
    ensures i in MediaIndices(items)
    decreases |items|
  {
    var ix := MediaIndices(items);
    if 0 < i {
      var tail := items[1..];
      assert tail[i - 1] == items[i];
      MediaIndicesCover(tail, i - 1);
      var ixTail := MediaIndices(tail);
      var k :| 0 <= k < |ixTail| && ixTail[k] == i - 1;
      var rest := Shift(ixTail);
      assert rest[k] == i;
      assert ix == (if IsMedia(items[0]) then [0] + rest else rest);
    } else {
      assert ix[0] == 0;
    }
  }

  /** Task k comes from the media item at index k of the media indices. */
  predicate TasksMatchIndices(items: seq<RemoteItem>, saveDir: string, albumUuid: Option<string>,
                              media: seq<MediaRow>, sanitize: string -> string)
  {
    var tasks := TasksFor(items, saveDir, albumUuid, media, sanitize);
    var ix := MediaIndices(items);
    && |tasks| == |ix|
    && forall k :: 0 <= k < |ix| ==> Some(tasks[k]) == TaskFor(items[ix[k]], saveDir, albumUuid, media, sanitize)
  }

  /** The k-th task comes from the k-th media item. */
  lemma {:induction false} TasksFromMediaIndices(items: seq<RemoteItem>, saveDir: string, albumUuid: Option<string>,
                                                 media: seq<MediaRow>, sanitize: string -> string)
    ensures TasksMatchIndices(items, saveDir, albumUuid, media, sanitize)
    decreases |items|
  {
    if items != [] {
      TasksFromMediaIndices(items[1..], saveDir, albumUuid, media, sanitize);
      if IsMedia(items[0]) {
        MediaHeadStep(items, saveDir, albumUuid, media, sanitize);
      } else {
        OtherHeadStep(items, saveDir, albumUuid, media, sanitize);
      }
    }
  }

  /** A leading image or video gives the first task; the rest shift by one. */
  lemma MediaHeadStep(items: seq<RemoteItem>, saveDir: string, albumUuid: Option<string>,
                      media: seq<MediaRow>, sanitize: string -> string)
    requires items != [] && IsMedia(items[0])
    requires TasksMatchIndices(items[1..], saveDir, albumUuid, media, sanitize)
    ensures TasksMatchIndices(items, saveDir, albumUuid, media, sanitize)
  {
    var tail := items[1..];
    var ixTail := MediaIndices(tail);
    var tasksTail := TasksFor(tail, saveDir, albumUuid, media, sanitize);
    var tasks := TasksFor(items, saveDir, albumUuid, media, sanitize);
    var ix := MediaIndices(items);
    var t := TaskFor(items[0], saveDir, albumUuid, media, sanitize).value;
    assert tasks == [t] + tasksTail;
    assert ix == [0] + Shift(ixTail);
    forall k | 0 < k < |ix| ensures Some(tasks[k]) == TaskFor(items[ix[k]], saveDir, albumUuid, media, sanitize) {
      assert tasks[k] == tasksTail[k - 1];
      assert ix[k] == ixTail[k - 1] + 1;
      assert items[ix[k]] == tail[ixTail[k - 1]];
    }
  }

  /** A leading item that is neither image nor video gives no task; the
      indices shift by one. */
  lemma OtherHeadStep(items: seq<RemoteItem>, saveDir: string, albumUuid: Option<string>,
                      media: seq<MediaRow>, sanitize: string -> string)
    requires items != [] && !IsMedia(items[0])
    requires TasksMatchIndices(items[1..], saveDir, albumUuid, media, sanitize)
    ensures TasksMatchIndices(items, saveDir, albumUuid, media, sanitize)
  {
    var tail := items[1..];
    var ixTail := MediaIndices(tail);
    var tasks := TasksFor(items, saveDir, albumUuid, media, sanitize);
    var ix := MediaIndices(items);
    assert tasks == TasksFor(tail, saveDir, albumUuid, media, sanitize);
    assert ix == Shift(ixTail);
    forall k | 0 <= k < |ix| ensures Some(tasks[k]) == TaskFor(items[ix[k]], saveDir, albumUuid, media, sanitize) {
      assert ix[k] == ixTail[k] + 1;
      assert items[ix[k]] == tail[ixTail[k]];
    }
  }

  /** process_media_items is an order-preserving filter and map: the k-th
      task comes from the k-th media item, the media items are exactly the
      items that are images or videos, and they keep their input order. */
  lemma TasksForSources(items: seq<RemoteItem>, saveDir: string, albumUuid: Option<string>,
                        media: seq<MediaRow>, sanitize: string -> string)
    ensures var tasks := TasksFor(items, saveDir, albumUuid, media, sanitize);
            var ix := MediaIndices(items);
            && |tasks| == |ix|
            && (forall k :: 0 <= k < |ix| ==> Some(tasks[k]) == TaskFor(items[ix[k]], saveDir, albumUuid, media, sanitize))
            && Increasing(ix)
            && (forall i :: 0 <= i < |items| && IsMedia(items[i]) ==> i in ix)
  {
    TasksFromMediaIndices(items, saveDir, albumUuid, media, sanitize);
    MediaIndicesIncreasing(items);
    forall i | 0 <= i < |items| && IsMedia(items[i]) ensures i in MediaIndices(items) {
      MediaIndicesCover(items, i);
    }
  }

  /** Items that are neither image nor video are dropped: the number of tasks
      is the number of media items, whatever the index holds. */
  lemma TasksForLength(items: seq<RemoteItem>, saveDir: string, albumUuid: Option<string>,
                       media: seq<MediaRow>, sanitize: string -> string)
    ensures |TasksFor(items, saveDir, albumUuid, media, sanitize)| == |MediaIndices(items)|
  {
    TasksForSources(items, saveDir, albumUuid, media, sanitize);
  }

  /** The effect of download_media_item on one task: the result, the files it
      writes and which metadata path it took. */
  datatype Step = Step(result: DownloadResult, written: set<string>, metadata: MetadataOutcome)

  /** download_media_item against a filesystem snapshot (`files`, `dirs`),
      the server's reply and the foreign metadata calls. */
  function DownloadStep(task: DownloadTask, files: set<string>, dirs: set<string>,
                        response: HttpResponse, env: XmpEnv): (s: Step)
    // the idempotence guard: a file at the target path means no request at all
    ensures task.path in files ==> s == Step(AlreadyOnDisk, {}, NotAttempted)
    ensures s.result.Saved? <==> task.path !in files && response == Response(200)
    ensures task.path !in files && response.ConnectionError? ==> s.result == RequestFailed
    ensures task.path !in files && response.Response? && response.status != 200 ==>
              s.result == BadStatus(response.status)
    ensures !s.result.Saved? ==> s.written == {} && s.metadata.NotAttempted?
    // a success is recorded under a fresh name and nothing but it and its sidecar is written
    ensures s.result.Saved? ==>
              && s.result.row.uuid == task.uuid && s.result.row.albumUuid == task.albumUuid
              && s.result.row.path == FreeName(BeforeExtension, files + dirs, task.path)
              && s.result.row.path !in files + dirs
              && s.written == {s.result.row.path} +
                             (if s.metadata.Sidecar? || s.metadata.EmptySidecar? then {SidecarPath(s.result.row.path)} else {})
    ensures s.result.Saved? ==>
              (s.metadata.NotAttempted? <==> !Truthy(task.description) && task.creationTime.None?)
    // the metadata block runs on the saved file, against the directories as they were
    ensures s.result.Saved? ==>
              s.metadata == Embed(s.result.row.path, task.description, task.creationTime, dirs, env)
  {
    if task.path in files then Step(AlreadyOnDisk, {}, NotAttempted)
    else match response
      case ConnectionError => Step(RequestFailed, {}, NotAttempted)
      case Response(status) =>
        if status != 200 then Step(BadStatus(status), {}, NotAttempted)
        else
          var path := FreeName(BeforeExtension, files + dirs, task.path);
          var meta := Embed(path, task.description, task.creationTime, dirs, env);
          var written := {path} + SidecarFiles(meta);
          Step(Saved(MediaRow(task.uuid, path, task.albumUuid)), written, meta)
  }

  /** A failed serialization still leaves a file: the sidecar is opened for
      writing before the packet is serialized, so a saved download whose
      packet cannot be serialized leaves the media file and the sidecar. */
  lemma FailedSerializeLeavesSidecar(task: DownloadTask, files: set<string>, dirs: set<string>, env: XmpEnv)
    requires task.path !in files
    requires task.creationTime.Some? && env.timeParses
    requires !(env.fileOpened && env.canPut && env.putOk) && !env.serializeOk
    ensures var s := DownloadStep(task, files, dirs, Response(200), env);
            s.result.Saved? &&
            (SidecarPath(s.result.row.path) !in dirs ==>
               s.metadata == EmptySidecar(SidecarPath(s.result.row.path)) &&
               s.written == {s.result.row.path, SidecarPath(s.result.row.path)})
  {
  }

  /** Metadata never decides the download: whatever libxmp does, the result
      is the same. */
  lemma MetadataIsolated(task: DownloadTask, files: set<string>, dirs: set<string>,
                         response: HttpResponse, env1: XmpEnv, env2: XmpEnv)
    ensures DownloadStep(task, files, dirs, response, env1).result ==
            DownloadStep(task, files, dirs, response, env2).result
  {
  }

  /** Every task process_media_items builds carries a creation time, so
      every successful download attempts the metadata block. */
  lemma SavedTaskAttemptsMetadata(item: RemoteItem, saveDir: string, albumUuid: Option<string>,
                                  media: seq<MediaRow>, sanitize: string -> string,
                                  files: set<string>, dirs: set<string>, env: XmpEnv)
    requires IsMedia(item)
    ensures var t := TaskFor(item, saveDir, albumUuid, media, sanitize).value;
            var s := DownloadStep(t, files, dirs, Response(200), env);
            t.path !in files ==> s.result.Saved? && !s.metadata.NotAttempted?
  {
  }

  /** Dedup: an item seen for the first time and saved is, on the next run,
      mapped to the path just recorded (from whatever directory it is listed
      under) and skipped without a request, whatever the server would answer. */
  lemma RerunSkipsSavedItem(item: RemoteItem, saveDir: string, albumUuid: Option<string>,
                                               media: seq<MediaRow>, sanitize: string -> string,
                                               files: set<string>, dirs: set<string>,
                                               response: HttpResponse, env: XmpEnv,
                                               saveDir': string, albumUuid': Option<string>,
                                               response': HttpResponse, env': XmpEnv)
    requires IsMedia(item) && SelectMedia(media, item.id).None?
    requires DownloadStep(TaskFor(item, saveDir, albumUuid, media, sanitize).value,
                          files, dirs, response, env).result.Saved?
    ensures var s := DownloadStep(TaskFor(item, saveDir, albumUuid, media, sanitize).value,
                                  files, dirs, response, env);
            var t' := TaskFor(item, saveDir', albumUuid', media + [s.result.row], sanitize).value;
            && t'.path == s.result.row.path
            && DownloadStep(t', files + s.written, dirs, response', env').result == AlreadyOnDisk
  {
    var s := DownloadStep(TaskFor(item, saveDir, albumUuid, media, sanitize).value, files, dirs, response, env);
    SelectMediaAfterInsert(media, s.result.row, item.id);
    assert SelectMedia(media + [s.result.row], item.id) == Some(s.result.row);
  }

  /** Two different items that are not indexed and whose filenames sanitize
      to the same name in one directory: once the first is saved under that
      name, the isfile guard takes the second for the first and skips it, so
      the second is never fetched and never indexed. */
  lemma SameNameSecondItemSkipped(a: RemoteItem, b: RemoteItem, saveDir: string,
                                                     albumUuid: Option<string>, media: seq<MediaRow>,
                                                     sanitize: string -> string,
                                                     files: set<string>, dirs: set<string>,
                                                     response: HttpResponse, env: XmpEnv,
                                                     responseB: HttpResponse, envB: XmpEnv)
    requires IsMedia(a) && IsMedia(b) && a.id != b.id
    requires SelectMedia(media, a.id).None? && SelectMedia(media, b.id).None?
    requires sanitize(a.filename) == sanitize(b.filename)
    requires saveDir + "/" + sanitize(a.filename) !in files + dirs
    requires response == Response(200)
    ensures var s := DownloadStep(TaskFor(a, saveDir, albumUuid, media, sanitize).value, files, dirs, response, env);
            var media' := media + [s.result.row];
            && s.result.Saved?
            && DownloadStep(TaskFor(b, saveDir, albumUuid, media', sanitize).value,
                            files + s.written, dirs, responseB, envB).result == AlreadyOnDisk
  {
    var p := saveDir + "/" + sanitize(a.filename);
    var s := DownloadStep(TaskFor(a, saveDir, albumUuid, media, sanitize).value, files, dirs, response, env);
    FreeInstanceIsLeast(BeforeExtension, files + dirs, p, 0, 0);
    assert s.result.row.path == p;
    SelectMediaAfterInsert(media, s.result.row, b.id);
  }

  /** A recorded item whose file has vanished is fetched again to its
      recorded path, so a second media row with the same uuid follows, while
      lookups keep answering the first row. */
  lemma VanishedFileRecordedTwice(item: RemoteItem, saveDir: string, albumUuid: Option<string>,
                                                     media: seq<MediaRow>, sanitize: string -> string,
                                                     files: set<string>, dirs: set<string>, env: XmpEnv)
    requires IsMedia(item) && SelectMedia(media, item.id).Some?
    requires SelectMedia(media, item.id).value.path !in files + dirs
    ensures var first := SelectMedia(media, item.id).value;
            var s := DownloadStep(TaskFor(item, saveDir, albumUuid, media, sanitize).value,
                                  files, dirs, Response(200), env);
            && s.result.Saved?
            && s.result.row.uuid == first.uuid && s.result.row.path == first.path
            && SelectMedia(media + [s.result.row], item.id) == Some(first)
  {
    var first := SelectMedia(media, item.id).value;
    var s := DownloadStep(TaskFor(item, saveDir, albumUuid, media, sanitize).value, files, dirs, Response(200), env);
    FreeInstanceIsLeast(BeforeExtension, files + dirs, first.path, 0, 0);
    SelectMediaAfterInsert(media, s.result.row, item.id);
  }
}
