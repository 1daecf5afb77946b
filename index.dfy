/** The archive index (gparch.py:188-203, 285-305): the sqlite file holds two
    tables that the archiver only ever appends to. `media` records where each
    downloaded item was saved, `albums` the directory made for each album.
    A `SELECT * ... WHERE uuid=?` followed by `fetchone()` without ORDER BY
    scans the table in insertion order, so a lookup yields the first row with
    that uuid. */
module Index {
  import opened Text

  /** A row of `media (uuid text, path text, album_uuid text)`; a NULL album is None. */
  datatype MediaRow = MediaRow(uuid: string, path: string, albumUuid: Option<string>)

  /** A row of `albums (uuid text, path text, title text, is_shared integer)`. */
  datatype AlbumRow = AlbumRow(uuid: string, path: string, title: string, isShared: bool)

  /** The content of the database file when it already exists. */
  datatype Database = Database(media: seq<MediaRow>, albums: seq<AlbumRow>)

  /** Position of the first row whose key is `uuid`, if any. */
  function FirstMatch<R>(rows: seq<R>, key: R -> string, uuid: string): (r: Option<nat>)
    ensures r.Some? ==> r.value < |rows| && key(rows[r.value]) == uuid
    ensures r.Some? ==> forall j :: 0 <= j < r.value ==> key(rows[j]) != uuid
    ensures r.None? <==> forall j :: 0 <= j < |rows| ==> key(rows[j]) != uuid
    decreases |rows|
  {
    if rows == [] then None
    else if key(rows[0]) == uuid then Some(0)
    else
      match FirstMatch(rows[1..], key, uuid)
      case None => None
      case Some(i) => Some(i + 1)
  }

  /** select_media_item: the first media row recorded for the item. */
  function SelectMedia(rows: seq<MediaRow>, uuid: string): (r: Option<MediaRow>)
    ensures r.Some? ==> r.value in rows && r.value.uuid == uuid
    ensures r.None? <==> forall j :: 0 <= j < |rows| ==> rows[j].uuid != uuid
  {
    match FirstMatch(rows, (m: MediaRow) => m.uuid, uuid)
    case None => None
    case Some(i) => Some(rows[i])
  }

  /** select_album: the first album row recorded for the album. */
  function SelectAlbum(rows: seq<AlbumRow>, uuid: string): (r: Option<AlbumRow>)
    ensures r.Some? ==> r.value in rows && r.value.uuid == uuid
    ensures r.None? <==> forall j :: 0 <= j < |rows| ==> rows[j].uuid != uuid
  {
    match FirstMatch(rows, (a: AlbumRow) => a.uuid, uuid)
    case None => None
    case Some(i) => Some(rows[i])
  }

  /** Appending rows never changes an answer the table already gives: a
      recorded path stays authoritative. */
  lemma FirstMatchStable<R>(rows: seq<R>, more: seq<R>, key: R -> string, uuid: string)
    requires FirstMatch(rows, key, uuid).Some?
    ensures FirstMatch(rows + more, key, uuid) == FirstMatch(rows, key, uuid)
  {
    var i := FirstMatch(rows, key, uuid).value;
    var all := rows + more;
    assert forall j :: 0 <= j < |rows| ==> all[j] == rows[j];
    assert key(all[i]) == uuid;
  }

  /** When no row has the uuid yet, a lookup after appending finds the
      first appended row that has it. */
  lemma FirstMatchAppended<R>(rows: seq<R>, more: seq<R>, key: R -> string, uuid: string)
    requires FirstMatch(rows, key, uuid).None?
    ensures FirstMatch(rows + more, key, uuid) ==
            match FirstMatch(more, key, uuid)
            case None => None
            case Some(i) => Some(|rows| + i)
  {
    var all := rows + more;
    assert forall j :: 0 <= j < |rows| ==> all[j] == rows[j];
    assert forall j :: |rows| <= j < |all| ==> all[j] == more[j - |rows|];
    match FirstMatch(more, key, uuid) {
      case None =>
        assert forall j :: 0 <= j < |all| ==> key(all[j]) != uuid;
      case Some(i) =>
        assert key(all[|rows| + i]) == uuid;
        assert forall j :: 0 <= j < |rows| + i ==> key(all[j]) != uuid;
    }
  }

  /** The media table after inserting a row: an item already recorded keeps
      its first row; an item not yet recorded is now found at the new row. */
  lemma SelectMediaAfterInsert(rows: seq<MediaRow>, row: MediaRow, uuid: string)
    ensures SelectMedia(rows, uuid).Some? ==> SelectMedia(rows + [row], uuid) == SelectMedia(rows, uuid)
    ensures SelectMedia(rows, uuid).None? && row.uuid == uuid ==> SelectMedia(rows + [row], uuid) == Some(row)
    ensures SelectMedia(rows, uuid).None? && row.uuid != uuid ==> SelectMedia(rows + [row], uuid).None?
  {
    var key := (m: MediaRow) => m.uuid;
    if FirstMatch(rows, key, uuid).Some? {
      FirstMatchStable(rows, [row], key, uuid);
    } else {
      FirstMatchAppended(rows, [row], key, uuid);
    }
  }

  /** The same for the album table. */
  lemma SelectAlbumAfterInsert(rows: seq<AlbumRow>, row: AlbumRow, uuid: string)
    ensures SelectAlbum(rows, uuid).Some? ==> SelectAlbum(rows + [row], uuid) == SelectAlbum(rows, uuid)
    ensures SelectAlbum(rows, uuid).None? && row.uuid == uuid ==> SelectAlbum(rows + [row], uuid) == Some(row)
    ensures SelectAlbum(rows, uuid).None? && row.uuid != uuid ==> SelectAlbum(rows + [row], uuid).None?
  {
    var key := (a: AlbumRow) => a.uuid;
    if FirstMatch(rows, key, uuid).Some? {
      FirstMatchStable(rows, [row], key, uuid);
    } else {
      FirstMatchAppended(rows, [row], key, uuid);
    }
  }

  /** A recorded album keeps its row however many rows are appended. */
  lemma SelectAlbumStable(rows: seq<AlbumRow>, more: seq<AlbumRow>, uuid: string)
    requires SelectAlbum(rows, uuid).Some?
    ensures SelectAlbum(rows + more, uuid) == SelectAlbum(rows, uuid)
  {
    FirstMatchStable(rows, more, (a: AlbumRow) => a.uuid, uuid);
  }
}
