/** The remote photo library as the archiver sees it: media items, albums,
    and the cursor pagination of list_media_items, list_albums,
    list_shared_albums, search_favorites and the album search inside
    download_single_album (gparch.py:395-407, 442-542).

    The service is a script of replies: the i-th request gets `pages[i]`.
    Each loop reads the first reply, returns an empty result when that reply
    is an empty (falsy) dict, and otherwise adds each reply's entries and asks
    again with its `nextPageToken` until a reply has none. */
module Remote {
  import opened Text

  /** A media item of the listing (the keys the archiver reads). */
  datatype RemoteItem = RemoteItem(
    id: string,
    filename: string,
    mimeType: string,
    baseUrl: string,
    description: Option<string>,   // the optional "description" key
    creationTime: string)          // mediaMetadata.creationTime

  /** An album of the listing; an absent "title" or "mediaItemsCount" is None. */
  datatype RemoteAlbum = RemoteAlbum(id: string, title: Option<string>, mediaItemsCount: Option<string>)

  /** The service call each loop issues. */
  datatype Endpoint = MediaList | FavoritesSearch | AlbumSearch(albumId: string) | AlbumList | SharedAlbumList

  /** One request: the call, its pageSize and its pageToken (None when the
      call is made without one). */
  datatype Request = Request(endpoint: Endpoint, pageSize: nat, pageToken: Option<string>)

  /** One reply: the list under the collection's key ("mediaItems",
      "albums" or "sharedAlbums") if present, "nextPageToken" if present, and
      whether any other key is present. */
  datatype Reply<T> = Reply(entries: Option<seq<T>>, nextPageToken: Option<string>, otherKeys: bool) {
    /** Python truthiness of the reply dict: it is falsy only when empty. */
    predicate Truthy() {
      entries.Some? || nextPageToken.Some? || otherKeys
    }
    function Entries(): seq<T> {
      entries.GetOr([])
    }
  }

  /** Page sizes the archiver asks for. */
  const MediaPageSize: nat := 100
  const AlbumPageSize: nat := 50
  const SharedAlbumPageSize: nat := 50
  const SearchPageSize: nat := 100

  /** The script ends: its last reply carries no nextPageToken, so every loop
      stops within it. */
  predicate Ends<T>(pages: seq<Reply<T>>) {
    |pages| > 0 && pages[|pages| - 1].nextPageToken.None?
  }

  /** Index of the reply that stops a loop reading from reply i on: the
      first one at or after i without a token. */
  function LastFrom<T>(pages: seq<Reply<T>>, i: nat): (k: nat)
    requires Ends(pages) && i < |pages|
    ensures i <= k < |pages| && pages[k].nextPageToken.None?
    ensures forall j :: i <= j < k ==> pages[j].nextPageToken.Some?
    decreases |pages| - i
  {
    if pages[i].nextPageToken.None? then i else LastFrom(pages, i + 1)
  }

  /** Index of the reply that stops the loop: the first without a token. */
  function LastPage<T>(pages: seq<Reply<T>>): (k: nat)
    requires Ends(pages)
    ensures k < |pages| && pages[k].nextPageToken.None?
    ensures forall j :: 0 <= j < k ==> pages[j].nextPageToken.Some?
  {
    LastFrom(pages, 0)
  }

  /** The entries of the given replies, concatenated in order. */
  function Flatten<T>(pages: seq<Reply<T>>): (r: seq<T>)
    decreases |pages|
  {
    if pages == [] then [] else pages[0].Entries() + Flatten(pages[1..])
  }

  /** What the loop collects from reply i on: None when `strict` (the key is
      read with `request[key]`) and some reply it reads lacks it. */
  function DrainFrom<T>(pages: seq<Reply<T>>, i: nat, strict: bool): (d: Option<seq<T>>)
    requires Ends(pages) && i < |pages|
    ensures d.None? ==> strict
    ensures d.None? ==> exists j :: i <= j <= LastFrom(pages, i) && pages[j].entries.None?
    decreases |pages| - i
  {
    if strict && pages[i].entries.None? then None
    else if pages[i].nextPageToken.None? then Some(pages[i].Entries())
    else Prefixed(pages[i].Entries(), DrainFrom(pages, i + 1, strict))
  }

  /** What the whole loop collects. */
  function Drain<T>(pages: seq<Reply<T>>, strict: bool): Option<seq<T>>
    requires Ends(pages)
  {
    DrainFrom(pages, 0, strict)
  }

  /** `acc` followed by a collection that may have failed. */
  function Prefixed<T>(acc: seq<T>, d: Option<seq<T>>): Option<seq<T>> {
    match d
    case None => None
    case Some(rest) => Some(acc + rest)
  }

  lemma PrefixedNested<T>(a: seq<T>, b: seq<T>, d: Option<seq<T>>)
    ensures Prefixed(a, Prefixed(b, d)) == Prefixed(a + b, d)
    ensures Prefixed([], d) == d
  {
    if d.Some? {
      assert a + (b + d.value) == (a + b) + d.value;
      assert [] + d.value == d.value;
    }
  }

  /** The outcome of one pagination loop. */
  datatype Listing<T> =
    | NoResponse              // the first reply was falsy: `if not request: return`
    | Listed(entries: seq<T>) // the replies' entries, in order
    | MissingKey              // `request["sharedAlbums"]` raised KeyError

  function ListingOf<T>(pages: seq<Reply<T>>, strict: bool): (r: Listing<T>)
    requires Ends(pages)
    ensures r.NoResponse? <==> !pages[0].Truthy()
    ensures r.MissingKey? ==> strict && exists j :: 0 <= j <= LastPage(pages) && pages[j].entries.None?
  {
    if !pages[0].Truthy() then NoResponse
    else match Drain(pages, strict)
      case None => MissingKey
      case Some(entries) => Listed(entries)
  }

  lemma {:induction false} FlattenAppend<T>(a: seq<Reply<T>>, b: seq<Reply<T>>)
    ensures Flatten(a + b) == Flatten(a) + Flatten(b)
    decreases |a|
  {
    if a == [] {
      assert a + b == b;
    } else {
      assert (a + b)[0] == a[0];
      assert (a + b)[1..] == a[1..] + b;
      FlattenAppend(a[1..], b);
    }
  }

  lemma SingleFlatten<T>(page: Reply<T>)
    ensures Flatten([page]) == page.Entries()
  {
    assert [page][1..] == [];
  }

  /** A lenient loop collects, from reply i on, exactly the entries of the
      replies up to and including the first one without a token. */
  lemma {:induction false} DrainFromIsFlatten<T>(pages: seq<Reply<T>>, i: nat)
    requires Ends(pages) && i < |pages|
    ensures DrainFrom(pages, i, false) == Some(Flatten(pages[i..LastFrom(pages, i) + 1]))
    decreases |pages| - i
  {
    var k := LastFrom(pages, i);
    SingleFlatten(pages[i]);
    if pages[i].nextPageToken.None? {
      assert pages[i..k + 1] == [pages[i]];
    } else {
      DrainFromIsFlatten(pages, i + 1);
      assert pages[i..k + 1] == [pages[i]] + pages[i + 1..k + 1];
      FlattenAppend([pages[i]], pages[i + 1..k + 1]);
    }
  }

  /** Pagination completeness: a lenient loop collects exactly the entries of
      the replies up to and including the first one without a token, in page
      order. */
  lemma DrainIsFlatten<T>(pages: seq<Reply<T>>)
    requires Ends(pages)
    ensures Drain(pages, false) == Some(Flatten(pages[..LastPage(pages) + 1]))
  {
    DrainFromIsFlatten(pages, 0);
    assert pages[0..LastPage(pages) + 1] == pages[..LastPage(pages) + 1];
  }

  /** From reply i on, a strict loop fails exactly when some reply it reads
      lacks the key, and otherwise collects what a lenient one does. */
  lemma {:induction false} StrictDrainFrom<T>(pages: seq<Reply<T>>, i: nat)
    requires Ends(pages) && i < |pages|
    ensures (forall j :: i <= j <= LastFrom(pages, i) ==> pages[j].entries.Some?) ==>
              DrainFrom(pages, i, true) == DrainFrom(pages, i, false)
    ensures (exists j :: i <= j <= LastFrom(pages, i) && pages[j].entries.None?) ==>
              DrainFrom(pages, i, true).None?
    decreases |pages| - i
  {
    if pages[i].entries.Some? && pages[i].nextPageToken.Some? {
      StrictDrainFrom(pages, i + 1);
    }
  }

  /** A strict loop fails exactly when some reply it reads lacks the key, and
      otherwise collects what a lenient one does. */
  lemma StrictDrain<T>(pages: seq<Reply<T>>)
    requires Ends(pages)
    ensures (forall j :: 0 <= j <= LastPage(pages) ==> pages[j].entries.Some?) ==>
              Drain(pages, true) == Drain(pages, false)
    ensures (exists j :: 0 <= j <= LastPage(pages) && pages[j].entries.None?) ==>
              Drain(pages, true).None?
  {
    StrictDrainFrom(pages, 0);
  }

  /** One pagination loop. The requests it makes are returned as `sent`. */
  method Paginate<T>(pages: seq<Reply<T>>, endpoint: Endpoint, pageSize: nat,
                     firstToken: Option<string>, strict: bool)
    returns (r: Listing<T>, sent: seq<Request>)
    requires Ends(pages)
    ensures r == ListingOf(pages, strict)
    ensures 1 <= |sent| <= LastPage(pages) + 1
    ensures sent[0] == Request(endpoint, pageSize, firstToken)
    ensures forall i :: 0 < i < |sent| ==> sent[i] == Request(endpoint, pageSize, pages[i - 1].nextPageToken)
    ensures r.NoResponse? ==> |sent| == 1
    ensures r.Listed? ==> |sent| == LastPage(pages) + 1
  {
    sent := [Request(endpoint, pageSize, firstToken)];
    if !pages[0].Truthy() {
      return NoResponse, sent;
    }
    var collected: seq<T> := [];
    var i := 0;
    PrefixedNested(collected, collected, Drain(pages, strict));
    while true
      invariant 0 <= i <= LastPage(pages) && LastPage(pages) == LastFrom(pages, i)
      invariant |sent| == i + 1 && sent[0] == Request(endpoint, pageSize, firstToken)
      invariant forall j :: 0 < j < |sent| ==> sent[j] == Request(endpoint, pageSize, pages[j - 1].nextPageToken)
      invariant Drain(pages, strict) == Prefixed(collected, DrainFrom(pages, i, strict))
      decreases |pages| - i
    {
      ghost var before := collected;
      if pages[i].entries.Some? {
        collected := collected + pages[i].entries.value;
      } else if strict {
        return MissingKey, sent;
      }
      if pages[i].nextPageToken.Some? {
        sent := sent + [Request(endpoint, pageSize, pages[i].nextPageToken)];
        PrefixedNested(before, pages[i].Entries(), DrainFrom(pages, i + 1, strict));
        i := i + 1;
      } else {
        break;
      }
    }
    r := Listed(collected);
  }

  /** list_media_items: every item of the library, in page order. A falsy
      first reply gives `{}`, an empty collection, which is what Flatten
      yields for it too. */
  method ListMediaItems(pages: seq<Reply<RemoteItem>>) returns (items: seq<RemoteItem>, sent: seq<Request>)
    requires Ends(pages)
    ensures items == Flatten(pages[..LastPage(pages) + 1])
    ensures 1 <= |sent|
    ensures forall q :: q in sent ==> q.endpoint == MediaList && q.pageSize == MediaPageSize
    ensures sent[0].pageToken.None?
  {
    var r;
    r, sent := Paginate(pages, MediaList, MediaPageSize, None, false);
    items := EntriesOrEmpty(pages, r);
  }

  /** list_albums: every album, in page order. */
  method ListAlbums(pages: seq<Reply<RemoteAlbum>>) returns (albums: seq<RemoteAlbum>, sent: seq<Request>)
    requires Ends(pages)
    ensures albums == Flatten(pages[..LastPage(pages) + 1])
    ensures 1 <= |sent|
    ensures forall q :: q in sent ==> q.endpoint == AlbumList && q.pageSize == AlbumPageSize
    ensures sent[0].pageToken.None?
  {
    var r;
    r, sent := Paginate(pages, AlbumList, AlbumPageSize, None, false);
    albums := EntriesOrEmpty(pages, r);
  }

  /** search_favorites: every favorite item, in page order; the search body
      starts with an empty pageToken. */
  method SearchFavorites(pages: seq<Reply<RemoteItem>>) returns (items: seq<RemoteItem>, sent: seq<Request>)
    requires Ends(pages)
    ensures items == Flatten(pages[..LastPage(pages) + 1])
    ensures 1 <= |sent|
    ensures forall q :: q in sent ==> q.endpoint == FavoritesSearch && q.pageSize == SearchPageSize
    ensures sent[0].pageToken == Some("")
  {
    var r;
    r, sent := Paginate(pages, FavoritesSearch, SearchPageSize, Some(""), false);
    items := EntriesOrEmpty(pages, r);
  }

  /** list_shared_albums reads `request["sharedAlbums"]` unconditionally: a
      truthy reply without that key raises KeyError (None here). */
  method ListSharedAlbums(pages: seq<Reply<RemoteAlbum>>) returns (albums: Option<seq<RemoteAlbum>>, sent: seq<Request>)
    requires Ends(pages)
    ensures !pages[0].Truthy() ==> albums == Some([])
    ensures pages[0].Truthy() ==>
              (albums.None? <==> exists j :: 0 <= j <= LastPage(pages) && pages[j].entries.None?)
    ensures albums.Some? ==> albums.value == Flatten(pages[..LastPage(pages) + 1])
    ensures 1 <= |sent|
    ensures forall q :: q in sent ==> q.endpoint == SharedAlbumList && q.pageSize == SharedAlbumPageSize
    ensures sent[0].pageToken.None?
  {
    var r;
    r, sent := Paginate(pages, SharedAlbumList, SharedAlbumPageSize, None, true);
    StrictDrain(pages);
    DrainIsFlatten(pages);
    if r.MissingKey? {
      albums := None;
    } else {
      albums := Some(EntriesOrEmpty(pages, r));
    }
  }

  /** The entries of a lenient or successful listing; `{}` for a falsy first
      reply, which has nothing to flatten. */
  function EntriesOrEmpty<T>(pages: seq<Reply<T>>, r: Listing<T>): (entries: seq<T>)
    requires Ends(pages)
    requires r == ListingOf(pages, false) || (r == ListingOf(pages, true) && !r.MissingKey?)
    ensures entries == Flatten(pages[..LastPage(pages) + 1])
  {
    DrainIsFlatten(pages);
    StrictDrain(pages);
    if !pages[0].Truthy() then
      assert LastPage(pages) == 0 && pages[..1] == [pages[0]];
      SingleFlatten(pages[0]);
      []
    else r.entries
  }
}
