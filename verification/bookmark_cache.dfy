/**
 * The bookmark part of the browser script: the module-level cache `bookmarkedPlaces`, the
 * bookmark markers, the search markers and the pending location of the bookmark form.
 *
 * Each `fetch` to the bookmark API is a parameter: what the server answered (a body when
 * `response.ok`), a non-ok response, or a failed request. `confirm()` dialogs are parameters
 * too. A method returns the request it sent, if any.
 */
module MapClient {
  import opened Common
  import opened Models
  import opened JsText
  import BookmarksApi

  /** `tempBookmarkData`: where the bookmark form will save, and the id when editing. */
  datatype PendingLocation = PendingLocation(lat: real, lng: real, id: Option<int>)

  /** A map marker: position and title. */
  datatype Marker = Marker(lat: real, lng: real, title: string)

  /** The settled result of `fetch(...)`: `response.ok` with its JSON body, a non-ok response, or a throw. */
  datatype FetchResult<T> = Ok(body: T) | NotOk | Failed

  datatype ClientRequest = ClientRequest(
    verb: BookmarksApi.HttpMethod,
    endpoint: BookmarksApi.Endpoint,
    body: Option<RequestBody>)

  /** The form's inputs as the modal shows them: name and notes. */
  datatype Form = Form(name: string, notes: string)

  /** `notes || null` on trimmed notes: empty notes travel as null. */
  function NotesOrNull(notes: string): (n: Option<string>)
    ensures n.None? <==> notes == ""
    ensures n.Some? ==> n.value == notes
  {
    if notes == "" then None else Some(notes)
  }

  /** The POST body of `saveBookmark`: name, notes and the pending coordinates. */
  function SaveBody(name: string, notes: string, at: PendingLocation): RequestBody
  {
    RequestBody(Some(name), NotesOrNull(notes), Number(at.lat), Number(at.lng))
  }

  /** The PUT body of `updateBookmark`: name and notes only, no coordinates. */
  function UpdateBody(name: string, notes: string): RequestBody
  {
    RequestBody(Some(name), NotesOrNull(notes), Absent, Absent)
  }

  function MarkerFor(b: LocationBookmarkDto): Marker
  {
    Marker(b.lat, b.lng, b.name)
  }

  /** One marker per bookmark, in list order. */
  function MarkersFor(places: seq<LocationBookmarkDto>): (ms: seq<Marker>)
    ensures |ms| == |places|
    ensures forall i :: 0 <= i < |places| ==> ms[i] == MarkerFor(places[i])
  {
    if places == [] then [] else [MarkerFor(places[0])] + MarkersFor(places[1..])
  }

  /** `findIndex(b => b.id === id)`: the first index with that id, or -1. */
  function FindIndex(places: seq<LocationBookmarkDto>, id: int): (k: int)
    ensures -1 <= k < |places|
    ensures k >= 0 ==> places[k].id == id && forall j :: 0 <= j < k ==> places[j].id != id
    ensures k == -1 ==> forall j :: 0 <= j < |places| ==> places[j].id != id
  {
    if places == [] then -1
    else if places[0].id == id then 0
    else
      var k := FindIndex(places[1..], id);
      assert forall j :: 1 <= j < |places| ==> places[j] == places[1..][j - 1];
      if k == -1 then -1 else k + 1
  }

  /** `filter(b => b.id !== id)`: the entries with another id, in their order. */
  function WithoutId(places: seq<LocationBookmarkDto>, id: int): (r: seq<LocationBookmarkDto>)
    ensures |r| <= |places|
    ensures forall b :: b in r <==> b in places && b.id != id
  {
    if places == [] then []
    else if places[0].id == id then WithoutId(places[1..], id)
    else [places[0]] + WithoutId(places[1..], id)
  }

  /** Filtering keeps the order of what it keeps: it distributes over concatenation. */
  lemma {:induction false} WithoutIdAppend(s: seq<LocationBookmarkDto>, t: seq<LocationBookmarkDto>, id: int)
    ensures WithoutId(s + t, id) == WithoutId(s, id) + WithoutId(t, id)
  {
    if s == [] {
      assert s + t == t;
    } else {
      assert (s + t)[1..] == s[1..] + t;
      WithoutIdAppend(s[1..], t, id);
    }
  }

  /** With no entry of that id, filtering changes nothing. */
  lemma {:induction false} WithoutAbsentId(s: seq<LocationBookmarkDto>, id: int)
    requires forall j :: 0 <= j < |s| ==> s[j].id != id
    ensures WithoutId(s, id) == s
  {
    if s != [] {
      WithoutAbsentId(s[1..], id);
      assert s == [s[0]] + s[1..];
    }
  }

  /** Newest first: `createdAt` never increases along the list. */
  predicate IsNewestFirst(s: seq<LocationBookmarkDto>)
  {
    forall i, j :: 0 <= i < j < |s| ==> s[i].createdAt >= s[j].createdAt
  }

  /** Insert into a newest-first list, before every entry that is not newer. */
  function InsertByDate(x: LocationBookmarkDto, s: seq<LocationBookmarkDto>): (r: seq<LocationBookmarkDto>)
    requires IsNewestFirst(s)
    ensures IsNewestFirst(r)
    ensures multiset(r) == multiset(s) + multiset{x}
    ensures r[0] == x || (s != [] && r[0] == s[0])
  {
    if s == [] || x.createdAt >= s[0].createdAt then [x] + s
    else
      var rest := InsertByDate(x, s[1..]);
      assert s == [s[0]] + s[1..];
      assert rest[0].createdAt <= s[0].createdAt;
      [s[0]] + rest
  }

  /**
   * The sorted copy `displayBookmarks` lists: `[...bookmarkedPlaces].sort((a, b) => b.createdAt
   * - a.createdAt)`, newest first, holding the same entries.
   */
  function NewestFirst(s: seq<LocationBookmarkDto>): (r: seq<LocationBookmarkDto>)
    ensures IsNewestFirst(r)
    ensures multiset(r) == multiset(s)
  {
    if s == [] then []
    else
      assert s == [s[0]] + s[1..];
      InsertByDate(s[0], NewestFirst(s[1..]))
  }

  /** `filter(v => v)` on form fields: the filled-in fields, in order. */
  function KeepFilled(fields: seq<string>): (r: seq<string>)
    ensures |r| <= |fields|
    ensures forall v :: v in r <==> v in fields && v != ""
  {
    if fields == [] then []
    else if fields[0] == "" then KeepFilled(fields[1..])
    else [fields[0]] + KeepFilled(fields[1..])
  }

  /** The filter works field by field: it distributes over concatenation, keeping order and repeats. */
  lemma {:induction false} KeepFilledAppend(s: seq<string>, t: seq<string>)
    ensures KeepFilled(s + t) == KeepFilled(s) + KeepFilled(t)
  {
    if s == [] {
      assert s + t == t;
    } else {
      assert (s + t)[1..] == s[1..] + t;
      KeepFilledAppend(s[1..], t);
    }
  }

  /** The filter of two fields: each one kept exactly when filled, the first before the second. */
  lemma KeepFilledPair(a: string, b: string)
    ensures KeepFilled([a, b]) == (if a != "" then [a] else []) + (if b != "" then [b] else [])
  {
    KeepFilledAppend([a], [b]);
    assert [a] + [b] == [a, b];
    assert [a][1..] == [] && [b][1..] == [];
  }

  /**
   * The input check of `calculateDistanceMatrix`: the filled origins and destinations, in
   * field order and repeats kept, or nothing (no request) when either list is empty.
   */
  function DistanceMatrixInput(origin1: string, origin2: string, dest1: string, dest2: string)
    : (r: Option<(seq<string>, seq<string>)>)
    ensures r.None? <==> (origin1 == "" && origin2 == "") || (dest1 == "" && dest2 == "")
    ensures r.Some? ==> r.value.0 == (if origin1 != "" then [origin1] else []) + (if origin2 != "" then [origin2] else [])
    ensures r.Some? ==> r.value.1 == (if dest1 != "" then [dest1] else []) + (if dest2 != "" then [dest2] else [])
  {
    var origins := KeepFilled([origin1, origin2]);
    var destinations := KeepFilled([dest1, dest2]);
    KeepFilledPair(origin1, origin2);
    KeepFilledPair(dest1, dest2);
    if |origins| == 0 || |destinations| == 0 then None else Some((origins, destinations))
  }

  /** The page's bookmark state. */
  class MapPage {
    var bookmarkedPlaces: seq<LocationBookmarkDto>
    var bookmarkMarkers: seq<Marker>
    /** Search-result markers. */
    var markers: seq<Marker>
    var tempBookmarkData: Option<PendingLocation>

    constructor ()
      ensures bookmarkedPlaces == [] && bookmarkMarkers == [] && markers == [] && tempBookmarkData == None
    {
      bookmarkedPlaces := [];
      bookmarkMarkers := [];
      markers := [];
      tempBookmarkData := None;
    }

    /** `clearMarkers`: every search marker is taken off the map and the list emptied. */
    method ClearMarkers()
      modifies this`markers
      ensures markers == []
    {
      markers := [];
    }

    /** `showBookmarkMarkers`: the old markers are dropped and one is made per bookmark. */
    method ShowBookmarkMarkers()
      modifies this`bookmarkMarkers
      ensures bookmarkMarkers == MarkersFor(bookmarkedPlaces)
    {
      bookmarkMarkers := [];
      var i := 0;
      while i < |bookmarkedPlaces|
        invariant 0 <= i <= |bookmarkedPlaces|
        invariant bookmarkMarkers == MarkersFor(bookmarkedPlaces[..i])
      {
        assert bookmarkedPlaces[..i + 1] == bookmarkedPlaces[..i] + [bookmarkedPlaces[i]];
        MarkersForAppend(bookmarkedPlaces[..i], bookmarkedPlaces[i]);
        bookmarkMarkers := bookmarkMarkers + [MarkerFor(bookmarkedPlaces[i])];
        i := i + 1;
      }
      assert bookmarkedPlaces[..i] == bookmarkedPlaces;
    }

    /** `displayBookmarks`: the listed order, newest first, over a copy; the cache keeps its order. */
    method DisplayBookmarks() returns (listed: seq<LocationBookmarkDto>)
      ensures IsNewestFirst(listed)
      ensures multiset(listed) == multiset(bookmarkedPlaces)
    {
      listed := NewestFirst(bookmarkedPlaces);
    }

    /** `openBookmarkModalAtLocation`: remember the location and clear the form. */
    method OpenBookmarkModalAtLocation(lat: real, lng: real) returns (form: Form)
      modifies this`tempBookmarkData
      ensures tempBookmarkData == Some(PendingLocation(lat, lng, None))
      ensures form == Form("", "")
    {
      tempBookmarkData := Some(PendingLocation(lat, lng, None));
      form := Form("", "");
    }

    /** `addBookmarkFromPlace`: remember the location and prefill the name. */
    method AddBookmarkFromPlace(lat: real, lng: real, placeName: string) returns (form: Form)
      modifies this`tempBookmarkData
      ensures tempBookmarkData == Some(PendingLocation(lat, lng, None))
      ensures form == Form(placeName, "")
    {
      tempBookmarkData := Some(PendingLocation(lat, lng, None));
      form := Form(placeName, "");
    }

    /** `closeBookmarkModal`: forget the pending location. */
    method CloseBookmarkModal()
      modifies this`tempBookmarkData
      ensures tempBookmarkData == None
    {
      tempBookmarkData := None;
    }

    /**
     * `saveBookmark`: nothing is sent without a non-blank name and a pending location; on
     * success the server's bookmark is appended, the markers rebuilt and the form closed.
     */
    method SaveBookmark(nameInput: string, notesInput: string, server: FetchResult<LocationBookmarkDto>)
      returns (sent: Option<ClientRequest>)
      modifies this`bookmarkedPlaces, this`bookmarkMarkers, this`tempBookmarkData
      ensures Trim(nameInput) == "" || old(tempBookmarkData).None? ==>
        sent == None && bookmarkedPlaces == old(bookmarkedPlaces) && bookmarkMarkers == old(bookmarkMarkers)
        && tempBookmarkData == old(tempBookmarkData)
      ensures Trim(nameInput) != "" && old(tempBookmarkData).Some? ==>
        sent == Some(ClientRequest(BookmarksApi.Post, BookmarksApi.Collection,
                                   Some(SaveBody(Trim(nameInput), Trim(notesInput), old(tempBookmarkData).value))))
      ensures sent.Some? && server.Ok? ==>
        bookmarkedPlaces == old(bookmarkedPlaces) + [server.body]
        && bookmarkMarkers == MarkersFor(bookmarkedPlaces) && tempBookmarkData == None
      ensures sent.Some? && !server.Ok? ==>
        bookmarkedPlaces == old(bookmarkedPlaces) && bookmarkMarkers == old(bookmarkMarkers)
        && tempBookmarkData == old(tempBookmarkData)
    {
      var name := Trim(nameInput);
      var notes := Trim(notesInput);
      if name == "" {
        return None;
      }
      if tempBookmarkData.None? {
        return None;
      }
      sent := Some(ClientRequest(BookmarksApi.Post, BookmarksApi.Collection,
                                 Some(SaveBody(name, notes, tempBookmarkData.value))));
      if server.Ok? {
        bookmarkedPlaces := bookmarkedPlaces + [server.body];
        ShowBookmarkMarkers();
        CloseBookmarkModal();
      }
    }

    /** `editBookmark`: for a cached id, remember its location and id and fill the form. */
    method EditBookmark(id: int) returns (form: Option<Form>)
      modifies this`tempBookmarkData
      ensures FindIndex(bookmarkedPlaces, id) == -1 ==> form == None && tempBookmarkData == old(tempBookmarkData)
      ensures FindIndex(bookmarkedPlaces, id) >= 0 ==>
        var b := bookmarkedPlaces[FindIndex(bookmarkedPlaces, id)];
        && tempBookmarkData == Some(PendingLocation(b.lat, b.lng, Some(b.id)))
        && form == Some(Form(b.name, OrElse(b.notes, "")))
    {
      var k := FindIndex(bookmarkedPlaces, id);
      if k == -1 {
        return None;
      }
      var b := bookmarkedPlaces[k];
      tempBookmarkData := Some(PendingLocation(b.lat, b.lng, Some(b.id)));
      form := Some(Form(b.name, OrElse(b.notes, "")));
    }

    /**
     * `updateBookmark`: nothing is sent without a non-blank name; on success the first cached
     * entry with that id, and only it, becomes the server's answer (none: the cache is kept).
     */
    method UpdateBookmark(id: int, nameInput: string, notesInput: string, server: FetchResult<LocationBookmarkDto>)
      returns (sent: Option<ClientRequest>)
      modifies this`bookmarkedPlaces, this`bookmarkMarkers, this`tempBookmarkData
      ensures Trim(nameInput) == "" ==>
        sent == None && bookmarkedPlaces == old(bookmarkedPlaces) && bookmarkMarkers == old(bookmarkMarkers)
        && tempBookmarkData == old(tempBookmarkData)
      ensures Trim(nameInput) != "" ==>
        sent == Some(ClientRequest(BookmarksApi.Put, BookmarksApi.Item(id), Some(UpdateBody(Trim(nameInput), Trim(notesInput)))))
      ensures sent.Some? && server.Ok? ==>
        var k := FindIndex(old(bookmarkedPlaces), id);
        && |bookmarkedPlaces| == |old(bookmarkedPlaces)|
        && (k == -1 ==> bookmarkedPlaces == old(bookmarkedPlaces))
        && (k >= 0 ==> bookmarkedPlaces == old(bookmarkedPlaces)[k := server.body])
        && bookmarkMarkers == MarkersFor(bookmarkedPlaces) && tempBookmarkData == None
      ensures sent.Some? && !server.Ok? ==>
        bookmarkedPlaces == old(bookmarkedPlaces) && bookmarkMarkers == old(bookmarkMarkers)
        && tempBookmarkData == old(tempBookmarkData)
    {
      var name := Trim(nameInput);
      var notes := Trim(notesInput);
      if name == "" {
        return None;
      }
      sent := Some(ClientRequest(BookmarksApi.Put, BookmarksApi.Item(id), Some(UpdateBody(name, notes))));
      if server.Ok? {
        var k := FindIndex(bookmarkedPlaces, id);
        if k != -1 {
          bookmarkedPlaces := bookmarkedPlaces[k := server.body];
        }
        ShowBookmarkMarkers();
        CloseBookmarkModal();
      }
    }

    /**
     * `deleteBookmark`: nothing is sent for an id that is not cached or when the user does not
     * confirm; on success every entry with that id leaves the cache.
     */
    method DeleteBookmark(id: int, confirmed: bool, server: FetchResult<()>) returns (sent: Option<ClientRequest>)
      modifies this`bookmarkedPlaces, this`bookmarkMarkers
      ensures FindIndex(old(bookmarkedPlaces), id) == -1 || !confirmed ==>
        sent == None && bookmarkedPlaces == old(bookmarkedPlaces) && bookmarkMarkers == old(bookmarkMarkers)
      ensures FindIndex(old(bookmarkedPlaces), id) >= 0 && confirmed ==>
        sent == Some(ClientRequest(BookmarksApi.Delete, BookmarksApi.Item(id), None))
      ensures sent.Some? && server.Ok? ==>
        bookmarkedPlaces == WithoutId(old(bookmarkedPlaces), id) && bookmarkMarkers == MarkersFor(bookmarkedPlaces)
      ensures sent.Some? && !server.Ok? ==>
        bookmarkedPlaces == old(bookmarkedPlaces) && bookmarkMarkers == old(bookmarkMarkers)
    {
      if FindIndex(bookmarkedPlaces, id) == -1 {
        return None;
      }
      if !confirmed {
        return None;
      }
      sent := Some(ClientRequest(BookmarksApi.Delete, BookmarksApi.Item(id), None));
      if server.Ok? {
        bookmarkedPlaces := WithoutId(bookmarkedPlaces, id);
        ShowBookmarkMarkers();
      }
    }

    /**
     * `clearAllBookmarks`: nothing is sent for an empty cache or without confirmation; on
     * success the cache and the bookmark markers are emptied.
     */
    method ClearAllBookmarks(confirmed: bool, server: FetchResult<()>) returns (sent: Option<ClientRequest>)
      modifies this`bookmarkedPlaces, this`bookmarkMarkers
      ensures old(bookmarkedPlaces) == [] || !confirmed ==>
        sent == None && bookmarkedPlaces == old(bookmarkedPlaces) && bookmarkMarkers == old(bookmarkMarkers)
      ensures old(bookmarkedPlaces) != [] && confirmed ==>
        sent == Some(ClientRequest(BookmarksApi.Delete, BookmarksApi.Collection, None))
      ensures sent.Some? && server.Ok? ==> bookmarkedPlaces == [] && bookmarkMarkers == []
      ensures sent.Some? && !server.Ok? ==>
        bookmarkedPlaces == old(bookmarkedPlaces) && bookmarkMarkers == old(bookmarkMarkers)
    {
      if |bookmarkedPlaces| == 0 {
        return None;
      }
      if !confirmed {
        return None;
      }
      sent := Some(ClientRequest(BookmarksApi.Delete, BookmarksApi.Collection, None));
      if server.Ok? {
        bookmarkedPlaces := [];
        ShowBookmarkMarkers();
      }
    }
  }

  lemma MarkersForAppend(s: seq<LocationBookmarkDto>, b: LocationBookmarkDto)
    ensures MarkersFor(s + [b]) == MarkersFor(s) + [MarkerFor(b)]
  {
  }
}
