/**
 * The browser script against the bookmark controller: what the server makes of the requests
 * `saveBookmark`, `updateBookmark`, `deleteBookmark` and `clearAllBookmarks` send.
 */
module ClientServer {
  import opened Common
  import opened Models
  import opened JsText
  import opened BookmarksApi
  import MapClient

  /**
   * A save request the form sends is bound by the server exactly as the client meant it, unless
   * the trimmed name is white space to .NET though not to JavaScript: then it is refused with 400.
   */
  lemma SaveBodyBindsExactly(nameInput: string, notesInput: string, at: MapClient.PendingLocation)
    requires Trim(nameInput) != ""
    ensures BindRequest(MapClient.SaveBody(Trim(nameInput), Trim(notesInput), at))
      == if IsBlank(Trim(nameInput)) then None
         else Some(BookmarkRequest(Trim(nameInput), MapClient.NotesOrNull(Trim(notesInput)), at.lat, at.lng))
  {
  }

  /**
   * The two trims disagree only on U+0085 (white space to .NET, not to JavaScript) and U+FEFF
   * (the reverse): a name the form accepts is accepted by the server unless it holds U+0085.
   */
  lemma FormNameIsNotBlank(nameInput: string)
    requires Trim(nameInput) != ""
    requires forall i :: 0 <= i < |nameInput| ==> nameInput[i] != '\U{0085}'
    ensures !IsBlank(Trim(nameInput))
  {
    var r := Trim(nameInput);
    var a :| StripsTo(nameInput, a, r);
    assert r[0] == nameInput[a];
    assert !IsDotNetWhitespace(r[0]);
  }

  /**
   * The only names the form sends and the server refuses: the trim is all .NET white space
   * but not JavaScript white space at its ends, so it starts and ends with U+0085.
   */
  lemma BlankTrimIsNextLine(nameInput: string)
    requires Trim(nameInput) != "" && IsBlank(Trim(nameInput))
    ensures Trim(nameInput)[0] == '\U{0085}'
    ensures Trim(nameInput)[|Trim(nameInput)| - 1] == '\U{0085}'
  {
    var r := Trim(nameInput);
    assert IsDotNetWhitespace(r[0]) && !IsJsWhitespace(r[0]);
    assert IsDotNetWhitespace(r[|r| - 1]) && !IsJsWhitespace(r[|r| - 1]);
  }

  /** A name of a single U+0085 passes the form's check, and the server refuses it with 400. */
  lemma NextLineNameIsRefused(at: MapClient.PendingLocation)
    ensures Trim("\U{0085}") == "\U{0085}"
    ensures BindRequest(MapClient.SaveBody("\U{0085}", "", at)).None?
  {
    TrimOfTrimmed("\U{0085}");
  }

  /**
   * The update body has no coordinates, so the server binds `Lat` and `Lng` to 0 and writes
   * them into the row: an edited bookmark that still exists moves to (0, 0), wherever it was.
   */
  lemma UpdateMovesRowToOrigin(table: map<int, LocationBookmark>, id: int, caller: string,
                               nameInput: string, notesInput: string, now: DateTime)
    requires Trim(nameInput) != "" && id in table
    ensures var bound := BindRequest(MapClient.UpdateBody(Trim(nameInput), Trim(notesInput)));
      && (bound.Some? <==> !IsBlank(Trim(nameInput)))
      && (bound.Some? ==>
            && bound.value.lat == 0.0 && bound.value.lng == 0.0
            && var r := StoreUpdate(table, UpdateModel(id, caller, bound.value, now));
               r.1.Some? && r.1.value.lat == 0.0 && r.1.value.lng == 0.0
               && r.0[id].lat == 0.0 && r.0[id].lng == 0.0)
  {
  }

  /** Blank notes never reach the store as an empty string: they are sent, and bound, as null. */
  lemma BlankNotesTravelAsNull(nameInput: string, notesInput: string, at: MapClient.PendingLocation)
    requires Trim(nameInput) != "" && !IsBlank(Trim(nameInput))
    ensures var bound := BindRequest(MapClient.SaveBody(Trim(nameInput), Trim(notesInput), at));
      bound.Some? && (bound.value.notes.None? <==> forall i :: 0 <= i < |notesInput| ==> IsJsWhitespace(notesInput[i]))
  {
  }

  /** Save, update and single delete reach the handlers they are meant for. */
  lemma ClientRequestsRoute(id: int)
    ensures Route(Post, Collection) == Some(CreateHandler)
    ensures Route(Put, Item(id)) == Some(UpdateHandler)
    ensures Route(Delete, Item(id)) == Some(DeleteHandler)
  {
  }

  /**
   * `clearAllBookmarks` sends DELETE to the collection, which has no action: the answer is
   * 405, not `response.ok`, so the cache is never cleared through it.
   */
  lemma ClearAllIsRefused()
    ensures Route(Delete, Collection) == None
    ensures Unrouted(Delete, Collection) == Some(MethodNotAllowed)
    ensures StatusCode(MethodNotAllowed) == 405 && !IsSuccess(MethodNotAllowed)
  {
  }

  /** The `fetch` result the page sees for a server answer: `response.ok` iff the status is 2xx. */
  function FetchOf(answer: Response): (f: MapClient.FetchResult<()>)
    ensures f.Ok? <==> 200 <= StatusCode(answer) < 300
    ensures !f.Failed?
  {
    if IsSuccess(answer) then MapClient.Ok(()) else MapClient.NotOk
  }

  /**
   * `clearAllBookmarks` run against this server: the request it sends is answered before any
   * action, and that answer leaves the cache and the markers as they were, whatever the user
   * confirms.
   */
  method ClearAllAgainstServer(page: MapClient.MapPage, confirmed: bool) returns (sent: Option<MapClient.ClientRequest>)
    modifies page`bookmarkedPlaces, page`bookmarkMarkers
    ensures sent.Some? ==> Unrouted(sent.value.verb, sent.value.endpoint) == Some(MethodNotAllowed)
    ensures page.bookmarkedPlaces == old(page.bookmarkedPlaces)
    ensures page.bookmarkMarkers == old(page.bookmarkMarkers)
  {
    var answer := Unrouted(Delete, Collection);
    // Were an action reached, its answer is taken as ok, the case in which the cache would clear.
    var server := if answer.Some? then FetchOf(answer.value) else MapClient.Ok(());
    sent := page.ClearAllBookmarks(confirmed, server);
  }
}
