/**
 * `BookmarksController`: the owner-scoped bookmark API over the `location_bookmarks` table.
 *
 * The table lives in an external store. It is modelled as a map from primary key to row, held
 * in a field of the controller object, together with the store's identity counter. The store's
 * behaviour is stated by the functions `FindOwned`, `Inserted`, `StoreUpdate` and `DeleteWhere`:
 *  - a query filters rows by the given predicates; `Single()` yields the one match or null;
 *  - an insert assigns the next id and the creation time, keeping the other columns given;
 *  - an update is keyed by the model's primary key alone and writes every column except the
 *    store-owned `id` and `created_at`; it yields the written row, or nothing when no row has
 *    that key;
 *  - a filtered delete removes the matching rows.
 * Whether a store call throws is a parameter of each handler; a call that throws changes nothing.
 */
module BookmarksApi {
  import opened Common
  import opened Models

  const FetchAllFailed := "Failed to fetch bookmarks"
  const FetchOneFailed := "Failed to fetch bookmark"
  const CreateFailed := "Failed to save bookmark. Please try again."
  const CreateReturnedNothing := "Failed to create bookmark"
  const UpdateFailed := "Failed to update bookmark"
  const DeleteFailed := "Failed to delete bookmark"
  const NotFoundMessage := "Bookmark not found"

  /** What a handler answers. Error variants carry the `{ error = … }` message. */
  datatype Response =
    | OkList(dtos: seq<LocationBookmarkDto>)
    | OkOne(dto: LocationBookmarkDto)
    | NoContent
    | BadRequest
    | Unauthorized
    | NotFound(error: string)
    | ServerError(error: string)
    | MethodNotAllowed

  function StatusCode(r: Response): int
  {
    match r
    case OkList(_) => 200
    case OkOne(_) => 200
    case NoContent => 204
    case BadRequest => 400
    case Unauthorized => 401
    case NotFound(_) => 404
    case MethodNotAllowed => 405
    case ServerError(_) => 500
  }

  /** `response.ok` in the browser: a 2xx status. */
  predicate IsSuccess(r: Response)
  {
    200 <= StatusCode(r) < 300
  }

  // ----- routing (`[Route("api/[controller]")]` and the verb attributes) -----

  datatype HttpMethod = Get | Post | Put | Delete
  /** `/api/bookmarks` or `/api/bookmarks/{id}`. */
  datatype Endpoint = Collection | Item(id: int)
  datatype Handler = ListHandler | GetHandler | CreateHandler | UpdateHandler | DeleteHandler

  /** The action a request reaches; `None` is answered 405 because the path exists for other verbs. */
  function Route(m: HttpMethod, e: Endpoint): (h: Option<Handler>)
    ensures h.Some? && h.value == DeleteHandler ==> e.Item?
    ensures h.None? <==> (e.Collection? && (m == Put || m == Delete)) || (e.Item? && m == Post)
  {
    match (m, e)
    case (Get, Collection) => Some(ListHandler)
    case (Post, Collection) => Some(CreateHandler)
    case (Get, Item(_)) => Some(GetHandler)
    case (Put, Item(_)) => Some(UpdateHandler)
    case (Delete, Item(_)) => Some(DeleteHandler)
    case _ => None
  }

  /**
   * The answer the framework gives before any action runs: a request that no action takes is
   * answered 405, and one that reaches an action is answered by that action (`None` here).
   */
  function Unrouted(m: HttpMethod, e: Endpoint): (r: Option<Response>)
    ensures r.Some? <==> (e.Collection? && (m == Put || m == Delete)) || (e.Item? && m == Post)
    ensures r.Some? ==> StatusCode(r.value) == 405 && !IsSuccess(r.value)
  {
    if Route(m, e).None? then Some(MethodNotAllowed) else None
  }

  // ----- the store, as functions of the table -----

  /** Every row is stored under its own primary key. */
  ghost predicate WellKeyed(table: map<int, LocationBookmark>)
  {
    forall k :: k in table ==> table[k].id == k
  }

  /** `Where(b => b.Id == id).Where(b => b.UserId == userId).Single()`. */
  function FindOwned(table: map<int, LocationBookmark>, id: int, userId: string): (r: Option<LocationBookmark>)
    ensures r.Some? <==> id in table && table[id].userId == userId
    ensures r.Some? ==> r.value == table[id]
  {
    if id in table && table[id].userId == userId then Some(table[id]) else None
  }

  /** The object `CreateBookmark` hands to `Insert`: id and creation time are left unset. */
  function CreateModel(userId: string, req: BookmarkRequest): LocationBookmark
  {
    LocationBookmark(0, userId, req.name, req.notes, req.lat, req.lng, DefaultDateTime, None)
  }

  /** The object `UpdateBookmark` hands to `Update`: keyed by the path id, stamped with `now`. */
  function UpdateModel(id: int, userId: string, req: BookmarkRequest, now: DateTime): LocationBookmark
  {
    LocationBookmark(id, userId, req.name, req.notes, req.lat, req.lng, DefaultDateTime, Some(now))
  }

  /** The row the store writes on insert: the next identity value and the current time. */
  function Inserted(model: LocationBookmark, id: int, now: DateTime): (row: LocationBookmark)
    ensures row.id == id && row.createdAt == now
    ensures row.(id := model.id, createdAt := model.createdAt) == model
  {
    model.(id := id, createdAt := now)
  }

  /**
   * `Update(model)`: the row with the model's primary key, whoever owns it, takes every
   * column of the model except `created_at`; no such row means no row back.
   */
  function StoreUpdate(table: map<int, LocationBookmark>, model: LocationBookmark): (r: (map<int, LocationBookmark>, Option<LocationBookmark>))
    ensures r.1.Some? <==> model.id in table
    ensures r.1.Some? ==> r.1.value == model.(createdAt := table[model.id].createdAt) && r.0 == table[model.id := r.1.value]
    ensures r.1.None? ==> r.0 == table
  {
    if model.id in table then
      var row := model.(createdAt := table[model.id].createdAt);
      (table[model.id := row], Some(row))
    else (table, None)
  }

  /** `Where(b => b.Id == id).Where(b => b.UserId == userId).Delete()`. */
  function DeleteWhere(table: map<int, LocationBookmark>, id: int, userId: string): (t: map<int, LocationBookmark>)
    ensures id in table && table[id].userId == userId ==> t.Keys == table.Keys - {id}
    ensures !(id in table && table[id].userId == userId) ==> t == table
    ensures forall k :: k in t ==> k in table && t[k] == table[k]
  {
    if id in table && table[id].userId == userId then table - {id} else table
  }

  /** A delete that found its row leaves nothing for a second one to find. */
  lemma DeleteIdempotent(table: map<int, LocationBookmark>, id: int, userId: string)
    ensures DeleteWhere(DeleteWhere(table, id, userId), id, userId) == DeleteWhere(table, id, userId)
  {
  }

  /** Another user's row survives a delete, whatever id is given. */
  lemma DeleteSparesOtherOwners(table: map<int, LocationBookmark>, id: int, userId: string, k: int)
    requires k in table && table[k].userId != userId
    ensures k in DeleteWhere(table, id, userId) && DeleteWhere(table, id, userId)[k] == table[k]
  {
  }

  /** A row inserted for a user is found again by that user under its new id, and by no one else. */
  lemma CreatedRowIsFetchable(table: map<int, LocationBookmark>, nextId: int, userId: string, other: string,
                              req: BookmarkRequest, now: DateTime)
    requires other != userId
    ensures var row := Inserted(CreateModel(userId, req), nextId, now);
            var t := table[nextId := row];
            && FindOwned(t, nextId, userId) == Some(row)
            && FindOwned(t, nextId, other) == None
            && row.name == req.name && row.notes == req.notes && row.lat == req.lat && row.lng == req.lng
            && row.updatedAt == None
  {
  }

  /**
   * `UpdateBookmark` carries no owner predicate: given a row of another user, the store update
   * rewrites it and hands it to the caller.
   */
  lemma UpdateTakesOverForeignRow(table: map<int, LocationBookmark>, id: int, caller: string,
                                  req: BookmarkRequest, now: DateTime)
    requires id in table && table[id].userId != caller
    ensures var r := StoreUpdate(table, UpdateModel(id, caller, req, now));
            && r.1.Some?
            && r.0[id].userId == caller
            && FindOwned(r.0, id, caller).Some?
            && FindOwned(r.0, id, table[id].userId).None?
  {
  }

  /** Repeating an update with the same request and time changes nothing more. */
  lemma UpdateIdempotent(table: map<int, LocationBookmark>, model: LocationBookmark)
    ensures var once := StoreUpdate(table, model);
            StoreUpdate(once.0, model) == once
  {
    if model.id in table {
      var row := model.(createdAt := table[model.id].createdAt);
      assert table[model.id := row][model.id := row] == table[model.id := row];
    }
  }

  // ----- the controller -----

  class BookmarksController {
    /** The `location_bookmarks` table, by primary key. */
    var table: map<int, LocationBookmark>
    /** The next value of the table's identity column. */
    var nextId: int

    ghost predicate Valid()
      reads this
    {
      WellKeyed(table) && forall k :: k in table ==> k < nextId
    }

    constructor ()
      ensures Valid() && table == map[]
    {
      table := map[];
      nextId := 1;
    }

    /**
     * `Where(b => b.UserId == userId).Get()`: the rows owned by `userId`, each once, in the
     * store's (unspecified) order.
     */
    method SelectOwnedBy(userId: string) returns (rows: seq<LocationBookmark>)
      requires Valid()
      ensures forall i :: 0 <= i < |rows| ==> rows[i].id in table && table[rows[i].id] == rows[i] && rows[i].userId == userId
      ensures forall k :: k in table && table[k].userId == userId ==> exists i :: 0 <= i < |rows| && rows[i].id == k
      ensures forall i, j :: 0 <= i < j < |rows| ==> rows[i].id != rows[j].id
    {
      rows := [];
      var rest := table.Keys;
      while rest != {}
        invariant rest <= table.Keys
        invariant forall i :: 0 <= i < |rows| ==> rows[i].id in table && table[rows[i].id] == rows[i] && rows[i].userId == userId
        invariant forall i :: 0 <= i < |rows| ==> rows[i].id !in rest
        invariant forall k :: k in table && k !in rest && table[k].userId == userId ==> exists i :: 0 <= i < |rows| && rows[i].id == k
        invariant forall i, j :: 0 <= i < j < |rows| ==> rows[i].id != rows[j].id
        decreases rest
      {
        NonEmptyHasElement(rest);
        var k :| k in rest;
        ghost var before := rows;
        if table[k].userId == userId {
          rows := rows + [table[k]];
          assert rows[|rows| - 1].id == k;
        }
        assert forall i :: 0 <= i < |before| ==> rows[i] == before[i];
        rest := rest - {k};
      }
    }

    /** GET api/bookmarks: every row the caller owns, and only those, as DTOs. */
    method GetBookmarks(userId: Option<string>, storeThrows: bool) returns (resp: Response)
      requires Valid()
      ensures IsNullOrEmpty(userId) ==> resp == Unauthorized
      ensures !IsNullOrEmpty(userId) && storeThrows ==> resp == ServerError(FetchAllFailed)
      ensures !IsNullOrEmpty(userId) && !storeThrows ==> resp.OkList?
      ensures resp.OkList? ==>
        && (forall i :: 0 <= i < |resp.dtos| ==> resp.dtos[i].id in table && ToDto(table[resp.dtos[i].id]) == resp.dtos[i]
                                                 && resp.dtos[i].userId == userId.value)
        && (forall k :: k in table && table[k].userId == userId.value ==> exists i :: 0 <= i < |resp.dtos| && resp.dtos[i].id == k)
        && (forall i, j :: 0 <= i < j < |resp.dtos| ==> resp.dtos[i].id != resp.dtos[j].id)
    {
      if IsNullOrEmpty(userId) {
        return Unauthorized;
      }
      if storeThrows {
        return ServerError(FetchAllFailed);
      }
      var rows := SelectOwnedBy(userId.value);
      var dtos := ToDtos(rows);
      forall i | 0 <= i < |dtos|
        ensures dtos[i] == ToDto(rows[i])
      {
        assert RowOf(dtos[i]) == rows[i];
      }
      resp := OkList(dtos);
    }

    /** GET api/bookmarks/{id}: the row only when it has that id AND belongs to the caller. */
    method GetBookmark(userId: Option<string>, id: int, storeThrows: bool) returns (resp: Response)
      ensures IsNullOrEmpty(userId) ==> resp == Unauthorized
      ensures !IsNullOrEmpty(userId) && storeThrows ==> resp == ServerError(FetchOneFailed)
      ensures !IsNullOrEmpty(userId) && !storeThrows ==>
        if id in table && table[id].userId == userId.value then resp == OkOne(ToDto(table[id]))
        else resp == NotFound(NotFoundMessage)
    {
      if IsNullOrEmpty(userId) {
        return Unauthorized;
      }
      if storeThrows {
        return ServerError(FetchOneFailed);
      }
      var found := FindOwned(table, id, userId.value);
      if found.None? {
        return NotFound(NotFoundMessage);
      }
      resp := OkOne(ToDto(found.value));
    }

    /**
     * POST api/bookmarks. An invalid body is answered 400 before the caller is looked at;
     * the inserted row belongs to the caller and copies the request.
     */
    method CreateBookmark(body: RequestBody, userId: Option<string>, storeThrows: bool, insertReturnsRow: bool,
                          now: DateTime) returns (resp: Response)
      requires Valid()
      modifies this
      ensures Valid()
      ensures BindRequest(body).None? ==> resp == BadRequest
      ensures BindRequest(body).Some? && IsNullOrEmpty(userId) ==> resp == Unauthorized
      ensures BindRequest(body).Some? && !IsNullOrEmpty(userId) && storeThrows ==> resp == ServerError(CreateFailed)
      ensures BindRequest(body).Some? && !IsNullOrEmpty(userId) && !storeThrows && !insertReturnsRow ==>
        resp == ServerError(CreateReturnedNothing)
      ensures resp.OkOne? <==> BindRequest(body).Some? && !IsNullOrEmpty(userId) && !storeThrows && insertReturnsRow
      ensures resp.OkOne? ==>
        var row := Inserted(CreateModel(userId.value, BindRequest(body).value), old(nextId), now);
        && old(nextId) !in old(table)
        && table == old(table)[old(nextId) := row]
        && nextId == old(nextId) + 1
        && resp.dto == ToDto(row)
      ensures !resp.OkOne? ==> table == old(table) && nextId == old(nextId)
    {
      var bound := BindRequest(body);
      if bound.None? {
        return BadRequest;
      }
      if IsNullOrEmpty(userId) {
        return Unauthorized;
      }
      if storeThrows {
        return ServerError(CreateFailed);
      }
      if !insertReturnsRow {
        return ServerError(CreateReturnedNothing);
      }
      var model := CreateModel(userId.value, bound.value);
      var row := Inserted(model, nextId, now);
      table := table[nextId := row];
      nextId := nextId + 1;
      resp := OkOne(ToDto(row));
    }

    /**
     * PUT api/bookmarks/{id}. An invalid body is answered 400 before the caller is looked at.
     * The store update is keyed by `id` only; a missing row is answered 404.
     */
    method UpdateBookmark(id: int, body: RequestBody, userId: Option<string>, storeThrows: bool, now: DateTime)
      returns (resp: Response)
      requires Valid()
      modifies this
      ensures Valid() && nextId == old(nextId)
      ensures BindRequest(body).None? ==> resp == BadRequest
      ensures BindRequest(body).Some? && IsNullOrEmpty(userId) ==> resp == Unauthorized
      ensures BindRequest(body).Some? && !IsNullOrEmpty(userId) && storeThrows ==> resp == ServerError(UpdateFailed)
      ensures BindRequest(body).Some? && !IsNullOrEmpty(userId) && !storeThrows ==>
        var req := BindRequest(body).value;
        if id in old(table) then
          var row := LocationBookmark(id, userId.value, req.name, req.notes, req.lat, req.lng,
                                      old(table)[id].createdAt, Some(now));
          table == old(table)[id := row] && resp == OkOne(ToDto(row))
        else
          table == old(table) && resp == NotFound(NotFoundMessage)
      ensures !resp.OkOne? ==> table == old(table)
    {
      var bound := BindRequest(body);
      if bound.None? {
        return BadRequest;
      }
      if IsNullOrEmpty(userId) {
        return Unauthorized;
      }
      if storeThrows {
        return ServerError(UpdateFailed);
      }
      var model := UpdateModel(id, userId.value, bound.value, now);
      var result := StoreUpdate(table, model);
      table := result.0;
      if result.1.None? {
        return NotFound(NotFoundMessage);
      }
      resp := OkOne(ToDto(result.1.value));
    }

    /**
     * DELETE api/bookmarks/{id}: removes the row only when it has that id AND belongs to the
     * caller, and answers 204 whether or not one did.
     */
    method DeleteBookmark(userId: Option<string>, id: int, storeThrows: bool) returns (resp: Response)
      requires Valid()
      modifies this
      ensures Valid() && nextId == old(nextId)
      ensures IsNullOrEmpty(userId) ==> resp == Unauthorized && table == old(table)
      ensures !IsNullOrEmpty(userId) && storeThrows ==> resp == ServerError(DeleteFailed) && table == old(table)
      ensures !IsNullOrEmpty(userId) && !storeThrows ==>
        resp == NoContent && table == DeleteWhere(old(table), id, userId.value)
    {
      if IsNullOrEmpty(userId) {
        return Unauthorized;
      }
      if storeThrows {
        return ServerError(DeleteFailed);
      }
      table := DeleteWhere(table, id, userId.value);
      resp := NoContent;
    }
  }
}
