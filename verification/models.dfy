/**
 * The bookmark row of the `location_bookmarks` table, its public DTO shape and the
 * request body that create and update bind from JSON.
 *
 * Coordinates (C# `double`) are modelled as `real`: they are only copied, never computed.
 * Timestamps (C# `DateTime`, JavaScript `Date`) are modelled as integers.
 */
module Models {
  import opened Common

  type DateTime = int

  /** `default(DateTime)`, the value an object initializer leaves in an unset `DateTime`. */
  const DefaultDateTime: DateTime := 0

  /** A row of `location_bookmarks`; `id` is the primary key, assigned by the store. */
  datatype LocationBookmark = LocationBookmark(
    id: int,
    userId: string,
    name: string,
    notes: Option<string>,
    lat: real,
    lng: real,
    createdAt: DateTime,
    updatedAt: Option<DateTime>)

  /** The JSON shape every bookmark endpoint returns (and the client caches). */
  datatype LocationBookmarkDto = LocationBookmarkDto(
    id: int,
    userId: string,
    name: string,
    notes: Option<string>,
    lat: real,
    lng: real,
    createdAt: DateTime,
    updatedAt: Option<DateTime>)

  /** A bound create or update request: `Name` is required, `Lat`/`Lng` default to 0. */
  datatype BookmarkRequest = BookmarkRequest(name: string, notes: Option<string>, lat: real, lng: real)

  /** A JSON number field of the body: left out, written as `null`, or a number. */
  datatype JsonNumber = Absent | Null | Number(value: real)

  /**
   * A JSON request body as sent. `name` and `notes` are present (`Some`) or absent/null
   * (`None`); a coordinate is absent, null or a number.
   */
  datatype RequestBody = RequestBody(
    name: Option<string>,
    notes: Option<string>,
    lat: JsonNumber,
    lng: JsonNumber)

  /** `char.IsWhiteSpace` of .NET: the Unicode separators and the controls U+0009–U+000D and U+0085. */
  predicate IsDotNetWhitespace(c: char)
  {
    ('\U{0009}' <= c <= '\U{000D}') || c == ' ' || c == '\U{0085}' || c == '\U{00A0}' || c == '\U{1680}'
    || ('\U{2000}' <= c <= '\U{200A}') || c == '\U{2028}' || c == '\U{2029}' || c == '\U{202F}'
    || c == '\U{205F}' || c == '\U{3000}'
  }

  /** `string.IsNullOrWhiteSpace` on a present string: empty or white space only. */
  predicate IsBlank(s: string)
  {
    forall i :: 0 <= i < |s| ==> IsDotNetWhitespace(s[i])
  }

  /** The inverse of `ToDto`: reading a DTO back as the row it was copied from. */
  function RowOf(d: LocationBookmarkDto): LocationBookmark
  {
    LocationBookmark(d.id, d.userId, d.name, d.notes, d.lat, d.lng, d.createdAt, d.updatedAt)
  }

  /** The field-for-field copy each handler makes of a stored row. It loses nothing. */
  function ToDto(b: LocationBookmark): (d: LocationBookmarkDto)
    ensures RowOf(d) == b
  {
    LocationBookmarkDto(b.id, b.userId, b.name, b.notes, b.lat, b.lng, b.createdAt, b.updatedAt)
  }

  /** Two rows give the same DTO only if they are the same row. */
  lemma ToDtoInjective(a: LocationBookmark, b: LocationBookmark)
    requires ToDto(a) == ToDto(b)
    ensures a == b
  {
    calc {
      a;
      RowOf(ToDto(a));
      RowOf(ToDto(b));
      b;
    }
  }

  /** The projection of a query result, `Models.Select(b => new LocationBookmarkDto { … })`. */
  function ToDtos(rows: seq<LocationBookmark>): (ds: seq<LocationBookmarkDto>)
    ensures |ds| == |rows|
    ensures forall i :: 0 <= i < |rows| ==> RowOf(ds[i]) == rows[i]
  {
    if rows == [] then [] else [ToDto(rows[0])] + ToDtos(rows[1..])
  }

  /**
   * Model binding of a create/update body. The non-nullable `Name` is implicitly
   * `[Required]`, which fails on a missing, null, empty or white-space-only name; a JSON
   * `null` cannot be read into the `double` coordinates. Either makes the model state invalid
   * (`None`). Absent `notes` bind to null; absent `lat`/`lng` keep their default 0.
   */
  function BindRequest(body: RequestBody): (r: Option<BookmarkRequest>)
    ensures r.Some? <==> body.name.Some? && !IsBlank(body.name.value) && !body.lat.Null? && !body.lng.Null?
    ensures r.Some? ==> r.value.name == body.name.value && r.value.notes == body.notes
    ensures r.Some? ==> (body.lat.Number? ==> r.value.lat == body.lat.value) && (body.lat.Absent? ==> r.value.lat == 0.0)
    ensures r.Some? ==> (body.lng.Number? ==> r.value.lng == body.lng.value) && (body.lng.Absent? ==> r.value.lng == 0.0)
  {
    if body.name.None? || IsBlank(body.name.value) || body.lat.Null? || body.lng.Null? then None
    else
      var lat := if body.lat.Number? then body.lat.value else 0.0;
      var lng := if body.lng.Number? then body.lng.value else 0.0;
      Some(BookmarkRequest(body.name.value, body.notes, lat, lng))
  }

  /** The complete JSON body of a request, every field present. */
  function BodyOf(req: BookmarkRequest): RequestBody
  {
    RequestBody(Some(req.name), req.notes, Number(req.lat), Number(req.lng))
  }

  /** A complete body binds back to exactly the request it was written from, when its name is not blank. */
  lemma BindCompleteBody(req: BookmarkRequest)
    requires !IsBlank(req.name)
    ensures BindRequest(BodyOf(req)) == Some(req)
  {
  }
}
