/**
 * The artwork endpoints of the API: which status each handler answers with,
 * what it hands to the store, and what it changes there.
 *
 * The signed-in user is the `user` parameter (the session's subject claim);
 * the database outcome, the mode and the clock are passed on to the store
 * unchanged, so one request sees one database outcome.
 */
module Routes {
  import opened JsValues
  import opened JsText
  import Schema
  import opened Storage

  /** What a handler sends: a `{ message }` object, a validation failure with
      its issues, one record (possibly `undefined`), a list, or nothing. */
  datatype Payload =
    | Message(text: string)
    | InvalidData(errors: seq<Schema.Issue>)
    | One(record: Option<Obj>)
    | Many(records: seq<Obj>)
    | NoContent

  datatype Response = Response(status: int, payload: Payload)

  /** The filters the list endpoint builds from its query string. */
  datatype Filters = Filters(style: JsValue, artistId: JsValue, minPrice: JsValue, maxPrice: JsValue, featured: JsValue)

  /** A query-string parameter: its text, or `undefined` when absent. */
  function Param(query: map<string, string>, name: string): JsValue {
    if name in query then Str(query[name]) else Undefined
  }

  /** The filter object of `GET /api/artworks`. */
  function NormaliseFilters(query: map<string, string>): (f: Filters)
    ensures f.featured == Bool(true) <==> "featured" in query && query["featured"] == "true"
    ensures f.featured == Undefined <==> !("featured" in query && query["featured"] == "true")
    ensures (f.minPrice == Undefined <==> "minPrice" !in query || query["minPrice"] == "")
    ensures (f.maxPrice == Undefined <==> "maxPrice" !in query || query["maxPrice"] == "")
    ensures f.minPrice.Num? || f.minPrice.NaN? || f.minPrice.Undefined?
    ensures f.maxPrice.Num? || f.maxPrice.NaN? || f.maxPrice.Undefined?
  {
    var minPrice := Param(query, "minPrice");
    var maxPrice := Param(query, "maxPrice");
    Filters(
      Param(query, "style"),
      Param(query, "artist"),
      if Truthy(minPrice) then ParseFloat(minPrice.s) else Undefined,
      if Truthy(maxPrice) then ParseFloat(maxPrice.s) else Undefined,
      if StrictEquals(Param(query, "featured"), Str("true")) then Bool(true) else Undefined)
  }

  /** `GET /api/artworks`: the store's list, or 500. The filters are built
      and then not used: the store's list takes no argument. */
  function ListArtworks(store: ArtworkStore, query: map<string, string>, db: Db, production: bool, now: int): (r: Response)
    reads store
    ensures r.status == 200 || r.status == 500
    ensures r.status == 200 <==> store.GetArtworks(db, production, now).Ok?
    ensures r.status == 200 ==> r.payload == Many(store.GetArtworks(db, production, now).value)
  {
    var _ := NormaliseFilters(query);
    match store.GetArtworks(db, production, now)
    case Ok(rows) => Response(200, Many(rows))
    case Err(_) => Response(500, Message("Failed to fetch artworks"))
  }

  /** `GET /api/artworks/:id`: 404 exactly when the store has no such record. */
  function ShowArtwork(store: ArtworkStore, param: string, db: Db, production: bool, now: int): (r: Response)
    reads store
    ensures var found := store.GetArtworkById(ParseInt(param), db, production, now);
      && (r.status == 404 <==> found == Ok(None))
      && (r.status == 500 <==> found.Err?)
      && (r.status == 200 <==> found.Ok? && found.value.Some?)
      && (r.status == 200 ==> r.payload == One(found.value))
  {
    match store.GetArtworkById(ParseInt(param), db, production, now)
    case Err(_) => Response(500, Message("Failed to fetch artwork"))
    case Ok(None) => Response(404, Message("Artwork not found"))
    case Ok(Some(record)) => Response(200, One(Some(record)))
  }

  /** The ownership test of PATCH and DELETE: refused when there is no record
      or its `artistId` is not strictly the user's id. */
  predicate OwnershipDenied(existing: Option<Obj>, user: string) {
    existing.None? || !StrictEquals(Get(existing.value, "artistId"), Str(user))
  }

  /** No record in the list carries an owner. */
  predicate Unowned(rows: seq<Obj>) {
    forall i :: 0 <= i < |rows| ==> !Has(rows[i], "artistId")
  }

  /** What the lookup of PATCH and DELETE can return carries no owner: the
      rows of the query (the SELECT lists no owner column), or in development
      mode the in-memory records and the fixture. */
  predicate LookupUnowned(store: ArtworkStore, db: Db)
    reads store
  {
    match db
    case Up(rows) => Unowned(rows)
    case Down => Unowned(store.artworks)
  }

  lemma PrependUnowned(record: Obj, rows: seq<Obj>)
    requires !Has(record, "artistId") && Unowned(rows)
    ensures Unowned([record] + rows)
  {
  }

  lemma WithoutUnowned(rows: seq<Obj>, i: int)
    requires -1 <= i < |rows| && Unowned(rows)
    ensures Unowned(Without(rows, i))
  {
  }

  /** The body of `POST /api/artworks`: the request body with `artistId`
      set to the user. */
  function WithArtist(body: Obj, user: string): (data: Obj)
    requires WellFormed(body)
    ensures Get(data, "artistId") == Str(user)
    ensures forall k :: k != "artistId" ==> Get(data, k) == Get(body, k)
  {
    var copy := Spread(EmptyObject, body);
    assert forall k :: Get(copy, k) == Get(body, k) by {
      forall k ensures Get(copy, k) == Get(body, k) {
        SpreadGet(EmptyObject, body, k);
      }
    }
    Put(copy, "artistId", Str(user))
  }

  /** `POST /api/artworks`: 400 with the issues when the body does not
      validate, then the store's create: 201 with the record, or 500 for any
      error it throws (a missing title, price or image included). */
  method CreateArtwork(store: ArtworkStore, user: string, body: Obj, db: Db, production: bool, now: int)
    returns (r: Response)
    requires WellFormed(body)
    modifies store
    ensures var parsed := Schema.ParseInsert(WithArtist(body, user));
      && (r.status == 400 <==> parsed.Err?)
      && (parsed.Err? ==> r.payload == InvalidData(parsed.error))
      && (r.status == 400 ==> store.artworks == old(store.artworks) && store.nextId == old(store.nextId))
    ensures r.status == 400 || r.status == 201 || r.status == 500
    ensures r.status == 201 && db.Down? ==>
      var record := NewRecord(old(store.nextId), Schema.ParseInsert(WithArtist(body, user)).value, now);
      && r.payload == One(Some(record))
      && store.artworks == [record] + old(store.artworks)
      && !Has(record, "artistId")
    ensures var parsed := Schema.ParseInsert(WithArtist(body, user));
      parsed.Ok? ==>
        (r.status == 201 <==>
          && Truthy(Get(parsed.value, "title")) && Truthy(Get(parsed.value, "price"))
          && Truthy(Get(parsed.value, "imageUrl")) && !(db.Down? && production))
    ensures r.status == 201 && db.Down? ==> store.nextId == old(store.nextId) + 1
    ensures r.status == 201 && db.Up? ==>
      && r.payload == One(if db.rows == [] then None else Some(db.rows[0]))
      && store.artworks == old(store.artworks) && store.nextId == old(store.nextId)
    ensures r.status == 500 ==> store.artworks == old(store.artworks) && store.nextId == old(store.nextId)
    ensures old(store.Valid()) ==> store.Valid()
    ensures old(Unowned(store.artworks)) ==> Unowned(store.artworks)
  {
    var parsed := Schema.ParseInsert(WithArtist(body, user));
    if parsed.Err? {
      return Response(400, InvalidData(parsed.error));
    }
    var created := store.CreateArtwork(parsed.value, db, production, now);
    NewRecordFields(old(store.nextId), parsed.value, now);
    if old(Unowned(store.artworks)) {
      PrependUnowned(NewRecord(old(store.nextId), parsed.value, now), old(store.artworks));
    }
    match created {
      case Ok(record) => r := Response(201, One(record));
      case Err(_) => r := Response(500, Message("Failed to create artwork"));
    }
  }

  /** `PATCH /api/artworks/:id`: validates the body first (400), then looks
      the record up (500 if that throws) and refuses with 403 when it is
      missing or not the user's; only then does the store update it. */
  method UpdateArtwork(store: ArtworkStore, user: string, param: string, body: Obj, db: Db, production: bool, now: int)
    returns (r: Response)
    modifies store
    ensures var parsed := Schema.ParseUpdate(body);
      var existing := old(store.GetArtworkById(ParseInt(param), db, production, now));
      && (r.status == 400 <==> parsed.Err?)
      && (parsed.Err? ==> r.payload == InvalidData(parsed.error))
      && (r.status == 403 <==> parsed.Ok? && existing.Ok? && OwnershipDenied(existing.value, user))
    ensures var parsed := Schema.ParseUpdate(body);
      var existing := old(store.GetArtworkById(ParseInt(param), db, production, now));
      parsed.Ok? && existing.Err? ==> r.status == 500
    ensures var parsed := Schema.ParseUpdate(body);
      var existing := old(store.GetArtworkById(ParseInt(param), db, production, now));
      parsed.Ok? && existing.Ok? && !OwnershipDenied(existing.value, user) ==>
        (r.status == 200 <==> UpdateSucceeds(old(store.artworks), ParseInt(param), parsed.value, db, production))
    ensures r.status == 200 ==>
      var data := Schema.ParseUpdate(body).value;
      var idx := FindIndex(old(store.artworks), ParseInt(param));
      if db.Down? || Mapped(ColumnMap, data.keys) == [] then
        && idx != -1
        && r.payload == One(Some(Merge(old(store.artworks)[idx], data, now)))
        && store.artworks == old(store.artworks)[idx := Merge(old(store.artworks)[idx], data, now)]
      else
        && r.payload == One(if db.rows == [] then None else Some(db.rows[0]))
        && store.artworks == old(store.artworks)
    ensures r.status in {200, 400, 403, 500}
    ensures r.status != 200 ==> store.artworks == old(store.artworks)
    ensures store.nextId == old(store.nextId)
    ensures old(store.Valid()) ==> store.Valid()
    ensures old(Unowned(store.artworks)) ==> Unowned(store.artworks)
    ensures old(LookupUnowned(store, db)) ==> r.status != 200 && store.artworks == old(store.artworks)
  {
    var id := ParseInt(param);
    var parsed := Schema.ParseUpdate(body);
    if parsed.Err? {
      return Response(400, InvalidData(parsed.error));
    }
    var existing := store.GetArtworkById(id, db, production, now);
    if existing.Err? {
      return Response(500, Message("Failed to update artwork"));
    }
    if LookupUnowned(store, db) {
      LookupUnownedDenies(store, db, production, now, id, user);
    }
    if OwnershipDenied(existing.value, user) {
      return Response(403, Message("Not authorized to update this artwork"));
    }
    UpdateNeverListsIdOrOwner(body);
    var updated := store.UpdateArtwork(id, parsed.value, db, production, now);
    MergeKeepsOwnerless(old(store.artworks), FindIndex(old(store.artworks), id), parsed.value, now);
    match updated {
      case Ok(record) => r := Response(200, One(record));
      case Err(_) => r := Response(500, Message("Failed to update artwork"));
    }
  }

  /** `DELETE /api/artworks/:id`: the same lookup and ownership test as
      PATCH, then the store's delete and 204. */
  method DeleteArtwork(store: ArtworkStore, user: string, param: string, db: Db, production: bool, now: int)
    returns (r: Response)
    modifies store
    ensures var existing := old(store.GetArtworkById(ParseInt(param), db, production, now));
      && (r.status == 403 <==> existing.Ok? && OwnershipDenied(existing.value, user))
      && (r.status == 204 <==> existing.Ok? && !OwnershipDenied(existing.value, user) && !(db.Down? && production))
    ensures r.status in {204, 403, 500}
    ensures r.status == 204 ==> r.payload == NoContent
    ensures r.status == 204 && db.Down? ==>
      store.artworks == Without(old(store.artworks), FindIndex(old(store.artworks), ParseInt(param)))
    ensures r.status == 204 && db.Up? ==> store.artworks == old(store.artworks)
    ensures r.status != 204 ==> store.artworks == old(store.artworks)
    ensures store.nextId == old(store.nextId)
    ensures old(store.Valid()) ==> store.Valid()
    ensures old(Unowned(store.artworks)) ==> Unowned(store.artworks)
    ensures old(LookupUnowned(store, db)) ==> r.status != 204 && store.artworks == old(store.artworks)
  {
    var id := ParseInt(param);
    var existing := store.GetArtworkById(id, db, production, now);
    if existing.Err? {
      return Response(500, Message("Failed to delete artwork"));
    }
    if LookupUnowned(store, db) {
      LookupUnownedDenies(store, db, production, now, id, user);
    }
    if OwnershipDenied(existing.value, user) {
      return Response(403, Message("Not authorized to delete this artwork"));
    }
    var deleted := store.DeleteArtwork(id, db, production);
    if old(Unowned(store.artworks)) {
      WithoutUnowned(old(store.artworks), FindIndex(old(store.artworks), id));
    }
    match deleted {
      case Ok(_) => r := Response(204, NoContent);
      case Err(_) => r := Response(500, Message("Failed to delete artwork"));
    }
  }

  /** A record without an `artistId` is nobody's: the ownership test refuses
      every user, and a present record passes it exactly for the user whose
      id it holds. */
  lemma OwnerlessDenied(record: Obj, user: string)
    ensures !Has(record, "artistId") ==> OwnershipDenied(Some(record), user)
    ensures !OwnershipDenied(Some(record), user) <==> Get(record, "artistId") == Str(user)
  {
  }

  /** When nothing the lookup can return carries an owner, the ownership test
      refuses whatever the lookup returns. */
  lemma LookupUnownedDenies(store: ArtworkStore, db: Db, production: bool, now: int, id: JsValue, user: string)
    requires LookupUnowned(store, db)
    requires store.GetArtworkById(id, db, production, now).Ok?
    ensures OwnershipDenied(store.GetArtworkById(id, db, production, now).value, user)
  {
    if db.Down? {
      FallbackUnowned(store.artworks, id, now);
    }
  }

  /** The development fallback finds no owner among owner-less records. */
  lemma FallbackUnowned(memory: seq<Obj>, id: JsValue, now: int)
    requires Unowned(memory)
    ensures var found := FallbackLookup(memory, id, now);
      found.Some? ==> !Has(found.value, "artistId")
  {
    FallbackLookupIsFind(memory, id, now);
    var all := FallbackList(memory, now);
    var i := FindIndex(all, id);
    if i != -1 {
      if i < |memory| {
        assert all[i] == memory[i];
      } else {
        assert all[i] == Fixture(now);
      }
    }
  }

  /** A validated update body never lists `id` or `artistId`: the update
      schema declares neither. */
  lemma UpdateNeverListsIdOrOwner(body: Obj)
    requires Schema.ParseUpdate(body).Ok?
    ensures "id" !in Schema.ParseUpdate(body).value.keys
    ensures "artistId" !in Schema.ParseUpdate(body).value.keys
  {
    Schema.ArtworkShapeFacts();
    Schema.Undeclared();
    Schema.ParseFieldsIssues(Schema.ArtworkShape, true, body);
    Schema.ParseFieldsGet(Schema.ArtworkShape, true, body, "id");
    Schema.ParseFieldsGet(Schema.ArtworkShape, true, body, "artistId");
    Schema.OutputWellFormed(Schema.ArtworkShape, true, body);
  }

  /** Merging a body that does not list `artistId` gives no record an owner. */
  lemma MergeKeepsOwnerless(rows: seq<Obj>, idx: int, data: Obj, now: int)
    requires -1 <= idx < |rows|
    ensures idx != -1 && "artistId" !in data.keys && Unowned(rows) ==>
      Unowned(rows[idx := Merge(rows[idx], data, now)])
  {
    if idx != -1 {
      SpreadKeys(rows[idx], data);
    }
  }
}
