/**
 * The artwork store behind the API. Every operation first asks MySQL; when
 * the query throws and the server is not in production mode, it falls back
 * to a table kept in process memory: an array of artwork records, newest
 * first, and a counter that hands out ids from 1000 upwards.
 *
 * MySQL is reduced to what one call observes: every query of the call
 * succeeds and a SELECT yields the given rows (`Up(rows)`), or the first
 * query throws (`Down`). The clock is the parameter `now`.
 */
module Storage {
  import opened JsValues
  import Schema

  /** What one call observes of the database. */
  datatype Db = Up(rows: seq<Obj>) | Down

  /** The errors a storage call throws. */
  datatype Failure =
    | DatabaseError     // the query's own error, rethrown
    | MissingRequired   // "Title, price, and imageUrl are required"
    | NoDataToUpdate    // "No data to update"

  /** The properties of an artwork record, in the order the records list them
      (the SELECT aliases and the in-memory record literal). */
  const RecordKeys: seq<string> := [
    "id", "title", "description", "price", "imageUrl", "style", "medium",
    "width", "height", "year", "isAvailable", "isFeatured", "createdAt", "updatedAt"
  ]

  /** The record properties `updateArtwork` writes, with their columns. */
  const ColumnMap: map<string, string> := map[
    "title" := "title",
    "description" := "description",
    "price" := "price",
    "imageUrl" := "image_url",
    "style" := "style",
    "medium" := "medium",
    "width" := "width",
    "height" := "height",
    "year" := "year",
    "isAvailable" := "is_available",
    "isFeatured" := "is_featured"
  ]

  /** An object with the record properties, given their values in order. */
  function Record(vs: seq<JsValue>): (r: Obj)
    requires |vs| == |RecordKeys|
  {
    Object(RecordKeys, map[
      "id" := vs[0], "title" := vs[1], "description" := vs[2], "price" := vs[3],
      "imageUrl" := vs[4], "style" := vs[5], "medium" := vs[6], "width" := vs[7],
      "height" := vs[8], "year" := vs[9], "isAvailable" := vs[10], "isFeatured" := vs[11],
      "createdAt" := vs[12], "updatedAt" := vs[13]])
  }

  /** The one artwork the development fallback always lists. */
  function Fixture(now: int): (r: Obj)
    ensures IdOf(r) == Num(1.0)
    ensures !Has(r, "artistId")
  {
    Record([
      Num(1.0), Str("Starry Night"), Str("Vincent van Gogh reproduction"), Str("299.00"),
      Str("/Starry-Night-canvas-Vincent-van-Gogh-New-1889.webp"), Str("Post-Impressionism"),
      Str("Oil on canvas"), Num(92.0), Num(73.0), Num(1889.0), Bool(true), Bool(true),
      Date(now), Date(now)])
  }

  /** The record a fallback create stores for `data` under `id`: absent
      optional properties become null, the flags take their defaults, and
      both timestamps are the creation time. */
  function NewRecord(id: nat, data: Obj, now: int): Obj {
    Object(RecordKeys, map[
      "id" := Num(id as real),
      "title" := Get(data, "title"),
      "description" := Coalesce(Get(data, "description"), Null),
      "price" := Get(data, "price"),
      "imageUrl" := Get(data, "imageUrl"),
      "style" := Coalesce(Get(data, "style"), Null),
      "medium" := Coalesce(Get(data, "medium"), Null),
      "width" := Coalesce(Get(data, "width"), Null),
      "height" := Coalesce(Get(data, "height"), Null),
      "year" := Coalesce(Get(data, "year"), Null),
      "isAvailable" := Coalesce(Get(data, "isAvailable"), Bool(true)),
      "isFeatured" := Coalesce(Get(data, "isFeatured"), Bool(false)),
      "createdAt" := Date(now),
      "updatedAt" := Date(now)])
  }

  /** `record.id` */
  function IdOf(record: Obj): JsValue {
    Get(record, "id")
  }

  /** `rows.findIndex(a => a.id === id)` */
  function FindIndex(rows: seq<Obj>, id: JsValue): (r: int)
    ensures -1 <= r < |rows|
    ensures r == -1 <==> forall i :: 0 <= i < |rows| ==> !StrictEquals(IdOf(rows[i]), id)
    ensures r >= 0 ==>
      StrictEquals(IdOf(rows[r]), id) && forall i :: 0 <= i < r ==> !StrictEquals(IdOf(rows[i]), id)
  {
    if rows == [] then -1
    else if StrictEquals(IdOf(rows[0]), id) then 0
    else
      var r := FindIndex(rows[1..], id);
      assert forall i :: 1 <= i < |rows| ==> rows[1..][i - 1] == rows[i];
      if r == -1 then -1 else r + 1
  }

  /** `rows.find(a => a.id === id)` */
  function Find(rows: seq<Obj>, id: JsValue): Option<Obj> {
    var i := FindIndex(rows, id);
    if i == -1 then None else Some(rows[i])
  }

  /** What the development fallback lists: the in-memory records, then the
      fixture. */
  function FallbackList(memory: seq<Obj>, now: int): seq<Obj> {
    memory + [Fixture(now)]
  }

  /** The development fallback of `getArtworkById`: the in-memory record with
      that id, else whatever the fallback list has under it. */
  function FallbackLookup(memory: seq<Obj>, id: JsValue, now: int): Option<Obj> {
    var m := Find(memory, id);
    if m.Some? then m else Find(FallbackList(memory, now), id)
  }

  /** `{ ...record, ...data, updatedAt: now }` */
  function Merge(record: Obj, data: Obj, now: int): Obj {
    Put(Spread(record, data), "updatedAt", Date(now))
  }

  /** The record list without the entry at `i` (`splice(i, 1)`), or unchanged
      for `i == -1`. */
  function Without(rows: seq<Obj>, i: int): seq<Obj>
    requires -1 <= i < |rows|
  {
    if i == -1 then rows else rows[..i] + rows[i + 1..]
  }

  /** The keys of `ks` that `columns` turns into assignments, in order. */
  function Mapped(columns: map<string, string>, ks: seq<string>): (m: seq<string>)
    ensures |m| <= |ks|
    ensures forall k :: k in m <==> k in ks && k in columns
  {
    if ks == [] then []
    else
      var m := Mapped(columns, ks[..|ks| - 1]);
      assert ks == ks[..|ks| - 1] + [ks[|ks| - 1]];
      if ks[|ks| - 1] in columns then m + [ks[|ks| - 1]] else m
  }

  /** The `column = ?` clauses for the mapped keys. */
  function Clauses(columns: map<string, string>, m: seq<string>): seq<string>
    requires forall k :: k in m ==> k in columns
  {
    seq(|m|, i requires 0 <= i < |m| => columns[m[i]] + " = ?")
  }

  lemma MappedStep(columns: map<string, string>, ks: seq<string>, n: nat)
    requires n < |ks|
    ensures Mapped(columns, ks[..n + 1]) ==
      if ks[n] in columns then Mapped(columns, ks[..n]) + [ks[n]] else Mapped(columns, ks[..n])
  {
    assert ks[..n + 1][..n] == ks[..n];
  }

  lemma ClausesStep(columns: map<string, string>, m: seq<string>, k: string)
    requires forall j :: j in m ==> j in columns
    requires k in columns
    ensures Clauses(columns, m + [k]) == Clauses(columns, m) + [columns[k] + " = ?"]
  {
  }

  /** A whole-number id from the counter's range. */
  ghost predicate IdBelow(v: JsValue, next: nat) {
    v.Num? && v.x.Floor as real == v.x && 1000 <= v.x.Floor < next
  }

  /** The id bookkeeping of the in-memory table: every record has an id the
      counter handed out, and no two records share one. */
  ghost predicate IdsBelow(rows: seq<Obj>, next: nat) {
    && next >= 1000
    && (forall i :: 0 <= i < |rows| ==> IdBelow(IdOf(rows[i]), next))
    && (forall i, j :: 0 <= i < j < |rows| ==> IdOf(rows[i]) != IdOf(rows[j]))
  }

  /** When `updateArtwork` returns rather than throws: a real UPDATE runs
      when the database is up and some property maps to a column, and
      otherwise the development fallback needs the record in memory. */
  predicate UpdateSucceeds(memory: seq<Obj>, id: JsValue, data: Obj, db: Db, production: bool) {
    (db.Up? && Mapped(ColumnMap, data.keys) != []) || (!production && FindIndex(memory, id) != -1)
  }

  /** The in-process table, newest record first, and the next id to hand out. */
  class ArtworkStore {
    var artworks: seq<Obj>
    var nextId: nat

    ghost predicate Valid()
      reads this
    {
      IdsBelow(artworks, nextId)
    }

    constructor ()
      ensures artworks == [] && nextId == 1000
      ensures Valid()
    {
      artworks := [];
      nextId := 1000;
    }

    /** `getArtworks()`: the query's rows, or in development mode the
        in-memory records followed by the fixture. */
    function GetArtworks(db: Db, production: bool, now: int): (r: Result<seq<Obj>, Failure>)
      reads this
      ensures db.Up? ==> r == Ok(db.rows)
      ensures db.Down? ==> (r.Ok? <==> !production)
      ensures r.Ok? && db.Down? ==>
        |r.value| == |artworks| + 1 && r.value[..|artworks|] == artworks && IdOf(r.value[|artworks|]) == Num(1.0)
    {
      match db
      case Up(rows) => Ok(rows)
      case Down => if production then Err(DatabaseError) else Ok(FallbackList(artworks, now))
    }

    /** `getArtworkById(id)`: the first row of the query, or in development
        mode a record with that id from memory or the fixture. */
    function GetArtworkById(id: JsValue, db: Db, production: bool, now: int): (r: Result<Option<Obj>, Failure>)
      reads this
      ensures db.Up? ==> r == Ok(if db.rows == [] then None else Some(db.rows[0]))
      ensures db.Down? ==> (r.Ok? <==> !production)
      ensures r.Ok? && db.Down? && r.value.Some? ==> StrictEquals(IdOf(r.value.value), id)
      ensures r.Ok? && db.Down? ==> (r.value.None? <==>
        !StrictEquals(Num(1.0), id) && forall i :: 0 <= i < |artworks| ==> !StrictEquals(IdOf(artworks[i]), id))
    {
      match db
      case Up(rows) => Ok(if rows == [] then None else Some(rows[0]))
      case Down =>
        if production then Err(DatabaseError)
        else
          FallbackLookupIsFind(artworks, id, now);
          FindInFallback(artworks, id, now);
          Ok(FallbackLookup(artworks, id, now))
    }

    /** `createArtwork(data)`: refuses a falsy title, price or imageUrl before
        touching anything; otherwise inserts, or in development mode with the
        database down prepends a new record under the next id. */
    method CreateArtwork(data: Obj, db: Db, production: bool, now: int) returns (r: Result<Option<Obj>, Failure>)
      modifies this
      ensures r == Err(MissingRequired) <==>
        !Truthy(Get(data, "title")) || !Truthy(Get(data, "price")) || !Truthy(Get(data, "imageUrl"))
      ensures r.Ok? && db.Down? ==>
        && !production
        && r.value == Some(NewRecord(old(nextId), data, now))
        && artworks == [NewRecord(old(nextId), data, now)] + old(artworks)
        && nextId == old(nextId) + 1
      ensures !(r.Ok? && db.Down?) ==> artworks == old(artworks) && nextId == old(nextId)
      ensures r.Ok? && db.Up? ==> r.value == (if db.rows == [] then None else Some(db.rows[0]))
      ensures r.Err? && r.error != MissingRequired ==> db.Down? && production
      ensures old(Valid()) ==> Valid()
    {
      if !Truthy(Get(data, "title")) || !Truthy(Get(data, "price")) || !Truthy(Get(data, "imageUrl")) {
        return Err(MissingRequired);
      }
      match db {
        case Up(rows) =>
          r := Ok(if rows == [] then None else Some(rows[0]));
        case Down =>
          if production {
            return Err(DatabaseError);
          }
          var record := NewRecord(nextId, data, now);
          if Valid() {
            NewRecordIdFresh(artworks, nextId, data, now);
          }
          artworks := [record] + artworks;
          nextId := nextId + 1;
          r := Ok(Some(record));
      }
    }

    /** Builds the `SET` clauses and the bound values of the UPDATE: one clause
        per own key of `data` that `columns` knows, in key order, and the
        values in the same order followed by the id. */
    static method BuildAssignments(columns: map<string, string>, id: JsValue, data: Obj)
      returns (fields: seq<string>, values: seq<JsValue>)
      ensures fields == Clauses(columns, Mapped(columns, data.keys))
      ensures |values| == |fields| + 1 && values[|fields|] == id
      ensures forall i :: 0 <= i < |fields| ==> values[i] == Get(data, Mapped(columns, data.keys)[i])
    {
      fields := [];
      values := [];
      var n := 0;
      while n < |data.keys|
        invariant n <= |data.keys|
        invariant fields == Clauses(columns, Mapped(columns, data.keys[..n]))
        invariant |values| == |fields|
        invariant forall i :: 0 <= i < |fields| ==> values[i] == Get(data, Mapped(columns, data.keys[..n])[i])
      {
        var key := data.keys[n];
        MappedStep(columns, data.keys, n);
        if key in columns {
          ClausesStep(columns, Mapped(columns, data.keys[..n]), key);
          fields := fields + [columns[key] + " = ?"];
          values := values + [Get(data, key)];
        }
        n := n + 1;
      }
      assert data.keys[..n] == data.keys;
      values := values + [id];
    }

    /** `updateArtwork(id, data)`. With no mapped key, development mode merges
        `data` into the in-memory record with that id (database or not) and
        everything else throws "No data to update"; otherwise the UPDATE runs,
        and when it throws in development mode the same in-memory merge is
        tried. The merge keeps the record's place in the table. */
    method UpdateArtwork(id: JsValue, data: Obj, db: Db, production: bool, now: int)
      returns (r: Result<Option<Obj>, Failure>)
      modifies this
      ensures var idx := FindIndex(old(artworks), id);
        if r.Ok? && (db.Down? || Mapped(ColumnMap, data.keys) == []) then
          && !production && idx != -1
          && r.value == Some(Merge(old(artworks)[idx], data, now))
          && artworks == old(artworks)[idx := Merge(old(artworks)[idx], data, now)]
        else artworks == old(artworks)
      ensures r.Ok? <==> UpdateSucceeds(old(artworks), id, data, db, production)
      ensures nextId == old(nextId)
      ensures r.Err? ==> (r.error == NoDataToUpdate <==> Mapped(ColumnMap, data.keys) == [])
      ensures r.Err? ==> production || FindIndex(old(artworks), id) == -1
      ensures r.Err? ==> r.error != MissingRequired && (r.error == DatabaseError ==> db.Down?)
      ensures r.Ok? && db.Up? && Mapped(ColumnMap, data.keys) != [] ==>
        r.value == (if db.rows == [] then None else Some(db.rows[0]))
      ensures old(Valid()) && "id" !in data.keys ==> Valid()
    {
      var fields, values := BuildAssignments(ColumnMap, id, data);
      var idx := FindIndex(artworks, id);
      if |fields| == 0 {
        if !production && idx != -1 {
          var updated := Merge(artworks[idx], data, now);
          MergeKeepsIds(artworks, nextId, idx, data, now);
          artworks := artworks[idx := updated];
          return Ok(Some(updated));
        }
        return Err(NoDataToUpdate);
      }
      match db {
        case Up(rows) =>
          r := Ok(if rows == [] then None else Some(rows[0]));
        case Down =>
          if !production && idx != -1 {
            var updated := Merge(artworks[idx], data, now);
            MergeKeepsIds(artworks, nextId, idx, data, now);
            artworks := artworks[idx := updated];
            return Ok(Some(updated));
          }
          r := Err(DatabaseError);
      }
    }

    /** `deleteArtwork(id)`: in development mode with the database down the
        record with that id, if any, is spliced out and nothing is thrown. */
    method DeleteArtwork(id: JsValue, db: Db, production: bool) returns (r: Result<(), Failure>)
      modifies this
      ensures r.Err? <==> db.Down? && production
      ensures r.Err? ==> r.error == DatabaseError
      ensures db.Down? && !production ==> artworks == Without(old(artworks), FindIndex(old(artworks), id))
      ensures !(db.Down? && !production) ==> artworks == old(artworks)
      ensures nextId == old(nextId)
      ensures old(Valid()) ==> Valid()
    {
      match db {
        case Up(_) =>
          r := Ok(());
        case Down =>
          if production {
            return Err(DatabaseError);
          }
          var idx := FindIndex(artworks, id);
          WithoutKeepsIds(artworks, nextId, idx);
          artworks := Without(artworks, idx);
          r := Ok(());
      }
    }
  }

  /** Reading a new record back: the given id, title, price and image,
      created and updated now, the record properties in their order, and no
      owner. */
  lemma NewRecordFields(id: nat, data: Obj, now: int)
    ensures var r := NewRecord(id, data, now);
      && r.keys == RecordKeys
      && IdOf(r) == Num(id as real)
      && Get(r, "title") == Get(data, "title")
      && Get(r, "price") == Get(data, "price")
      && Get(r, "imageUrl") == Get(data, "imageUrl")
      && Get(r, "createdAt") == Get(r, "updatedAt") == Date(now)
      && !Has(r, "artistId")
  {
  }

  /** A new record has null for a missing description, style, medium, width,
      height or year, is available unless said otherwise and not featured
      unless said otherwise. */
  lemma NewRecordDefaults(id: nat, data: Obj, now: int)
    ensures var r := NewRecord(id, data, now);
      && Get(r, "description") == (if Nullish(Get(data, "description")) then Null else Get(data, "description"))
      && Get(r, "style") == (if Nullish(Get(data, "style")) then Null else Get(data, "style"))
      && Get(r, "medium") == (if Nullish(Get(data, "medium")) then Null else Get(data, "medium"))
      && Get(r, "width") == (if Nullish(Get(data, "width")) then Null else Get(data, "width"))
      && Get(r, "height") == (if Nullish(Get(data, "height")) then Null else Get(data, "height"))
      && Get(r, "year") == (if Nullish(Get(data, "year")) then Null else Get(data, "year"))
      && Get(r, "isAvailable") == (if Nullish(Get(data, "isAvailable")) then Bool(true) else Get(data, "isAvailable"))
      && Get(r, "isFeatured") == (if Nullish(Get(data, "isFeatured")) then Bool(false) else Get(data, "isFeatured"))
  {
  }

  /** The id the counter hands out is on no record yet, and after prepending
      the new record the table is in order again with the counter one higher. */
  lemma NewRecordIdFresh(rows: seq<Obj>, next: nat, data: Obj, now: int)
    requires IdsBelow(rows, next)
    ensures FindIndex(rows, Num(next as real)) == -1
    ensures IdsBelow([NewRecord(next, data, now)] + rows, next + 1)
  {
    var record := NewRecord(next, data, now);
    assert IdOf(record) == Num(next as real);
    assert IdBelow(IdOf(record), next + 1) by {
      assert (next as real).Floor == next;
    }
    var rows' := [record] + rows;
    assert forall i :: 1 <= i < |rows'| ==> rows'[i] == rows[i - 1];
  }

  /** Merging a body that does not list `id` into one record keeps every id. */
  lemma MergeKeepsIds(rows: seq<Obj>, next: nat, idx: int, data: Obj, now: int)
    requires 0 <= idx < |rows|
    ensures "id" !in data.keys ==> IdOf(Merge(rows[idx], data, now)) == IdOf(rows[idx])
    ensures "id" !in data.keys && IdsBelow(rows, next) ==> IdsBelow(rows[idx := Merge(rows[idx], data, now)], next)
  {
    SpreadGet(rows[idx], data, "id");
  }

  /** Splicing a record out keeps the others' ids. */
  lemma WithoutKeepsIds(rows: seq<Obj>, next: nat, i: int)
    requires -1 <= i < |rows|
    ensures IdsBelow(rows, next) ==> IdsBelow(Without(rows, i), next)
  {
    if i != -1 && IdsBelow(rows, next) {
      var w := Without(rows, i);
      assert forall j :: 0 <= j < |w| ==> w[j] == if j < i then rows[j] else rows[j + 1];
    }
  }

  /** Searching a longer list finds the same record when the shorter list
      has one, and otherwise searches the extra records. */
  lemma {:induction false} FindIndexAppend(rows: seq<Obj>, extra: seq<Obj>, id: JsValue)
    ensures var i := FindIndex(rows, id);
      var j := FindIndex(extra, id);
      FindIndex(rows + extra, id) == if i != -1 then i else if j == -1 then -1 else |rows| + j
  {
    if rows != [] {
      assert (rows + extra)[1..] == rows[1..] + extra;
      FindIndexAppend(rows[1..], extra, id);
    } else {
      assert rows + extra == extra;
    }
  }

  /** Asking memory first changes nothing: the fallback lookup finds what a
      search of the whole fallback list finds. */
  lemma FallbackLookupIsFind(memory: seq<Obj>, id: JsValue, now: int)
    ensures FallbackLookup(memory, id, now) == Find(FallbackList(memory, now), id)
  {
    FindIndexAppend(memory, [Fixture(now)], id);
    var i := FindIndex(memory, id);
    if i != -1 {
      assert FallbackList(memory, now)[i] == memory[i];
    }
  }

  /** The fallback list holds a record with that id exactly when memory does
      or the id is the fixture's 1. */
  lemma FindInFallback(memory: seq<Obj>, id: JsValue, now: int)
    ensures var f := Find(FallbackList(memory, now), id);
      && (f.Some? ==> StrictEquals(IdOf(f.value), id))
      && (f.None? <==>
            !StrictEquals(Num(1.0), id) && forall i :: 0 <= i < |memory| ==> !StrictEquals(IdOf(memory[i]), id))
  {
    FindIndexAppend(memory, [Fixture(now)], id);
    var all := FallbackList(memory, now);
    var i := FindIndex(memory, id);
    if i != -1 {
      assert all[i] == memory[i];
    } else if FindIndex([Fixture(now)], id) != -1 {
      assert all[|memory|] == Fixture(now);
    }
  }

  /** A record created in the fallback is found again under its id, before
      every older record. */
  lemma CreateThenFind(rows: seq<Obj>, next: nat, data: Obj, now: int)
    requires IdsBelow(rows, next)
    ensures Find([NewRecord(next, data, now)] + rows, Num(next as real)) == Some(NewRecord(next, data, now))
  {
    assert IdOf(NewRecord(next, data, now)) == Num(next as real);
  }

  /** After the fallback delete no in-memory record has that id, exactly one
      record fewer is left when there was one, and the others keep their
      order. */
  lemma DeleteThenFind(rows: seq<Obj>, next: nat, id: JsValue)
    requires IdsBelow(rows, next)
    ensures var i := FindIndex(rows, id);
      && FindIndex(Without(rows, i), id) == -1
      && |Without(rows, i)| == |rows| - (if i == -1 then 0 else 1)
      && (i != -1 ==> Without(rows, i) == rows[..i] + rows[i + 1..])
  {
    var i := FindIndex(rows, id);
    if i != -1 {
      var w := Without(rows, i);
      forall j | 0 <= j < |w| ensures !StrictEquals(IdOf(w[j]), id) {
        if j < i {
          assert w[j] == rows[j];
        } else {
          assert w[j] == rows[j + 1];
          assert IdOf(rows[j + 1]) != IdOf(rows[i]);
        }
      }
    }
  }

  /** A merged record carries the body's value for every property the body
      lists, the old value for every other, and the new update time; its key
      order is the record's when the body adds no property. */
  lemma MergeFields(record: Obj, data: Obj, now: int, k: string)
    ensures Get(Merge(record, data, now), k) ==
      if k == "updatedAt" then Date(now) else if k in data.keys then Get(data, k) else Get(record, k)
    ensures (forall k' :: k' in data.keys ==> Has(record, k')) && Has(record, "updatedAt") ==>
      Merge(record, data, now).keys == record.keys
  {
    SpreadGet(record, data, k);
    SpreadKeys(record, data);
  }

  /** The update writes nothing exactly when `data` lists no key `columnMap`
      knows. */
  lemma NothingToUpdate(data: Obj)
    ensures Mapped(ColumnMap, data.keys) == [] <==> forall k :: k in data.keys ==> k !in ColumnMap
  {
    var m := Mapped(ColumnMap, data.keys);
    if m != [] {
      assert m[0] in m;
    }
  }

  /** `columnMap` agrees with the schema's `artworks` map: it covers exactly
      the properties the schema validates, each with the schema's column. */
  lemma ColumnMapAgrees()
    ensures forall k :: k in ColumnMap <==> k in Schema.Names(Schema.ArtworkShape)
    ensures forall i :: 1 <= i <= 11 ==>
      Schema.ArtworkColumns[i].0 in ColumnMap && ColumnMap[Schema.ArtworkColumns[i].0] == Schema.ArtworkColumns[i].1
  {
    var names := Schema.Names(Schema.ArtworkShape);
    assert names == ["title", "description", "price", "imageUrl", "style", "medium",
                     "width", "height", "year", "isAvailable", "isFeatured"];
  }
}
