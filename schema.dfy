/**
 * The shared artwork validator: the `artworks` property-to-column map, the
 * zod object `insertArtworkSchema` and its `.partial()` form
 * `updateArtworkSchema`.
 *
 * A zod object schema looks up each declared property of the input, runs it
 * through the property's type, collects one issue per rejected property, and
 * builds a new object holding the declared properties only (undeclared ones
 * are stripped), in declaration order.
 */
module Schema {
  import opened JsValues

  /** The `artworks` map: every artwork property with its column name. */
  const ArtworkColumns: seq<(string, string)> := [
    ("id", "id"),
    ("title", "title"),
    ("description", "description"),
    ("price", "price"),
    ("imageUrl", "image_url"),
    ("style", "style"),
    ("medium", "medium"),
    ("width", "width"),
    ("height", "height"),
    ("year", "year"),
    ("isAvailable", "is_available"),
    ("isFeatured", "is_featured"),
    ("createdAt", "created_at"),
    ("updatedAt", "updated_at")
  ]

  /** The zod type of one declared property. */
  datatype Kind =
    | Text                    // z.string()
    | NullableText            // z.string().nullable()
    | NullableNumber          // z.number().nullable()
    | Flag(default: bool)     // z.boolean().default(default)

  datatype Field = Field(name: string, kind: Kind)

  /** The properties of `insertArtworkSchema`, in declaration order. */
  const ArtworkShape: seq<Field> := [
    Field("title", Text),
    Field("description", NullableText),
    Field("price", Text),
    Field("imageUrl", Text),
    Field("style", NullableText),
    Field("medium", NullableText),
    Field("width", NullableNumber),
    Field("height", NullableNumber),
    Field("year", NullableNumber),
    Field("isAvailable", Flag(true)),
    Field("isFeatured", Flag(false))
  ]

  datatype Expected = ExpectString | ExpectNumber | ExpectBoolean

  /** One entry of a ZodError's `errors` list: which property, what type it
      should have had, and what it was (`undefined` reads as "Required"). */
  datatype Issue = Issue(path: string, expected: Expected, received: JsValue)

  function Names(shape: seq<Field>): (ns: seq<string>)
    ensures |ns| == |shape| && forall i :: 0 <= i < |shape| ==> ns[i] == shape[i].name
  {
    seq(|shape|, i requires 0 <= i < |shape| => shape[i].name)
  }

  predicate DistinctNames(shape: seq<Field>) {
    forall i, j :: 0 <= i < j < |shape| ==> shape[i].name != shape[j].name
  }

  /** One property value through its zod type. `optional` is the ZodOptional
      wrapper that `.partial()` puts around every property: it lets
      `undefined` through untouched, before any default applies. */
  function ParseValue(kind: Kind, optional: bool, v: JsValue): (r: Result<JsValue, Expected>)
    ensures r.Ok? && r.value.Undefined? ==> optional && v.Undefined?
  {
    if optional && v.Undefined? then Ok(Undefined)
    else match kind
      case Text => if v.Str? then Ok(v) else Err(ExpectString)
      case NullableText => if v.Str? || v.Null? then Ok(v) else Err(ExpectString)
      case NullableNumber => if v.Num? || v.Null? then Ok(v) else Err(ExpectNumber)
      case Flag(d) => if v.Undefined? then Ok(Bool(d)) else if v.Bool? then Ok(v) else Err(ExpectBoolean)
  }

  /** Whether the input's value for the declared property passes its type. */
  predicate Accepts(f: Field, optional: bool, input: Obj) {
    ParseValue(f.kind, optional, Get(input, f.name)).Ok?
  }

  /** The issues of a zod object parse, one per refused property, in
      declaration order. */
  function Issues(shape: seq<Field>, optional: bool, input: Obj): seq<Issue>
    decreases |shape|
  {
    if shape == [] then []
    else
      var n := |shape| - 1;
      var v := Get(input, shape[n].name);
      Issues(shape[..n], optional, input) +
        match ParseValue(shape[n].kind, optional, v)
        case Ok(_) => []
        case Err(e) => [Issue(shape[n].name, e, v)]
  }

  /** The object a zod object parse builds: the declared properties in
      declaration order, each with its parsed value. A property whose parsed
      value is `undefined` is only written when the input has that key. */
  function Output(shape: seq<Field>, optional: bool, input: Obj): Obj
    decreases |shape|
  {
    if shape == [] then EmptyObject
    else
      var n := |shape| - 1;
      var f := shape[n];
      var first := Output(shape[..n], optional, input);
      match ParseValue(f.kind, optional, Get(input, f.name))
      case Ok(w) => if w.Undefined? && !Has(input, f.name) then first else Put(first, f.name, w)
      case Err(_) => first
  }

  /** `schema.parse(input)`: the stripped object, or the ZodError's issues. */
  function Parse(shape: seq<Field>, optional: bool, input: Obj): Result<Obj, seq<Issue>> {
    var issues := Issues(shape, optional, input);
    if issues == [] then Ok(Output(shape, optional, input)) else Err(issues)
  }

  /** `insertArtworkSchema.parse(input)` */
  function ParseInsert(input: Obj): Result<Obj, seq<Issue>> {
    Parse(ArtworkShape, false, input)
  }

  /** `updateArtworkSchema.parse(input)` */
  function ParseUpdate(input: Obj): Result<Obj, seq<Issue>> {
    Parse(ArtworkShape, true, input)
  }

  /** The kind declared for `name` (the last declaration, if several). */
  function KindOf(shape: seq<Field>, name: string): Kind
    requires name in Names(shape)
    decreases |shape|
  {
    var n := |shape| - 1;
    if shape[n].name == name then shape[n].kind
    else
      assert Names(shape) == Names(shape[..n]) + [shape[n].name];
      KindOf(shape[..n], name)
  }

  lemma {:induction false} KindOfAt(shape: seq<Field>, i: nat)
    requires DistinctNames(shape) && i < |shape|
    ensures KindOf(shape, shape[i].name) == shape[i].kind
    decreases |shape|
  {
    var n := |shape| - 1;
    if i < n {
      assert shape[..n][i] == shape[i];
      KindOfAt(shape[..n], i);
    }
  }

  /** Without the optional wrapper only a flag's default changes a value;
      with it, a parsed value is always the input value. */
  lemma ParseValueKeeps(kind: Kind, optional: bool, v: JsValue)
    requires ParseValue(kind, optional, v).Ok?
    ensures optional || !kind.Flag? || !v.Undefined? ==> ParseValue(kind, optional, v).value == v
  {
  }

  /** The parse reports no issue exactly when every declared property passes. */
  lemma {:induction false} ParseFieldsIssues(shape: seq<Field>, optional: bool, input: Obj)
    ensures Issues(shape, optional, input) == [] <==>
      forall i :: 0 <= i < |shape| ==> Accepts(shape[i], optional, input)
    decreases |shape|
  {
    if shape != [] {
      var n := |shape| - 1;
      var f := shape[n];
      var first := Issues(shape[..n], optional, input);
      ParseFieldsIssues(shape[..n], optional, input);
      assert forall i :: 0 <= i < n ==> shape[..n][i] == shape[i];
      if Accepts(f, optional, input) {
        assert Issues(shape, optional, input) == first;
      } else {
        assert Issues(shape, optional, input) != [];
      }
    }
  }

  /** Each issue names a declared property that was refused and the value it
      had. */
  lemma {:induction false} IssuesNameRefusedFields(shape: seq<Field>, optional: bool, input: Obj, issue: Issue)
    requires issue in Issues(shape, optional, input)
    ensures issue.received == Get(input, issue.path)
    ensures exists i :: 0 <= i < |shape| && shape[i].name == issue.path && !Accepts(shape[i], optional, input)
    decreases |shape|
  {
    var n := |shape| - 1;
    var f := shape[n];
    var first := Issues(shape[..n], optional, input);
    if issue in first {
      IssuesNameRefusedFields(shape[..n], optional, input, issue);
      var i :| 0 <= i < n && shape[..n][i].name == issue.path && !Accepts(shape[..n][i], optional, input);
      assert shape[..n][i] == shape[i];
    } else {
      assert !Accepts(f, optional, input);
    }
  }

  /** Reading a property of the parsed object: a declared property carries its
      parsed value, any other property is gone. */
  lemma {:induction false} ParseFieldsGet(shape: seq<Field>, optional: bool, input: Obj, k: string)
    requires DistinctNames(shape)
    requires Issues(shape, optional, input) == []
    ensures var out := Output(shape, optional, input);
      && (Has(out, k) ==> k in Names(shape))
      && (k !in Names(shape) ==> Get(out, k) == Undefined)
      && (k in Names(shape) ==>
            ParseValue(KindOf(shape, k), optional, Get(input, k)).Ok? &&
            Get(out, k) == ParseValue(KindOf(shape, k), optional, Get(input, k)).value)
    decreases |shape|
  {
    if shape != [] {
      var n := |shape| - 1;
      var f := shape[n];
      assert Names(shape) == Names(shape[..n]) + [f.name];
      assert DistinctNames(shape[..n]) by {
        forall i, j | 0 <= i < j < n ensures shape[..n][i].name != shape[..n][j].name {
          assert shape[..n][i] == shape[i] && shape[..n][j] == shape[j];
        }
      }
      assert f.name !in Names(shape[..n]) by {
        forall i | 0 <= i < n ensures Names(shape[..n])[i] != f.name {
          assert shape[..n][i] == shape[i];
        }
      }
      ParseFieldsIssues(shape, optional, input);
      assert Accepts(shape[n], optional, input);
      ParseFieldsGet(shape[..n], optional, input, k);
    }
  }

  /** Which keys the parsed object has, in which order: without the optional
      wrapper every declared property in declaration order (defaults fill the
      flags); with it, exactly the declared properties the input has. */
  lemma {:induction false} ParseFieldsKeys(shape: seq<Field>, optional: bool, input: Obj)
    requires DistinctNames(shape)
    requires Issues(shape, optional, input) == []
    ensures !optional ==> Output(shape, optional, input).keys == Names(shape)
    ensures optional ==>
      forall k :: Has(Output(shape, optional, input), k) <==> k in Names(shape) && Has(input, k)
    decreases |shape|
  {
    if shape != [] {
      var n := |shape| - 1;
      var f := shape[n];
      assert Names(shape) == Names(shape[..n]) + [f.name];
      assert DistinctNames(shape[..n]) by {
        forall i, j | 0 <= i < j < n ensures shape[..n][i].name != shape[..n][j].name {
          assert shape[..n][i] == shape[i] && shape[..n][j] == shape[j];
        }
      }
      assert f.name !in Names(shape[..n]) by {
        forall i | 0 <= i < n ensures Names(shape[..n])[i] != f.name {
          assert shape[..n][i] == shape[i];
        }
      }
      ParseFieldsIssues(shape, optional, input);
      assert Accepts(shape[n], optional, input);
      ParseFieldsKeys(shape[..n], optional, input);
      ParseFieldsGet(shape[..n], optional, input, f.name);
      if optional && !Has(input, f.name) {
        assert Get(input, f.name) == Undefined;
      }
    }
  }

  /** The parsed object is a proper object: each property listed once. */
  lemma {:induction false} OutputWellFormed(shape: seq<Field>, optional: bool, input: Obj)
    ensures WellFormed(Output(shape, optional, input))
    decreases |shape|
  {
    if shape != [] {
      OutputWellFormed(shape[..|shape| - 1], optional, input);
    }
  }

  lemma ArtworkShapeFacts()
    ensures DistinctNames(ArtworkShape)
    ensures forall i :: 0 <= i < |ArtworkShape| && ArtworkShape[i].kind.Flag? ==>
      ArtworkShape[i].name == "isAvailable" || ArtworkShape[i].name == "isFeatured"
    ensures ArtworkShape[9] == Field("isAvailable", Flag(true))
    ensures ArtworkShape[10] == Field("isFeatured", Flag(false))
  {
  }

  /** The declared property names, in order. */
  lemma ArtworkNames()
    ensures Names(ArtworkShape) == ["title", "description", "price", "imageUrl", "style", "medium",
                                    "width", "height", "year", "isAvailable", "isFeatured"]
  {
  }

  /** Neither the record id nor the owner is a declared property. */
  lemma Undeclared()
    ensures "id" !in Names(ArtworkShape) && "artistId" !in Names(ArtworkShape)
  {
    ArtworkNames();
  }

  /** The body `insertArtworkSchema` is written to accept: title, price and
      imageUrl are strings (any string: no number format, no sign check),
      description, style and medium are strings or null, width, height and
      year are numbers or null (all six must be present: nullable is not
      optional), and the two flags are booleans or absent. */
  predicate InsertableBody(input: Obj) {
    && Get(input, "title").Str?
    && (Get(input, "description").Str? || Get(input, "description").Null?)
    && Get(input, "price").Str?
    && Get(input, "imageUrl").Str?
    && (Get(input, "style").Str? || Get(input, "style").Null?)
    && (Get(input, "medium").Str? || Get(input, "medium").Null?)
    && (Get(input, "width").Num? || Get(input, "width").Null?)
    && (Get(input, "height").Num? || Get(input, "height").Null?)
    && (Get(input, "year").Num? || Get(input, "year").Null?)
    && (Get(input, "isAvailable").Bool? || Get(input, "isAvailable").Undefined?)
    && (Get(input, "isFeatured").Bool? || Get(input, "isFeatured").Undefined?)
  }

  /** `insertArtworkSchema.parse` succeeds exactly on the insertable bodies. */
  lemma InsertAccepts(input: Obj)
    ensures ParseInsert(input).Ok? <==> InsertableBody(input)
  {
    ParseFieldsIssues(ArtworkShape, false, input);
    if InsertableBody(input) {
      InsertableAccepted(input);
    } else {
      NotInsertableRefused(input);
    }
  }

  lemma InsertableAccepted(input: Obj)
    requires InsertableBody(input)
    ensures forall i :: 0 <= i < |ArtworkShape| ==> Accepts(ArtworkShape[i], false, input)
  {
    var s := ArtworkShape;
    forall i | 0 <= i < |s| ensures Accepts(s[i], false, input) {
      assert s[i] == Field("title", Text) || s[i] == Field("description", NullableText) || s[i] == Field("price", Text)
        || s[i] == Field("imageUrl", Text) || s[i] == Field("style", NullableText) || s[i] == Field("medium", NullableText)
        || s[i] == Field("width", NullableNumber) || s[i] == Field("height", NullableNumber) || s[i] == Field("year", NullableNumber)
        || s[i] == Field("isAvailable", Flag(true)) || s[i] == Field("isFeatured", Flag(false));
    }
  }

  lemma NotInsertableRefused(input: Obj)
    requires !InsertableBody(input)
    ensures !forall i :: 0 <= i < |ArtworkShape| ==> Accepts(ArtworkShape[i], false, input)
  {
    var s := ArtworkShape;
    assert !(Accepts(s[0], false, input) && Accepts(s[1], false, input) && Accepts(s[2], false, input)
      && Accepts(s[3], false, input) && Accepts(s[4], false, input) && Accepts(s[5], false, input)
      && Accepts(s[6], false, input) && Accepts(s[7], false, input) && Accepts(s[8], false, input)
      && Accepts(s[9], false, input) && Accepts(s[10], false, input));
  }

  /** What a successful insert parse yields: all eleven declared properties in
      declaration order, every value as given except that absent flags take
      their defaults (isAvailable true, isFeatured false); any other property
      of the input (an `artistId`, an `id`) is dropped. */
  lemma InsertOutput(input: Obj, k: string)
    requires ParseInsert(input).Ok?
    ensures var out := ParseInsert(input).value;
      && out.keys == Names(ArtworkShape)
      && (k !in Names(ArtworkShape) ==> !Has(out, k))
      && (k in Names(ArtworkShape) && k != "isAvailable" && k != "isFeatured" ==> Get(out, k) == Get(input, k))
      && Get(out, "isAvailable") == (if Get(input, "isAvailable").Undefined? then Bool(true) else Get(input, "isAvailable"))
      && Get(out, "isFeatured") == (if Get(input, "isFeatured").Undefined? then Bool(false) else Get(input, "isFeatured"))
  {
    ArtworkShapeFacts();
    var s := ArtworkShape;
    ParseFieldsKeys(s, false, input);
    ParseFieldsGet(s, false, input, k);
    ParseFieldsGet(s, false, input, "isAvailable");
    ParseFieldsGet(s, false, input, "isFeatured");
    KindOfAt(s, 9);
    KindOfAt(s, 10);
    if k in Names(s) && k != "isAvailable" && k != "isFeatured" {
      var i :| 0 <= i < |s| && s[i].name == k;
      KindOfAt(s, i);
      ParseValueKeeps(s[i].kind, false, Get(input, k));
    }
  }

  /** `updateArtworkSchema` accepts the empty body and yields the empty object. */
  lemma UpdateAcceptsEmpty()
    ensures ParseUpdate(EmptyObject) == Ok(EmptyObject)
  {
    ParseFieldsIssues(ArtworkShape, true, EmptyObject);
    ArtworkShapeFacts();
    ParseFieldsKeys(ArtworkShape, true, EmptyObject);
    var out := ParseUpdate(EmptyObject).value;
    OutputWellFormed(ArtworkShape, true, EmptyObject);
    assert out.keys == [] by {
      if out.keys != [] {
        assert Has(out, out.keys[0]);
      }
    }
  }

  /** A successful update parse keeps exactly the declared properties the body
      has, each with its value unchanged, and applies no defaults. */
  lemma UpdateOutput(input: Obj, k: string)
    requires ParseUpdate(input).Ok?
    ensures var out := ParseUpdate(input).value;
      && (Has(out, k) <==> k in Names(ArtworkShape) && Has(input, k))
      && Get(out, k) == (if k in Names(ArtworkShape) then Get(input, k) else Undefined)
  {
    ArtworkShapeFacts();
    ParseFieldsKeys(ArtworkShape, true, input);
    ParseFieldsGet(ArtworkShape, true, input, k);
    if k in Names(ArtworkShape) {
      ParseValueKeeps(KindOf(ArtworkShape, k), true, Get(input, k));
    }
  }

  /** The update schema accepts a body exactly when every declared property
      it carries has the insert type (flags: booleans); absent ones are fine. */
  lemma UpdateAccepts(input: Obj)
    ensures ParseUpdate(input).Ok? <==>
      forall i :: 0 <= i < |ArtworkShape| ==>
        Get(input, ArtworkShape[i].name).Undefined? || Accepts(ArtworkShape[i], false, input)
  {
    ParseFieldsIssues(ArtworkShape, true, input);
  }

  /** The `artworks` map names each property once and each column once. */
  lemma ArtworkColumnsDistinct()
    ensures forall i, j :: 0 <= i < j < |ArtworkColumns| ==> ArtworkColumns[i].0 != ArtworkColumns[j].0
    ensures forall i, j :: 0 <= i < j < |ArtworkColumns| ==> ArtworkColumns[i].1 != ArtworkColumns[j].1
  {
  }
}
