/** The projection of one MongoDB document onto the flat row inserted into
    the model's SQL table (v3-mongodb-v3-sql/transform.js). */
module Transform {

  import opened Wrappers
  import opened Js
  import opened Schema

  /** Models whose rows get a `uuid` column filled from the document id.
      This list is the projection's own and is shorter than the one the
      attribute fixes use. */
  const ModelsWithUuid: seq<string> := [
    "application::website.website",
    "application::plan.plan",
    "application::sk-token.sk-token",
    "application::sk-request.sk-request",
    "application::sk-memory.sk-memory",
    "plugins::users-permissions.user"
  ]

  /** Models whose rows get a `deleted` column. */
  const ModelsWithDeleted: seq<string> := [
    "application::website.website",
    "application::plan.plan",
    "application::sk-token.sk-token",
    "application::sk-request.sk-request",
    "application::sk-memory.sk-memory",
    "plugins::users-permissions.user"
  ]

  /** `isScalar`: the attribute has a `type` that is neither `component` nor
      `dynamiczone`; relations (which have no `type`) are not scalar. */
  predicate IsScalar(a: Attribute): (r: bool)
    ensures a.ty.None? ==> !r
    ensures a.ty == Some("component") || a.ty == Some("dynamiczone") ==> !r
    ensures a.ty.Some? && a.ty != Some("component") && a.ty != Some("dynamiczone") ==> r
  {
    a.ty.Some? && a.ty.value != "component" && a.ty.value != "dynamiczone"
  }

  /** The timestamp field names used when the model does not say otherwise. */
  const DefaultTimestamps: seq<string> := ["createdAt", "updatedAt"]

  /** `getTimestampKeys`: the names of the creation and update timestamps in
      the model's documents. An absent option or `true` gives the default
      names, `false` gives none, a two-element array gives its own names and
      anything else is an error. */
  function TimestampKeys(model: ModelDef): (r: Result<seq<string>, MigrationError>)
    ensures r.Err? <==> match model.timestamps
      case TsNames(names) => |names| != 2
      case TsOther => true
      case _ => false
    ensures r.Err? ==> r.error == BadTimestamps(model.uid)
    ensures r.Ok? ==> |r.value| == 0 || |r.value| == 2
    ensures r == Ok([]) <==> model.timestamps == TsFlag(false)
    ensures model.timestamps == TsAbsent || model.timestamps == TsFlag(true) ==> r == Ok(["createdAt", "updatedAt"])
    ensures model.timestamps.TsNames? && |model.timestamps.names| == 2 ==> r == Ok(model.timestamps.names)
  {
    match model.timestamps
    case TsAbsent => Ok(DefaultTimestamps)
    case TsFlag(on) => if on then Ok(DefaultTimestamps) else Ok([])
    case TsNames(names) => if |names| == 2 then Ok(names) else Err(BadTimestamps(model.uid))
    case TsOther => Err(BadTimestamps(model.uid))
  }

  /** The columns written first: `uuid` and `deleted`, for the listed
      models. */
  function IdColumns(entry: Object<Value>, model: ModelDef, lib: Lib): (r: Object<Value>)
    ensures forall k :: k in r.vals ==> k == "uuid" || k == "deleted"
  {
    var empty: Object<Value> := Rec([], map[]);
    var withUuid := if model.uid in ModelsWithUuid
      then Put(empty, "uuid", Str(lib.idString(Get(entry, "_id")))) else empty;
    var deleted := Get(entry, "deleted");
    if model.uid in ModelsWithDeleted
      then Put(withUuid, "deleted", if Truthy(deleted) then deleted else Bool(false)) else withUuid
  }

  /** The columns written next: `created_at` and `updated_at`, when the
      corresponding timestamp name is a non-empty string. */
  function TimestampColumns(row: Object<Value>, entry: Object<Value>, keys: seq<string>): (r: Object<Value>)
    ensures forall k :: k != "created_at" && k != "updated_at" ==>
      (k in r.vals <==> k in row.vals) && (k in row.vals ==> r.vals[k] == row.vals[k])
  {
    var withCreated := if |keys| > 0 && keys[0] != ""
      then Put(row, "created_at", Get(entry, keys[0])) else row;
    if |keys| > 1 && keys[1] != "" then Put(withCreated, "updated_at", Get(entry, keys[1])) else withCreated
  }

  /** The columns written before the attributes are visited. */
  function BaseRow(entry: Object<Value>, model: ModelDef, keys: seq<string>, lib: Lib): Object<Value>
  {
    TimestampColumns(IdColumns(entry, model, lib), entry, keys)
  }

  /** The value a scalar attribute contributes to the row, if any. A field
      the document has is copied, JSON-encoded when the type is `json`; a
      field it lacks takes the attribute's default, encoded likewise, but
      only when that default is truthy. */
  function ScalarValue(entry: Object<Value>, a: Attribute, key: string, lib: Lib): Option<Value>
  {
    var isJson := a.ty == Some("json");
    if !IsScalar(a) then None
    else if key !in entry.vals then
      if Truthy(a.defaultValue) then Some(if isJson then Str(lib.stringify(a.defaultValue)) else a.defaultValue)
      else None
    else if isJson then Some(Str(lib.stringify(entry.vals[key])))
    else Some(entry.vals[key])
  }

  /** One step of the `forEach` over the model's attributes. */
  function AddColumn(row: Object<Value>, entry: Object<Value>, attributes: Object<Attribute>, key: string, lib: Lib): Object<Value>
    requires key in attributes.vals
  {
    match ScalarValue(entry, attributes.vals[key], key, lib)
    case None => row
    case Some(v) => Put(row, key, v)
  }

  /** The row after visiting the attributes named by `keys`, in order. */
  function Columns(row: Object<Value>, entry: Object<Value>, attributes: Object<Attribute>, keys: seq<string>, lib: Lib): Object<Value>
    requires forall k :: k in keys ==> k in attributes.vals
    decreases |keys|
  {
    if |keys| == 0 then row
    else
      var n := |keys| - 1;
      AddColumn(Columns(row, entry, attributes, keys[..n], lib), entry, attributes, keys[n], lib)
  }

  /** What `transformEntry` returns for a document of a model. */
  function RowOf(entry: Object<Value>, model: ModelDef, lib: Lib): Result<Object<Value>, MigrationError>
  {
    match TimestampKeys(model)
    case Err(e) => Err(e)
    case Ok(keys) => Ok(Columns(BaseRow(entry, model, keys, lib), entry, model.attributes, model.attributes.order, lib))
  }

  /** `transformEntry`: builds the row step by step, the base columns first
      and then one column per scalar attribute, in the order of the model's
      attributes. Neither the document nor the model is changed. */
  method TransformEntry(entry: Object<Value>, model: ModelDef, lib: Lib) returns (r: Result<Object<Value>, MigrationError>)
    ensures r == RowOf(entry, model, lib)
  {
    var keys := TimestampKeys(model);
    if keys.Err? {
      return Err(keys.error);
    }
    var res := BaseRow(entry, model, keys.value, lib);
    ghost var base := res;
    var order := model.attributes.order;
    for i := 0 to |order|
      invariant res == Columns(base, entry, model.attributes, order[..i], lib)
    {
      ColumnsSnoc(base, entry, model.attributes, order, i, lib);
      var key := order[i];
      var attribute := model.attributes.vals[key];
      if IsScalar(attribute) {
        var isJson := attribute.ty == Some("json");
        if key !in entry.vals {
          if Truthy(attribute.defaultValue) && isJson {
            res := Put(res, key, Str(lib.stringify(attribute.defaultValue)));
          } else if Truthy(attribute.defaultValue) {
            res := Put(res, key, attribute.defaultValue);
          }
        } else if isJson {
          res := Put(res, key, Str(lib.stringify(entry.vals[key])));
        } else {
          res := Put(res, key, entry.vals[key]);
        }
      }
    }
    assert order[..|order|] == order;
    return Ok(res);
  }

  /** Visiting one more attribute adds its column to those before it. */
  lemma ColumnsSnoc(row: Object<Value>, entry: Object<Value>, attributes: Object<Attribute>, keys: seq<string>, i: nat, lib: Lib)
    requires forall k :: k in keys ==> k in attributes.vals
    requires i < |keys|
    ensures Columns(row, entry, attributes, keys[..i + 1], lib)
         == AddColumn(Columns(row, entry, attributes, keys[..i], lib), entry, attributes, keys[i], lib)
  {
    assert keys[..i + 1][..i] == keys[..i];
  }

  // ---------------------------------------------------------------------
  // What the row holds
  // ---------------------------------------------------------------------

  /** Visiting attributes only adds columns for scalar attributes among the
      visited ones; every other column keeps its value. */
  lemma {:induction false} ColumnsFrame(row: Object<Value>, entry: Object<Value>, attributes: Object<Attribute>, keys: seq<string>, lib: Lib)
    requires forall k :: k in keys ==> k in attributes.vals
    ensures var r := Columns(row, entry, attributes, keys, lib);
      forall k :: k in r.vals ==> k in row.vals || (k in keys && IsScalar(attributes.vals[k]))
    ensures var r := Columns(row, entry, attributes, keys, lib);
      forall k :: k !in keys ==> (k in r.vals <==> k in row.vals) && (k in row.vals ==> r.vals[k] == row.vals[k])
    decreases |keys|
  {
    if |keys| > 0 {
      var n := |keys| - 1;
      ColumnsFrame(row, entry, attributes, keys[..n], lib);
      assert keys == keys[..n] + [keys[n]];
    }
  }

  /** The column of a visited attribute, visited once, holds the value it
      contributes; an attribute that contributes nothing leaves the column
      as it was. */
  lemma {:induction false} ColumnsValue(row: Object<Value>, entry: Object<Value>, attributes: Object<Attribute>, keys: seq<string>, k: string, lib: Lib)
    requires forall x :: x in keys ==> x in attributes.vals
    requires Distinct(keys) && k in keys
    ensures var r := Columns(row, entry, attributes, keys, lib);
      match ScalarValue(entry, attributes.vals[k], k, lib)
      case Some(v) => k in r.vals && r.vals[k] == v
      case None => (k in r.vals <==> k in row.vals) && (k in row.vals ==> r.vals[k] == row.vals[k])
    decreases |keys|
  {
    var n := |keys| - 1;
    var prefix := keys[..n];
    assert keys == prefix + [keys[n]];
    if keys[n] == k {
      assert k !in prefix by {
        forall j | 0 <= j < n ensures prefix[j] != k {
          assert keys[j] != keys[n];
        }
      }
      ColumnsFrame(row, entry, attributes, prefix, lib);
    } else {
      assert k in prefix;
      assert Distinct(prefix) by {
        forall i, j | 0 <= i < j < |prefix| ensures prefix[i] != prefix[j] {
          assert keys[i] != keys[j];
        }
      }
      ColumnsValue(row, entry, attributes, prefix, k, lib);
    }
  }

  /** A row's columns are the fixed `uuid`, `deleted`, `created_at` and
      `updated_at` and the model's scalar attributes: relation, component
      and dynamic-zone attributes never become columns. */
  lemma RowColumns(entry: Object<Value>, model: ModelDef, lib: Lib)
    requires RowOf(entry, model, lib).Ok?
    ensures forall k :: k in RowOf(entry, model, lib).value.vals ==>
      k in {"uuid", "deleted", "created_at", "updated_at"} ||
      (k in model.attributes.vals && IsScalar(model.attributes.vals[k]))
  {
    var keys := TimestampKeys(model).value;
    var base := BaseRow(entry, model, keys, lib);
    ColumnsFrame(base, entry, model.attributes, model.attributes.order, lib);
  }

  /** The column of a scalar attribute holds the document's field,
      JSON-encoded for `json`, or else the attribute's truthy default. A
      scalar the document lacks whose default is falsy gets no column of its
      own. */
  lemma RowScalar(entry: Object<Value>, model: ModelDef, k: string, lib: Lib)
    requires RowOf(entry, model, lib).Ok? && k in model.attributes.vals
    ensures var row := RowOf(entry, model, lib).value;
      var a := model.attributes.vals[k];
      && (IsScalar(a) && k in entry.vals ==>
            k in row.vals && row.vals[k] == if a.ty == Some("json") then Str(lib.stringify(entry.vals[k])) else entry.vals[k])
      && (IsScalar(a) && k !in entry.vals && Truthy(a.defaultValue) ==>
            k in row.vals && row.vals[k] == if a.ty == Some("json") then Str(lib.stringify(a.defaultValue)) else a.defaultValue)
      && (k !in {"uuid", "deleted", "created_at", "updated_at"} && (!IsScalar(a) || (k !in entry.vals && !Truthy(a.defaultValue))) ==>
            k !in row.vals)
  {
    var keys := TimestampKeys(model).value;
    var base := BaseRow(entry, model, keys, lib);
    ColumnsValue(base, entry, model.attributes, model.attributes.order, k, lib);
  }

  /** The timestamp columns of the base row. */
  lemma BaseRowTimestamps(entry: Object<Value>, model: ModelDef, keys: seq<string>, lib: Lib)
    ensures var base := BaseRow(entry, model, keys, lib);
      && ("created_at" in base.vals <==> |keys| > 0 && keys[0] != "")
      && ("created_at" in base.vals ==> base.vals["created_at"] == Get(entry, keys[0]))
      && ("updated_at" in base.vals <==> |keys| > 1 && keys[1] != "")
      && ("updated_at" in base.vals ==> base.vals["updated_at"] == Get(entry, keys[1]))
  {
    var ids := IdColumns(entry, model, lib);
    assert "created_at" !in ids.vals && "updated_at" !in ids.vals;
  }

  /** The `uuid` and `deleted` columns of the base row. */
  lemma BaseRowUuidDeleted(entry: Object<Value>, model: ModelDef, keys: seq<string>, lib: Lib)
    ensures var base := BaseRow(entry, model, keys, lib);
      && (model.uid in ModelsWithUuid ==>
            "uuid" in base.vals && base.vals["uuid"] == Str(lib.idString(Get(entry, "_id"))))
      && (model.uid in ModelsWithDeleted ==>
            "deleted" in base.vals &&
            base.vals["deleted"] == if Truthy(Get(entry, "deleted")) then Get(entry, "deleted") else Bool(false))
  {
    var empty: Object<Value> := Rec([], map[]);
    var withUuid := if model.uid in ModelsWithUuid
      then Put(empty, "uuid", Str(lib.idString(Get(entry, "_id")))) else empty;
    assert IdColumns(entry, model, lib).vals == if model.uid in ModelsWithDeleted
      then withUuid.vals["deleted" := if Truthy(Get(entry, "deleted")) then Get(entry, "deleted") else Bool(false)]
      else withUuid.vals;
  }

  /** `created_at` (and `updated_at`) hold the document's field named by the
      first (second) timestamp name when that name is a non-empty string;
      otherwise, and in particular when timestamps are switched off, the row
      has no such column unless a scalar attribute of that name supplies
      one. */
  lemma RowTimestamps(entry: Object<Value>, model: ModelDef, lib: Lib)
    requires RowOf(entry, model, lib).Ok?
    ensures var row := RowOf(entry, model, lib).value;
      var keys := TimestampKeys(model).value;
      && ("created_at" !in model.attributes.vals ==>
            ("created_at" in row.vals <==> |keys| > 0 && keys[0] != "") &&
            ("created_at" in row.vals ==> row.vals["created_at"] == Get(entry, keys[0])))
      && ("updated_at" !in model.attributes.vals ==>
            ("updated_at" in row.vals <==> |keys| > 1 && keys[1] != "") &&
            ("updated_at" in row.vals ==> row.vals["updated_at"] == Get(entry, keys[1])))
  {
    var keys := TimestampKeys(model).value;
    var base := BaseRow(entry, model, keys, lib);
    BaseRowTimestamps(entry, model, keys, lib);
    ColumnsFrame(base, entry, model.attributes, model.attributes.order, lib);
  }

  /** The listed models' rows get `uuid` as the string of the document id
      and `deleted` as the document's `deleted` when truthy, else `false`,
      unless a scalar attribute of the same name writes its own value over
      it afterwards. */
  lemma RowUuidDeleted(entry: Object<Value>, model: ModelDef, lib: Lib)
    requires RowOf(entry, model, lib).Ok?
    ensures var row := RowOf(entry, model, lib).value;
      var a := model.attributes.vals;
      && (model.uid in ModelsWithUuid && ("uuid" !in a || ScalarValue(entry, a["uuid"], "uuid", lib).None?) ==>
            "uuid" in row.vals && row.vals["uuid"] == Str(lib.idString(Get(entry, "_id"))))
      && (model.uid in ModelsWithDeleted && ("deleted" !in a || ScalarValue(entry, a["deleted"], "deleted", lib).None?) ==>
            "deleted" in row.vals &&
            row.vals["deleted"] == if Truthy(Get(entry, "deleted")) then Get(entry, "deleted") else Bool(false))
  {
    var keys := TimestampKeys(model).value;
    var base := BaseRow(entry, model, keys, lib);
    var order := model.attributes.order;
    BaseRowUuidDeleted(entry, model, keys, lib);
    ColumnsFrame(base, entry, model.attributes, order, lib);
    if "uuid" in model.attributes.vals {
      ColumnsValue(base, entry, model.attributes, order, "uuid", lib);
    }
    if "deleted" in model.attributes.vals {
      ColumnsValue(base, entry, model.attributes, order, "deleted", lib);
    }
  }
}
