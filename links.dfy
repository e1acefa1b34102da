/** The second pass of the migration: for one field of one document, the
    rows and updates that link it to components, uploaded files and related
    documents (v3-mongodb-v3-sql/index.js). Writes are described, not made:
    an id cell names the document id whose new integer id the identifier map
    supplies when the write is made. */
module Links {

  import opened Wrappers
  import opened Js
  import opened Strings
  import opened Schema

  // ---------------------------------------------------------------------
  // Join-table names
  // ---------------------------------------------------------------------

  /** JavaScript's `<` between two possibly undefined strings: a comparison
      with `undefined` is false. */
  predicate OptLess(x: Option<string>, y: Option<string>)
  {
    x.Some? && y.Some? && LexLess(x.value, y.value)
  }

  /** The comparator of `getCollectionName`'s sort: on equal collections the
      dominant side sorts after the other; otherwise by collection name. */
  function Compare(a: Attribute, b: Attribute): int
  {
    if a.collection == b.collection then (if a.dominant then 1 else -1)
    else if OptLess(a.collection, b.collection) then -1
    else 1
  }

  /** `[a, b].sort(cmp)` as V8 sorts two elements: the second element is
      compared with the first once, and moves in front when the comparator
      says it is smaller. */
  function SortPair(a: Attribute, b: Attribute): (r: (Attribute, Attribute))
    ensures r == (a, b) || r == (b, a)
    ensures a.collection == b.collection ==> r == if b.dominant then (a, b) else (b, a)
    ensures a.collection.Some? && b.collection.Some? && a.collection != b.collection ==>
      LexLess(r.0.collection.value, r.1.collection.value)
    ensures a.collection.None? != b.collection.None? ==> r == (a, b)
  {
    if a.collection.Some? && b.collection.Some? then
      LexLessTotal(a.collection.value, b.collection.value);
      if Compare(b, a) < 0 then (b, a) else (a, b)
    else if Compare(b, a) < 0 then (b, a) else (a, b)
  }

  /** One half of a generated join-table name. */
  function TablePart(t: Attribute, lib: Lib): string
  {
    lib.snakeCase(lib.plural(t.collection) + "_" + lib.plural(t.via))
  }

  /** No explicit join-table name applies to the pair. */
  predicate NoOverride(a: Attribute, b: Attribute)
  {
    !(a.dominant && a.collectionName.Some?) && !(b.dominant && b.collectionName.Some?)
  }

  /** `getCollectionName`: a dominant side's explicit `collectionName`, the
      first side's first; otherwise the two sides' generated halves, sorted,
      joined by `__`. */
  function GetCollectionName(a: Attribute, b: Attribute, lib: Lib): (name: string)
    ensures a.dominant && a.collectionName.Some? ==> name == a.collectionName.value
    ensures !(a.dominant && a.collectionName.Some?) && b.dominant && b.collectionName.Some? ==>
      name == b.collectionName.value
  {
    if a.dominant && a.collectionName.Some? then a.collectionName.value
    else if b.dominant && b.collectionName.Some? then b.collectionName.value
    else
      var (first, second) := SortPair(a, b);
      TablePart(first, lib) + "__" + TablePart(second, lib)
  }

  /** Without an override, two sides with different collections get the
      same name whichever is asked first: the side whose collection is
      smaller comes first. */
  lemma JoinNameByCollection(a: Attribute, b: Attribute, lib: Lib)
    requires NoOverride(a, b) && a.collection.Some? && b.collection.Some? && a.collection != b.collection
    ensures GetCollectionName(a, b, lib) == GetCollectionName(b, a, lib)
    ensures LexLess(a.collection.value, b.collection.value) ==>
      GetCollectionName(a, b, lib) == TablePart(a, lib) + "__" + TablePart(b, lib)
  {
    LexLessTotal(a.collection.value, b.collection.value);
  }

  /** Without an override, two sides of the same collection of which exactly
      one is dominant get the same name whichever is asked first: the
      dominant side comes last. */
  lemma JoinNameDominantLast(a: Attribute, b: Attribute, lib: Lib)
    requires NoOverride(a, b) && a.collection == b.collection && a.dominant && !b.dominant
    ensures GetCollectionName(a, b, lib) == TablePart(b, lib) + "__" + TablePart(a, lib)
    ensures GetCollectionName(b, a, lib) == TablePart(b, lib) + "__" + TablePart(a, lib)
  {
  }

  /** When the sides have the same collection and dominance the name
      depends on which side is asked first: when both are dominant the first
      side's part comes first, and when neither is, the second side's. */
  lemma JoinNameTie(a: Attribute, b: Attribute, lib: Lib)
    requires NoOverride(a, b) && a.collection == b.collection && a.dominant == b.dominant
    ensures b.dominant ==> GetCollectionName(a, b, lib) == TablePart(a, lib) + "__" + TablePart(b, lib)
    ensures !b.dominant ==> GetCollectionName(a, b, lib) == TablePart(b, lib) + "__" + TablePart(a, lib)
  {
  }

  // ---------------------------------------------------------------------
  // The inverse side of a relation and its classification
  // ---------------------------------------------------------------------

  /** The `find` predicate for the target of a relation: a model whose
      `modelName` is the attribute's `model` or `collection` (an undefined
      `modelName` matches an undefined one), of the attribute's plugin when
      it names one. */
  predicate Targets(m: ModelDef, a: Attribute)
  {
    (m.modelName == a.model || m.modelName == a.collection) &&
    (!TruthyStr(a.plugin) || a.plugin == m.plugin)
  }

  /** The first model that is the target of `a`. */
  function FindTarget(models: seq<ModelDef>, a: Attribute): (r: Option<nat>)
    ensures r.Some? ==> r.value < |models| && Targets(models[r.value], a)
    ensures r.Some? ==> forall k :: 0 <= k < r.value ==> !Targets(models[k], a)
    ensures r.None? ==> forall k :: 0 <= k < |models| ==> !Targets(models[k], a)
  {
    if |models| == 0 then None
    else if Targets(models[0], a) then Some(0)
    else match FindTarget(models[1..], a)
      case None => None
      case Some(i) => Some(i + 1)
  }

  /** `targetModel?.attributes?.[attribute.via]`: the inverse attribute, if
      there is a target and it has one under that name. */
  function TargetAttribute(models: seq<ModelDef>, a: Attribute): Option<Attribute>
  {
    match FindTarget(models, a)
    case None => None
    case Some(i) =>
      var key := PropertyKey(a.via);
      if key in models[i].attributes.vals then Some(models[i].attributes.vals[key]) else None
  }

  /** What a relation attribute writes, by the first of the script's flags
      that holds. `Inline` is a one-way, one-to-one or many-to-one relation,
      stored as a column of the owner's row; `Unlinked` is every relation no
      flag covers, morph (`*`) relations among them. */
  datatype RelationKind = Inline | OneToMany | ManyWay | ManyToMany | Unlinked

  /** The `model` of the inverse side is a real (non-morph) target. */
  predicate InverseIsModel(t: Option<Attribute>)
  {
    t.Some? && TruthyStr(t.value.model) && t.value.model != Some("*")
  }

  /** The `collection` of the inverse side is a real (non-morph) target. */
  predicate InverseIsCollection(t: Option<Attribute>)
  {
    t.Some? && TruthyStr(t.value.collection) && t.value.collection != Some("*")
  }

  /** The flags `isOneWay` … `isManyToMany`, tested in the script's order. */
  function Classify(a: Attribute, target: Option<Attribute>): (r: RelationKind)
    ensures r == Inline <==>
      TruthyStr(a.model) &&
      if TruthyStr(a.via) then InverseIsModel(target) || InverseIsCollection(target) else a.model != Some("*")
    ensures r == OneToMany <==>
      r != Inline && TruthyStr(a.collection) && TruthyStr(a.via) && InverseIsModel(target)
    ensures r == ManyWay <==>
      r != Inline && TruthyStr(a.collection) && !TruthyStr(a.via) && a.collection != Some("*")
    ensures r == ManyToMany <==>
      r != Inline && TruthyStr(a.collection) && TruthyStr(a.via) && InverseIsCollection(target) && !InverseIsModel(target)
    ensures r == Unlinked <==>
      && (TruthyStr(a.model) ==>
            if TruthyStr(a.via) then !InverseIsModel(target) && !InverseIsCollection(target) else a.model == Some("*"))
      && (TruthyStr(a.collection) ==>
            if TruthyStr(a.via) then !InverseIsModel(target) && !InverseIsCollection(target)
            else a.collection == Some("*"))
  {
    var model := TruthyStr(a.model);
    var collection := TruthyStr(a.collection);
    var via := TruthyStr(a.via);
    var isOneWay := model && !via && a.model != Some("*");
    var isOneToOne := model && via && InverseIsModel(target);
    var isManyToOne := model && via && InverseIsCollection(target);
    var isOneToMany := collection && via && InverseIsModel(target);
    var isManyWay := collection && !via && a.collection != Some("*");
    var isManyToMany := collection && via && InverseIsCollection(target);
    if isOneWay || isOneToOne || isManyToOne then Inline
    else if isOneToMany then OneToMany
    else if isManyWay then ManyWay
    else if isManyToMany then ManyToMany
    else Unlinked
  }

  // ---------------------------------------------------------------------
  // Intended writes
  // ---------------------------------------------------------------------

  /** A cell of an intended row. `NewId` is `idMap.next(src, table)`, a new
      id for the document id `src`; `IdOf` is `idMap.get(src)`. */
  datatype Cell = NewId(src: Value, table: string) | IdOf(src: Value) | Text(s: string) | Int(n: int)

  /** A row to insert, by column name. */
  type Row = map<string, Cell>

  /** An insert of rows into a table, or an update of one column of the row
      whose `id` is `where`. */
  datatype Write =
    | Insert(table: string, rows: seq<Row>)
    | Update(table: string, column: string, value: Cell, where: Cell)

  /** The insert made only when there is at least one row. */
  function InsertIfAny(table: string, rows: seq<Row>): (w: seq<Write>)
    ensures |rows| == 0 <==> w == []
    ensures |rows| > 0 ==> w == [Insert(table, rows)]
  {
    if |rows| > 0 then [Insert(table, rows)] else []
  }

  /** `value.map`: a value that is not an array has no `map` method. */
  function Items(value: Value, key: string): (r: Result<seq<Value>, MigrationError>)
    ensures r.Ok? <==> value.Arr?
    ensures r.Ok? ==> r.value == value.items
    ensures r.Err? ==> r.error == NotAnArray(key)
  {
    if value.Arr? then Ok(value.items) else Err(NotAnArray(key))
  }

  /** `items.map((item, idx) => f(item, idx))`, where a callback that throws
      stops the map. */
  function MapIndexed<T>(items: seq<Value>, f: (Value, nat) -> Result<T, MigrationError>): (r: Result<seq<T>, MigrationError>)
    ensures r.Ok? <==> forall i :: 0 <= i < |items| ==> f(items[i], i).Ok?
    ensures r.Ok? ==> |r.value| == |items| && forall i :: 0 <= i < |items| ==> f(items[i], i) == Ok(r.value[i])
    ensures r.Err? ==> exists i :: 0 <= i < |items| && f(items[i], i) == Err(r.error) &&
                                   forall j :: 0 <= j < i ==> f(items[j], j).Ok?
    decreases |items|
  {
    if |items| == 0 then Ok([])
    else
      var n := |items| - 1;
      assert forall i :: 0 <= i < n ==> items[..n][i] == items[i];
      match MapIndexed(items[..n], f)
      case Err(e) => Err(e)
      case Ok(rows) =>
        match f(items[n], n)
        case Err(e) => Err(e)
        case Ok(row) => Ok(rows + [row])
  }

  /** The row linking the owner to the `idx`-th component of a component
      field. Reading `_id` of a missing element throws first; a component
      uid that is no model throws when its table name is read. */
  function ComponentRow(link: Value, idx: nat, key: string, linkTable: string, component: Option<string>,
                        componentTable: Option<string>, ownerColumn: string, owner: Value): Result<Row, MigrationError>
  {
    match Prop(link, "_id")
    case None => Err(NullReference(key))
    case Some(id) =>
      if componentTable.None? then Err(MissingComponentModel(PropertyKey(component)))
      else
        var ref := Prop(link, "ref").value;
        Ok(map[]["id" := NewId(id, linkTable)]["field" := Text(key)]["order" := Int(idx + 1)]
          ["component_type" := Text(componentTable.value)]["component_id" := IdOf(ref)][ownerColumn := IdOf(owner)])
  }

  /** The model is the one a dynamic-zone element's `kind` names. */
  predicate HasGlobalId(m: ModelDef, kind: Value)
  {
    match m.globalId
    case Some(g) => kind == Str(g)
    case None => kind == Undefined
  }

  /** The first model whose `globalId` is `kind`. */
  function FindByGlobalId(models: seq<ModelDef>, kind: Value): (r: Option<nat>)
    ensures r.Some? ==> r.value < |models| && HasGlobalId(models[r.value], kind)
    ensures r.Some? ==> forall k :: 0 <= k < r.value ==> !HasGlobalId(models[k], kind)
    ensures r.None? ==> forall k :: 0 <= k < |models| ==> !HasGlobalId(models[k], kind)
  {
    if |models| == 0 then None
    else if HasGlobalId(models[0], kind) then Some(0)
    else match FindByGlobalId(models[1..], kind)
      case None => None
      case Some(i) => Some(i + 1)
  }

  /** The row linking the owner to the `idx`-th element of a dynamic zone:
      the element's `kind` is looked up among the models' `globalId`s. */
  function DynamicZoneRow(models: seq<ModelDef>, link: Value, idx: nat, key: string, linkTable: string,
                          ownerColumn: string, owner: Value): Result<Row, MigrationError>
  {
    match Prop(link, "kind")
    case None => Err(NullReference(key))
    case Some(kind) =>
      match FindByGlobalId(models, kind)
      case None => Err(UnknownComponent(kind))
      case Some(c) =>
        Ok(map[]["id" := NewId(Prop(link, "_id").value, linkTable)]["field" := Text(key)]["order" := Int(idx + 1)]
          ["component_type" := Text(models[c].collectionName)]["component_id" := IdOf(Prop(link, "ref").value)]
          [ownerColumn := IdOf(owner)])
  }

  /** A row of `upload_file_morph` attaching file `file` to the owner. */
  function FileRow(file: Value, order: int, owner: Value, ownerTable: string, key: string): Row
  {
    map[]["upload_file_id" := IdOf(file)]["related_id" := IdOf(owner)]["related_type" := Text(ownerTable)]
      ["field" := Text(key)]["order" := Int(order)]
  }

  /** One row per referenced id, linking it to the owner. When the two
      column names are equal the owner's id is the only column. */
  function JoinRows(items: seq<Value>, otherColumn: string, ownerColumn: string, owner: Value): (rows: seq<Row>)
    ensures |rows| == |items|
    ensures forall i :: 0 <= i < |items| ==> rows[i] == map[otherColumn := IdOf(items[i])][ownerColumn := IdOf(owner)]
  {
    seq(|items|, i requires 0 <= i < |items| => map[otherColumn := IdOf(items[i])][ownerColumn := IdOf(owner)])
  }

  /** The link rows of a field whose attribute is `a`, for a relation. */
  function RelationWrites(models: seq<ModelDef>, model: ModelDef, entry: Object<Value>, key: string, a: Attribute, lib: Lib)
    : (r: Result<seq<Write>, MigrationError>)
    ensures r.Ok? ==> FieldWrites(r.value, model, entry, key)
  {
    var value := Get(entry, key);
    var owner := Get(entry, "_id");
    var target := TargetAttribute(models, a);
    match Classify(a, target)
    case Inline =>
      if !Truthy(value) then Ok([])
      else Ok([Update(model.collectionName, key, IdOf(value), IdOf(owner))])
    case OneToMany => Ok([])
    case ManyWay =>
      var table := ManyWayTable(model, key, a, lib);
      var (otherColumn, ownerColumn) := ManyWayColumns(model, a, lib);
      (match Items(value, key)
       case Err(e) => Err(e)
       case Ok(items) => Ok(InsertIfAny(table, JoinRows(items, otherColumn, ownerColumn, owner))))
    case ManyToMany =>
      if !a.dominant then Ok([])
      else
        var inverse := target.value;
        var table := GetCollectionName(a, inverse, lib);
        var (otherColumn, ownerColumn) := ManyToManyColumns(a, inverse, lib);
        (match Items(value, key)
         case Err(e) => Err(e)
         case Ok(items) => Ok(InsertIfAny(table, JoinRows(items, otherColumn, ownerColumn, owner))))
    case Unlinked => Ok([])
  }

  /** The join table of a many-way relation: the attribute's own
      `collectionName` when truthy, else `<table>__<snake_case(key)>`. */
  function ManyWayTable(model: ModelDef, key: string, a: Attribute, lib: Lib): string
  {
    if TruthyStr(a.collectionName) then a.collectionName.value
    else model.collectionName + "__" + lib.snakeCase(key)
  }

  /** The columns of a many-way join row: the referenced side's and the
      owner's foreign keys, the former prefixed with `related_` when the two
      would clash. */
  function ManyWayColumns(model: ModelDef, a: Attribute, lib: Lib): (c: (string, string))
    ensures c.0 != c.1
  {
    var fk := lib.singular(model.collectionName) + "_id";
    var otherFk := lib.singular(PropertyKey(a.collection)) + "_id";
    if otherFk == fk then
      assert |"related_" + otherFk| > |fk|;
      ("related_" + otherFk, fk)
    else (otherFk, fk)
  }

  /** The columns of a dominant many-to-many join row: the owning side's
      foreign key is named after the inverse's collection, or after `via`
      when that clashes with the other one. */
  function ManyToManyColumns(a: Attribute, inverse: Attribute, lib: Lib): (string, string)
  {
    var fk := lib.singular(PropertyKey(inverse.collection)) + "_id";
    var otherFk := lib.singular(PropertyKey(a.collection)) + "_id";
    if otherFk == fk then (otherFk, lib.singular(PropertyKey(a.via)) + "_id") else (otherFk, fk)
  }

  /** The attribute is a single uploaded file. */
  predicate IsSingleFile(a: Attribute)
  {
    a.model == Some("file") && a.plugin == Some("upload")
  }

  /** The attribute is a list of uploaded files. */
  predicate IsMultipleFiles(a: Attribute)
  {
    a.collection == Some("file") && a.plugin == Some("upload")
  }

  /** The callback of the component field's `map`. */
  function ComponentRows(key: string, linkTable: string, component: Option<string>, componentTable: Option<string>,
                         ownerColumn: string, owner: Value): (Value, nat) -> Result<Row, MigrationError>
  {
    (link: Value, idx: nat) => ComponentRow(link, idx, key, linkTable, component, componentTable, ownerColumn, owner)
  }

  /** The callback of the dynamic-zone field's `map`. */
  function DynamicZoneRows(models: seq<ModelDef>, key: string, linkTable: string, ownerColumn: string, owner: Value)
    : (Value, nat) -> Result<Row, MigrationError>
  {
    (link: Value, idx: nat) => DynamicZoneRow(models, link, idx, key, linkTable, ownerColumn, owner)
  }

  /** The links of a component field: one row per element. */
  function ComponentWrites(modelMap: map<string, ModelDef>, model: ModelDef, entry: Object<Value>,
                           key: string, a: Attribute, lib: Lib): (r: Result<seq<Write>, MigrationError>)
    ensures r.Ok? ==> FieldWrites(r.value, model, entry, key)
  {
    var owner := Get(entry, "_id");
    var linkTable := model.collectionName + "_components";
    var ownerColumn := lib.singular(model.collectionName) + "_id";
    var componentUid := PropertyKey(a.component);
    var componentTable := if componentUid in modelMap then Some(modelMap[componentUid].collectionName) else None;
    match Items(Get(entry, key), key)
    case Err(e) => Err(e)
    case Ok(items) =>
      match MapIndexed(items, ComponentRows(key, linkTable, a.component, componentTable, ownerColumn, owner))
      case Err(e) => Err(e)
      case Ok(rows) => Ok(InsertIfAny(linkTable, rows))
  }

  /** The links of a dynamic-zone field: one row per element. */
  function DynamicZoneWrites(models: seq<ModelDef>, model: ModelDef, entry: Object<Value>,
                             key: string, lib: Lib): (r: Result<seq<Write>, MigrationError>)
    ensures r.Ok? ==> FieldWrites(r.value, model, entry, key)
  {
    var owner := Get(entry, "_id");
    var linkTable := model.collectionName + "_components";
    var ownerColumn := lib.singular(model.collectionName) + "_id";
    match Items(Get(entry, key), key)
    case Err(e) => Err(e)
    case Ok(items) =>
      match MapIndexed(items, DynamicZoneRows(models, key, linkTable, ownerColumn, owner))
      case Err(e) => Err(e)
      case Ok(rows) => Ok(InsertIfAny(linkTable, rows))
  }

  /** The `upload_file_morph` row of a single file. */
  function SingleFileWrites(model: ModelDef, entry: Object<Value>, key: string, a: Attribute): (ws: seq<Write>)
    ensures FieldWrites(ws, model, entry, key)
  {
    if IsSingleFile(a)
    then [Insert("upload_file_morph", [FileRow(Get(entry, key), 1, Get(entry, "_id"), model.collectionName, key)])]
    else []
  }

  /** The `upload_file_morph` rows of a list of files, orders 1 to n. */
  function MultipleFileWrites(model: ModelDef, entry: Object<Value>, key: string, a: Attribute)
    : (r: Result<seq<Write>, MigrationError>)
    ensures r.Ok? ==> FieldWrites(r.value, model, entry, key)
  {
    if !IsMultipleFiles(a) then Ok([])
    else match Items(Get(entry, key), key)
      case Err(e) => Err(e)
      case Ok(items) =>
        var owner := Get(entry, "_id");
        Ok(InsertIfAny("upload_file_morph",
          seq(|items|, i requires 0 <= i < |items| => FileRow(items[i], i + 1, owner, model.collectionName, key))))
  }

  /** The file rows, then the relation's own writes: the file branches do
      not stop the field from reaching the relation branch. */
  function FileAndRelationWrites(models: seq<ModelDef>, model: ModelDef, entry: Object<Value>,
                                 key: string, a: Attribute, lib: Lib): (r: Result<seq<Write>, MigrationError>)
    ensures r.Ok? ==> FieldWrites(r.value, model, entry, key)
  {
    match MultipleFileWrites(model, entry, key, a)
    case Err(e) => Err(e)
    case Ok(multiple) =>
      var files := SingleFileWrites(model, entry, key, a) + multiple;
      if !TruthyStr(a.model) && !TruthyStr(a.collection) then Ok(files)
      else match RelationWrites(models, model, entry, key, a, lib)
        case Err(e) => Err(e)
        case Ok(ws) => Ok(files + ws)
  }

  /** The body of the loop over the keys of a document, for the key `key`:
      component links, dynamic-zone links, or the file rows and the
      relation's writes; a single file that is not set skips the key.
      `modelMap` is the map from uid to model. */
  function KeyWrites(models: seq<ModelDef>, modelMap: map<string, ModelDef>, model: ModelDef,
                     entry: Object<Value>, key: string, lib: Lib): (r: Result<seq<Write>, MigrationError>)
    ensures key !in model.attributes.vals ==> r == Ok([])
    ensures r.Ok? ==> FieldWrites(r.value, model, entry, key)
  {
    if key !in model.attributes.vals then Ok([])
    else
      var a := model.attributes.vals[key];
      if a.ty == Some("component") then ComponentWrites(modelMap, model, entry, key, a, lib)
      else if a.ty == Some("dynamiczone") then DynamicZoneWrites(models, model, entry, key, lib)
      else if IsSingleFile(a) && !Truthy(Get(entry, key)) then Ok([])
      else FileAndRelationWrites(models, model, entry, key, a, lib)
  }

  // ---------------------------------------------------------------------
  // What a field writes
  // ---------------------------------------------------------------------

  /** What any field may write: inserts of at least one row, and no update
      but that of the field's own column in the owner's row, set to the new
      id of the document the field references. */
  predicate FieldWrites(ws: seq<Write>, model: ModelDef, entry: Object<Value>, key: string)
  {
    forall w :: w in ws ==>
      && (w.Insert? ==> |w.rows| > 0)
      && (w.Update? ==> w == Update(model.collectionName, key, IdOf(Get(entry, key)), IdOf(Get(entry, "_id"))))
  }

  /** A relation attribute that is neither a component, a dynamic zone nor
      an uploaded file. */
  predicate PlainRelation(a: Attribute)
  {
    a.ty != Some("component") && a.ty != Some("dynamiczone") && !IsSingleFile(a) && !IsMultipleFiles(a)
  }

  /** Without file rows, a field writes what its relation writes. */
  lemma NoFileRows(models: seq<ModelDef>, model: ModelDef, entry: Object<Value>, key: string, a: Attribute, lib: Lib)
    requires !IsSingleFile(a) && !IsMultipleFiles(a)
    ensures FileAndRelationWrites(models, model, entry, key, a, lib) ==
      if !TruthyStr(a.model) && !TruthyStr(a.collection) then Ok([])
      else RelationWrites(models, model, entry, key, a, lib)
  {
    assert SingleFileWrites(model, entry, key, a) + [] == [];
    match RelationWrites(models, model, entry, key, a, lib)
    case Err(_) =>
    case Ok(ws) => assert [] + ws == ws;
  }

  /** A field the model does not declare, or declares as neither a
      component, a dynamic zone, a file nor a relation, writes nothing. */
  lemma NonLinkFieldWritesNothing(models: seq<ModelDef>, modelMap: map<string, ModelDef>, model: ModelDef,
                                  entry: Object<Value>, key: string, lib: Lib)
    requires key in model.attributes.vals ==>
      var a := model.attributes.vals[key];
      PlainRelation(a) && !TruthyStr(a.model) && !TruthyStr(a.collection)
    ensures KeyWrites(models, modelMap, model, entry, key, lib) == Ok([])
  {
    if key in model.attributes.vals {
      NoFileRows(models, model, entry, key, model.attributes.vals[key], lib);
    }
  }

  /** A one-way, one-to-one or many-to-one relation writes nothing when the
      field is falsy, and otherwise exactly one update: the field's column
      of the owner's row is set to the new id of the referenced document. */
  lemma InlineRelationWrites(models: seq<ModelDef>, modelMap: map<string, ModelDef>, model: ModelDef,
                             entry: Object<Value>, key: string, lib: Lib)
    requires key in model.attributes.vals
    requires var a := model.attributes.vals[key];
      PlainRelation(a) && Classify(a, TargetAttribute(models, a)) == Inline
    ensures var value := Get(entry, key);
      KeyWrites(models, modelMap, model, entry, key, lib) ==
        if Truthy(value) then Ok([Update(model.collectionName, key, IdOf(value), IdOf(Get(entry, "_id")))])
        else Ok([])
  {
    NoFileRows(models, model, entry, key, model.attributes.vals[key], lib);
    var a := model.attributes.vals[key];
    assert TruthyStr(a.model) || TruthyStr(a.collection);
  }

  /** A relation with a `model` and no `via` (other than a morph) is one
      way. */
  lemma OneWayIsInline(a: Attribute, target: Option<Attribute>)
    requires TruthyStr(a.model) && a.model != Some("*") && !TruthyStr(a.via)
    ensures Classify(a, target) == Inline
  {
  }

  /** A one-to-many relation (a `collection` whose inverse is a `model`)
      writes nothing: the other side's column holds the link. */
  lemma OneToManyWritesNothing(models: seq<ModelDef>, modelMap: map<string, ModelDef>, model: ModelDef,
                               entry: Object<Value>, key: string, lib: Lib)
    requires key in model.attributes.vals
    requires var a := model.attributes.vals[key];
      PlainRelation(a) && !TruthyStr(a.model) && TruthyStr(a.collection) && TruthyStr(a.via) &&
      InverseIsModel(TargetAttribute(models, a))
    ensures KeyWrites(models, modelMap, model, entry, key, lib) == Ok([])
  {
    NoFileRows(models, model, entry, key, model.attributes.vals[key], lib);
  }

  /** The side of a many-to-many relation that is not dominant writes
      nothing: the dominant side fills the join table. */
  lemma NonDominantManyToManyWritesNothing(models: seq<ModelDef>, modelMap: map<string, ModelDef>, model: ModelDef,
                                           entry: Object<Value>, key: string, lib: Lib)
    requires key in model.attributes.vals
    requires var a := model.attributes.vals[key];
      PlainRelation(a) && !TruthyStr(a.model) && TruthyStr(a.collection) && TruthyStr(a.via) && !a.dominant
    ensures KeyWrites(models, modelMap, model, entry, key, lib) == Ok([])
  {
    NoFileRows(models, model, entry, key, model.attributes.vals[key], lib);
  }

  /** A morph relation (`model` or `collection` is `*`) writes nothing
      unless it has a `via` whose inverse attribute is a real model or
      collection: `isMorph` is computed but never acted on, so a morph
      field with such an inverse is classified like any other relation. */
  lemma MorphWritesNothing(models: seq<ModelDef>, modelMap: map<string, ModelDef>, model: ModelDef,
                           entry: Object<Value>, key: string, lib: Lib)
    requires key in model.attributes.vals
    requires var a := model.attributes.vals[key];
      PlainRelation(a) &&
      ((a.model == Some("*") && !TruthyStr(a.collection)) || (a.collection == Some("*") && !TruthyStr(a.model))) &&
      (TruthyStr(a.via) ==> !InverseIsModel(TargetAttribute(models, a)) && !InverseIsCollection(TargetAttribute(models, a)))
    ensures KeyWrites(models, modelMap, model, entry, key, lib) == Ok([])
  {
    NoFileRows(models, model, entry, key, model.attributes.vals[key], lib);
  }

  /** The other half: a `model: '*'` relation with `via` whose inverse is a
      real model or collection is inline, so a truthy field updates its
      own column. */
  lemma MorphWithInverseIsInline(models: seq<ModelDef>, modelMap: map<string, ModelDef>, model: ModelDef,
                                 entry: Object<Value>, key: string, lib: Lib)
    requires key in model.attributes.vals
    requires var a := model.attributes.vals[key];
      PlainRelation(a) && a.model == Some("*") && TruthyStr(a.via) &&
      (InverseIsModel(TargetAttribute(models, a)) || InverseIsCollection(TargetAttribute(models, a)))
    requires Truthy(Get(entry, key))
    ensures KeyWrites(models, modelMap, model, entry, key, lib) ==
      Ok([Update(model.collectionName, key, IdOf(Get(entry, key)), IdOf(Get(entry, "_id")))])
  {
    NoFileRows(models, model, entry, key, model.attributes.vals[key], lib);
  }

  /** A many-way relation (a `collection` without `via`) over a list of ids
      inserts one join row per id, nothing for an empty list, into the
      attribute's `collectionName` or else `<table>__<snake_case(key)>`;
      each row has two different columns, the referenced id's and the
      owner's. A field that is not a list stops the run. */
  lemma ManyWayWrites(models: seq<ModelDef>, modelMap: map<string, ModelDef>, model: ModelDef,
                      entry: Object<Value>, key: string, lib: Lib)
    requires key in model.attributes.vals
    requires var a := model.attributes.vals[key];
      PlainRelation(a) && !TruthyStr(a.model) && TruthyStr(a.collection) && a.collection != Some("*") &&
      !TruthyStr(a.via)
    ensures var a := model.attributes.vals[key];
      var r := KeyWrites(models, modelMap, model, entry, key, lib);
      var value := Get(entry, key);
      var table := if TruthyStr(a.collectionName) then a.collectionName.value
        else model.collectionName + "__" + lib.snakeCase(key);
      && (!value.Arr? ==> r == Err(NotAnArray(key)))
      && (value.Arr? && |value.items| == 0 ==> r == Ok([]))
      && (value.Arr? && |value.items| > 0 ==>
            r.Ok? && |r.value| == 1 && r.value[0].Insert? && r.value[0].table == table &&
            var rows := r.value[0].rows;
            var (other, owner) := ManyWayColumns(model, a, lib);
            && other != owner
            && |rows| == |value.items|
            && forall i :: 0 <= i < |rows| ==>
                 rows[i].Keys == {other, owner} &&
                 rows[i][other] == IdOf(value.items[i]) && rows[i][owner] == IdOf(Get(entry, "_id")))
  {
    NoFileRows(models, model, entry, key, model.attributes.vals[key], lib);
    var a := model.attributes.vals[key];
    assert Classify(a, TargetAttribute(models, a)) == ManyWay;
  }

  /** The dominant side of a many-to-many relation over a list of ids
      inserts one row per id, nothing for an empty list, into the table
      `getCollectionName` names for the pair; each row pairs the referenced
      id with the owner's id under the columns named after the two sides'
      collections (after `via` when those clash). A field that is not a
      list stops the run. */
  lemma DominantManyToManyWrites(models: seq<ModelDef>, modelMap: map<string, ModelDef>, model: ModelDef,
                                 entry: Object<Value>, key: string, lib: Lib)
    requires key in model.attributes.vals
    requires var a := model.attributes.vals[key];
      PlainRelation(a) && !TruthyStr(a.model) && TruthyStr(a.collection) && TruthyStr(a.via) && a.dominant &&
      !InverseIsModel(TargetAttribute(models, a)) && InverseIsCollection(TargetAttribute(models, a))
    ensures var a := model.attributes.vals[key];
      var inverse := TargetAttribute(models, a).value;
      var r := KeyWrites(models, modelMap, model, entry, key, lib);
      var value := Get(entry, key);
      && (!value.Arr? ==> r == Err(NotAnArray(key)))
      && (value.Arr? && |value.items| == 0 ==> r == Ok([]))
      && (value.Arr? && |value.items| > 0 ==>
            r.Ok? && |r.value| == 1 && r.value[0].Insert?
            && r.value[0].table == GetCollectionName(a, inverse, lib)
            && var rows := r.value[0].rows;
            var (other, owner) := ManyToManyColumns(a, inverse, lib);
            && |rows| == |value.items|
            && forall i :: 0 <= i < |rows| ==>
                 rows[i] == map[other := IdOf(value.items[i])][owner := IdOf(Get(entry, "_id"))])
  {
    NoFileRows(models, model, entry, key, model.attributes.vals[key], lib);
    var a := model.attributes.vals[key];
    assert Classify(a, TargetAttribute(models, a)) == ManyToMany;
  }

  /** A single uploaded file that is set gets an `upload_file_morph` row of
      order 1 and, having no `via`, also falls through to the relation
      branch as a one-way relation, which sets the owner's column. */
  lemma SingleFileLinks(models: seq<ModelDef>, modelMap: map<string, ModelDef>, model: ModelDef,
                         entry: Object<Value>, key: string, lib: Lib)
    requires key in model.attributes.vals
    requires var a := model.attributes.vals[key];
      IsSingleFile(a) && a.ty != Some("component") && a.ty != Some("dynamiczone") && !TruthyStr(a.via) &&
      !IsMultipleFiles(a)
    ensures var value := Get(entry, key);
      var owner := Get(entry, "_id");
      KeyWrites(models, modelMap, model, entry, key, lib) ==
        if !Truthy(value) then Ok([])
        else Ok([Insert("upload_file_morph", [FileRow(value, 1, owner, model.collectionName, key)]),
                 Update(model.collectionName, key, IdOf(value), IdOf(owner))])
  {
    var a := model.attributes.vals[key];
    var value := Get(entry, key);
    var owner := Get(entry, "_id");
    if Truthy(value) {
      OneWayIsInline(a, TargetAttribute(models, a));
      var update := Update(model.collectionName, key, IdOf(value), IdOf(owner));
      var single := SingleFileWrites(model, entry, key, a);
      assert MultipleFileWrites(model, entry, key, a) == Ok([]);
      assert RelationWrites(models, model, entry, key, a, lib) == Ok([update]);
      assert single + [] + [update] == [single[0], update];
    }
  }

  /** A single uploaded file with a `via` (Strapi's media attributes carry
      `via: "related"`) that is set gets its `upload_file_morph` row of
      order 1. The owner's column is also set only when the inverse side is
      a real model or collection; when it is a morph (`*`) or missing, the
      relation branch writes nothing more. */
  lemma SingleFileViaLinks(models: seq<ModelDef>, modelMap: map<string, ModelDef>, model: ModelDef,
                           entry: Object<Value>, key: string, lib: Lib)
    requires key in model.attributes.vals
    requires var a := model.attributes.vals[key];
      IsSingleFile(a) && a.ty != Some("component") && a.ty != Some("dynamiczone") && TruthyStr(a.via) &&
      !TruthyStr(a.collection)
    ensures var a := model.attributes.vals[key];
      var target := TargetAttribute(models, a);
      var value := Get(entry, key);
      var owner := Get(entry, "_id");
      var morph := Insert("upload_file_morph", [FileRow(value, 1, owner, model.collectionName, key)]);
      KeyWrites(models, modelMap, model, entry, key, lib) ==
        if !Truthy(value) then Ok([])
        else if InverseIsModel(target) || InverseIsCollection(target)
        then Ok([morph, Update(model.collectionName, key, IdOf(value), IdOf(owner))])
        else Ok([morph])
  {
    var a := model.attributes.vals[key];
    var target := TargetAttribute(models, a);
    var value := Get(entry, key);
    var owner := Get(entry, "_id");
    if Truthy(value) {
      var single := SingleFileWrites(model, entry, key, a);
      assert MultipleFileWrites(model, entry, key, a) == Ok([]);
      if InverseIsModel(target) || InverseIsCollection(target) {
        var update := Update(model.collectionName, key, IdOf(value), IdOf(owner));
        assert Classify(a, target) == Inline;
        assert RelationWrites(models, model, entry, key, a, lib) == Ok([update]);
        assert single + [] + [update] == [single[0], update];
      } else {
        assert Classify(a, target) == Unlinked;
        assert RelationWrites(models, model, entry, key, a, lib) == Ok([]);
        assert single + [] + [] == [single[0]];
      }
    }
  }

  /** Component links: a list of n components gives one insert of n rows
      into `<table>_components` (none for an empty list), the i-th with
      `order` i + 1, the field name, the component's table and the owner's
      id; each element's own id gets a new id in the link table. */
  lemma ComponentLinks(models: seq<ModelDef>, modelMap: map<string, ModelDef>, model: ModelDef,
                       entry: Object<Value>, key: string, lib: Lib)
    requires key in model.attributes.vals
    requires var a := model.attributes.vals[key];
      a.ty == Some("component") && PropertyKey(a.component) in modelMap
    requires Get(entry, key).Arr?
    requires var items := Get(entry, key).items;
      forall i :: 0 <= i < |items| ==> items[i] != Undefined && items[i] != Null
    requires lib.singular(model.collectionName) + "_id" !in {"id", "field", "order", "component_type", "component_id"}
    ensures var a := model.attributes.vals[key];
      var r := KeyWrites(models, modelMap, model, entry, key, lib);
      var items := Get(entry, key).items;
      var linkTable := model.collectionName + "_components";
      var ownerColumn := lib.singular(model.collectionName) + "_id";
      && r.Ok?
      && (|items| == 0 <==> r.value == [])
      && (|items| > 0 ==>
            |r.value| == 1 && r.value[0] == Insert(linkTable, r.value[0].rows) &&
            var rows := r.value[0].rows;
            && |rows| == |items|
            && forall i :: 0 <= i < |rows| ==>
                 && "id" in rows[i] && "order" in rows[i] && "field" in rows[i]
                 && "component_type" in rows[i] && "component_id" in rows[i] && ownerColumn in rows[i]
                 && rows[i]["id"] == NewId(Prop(items[i], "_id").value, linkTable)
                 && rows[i]["component_id"] == IdOf(Prop(items[i], "ref").value)
                 && rows[i]["order"] == Int(i + 1)
                 && rows[i]["field"] == Text(key)
                 && rows[i]["component_type"] == Text(modelMap[PropertyKey(a.component)].collectionName)
                 && rows[i][ownerColumn] == IdOf(Get(entry, "_id")))
  {
    var a := model.attributes.vals[key];
    var items := Get(entry, key).items;
    var linkTable := model.collectionName + "_components";
    var ownerColumn := lib.singular(model.collectionName) + "_id";
    var componentTable := Some(modelMap[PropertyKey(a.component)].collectionName);
    var f := ComponentRows(key, linkTable, a.component, componentTable, ownerColumn, Get(entry, "_id"));
    forall i | 0 <= i < |items|
      ensures f(items[i], i).Ok?
      ensures RowFields(f(items[i], i).value, items[i], linkTable, key, i, Text(componentTable.value), ownerColumn,
                        Get(entry, "_id"))
    {
      ComponentRowFields(items[i], i, key, linkTable, a.component, componentTable, ownerColumn, Get(entry, "_id"));
    }
    var rows := MapIndexed(items, f).value;
    assert KeyWrites(models, modelMap, model, entry, key, lib) == Ok(InsertIfAny(linkTable, rows));
  }

  /** The columns a component or dynamic-zone link row shares: a new id
      made from the element's `_id`, the field, the 1-based order, the
      component's table, the id of the element's `ref` and the owner's id. */
  predicate RowFields(row: Row, link: Value, linkTable: string, key: string, idx: nat, componentType: Cell,
                      ownerColumn: string, owner: Value)
  {
    && link != Undefined && link != Null
    && "id" in row && "order" in row && "field" in row && "component_type" in row && "component_id" in row
    && ownerColumn in row
    && row["id"] == NewId(Prop(link, "_id").value, linkTable)
    && row["component_id"] == IdOf(Prop(link, "ref").value)
    && row["order"] == Int(idx + 1)
    && row["field"] == Text(key)
    && row["component_type"] == componentType
    && row[ownerColumn] == IdOf(owner)
  }

  /** The row of a component element that has an id, when the component
      model is known. */
  lemma ComponentRowFields(link: Value, idx: nat, key: string, linkTable: string, component: Option<string>,
                           componentTable: Option<string>, ownerColumn: string, owner: Value)
    requires link != Undefined && link != Null && componentTable.Some?
    requires ownerColumn !in {"id", "field", "order", "component_type", "component_id"}
    ensures var r := ComponentRow(link, idx, key, linkTable, component, componentTable, ownerColumn, owner);
      && r.Ok?
      && RowFields(r.value, link, linkTable, key, idx, Text(componentTable.value), ownerColumn, owner)
  {
  }

  /** The row of a dynamic-zone element whose `kind` names a model. */
  lemma DynamicZoneRowFields(models: seq<ModelDef>, link: Value, idx: nat, key: string, linkTable: string,
                             ownerColumn: string, owner: Value)
    requires link != Undefined && link != Null && FindByGlobalId(models, Prop(link, "kind").value).Some?
    requires ownerColumn !in {"id", "field", "order", "component_type", "component_id"}
    ensures var r := DynamicZoneRow(models, link, idx, key, linkTable, ownerColumn, owner);
      && r.Ok?
      && RowFields(r.value, link, linkTable, key, idx,
                   Text(models[FindByGlobalId(models, Prop(link, "kind").value).value].collectionName), ownerColumn, owner)
  {
  }

  /** Dynamic-zone links: the same rows as component links, the component
      of each element being the first model whose `globalId` is the
      element's `kind`. */
  lemma DynamicZoneLinks(models: seq<ModelDef>, modelMap: map<string, ModelDef>, model: ModelDef,
                         entry: Object<Value>, key: string, lib: Lib)
    requires key in model.attributes.vals && model.attributes.vals[key].ty == Some("dynamiczone")
    requires Get(entry, key).Arr?
    requires var items := Get(entry, key).items;
      forall i :: 0 <= i < |items| ==>
        items[i] != Undefined && items[i] != Null && FindByGlobalId(models, Prop(items[i], "kind").value).Some?
    requires lib.singular(model.collectionName) + "_id" !in {"id", "field", "order", "component_type", "component_id"}
    ensures var r := KeyWrites(models, modelMap, model, entry, key, lib);
      var items := Get(entry, key).items;
      var linkTable := model.collectionName + "_components";
      var ownerColumn := lib.singular(model.collectionName) + "_id";
      && r.Ok?
      && (|items| == 0 <==> r.value == [])
      && (|items| > 0 ==>
            |r.value| == 1 && r.value[0] == Insert(linkTable, r.value[0].rows) &&
            var rows := r.value[0].rows;
            && |rows| == |items|
            && forall i :: 0 <= i < |rows| ==>
                 && "id" in rows[i] && "order" in rows[i] && "field" in rows[i]
                 && "component_type" in rows[i] && "component_id" in rows[i] && ownerColumn in rows[i]
                 && rows[i]["id"] == NewId(Prop(items[i], "_id").value, linkTable)
                 && rows[i]["component_id"] == IdOf(Prop(items[i], "ref").value)
                 && rows[i]["order"] == Int(i + 1)
                 && rows[i]["field"] == Text(key)
                 && rows[i]["component_type"] ==
                      Text(models[FindByGlobalId(models, Prop(items[i], "kind").value).value].collectionName)
                 && rows[i][ownerColumn] == IdOf(Get(entry, "_id")))
  {
    var items := Get(entry, key).items;
    var linkTable := model.collectionName + "_components";
    var ownerColumn := lib.singular(model.collectionName) + "_id";
    var f := DynamicZoneRows(models, key, linkTable, ownerColumn, Get(entry, "_id"));
    forall i | 0 <= i < |items|
      ensures f(items[i], i).Ok?
      ensures RowFields(f(items[i], i).value, items[i], linkTable, key, i,
                        Text(models[FindByGlobalId(models, Prop(items[i], "kind").value).value].collectionName),
                        ownerColumn, Get(entry, "_id"))
    {
      DynamicZoneRowFields(models, items[i], i, key, linkTable, ownerColumn, Get(entry, "_id"));
    }
    var rows := MapIndexed(items, f).value;
    assert KeyWrites(models, modelMap, model, entry, key, lib) == Ok(InsertIfAny(linkTable, rows));
  }

  /** A dynamic-zone element whose `kind` is no model's `globalId` stops the
      run, when every element before it is a known component. */
  lemma UnknownDynamicZoneKindFails(models: seq<ModelDef>, modelMap: map<string, ModelDef>, model: ModelDef,
                                    entry: Object<Value>, key: string, lib: Lib, j: nat)
    requires key in model.attributes.vals && model.attributes.vals[key].ty == Some("dynamiczone")
    requires Get(entry, key).Arr? && j < |Get(entry, key).items|
    requires var items := Get(entry, key).items;
      forall i :: 0 <= i <= j ==> items[i] != Undefined && items[i] != Null
    requires var items := Get(entry, key).items;
      forall i :: 0 <= i < j ==> FindByGlobalId(models, Prop(items[i], "kind").value).Some?
    requires FindByGlobalId(models, Prop(Get(entry, key).items[j], "kind").value).None?
    ensures KeyWrites(models, modelMap, model, entry, key, lib) ==
      Err(UnknownComponent(Prop(Get(entry, key).items[j], "kind").value))
  {
    var items := Get(entry, key).items;
    var f := DynamicZoneRows(models, key, model.collectionName + "_components",
                             lib.singular(model.collectionName) + "_id", Get(entry, "_id"));
    var kind := Prop(items[j], "kind").value;
    assert f(items[j], j) == Err(UnknownComponent(kind));
    var r := MapIndexed(items, f);
    var i :| 0 <= i < |items| && f(items[i], i) == Err(r.error) && forall k :: 0 <= k < i ==> f(items[k], k).Ok?;
    assert i == j;
    assert KeyWrites(models, modelMap, model, entry, key, lib) == DynamicZoneWrites(models, model, entry, key, lib);
  }
}
