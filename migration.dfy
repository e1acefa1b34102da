/** The migration run (`run` in v3-mongodb-v3-sql/index.js): the model
    definitions are parsed, merged and reordered; the first pass fixes each
    model's attributes and inserts one row per document, giving each
    document a new id; the second pass derives every document's link rows.
    The MongoDB collections are given as a map from collection name to the
    documents a cursor over it yields; the SQL side is the list of inserts
    and intended writes the run makes. */
module Migration {

  import opened Wrappers
  import opened Js
  import opened Schema
  import opened Registry
  import opened Transform
  import opened Links
  import opened IdMaps

  /** The documents of a collection; a collection that does not exist has
      none. */
  function DocsOf(docs: map<string, seq<Object<Value>>>, table: string): seq<Object<Value>>
  {
    if table in docs then docs[table] else []
  }

  // ---------------------------------------------------------------------
  // First pass: one row per document
  // ---------------------------------------------------------------------

  /** A row inserted into a table. */
  datatype Inserted = Inserted(table: string, row: Object<Value>)

  /** The rows, without their `id`, of the first `entries` of a model. */
  function ModelRows(model: ModelDef, entries: seq<Object<Value>>, lib: Lib): Result<seq<Inserted>, MigrationError>
    decreases |entries|
  {
    if |entries| == 0 then Ok([])
    else
      var n := |entries| - 1;
      match ModelRows(model, entries[..n], lib)
      case Err(e) => Err(e)
      case Ok(rows) =>
        match RowOf(entries[n], model, lib)
        case Err(e) => Err(e)
        case Ok(row) => Ok(rows + [Inserted(model.collectionName, row)])
  }

  /** The rows, without their `id`, of all documents of the models, model
      by model. */
  function AllRows(models: seq<ModelDef>, docs: map<string, seq<Object<Value>>>, lib: Lib): Result<seq<Inserted>, MigrationError>
    decreases |models|
  {
    if |models| == 0 then Ok([])
    else
      var n := |models| - 1;
      match AllRows(models[..n], docs, lib)
      case Err(e) => Err(e)
      case Ok(rows) =>
        match ModelRows(models[n], DocsOf(docs, models[n].collectionName), lib)
        case Err(e) => Err(e)
        case Ok(more) => Ok(rows + more)
  }

  /** An inserted row is the projected row with an `id` column set. */
  predicate RowMatches(inserted: Inserted, projected: Inserted)
  {
    && inserted.table == projected.table
    && "id" in inserted.row.vals
    && inserted.row.vals - {"id"} == projected.row.vals - {"id"}
  }

  /** Inserted rows match the projected ones, one for one. */
  predicate RowsMatch(inserted: seq<Inserted>, projected: seq<Inserted>)
  {
    |inserted| == |projected| && forall k :: 0 <= k < |inserted| ==> RowMatches(inserted[k], projected[k])
  }

  /** The document has a recorded id. */
  predicate HasId(ids: map<Value, int>, entry: Object<Value>)
  {
    Get(entry, "_id") in ids
  }

  /** Every one of the documents has a recorded id and, for the
      administrator model, a noted administrator id. */
  ghost predicate Covered(ids: map<Value, int>, admins: map<string, int>, model: ModelDef, entries: seq<Object<Value>>, lib: Lib)
  {
    && (forall e :: e in entries ==> HasId(ids, e))
    && (model.uid == AdminUid ==> forall e :: e in entries ==> lib.idString(Get(e, "_id")) in admins)
  }

  /** Covering one more document, with more ids recorded and noted. */
  lemma CoveredSnoc(ids: map<Value, int>, ids': map<Value, int>, admins: map<string, int>, admins': map<string, int>,
                    model: ModelDef, entries: seq<Object<Value>>, entry: Object<Value>, lib: Lib)
    requires Covered(ids, admins, model, entries, lib)
    requires ids.Keys <= ids'.Keys && admins.Keys <= admins'.Keys
    requires HasId(ids', entry)
    requires model.uid == AdminUid ==> lib.idString(Get(entry, "_id")) in admins'
    ensures Covered(ids', admins', model, entries + [entry], lib)
  {
    forall e | e in entries + [entry] ensures HasId(ids', e) {
      if e in entries {
        assert HasId(ids, e);
      }
    }
  }

  /** The rows of one more document follow those before it. */
  lemma ModelRowsSnoc(model: ModelDef, entries: seq<Object<Value>>, j: nat, lib: Lib)
    requires j < |entries| && ModelRows(model, entries[..j], lib).Ok? && RowOf(entries[j], model, lib).Ok?
    ensures ModelRows(model, entries[..j + 1], lib)
         == Ok(ModelRows(model, entries[..j], lib).value + [Inserted(model.collectionName, RowOf(entries[j], model, lib).value)])
  {
    assert entries[..j + 1][..j] == entries[..j];
  }

  /** The body of the inner loop of the first pass, for one document: the
      document is projected onto a row, the row gets a new id from the
      identifier map, one not issued before for the model's table and
      recorded for the document id, and, for the administrator model, that
      id is noted by the string of the document id and nothing else of the
      administrator map changes. */
  method InsertDocument(model: ModelDef, entry: Object<Value>, ids: IdMap, admins: map<string, int>, lib: Lib)
    returns (result: Result<(Inserted, map<string, int>), MigrationError>)
    requires ids.Valid()
    modifies ids
    ensures ids.Valid()
    ensures old(ids.ids).Keys <= ids.ids.Keys
    ensures result.Err? <==> RowOf(entry, model, lib).Err?
    ensures result.Err? ==> result.error == RowOf(entry, model, lib).error && result.error.BadTimestamps?
    ensures result.Err? ==> ids.ids == old(ids.ids) && ids.issued == old(ids.issued)
    ensures result.Ok? ==>
      && RowMatches(result.value.0, Inserted(model.collectionName, RowOf(entry, model, lib).value))
      && HasId(ids.ids, entry)
      && admins.Keys <= result.value.1.Keys
      && (model.uid == AdminUid ==> lib.idString(Get(entry, "_id")) in result.value.1)
    ensures result.Ok? ==> var id := ids.ids[Get(entry, "_id")];
      && id !in old(ids.Issued(model.collectionName))
      && ids.ids == old(ids.ids)[Get(entry, "_id") := id]
      && ids.issued == old(ids.issued)[model.collectionName := old(ids.Issued(model.collectionName)) + {id}]
      && result.value.0.row.vals["id"] == Num(id)
      && result.value.1 == if model.uid == AdminUid then admins[lib.idString(Get(entry, "_id")) := id] else admins
  {
    var row := TransformEntry(entry, model, lib);
    if row.Err? {
      return Err(row.error);
    }
    var id := ids.Next(Get(entry, "_id"), model.collectionName);
    var withId := Put(row.value, "id", Num(id));
    PutThenDrop(row.value.vals, "id", Num(id));
    var noted := admins;
    if model.uid == AdminUid {
      noted := admins[lib.idString(Get(entry, "_id")) := id];
    }
    result := Ok((Inserted(model.collectionName, withId), noted));
  }

  /** Setting a key and then dropping it is dropping it. */
  lemma PutThenDrop(m: map<string, Value>, k: string, v: Value)
    ensures m[k := v] - {k} == m - {k}
  {
    assert (m[k := v] - {k}).Keys == (m - {k}).Keys;
  }

  /** The inner loop of the first pass, over the documents of one model, in
      cursor order. Ids recorded before stay recorded, and so do the
      administrator ids noted before. The issued ids of every table only
      grow, and the rows' ids are fresh for their table and pairwise
      distinct. */
  method InsertDocuments(model: ModelDef, entries: seq<Object<Value>>, ids: IdMap, adminIds: map<string, int>, lib: Lib)
    returns (result: Result<(seq<Inserted>, map<string, int>), MigrationError>)
    requires ids.Valid()
    modifies ids
    ensures ids.Valid()
    ensures old(ids.ids).Keys <= ids.ids.Keys
    ensures Grows(old(ids.issued), ids.issued)
    ensures result.Err? ==> result.error.BadTimestamps? && ModelRows(model, entries, lib) == Err(result.error)
    ensures result.Ok? ==>
      && ModelRows(model, entries, lib).Ok?
      && RowsMatch(result.value.0, ModelRows(model, entries, lib).value)
      && FreshRows(result.value.0, old(ids.issued), ids.issued)
      && adminIds.Keys <= result.value.1.Keys
      && Covered(ids.ids, result.value.1, model, entries, lib)
  {
    var inserted: seq<Inserted> := [];
    var admins := adminIds;
    for j := 0 to |entries|
      invariant ids.Valid()
      invariant old(ids.ids).Keys <= ids.ids.Keys
      invariant Grows(old(ids.issued), ids.issued)
      invariant FreshRows(inserted, old(ids.issued), ids.issued)
      invariant ModelRows(model, entries[..j], lib).Ok?
      invariant RowsMatch(inserted, ModelRows(model, entries[..j], lib).value)
      invariant adminIds.Keys <= admins.Keys
      invariant Covered(ids.ids, admins, model, entries[..j], lib)
    {
      ghost var idsBefore := ids.ids;
      ghost var issuedBefore := ids.issued;
      var step := InsertDocument(model, entries[j], ids, admins, lib);
      if step.Err? {
        assert entries[..j + 1][..j] == entries[..j];
        ModelRowsFails(model, entries, j + 1, lib);
        return Err(step.error);
      }
      IssueOne(issuedBefore, step.value.0, ids.ids[Get(entries[j], "_id")]);
      FreshAppend(inserted, [step.value.0], old(ids.issued), issuedBefore, ids.issued);
      DocumentStep(model, entries, j, inserted, step.value.0, idsBefore, ids.ids, admins, step.value.1, lib);
      inserted := inserted + [step.value.0];
      admins := step.value.1;
    }
    assert entries[..|entries|] == entries;
    result := Ok((inserted, admins));
  }

  /** What the inner loop keeps, carried over one more inserted document. */
  lemma DocumentStep(model: ModelDef, entries: seq<Object<Value>>, j: nat, inserted: seq<Inserted>, row: Inserted,
                     ids: map<Value, int>, ids': map<Value, int>, admins: map<string, int>, admins': map<string, int>, lib: Lib)
    requires j < |entries| && ModelRows(model, entries[..j], lib).Ok? && RowOf(entries[j], model, lib).Ok?
    requires RowsMatch(inserted, ModelRows(model, entries[..j], lib).value)
    requires RowMatches(row, Inserted(model.collectionName, RowOf(entries[j], model, lib).value))
    requires Covered(ids, admins, model, entries[..j], lib)
    requires ids.Keys <= ids'.Keys && admins.Keys <= admins'.Keys && HasId(ids', entries[j])
    requires model.uid == AdminUid ==> lib.idString(Get(entries[j], "_id")) in admins'
    ensures ModelRows(model, entries[..j + 1], lib).Ok?
    ensures RowsMatch(inserted + [row], ModelRows(model, entries[..j + 1], lib).value)
    ensures Covered(ids', admins', model, entries[..j + 1], lib)
  {
    ModelRowsSnoc(model, entries, j, lib);
    RowsMatchAppend(inserted, ModelRows(model, entries[..j], lib).value,
                    [row], [Inserted(model.collectionName, RowOf(entries[j], model, lib).value)]);
    assert entries[..j + 1] == entries[..j] + [entries[j]];
    CoveredSnoc(ids, ids', admins, admins', model, entries[..j], entries[j], lib);
  }

  /** Once the rows of some documents fail, so do those of more. */
  lemma {:induction false} ModelRowsFails(model: ModelDef, entries: seq<Object<Value>>, j: nat, lib: Lib)
    requires j <= |entries| && ModelRows(model, entries[..j], lib).Err?
    ensures ModelRows(model, entries, lib) == ModelRows(model, entries[..j], lib)
    decreases |entries| - j
  {
    if j < |entries| {
      assert entries[..j + 1][..j] == entries[..j];
      ModelRowsFails(model, entries, j + 1, lib);
    } else {
      assert entries[..j] == entries;
    }
  }

  /** The rows of a model fail exactly when it has a document and a bad
      `timestamps` option; the error names the model. */
  lemma {:induction false} ModelRowsErr(model: ModelDef, entries: seq<Object<Value>>, lib: Lib)
    ensures ModelRows(model, entries, lib).Err? <==> TimestampKeys(model).Err? && |entries| > 0
    ensures ModelRows(model, entries, lib).Err? ==> ModelRows(model, entries, lib).error == BadTimestamps(model.uid)
    decreases |entries|
  {
    if |entries| > 0 {
      ModelRowsErr(model, entries[..|entries| - 1], lib);
    }
  }

  /** The model stops the first pass: its `timestamps` option is bad and
      its collection has a document to insert. */
  predicate StopsFirstPass(model: ModelDef, docs: map<string, seq<Object<Value>>>)
  {
    TimestampKeys(model).Err? && |DocsOf(docs, model.collectionName)| > 0
  }

  /** The ids issued for a table, in the identifier map's `issued` field. */
  function IssuedFor(issued: map<string, set<int>>, table: string): set<int>
  {
    if table in issued then issued[table] else {}
  }

  /** Every table's issued ids are still issued in `after`. */
  ghost predicate Grows(before: map<string, set<int>>, after: map<string, set<int>>)
  {
    forall t :: IssuedFor(before, t) <= IssuedFor(after, t)
  }

  /** No two rows of the same table have the same id. */
  predicate DistinctIds(rows: seq<Inserted>)
  {
    forall k, l :: 0 <= k < l < |rows| && rows[k].table == rows[l].table ==>
      "id" in rows[k].row.vals && "id" in rows[l].row.vals && rows[k].row.vals["id"] != rows[l].row.vals["id"]
  }

  /** Each row's id is an integer issued for its table in `after` but not
      in `before`, and no two rows of a table share one. */
  predicate FreshRows(rows: seq<Inserted>, before: map<string, set<int>>, after: map<string, set<int>>)
  {
    && (forall k :: 0 <= k < |rows| ==>
          && "id" in rows[k].row.vals && rows[k].row.vals["id"].Num?
          && rows[k].row.vals["id"].n in IssuedFor(after, rows[k].table)
          && rows[k].row.vals["id"].n !in IssuedFor(before, rows[k].table))
    && DistinctIds(rows)
  }

  /** One row whose id is issued for its table is fresh. */
  lemma IssueOne(issued: map<string, set<int>>, row: Inserted, id: int)
    requires "id" in row.row.vals && row.row.vals["id"] == Num(id) && id !in IssuedFor(issued, row.table)
    ensures var after := issued[row.table := IssuedFor(issued, row.table) + {id}];
      Grows(issued, after) && FreshRows([row], issued, after)
  {
  }

  /** Rows made fresh one after the other are fresh together: the later
      ones' ids were not yet issued, so they differ from the earlier ones'. */
  lemma FreshAppend(rows: seq<Inserted>, more: seq<Inserted>, a: map<string, set<int>>, b: map<string, set<int>>,
                    c: map<string, set<int>>)
    requires FreshRows(rows, a, b) && FreshRows(more, b, c) && Grows(a, b) && Grows(b, c)
    ensures Grows(a, c) && FreshRows(rows + more, a, c)
  {
    var all := rows + more;
    forall k | 0 <= k < |all|
      ensures "id" in all[k].row.vals && all[k].row.vals["id"].Num?
      ensures all[k].row.vals["id"].n in IssuedFor(c, all[k].table)
      ensures all[k].row.vals["id"].n !in IssuedFor(a, all[k].table)
    {
      if k < |rows| {
        assert all[k] == rows[k];
        assert IssuedFor(b, all[k].table) <= IssuedFor(c, all[k].table);
      } else {
        assert all[k] == more[k - |rows|];
        assert IssuedFor(a, all[k].table) <= IssuedFor(b, all[k].table);
      }
    }
    forall k, l | 0 <= k < l < |all| && all[k].table == all[l].table
      ensures all[k].row.vals["id"] != all[l].row.vals["id"]
    {
      if l < |rows| {
        assert all[k] == rows[k] && all[l] == rows[l];
      } else if k >= |rows| {
        assert all[k] == more[k - |rows|] && all[l] == more[l - |rows|];
      } else {
        assert all[k] == rows[k] && all[l] == more[l - |rows|];
      }
    }
  }

  /** Matching row lists stay matching when extended by matching lists. */
  lemma RowsMatchAppend(a: seq<Inserted>, b: seq<Inserted>, c: seq<Inserted>, d: seq<Inserted>)
    requires RowsMatch(a, b) && RowsMatch(c, d)
    ensures RowsMatch(a + c, b + d)
  {
    forall k | 0 <= k < |a + c|
      ensures RowMatches((a + c)[k], (b + d)[k])
    {
      if k >= |a| {
        assert (a + c)[k] == c[k - |a|] && (b + d)[k] == d[k - |b|];
      }
    }
  }

  /** Every document of the models has a recorded id. */
  ghost predicate DocsHaveIds(ids: map<Value, int>, docs: map<string, seq<Object<Value>>>, models: seq<ModelDef>)
  {
    forall m, e :: m in models && e in DocsOf(docs, m.collectionName) ==> HasId(ids, e)
  }

  /** Every administrator user among the documents of the models has its id
      noted under the string of its document id. */
  ghost predicate AdminsNoted(adminIds: map<string, int>, docs: map<string, seq<Object<Value>>>, models: seq<ModelDef>, lib: Lib)
  {
    forall m, e :: m in models && m.uid == AdminUid && e in DocsOf(docs, m.collectionName) ==>
      lib.idString(Get(e, "_id")) in adminIds
  }

  /** Both facts survive more recorded ids and one more model whose
      documents are covered. */
  lemma NotedSnoc(ids: map<Value, int>, ids': map<Value, int>, adminIds: map<string, int>, adminIds': map<string, int>,
                  docs: map<string, seq<Object<Value>>>, models: seq<ModelDef>, model: ModelDef, lib: Lib)
    requires DocsHaveIds(ids, docs, models) && AdminsNoted(adminIds, docs, models, lib)
    requires ids.Keys <= ids'.Keys && adminIds.Keys <= adminIds'.Keys
    requires Covered(ids', adminIds', model, DocsOf(docs, model.collectionName), lib)
    ensures DocsHaveIds(ids', docs, models + [model]) && AdminsNoted(adminIds', docs, models + [model], lib)
  {
    forall m: ModelDef, e: Object<Value> | m in models + [model] && e in DocsOf(docs, m.collectionName)
      ensures HasId(ids', e)
    {
      if m in models {
        assert HasId(ids, e);
      }
    }
  }

  /** The first pass. For each model in turn its attributes are fixed, then
      its documents are inserted. The pass fails exactly when some model
      has a bad `timestamps` option and a document, with the error of the
      first such model. On success the inserted rows are, one for one, the
      projected rows of the fixed models, each with an id fresh for its
      table, no two rows of one table sharing an id; every document has a
      recorded id; and every administrator user's id is noted. */
  method FirstPass(models: seq<ModelDef>, docs: map<string, seq<Object<Value>>>, ids: IdMap, lib: Lib)
    returns (fixed: seq<ModelDef>, result: Result<(seq<Inserted>, map<string, int>), MigrationError>)
    requires ids.Valid()
    modifies ids
    ensures ids.Valid()
    ensures Grows(old(ids.issued), ids.issued)
    ensures result.Ok? ==> FreshRows(result.value.0, old(ids.issued), ids.issued)
    ensures result.Ok? <==> forall i :: 0 <= i < |models| ==> !StopsFirstPass(models[i], docs)
    ensures result.Err? ==> exists i :: 0 <= i < |models| && FirstStop(models, docs, i) &&
                                       result.error == BadTimestamps(models[i].uid)
    ensures result.Ok? ==>
      && |fixed| == |models|
      && (forall i :: 0 <= i < |models| ==> FixedModel(models[i], fixed[i]))
      && AllRows(fixed, docs, lib).Ok?
      && RowsMatch(result.value.0, AllRows(fixed, docs, lib).value)
      && DocsHaveIds(ids.ids, docs, fixed)
      && AdminsNoted(result.value.1, docs, fixed, lib)
  {
    fixed := [];
    var inserted: seq<Inserted> := [];
    var adminIds: map<string, int> := map[];
    for i := 0 to |models|
      invariant ids.Valid()
      invariant |fixed| == i
      invariant forall p :: 0 <= p < i ==> FixedModel(models[p], fixed[p])
      invariant forall p :: 0 <= p < i ==> !StopsFirstPass(models[p], docs)
      invariant Grows(old(ids.issued), ids.issued)
      invariant FreshRows(inserted, old(ids.issued), ids.issued)
      invariant AllRows(fixed, docs, lib).Ok?
      invariant RowsMatch(inserted, AllRows(fixed, docs, lib).value)
      invariant DocsHaveIds(ids.ids, docs, fixed)
      invariant AdminsNoted(adminIds, docs, fixed, lib)
    {
      var model := FixUp(models[i]);
      ghost var idsBefore := ids.ids;
      ghost var issuedBefore := ids.issued;
      var step := InsertDocuments(model, DocsOf(docs, model.collectionName), ids, adminIds, lib);
      ModelRowsErr(model, DocsOf(docs, model.collectionName), lib);
      FixedKeepsTimestamps(models[i], model);
      if step.Err? {
        assert FirstStop(models, docs, i);
        return fixed, Err(step.error);
      }
      ModelStep(models, fixed, model, docs, inserted, step.value.0, idsBefore, ids.ids, adminIds, step.value.1, lib);
      FreshAppend(inserted, step.value.0, old(ids.issued), issuedBefore, ids.issued);
      fixed := fixed + [model];
      inserted := inserted + step.value.0;
      adminIds := step.value.1;
    }
    result := Ok((inserted, adminIds));
  }

  /** The `i`-th model is the first to stop the first pass. */
  predicate FirstStop(models: seq<ModelDef>, docs: map<string, seq<Object<Value>>>, i: nat)
    requires i < |models|
  {
    StopsFirstPass(models[i], docs) && forall p :: 0 <= p < i ==> !StopsFirstPass(models[p], docs)
  }

  /** At most one model is the first to stop the first pass. */
  lemma FirstStopUnique(models: seq<ModelDef>, docs: map<string, seq<Object<Value>>>)
    ensures forall i, j ::
      0 <= i < |models| && 0 <= j < |models| && FirstStop(models, docs, i) && FirstStop(models, docs, j) ==> i == j
  {
  }

  /** Fixing up the attributes keeps the `timestamps` option, the uid and
      the collection. */
  lemma FixedKeepsTimestamps(model: ModelDef, fixed: ModelDef)
    requires FixedModel(model, fixed)
    ensures TimestampKeys(fixed) == TimestampKeys(model)
    ensures fixed.uid == model.uid && fixed.collectionName == model.collectionName
  {
  }

  /** What the outer loop keeps, carried over one more model whose
      documents are inserted. */
  lemma ModelStep(models: seq<ModelDef>, fixed: seq<ModelDef>, model: ModelDef, docs: map<string, seq<Object<Value>>>,
                  inserted: seq<Inserted>, rows: seq<Inserted>, ids: map<Value, int>, ids': map<Value, int>,
                  adminIds: map<string, int>, adminIds': map<string, int>, lib: Lib)
    requires |fixed| < |models| && FixedModel(models[|fixed|], model)
    requires forall p :: 0 <= p < |fixed| ==> FixedModel(models[p], fixed[p])
    requires AllRows(fixed, docs, lib).Ok? && RowsMatch(inserted, AllRows(fixed, docs, lib).value)
    requires DocsHaveIds(ids, docs, fixed) && AdminsNoted(adminIds, docs, fixed, lib)
    requires ModelRows(model, DocsOf(docs, model.collectionName), lib).Ok?
    requires RowsMatch(rows, ModelRows(model, DocsOf(docs, model.collectionName), lib).value)
    requires ids.Keys <= ids'.Keys && adminIds.Keys <= adminIds'.Keys
    requires Covered(ids', adminIds', model, DocsOf(docs, model.collectionName), lib)
    ensures forall p :: 0 <= p < |fixed| + 1 ==> FixedModel(models[p], (fixed + [model])[p])
    ensures AllRows(fixed + [model], docs, lib).Ok?
    ensures RowsMatch(inserted + rows, AllRows(fixed + [model], docs, lib).value)
    ensures DocsHaveIds(ids', docs, fixed + [model]) && AdminsNoted(adminIds', docs, fixed + [model], lib)
  {
    RowsMatchAppend(inserted, AllRows(fixed, docs, lib).value, rows,
                    ModelRows(model, DocsOf(docs, model.collectionName), lib).value);
    AllRowsSnoc(fixed, model, docs, lib);
    NotedSnoc(ids, ids', adminIds, adminIds', docs, fixed, model, lib);
  }

  /** The rows of one more model follow those of the models before it. */
  lemma AllRowsSnoc(models: seq<ModelDef>, model: ModelDef, docs: map<string, seq<Object<Value>>>, lib: Lib)
    requires AllRows(models, docs, lib).Ok?
    requires ModelRows(model, DocsOf(docs, model.collectionName), lib).Ok?
    ensures AllRows(models + [model], docs, lib)
         == Ok(AllRows(models, docs, lib).value + ModelRows(model, DocsOf(docs, model.collectionName), lib).value)
  {
    assert (models + [model])[..|models|] == models;
  }

  /** `fixed` is `model` with its attributes fixed up. */
  predicate FixedModel(model: ModelDef, fixed: ModelDef)
  {
    fixed == model.(attributes := fixed.attributes) &&
    fixed.attributes.vals == FixedAttributes(model.uid, model.attributes.vals)
  }

  // ---------------------------------------------------------------------
  // Second pass: links
  // ---------------------------------------------------------------------

  /** Appends the writes of a step to those so far; the first error stops
      everything. */
  function AndThen(done: Result<seq<Write>, MigrationError>, next: Result<seq<Write>, MigrationError>): Result<seq<Write>, MigrationError>
  {
    match done
    case Err(e) => Err(e)
    case Ok(ws) =>
      match next
      case Err(e) => Err(e)
      case Ok(more) => Ok(ws + more)
  }

  /** The writes for the first `keys` of a document. */
  function EntryWrites(models: seq<ModelDef>, modelMap: map<string, ModelDef>, model: ModelDef,
                       entry: Object<Value>, keys: seq<string>, lib: Lib): Result<seq<Write>, MigrationError>
    decreases |keys|
  {
    if |keys| == 0 then Ok([])
    else
      var n := |keys| - 1;
      AndThen(EntryWrites(models, modelMap, model, entry, keys[..n], lib),
              KeyWrites(models, modelMap, model, entry, keys[n], lib))
  }

  /** The writes for the first `entries` of a model. */
  function ModelWrites(models: seq<ModelDef>, modelMap: map<string, ModelDef>, model: ModelDef,
                       entries: seq<Object<Value>>, lib: Lib): Result<seq<Write>, MigrationError>
    decreases |entries|
  {
    if |entries| == 0 then Ok([])
    else
      var n := |entries| - 1;
      AndThen(ModelWrites(models, modelMap, model, entries[..n], lib),
              EntryWrites(models, modelMap, model, entries[n], entries[n].order, lib))
  }

  /** The writes for the documents of the first `upTo` models. */
  function AllWrites(models: seq<ModelDef>, modelMap: map<string, ModelDef>, docs: map<string, seq<Object<Value>>>,
                     upTo: nat, lib: Lib): Result<seq<Write>, MigrationError>
    requires upTo <= |models|
  {
    if upTo == 0 then Ok([])
    else
      AndThen(AllWrites(models, modelMap, docs, upTo - 1, lib),
              ModelWrites(models, modelMap, models[upTo - 1], DocsOf(docs, models[upTo - 1].collectionName), lib))
  }

  /** The writes for the keys of one document, key by key. */
  method DocumentPass(models: seq<ModelDef>, modelMap: map<string, ModelDef>, model: ModelDef, entry: Object<Value>, lib: Lib)
    returns (result: Result<seq<Write>, MigrationError>)
    ensures result == EntryWrites(models, modelMap, model, entry, entry.order, lib)
  {
    var keys := entry.order;
    var writes: seq<Write> := [];
    for k := 0 to |keys|
      invariant EntryWrites(models, modelMap, model, entry, keys[..k], lib) == Ok(writes)
    {
      var w := KeyWrites(models, modelMap, model, entry, keys[k], lib);
      EntryWritesSnoc(models, modelMap, model, entry, keys, k, lib);
      if w.Err? {
        EntryWritesFails(models, modelMap, model, entry, keys, k + 1, lib);
        return Err(w.error);
      }
      writes := writes + w.value;
    }
    assert keys[..|keys|] == keys;
    result := Ok(writes);
  }

  /** The writes for the documents of one model, document by document. */
  method ModelPass(models: seq<ModelDef>, modelMap: map<string, ModelDef>, model: ModelDef, entries: seq<Object<Value>>, lib: Lib)
    returns (result: Result<seq<Write>, MigrationError>)
    ensures result == ModelWrites(models, modelMap, model, entries, lib)
  {
    var writes: seq<Write> := [];
    for j := 0 to |entries|
      invariant ModelWrites(models, modelMap, model, entries[..j], lib) == Ok(writes)
    {
      var w := DocumentPass(models, modelMap, model, entries[j], lib);
      ModelWritesSnoc(models, modelMap, model, entries, j, lib);
      if w.Err? {
        ModelWritesFails(models, modelMap, model, entries, j + 1, lib);
        return Err(w.error);
      }
      writes := writes + w.value;
    }
    assert entries[..|entries|] == entries;
    result := Ok(writes);
  }

  /** The second pass: for each model, each of its documents and each key
      of the document, in order, the writes of that field; the first error
      stops the pass. */
  method SecondPass(models: seq<ModelDef>, modelMap: map<string, ModelDef>, docs: map<string, seq<Object<Value>>>, lib: Lib)
    returns (result: Result<seq<Write>, MigrationError>)
    ensures result == AllWrites(models, modelMap, docs, |models|, lib)
  {
    var writes: seq<Write> := [];
    for i := 0 to |models|
      invariant AllWrites(models, modelMap, docs, i, lib) == Ok(writes)
    {
      var w := ModelPass(models, modelMap, models[i], DocsOf(docs, models[i].collectionName), lib);
      assert AllWrites(models, modelMap, docs, i + 1, lib) == AndThen(Ok(writes), w);
      if w.Err? {
        AllWritesFails(models, modelMap, docs, i + 1, lib);
        return Err(w.error);
      }
      writes := writes + w.value;
    }
    result := Ok(writes);
  }

  /** The writes of one more key follow those of the keys before it. */
  lemma EntryWritesSnoc(models: seq<ModelDef>, modelMap: map<string, ModelDef>, model: ModelDef,
                        entry: Object<Value>, keys: seq<string>, k: nat, lib: Lib)
    requires k < |keys|
    ensures EntryWrites(models, modelMap, model, entry, keys[..k + 1], lib) ==
      AndThen(EntryWrites(models, modelMap, model, entry, keys[..k], lib), KeyWrites(models, modelMap, model, entry, keys[k], lib))
  {
    assert keys[..k + 1][..k] == keys[..k];
  }

  /** The writes of one more document follow those of the documents before
      it. */
  lemma ModelWritesSnoc(models: seq<ModelDef>, modelMap: map<string, ModelDef>, model: ModelDef,
                        entries: seq<Object<Value>>, j: nat, lib: Lib)
    requires j < |entries|
    ensures ModelWrites(models, modelMap, model, entries[..j + 1], lib) ==
      AndThen(ModelWrites(models, modelMap, model, entries[..j], lib), EntryWrites(models, modelMap, model, entries[j], entries[j].order, lib))
  {
    assert entries[..j + 1][..j] == entries[..j];
  }

  /** Once the writes of some keys fail, so do those of more keys. */
  lemma {:induction false} EntryWritesFails(models: seq<ModelDef>, modelMap: map<string, ModelDef>, model: ModelDef,
                                            entry: Object<Value>, keys: seq<string>, k: nat, lib: Lib)
    requires k <= |keys| && EntryWrites(models, modelMap, model, entry, keys[..k], lib).Err?
    ensures EntryWrites(models, modelMap, model, entry, keys, lib) == EntryWrites(models, modelMap, model, entry, keys[..k], lib)
    decreases |keys| - k
  {
    if k < |keys| {
      assert keys[..k + 1][..k] == keys[..k];
      EntryWritesFails(models, modelMap, model, entry, keys, k + 1, lib);
    } else {
      assert keys[..k] == keys;
    }
  }

  /** Once the writes of some documents fail, so do those of more. */
  lemma {:induction false} ModelWritesFails(models: seq<ModelDef>, modelMap: map<string, ModelDef>, model: ModelDef,
                                            entries: seq<Object<Value>>, j: nat, lib: Lib)
    requires j <= |entries| && ModelWrites(models, modelMap, model, entries[..j], lib).Err?
    ensures ModelWrites(models, modelMap, model, entries, lib) == ModelWrites(models, modelMap, model, entries[..j], lib)
    decreases |entries| - j
  {
    if j < |entries| {
      assert entries[..j + 1][..j] == entries[..j];
      ModelWritesFails(models, modelMap, model, entries, j + 1, lib);
    } else {
      assert entries[..j] == entries;
    }
  }

  /** Once the writes of some models fail, so do those of more. */
  lemma {:induction false} AllWritesFails(models: seq<ModelDef>, modelMap: map<string, ModelDef>,
                                          docs: map<string, seq<Object<Value>>>, i: nat, lib: Lib)
    requires i <= |models| && AllWrites(models, modelMap, docs, i, lib).Err?
    ensures AllWrites(models, modelMap, docs, |models|, lib) == AllWrites(models, modelMap, docs, i, lib)
    decreases |models| - i
  {
    if i < |models| {
      AllWritesFails(models, modelMap, docs, i + 1, lib);
    }
  }

  // ---------------------------------------------------------------------
  // The whole run
  // ---------------------------------------------------------------------

  /** Moving one model to the front keeps the uids pairwise distinct. */
  lemma MovedDistinct(models: seq<ModelDef>, r: seq<ModelDef>, i: nat)
    requires UidsDistinct(models) && i < |models| && |r| == |models|
    requires r[0] == models[i]
    requires forall k :: 0 <= k < i ==> r[k + 1] == models[k]
    requires forall k :: i < k < |models| ==> r[k] == models[k]
    ensures UidsDistinct(r)
  {
    forall p, q | 0 <= p < q < |r|
      ensures r[p].uid != r[q].uid
    {
      var fp := if p == 0 then i else if p <= i then p - 1 else p;
      var fq := if q <= i then q - 1 else q;
      assert r[p] == models[fp] && r[q] == models[fq];
      if fp < fq {
        assert models[fp].uid != models[fq].uid;
      } else {
        assert models[fq].uid != models[fp].uid;
      }
    }
  }

  /** Rearranging the models keeps their set of uids. */
  lemma PermutedUids(a: seq<ModelDef>, b: seq<ModelDef>)
    requires multiset(a) == multiset(b)
    ensures Uids(a) == Uids(b)
  {
    forall m | m in a ensures m in b {
      assert m in multiset(a);
    }
    forall m | m in b ensures m in a {
      assert m in multiset(b);
    }
  }

  /** Parsing each definition keeps the uids. */
  lemma ParsedUids(raw: seq<ModelDef>, parsed: seq<ModelDef>, lib: Lib)
    requires |parsed| == |raw| && forall i :: 0 <= i < |raw| ==> parsed[i] == ParseModel(raw[i], lib)
    ensures Uids(parsed) == Uids(raw)
  {
    forall u | u in Uids(raw) ensures u in Uids(parsed) {
      var i :| 0 <= i < |raw| && raw[i].uid == u;
      assert parsed[i].uid == u;
    }
  }

  /** Changing only the attributes of each model keeps the uids. */
  lemma FixedUids(models: seq<ModelDef>, fixed: seq<ModelDef>)
    requires |fixed| == |models| && forall i :: 0 <= i < |models| ==> FixedModel(models[i], fixed[i])
    ensures Uids(fixed) == Uids(models)
    ensures UidsDistinct(models) ==> UidsDistinct(fixed)
  {
    forall u | u in Uids(models) ensures u in Uids(fixed) {
      var i :| 0 <= i < |models| && models[i].uid == u;
      assert fixed[i].uid == u;
    }
    forall u | u in Uids(fixed) ensures u in Uids(models) {
      var i :| 0 <= i < |fixed| && fixed[i].uid == u;
      assert models[i].uid == u;
    }
  }

  /** Each stored definition parsed. */
  function Parsed(raw: seq<ModelDef>, lib: Lib): (parsed: seq<ModelDef>)
    ensures |parsed| == |raw| && forall i :: 0 <= i < |raw| ==> parsed[i] == ParseModel(raw[i], lib)
  {
    seq(|raw|, i requires 0 <= i < |raw| => ParseModel(raw[i], lib))
  }

  /** The models the run works on: the parsed definitions merged by uid
      with the listed models dropped, then the first administrator model
      moved first. */
  function Prepared(raw: seq<ModelDef>, lib: Lib): Result<seq<ModelDef>, MigrationError>
  {
    var merged := MergeAll(Parsed(raw, lib), ModelsToDrop);
    var i := FirstIndex(merged, AdminUid);
    if i == |merged| then Err(AdminMissing) else Ok(MovedFirst(merged, i))
  }

  /** The model definitions read from the database are parsed, merged by
      uid with the listed models dropped, and the administrator model is
      put first. The result has pairwise distinct uids, exactly the parsed
      uids that are not dropped, the administrator model first; without an
      administrator model it is AdminMissing. */
  method PrepareModels(raw: seq<ModelDef>, lib: Lib) returns (r: Result<seq<ModelDef>, MigrationError>)
    ensures r == Prepared(raw, lib)
    ensures r.Err? <==> AdminUid !in Uids(raw)
    ensures r.Err? ==> r.error == AdminMissing
    ensures r.Ok? ==>
      && UidsDistinct(r.value)
      && (forall u :: u in Uids(r.value) <==> u in Uids(raw) && u !in ModelsToDrop)
      && r.value[0].uid == AdminUid
  {
    var parsed := Parsed(raw, lib);
    ParsedUids(raw, parsed, lib);
    var merged := Merge(parsed, ModelsToDrop);
    MergeAllUids(parsed, ModelsToDrop);
    MergeAllDistinct(parsed, ModelsToDrop);
    r := MoveAdminFirst(merged);
    AdminKept();
    if r.Ok? {
      MovedDistinct(merged, r.value, FirstIndex(merged, AdminUid));
      PermutedUids(r.value, merged);
    }
  }

  /** `run`: the model definitions read from the database are parsed,
      merged by uid with the listed models dropped, and the administrator
      model is put first; the first pass inserts the rows and the second
      derives the links, using the map from uid to (fixed) model. On
      success the final models have pairwise distinct uids, exactly the
      parsed uids that are not dropped, the administrator model first. A
      missing administrator model stops the run at once; otherwise the
      first prepared model whose bad `timestamps` option meets a document
      stops it with that model's error, before any link is written. When
      no model stops it, the final models are the prepared ones with their
      attributes fixed, the inserted rows match their projected rows, no
      two rows of one table share an id, and the run ends with the writes of the second pass or its error. */
  method Run(raw: seq<ModelDef>, docs: map<string, seq<Object<Value>>>, lib: Lib)
    returns (models: seq<ModelDef>, result: Result<(seq<Inserted>, seq<Write>), MigrationError>)
    ensures Prepared(raw, lib).Err? <==> AdminUid !in Uids(raw)
    ensures Prepared(raw, lib).Err? ==> result == Err(AdminMissing)
    ensures Prepared(raw, lib).Ok? ==> var ordered := Prepared(raw, lib).value;
      && (forall i :: 0 <= i < |ordered| && FirstStop(ordered, docs, i) ==>
            result == Err(BadTimestamps(ordered[i].uid)))
      && ((forall i :: 0 <= i < |ordered| ==> !StopsFirstPass(ordered[i], docs)) ==>
            && |models| == |ordered|
            && (forall i :: 0 <= i < |ordered| ==> FixedModel(ordered[i], models[i]))
            && AllRows(models, docs, lib).Ok?
            && (result.Err? ==> AllWrites(models, ModelMap(models), docs, |models|, lib) == Err(result.error))
            && (result.Ok? ==>
                  && RowsMatch(result.value.0, AllRows(models, docs, lib).value)
                  && AllWrites(models, ModelMap(models), docs, |models|, lib) == Ok(result.value.1)))
    ensures result.Ok? ==>
      && UidsDistinct(models)
      && (forall u :: u in Uids(models) <==> u in Uids(raw) && u !in ModelsToDrop)
      && |models| > 0 && models[0].uid == AdminUid
      && DistinctIds(result.value.0)
  {
    var ordered := PrepareModels(raw, lib);
    if ordered.Err? {
      return [], Err(ordered.error);
    }
    var ids := new IdMap();
    var fixed, first := FirstPass(ordered.value, docs, ids, lib);
    if first.Err? {
      FirstStopUnique(ordered.value, docs);
      return fixed, Err(first.error);
    }
    FixedUids(ordered.value, fixed);
    assert FixedModel(ordered.value[0], fixed[0]);
    models := fixed;
    var modelMap := ModelMap(models);
    var second := SecondPass(models, modelMap, docs, lib);
    if second.Err? {
      return models, Err(second.error);
    }
    result := Ok((first.value.0, second.value));
  }
}
