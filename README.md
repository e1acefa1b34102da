# MongoDB to SQL migration of a Strapi v3 database, modelled in Dafny

This project models the core of the `v3-mongodb-v3-sql` migration script.
The script copies a Strapi v3 content database from MongoDB into a SQL
database. The model covers:

- **Reading the schema.** Model definitions are read from `core_store` and
  each one is classified by its uid. A uid is a component (`group.name`), an
  admin model (`strapi::name`), a plugin model (`plugins::plugin.name`) or an
  application model (`application::api.name`). Each model gets its
  `plugin`, `apiName`, `modelName` and `globalId`.
- **Merging definitions.** Definitions that share a uid are merged into
  one. The first definition's position is kept. The top-level keys and the
  attribute names are compared with the script's character-by-character
  `sameKeys`. The uids listed in `modelsToDrop` are dropped.
- **Ordering.** The administrator model `strapi::user` is moved to the
  front.
- **First pass.** Each model's attributes are fixed up:
  - `kickers` and `ss_users` are dropped from every model.
  - `uuid`/`deleted` and `created_by`/`updated_by` are added to the models
    listed for them.
  - `fields` is dropped from `strapi::permission`.

  Then every document is projected onto a row. A document becomes
  `transformEntry`: `uuid`, `deleted`, the two timestamp columns and one
  column per scalar attribute, with JSON stringified and missing values
  defaulted. The row gets a new id from the identifier map and is inserted.
  The administrator users' new ids are noted.
- **Second pass.** For every field of every document, the link rows are
  derived:
  - component and dynamic-zone link rows;
  - single- and multiple-file morph rows;
  - inline relation updates;
  - join-table rows for many-way and dominant many-to-many relations.

  The join table's name comes from `getCollectionName`.

The module layout follows the script:

| module | contents |
|---|---|
| `Wrappers` | Option and Result. |
| `Strings` | JS `split`, `join`, `indexOf`, `includes`, `startsWith` and string `<`. |
| `Js` | JS values, truthiness, and insertion-ordered objects with `Object.assign` and `delete`. |
| `Schema` | Attributes and model definitions, plus the lists of `extensions.js`. |
| `Registry` | Everything in `index.js` before the first pass. |
| `Transform` | `transform.js`. |
| `Links` | The body of the second pass. |
| `IdMaps` | A stand-in for the identifier map. |
| `Migration` | The two passes and `run`. |

Where the code is imperative, the model is imperative too:

- `sameKeys`, the merge `reduce`, the splice/unshift, the attribute
  fix-ups, `transformEntry`'s `forEach` and both passes' loops are methods.
- Each of these methods is proved against a specification function.
- The identifier map, which the script mutates, is a class.

Library helpers are parameters of a `Lib` record whose function fields are
left uninterpreted. These are lodash `camelCase`/`upperFirst`/`snakeCase`,
pluralize `singular`/`plural`, `JSON.stringify` and `ObjectId#toString`.
Database I/O becomes data:

- A collection is the sequence of documents its cursor yields.
- The run's output is the list of inserted rows plus the list of link
  writes.

### Behaviour of the code worth knowing

- **Merged attributes: which definition wins.** The comment above the
  merge (index.js:122-126) says only that definitions of the same uid are
  merged together. One might expect the later definition's attributes to
  win on shared names. The code makes the EARLIER one win whenever the
  top-level keys differ:
  1. `Object.assign(existingModel, model)` makes the kept model's
     `attributes` the later definition's own object.
  2. The second `Object.assign(existingModel.attributes, existingAttributes,
     model.attributes)` then copies the earlier attributes over it.
  3. Copying the later attributes onto themselves changes nothing.

  The later definition wins only when the top-level keys matched.
  `MergeInto` models the code. `SharesLaterAttributes` names the case and
  `MergeUnitesAttributes` states both outcomes.
- **Uid lists.** `transform.js` has its own lists of models that get `uuid`
  and `deleted` columns. These lists lack
  `application::sqsp-oauth-requests.sqsp-oauth-requests` and
  `application::subscription.subscription`, which `extensions.js` lists for
  the `uuid`/`deleted` attributes. So the attribute fix-up and the row
  projection use different lists, as in the code.
- **`sameKeys` works on strings.** It compares the comma-joined key lists
  character by character (`indexOf` of a one-character string). So, for
  example, attribute lists `name` and `mane` count as the same keys. For
  equal lengths it checks the second argument's characters against the
  first.

## Model

| member | source | states |
|---|---|---|
| Strings.IndexFrom | v3-mongodb-v3-sql/index.js:132 | `indexOf` from a position finds the first occurrence at or after it, and None means there is none. |
| Strings.Split | v3-mongodb-v3-sql/index.js:74 | `split` gives at least one piece, and at least two exactly when the separator occurs. |
| Strings.JoinSplit | v3-mongodb-v3-sql/index.js:86-92 | Joining the pieces of a split with the same separator gives back the original string. |
| Strings.SplitPiecesFree | v3-mongodb-v3-sql/index.js:86-92 | No piece of a split contains the separator. |
| Strings.SplitAfter | v3-mongodb-v3-sql/index.js:88-92 | When the separator does not occur in the head, the split is the head followed by the split of the rest. |
| Strings.SplitAfterFree | v3-mongodb-v3-sql/index.js:88-92 | The same, when the separator's first character does not occur in the head. |
| Strings.SplitNoSep | v3-mongodb-v3-sql/index.js:74 | A string without the separator splits into itself alone. |
| Strings.NoLeadNoContains | v3-mongodb-v3-sql/index.js:71 | A string lacking the separator's first character does not contain it. |
| Strings.FirstCharDiffers | v3-mongodb-v3-sql/index.js:84-90 | A string whose first character differs from the prefix's does not start with it. |
| Strings.LexLessTotal | v3-mongodb-v3-sql/index.js:43 | String `<` is a strict total order: irreflexive, asymmetric, and one of two distinct strings is below the other. |
| Js.Prop | v3-mongodb-v3-sql/index.js:393-399 | A property read fails (TypeError) exactly on `undefined` and `null`, and otherwise reads the field. |
| Js.Put | v3-mongodb-v3-sql/index.js:348 | Setting a property updates exactly that key. |
| Js.Without | v3-mongodb-v3-sql/index.js:205-213 | Removing a key from the key order leaves exactly the other keys and keeps them distinct. |
| Js.Delete | v3-mongodb-v3-sql/index.js:205-213 | `delete` removes exactly that key. |
| Js.Assign | v3-mongodb-v3-sql/index.js:149 | `Object.assign` gives the target's entries overridden by the source's. |
| Js.AssignKeys | v3-mongodb-v3-sql/index.js:156 | Copying the listed keys gives the target's keys plus those keys, with the copied keys taking the source's values. |
| Js.AssignKeysKeepsOrder | v3-mongodb-v3-sql/index.js:156 | Assigning keys the target already has leaves the target's key order unchanged. |
| Js.AssignSelf | v3-mongodb-v3-sql/index.js:156 | Assigning an object onto itself changes nothing, which is why the aliased merge keeps the earlier attributes. |
| Registry.GlobalId | v3-mongodb-v3-sql/index.js:22-26 | A stored truthy `globalId` wins; otherwise it is the PascalCase of `prefix-modelName`, or of the model name when there is no prefix. |
| Registry.AddProps | v3-mongodb-v3-sql/index.js:95-101 | Spreading a model and adding properties keeps the old keys first and in order, and adds exactly the new ones. |
| Registry.ParseModel | v3-mongodb-v3-sql/index.js:67-102 | Parsing keeps the uid, collection name, timestamps and attributes, and always sets a `globalId`. |
| Registry.SplitDotted | v3-mongodb-v3-sql/index.js:74 | `group.name` splits on `.` into the group and the name. |
| Registry.SplitNamespace | v3-mongodb-v3-sql/index.js:71 | `ns::rest` splits on `::` into its two parts and is not a component uid. |
| Registry.ParseComponent | v3-mongodb-v3-sql/index.js:71-77 | A component `group.name` gets `modelName` = name and `globalId` = PascalCase of `component_` + uid, and keeps its plugin and api name. |
| Registry.ParseAdmin | v3-mongodb-v3-sql/index.js:84-86 | `strapi::name` gets plugin `admin`, no api name, `modelName` = name and the `admin-name` global id unless one is stored. |
| Registry.PluginUidParts | v3-mongodb-v3-sql/index.js:87-89 | `plugins::p.name` classifies as plugin `p` with model name `name`. |
| Registry.ApplicationUidParts | v3-mongodb-v3-sql/index.js:90-92 | `application::api.name` classifies as api `api` with model name `name`. |
| Registry.ParsePlugin | v3-mongodb-v3-sql/index.js:87-89 | A plugin model gets its plugin, no api name, its model name and the `plugin-name` global id unless one is stored. |
| Registry.ParseApplication | v3-mongodb-v3-sql/index.js:90-92 | An application model gets no plugin, its api name, its model name and the model name's global id unless one is stored. |
| Registry.UidParts | v3-mongodb-v3-sql/index.js:80-92 | A non-component uid never gets both a plugin and an api name. `strapi::` gives plugin `admin` and the name after `::`; a `plugins` prefix gives no api name and an `application` prefix no plugin; any other prefix leaves all three parts undefined. |
| Registry.PrefixesDisjoint | v3-mongodb-v3-sql/index.js:84-92 | A uid starts with at most one of `strapi::`, `plugins` and `application`, so at most one branch applies. |
| Registry.SameKeys | v3-mongodb-v3-sql/index.js:128-135 | The loop returns whether every character of the longer string (the second on ties) occurs in the other. |
| Registry.CharOccurs | v3-mongodb-v3-sql/index.js:132 | `indexOf` of a one-character string is found exactly when the character occurs. |
| Registry.SameKeysReflexive | v3-mongodb-v3-sql/index.js:128-135 | A key list has the same keys as itself. |
| Registry.SameCharactersSameKeys | v3-mongodb-v3-sql/index.js:128-146 | Any two key lists whose joined strings use the same characters count as the same keys, so `name` matches `mane`. |
| Registry.FindByUid | v3-mongodb-v3-sql/index.js:138 | `find` by uid gives the first model with that uid, and nothing exactly when no model has it. |
| Registry.MergeInto | v3-mongodb-v3-sql/index.js:139-158 | Merging two definitions keeps the uid. |
| Registry.MergeModel | v3-mongodb-v3-sql/index.js:139-158 | The in-place merge computes the merged definition step by step. |
| Registry.Merge | v3-mongodb-v3-sql/index.js:137-168 | The `reduce` computes the fold of merge steps over the definitions. |
| Registry.FirstIndex | v3-mongodb-v3-sql/index.js:171-172 | `indexOf(find(...))` is the first position with the uid, or the length when there is none. |
| Registry.MergeStepUids | v3-mongodb-v3-sql/index.js:137-168 | One step merges into an existing model, drops a listed uid, or appends a new model; no earlier model's uid changes. |
| Registry.MergeAllUids | v3-mongodb-v3-sql/index.js:137-168 | After merging, the uids are exactly the input uids that are not dropped. |
| Registry.MergeAllDistinct | v3-mongodb-v3-sql/index.js:137-168 | After merging, no two models share a uid. |
| Registry.MergeStepDistinct | v3-mongodb-v3-sql/index.js:138-161 | A step keeps the uids pairwise distinct. |
| Registry.FirstIndexInPrefix | v3-mongodb-v3-sql/index.js:137-168 | A uid first seen in a prefix has the same first position in the whole list. |
| Registry.MergeAllOrder | v3-mongodb-v3-sql/index.js:137-168 | Merged models keep the order of their uids' first appearance. |
| Registry.MergeStepOrder | v3-mongodb-v3-sql/index.js:137-168 | A step keeps the merged models in first-appearance order. |
| Registry.MergeSameKeysKeepsFirst | v3-mongodb-v3-sql/index.js:146-158 | With identical keys and attribute names, the earlier definition is kept unchanged. |
| Registry.MergeUnitesAttributes | v3-mongodb-v3-sql/index.js:140-158 | Different attribute names: the result has both sets of names. A name in only one definition keeps that definition's attribute. A shared name takes the earlier one when the top-level keys differed, and the later one otherwise. |
| Registry.MergeReplacesAttributes | v3-mongodb-v3-sql/index.js:146-153 | Different top-level keys with matching attribute names: the later definition's attributes replace the earlier ones. |
| Registry.MoveAdminFirst | v3-mongodb-v3-sql/index.js:171-174 | Fails with AdminMissing exactly when there is no `strapi::user`. Otherwise it gives `MovedFirst` of the first one's position: that model in front, everything else in order, as a permutation. |
| Registry.MovedToFront | v3-mongodb-v3-sql/index.js:171-174 | `splice` then `unshift` (`MovedFirst`) puts the model first, keeps the length and the multiset of models, shifts the models before the moved one by one and leaves those after it in place. |
| Registry.ModelMap | v3-mongodb-v3-sql/index.js:188-191 | The map's keys are exactly the models' uids, and each entry is a model with that uid. |
| Registry.ModelMapFinds | v3-mongodb-v3-sql/index.js:188-191 | With distinct uids, every model is found under its own uid. |
| Registry.FixUp | v3-mongodb-v3-sql/index.js:203-316 | Only the attributes change, and they become the fixed-up attributes of the model's uid. |
| Registry.DropAttribute | v3-mongodb-v3-sql/index.js:205-213 | The guarded `delete` removes exactly that attribute name, and does nothing when it is absent. |
| Registry.FixUpDrops | v3-mongodb-v3-sql/index.js:205-213 | After the fix-up there is no `kickers` or `ss_users`, and `strapi::permission` has no `fields`. |
| Registry.FixUpAdds | v3-mongodb-v3-sql/index.js:246-265 | Listed models get `uuid` of type `uid` and `deleted` boolean defaulting to false, or integer `created_by`/`updated_by`. |
| Registry.FixUpKeepsOthers | v3-mongodb-v3-sql/index.js:203-316 | Every other attribute is kept as it was. |
| Transform.TimestampKeys | v3-mongodb-v3-sql/transform.js:10-27 | Errs (BadTimestamps of the uid) exactly on an array whose length is not 2 or on a non-boolean, non-array option. An absent option or `true` gives `createdAt`, `updatedAt`; a two-element array gives its own names; `false`, and only `false`, gives none. |
| Transform.IsScalar | v3-mongodb-v3-sql/transform.js:7-8 | An attribute without a `type` (a relation) is not scalar, nor is a component or a dynamic zone; every other typed attribute is. |
| Transform.TransformEntry | v3-mongodb-v3-sql/transform.js:29-74 | The `forEach` loop builds exactly the projected row. |
| Transform.IdColumns | v3-mongodb-v3-sql/transform.js:35-39 | The first columns written are at most `uuid` and `deleted`. |
| Transform.TimestampColumns | v3-mongodb-v3-sql/transform.js:43-51 | Writing the timestamps adds at most `created_at` and `updated_at` and leaves every other column as it was. |
| Transform.ColumnsFrame | v3-mongodb-v3-sql/transform.js:53-71 | The attribute loop adds only scalar attribute columns and leaves every other column alone. |
| Transform.ColumnsValue | v3-mongodb-v3-sql/transform.js:53-71 | Each scalar attribute's column holds the value the field or its default gives, and is absent without either. |
| Transform.RowColumns | v3-mongodb-v3-sql/transform.js:29-74 | A row's columns are `uuid`, `deleted`, the timestamps, or scalar attributes of the model. |
| Transform.RowScalar | v3-mongodb-v3-sql/transform.js:53-70 | A present scalar field is copied, stringified when JSON. A missing one takes its truthy default, also stringified when JSON. Otherwise the column is absent. |
| Transform.BaseRowTimestamps | v3-mongodb-v3-sql/transform.js:43-51 | `created_at`/`updated_at` are set exactly when the first/second timestamp name is non-empty, from that document field. |
| Transform.BaseRowUuidDeleted | v3-mongodb-v3-sql/transform.js:35-39 | Listed models get `uuid` = the document id as a string, and `deleted` = the document's truthy `deleted` or false. |
| Transform.RowTimestamps | v3-mongodb-v3-sql/transform.js:43-51 | The same holds in the finished row unless an attribute of that name overrides it. |
| Transform.RowUuidDeleted | v3-mongodb-v3-sql/transform.js:35-39 | The same holds in the finished row unless a scalar attribute of that name writes its own value. |
| Links.GetCollectionName | v3-mongodb-v3-sql/index.js:28-36 | A dominant side's `collectionName` is the join table's name, the first side's before the second's. |
| Links.SortPair | v3-mongodb-v3-sql/index.js:37-44 | V8's sort of two sides is one of the two orders. Different defined collections: the smaller collection comes first. The same collection: the second side comes first unless it is dominant. Exactly one undefined collection: the order is kept, since `<` with `undefined` is false. |
| Links.JoinNameByCollection | v3-mongodb-v3-sql/index.js:37-48 | With different collections and no override, the name does not depend on argument order, and the side with the smaller collection comes first. |
| Links.JoinNameDominantLast | v3-mongodb-v3-sql/index.js:37-48 | With the same collection, the dominant side's part comes last whichever side is passed first. |
| Links.JoinNameTie | v3-mongodb-v3-sql/index.js:37-48 | With the same collection and dominance, V8's one comparison puts the second side first unless it is dominant. |
| Links.FindTarget | v3-mongodb-v3-sql/index.js:470-475 | Finds the first model whose name is the relation's model or collection, with a matching plugin when one is given; None means no model matches. |
| Links.Classify | v3-mongodb-v3-sql/index.js:477-504 | The first flag that holds: inline exactly for a truthy `model` whose inverse is a real model or collection (with `via`) or which is not `*` (without); one-to-many, many-way and many-to-many exactly under their flags when not inline; unlinked exactly when no flag holds for the `model` or the `collection` side. |
| Links.InsertIfAny | v3-mongodb-v3-sql/index.js:404-406 | An insert is made exactly when there is at least one row. |
| Links.Items | v3-mongodb-v3-sql/index.js:393 | `map` works exactly on arrays; anything else is a NotAnArray error. |
| Links.MapIndexed | v3-mongodb-v3-sql/index.js:393-402 | `map` succeeds exactly when every callback does, with one result per item. Otherwise it fails with the first failing item's error. |
| Links.FindByGlobalId | v3-mongodb-v3-sql/index.js:416 | Finds a model with that `globalId` and no earlier one has it, or reports that no model has it. |
| Links.JoinRows | v3-mongodb-v3-sql/index.js:538-543 | One join row per id, each linking that id to the owning document. |
| Links.ManyWayColumns | v3-mongodb-v3-sql/index.js:531-536 | The two foreign-key columns of a many-way join table always differ. |
| Links.KeyWrites | v3-mongodb-v3-sql/index.js:380-582 | A key the model does not declare writes nothing. Whatever a field writes, every insert has at least one row and the only update is of the field's own column in the owner's row, set to the referenced document's id. |
| Links.RelationWrites | v3-mongodb-v3-sql/index.js:467-581 | The relation branches write only non-empty inserts and the update of the field's own column. |
| Links.ComponentWrites | v3-mongodb-v3-sql/index.js:387-409 | The component branch writes only a non-empty insert. |
| Links.DynamicZoneWrites | v3-mongodb-v3-sql/index.js:411-433 | The dynamic-zone branch writes only a non-empty insert. |
| Links.SingleFileWrites | v3-mongodb-v3-sql/index.js:436-450 | The single-file branch inserts exactly one row. |
| Links.MultipleFileWrites | v3-mongodb-v3-sql/index.js:453-465 | The multiple-files branch writes only a non-empty insert. |
| Links.FileAndRelationWrites | v3-mongodb-v3-sql/index.js:435-581 | The file rows followed by the relation's writes keep both properties. |
| Links.NoFileRows | v3-mongodb-v3-sql/index.js:435-467 | A field that is not a file field writes exactly its relation writes. |
| Links.NonLinkFieldWritesNothing | v3-mongodb-v3-sql/index.js:381-386 | A key without an attribute, or with a plain scalar attribute, writes nothing. |
| Links.InlineRelationWrites | v3-mongodb-v3-sql/index.js:506-520 | An inline relation updates the owning row's column to the target's id when the field is truthy, and otherwise writes nothing. |
| Links.OneWayIsInline | v3-mongodb-v3-sql/index.js:479 | A `model` relation without `via` (and not `*`) is inline. |
| Links.OneToManyWritesNothing | v3-mongodb-v3-sql/index.js:522-525 | The collection side of a one-to-many relation writes nothing. |
| Links.NonDominantManyToManyWritesNothing | v3-mongodb-v3-sql/index.js:552-576 | The non-dominant side of a many-to-many relation writes nothing. |
| Links.MorphWritesNothing | v3-mongodb-v3-sql/index.js:470-504 | A polymorphic (`*`) relation writes nothing when it has no `via`, or when its `via` names an inverse attribute that is neither a real model nor a real collection. |
| Links.MorphWithInverseIsInline | v3-mongodb-v3-sql/index.js:470-520 | A `model: "*"` relation with a `via` whose inverse attribute is a real model or collection is treated as inline: a truthy value writes exactly one update of the owner's column to the referenced id. |
| Links.ManyWayWrites | v3-mongodb-v3-sql/index.js:527-550 | A many-way relation inserts one join row per id into its own or the derived join table. |
| Links.DominantManyToManyWrites | v3-mongodb-v3-sql/index.js:552-573 | The dominant side fails with NotAnArray when the field is not an array and writes nothing for an empty list. Otherwise it inserts into the `getCollectionName` table one join row per id, the i-th linking that id to the owning document under the two foreign-key columns. |
| Links.SingleFileLinks | v3-mongodb-v3-sql/index.js:436-450 | A single file field without `via`: a truthy one inserts one morph row and, as a one-way `model` relation, also updates its own column. A falsy one writes nothing. |
| Links.SingleFileViaLinks | v3-mongodb-v3-sql/index.js:436-520 | A single file field with `via`: a falsy one writes nothing. A truthy one inserts the morph row, and also updates its own column exactly when the inverse attribute is a real model or collection. |
| Links.ComponentLinks | v3-mongodb-v3-sql/index.js:388-409 | A component field inserts one link row per item into `<collection>_components` (none for an empty list): a new id from the item's `_id`, the field, the 1-based order, the component's table, the id of the item's `ref` and the owner's id. |
| Links.DynamicZoneLinks | v3-mongodb-v3-sql/index.js:411-433 | A dynamic zone inserts the same rows, each item's component being the first model whose `globalId` is its `kind`. |
| Links.UnknownDynamicZoneKindFails | v3-mongodb-v3-sql/index.js:416-422 | A dynamic-zone item whose `kind` matches no model's `globalId` makes the field fail. |
| IdMaps.IdMap.Next | v3-mongodb-v3-sql/index.js:348 | `idMap.next` gives an id not given out before for that table and records it for the document id, changing nothing else. |
| IdMaps.IdMap.Get | v3-mongodb-v3-sql/index.js:442-443 | `idMap.get` gives the recorded id exactly when there is one. |
| Migration.PrepareModels | v3-mongodb-v3-sql/index.js:117-174 | Gives `Prepared`: the parsed definitions merged by uid with the listed ones dropped (`MergeAll`), then `MovedFirst` of the first admin model. Fails with AdminMissing exactly when no definition has the uid `strapi::user`. Otherwise the models have distinct uids, exactly the parsed ones not dropped, with the admin model first. |
| Migration.InsertDocument | v3-mongodb-v3-sql/index.js:347-353 | One document: fails exactly when its projection fails. Otherwise the row is the projection with `id` set to a new id not issued before for the model's table. That id is recorded for the document id and added to the table's issued ids, and nothing else of the id map changes. For the admin model the admin map gains exactly that id under the id string; for other models it is unchanged. |
| Migration.InsertDocuments | v3-mongodb-v3-sql/index.js:341-365 | The inner loop inserts the projected rows one for one. Each row's id is fresh for its table and no two rows share one; the issued ids of every table only grow. Every document gets a recorded id, and the administrator users' ids are noted. It fails exactly when the projected rows do, and with their error, which is a bad timestamps option. |
| Migration.ModelRowsFails | v3-mongodb-v3-sql/index.js:343-347 | An error on one document stops the rows of the rest. |
| Migration.ModelRowsErr | v3-mongodb-v3-sql/index.js:341-347 | A model's rows fail exactly when it has a bad `timestamps` option and at least one document, with BadTimestamps of its uid. |
| Migration.DocumentStep | v3-mongodb-v3-sql/index.js:341-365 | One more inserted document keeps the inner loop's invariant: matching rows, recorded ids, noted admin ids. |
| Migration.FreshAppend | v3-mongodb-v3-sql/index.js:348-352 | Rows whose ids were issued fresh in two successive stretches are fresh together: their ids are all new and pairwise distinct within a table. |
| Migration.FirstPass | v3-mongodb-v3-sql/index.js:198-370 | Fails exactly when some model has a bad `timestamps` option and a document, with the first such model's error. Otherwise each model is fixed up, the rows match the projected rows of the fixed models one for one, their ids are fresh and distinct within each table, every document has an id, and every admin user's id is noted. |
| Migration.FirstStopUnique | v3-mongodb-v3-sql/index.js:198-370 | At most one model is the first to stop the first pass. |
| Migration.FixedKeepsTimestamps | v3-mongodb-v3-sql/index.js:200-316 | The fix-ups keep the `timestamps` option, the uid and the collection, so the fixed model stops the pass exactly when the original does. |
| Migration.ModelStep | v3-mongodb-v3-sql/index.js:198-370 | One more model whose documents are inserted keeps the outer loop's invariant: fixed models, matching rows, recorded ids, noted admin ids. |
| Migration.DocumentPass | v3-mongodb-v3-sql/index.js:381-582 | The key loop writes the concatenated writes of the document's keys in key order. |
| Migration.ModelPass | v3-mongodb-v3-sql/index.js:376-583 | The document loop writes the concatenated writes of the documents in cursor order. |
| Migration.SecondPass | v3-mongodb-v3-sql/index.js:372-583 | The model loop writes the concatenated writes of all models, and the first error stops everything. |
| Migration.EntryWritesFails | v3-mongodb-v3-sql/index.js:381-582 | An error on one key stops the writes of the later keys. |
| Migration.ModelWritesFails | v3-mongodb-v3-sql/index.js:378-583 | An error on one document stops the writes of the later documents. |
| Migration.AllWritesFails | v3-mongodb-v3-sql/index.js:374-583 | An error on one model stops the writes of the later models. |
| Migration.MovedDistinct | v3-mongodb-v3-sql/index.js:171-174 | Moving the administrator model first keeps the uids distinct. |
| Migration.PermutedUids | v3-mongodb-v3-sql/index.js:171-174 | Rearranging the models keeps their set of uids. |
| Migration.FixedUids | v3-mongodb-v3-sql/index.js:200-316 | The fix-ups keep the models' uids. |
| Migration.Run | v3-mongodb-v3-sql/index.js:109-588 | Without a `strapi::user` model the run fails with AdminMissing. Otherwise, the first prepared model with a bad `timestamps` option and a document fails it with that model's error. When none does, the final models are the prepared ones fixed up one for one, their rows are projected and match the inserted ones, no two rows of one table share an id, and the run ends with the second pass's writes or its error. On success the models have distinct uids (exactly the parsed ones not dropped) with the admin model first. |

## Left out

- Database I/O is not modelled:
  - MongoDB and knex connections, cursors and `countDocuments`;
  - the SQL dialect hooks (`delAllTables`, `beforeMigration`, `afterMigration`);
  - logging and the error printout on a failed insert;
  - `dotenv`.

  Collections are given as the document sequences their cursors yield, in
  cursor order. The `$natural: -1` sort of `core_store` is the order of the
  given definitions.
- Migration.Run: a run that stops with an error returns only the error.
  The script has no transaction, so the rows inserted and the links
  written before the error stay in the SQL database (index.js:341-365,
  374-585). The model does not return those partial writes: its contract
  describes the writes of a run that completes.
- Failed inserts are not modelled: a constraint violation in the SQL
  database is outside the model.
- The identifier map's implementation (`id-map.js`) is not part of this
  model. `IdMaps.IdMap` promises only what the script relies on:
  - fresh ids per table;
  - the last id recorded per document id.
- Ids in the second pass are symbolic. Link rows hold `NewId`/`IdOf` cells
  naming the document id they are resolved from, not the resolved integers.
- The library helpers are uninterpreted functions: lodash, pluralize,
  `JSON.stringify` and `ObjectId#toString`. So are:
  - pluralize's exception on `undefined`;
  - `JSON.stringify(undefined)` returning `undefined`.
- JS numbers are integers, and strings are sequences of characters with no
  UTF-16 detail.
- A document's `_id` is an ordinary property. Keys inherited from
  `Object.prototype` are not modelled.
- A `timestamps` array is modelled as an array of names (strings).
- A model definition without `attributes` is not modelled. There,
  `Object.keys(undefined)` throws during the merge.
- The uncaught TypeError of a missing administrator model (the `undefined`
  put first) is modelled as the `AdminMissing` error.
- The administrator id map (`adminUserIdMap`) is built but only returned.
  `transformEntry` ignores its third argument, so no row depends on it.
- `Migration.Run` proves the inserted rows' ids distinct within each
  table, but the ids in the link rows stay symbolic (`NewId` cells), so
  their uniqueness against the database's own sequence is not stated.
