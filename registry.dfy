/** The model registry of v3-mongodb-v3-sql/index.js: parsing each stored
    definition's uid, merging definitions that share a uid, dropping the
    configured models, moving the administrator model to the front, the
    uid-keyed lookup map and the per-model attribute fixups. */
module Registry {

  import opened Wrappers
  import opened Js
  import opened Strings
  import opened Schema

  // ---------------------------------------------------------------------
  // uid parsing (getModelDefs and getGlobalId)
  // ---------------------------------------------------------------------

  /** The text a template literal makes of an optional string. */
  function Template(o: Option<string>): string
  {
    if o.Some? then o.value else "undefined"
  }

  /** `getGlobalId(model, modelName, prefix)`: a stored, non-empty
      `globalId` wins; otherwise the PascalCase of `<prefix>-<modelName>`,
      or of the model name alone when there is no prefix (lodash reads
      `undefined` as the empty string). */
  function GlobalId(stored: Option<string>, modelName: Option<string>, prefix: Option<string>, lib: Lib): (g: string)
    ensures TruthyStr(stored) ==> g == stored.value
    ensures !TruthyStr(stored) && TruthyStr(prefix) ==> g == lib.pascalCase(prefix.value + "-" + Template(modelName))
    ensures !TruthyStr(stored) && !TruthyStr(prefix) && modelName.Some? ==> g == lib.pascalCase(modelName.value)
  {
    if TruthyStr(stored) then stored.value
    else lib.pascalCase(
      if TruthyStr(prefix) then prefix.value + "-" + Template(modelName)
      else if modelName.Some? then modelName.value else "")
  }

  /** The keys of `{...model, k1, k2, ...}`: the model's own keys, then the
      new ones it did not have. */
  function AddProps(props: seq<string>, names: seq<string>): (r: seq<string>)
    ensures forall k :: k in r <==> k in props || k in names
    ensures |props| <= |r| && r[..|props|] == props
    decreases |names|
  {
    if |names| == 0 then props
    else if names[0] in props then AddProps(props, names[1..])
    else
      var r := AddProps(props + [names[0]], names[1..]);
      assert r[..|props|] == r[..|props| + 1][..|props|];
      r
  }

  /** The uid of `raw` names a component: it has no `::`. */
  predicate IsComponentUid(uid: string)
  {
    !Contains(uid, "::")
  }

  /** What a non-component uid says about its model. */
  datatype UidInfo = UidInfo(plugin: Option<string>, apiName: Option<string>, modelName: Option<string>)

  /** The branches on the uid prefix in getModelDefs: `strapi::<name>` is the
      admin plugin, `plugins…::<plugin>.<name>` a plugin model and
      `application…::<api>.<name>` an API model; any other prefix leaves all
      three undefined. The parts come from the piece after the first `::`. */
  function UidParts(uid: string): (r: UidInfo)
    requires !IsComponentUid(uid)
    ensures r.plugin.None? || r.apiName.None?
    ensures StartsWith(uid, "strapi::") ==>
      r.plugin == Some("admin") && r.apiName.None? && r.modelName == Some(Split(uid, "::")[1])
    ensures StartsWith(uid, "plugins") ==> r.apiName.None?
    ensures StartsWith(uid, "application") ==> r.plugin.None?
    ensures !StartsWith(uid, "strapi::") && !StartsWith(uid, "plugins") && !StartsWith(uid, "application") ==>
      r == UidInfo(None, None, None)
  {
    PrefixesDisjoint(uid);
    var rest := Split(uid, "::")[1];
    if StartsWith(uid, "strapi::") then UidInfo(Some("admin"), None, Some(rest))
    else if StartsWith(uid, "plugins") then UidInfo(At(Split(rest, "."), 0), None, At(Split(rest, "."), 1))
    else if StartsWith(uid, "application") then UidInfo(None, At(Split(rest, "."), 0), At(Split(rest, "."), 1))
    else UidInfo(None, None, None)
  }

  /** A uid starts with at most one of the three prefixes. */
  lemma PrefixesDisjoint(uid: string)
    ensures !(StartsWith(uid, "strapi::") && StartsWith(uid, "application"))
    ensures !(StartsWith(uid, "strapi::") && StartsWith(uid, "plugins"))
    ensures !(StartsWith(uid, "plugins") && StartsWith(uid, "application"))
  {
    if StartsWith(uid, "strapi::") {
      assert uid[0] == "strapi::"[0] == 's';
    } else if StartsWith(uid, "plugins") {
      assert uid[0] == "plugins"[0] == 'p';
    }
  }

  /** The mapping over the stored definitions in getModelDefs. A component
      uid gets the second dotted part as model name and a global id built
      from the whole uid, which replaces any stored one; other uids get the
      parts of `UidParts` and a global id from `GlobalId`. */
  function ParseModel(raw: ModelDef, lib: Lib): (m: ModelDef)
    ensures m.uid == raw.uid && m.collectionName == raw.collectionName
    ensures m.timestamps == raw.timestamps && m.attributes == raw.attributes
    ensures m.globalId.Some?
  {
    var uid := raw.uid;
    if IsComponentUid(uid) then
      raw.(props := AddProps(raw.props, ["modelName", "globalId"]),
           modelName := At(Split(uid, "."), 1),
           globalId := Some(lib.pascalCase("component_" + uid)))
    else
      var info := UidParts(uid);
      raw.(props := AddProps(raw.props, ["plugin", "apiName", "modelName", "globalId"]),
           plugin := info.plugin,
           apiName := info.apiName,
           modelName := info.modelName,
           globalId := Some(GlobalId(raw.globalId, info.modelName, info.plugin, lib)))
  }

  /** `<group>.<name>` splits on `.` into the group and the name. */
  lemma SplitDotted(group: string, name: string)
    requires '.' !in group && '.' !in name
    ensures Split(group + "." + name, ".") == [group, name]
  {
    SplitAfterFree(group, ".", name);
    NoLeadNoContains(name, ".");
    SplitNoSep(name, ".");
  }

  /** A word without `:` followed by `::` splits off as the first piece. */
  lemma SplitNamespace(ns: string, rest: string)
    requires ':' !in ns && ':' !in rest
    ensures Split(ns + "::" + rest, "::") == [ns, rest]
    ensures !IsComponentUid(ns + "::" + rest)
  {
    SplitAfterFree(ns, "::", rest);
    NoLeadNoContains(rest, "::");
    SplitNoSep(rest, "::");
  }

  /** Component uids: the model name is the part after the dot and the global
      id is always derived from `component_<uid>`, whatever was stored. */
  lemma ParseComponent(raw: ModelDef, group: string, name: string, lib: Lib)
    requires raw.uid == group + "." + name
    requires '.' !in group && '.' !in name && ':' !in group && ':' !in name
    ensures ParseModel(raw, lib).modelName == Some(name)
    ensures ParseModel(raw, lib).globalId == Some(lib.pascalCase("component_" + raw.uid))
    ensures ParseModel(raw, lib).plugin == raw.plugin && ParseModel(raw, lib).apiName == raw.apiName
  {
    assert ':' !in raw.uid;
    NoLeadNoContains(raw.uid, "::");
    SplitDotted(group, name);
  }

  /** `strapi::<name>` is a model of the admin plugin. */
  lemma ParseAdmin(raw: ModelDef, name: string, lib: Lib)
    requires raw.uid == "strapi::" + name && ':' !in name
    ensures ParseModel(raw, lib).plugin == Some("admin")
    ensures ParseModel(raw, lib).apiName == None
    ensures ParseModel(raw, lib).modelName == Some(name)
    ensures ParseModel(raw, lib).globalId ==
      Some(if TruthyStr(raw.globalId) then raw.globalId.value else lib.pascalCase("admin-" + name))
  {
    assert raw.uid == "strapi" + "::" + name;
    SplitNamespace("strapi", name);
    assert StartsWith(raw.uid, "strapi::");
    assert "admin" + "-" + name == "admin-" + name;
  }

  /** `plugins::<plugin>.<name>` takes the plugin and the model name from
      the two dotted parts after `::`. */
  lemma PluginUidParts(plugin: string, name: string)
    requires '.' !in plugin && '.' !in name && ':' !in plugin && ':' !in name
    ensures !IsComponentUid("plugins::" + plugin + "." + name)
    ensures UidParts("plugins::" + plugin + "." + name) == UidInfo(Some(plugin), None, Some(name))
  {
    var uid := "plugins::" + plugin + "." + name;
    var rest := plugin + "." + name;
    assert uid == "plugins" + "::" + rest;
    SplitNamespace("plugins", rest);
    SplitDotted(plugin, name);
    FirstCharDiffers(uid, "strapi::");
    assert uid[..7] == "plugins";
  }

  /** `application::<api>.<name>` sets the API name and no plugin. */
  lemma ApplicationUidParts(api: string, name: string)
    requires '.' !in api && '.' !in name && ':' !in api && ':' !in name
    ensures !IsComponentUid("application::" + api + "." + name)
    ensures UidParts("application::" + api + "." + name) == UidInfo(None, Some(api), Some(name))
  {
    var uid := "application::" + api + "." + name;
    var rest := api + "." + name;
    assert uid == "application" + "::" + rest;
    SplitNamespace("application", rest);
    SplitDotted(api, name);
    FirstCharDiffers(uid, "strapi::");
    FirstCharDiffers(uid, "plugins");
    assert uid[..11] == "application";
  }

  /** A plugin model's global id is the stored one or the PascalCase of
      `<plugin>-<name>`. */
  lemma ParsePlugin(raw: ModelDef, plugin: string, name: string, lib: Lib)
    requires raw.uid == "plugins::" + plugin + "." + name
    requires '.' !in plugin && '.' !in name && ':' !in plugin && ':' !in name
    ensures ParseModel(raw, lib).plugin == Some(plugin)
    ensures ParseModel(raw, lib).apiName == None
    ensures ParseModel(raw, lib).modelName == Some(name)
    ensures ParseModel(raw, lib).globalId ==
      Some(if TruthyStr(raw.globalId) then raw.globalId.value
           else if plugin != "" then lib.pascalCase(plugin + "-" + name)
           else lib.pascalCase(name))
  {
    PluginUidParts(plugin, name);
  }

  /** An API model's global id is the stored one or the PascalCase of its
      name. */
  lemma ParseApplication(raw: ModelDef, api: string, name: string, lib: Lib)
    requires raw.uid == "application::" + api + "." + name
    requires '.' !in api && '.' !in name && ':' !in api && ':' !in name
    ensures ParseModel(raw, lib).plugin == None
    ensures ParseModel(raw, lib).apiName == Some(api)
    ensures ParseModel(raw, lib).modelName == Some(name)
    ensures ParseModel(raw, lib).globalId ==
      Some(if TruthyStr(raw.globalId) then raw.globalId.value else lib.pascalCase(name))
  {
    ApplicationUidParts(api, name);
  }

  // ---------------------------------------------------------------------
  // Merging definitions that share a uid (sameKeys and the reduce)
  // ---------------------------------------------------------------------

  /** What `sameKeys(a1, a2)` decides. It is called on the key lists joined
      with ", ", so it iterates over characters: it holds when every
      character of the longer string (the second one on equal lengths)
      occurs somewhere in the other. */
  predicate SameKeysSpec(a1: string, a2: string)
  {
    var b1 := if |a1| > |a2| then a1 else a2;
    var b2 := if b1 == a1 then a2 else a1;
    AllCharsIn(b1, b2)
  }

  /** Every character of `s` occurs in `t`. */
  predicate AllCharsIn(s: string, t: string)
  {
    forall i :: 0 <= i < |s| ==> s[i] in t
  }

  /** `sameKeys`: a loop over the characters of the longer string that stops
      at the first one `indexOf` cannot find in the other. */
  method SameKeys(a1: string, a2: string) returns (same: bool)
    ensures same == SameKeysSpec(a1, a2)
  {
    var b1 := if |a1| > |a2| then a1 else a2;
    var b2 := if b1 == a1 then a2 else a1;
    for i := 0 to |b1|
      invariant forall j :: 0 <= j < i ==> b1[j] in b2
    {
      var k := b1[i];
      CharOccurs(b2, k);
      if IndexOf(b2, [k]).None? {
        assert !AllCharsIn(b1, b2);
        return false;
      }
    }
    return true;
  }

  /** `s.indexOf(c)` finds a one-character string exactly when `c` is in `s`. */
  lemma CharOccurs(s: string, c: char)
    ensures IndexOf(s, [c]).Some? <==> c in s
  {
    if c in s {
      var j :| 0 <= j < |s| && s[j] == c;
      assert OccursAt(s, [c], j);
    }
    if IndexOf(s, [c]).Some? {
      var j := IndexOf(s, [c]).value;
      assert s[j..j + 1] == [c];
      assert s[j] == c;
    }
  }

  /** A key string always matches itself, so two definitions with the same
      key lists are never merged. */
  lemma SameKeysReflexive(s: string)
    ensures SameKeysSpec(s, s)
  {
  }

  /** The check compares characters, not keys: any two key lists whose
      joined strings use the same characters count as the same keys, so one
      attribute `name` matches one attribute `mane`. */
  lemma SameCharactersSameKeys(k1: seq<string>, k2: seq<string>)
    requires forall c :: c in Join(k1, ", ") <==> c in Join(k2, ", ")
    ensures SameKeysSpec(Join(k1, ", "), Join(k2, ", "))
  {
    var a1, a2 := Join(k1, ", "), Join(k2, ", ");
    assert forall i :: 0 <= i < |a1| ==> a1[i] in a1;
    assert forall i :: 0 <= i < |a2| ==> a2[i] in a2;
  }

  /** The uids of a list of models. */
  function Uids(models: seq<ModelDef>): set<string>
  {
    set m | m in models :: m.uid
  }

  /** `acc.find(m => m.uid === uid)`, as an index. */
  function FindByUid(acc: seq<ModelDef>, uid: string): (r: Option<nat>)
    ensures r.Some? ==> r.value < |acc| && acc[r.value].uid == uid
    ensures r.Some? ==> forall k :: 0 <= k < r.value ==> acc[k].uid != uid
    ensures r.None? <==> uid !in Uids(acc)
  {
    if |acc| == 0 then None
    else if acc[0].uid == uid then Some(0)
    else match FindByUid(acc[1..], uid)
      case None => (assert Uids(acc) == {acc[0].uid} + Uids(acc[1..]); None)
      case Some(i) => Some(i + 1)
  }

  /** `Object.assign(existing, model)`: every property the later definition
      has replaces the existing one; the key list gains the later
      definition's new keys at its end. */
  function AssignModel(e: ModelDef, m: ModelDef): ModelDef
  {
    ModelDef(
      AddProps(e.props, m.props),
      if "uid" in m.props then m.uid else e.uid,
      if "collectionName" in m.props then m.collectionName else e.collectionName,
      if "globalId" in m.props then m.globalId else e.globalId,
      if "modelName" in m.props then m.modelName else e.modelName,
      if "plugin" in m.props then m.plugin else e.plugin,
      if "apiName" in m.props then m.apiName else e.apiName,
      if "options" in m.props then m.timestamps else e.timestamps,
      if "attributes" in m.props then m.attributes else e.attributes)
  }

  /** `sameKeys` on the joined top-level keys of two definitions. */
  predicate SameModelKeys(e: ModelDef, m: ModelDef)
  {
    SameKeysSpec(Join(e.props, ", "), Join(m.props, ", "))
  }

  /** `sameKeys` on the joined attribute names of two definitions. */
  predicate SameAttributeKeys(e: ModelDef, m: ModelDef)
  {
    SameKeysSpec(Join(e.attributes.order, ", "), Join(m.attributes.order, ", "))
  }

  /** After `Object.assign(existingModel, model)` has copied the later
      definition's `attributes`, the kept model's attributes object is the
      later definition's own. */
  predicate SharesLaterAttributes(e: ModelDef, m: ModelDef)
  {
    !SameModelKeys(e, m) && "attributes" in m.props
  }

  /** The body of the reduce for a later definition `m` of the uid of `e`.
      When the joined top-level keys differ (per `sameKeys`) the later
      definition is assigned over the earlier one, attributes included; when
      the joined attribute names differ, the attributes become the union of
      both. That union is written into the object that is the kept model's
      attributes at that moment: when it is the later definition's own, the
      earlier definition's values are written last and win on a shared
      name; otherwise the later definition's values win. */
  function MergeInto(e: ModelDef, m: ModelDef): (r: ModelDef)
    requires m.uid == e.uid
    ensures r.uid == e.uid
  {
    var base := if SameModelKeys(e, m) then e else AssignModel(e, m);
    if SameAttributeKeys(e, m) then base
    else if SharesLaterAttributes(e, m) then base.(attributes := Assign(m.attributes, e.attributes))
    else base.(attributes := Assign(e.attributes, m.attributes))
  }

  /** One later definition merged into the kept model, step by step as the
      reduce body does it. */
  method MergeModel(e: ModelDef, model: ModelDef) returns (merged: ModelDef)
    requires model.uid == e.uid
    ensures merged == MergeInto(e, model)
  {
    var sameModelKeys := SameKeys(Join(e.props, ", "), Join(model.props, ", "));
    var sameAttributeKeys := SameKeys(Join(e.attributes.order, ", "), Join(model.attributes.order, ", "));
    merged := e;
    if !sameModelKeys {
      merged := AssignModel(merged, model);
    }
    if !sameAttributeKeys {
      // the target is the later definition's own attributes object when
      // the first assignment copied it
      var shared := !sameModelKeys && "attributes" in model.props;
      var target := Assign(merged.attributes, e.attributes);
      var second := if shared then target else model.attributes;
      AssignSelf(target);
      AssignSelf(e.attributes);
      merged := merged.(attributes := Assign(target, second));
    }
  }

  /** One step of the reduce: merge into the model already kept for the uid,
      else keep the definition unless its uid is to be dropped. */
  function MergeStep(acc: seq<ModelDef>, m: ModelDef, drop: seq<string>): seq<ModelDef>
  {
    match FindByUid(acc, m.uid)
    case Some(j) => acc[j := MergeInto(acc[j], m)]
    case None => if m.uid in drop then acc else acc + [m]
  }

  /** The reduce over all definitions, from the first to the last. */
  function MergeAll(models: seq<ModelDef>, drop: seq<string>): seq<ModelDef>
    decreases |models|
  {
    if |models| == 0 then []
    else MergeStep(MergeAll(models[..|models| - 1], drop), models[|models| - 1], drop)
  }

  /** The reduce in the script: one pass over the definitions, merging a
      definition into the kept one of its uid or keeping it. */
  method Merge(models: seq<ModelDef>, drop: seq<string>) returns (acc: seq<ModelDef>)
    ensures acc == MergeAll(models, drop)
  {
    acc := [];
    for i := 0 to |models|
      invariant acc == MergeAll(models[..i], drop)
    {
      assert models[..i + 1][..i] == models[..i];
      var model := models[i];
      var existing := FindByUid(acc, model.uid);
      if existing.Some? {
        var j := existing.value;
        var merged := MergeModel(acc[j], model);
        acc := acc[j := merged];
      } else if model.uid !in drop {
        acc := acc + [model];
      }
    }
    assert models[..|models|] == models;
  }

  /** The position of the first definition of `uid`, or the length when
      there is none. */
  function FirstIndex(models: seq<ModelDef>, uid: string): (r: nat)
    ensures r <= |models|
    ensures r < |models| ==> models[r].uid == uid
    ensures forall k :: 0 <= k < r ==> models[k].uid != uid
    ensures r == |models| <==> uid !in Uids(models)
  {
    if |models| == 0 then 0
    else if models[0].uid == uid then 0
    else
      var r := 1 + FirstIndex(models[1..], uid);
      assert Uids(models) == {models[0].uid} + Uids(models[1..]);
      r
  }

  /** A step keeps the uids already there, position by position, and at
      most appends the definition's own uid. */
  lemma MergeStepUids(acc: seq<ModelDef>, m: ModelDef, drop: seq<string>)
    ensures var r := MergeStep(acc, m, drop);
      && (FindByUid(acc, m.uid).Some? ==> |r| == |acc| && Uids(r) == Uids(acc))
      && (FindByUid(acc, m.uid).None? && m.uid in drop ==> r == acc)
      && (FindByUid(acc, m.uid).None? && m.uid !in drop ==> r == acc + [m] && Uids(r) == Uids(acc) + {m.uid})
      && (forall i :: 0 <= i < |acc| ==> r[i].uid == acc[i].uid)
  {
    var r := MergeStep(acc, m, drop);
    match FindByUid(acc, m.uid)
    case Some(j) =>
      forall u | u in Uids(r) ensures u in Uids(acc) {
        var i :| 0 <= i < |r| && r[i].uid == u;
        assert acc[i] in acc;
      }
      forall u | u in Uids(acc) ensures u in Uids(r) {
        var i :| 0 <= i < |acc| && acc[i].uid == u;
        assert r[i] in r;
      }
    case None =>
  }

  /** The uids of the merged list are those of the definitions that are not
      dropped: a dropped uid stays out even when it appears again. */
  lemma {:induction false} MergeAllUids(models: seq<ModelDef>, drop: seq<string>)
    ensures forall u :: u in Uids(MergeAll(models, drop)) <==> u in Uids(models) && u !in drop
    decreases |models|
  {
    if |models| > 0 {
      var n := |models| - 1;
      var acc := MergeAll(models[..n], drop);
      assert MergeAll(models, drop) == MergeStep(acc, models[n], drop);
      MergeAllUids(models[..n], drop);
      MergeStepUids(acc, models[n], drop);
      UidsSnoc(models[..n], models[n]);
      assert models[..n] + [models[n]] == models;
    }
  }

  /** The uids of a list with one more definition. */
  lemma UidsSnoc(models: seq<ModelDef>, m: ModelDef)
    ensures Uids(models + [m]) == Uids(models) + {m.uid}
  {
    assert forall x :: x in models + [m] <==> x in models || x == m;
  }

  /** No uid occurs twice in the merged list. */
  lemma {:induction false} MergeAllDistinct(models: seq<ModelDef>, drop: seq<string>)
    ensures UidsDistinct(MergeAll(models, drop))
    decreases |models|
  {
    if |models| > 0 {
      var n := |models| - 1;
      var acc := MergeAll(models[..n], drop);
      var m := models[n];
      assert MergeAll(models, drop) == MergeStep(acc, m, drop);
      MergeAllDistinct(models[..n], drop);
      MergeStepDistinct(acc, m, drop);
    }
  }

  /** Pairwise distinct uids. */
  predicate UidsDistinct(r: seq<ModelDef>)
  {
    forall i, j :: 0 <= i < j < |r| ==> r[i].uid != r[j].uid
  }

  /** A step keeps the uids pairwise distinct. */
  lemma MergeStepDistinct(acc: seq<ModelDef>, m: ModelDef, drop: seq<string>)
    requires UidsDistinct(acc)
    ensures UidsDistinct(MergeStep(acc, m, drop))
  {
    MergeStepUids(acc, m, drop);
    var r := MergeStep(acc, m, drop);
    if FindByUid(acc, m.uid).None? && m.uid !in drop {
      forall i | 0 <= i < |acc| ensures acc[i].uid != m.uid {
        assert acc[i] in acc;
      }
      assert r == acc + [m];
    }
  }

  /** The uid of every model kept from the first `n` definitions has its
      first definition among them. */
  lemma FirstIndexInPrefix(models: seq<ModelDef>, n: nat, u: string)
    requires n <= |models| && u in Uids(models[..n])
    ensures FirstIndex(models, u) == FirstIndex(models[..n], u) < n
  {
    var p := FirstIndex(models[..n], u);
    assert models[p].uid == u;
    assert forall k :: 0 <= k < n ==> models[..n][k] == models[k];
  }

  /** The models of `r` appear in the order of the first definitions of
      their uids in `models`. */
  predicate FirstOrder(models: seq<ModelDef>, r: seq<ModelDef>)
  {
    forall i, j :: 0 <= i < j < |r| ==> FirstIndex(models, r[i].uid) < FirstIndex(models, r[j].uid)
  }

  /** The merged models keep the order of the first definitions of their
      uids. */
  lemma {:induction false} MergeAllOrder(models: seq<ModelDef>, drop: seq<string>)
    ensures FirstOrder(models, MergeAll(models, drop))
    decreases |models|
  {
    if |models| > 0 {
      var n := |models| - 1;
      var acc := MergeAll(models[..n], drop);
      assert models[..n + 1] == models;
      assert MergeAll(models, drop) == MergeStep(acc, models[n], drop);
      MergeAllOrder(models[..n], drop);
      MergeAllUids(models[..n], drop);
      MergeStepOrder(models, n, acc, drop);
    }
  }

  /** Merging the definition at position `n` into a list ordered by the
      first definitions among the first `n` keeps it ordered by the first
      definitions among the first `n + 1`. */
  lemma MergeStepOrder(models: seq<ModelDef>, n: nat, acc: seq<ModelDef>, drop: seq<string>)
    requires n < |models|
    requires FirstOrder(models[..n], acc)
    requires forall u :: u in Uids(acc) <==> u in Uids(models[..n]) && u !in drop
    ensures FirstOrder(models[..n + 1], MergeStep(acc, models[n], drop))
  {
    var m := models[n];
    var r := MergeStep(acc, m, drop);
    OrderInLongerPrefix(models, n, acc);
    MergeStepUids(acc, m, drop);
    if FindByUid(acc, m.uid).None? && m.uid !in drop {
      var whole := models[..n + 1];
      forall k | 0 <= k < n ensures whole[k].uid != m.uid {
        assert whole[k] == models[..n][k] && models[..n][k] in models[..n];
      }
      assert FirstIndex(whole, m.uid) == n;
      OrderAppend(whole, acc, m);
    } else {
      OrderSameUids(models[..n + 1], acc, r);
    }
  }

  /** An order by first definitions among the first `n` models is one
      among the first `n + 1`, all of them before position `n`. */
  lemma OrderInLongerPrefix(models: seq<ModelDef>, n: nat, acc: seq<ModelDef>)
    requires n < |models|
    requires FirstOrder(models[..n], acc)
    requires forall u :: u in Uids(acc) ==> u in Uids(models[..n])
    ensures FirstOrder(models[..n + 1], acc)
    ensures forall i :: 0 <= i < |acc| ==> FirstIndex(models[..n + 1], acc[i].uid) < n
  {
    var whole := models[..n + 1];
    assert models[..n] == whole[..n];
    forall i | 0 <= i < |acc|
      ensures FirstIndex(whole, acc[i].uid) == FirstIndex(models[..n], acc[i].uid) < n
    {
      assert acc[i] in acc;
      FirstIndexInPrefix(whole, n, acc[i].uid);
    }
  }

  /** Appending a model whose uid comes first after all of theirs keeps the
      order. */
  lemma OrderAppend(models: seq<ModelDef>, acc: seq<ModelDef>, m: ModelDef)
    requires FirstOrder(models, acc)
    requires forall i :: 0 <= i < |acc| ==> FirstIndex(models, acc[i].uid) < FirstIndex(models, m.uid)
    ensures FirstOrder(models, acc + [m])
  {
    var r := acc + [m];
    forall i, j | 0 <= i < j < |r|
      ensures FirstIndex(models, r[i].uid) < FirstIndex(models, r[j].uid)
    {
      assert r[i] == acc[i];
      if j < |acc| {
        assert r[j] == acc[j];
      }
    }
  }

  /** A list with the same uids at the same positions keeps the order. */
  lemma OrderSameUids(models: seq<ModelDef>, acc: seq<ModelDef>, r: seq<ModelDef>)
    requires FirstOrder(models, acc)
    requires |r| == |acc| && forall i :: 0 <= i < |acc| ==> r[i].uid == acc[i].uid
    ensures FirstOrder(models, r)
  {
  }

  /** A later definition whose top-level and attribute keys are the same
      lists as the kept one's changes nothing: the first definition wins
      outright, later attribute values included. */
  lemma MergeSameKeysKeepsFirst(e: ModelDef, m: ModelDef)
    requires m.uid == e.uid && m.props == e.props && m.attributes.order == e.attributes.order
    ensures MergeInto(e, m) == e
  {
    SameKeysReflexive(Join(e.props, ", "));
    SameKeysReflexive(Join(e.attributes.order, ", "));
  }

  /** When the attribute names differ, the merged attributes are the union
      of both definitions'. On a shared name the earlier definition's value
      wins when the kept model already holds the later definition's
      attributes object, and the later one's value wins otherwise. */
  lemma MergeUnitesAttributes(e: ModelDef, m: ModelDef)
    requires m.uid == e.uid && !SameAttributeKeys(e, m)
    ensures var a := MergeInto(e, m).attributes.vals;
      && a.Keys == e.attributes.vals.Keys + m.attributes.vals.Keys
      && (forall k :: k in a && k !in m.attributes.vals ==> a[k] == e.attributes.vals[k])
      && (forall k :: k in a && k !in e.attributes.vals ==> a[k] == m.attributes.vals[k])
      && (forall k :: k in e.attributes.vals && k in m.attributes.vals ==>
            a[k] == if SharesLaterAttributes(e, m) then e.attributes.vals[k] else m.attributes.vals[k])
  {
  }

  /** When the top-level keys differ and the attribute names match per
      character, the later definition's attributes replace the earlier ones
      wholesale: attributes only the earlier definition had are lost. */
  lemma MergeReplacesAttributes(e: ModelDef, m: ModelDef)
    requires m.uid == e.uid && SharesLaterAttributes(e, m) && SameAttributeKeys(e, m)
    ensures MergeInto(e, m).attributes == m.attributes
  {
  }

  // ---------------------------------------------------------------------
  // The administrator model first, and the map from uid to model
  // ---------------------------------------------------------------------

  /** `splice` the first `strapi::user` model out of the list and `unshift`
      it to the front. Without one, `indexOf(undefined)` is -1, the splice
      removes the last model, `undefined` is put first and the loop that
      logs the uids throws: the run stops with `AdminMissing`. */
  method MoveAdminFirst(models: seq<ModelDef>) returns (r: Result<seq<ModelDef>, MigrationError>)
    ensures r.Err? <==> AdminUid !in Uids(models)
    ensures r.Err? ==> r.error == AdminMissing
    ensures r.Ok? ==> var i := FirstIndex(models, AdminUid);
      && |r.value| == |models|
      && multiset(r.value) == multiset(models)
      && r.value[0] == models[i]
      && r.value[0].uid == AdminUid
      && (forall k :: 0 <= k < i ==> r.value[k + 1] == models[k])
      && (forall k :: i < k < |models| ==> r.value[k] == models[k])
      && r.value == MovedFirst(models, i)
  {
    var i := FirstIndex(models, AdminUid);
    if i == |models| {
      return Err(AdminMissing);
    }
    var admin := models[i];
    var rest := models[..i] + models[i + 1..];
    MovedToFront(models, i);
    r := Ok([admin] + rest);
  }

  /** `splice(i, 1)` then `unshift`: the model at `i` taken out and put
      in front of the others. */
  function MovedFirst(models: seq<ModelDef>, i: nat): seq<ModelDef>
    requires i < |models|
  {
    [models[i]] + (models[..i] + models[i + 1..])
  }

  /** Moving a model first is a permutation that shifts the ones before it
      by one and leaves the ones after it in place. */
  lemma MovedToFront(models: seq<ModelDef>, i: nat)
    requires i < |models|
    ensures var moved := MovedFirst(models, i);
      && |moved| == |models|
      && moved[0] == models[i]
      && multiset(moved) == multiset(models)
      && (forall k :: 0 <= k < i ==> moved[k + 1] == models[k])
      && (forall k :: i < k < |models| ==> moved[k] == models[k])
  {
    var rest := models[..i] + models[i + 1..];
    assert models == models[..i] + [models[i]] + models[i + 1..];
    calc {
      multiset([models[i]] + rest);
      multiset([models[i]]) + multiset(models[..i]) + multiset(models[i + 1..]);
      multiset(models[..i] + [models[i]] + models[i + 1..]);
    }
  }

  /** `modelMap`: each model under its uid, a later model replacing an
      earlier one of the same uid. */
  function ModelMap(models: seq<ModelDef>): (mm: map<string, ModelDef>)
    ensures mm.Keys == Uids(models)
    ensures forall u :: u in mm ==> mm[u] in models && mm[u].uid == u
    decreases |models|
  {
    if |models| == 0 then map[]
    else
      var n := |models| - 1;
      assert models == models[..n] + [models[n]];
      assert Uids(models) == Uids(models[..n]) + {models[n].uid};
      ModelMap(models[..n])[models[n].uid := models[n]]
  }

  /** With pairwise distinct uids, as after the merge, every model is found
      under its own uid. */
  lemma {:induction false} ModelMapFinds(models: seq<ModelDef>, i: nat)
    requires UidsDistinct(models) && i < |models|
    ensures ModelMap(models)[models[i].uid] == models[i]
    decreases |models|
  {
    var n := |models| - 1;
    if i < n {
      assert UidsDistinct(models[..n]);
      ModelMapFinds(models[..n], i);
      assert models[..n][i] == models[i];
    }
  }

  // ---------------------------------------------------------------------
  // Per-model attribute fixes, made before a model's documents are copied
  // ---------------------------------------------------------------------

  /** `deleted`: a boolean attribute defaulting to `false`. */
  const DeletedAttribute: Attribute := Typed("boolean").(defaultValue := Bool(false))

  /** The attributes of the model `uid` after its fixes: `kickers` and
      `ss_users` are dropped from every model, `uuid` and `deleted` are
      (re)defined for the models listed for them, `created_by` and
      `updated_by` for the models listed for them, and the legacy `fields`
      attribute of `strapi::permission` is dropped. */
  function FixedAttributes(uid: string, a: map<string, Attribute>): map<string, Attribute>
  {
    var cleaned := a - {"kickers", "ss_users"};
    var withIds := if uid in ModelsWithUuidAndDeleted
      then cleaned["uuid" := Typed("uid")]["deleted" := DeletedAttribute] else cleaned;
    var withAuthors := if uid in ModelsWithCreatedByUpdatedBy
      then withIds["created_by" := Typed("integer")]["updated_by" := Typed("integer")] else withIds;
    if uid == "strapi::permission" then withAuthors - {"fields"} else withAuthors
  }

  /** `if (attributes[name]) delete attributes[name]`: an attribute is an
      object, so a present one is always deleted. */
  method DropAttribute(attributes: Object<Attribute>, name: string) returns (r: Object<Attribute>)
    ensures r.vals == attributes.vals - {name}
  {
    r := attributes;
    if name in attributes.vals {
      r := Delete(attributes, name);
    }
  }

  /** The fixes made to `model.attributes` in place, one after the other. */
  method FixUp(model: ModelDef) returns (fixed: ModelDef)
    ensures fixed == model.(attributes := fixed.attributes)
    ensures fixed.attributes.vals == FixedAttributes(model.uid, model.attributes.vals)
  {
    var attributes := DropAttribute(model.attributes, "kickers");
    attributes := DropAttribute(attributes, "ss_users");
    assert attributes.vals == model.attributes.vals - {"kickers", "ss_users"};
    if model.uid in ModelsWithUuidAndDeleted {
      attributes := Put(attributes, "uuid", Typed("uid"));
      attributes := Put(attributes, "deleted", DeletedAttribute);
    }
    if model.uid in ModelsWithCreatedByUpdatedBy {
      attributes := Put(attributes, "created_by", Typed("integer"));
      attributes := Put(attributes, "updated_by", Typed("integer"));
    }
    if model.uid == "strapi::permission" {
      attributes := Delete(attributes, "fields");
    }
    fixed := model.(attributes := attributes);
  }

  /** No model keeps a `kickers` or `ss_users` attribute, and
      `strapi::permission` loses `fields`. */
  lemma FixUpDrops(uid: string, a: map<string, Attribute>)
    ensures "kickers" !in FixedAttributes(uid, a) && "ss_users" !in FixedAttributes(uid, a)
    ensures uid == "strapi::permission" ==> "fields" !in FixedAttributes(uid, a)
  {
  }

  /** The listed models get their `uuid`, `deleted`, `created_by` and
      `updated_by` definitions, whatever they had before. */
  lemma FixUpAdds(uid: string, a: map<string, Attribute>)
    ensures var f := FixedAttributes(uid, a);
      && (uid in ModelsWithUuidAndDeleted ==>
            "uuid" in f && f["uuid"] == Typed("uid") && "deleted" in f && f["deleted"] == DeletedAttribute)
      && (uid in ModelsWithCreatedByUpdatedBy ==>
            "created_by" in f && f["created_by"] == Typed("integer") &&
            "updated_by" in f && f["updated_by"] == Typed("integer"))
  {
  }

  /** Every other attribute is left as it was. */
  lemma FixUpKeepsOthers(uid: string, a: map<string, Attribute>, k: string)
    requires k !in {"kickers", "ss_users", "uuid", "deleted", "created_by", "updated_by", "fields"}
    ensures k in FixedAttributes(uid, a) <==> k in a
    ensures k in a ==> FixedAttributes(uid, a)[k] == a[k]
  {
  }
}
