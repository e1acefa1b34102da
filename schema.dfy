/** The schema definitions the script reads from the `core_store` collection
    (one per content type or component), the errors that abort a run, and
    the fixed uid lists of v3-mongodb-v3-sql/extensions.js. */
module Schema {

  import opened Wrappers
  import opened Js

  /** One entry of a model's `attributes`. Absent properties are `None`;
      `dominant` is its truthiness and `defaultValue` is `undefined` when the
      definition has no `default`. */
  datatype Attribute = Attribute(
    /** `type`: a scalar type name, or `component` / `dynamiczone` */
    ty: Option<string>,
    /** `model`: the target of a singular relation, `*` for a morph */
    model: Option<string>,
    /** `collection`: the target of a plural relation, `*` for a morph */
    collection: Option<string>,
    /** `via`: the inverse attribute on the target model */
    via: Option<string>,
    plugin: Option<string>,
    dominant: bool,
    /** `collectionName`: an explicit join-table name */
    collectionName: Option<string>,
    /** `component`: the uid of the component of a component attribute */
    component: Option<string>,
    defaultValue: Value)

  /** An attribute with only a `type`. */
  function Typed(ty: string): Attribute
  {
    Attribute(Some(ty), None, None, None, None, false, None, None, Undefined)
  }

  /** The value of `options.timestamps`: absent, a boolean, an array of
      field names, or anything else. */
  datatype Timestamps = TsAbsent | TsFlag(on: bool) | TsNames(names: seq<string>) | TsOther

  /** A model definition. `props` is `Object.keys` of the definition; the
      other fields are the properties the migration reads. `modelName`,
      `plugin`, `apiName` and `globalId` are filled in by the uid parser. */
  datatype ModelDef = ModelDef(
    props: seq<string>,
    uid: string,
    collectionName: string,
    globalId: Option<string>,
    modelName: Option<string>,
    plugin: Option<string>,
    apiName: Option<string>,
    /** `options.timestamps` */
    timestamps: Timestamps,
    attributes: Object<Attribute>)

  /** What aborts a run. Each is a TypeError or an Error thrown by the
      script. */
  datatype MigrationError =
    /** `options.timestamps` is neither a boolean nor a two-element array */
    | BadTimestamps(uid: string)
    /** `entry[key].map` on a value that is not an array */
    | NotAnArray(field: string)
    /** a property read on a `null` or `undefined` element of a link list */
    | NullReference(field: string)
    /** a dynamic-zone element whose `kind` is no model's `globalId` */
    | UnknownComponent(kind: Value)
    /** a component attribute whose `component` uid is not a model */
    | MissingComponentModel(uid: string)
    /** `strapi::user` is not among the models */
    | AdminMissing

  /** Models that get a `uuid` and a soft-delete `deleted` attribute. */
  const ModelsWithUuidAndDeleted: seq<string> := [
    "application::sqsp-oauth-requests.sqsp-oauth-requests",
    "application::subscription.subscription",
    "application::sk-memory.sk-memory",
    "application::plan.plan",
    "application::website.website",
    "application::sk-request.sk-request",
    "application::sk-token.sk-token",
    "plugins::users-permissions.user"
  ]

  /** Models that get `created_by` and `updated_by` attributes. */
  const ModelsWithCreatedByUpdatedBy: seq<string> := [
    "application::sqsp-oauth-requests.sqsp-oauth-requests",
    "application::dashboard-content.dashboard-content",
    "application::subscription.subscription",
    "plugins::users-permissions.permission",
    "plugins::upload.file",
    "application::sk-memory.sk-memory",
    "application::plan.plan",
    "application::website.website",
    "application::sk-request.sk-request",
    "application::sk-token.sk-token",
    "plugins::users-permissions.role",
    "plugins::users-permissions.user"
  ]

  /** Models that are not migrated at all. */
  const ModelsToDrop: seq<string> := [
    "application::kicker.kicker",
    "application::help-and-support.help-and-support",
    "application::tutorials.tutorials",
    "application::ss-user.ss-user",
    "application::recent-updates.recent-updates"
  ]

  /** The uid of the administrator model, migrated first. */
  const AdminUid: string := "strapi::user"

  /** The administrator model is never dropped. */
  lemma AdminKept()
    ensures AdminUid !in ModelsToDrop
  {
  }
}
