/**
 * What the compiler reads from outside: the TCA schema catalog
 * (`TcaService::table(t)->field(f)`, `$GLOBALS['TCA'][t]['ctrl']`, the
 * column set of each table) and the enable-field / delete-clause strings
 * that the TYPO3 page repository and backend utility produce.
 */
module Schema {
  import opened Outcomes

  /** The answers `TcaService::table(t)->field(f)` gives about one field. */
  datatype FieldInfo = FieldInfo(
    isGroup: bool,
    hasOne: bool,
    hasRelationManyToOne: bool,
    hasRelationManyToMany: bool,
    hasMany: bool,
    hasRelation: bool,
    isNumerical: bool,
    foreignTable: Option<string>,
    foreignField: Option<string>,
    manyToManyTable: string,
    isOppositeRelation: bool,
    additionalTableNameCondition: string)

  /** What a field without TCA configuration answers: no relation of any kind. */
  const Unconfigured := FieldInfo(false, false, false, false, false, false, false, None, None, "", false, "")

  /** The entries of `$GLOBALS['TCA'][t]['ctrl']` the compiler reads; an unset `rootLevel` reads as 0. */
  datatype Ctrl = Ctrl(
    languageField: Option<string>,
    transOrigPointerField: Option<string>,
    delete: Option<string>,
    rootLevel: int)

  /**
   * The catalog: field configuration per (table, field), the `ctrl` section of
   * every table that has one, and the column names of every table.
   */
  datatype Catalog = Catalog(
    fields: map<(string, string), FieldInfo>,
    ctrl: map<string, Ctrl>,
    columns: map<string, set<string>>)

  function Field(c: Catalog, table: string, name: string): FieldInfo {
    if (table, name) in c.fields then c.fields[(table, name)] else Unconfigured
  }

  /** `TcaService::table(t)->hasField(f)`. */
  predicate HasField(c: Catalog, table: string, name: string) {
    (table, name) in c.fields
  }

  function Columns(c: Catalog, table: string): set<string> {
    if table in c.columns then c.columns[table] else {}
  }

  /**
   * The foreign producers of visibility clauses, taken as given strings:
   * `PageRepository::enableFields(t)`, `enableFields(t, -1, ignored)`,
   * `PageRepository::deleteClause(t)`, `BackendUtility::BEenableFields(t)`
   * and `BackendUtility::deleteClause(t)`.
   */
  datatype Producers = Producers(
    frontendEnableFields: string -> string,
    frontendEnableFieldsIgnoring: (string, seq<string>) -> string,
    frontendDeleteClause: string -> string,
    backendEnableFields: string -> string,
    backendDeleteClause: string -> string)
}
