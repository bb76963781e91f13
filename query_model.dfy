/**
 * The abstract query the compiler consumes: operand values, dynamic operands
 * with case folding, the AND/OR/NOT constraint tree, selector and join
 * sources, orderings, limit and offset, the query settings, and the
 * exceptions the compiler can raise.
 */
module QueryModel {
  import opened Outcomes
  import opened Schema

  /** A right-hand operand as PHP hands it over (objects such as DateTime are not modelled). */
  datatype Value = Null | Bool(b: bool) | Int(i: int) | Str(s: string) | Array(items: seq<Value>)

  /** What `getPlainValue` returns for a non-array input. */
  datatype Plain = PNull | PInt(n: int) | PStr(s: string)

  /** An entry of `$parameters`: one plain value, or the item list of an IN comparison. */
  datatype Param = Scalar(plain: Plain) | List(items: seq<Plain>)

  /**
   * The operator codes of a comparison. `EqualToNull` and `NotEqualToNull` are
   * the backend's own rewrites of EQUAL_TO / NOT_EQUAL_TO against NULL;
   * `OtherOperator` is any code the backend does not know. Extbase numbers
   * the named operators from 1 (EQUAL_TO) to 9 (IN); those codes are written
   * with their own constructors, so `OtherOperator` stands for a code outside
   * them (such as IS_NULL, IS_EMPTY or 0).
   */
  datatype Operator =
    | EqualTo | NotEqualTo | LessThan | LessThanOrEqualTo | GreaterThan | GreaterThanOrEqualTo
    | Like | Contains | In | EqualToNull | NotEqualToNull | OtherOperator(code: int)

  datatype DynamicOperand =
    | PropertyValue(propertyName: string)
    | LowerCase(operand: DynamicOperand)
    | UpperCase(operand: DynamicOperand)

  /** `NullConstraint` stands for a missing (NULL) constraint. */
  datatype Constraint =
    | NullConstraint
    | And(constraint1: Constraint, constraint2: Constraint)
    | Or(constraint1: Constraint, constraint2: Constraint)
    | Not(constraint: Constraint)
    | Comparison(operand1: DynamicOperand, operator: Operator, operand2: Value)

  datatype Selector = Selector(selectorName: string, nodeTypeName: string)

  datatype EquiJoinCondition = EquiJoinCondition(
    selector1Name: string, property1Name: string, selector2Name: string, property2Name: string)

  datatype Source =
    | SelectorSource(selector: Selector)
    | JoinSource(left: Selector, right: Source, joinCondition: EquiJoinCondition)

  datatype Direction = Ascending | Descending | OtherDirection(raw: string)

  datatype QuerySettings = QuerySettings(
    ignoreEnableFields: bool,
    enableFieldsToBeIgnored: seq<string>,
    includeDeleted: bool,
    respectSysLanguage: bool,
    sysLanguageUid: int,
    respectStoragePage: bool,
    storagePageIds: seq<int>)

  /**
   * The query: its type (the table name `getType()` returns), source,
   * constraint, orderings keyed by property name, limit, offset, the
   * `getDistinct()` field ("" when unset) and the settings.
   */
  datatype Query = Query(
    queryType: string,
    source: Source,
    constraint: Constraint,
    orderings: seq<(string, Direction)>,
    limit: Option<int>,
    offset: Option<int>,
    distinct: string,
    settings: QuerySettings)

  /**
   * Everything the backend object reads: the query, the catalog, whether the
   * environment is the frontend, and the foreign visibility producers.
   */
  datatype Backend = Backend(query: Query, catalog: Catalog, frontend: bool, producers: Producers)

  /** The exceptions of the compiler, with the source's exception codes. */
  datatype Error =
    | MissingRelationInformation(fieldName: string, tableName: string)  // 1353170925
    | UnknownRelationType(fieldName: string)                            // 1252502725
    | UnsupportedOperator                                               // 1242816073
    | UnsupportedOrder                                                  // 1242816074 (UnsupportedOrderException)
    | UnsupportedRelationMatching(propertyName: string)                 // 1327065745
    | NotAPlainValue                                                    // 1274799932
    | NotAPropertyOperand                                               // getPropertyName() on a case-folding operand
    | InconsistentVisibilitySettings                                    // 1327678173
    | MissingStoragePageIds                                             // 1365779762
    | PlaceholderMismatch                                               // 1242816074
}
