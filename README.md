# Vidi list-module core, modelled in Dafny

Vidi is a TYPO3 extension that shows database records as a list module in
the backend. This project models three pieces of it and proves properties
of the models.

- **The query compiler** of `VidiDbBackend`. It takes an abstract query: a
  selector or join source, an AND/OR/NOT constraint tree over property
  comparisons, orderings, limit/offset and the query settings. It fills
  the clause-part record `$sql` and the parameter list. It builds the
  SELECT statement, substitutes the `?` placeholders and decides how rows
  are counted. Relation paths are followed through the TCA schema catalog
  as LEFT JOINs. Per-table scope clauses add visibility, language and
  storage-page restrictions.
- **The module loader**. This object configures a Vidi list module. It
  keeps the component class names of the nine layout slots, the additional
  JavaScript and CSS files, and the module settings. It writes the
  module's registry entry and reads configuration back from it.
- **The matcher object factory**. It turns the DataTables search
  parameter, the `matches` argument and the page id into the criteria of
  a matcher.

The PHP arrays passed by reference (`&$sql`, `&$parameters`,
`&$tableName`, `&$propertyPath`) become values. Each compiler step is a
function from the old accumulator to a `Result` that holds either the new
accumulator or the exception the PHP code throws. Each PHP loop is a
`method` with loop invariants. The method's contract proves it computes
the same result as that function. The module loader and the matcher are
classes whose methods update their fields.

Collaborators are parameters:

- the TCA catalog;
- the visibility-clause producers of the page repository and backend utility;
- `fullQuoteStr`;
- the database's row count and first column;
- `json_decode` and `rawurldecode`;
- the field path resolver.

The main results are:

- **Placeholders.** Every `?` of the compiled statement sits in a WHERE
  fragment, and there are exactly as many as there are parameters
  (`Placeholders.QueryMarksMatchParameters`). Each comparison keeps the
  number of marks equal to the number of parameters
  (`Placeholders.ComparisonAligned`).
  Substitution therefore never raises its mismatch exception for clean
  inputs (`Placeholders.CleanQueriesFill`, `Placeholders.CleanQueriesCount`).
- **Brackets.** The constraint walk's fragments are well nested, with one
  fragment per comparison (`WhereShape.ConstraintNested`).
- **Joins.** The join step consumes the relation path and registers each
  join under its own key (`Joins.AddUnionStatement`, `Joins.ResolvePath`).
- **Substitution.** It fills marks left to right and never touches a mark
  inside an inserted value (`Substitution.ReplacePlaceholders`,
  `Substitution.FillJoinedPieces`).
- **Module loader.** Setters and adders change one slot only. What
  `register` writes is what `getModuleConfiguration` reads back.
- **Matcher factory.** The decoding rules and the order of the criteria.

CONTAINS against a non-NULL value always throws. The relation branches of
`Classes/Persistence/Storage/VidiDbBackend.php:392-406` test the column
map's relation type. But lines 390-391 assign the property name, a string,
to `$columnMap`, so the type is always NULL and the final `else` throws
after the join loop has run. The model follows the code
(`Compiler.ContainsAlwaysFails`).

`resolveOperator` uses a loose PHP `switch`. Under the PHP 5 and 7
comparison rules, the operator code 0 equals the string
`'operatorEqualToNull'`, so code 0 resolves to "IS". The model does the same.
The named Extbase operators carry the codes 1 (EQUAL_TO) to 9 (IN) and have
their own constructors; `OtherOperator(code)` stands for any other code.

## Model

| member | source | states |
|---|---|---|
| Strings.IndexOf | Classes/Module/ModuleLoader.php:312 | `strpos` for one character: None exactly when the character is absent, otherwise the first position holding it |
| Strings.Explode | Classes/Persistence/MatcherObjectFactory.php:95 | `explode` yields one more piece than there are separators, and no piece holds the separator |
| Strings.Count | Classes/Persistence/Storage/VidiDbBackend.php:621 | `substr_count` of one character is at most the length, and 0 exactly when the character is absent |
| Strings.Trim | Classes/Persistence/MatcherObjectFactory.php:95 | `trim` leaves no blank at either end and never lengthens the string |
| Strings.TrimKeepsInner | Classes/Persistence/MatcherObjectFactory.php:95 | `trim` removes blanks only: the text is the dropped leading blanks, the result and the dropped trailing blanks |
| Strings.NatToString | Classes/Persistence/Storage/VidiDbBackend.php:749 | decimal rendering is all digits, non-empty, and starts with 0 only for zero |
| Strings.NatToStringValue | Classes/Persistence/Storage/VidiDbBackend.php:749 | the digits read back as the number rendered |
| Strings.IntToStringCanonical | Classes/Persistence/MatcherObjectFactory.php:160 | the text of every integer is a canonical integer string, the form `canBeInterpretedAsInteger` accepts |
| Strings.TrimPieces | Classes/Persistence/MatcherObjectFactory.php:95 | the kept pieces are at most as many as the parts, each trimmed, non-empty and free of the separator |
| Strings.TrimExplode | Classes/Persistence/MatcherObjectFactory.php:95 | `trimExplode(',', v, TRUE)` yields only trimmed, non-empty, comma-free pieces |
| Strings.ExplodeJoin | Classes/Persistence/MatcherObjectFactory.php:95 | `explode` undoes `implode` when no piece holds the separator |
| Strings.TrimExplodeJoin | Classes/Persistence/MatcherObjectFactory.php:95 | trimmed, non-empty, separator-free pieces come back unchanged from `trimExplode` after `implode` |
| OrderedMaps.Find | Classes/Persistence/Storage/VidiDbBackend.php:232 | the first position of a key in an ordered PHP array, None exactly when the key is absent |
| OrderedMaps.Get | Classes/Persistence/Storage/VidiDbBackend.php:276-277 | `$m[k]` is None exactly when the key is absent, otherwise the value stored under it |
| OrderedMaps.Put | Classes/Persistence/Storage/VidiDbBackend.php:276-277 | `$m[k] = v`: k now maps to v, every other key is unchanged, a present key keeps its position, an absent one is appended, keys stay unique |
| OrderedMaps.AppendTo | Classes/Persistence/Storage/VidiDbBackend.php:544-545 | `$m[k] .= s`: k maps to its old value (or "") followed by s, nothing else changes, keys stay unique |
| OrderedMaps.UnionKeys | Classes/Persistence/Storage/VidiDbBackend.php:232 | the keys of the array union `tables + unions` are exactly the keys of either operand |
| Clauses.LimitClause | Classes/Persistence/Storage/VidiDbBackend.php:849-855 | the statement ends in " LIMIT offset, limit" when both are given, " LIMIT limit" for a non-zero limit alone, and has no LIMIT otherwise |
| Clauses.BuildQueryMarks | Classes/Persistence/Storage/VidiDbBackend.php:247-264 | the marks of the statement `buildQuery` joins are exactly those of the WHERE fragments, when no other part holds one |
| Clauses.WhereMarks | Classes/Persistence/Storage/VidiDbBackend.php:249-256 | the WHERE text carries exactly the marks of the constraint fragments, whether or not scope clauses follow |
| Clauses.ParseIdentifier | Classes/Persistence/Storage/VidiDbBackend.php:124-131 | the loop yields "field=?" for every key in order, joined with " AND " |
| Clauses.IdentifierMarks | Classes/Persistence/Storage/VidiDbBackend.php:124-131 | the identifier clause holds one placeholder per key |
| Joins.SplitFirst | Classes/Persistence/Storage/VidiDbBackend.php:506-507 | `explode('.', s, 2)`: the text before the first dot and the rest; without a dot the rest is "" |
| Joins.PathStepConsumes | Classes/Persistence/Storage/VidiDbBackend.php:506-516 | one step strictly shortens the path: it removes the field name and its dot, or, for a group field with a single dot, the whole path |
| Joins.AddUnionStatement | Classes/Persistence/Storage/VidiDbBackend.php:502-562 | fails exactly when the foreign table is missing or the relation kind is unknown; on success the table becomes the child table, the path loses one step, DISTINCT is set and only the joins change; a to-one or to-many field puts its LEFT JOIN under the child table and leaves every other join as it was; a many-to-many field writes the junction and child joins |
| Joins.ManyToManyUnions | Classes/Persistence/Storage/VidiDbBackend.php:533-546 | the junction join on the parent key and the child join on the child key, each followed by the table-names condition when there is one; every other join unchanged |
| Joins.ResolvePathIgnoresParts | Classes/Persistence/Storage/VidiDbBackend.php:476-478 | where the traversal ends, and whether it fails, depends on the catalog and the path only |
| Joins.ResolvePath | Classes/Persistence/Storage/VidiDbBackend.php:476-478 | after the traversal loop the column path holds no dot and is a suffix of the given path; only DISTINCT and the joins change; no join key is lost and keys stay unique |
| Joins.ResolvePropertyPath | Classes/Persistence/Storage/VidiDbBackend.php:476-478 | the `while (strpos(...))` loop computes the traversal's result |
| Compiler.ExtendsTrans | Classes/Persistence/Storage/VidiDbBackend.php:327-347 | the walk's step relation composes: WHERE fragments and parameters only grow at their ends, and joins only grow |
| Compiler.PlainValue | Classes/Persistence/Storage/VidiDbBackend.php:430-452 | NULL stays NULL, booleans become 1/0, integers and strings are kept, and an array raises exception 1274799932 |
| Compiler.InItems | Classes/Persistence/Storage/VidiDbBackend.php:363-371 | IN items: fails exactly when an element is an array; no NULL is kept; no more items than elements, and all of them when none is NULL |
| Compiler.InItemsAppend | Classes/Persistence/Storage/VidiDbBackend.php:366-371 | one more element appends its plain value to the items unless it is NULL, and an array element fails the whole list |
| Compiler.CollectItems | Classes/Persistence/Storage/VidiDbBackend.php:363-371 | the IN loop computes those items, and its `$hasValue` flag is set exactly when one was kept |
| Compiler.ResolveOperator | Classes/Persistence/Storage/VidiDbBackend.php:571-607 | the ten-row operator table (`operatorEqualToNull` and code 0 "IS", `operatorNotEqualToNull` "IS NOT", IN, =, !=, <, <=, >, >=, LIKE); exception 1242816073 exactly for CONTAINS and unknown non-zero codes |
| Compiler.ResolveOperatorInjective | Classes/Persistence/Storage/VidiDbBackend.php:571-607 | different supported operators give different SQL operators, except that code 0 reads as `operatorEqualToNull` |
| Compiler.OperandFragment | Classes/Persistence/Storage/VidiDbBackend.php:485-489 | the property fragment ends in " OP ?": a case function wraps the column only, never the placeholder |
| Compiler.PropertyTarget | Classes/Persistence/Storage/VidiDbBackend.php:472-481 | a join source uses the given table and name as they are; a selector source follows the relation path from the query's table |
| Compiler.PropertySql | Classes/Persistence/Storage/VidiDbBackend.php:471-491 | a property operand adds exactly one WHERE fragment ending in " OP ?", no parameter, and changes nothing but where, DISTINCT and joins |
| Compiler.OperandSql | Classes/Persistence/Storage/VidiDbBackend.php:466-492 | the same for any case-folded operand |
| Compiler.InnermostWrapperWins | Classes/Persistence/Storage/VidiDbBackend.php:467-470 | nested LOWER/UPPER wrappers compile as the property with the innermost wrapper's function only |
| Compiler.ParseDynamicOperand | Classes/Persistence/Storage/VidiDbBackend.php:466-492 | the recursive method computes the operand function's result |
| Compiler.ComparisonSql | Classes/Persistence/Storage/VidiDbBackend.php:359-421 | a comparison adds exactly one WHERE fragment and at most one parameter, only extends the accumulator, and outside IN and CONTAINS binds the plain value of the operand |
| Compiler.InComparisonSql | Classes/Persistence/Storage/VidiDbBackend.php:363-378 | IN adds exactly one fragment and at most one parameter |
| Compiler.ContainsComparisonSql | Classes/Persistence/Storage/VidiDbBackend.php:379-409 | CONTAINS succeeds only by adding "1<>1" and nothing else |
| Compiler.ScalarComparisonSql | Classes/Persistence/Storage/VidiDbBackend.php:410-420 | every other operator succeeds exactly when the operand (with the NULL-aware operator) and the plain value do; the fragment is the operand's and the one new parameter is the plain value |
| Compiler.ContainsAlwaysFails | Classes/Persistence/Storage/VidiDbBackend.php:379-409 | CONTAINS against any non-NULL value never compiles |
| Compiler.EmptyInMatchesNothing | Classes/Persistence/Storage/VidiDbBackend.php:363-378 | an IN whose elements are all NULL (or none) adds "1<>1" and no parameter |
| Compiler.EmptyItemsAllNull | Classes/Persistence/Storage/VidiDbBackend.php:363-371 | only NULL elements leave no IN item |
| Compiler.InBindsItemList | Classes/Persistence/Storage/VidiDbBackend.php:372-377 | a non-empty IN adds one fragment ending in " IN ?" and exactly one list parameter holding the remaining items in order |
| Compiler.NullEqualityBecomesIs | Classes/Persistence/Storage/VidiDbBackend.php:411-419 | EQUAL_TO / NOT_EQUAL_TO against NULL compile to "IS ?" / "IS NOT ?" and bind a NULL parameter |
| Compiler.ParseComparison | Classes/Persistence/Storage/VidiDbBackend.php:359-421 | the method, with the IN loop and the CONTAINS join loop, computes the comparison function's result |
| Compiler.ParseInComparison | Classes/Persistence/Storage/VidiDbBackend.php:363-378 | the IN branch: the item loop, then "1<>1" when no item is left or the operand and the item list as one parameter |
| Compiler.ParseContainsComparison | Classes/Persistence/Storage/VidiDbBackend.php:379-409 | the CONTAINS branch: "1<>1" against NULL, otherwise the path is followed and the relation-matching exception is raised |
| Compiler.ParseScalarComparison | Classes/Persistence/Storage/VidiDbBackend.php:410-419 | every other operator: the operand with the NULL-aware operator, then the plain value as one parameter |
| Compiler.ConstraintSql | Classes/Persistence/Storage/VidiDbBackend.php:327-347 | the walk only extends the accumulator, and a missing constraint adds nothing |
| Compiler.Connective | Classes/Persistence/Storage/VidiDbBackend.php:328-339 | the AND/OR case only extends the accumulator |
| Compiler.ParseConstraint | Classes/Persistence/Storage/VidiDbBackend.php:327-347 | the recursive method computes the walk's result |
| Compiler.ParseConnective | Classes/Persistence/Storage/VidiDbBackend.php:328-339 | the same for AND/OR nodes |
| Compiler.SourceSql | Classes/Persistence/Storage/VidiDbBackend.php:273-316 | a selector registers its table, its field list (t.* or t.distinct) and DISTINCT for a distinct field, leaving unions alone; a join registers its left table, and with a selector on the right writes "LEFT JOIN r ON s1.p1 = s2.p2" under r and "r.*" as the left table's fields; registered tables are never lost; only tables, unions, fields and DISTINCT change; keys stay unique |
| Compiler.JoinLevel | Classes/Persistence/Storage/VidiDbBackend.php:294-312 | one join registers its left table and writes "LEFT JOIN r ON s1.p1 = s2.p2" under the right table name r (the nested join's left selector when the right side is a join); "r.*" becomes the left table's fields only for a selector on the right; no other key changes |
| Compiler.DirectionSql | Classes/Persistence/Storage/VidiDbBackend.php:813-822 | ASCENDING gives "ASC", DESCENDING gives "DESC", anything else raises the unsupported-order exception |
| Compiler.OrderingSql | Classes/Persistence/Storage/VidiDbBackend.php:812-837 | an unknown direction fails; otherwise the entry succeeds exactly when its path resolves, appends the fragment of the resolved table and column with the direction keyword, and changes only the orderings, DISTINCT and joins |
| Compiler.OrderingsSql | Classes/Persistence/Storage/VidiDbBackend.php:811-839 | any unknown direction fails the whole step; otherwise one ordering per entry is appended after the existing ones |
| Compiler.OrderingsEntries | Classes/Persistence/Storage/VidiDbBackend.php:811-839 | on success entry i of the new orderings is the text ordering i alone would append, in insertion order |
| Compiler.OrderingIgnoresParts | Classes/Persistence/Storage/VidiDbBackend.php:823-837 | the text an ordering appends does not depend on the joins gathered before it |
| Compiler.ParseOrderings | Classes/Persistence/Storage/VidiDbBackend.php:811-839 | the `foreach` computes that result |
| Compiler.ScopeSql | Classes/Persistence/Storage/VidiDbBackend.php:232-237 | the scope clauses only extend the additional WHERE clauses, and tables without `ctrl` add none |
| Compiler.AddScopeClauses | Classes/Persistence/Storage/VidiDbBackend.php:232-237 | the loop over the table names computes that result |
| Compiler.QuerySql | Classes/Persistence/Storage/VidiDbBackend.php:217-239 | a compiled query has one ordering per query ordering, and the limit `parseLimitAndOffset` sets |
| Compiler.ParseQuery | Classes/Persistence/Storage/VidiDbBackend.php:217-239 | the method computes `parseQuery`'s result |
| WhereShape.NetConcat | Classes/Persistence/Storage/VidiDbBackend.php:327-347 | bracket depth adds up over concatenated fragments |
| WhereShape.NestedConcat | Classes/Persistence/Storage/VidiDbBackend.php:328-339 | well-nested fragment runs stay well nested when concatenated |
| WhereShape.Wrap | Classes/Persistence/Storage/VidiDbBackend.php:328-343 | "(" or "NOT (" around well-nested fragments, followed by ")", is well nested |
| WhereShape.OperandAtom | Classes/Persistence/Storage/VidiDbBackend.php:485-489 | an operand's fragment is never a bracket fragment |
| WhereShape.ComparisonAtom | Classes/Persistence/Storage/VidiDbBackend.php:359-421 | a comparison's fragment is never a bracket fragment ("1<>1" or ends in its placeholder) |
| WhereShape.ConstraintNested | Classes/Persistence/Storage/VidiDbBackend.php:327-347 | the fragments a constraint adds are well nested, and there are one per comparison, three per AND/OR and two per NOT |
| WhereShape.ConnectiveNested | Classes/Persistence/Storage/VidiDbBackend.php:328-339 | the same for an AND/OR node |
| WhereShape.Bracketed | Classes/Persistence/Storage/VidiDbBackend.php:328-339 | "(", operand, keyword, operand, ")" is well nested when the operands are |
| Scope.FrontendConstraintStatement | Classes/Persistence/Storage/VidiDbBackend.php:701-716 | fails with exception 1327678173 exactly when enable fields are respected but deleted rows are wanted; ignoring both gives no clause |
| Scope.BackendConstraintStatement | Classes/Persistence/Storage/VidiDbBackend.php:726-735 | the enable fields unless ignored, then the delete clause unless deleted rows are included, in all four cases |
| Scope.StripLeadingAnd | Classes/Persistence/Storage/VidiDbBackend.php:684-687 | a statement whose characters 1-3 read "and" in any case loses its first five characters; any other is kept; the result is a suffix |
| Scope.StripsConnective | Classes/Persistence/Storage/VidiDbBackend.php:684-687 | a statement starting with " AND " in any letter case loses exactly that connective |
| Scope.VisibilityConstraint | Classes/Persistence/Storage/VidiDbBackend.php:672-689 | nothing for a table without `ctrl`; otherwise the frontend or backend statement is built and, unless it is `empty()`, appended with its leading " AND " stripped; fails exactly for the inconsistent frontend settings; nothing else changes |
| Scope.SysLanguageStatement | Classes/Persistence/Storage/VidiDbBackend.php:745-770 | a clause is added exactly when the language field is set: "(lang IN (L,-1))", with the untranslated-default OR branch only when L > 0 and a translation pointer field is set; otherwise nothing changes |
| Scope.IdList | Classes/Persistence/Storage/VidiDbBackend.php:797 | every storage page id is rendered in order |
| Scope.PageIdStatement | Classes/Persistence/Storage/VidiDbBackend.php:781-800 | no clause without `ctrl` or a pid column; rootLevel 1 gives "pid = 0"; rootLevel 0 fails with exception 1365779762 exactly when the storage page list is empty and otherwise gives "pid IN (ids)"; other root levels add nothing |
| Scope.AdditionalWhereClause | Classes/Persistence/Storage/VidiDbBackend.php:653-661 | visibility, language and page clauses add at most three clauses after the existing ones and change nothing else; a table without `ctrl` gets none |
| Substitution.QuoteAll | Classes/Persistence/Storage/VidiDbBackend.php:630-635 | every list item is quoted, in order |
| Substitution.Substitute | Classes/Persistence/Storage/VidiDbBackend.php:619-643 | fails with exception 1242816074 exactly when the number of marks differs from the number of parameters |
| Substitution.MarkSplit | Classes/Persistence/Storage/VidiDbBackend.php:621-626 | splitting at the first mark leaves one mark fewer behind it |
| Substitution.ReplacePlaceholders | Classes/Persistence/Storage/VidiDbBackend.php:619-643 | the `strpos`/`substr_replace` loop computes the substitution: the error before any change, otherwise the n-th mark replaced by the n-th rendering, searching on after the inserted text |
| Substitution.ReplaceStep | Classes/Persistence/Storage/VidiDbBackend.php:625-641 | one loop iteration keeps the loop's invariant |
| Substitution.FillStep | Classes/Persistence/Storage/VidiDbBackend.php:625-641 | filling replaces the first mark by the next rendering and goes on behind it |
| Substitution.FillLeavesNoMark | Classes/Persistence/Storage/VidiDbBackend.php:619-643 | with as many parameters as marks and no rendering holding a mark, no mark is left |
| Substitution.Renders | Classes/Persistence/Storage/VidiDbBackend.php:628-638 | every parameter's rendering, in order |
| Substitution.FillJoinedPieces | Classes/Persistence/Storage/VidiDbBackend.php:619-643 | reference reading: mark-free pieces joined by '?' become the pieces with the renderings in between, so a mark inside a value is never replaced |
| Counting.CountParts | Classes/Persistence/Storage/VidiDbBackend.php:185-192 | the COUNT statement has a single field and no orderings: COUNT(*), or for a DISTINCT query COUNT(DISTINCT firstTable.field), with `uid` when no distinct field is set, and DISTINCT removed |
| Counting.CountResult | Classes/Persistence/Storage/VidiDbBackend.php:169-208 | a compile error is passed on; with a non-empty limit the result is the full statement's row count; without one it is the first column of the COUNT statement, 0 when there is none; each succeeds exactly when its statement is built |
| Counting.CountKeepsMarks | Classes/Persistence/Storage/VidiDbBackend.php:185-195 | the COUNT statement has exactly the marks of the full statement |
| Counting.CountWithoutLimit | Classes/Persistence/Storage/VidiDbBackend.php:184-204 | without a limit the count succeeds exactly when the full statement is built |
| Placeholders.AddUnionClean | Classes/Persistence/Storage/VidiDbBackend.php:502-562 | a join step with mark-free names adds no mark outside the WHERE fragments |
| Placeholders.ResolvePathClean | Classes/Persistence/Storage/VidiDbBackend.php:476-478 | the same for the traversal loop |
| Placeholders.FragmentMarks | Classes/Persistence/Storage/VidiDbBackend.php:485-489 | a property fragment holds exactly one mark |
| Placeholders.OperandMarks | Classes/Persistence/Storage/VidiDbBackend.php:466-492 | an operand adds exactly one mark, and only to the WHERE fragments |
| Placeholders.ComparisonAligned | Classes/Persistence/Storage/VidiDbBackend.php:359-421 | a comparison keeps the number of marks in the WHERE fragments equal to the number of parameters |
| Placeholders.ConstraintAligned | Classes/Persistence/Storage/VidiDbBackend.php:327-347 | the whole constraint walk keeps the number of marks equal to the number of parameters |
| Placeholders.ConnectiveAligned | Classes/Persistence/Storage/VidiDbBackend.php:328-339 | the same for AND/OR nodes |
| Placeholders.SourceMarks | Classes/Persistence/Storage/VidiDbBackend.php:273-316 | the source adds no mark |
| Placeholders.OrderingsMarks | Classes/Persistence/Storage/VidiDbBackend.php:811-839 | orderings add no mark and leave the WHERE fragments alone |
| Placeholders.ScopeMarks | Classes/Persistence/Storage/VidiDbBackend.php:653-661 | scope clauses add no mark |
| Placeholders.TailMarks | Classes/Persistence/Storage/VidiDbBackend.php:230-237 | orderings, limit and scope clauses add no mark and keep the WHERE fragments |
| Placeholders.QueryMarksMatchParameters | Classes/Persistence/Storage/VidiDbBackend.php:217-264 | for clean inputs the statement carries its marks only in the WHERE fragments, as many as there are parameters |
| Placeholders.CleanQueriesFill | Classes/Persistence/Storage/VidiDbBackend.php:136-147 | for clean inputs the mismatch exception never happens: the statement exists exactly when the query compiles, every mark is filled, and none is left when no rendering holds one |
| Placeholders.CleanQueriesCount | Classes/Persistence/Storage/VidiDbBackend.php:169-208 | for clean inputs counting succeeds exactly when the query compiles, with or without a limit |
| ModuleLoading.SlotsAreSeparate | Classes/Module/ModuleLoader.php:114-158 | no slot's key path is a prefix of another's, so the nested array is a table indexed by slot |
| ModuleLoading.EverySlotPresent | Classes/Module/ModuleLoader.php:114-158 | the initial components hold every slot |
| ModuleLoading.UpperCamel | Classes/Module/ModuleLoader.php:197-198 | `underscoredToUpperCamelCase` leaves no '_' and no space |
| ModuleLoading.UpperCamelJoin | Classes/Module/ModuleLoader.php:197-198 | joining with '_' camel-cases each side on its own |
| ModuleLoading.WordCamel | Classes/Module/ModuleLoader.php:197-198 | a lower-case word without breaks only gets its first letter capitalised |
| ModuleLoading.ModuleLoader.constructor | Classes/Module/ModuleLoader.php:52-158 | a new loader holds the data type, the defaults of every setting and the initial components |
| ModuleLoading.ModuleLoader.SetComponents | Classes/Module/ModuleLoader.php:547-550 | `set*Components` replaces exactly one slot; every other slot and field is unchanged |
| ModuleLoading.ModuleLoader.AddComponents | Classes/Module/ModuleLoader.php:556-563 | `add*Components` appends a single name as one element, or a list in order, to one slot only |
| ModuleLoading.ModuleLoader.AddJavaScriptFiles | Classes/Module/ModuleLoader.php:450-455 | every file is appended in order to the script list only |
| ModuleLoading.ModuleLoader.AddStyleSheetFiles | Classes/Module/ModuleLoader.php:461-466 | every file is appended in order to the style sheet list only |
| ModuleLoading.ModuleLoader.SetDataType | Classes/Module/ModuleLoader.php:493-496 | only the data type changes |
| ModuleLoading.ModuleLoader.SetDefaultPid | Classes/Module/ModuleLoader.php:512-515 | only the default pid changes |
| ModuleLoading.ModuleLoader.ShowPageTree | Classes/Module/ModuleLoader.php:521-524 | only the page-tree flag changes, and it becomes set |
| ModuleLoading.ModuleLoader.SetShown | Classes/Module/ModuleLoader.php:530-533 | only the shown flag changes |
| ModuleLoading.ModuleLoader.SetAccess | Classes/Module/ModuleLoader.php:906-909 | only the access changes |
| ModuleLoading.ModuleLoader.SetMainModule | Classes/Module/ModuleLoader.php:402-405 | only the main module changes |
| ModuleLoading.ModuleLoader.SetPosition | Classes/Module/ModuleLoader.php:434-437 | only the position changes |
| ModuleLoading.ModuleLoader.SetIcon | Classes/Module/ModuleLoader.php:386-389 | only the icon changes |
| ModuleLoading.ModuleLoader.SetModuleLanguageFile | Classes/Module/ModuleLoader.php:418-421 | only the language file changes |
| ModuleLoading.ModuleLoader.InternalModuleCode | Classes/Module/ModuleLoader.php:193-199 | "Vidi", the camel-cased data type (the stored one when none is given) and the camel-cased module key; the code holds no '_' |
| ModuleLoading.ModuleLoader.Navigation | Classes/Module/ModuleLoader.php:220-233 | a navigation component exactly when the page tree is switched on; inherit stays TRUE unless it is switched off |
| ModuleLoading.ModuleLoader.Register | Classes/Module/ModuleLoader.php:206-248 | the entry under the internal code holds data type, default pid (0 when unset), files and components, and no other entry changes; a backend module is registered exactly when shown, with the sub-module name data type '_' key and the navigation rules |
| ModuleLoading.Configuration | Classes/Module/ModuleLoader.php:358-380 | exception 1375092053 for an unknown module, the whole entry for an empty key, exception 1375092054 exactly for an absent key, otherwise its value |
| ModuleLoading.SubModuleCode | Classes/Module/ModuleLoader.php:308-314 | the text after the first '_'; without one, the first character is lost |
| ModuleLoading.ParameterPrefixIgnoresCase | Classes/Module/ModuleLoader.php:347-349 | the prefix is "tx_vidi_" and the lower-cased code, whatever the code's letter case |
| ModuleLoading.RegisteredConfiguration | Classes/Module/ModuleLoader.php:358-380 | what `register` writes, `getModuleConfiguration` reads back: the entry and each of its keys |
| ModuleLoading.RegisteredModuleFound | Classes/Module/ModuleLoader.php:308-314 | the sub-module code of a registered backend module's address finds its entry |
| ModuleLoading.ContentModuleCode | Classes/Module/ModuleLoader.php:193-199 | a `tt_content` loader with the default key has the code "VidiTtContentM1" |
| MatcherFactory.Matcher.constructor | Classes/Persistence/MatcherObjectFactory.php:59 | a new matcher holds the data type and no criterion |
| MatcherFactory.Matcher.Equals | Classes/Persistence/MatcherObjectFactory.php:99 | `equals` records one criterion at the end |
| MatcherFactory.Matcher.In | Classes/Persistence/MatcherObjectFactory.php:97 | `in` records one criterion at the end |
| MatcherFactory.Matcher.Likes | Classes/Persistence/MatcherObjectFactory.php:140 | `likes` records one criterion at the end |
| MatcherFactory.Matcher.SetSearchTerm | Classes/Persistence/MatcherObjectFactory.php:136 | `setSearchTerm` records the term at the end |
| MatcherFactory.Matcher.SetDataType | Classes/Persistence/MatcherObjectFactory.php:176 | only the data type changes |
| MatcherFactory.RelationIdsCompareEqual | Classes/Persistence/MatcherObjectFactory.php:159-162 | a relation field searched with a record id compares by equality |
| MatcherFactory.PlainFieldsCompareLike | Classes/Persistence/MatcherObjectFactory.php:159-162 | a field that is neither numerical nor a relation always compares with LIKE |
| MatcherFactory.TermCriteria | Classes/Persistence/MatcherObjectFactory.php:126-142 | one term gives a call exactly when its field exists: the search term for "text", otherwise equals exactly when `isOperatorEquals` holds, else likes |
| MatcherFactory.TermsCriteriaFields | Classes/Persistence/MatcherObjectFactory.php:126-143 | at most one call per term, each coming from a term whose field exists |
| MatcherFactory.DataTablesOutline | Classes/Persistence/MatcherObjectFactory.php:113-149 | no call without a search parameter; the decoded text as search term when it is not a list; otherwise the term calls |
| MatcherFactory.ApplyCriteriaFromDataTables | Classes/Persistence/MatcherObjectFactory.php:113-149 | the loop appends exactly those calls and keeps the data type |
| MatcherFactory.ApplyTerm | Classes/Persistence/MatcherObjectFactory.php:125-141 | one decoded term appends its own criterion (none when the catalog lacks the field) and keeps the data type |
| MatcherFactory.MatchCriterion | Classes/Persistence/MatcherObjectFactory.php:95-100 | one entry gives `in` with several trimmed, comma-free items, or `equals` with one such item or NULL, on the entry's property |
| MatcherFactory.CsvBecomesIn | Classes/Persistence/MatcherObjectFactory.php:95-97 | a comma-separated list of several items becomes `in` on exactly those items |
| MatcherFactory.SingleBecomesEquals | Classes/Persistence/MatcherObjectFactory.php:95-99 | a single item becomes `equals` on it |
| MatcherFactory.NoItemBecomesNull | Classes/Persistence/MatcherObjectFactory.php:95-99 | a value of only commas and blanks becomes `equals` with NULL |
| MatcherFactory.MatchesCriteria | Classes/Persistence/MatcherObjectFactory.php:93-101 | one call per entry |
| MatcherFactory.MatchesCriteriaAt | Classes/Persistence/MatcherObjectFactory.php:93-101 | the i-th call is made from the i-th entry alone |
| MatcherFactory.ApplyCriteriaFromMatchesArgument | Classes/Persistence/MatcherObjectFactory.php:91-104 | the loop appends exactly those calls, in order, and keeps the data type |
| MatcherFactory.ApplyMatch | Classes/Persistence/MatcherObjectFactory.php:94-100 | one entry of `matches` appends exactly its own criterion (`in` on the trimmed pieces when there are several, `equals` otherwise) and keeps the data type |
| MatcherFactory.UrlCriteria | Classes/Persistence/MatcherObjectFactory.php:77-82 | `pid` equals the page id exactly when the id is truthy |
| MatcherFactory.ApplyCriteriaFromUrl | Classes/Persistence/MatcherObjectFactory.php:77-82 | appends exactly that call and keeps the data type |
| MatcherFactory.MatcherDataType | Classes/Persistence/MatcherObjectFactory.php:54-56 | the argument unless it is `empty()`, and then the module loader's data type |
| MatcherFactory.SignalFallbackIsIdle | Classes/Persistence/MatcherObjectFactory.php:172-177 | the signal's empty-data-type fallback never changes what `getMatcher` settled on |
| MatcherFactory.MatcherCriteriaOrder | Classes/Persistence/MatcherObjectFactory.php:61-63 | the DataTables calls come first, then one call per `matches` entry in order, then the page id last |
| MatcherFactory.GetMatcher | Classes/Persistence/MatcherObjectFactory.php:52-69 | a new matcher with the settled data type and exactly the criteria in that order |

## Left out

- Database I/O: executing statements, fetching and freeing results, row
  conversion and SQL error checks. `countResult` takes the row count and
  the first column of the first row as parameters.
- The language and workspace overlay and the page repository. The overlay
  is commented out in `fetchResult`, and both depend on global frontend
  and backend user state.
- The visibility producers `PageRepository::enableFields`/`deleteClause`
  and `BackendUtility::BEenableFields`/`deleteClause` are given strings.
  Only the leading "AND" strip and the flag case analysis are modelled.
- `fullQuoteStr` is a parameter `quote: string -> string`. Its escaping is
  not modelled, and neither is its table argument.
- Counting.FetchStatement: the table name `fetchResult` passes to the
  quoting function is not modelled.
- Compiler.PlainValue: the DateTime, lazy-loading proxy and domain-object
  inputs of `getPlainValue` are foreign object types and are not modelled.
- The table-column cache: each table's column set is given in the catalog.
- Schema.Field: a field without TCA configuration answers "no relation of
  any kind". `TcaService` behaviour for unknown fields is not part of this
  model.
- Compiler.GetsScope: PHP turns numeric table-name keys into integer keys
  with no 64-bit bound. The model uses the canonical-integer test on
  unbounded integers, so decimal texts outside PHP's integer range are
  treated like integers too.
- MatcherFactory.CanBeInterpretedAsInteger: the same simplification as
  `canBeInterpretedAsInteger` on strings. The 64-bit range limit is not
  modelled.
- Compiler.SourceSql: join sources are modelled with equi-join conditions
  only. Other join condition types are not modelled.
- Compiler.ContainsComparisonSql: the relation-existence branches
  (junction table, child table, comma list) cannot be reached in the code
  and are not modelled.
- Placeholders.QueryMarksMatchParameters: proves where the marks are and
  how many there are, not which mark is filled by which parameter. The
  substitution consumes parameters in order, so the count is what decides
  whether it succeeds.
- `$sql['keywords']` only ever holds `distinct`, so it is a flag.
- The ModuleLoader getters, with their fallback to the stored
  configuration of the current module, are not modelled because they read
  the request and `$GLOBALS`. `isRegistered`, `initialize`,
  `getModuleCode`, `isCurrentModuleList`, `getCurrentPid`, `getModuleUrl`
  and `getDataTypes` are left out for the same reason.
- ModuleLoading.SubModuleCode: only the non-list branch of
  `getVidiModuleCode` is modelled. The list-module branch reads the
  request and the user preferences.
- `ExtensionUtility::registerModule` and the `$GLOBALS['TBE_MODULES_EXT']`
  write are the values `Register` returns.
- The value of `Access::USER` is taken to be "user,group" (the constant
  `UserAccess`). The `Access` class is not part of this model.
- ModuleLoading.UpperCamel: `ucwords` is modelled with its word breaks for
  space, tab, CR, LF, form feed and vertical tab. Locale effects are not
  modelled.
- The deprecated `setNavigation*`/`addNavigation*`/`setGridMenu*`/
  `addGridMenu*` aliases are the same slot operations as the methods they
  forward to (`SetComponents`, `AddComponents`).
- ModuleLoading.ModuleLoader.AddComponents: `array_merge` is modelled as
  appending. Lists with string keys, whose entries `array_merge` would
  overwrite, are not modelled.
- ModuleLoading.ModuleLoader.SetDefaultPid: the default pid is an integer.
  Other types PHP would accept are not modelled.
- `Matcher.php` is not part of this model. The matcher is the record of
  the calls the factory makes on it.
- The post-processing signal dispatch, the object manager,
  `json_decode`/`rawurldecode` and the field path resolver are parameters
  or left out. Only the signal's data-type fallback is modelled.
- MatcherFactory.TermCriteria: a decoded Visual Search term is modelled as
  a one-entry object (its first key and value). The other entries of the
  object are ignored, as `key()`/`current()` do.
- Strings.TrimExplode: the pieces are renumbered from 0, as TYPO3's
  `trimExplode` does with empty values removed.
- Controller actions, the JSON view and the grid renderer interface are UI
  plumbing with no behaviour to model here.
