/**
 * `MatcherObjectFactory`: how the backend turns the request (the DataTables
 * search parameter `sSearch`, the page `id`) and the `matches` argument into
 * the criteria of a `Matcher`. The matcher is modelled as the record of the
 * calls the factory makes on it, in order; what the matcher later does with
 * them belongs to the query compiler.
 */
module MatcherFactory {
  import opened Outcomes
  import opened Strings
  import opened Schema

  /** One call on the matcher: `equals`, `in`, `likes` or `setSearchTerm`. */
  datatype Criterion =
    | Eq(property: string, value: Option<string>)
    | InList(property: string, values: seq<string>)
    | Like(property: string, text: string)
    | Search(term: string)

  /** One entry of the decoded Visual Search list: its first key and first value. */
  datatype Term = Term(fieldNameAndPath: string, value: string)

  /**
   * What the factory asks of code outside it: the TCA catalog, `rawurldecode`,
   * `json_decode` (None where the decoded value is not an array), and the
   * field path resolver's `getDataType` and `stripFieldPath`.
   */
  datatype Services = Services(
    catalog: Catalog,
    urlDecode: string -> string,
    jsonDecode: string -> Option<seq<Term>>,
    resolveDataType: string -> string,
    stripFieldPath: string -> string)

  /** The request parameters read with `_GP`; an absent one reads as "". */
  datatype Request = Request(sSearch: string, id: string)

  class Matcher {
    var dataType: string
    var criteria: seq<Criterion>

    constructor (dataType: string)
      ensures this.dataType == dataType && criteria == []
    {
      this.dataType := dataType;
      criteria := [];
    }

    method Equals(property: string, value: Option<string>)
      modifies this
      ensures criteria == old(criteria) + [Eq(property, value)]
      ensures dataType == old(dataType)
    {
      criteria := criteria + [Eq(property, value)];
    }

    method In(property: string, values: seq<string>)
      modifies this
      ensures criteria == old(criteria) + [InList(property, values)]
      ensures dataType == old(dataType)
    {
      criteria := criteria + [InList(property, values)];
    }

    method Likes(property: string, value: string)
      modifies this
      ensures criteria == old(criteria) + [Like(property, value)]
      ensures dataType == old(dataType)
    {
      criteria := criteria + [Like(property, value)];
    }

    method SetSearchTerm(term: string)
      modifies this
      ensures criteria == old(criteria) + [Search(term)]
      ensures dataType == old(dataType)
    {
      criteria := criteria + [Search(term)];
    }

    method SetDataType(dataType: string)
      modifies this
      ensures this.dataType == dataType && criteria == old(criteria)
    {
      this.dataType := dataType;
    }
  }

  /**
   * `MathUtility::canBeInterpretedAsInteger` on a string: the string is the
   * decimal text PHP gives the integer it reads from it.
   */
  predicate CanBeInterpretedAsInteger(value: string) {
    IsCanonicalInteger(value)
  }

  /** `isOperatorEquals`: a relation compared with an id, or a numerical field. */
  predicate IsOperatorEquals(c: Catalog, fieldName: string, dataType: string, value: string) {
    var f := Field(c, dataType, fieldName);
    (f.hasRelation && CanBeInterpretedAsInteger(value)) || f.isNumerical
  }

  /** A relation field searched with the id of a record is compared by equality. */
  lemma RelationIdsCompareEqual(c: Catalog, fieldName: string, dataType: string, id: int)
    requires Field(c, dataType, fieldName).hasRelation
    ensures IsOperatorEquals(c, fieldName, dataType, IntToString(id))
  {
    IntToStringCanonical(id);
  }

  /** A field that is neither numerical nor a relation is always searched with LIKE. */
  lemma PlainFieldsCompareLike(c: Catalog, fieldName: string, dataType: string, value: string)
    requires !Field(c, dataType, fieldName).hasRelation && !Field(c, dataType, fieldName).isNumerical
    ensures !IsOperatorEquals(c, fieldName, dataType, value)
  {
  }

  /* ---------------------------------------------------------------- */
  /* applyCriteriaFromDataTables                                       */
  /* ---------------------------------------------------------------- */

  /**
   * The call one decoded search term produces: none for a field the resolved
   * table lacks, the search term for the pseudo-field "text", and otherwise an
   * equality or a LIKE criterion on the field path.
   */
  function TermCriteria(s: Services, dataType: string, t: Term): (r: seq<Criterion>)
    ensures |r| <= 1
    ensures r != [] <==> HasField(s.catalog, s.resolveDataType(t.fieldNameAndPath), s.stripFieldPath(t.fieldNameAndPath))
    ensures r != [] && t.fieldNameAndPath == "text" ==> r == [Search(t.value)]
    ensures r != [] && t.fieldNameAndPath != "text" ==>
              (r[0].Eq? <==> IsOperatorEquals(s.catalog, t.fieldNameAndPath, dataType, t.value))
    ensures forall k :: 0 <= k < |r| ==>
              r[k] in {Search(t.value), Eq(t.fieldNameAndPath, Some(t.value)), Like(t.fieldNameAndPath, t.value)}
  {
    var name := t.fieldNameAndPath;
    if !HasField(s.catalog, s.resolveDataType(name), s.stripFieldPath(name)) then []
    else if name == "text" then [Search(t.value)]
    else if IsOperatorEquals(s.catalog, name, dataType, t.value) then [Eq(name, Some(t.value))]
    else [Like(name, t.value)]
  }

  /** The calls for the decoded terms, in their order. */
  function TermsCriteria(s: Services, dataType: string, terms: seq<Term>): (r: seq<Criterion>)
  {
    if terms == [] then [] else TermCriteria(s, dataType, terms[0]) + TermsCriteria(s, dataType, terms[1..])
  }

  lemma {:induction false} TermsCriteriaAppend(s: Services, dataType: string, terms: seq<Term>, t: Term)
    ensures TermsCriteria(s, dataType, terms + [t]) == TermsCriteria(s, dataType, terms) + TermCriteria(s, dataType, t)
  {
    if terms == [] {
      assert [] + [t] == [t] && [t][1..] == [];
    } else {
      assert (terms + [t])[1..] == terms[1..] + [t];
      TermsCriteriaAppend(s, dataType, terms[1..], t);
    }
  }

  lemma TermsCriteriaStep(s: Services, dataType: string, terms: seq<Term>, i: nat)
    requires i < |terms|
    ensures TermsCriteria(s, dataType, terms[..i + 1]) == TermsCriteria(s, dataType, terms[..i]) + TermCriteria(s, dataType, terms[i])
  {
    assert terms[..i + 1] == terms[..i] + [terms[i]];
    TermsCriteriaAppend(s, dataType, terms[..i], terms[i]);
  }

  /** The calls `applyCriteriaFromDataTables` makes. */
  function DataTablesCriteria(s: Services, dataType: string, sSearch: string): seq<Criterion> {
    if |sSearch| == 0 then []
    else
      var decoded := s.urlDecode(sSearch);
      match s.jsonDecode(decoded)
      case None => [Search(decoded)]
      case Some(terms) => TermsCriteria(s, dataType, terms)
  }

  /** At most one call per term, and each one for a field the catalog knows. */
  lemma {:induction false} TermsCriteriaFields(s: Services, dataType: string, terms: seq<Term>)
    ensures |TermsCriteria(s, dataType, terms)| <= |terms|
    ensures forall c :: c in TermsCriteria(s, dataType, terms) ==>
              exists t :: t in terms
                && HasField(s.catalog, s.resolveDataType(t.fieldNameAndPath), s.stripFieldPath(t.fieldNameAndPath))
                && c in TermCriteria(s, dataType, t)
  {
    if terms != [] {
      TermsCriteriaFields(s, dataType, terms[1..]);
      var r := TermsCriteria(s, dataType, terms);
      forall c | c in r
        ensures exists t :: t in terms
                  && HasField(s.catalog, s.resolveDataType(t.fieldNameAndPath), s.stripFieldPath(t.fieldNameAndPath))
                  && c in TermCriteria(s, dataType, t)
      {
        if c in TermCriteria(s, dataType, terms[0]) {
          assert terms[0] in terms;
        } else {
          var t :| t in terms[1..]
                  && HasField(s.catalog, s.resolveDataType(t.fieldNameAndPath), s.stripFieldPath(t.fieldNameAndPath))
                  && c in TermCriteria(s, dataType, t);
          assert t in terms;
        }
      }
    }
  }

  /**
   * The DataTables step in outline: nothing without a search parameter, the
   * decoded text as search term when it does not decode to a list, and
   * otherwise at most one call per listed term, each for an existing field.
   */
  lemma DataTablesOutline(s: Services, dataType: string, sSearch: string)
    ensures sSearch == "" ==> DataTablesCriteria(s, dataType, sSearch) == []
    ensures sSearch != "" && s.jsonDecode(s.urlDecode(sSearch)).None? ==>
              DataTablesCriteria(s, dataType, sSearch) == [Search(s.urlDecode(sSearch))]
    ensures sSearch != "" && s.jsonDecode(s.urlDecode(sSearch)).Some? ==>
              var terms := s.jsonDecode(s.urlDecode(sSearch)).value;
              && |DataTablesCriteria(s, dataType, sSearch)| <= |terms|
              && forall c :: c in DataTablesCriteria(s, dataType, sSearch) ==>
                   exists t :: t in terms
                     && HasField(s.catalog, s.resolveDataType(t.fieldNameAndPath), s.stripFieldPath(t.fieldNameAndPath))
                     && c in TermCriteria(s, dataType, t)
  {
    if sSearch != "" {
      match s.jsonDecode(s.urlDecode(sSearch))
      case None =>
      case Some(terms) => TermsCriteriaFields(s, dataType, terms);
    }
  }

  method ApplyCriteriaFromDataTables(matcher: Matcher, dataType: string, sSearch: string, s: Services)
    modifies matcher
    ensures matcher.criteria == old(matcher.criteria) + DataTablesCriteria(s, dataType, sSearch)
    ensures matcher.dataType == old(matcher.dataType)
  {
    if |sSearch| > 0 {
      var searchTerm := s.urlDecode(sSearch);
      var terms := s.jsonDecode(searchTerm);
      if terms.Some? {
        var ts := terms.value;
        ghost var start := matcher.criteria;
        assert ts[..0] == [];
        for i := 0 to |ts|
          invariant matcher.criteria == start + TermsCriteria(s, dataType, ts[..i])
          invariant matcher.dataType == old(matcher.dataType)
        {
          ApplyTerm(matcher, dataType, ts[i], s);
          TermsCriteriaStep(s, dataType, ts, i);
        }
        assert ts[..|ts|] == ts;
      } else {
        matcher.SetSearchTerm(searchTerm);
      }
    }
  }

  /** The body of the loop over the decoded terms: at most one call, for a field the catalog knows. */
  method ApplyTerm(matcher: Matcher, dataType: string, t: Term, s: Services)
    modifies matcher
    ensures matcher.criteria == old(matcher.criteria) + TermCriteria(s, dataType, t)
    ensures matcher.dataType == old(matcher.dataType)
  {
    var name := t.fieldNameAndPath;
    var resolvedDataType := s.resolveDataType(name);
    var fieldName := s.stripFieldPath(name);
    if HasField(s.catalog, resolvedDataType, fieldName) {
      var value := t.value;
      if name == "text" {
        matcher.SetSearchTerm(value);
      } else if IsOperatorEquals(s.catalog, name, dataType, value) {
        matcher.Equals(name, Some(value));
      } else {
        matcher.Likes(name, value);
      }
    }
  }

  /* ---------------------------------------------------------------- */
  /* applyCriteriaFromMatchesArgument                                  */
  /* ---------------------------------------------------------------- */

  /**
   * The call for one `matches` entry: `in` when the value lists several
   * comma-separated items, and otherwise `equals` with the one item, or with
   * NULL (`$explodedValues[0]` of an empty array) when there is none.
   */
  function MatchCriterion(property: string, value: string): (c: Criterion)
    ensures (c.InList? || c.Eq?) && c.property == property
    ensures c.InList? ==> |c.values| > 1 && forall i :: 0 <= i < |c.values| ==> Trimmed(c.values[i]) && ',' !in c.values[i]
    ensures c.Eq? && c.value.Some? ==> Trimmed(c.value.value) && ',' !in c.value.value
  {
    var pieces := TrimExplode(value, ',');
    if |pieces| > 1 then InList(property, pieces)
    else Eq(property, if pieces == [] then None else Some(pieces[0]))
  }

  /** Several items written as a comma-separated list become an `in` criterion on exactly those items. */
  lemma CsvBecomesIn(property: string, items: seq<string>)
    requires |items| > 1
    requires forall i :: 0 <= i < |items| ==> Trimmed(items[i]) && ',' !in items[i]
    ensures MatchCriterion(property, Join(",", items)) == InList(property, items)
  {
    TrimExplodeJoin(items, ',');
  }

  /** A single item becomes an equality on that item. */
  lemma SingleBecomesEquals(property: string, item: string)
    requires Trimmed(item) && ',' !in item
    ensures MatchCriterion(property, item) == Eq(property, Some(item))
  {
    TrimExplodeJoin([item], ',');
  }

  /** A value with no item at all (blank, or only commas) becomes an equality with NULL. */
  lemma NoItemBecomesNull(property: string, value: string)
    requires SeparatorsAndBlanks(value, ',')
    ensures MatchCriterion(property, value) == Eq(property, None)
  {
    BlankExplode(value, ',');
    BlankPartsVanish(Explode(value, ','));
  }

  /** Every character is the separator or a blank. */
  predicate SeparatorsAndBlanks(s: string, c: char) {
    forall i :: 0 <= i < |s| ==> s[i] == c || IsBlank(s[i])
  }

  /** A string of separators and blanks explodes into blank pieces. */
  lemma {:induction false} BlankExplode(s: string, c: char)
    requires SeparatorsAndBlanks(s, c)
    ensures forall i :: 0 <= i < |Explode(s, c)| ==> AllBlank(Explode(s, c)[i])
    decreases |s|
  {
    match IndexOf(s, c)
    case None =>
      NoSeparatorBlank(s, c);
      BlankCons(Explode(s, c), s, []);
    case Some(k) =>
      SplitAtSeparator(s, c, k);
      BlankExplode(s[k + 1..], c);
      BlankCons(Explode(s, c), s[..k], Explode(s[k + 1..], c));
  }

  lemma NoSeparatorBlank(s: string, c: char)
    requires SeparatorsAndBlanks(s, c) && c !in s
    ensures AllBlank(s)
  {
    forall j | 0 <= j < |s| ensures IsBlank(s[j]) {
      assert s[j] in s;
    }
  }

  /** Before the first separator only blanks; after it, separators and blanks again. */
  lemma SplitAtSeparator(s: string, c: char, k: nat)
    requires SeparatorsAndBlanks(s, c) && IndexOf(s, c) == Some(k)
    ensures AllBlank(s[..k]) && SeparatorsAndBlanks(s[k + 1..], c)
  {
    var head, rest := s[..k], s[k + 1..];
    forall j | 0 <= j < |head| ensures IsBlank(head[j]) {
      assert head[j] == s[j] && head[j] in s[..k];
    }
    forall j | 0 <= j < |rest| ensures rest[j] == c || IsBlank(rest[j]) {
      assert rest[j] == s[k + 1 + j];
    }
  }

  lemma BlankCons(parts: seq<string>, head: string, ps: seq<string>)
    requires parts == [head] + ps && AllBlank(head)
    requires forall i :: 0 <= i < |ps| ==> AllBlank(ps[i])
    ensures forall i :: 0 <= i < |parts| ==> AllBlank(parts[i])
  {
    forall i | 0 <= i < |parts| ensures AllBlank(parts[i]) {
      if i > 0 {
        assert parts[i] == ps[i - 1];
      }
    }
  }

  lemma {:induction false} BlankPartsVanish(parts: seq<string>)
    requires forall i :: 0 <= i < |parts| ==> ',' !in parts[i]
    requires forall i :: 0 <= i < |parts| ==> AllBlank(parts[i])
    ensures TrimPieces(parts, ',') == []
  {
    if parts != [] {
      BlankTrims(parts[0]);
      BlankPartsVanish(parts[1..]);
    }
  }

  lemma {:induction false} BlankTrims(s: string)
    requires AllBlank(s)
    ensures Trim(s) == ""
  {
    if s != [] {
      BlankTrims(s[1..]);
    }
  }

  /** The calls for all entries of `matches`, in their order. */
  function MatchesCriteria(matches: seq<(string, string)>): (r: seq<Criterion>)
    ensures |r| == |matches|
  {
    if matches == [] then [] else [MatchCriterion(matches[0].0, matches[0].1)] + MatchesCriteria(matches[1..])
  }

  lemma {:induction false} MatchesCriteriaAppend(matches: seq<(string, string)>, property: string, value: string)
    ensures MatchesCriteria(matches + [(property, value)]) == MatchesCriteria(matches) + [MatchCriterion(property, value)]
  {
    if matches != [] {
      assert (matches + [(property, value)])[1..] == matches[1..] + [(property, value)];
      MatchesCriteriaAppend(matches[1..], property, value);
    }
  }

  lemma MatchesCriteriaStep(matches: seq<(string, string)>, i: nat)
    requires i < |matches|
    ensures MatchesCriteria(matches[..i + 1]) == MatchesCriteria(matches[..i]) + [MatchCriterion(matches[i].0, matches[i].1)]
  {
    assert matches[..i + 1] == matches[..i] + [matches[i]];
    MatchesCriteriaAppend(matches[..i], matches[i].0, matches[i].1);
  }

  /** One call per entry, each made from that entry alone. */
  lemma {:induction false} MatchesCriteriaAt(matches: seq<(string, string)>, i: nat)
    requires i < |matches|
    ensures MatchesCriteria(matches)[i] == MatchCriterion(matches[i].0, matches[i].1)
  {
    if i > 0 {
      MatchesCriteriaAt(matches[1..], i - 1);
    }
  }

  method ApplyCriteriaFromMatchesArgument(matcher: Matcher, matches: seq<(string, string)>)
    modifies matcher
    ensures matcher.criteria == old(matcher.criteria) + MatchesCriteria(matches)
    ensures matcher.dataType == old(matcher.dataType)
  {
    ghost var start := matcher.criteria;
    assert matches[..0] == [];
    for i := 0 to |matches|
      invariant matcher.criteria == start + MatchesCriteria(matches[..i])
      invariant matcher.dataType == old(matcher.dataType)
    {
      var (propertyName, value) := matches[i];
      ApplyMatch(matcher, propertyName, value);
      MatchesCriteriaStep(matches, i);
    }
    assert matches[..|matches|] == matches;
  }

  /** The body of the loop over `matches`: one call, `in` for several items, `equals` otherwise. */
  method ApplyMatch(matcher: Matcher, propertyName: string, value: string)
    modifies matcher
    ensures matcher.criteria == old(matcher.criteria) + [MatchCriterion(propertyName, value)]
    ensures matcher.dataType == old(matcher.dataType)
  {
    var explodedValues := TrimExplode(value, ',');
    if |explodedValues| > 1 {
      matcher.In(propertyName, explodedValues);
    } else {
      matcher.Equals(propertyName, if explodedValues == [] then None else Some(explodedValues[0]));
    }
  }

  /* ---------------------------------------------------------------- */
  /* applyCriteriaFromUrl and getMatcher                               */
  /* ---------------------------------------------------------------- */

  /** The call `applyCriteriaFromUrl` makes: `pid` equals the page id whenever the id is truthy. */
  function UrlCriteria(id: string): (r: seq<Criterion>)
    ensures r != [] <==> !PhpEmpty(id)
    ensures r != [] ==> r == [Eq("pid", Some(id))]
  {
    if !PhpEmpty(id) then [Eq("pid", Some(id))] else []
  }

  method ApplyCriteriaFromUrl(matcher: Matcher, id: string)
    modifies matcher
    ensures matcher.criteria == old(matcher.criteria) + UrlCriteria(id)
    ensures matcher.dataType == old(matcher.dataType)
  {
    if !PhpEmpty(id) {
      matcher.Equals("pid", Some(id));
    }
  }

  /** The data type `getMatcher` settles on: the argument unless `empty()`, else the module's one. */
  function MatcherDataType(dataType: string, moduleDataType: string): (r: string)
    ensures r == dataType || r == moduleDataType
    ensures PhpEmpty(dataType) ==> r == moduleDataType
    ensures !PhpEmpty(dataType) <==> r == dataType && !PhpEmpty(r)
  {
    if PhpEmpty(dataType) then moduleDataType else dataType
  }

  /**
   * The post-processing signal's own fallback (an empty data type is replaced
   * by the module's) never changes what `getMatcher` already settled on.
   */
  lemma SignalFallbackIsIdle(dataType: string, moduleDataType: string)
    ensures var d := MatcherDataType(dataType, moduleDataType);
            (if |d| <= 0 then moduleDataType else d) == d
  {
  }

  /** Every call `getMatcher` makes, in order: DataTables search, then `matches`, then the page id. */
  function MatcherCriteria(s: Services, matches: seq<(string, string)>, dataType: string, request: Request): seq<Criterion> {
    DataTablesCriteria(s, dataType, request.sSearch) + MatchesCriteria(matches) + UrlCriteria(request.id)
  }

  /**
   * Where each step's calls sit among all of the matcher's criteria: the
   * `matches` entries right after the DataTables ones and one per entry in
   * their order, and the page id, when present, last.
   */
  lemma MatcherCriteriaOrder(s: Services, matches: seq<(string, string)>, dataType: string, request: Request)
    ensures var all := MatcherCriteria(s, matches, dataType, request);
            var n := |DataTablesCriteria(s, dataType, request.sSearch)|;
            && all[..n] == DataTablesCriteria(s, dataType, request.sSearch)
            && |all| == n + |matches| + |UrlCriteria(request.id)|
            && (forall i :: 0 <= i < |matches| ==> all[n + i] == MatchCriterion(matches[i].0, matches[i].1))
            && (!PhpEmpty(request.id) ==> all[|all| - 1] == Eq("pid", Some(request.id)))
            && (PhpEmpty(request.id) ==> all[n..] == MatchesCriteria(matches))
  {
    var d := DataTablesCriteria(s, dataType, request.sSearch);
    var m := MatchesCriteria(matches);
    var u := UrlCriteria(request.id);
    var all := d + m + u;
    assert all[..|d|] == d;
    forall i | 0 <= i < |matches| ensures all[|d| + i] == MatchCriterion(matches[i].0, matches[i].1) {
      MatchesCriteriaAt(matches, i);
    }
    assert PhpEmpty(request.id) ==> all[|d|..] == m;
  }

  /** `getMatcher`. The module loader's data type is taken as a given string. */
  method GetMatcher(matches: seq<(string, string)>, dataType: string, moduleDataType: string, request: Request, s: Services)
    returns (matcher: Matcher)
    ensures fresh(matcher)
    ensures matcher.dataType == MatcherDataType(dataType, moduleDataType)
    ensures matcher.criteria == MatcherCriteria(s, matches, MatcherDataType(dataType, moduleDataType), request)
  {
    var d := dataType;
    if PhpEmpty(d) {
      d := moduleDataType;
    }
    assert d == MatcherDataType(dataType, moduleDataType);
    ghost var dt, mc, uc := DataTablesCriteria(s, d, request.sSearch), MatchesCriteria(matches), UrlCriteria(request.id);
    matcher := new Matcher(d);
    ApplyCriteriaFromDataTables(matcher, d, request.sSearch, s);
    assert matcher.criteria == dt;
    ApplyCriteriaFromMatchesArgument(matcher, matches);
    assert matcher.criteria == dt + mc;
    ApplyCriteriaFromUrl(matcher, request.id);
    assert matcher.criteria == dt + mc + uc == MatcherCriteria(s, matches, d, request);
    // The post-processing signal.
    if |matcher.dataType| <= 0 {
      matcher.SetDataType(moduleDataType);
    }
  }
}
