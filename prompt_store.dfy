/**
 * The dynamic query of `list_prompts`: from an optional title search, an
 * optional favourite filter, a sort column and a sort order it builds the
 * SQL text and the ordered parameter tuple handed to the driver. Values
 * supplied by the user travel only as parameters; a column name enters
 * the text only when it is one of the two sortable columns.
 */
module PromptStore {
  import opened Wrappers
  import opened SqlText

  /** A value bound to one `%s` placeholder. */
  datatype Param = PText(text: string) | PBool(flag: bool)

  const Placeholder := "%s"
  // The column list is split into short literals only because the verifier
  // reasons about short string literals more cheaply; the text is unchanged.
  const Columns := "id, title, " + "description, " + "is_favorite"
  const BaseQuery := "SELECT " + Columns + " FROM prompts"
  const SearchCondition := "title ILIKE " + Placeholder
  const FavoriteCondition := "is_favorite = " + Placeholder
  const Where := " WHERE "
  const And := " AND "
  const OrderBy := " ORDER BY "
  /** The only column names allowed into the text. */
  const SortColumns := ["title", "is_favorite"]

  /** Python's truthiness test on the search text: `None` and `""` are absent. */
  predicate SearchPresent(searchQuery: Option<string>)
  {
    searchQuery.Some? && searchQuery.value != ""
  }

  predicate IsSortColumn(sortBy: string)
  {
    sortBy in SortColumns
  }

  /** The ILIKE pattern for a search text: the text between two `%` wildcards. */
  function SearchPattern(q: string): (p: string)
    ensures |p| == |q| + 2
    ensures p[0] == '%' && p[|p| - 1] == '%' && p[1..|p| - 1] == q
  {
    "%" + q + "%"
  }

  /** The predicate that goes with a parameter of each kind. */
  function ConditionFor(p: Param): string
  {
    match p
    case PText(_) => SearchCondition
    case PBool(_) => FavoriteCondition
  }

  /** The parameters of the list query, in the order of their predicates. */
  function ListParams(searchQuery: Option<string>, favoriteFilter: Option<bool>): (ps: seq<Param>)
    ensures |ps| == (if SearchPresent(searchQuery) then 1 else 0) + (if favoriteFilter.Some? then 1 else 0)
    ensures forall k :: 0 <= k < |ps| ==> (ps[k].PText? <==> k == 0 && SearchPresent(searchQuery))
  {
    (if SearchPresent(searchQuery) then [PText(SearchPattern(searchQuery.value))] else [])
    + (if favoriteFilter.Some? then [PBool(favoriteFilter.value)] else [])
  }

  /** The predicates of the list query: one per parameter, in the same order. */
  function ListConditions(searchQuery: Option<string>, favoriteFilter: Option<bool>): (cs: seq<string>)
    ensures |cs| == |ListParams(searchQuery, favoriteFilter)|
    ensures forall k :: 0 <= k < |cs| ==> cs[k] == ConditionFor(ListParams(searchQuery, favoriteFilter)[k])
  {
    (if SearchPresent(searchQuery) then [SearchCondition] else [])
    + (if favoriteFilter.Some? then [FavoriteCondition] else [])
  }

  function WhereClause(conditions: seq<string>): string
  {
    if conditions == [] then "" else Where + Join(conditions, And)
  }

  /** The SQL sort direction: `ASC` only for exactly `asc`. */
  function SortDirection(sortOrder: string): (d: string)
    ensures d == "ASC" <==> sortOrder == "asc"
    ensures d == "ASC" || d == "DESC"
  {
    if sortOrder == "asc" then "ASC" else "DESC"
  }

  function OrderByClause(sortBy: string, sortOrder: string): string
  {
    if IsSortColumn(sortBy) then OrderBy + sortBy + " " + SortDirection(sortOrder) else ""
  }

  /** The SQL text of the list query. */
  function ListQuery(searchQuery: Option<string>, favoriteFilter: Option<bool>, sortBy: string, sortOrder: string): string
  {
    BaseQuery + WhereClause(ListConditions(searchQuery, favoriteFilter)) + OrderByClause(sortBy, sortOrder)
  }

  /**
   * Reference definition: every text the list query can have, written out.
   * It depends only on which filters are present, on the whitelisted
   * column (if any) and on the direction.
   */
  function QueryShape(hasSearch: bool, hasFavorite: bool, column: Option<string>, ascending: bool): string
  {
    BaseQuery + WhereShape(hasSearch, hasFavorite) + OrderShape(column, ascending)
  }

  function WhereShape(hasSearch: bool, hasFavorite: bool): string
  {
    if hasSearch && hasFavorite then " WHERE title ILIKE %s AND is_favorite = %s"
    else if hasSearch then " WHERE title ILIKE %s"
    else if hasFavorite then " WHERE is_favorite = %s"
    else ""
  }

  function OrderShape(column: Option<string>, ascending: bool): string
  {
    match column
    case None => ""
    case Some(c) => " ORDER BY " + c + (if ascending then " ASC" else " DESC")
  }

  /**
   * The query construction of `list_prompts`: predicates and parameters are
   * collected in order, joined under WHERE when there are any, and ORDER BY
   * is appended for a whitelisted column.
   */
  method BuildListQuery(searchQuery: Option<string>, favoriteFilter: Option<bool>, sortBy: string, sortOrder: string)
    returns (query: string, params: seq<Param>)
    ensures query == ListQuery(searchQuery, favoriteFilter, sortBy, sortOrder)
    ensures params == ListParams(searchQuery, favoriteFilter)
    ensures BaseQuery <= query
    ensures Placeholders(query) == |params|
  {
    query := BaseQuery;
    var conditions: seq<string> := [];
    params := [];

    if searchQuery.Some? && searchQuery.value != "" {
      conditions := conditions + [SearchCondition];
      params := params + [PText("%" + searchQuery.value + "%")];
    }

    if favoriteFilter.Some? {
      conditions := conditions + [FavoriteCondition];
      params := params + [PBool(favoriteFilter.value)];
    }
    // Checkpoint: both filters handled (app.py:54-60).
    assert conditions == ListConditions(searchQuery, favoriteFilter);
    assert params == ListParams(searchQuery, favoriteFilter);

    if conditions != [] {
      query := query + (Where + Join(conditions, And));
    }
    // Checkpoint: WHERE clause appended (app.py:62-63).
    assert query == BaseQuery + WhereClause(conditions);

    var direction := if sortOrder == "asc" then "ASC" else "DESC";
    if sortBy in SortColumns {
      query := query + (OrderBy + sortBy + " " + direction);
    }
    // Checkpoint: ORDER BY clause appended (app.py:66-68).
    assert query == BaseQuery + WhereClause(conditions) + OrderByClause(sortBy, sortOrder);
    QueryStartsWithSelect(searchQuery, favoriteFilter, sortBy, sortOrder);
    PlaceholdersMatchParams(searchQuery, favoriteFilter, sortBy, sortOrder);
  }

  /*
   * Which characters the fixed fragments of the text lack. `W` occurs only
   * in WHERE, `N` only in AND and `Y` only in ORDER BY, and `%` only in
   * placeholders.
   */

  lemma ColumnsChars()
    ensures '%' !in Columns && 'W' !in Columns && 'N' !in Columns && 'Y' !in Columns
  {
  }

  lemma BaseQueryChars()
    ensures '%' !in BaseQuery && 'W' !in BaseQuery && 'N' !in BaseQuery && 'Y' !in BaseQuery
  {
    ColumnsChars();
  }

  lemma KeywordChars()
    ensures '%' !in Where && 'N' !in Where && 'Y' !in Where
    ensures '%' !in And && 'W' !in And && 'Y' !in And
  {
  }

  lemma OrderByChars()
    ensures '%' !in OrderBy && 'W' !in OrderBy && 'N' !in OrderBy
  {
  }

  lemma SortColumnChars(sortBy: string)
    requires IsSortColumn(sortBy)
    ensures '%' !in sortBy && 'W' !in sortBy && 'N' !in sortBy
  {
  }

  lemma SortDirectionChars(sortOrder: string)
    ensures '%' !in SortDirection(sortOrder) && 'W' !in SortDirection(sortOrder) && 'N' !in SortDirection(sortOrder)
  {
  }

  lemma ConditionChars()
    ensures 'W' !in SearchCondition && 'N' !in SearchCondition && 'Y' !in SearchCondition
    ensures 'W' !in FavoriteCondition && 'N' !in FavoriteCondition && 'Y' !in FavoriteCondition
  {
  }

  /** The ORDER BY clause carries no placeholder, no `W` and no `N`. */
  lemma OrderByClauseChars(sortBy: string, sortOrder: string)
    ensures '%' !in OrderByClause(sortBy, sortOrder)
    ensures 'W' !in OrderByClause(sortBy, sortOrder)
    ensures 'N' !in OrderByClause(sortBy, sortOrder)
  {
    if IsSortColumn(sortBy) {
      OrderByChars();
      SortColumnChars(sortBy);
      SortDirectionChars(sortOrder);
      assert OrderByClause(sortBy, sortOrder) == OrderBy + sortBy + " " + SortDirection(sortOrder);
    }
  }

  /** Each predicate carries exactly one placeholder, at its end. */
  lemma ConditionPlaceholders()
    ensures Placeholders(SearchCondition) == 1 && EndsClean(SearchCondition)
    ensures Placeholders(FavoriteCondition) == 1 && EndsClean(FavoriteCondition)
  {
    OnePlaceholderAtEnd("title ILIKE ");
    OnePlaceholderAtEnd("is_favorite = ");
  }

  lemma OnePlaceholderAtEnd(text: string)
    requires '%' !in text
    ensures Placeholders(text + Placeholder) == 1 && EndsClean(text + Placeholder)
  {
    NoPercentNoPlaceholders(text);
    PlaceholdersAppend(text, Placeholder);
  }

  /** The WHERE clause carries one placeholder per predicate. */
  lemma WhereClausePlaceholders(searchQuery: Option<string>, favoriteFilter: Option<bool>)
    ensures Placeholders(WhereClause(ListConditions(searchQuery, favoriteFilter))) == |ListParams(searchQuery, favoriteFilter)|
    ensures EndsClean(WhereClause(ListConditions(searchQuery, favoriteFilter)))
  {
    var conditions := ListConditions(searchQuery, favoriteFilter);
    ConditionPlaceholders();
    assert forall k :: 0 <= k < |conditions| ==> Placeholders(conditions[k]) == 1 && EndsClean(conditions[k]);
    KeywordChars();
    JoinPlaceholders(conditions, And);
    if conditions != [] {
      NoPercentNoPlaceholders(Where);
      PlaceholdersAppend(Where, Join(conditions, And));
    }
  }

  /** The number of `%s` placeholders in the text equals the number of parameters. */
  lemma PlaceholdersMatchParams(searchQuery: Option<string>, favoriteFilter: Option<bool>, sortBy: string, sortOrder: string)
    ensures Placeholders(ListQuery(searchQuery, favoriteFilter, sortBy, sortOrder)) == |ListParams(searchQuery, favoriteFilter)|
  {
    WhereClausePlaceholders(searchQuery, favoriteFilter);
    BaseQueryChars();
    OrderByClauseChars(sortBy, sortOrder);
    PlaceholdersInPlainContext(BaseQuery, WhereClause(ListConditions(searchQuery, favoriteFilter)), OrderByClause(sortBy, sortOrder));
  }

  /** The four forms of the WHERE clause. */
  lemma WhereClauseCases(searchQuery: Option<string>, favoriteFilter: Option<bool>)
    ensures WhereClause(ListConditions(searchQuery, favoriteFilter))
         == if SearchPresent(searchQuery) && favoriteFilter.Some? then Where + SearchCondition + And + FavoriteCondition
            else if SearchPresent(searchQuery) then Where + SearchCondition
            else if favoriteFilter.Some? then Where + FavoriteCondition
            else ""
  {
    if SearchPresent(searchQuery) && favoriteFilter.Some? {
      assert ListConditions(searchQuery, favoriteFilter) == [SearchCondition, FavoriteCondition];
      JoinTwo(SearchCondition, FavoriteCondition, And);
    }
  }

  /** The WHERE clauses spelled out. */
  lemma WhereTexts()
    ensures Where + SearchCondition + And + FavoriteCondition == " WHERE title ILIKE %s AND is_favorite = %s"
    ensures Where + SearchCondition == " WHERE title ILIKE %s"
    ensures Where + FavoriteCondition == " WHERE is_favorite = %s"
  {
    SearchWhereText();
    FavoriteWhereText();
  }

  lemma SearchWhereText()
    ensures Where + SearchCondition == " WHERE title ILIKE %s"
  {
  }

  lemma FavoriteWhereText()
    ensures Where + FavoriteCondition == " WHERE is_favorite = %s"
  {
  }

  /** The text always starts with the fixed SELECT of the four columns. */
  lemma QueryStartsWithSelect(searchQuery: Option<string>, favoriteFilter: Option<bool>, sortBy: string, sortOrder: string)
    ensures BaseQuery <= ListQuery(searchQuery, favoriteFilter, sortBy, sortOrder)
  {
  }

  /**
   * The search text adds a predicate and a parameter exactly when it is
   * present (neither `None` nor empty); the parameter is the text between
   * two `%` wildcards and comes first.
   */
  lemma SearchFilter(searchQuery: Option<string>, favoriteFilter: Option<bool>)
    ensures SearchCondition in ListConditions(searchQuery, favoriteFilter) <==> SearchPresent(searchQuery)
    ensures SearchPresent(searchQuery) ==>
      ListConditions(searchQuery, favoriteFilter)[0] == SearchCondition
      && ListParams(searchQuery, favoriteFilter)[0] == PText(SearchPattern(searchQuery.value))
    ensures !SearchPresent(searchQuery) ==>
      ListConditions(searchQuery, favoriteFilter) == ListConditions(None, favoriteFilter)
      && ListParams(searchQuery, favoriteFilter) == ListParams(None, favoriteFilter)
      && forall p :: p in ListParams(searchQuery, favoriteFilter) ==> p.PBool?
  {
    ConditionChars();
    assert SearchCondition != FavoriteCondition by {
      assert SearchCondition[0] != FavoriteCondition[0];
    }
  }

  /**
   * The favourite filter adds a predicate and a parameter exactly when it is
   * not `None`; `Some(false)` is a filter like `Some(true)`, and its
   * parameter comes last.
   */
  lemma FavoriteFilter(searchQuery: Option<string>, favoriteFilter: Option<bool>)
    ensures FavoriteCondition in ListConditions(searchQuery, favoriteFilter) <==> favoriteFilter.Some?
    ensures favoriteFilter.Some? ==>
      var cs, ps := ListConditions(searchQuery, favoriteFilter), ListParams(searchQuery, favoriteFilter);
      cs[|cs| - 1] == FavoriteCondition && ps[|ps| - 1] == PBool(favoriteFilter.value)
    ensures favoriteFilter.None? ==> forall p :: p in ListParams(searchQuery, favoriteFilter) ==> p.PText?
    ensures ListParams(searchQuery, Some(false)) != ListParams(searchQuery, None)
  {
    assert SearchCondition != FavoriteCondition by {
      assert SearchCondition[0] != FavoriteCondition[0];
    }
  }

  /** With both filters the predicates are joined by exactly one AND, search first. */
  lemma BothFilters(q: string, favorite: bool)
    requires q != ""
    ensures ListParams(Some(q), Some(favorite)) == [PText(SearchPattern(q)), PBool(favorite)]
    ensures WhereClause(ListConditions(Some(q), Some(favorite))) == " WHERE title ILIKE %s AND is_favorite = %s"
  {
    WhereClauseCases(Some(q), Some(favorite));
    WhereTexts();
  }

  /** WHERE appears in the text exactly when some filter is present. */
  lemma WhereIffFilter(searchQuery: Option<string>, favoriteFilter: Option<bool>, sortBy: string, sortOrder: string)
    ensures Contains(ListQuery(searchQuery, favoriteFilter, sortBy, sortOrder), Where)
        <==> SearchPresent(searchQuery) || favoriteFilter.Some?
  {
    var conditions := ListConditions(searchQuery, favoriteFilter);
    var query := BaseQuery + WhereClause(conditions) + OrderByClause(sortBy, sortOrder);
    assert ListQuery(searchQuery, favoriteFilter, sortBy, sortOrder) == query;
    if conditions != [] {
      assert WhereClause(conditions) == "" + Where + Join(conditions, And);
      KeywordFollowsBase("", Where, Join(conditions, And), OrderByClause(sortBy, sortOrder));
    } else {
      OrderByClauseChars(sortBy, sortOrder);
      KeywordMissing("", OrderByClause(sortBy, sortOrder), Where, 1);
    }
  }

  /** AND appears in the text exactly when both filters are present. */
  lemma AndIffBothFilters(searchQuery: Option<string>, favoriteFilter: Option<bool>, sortBy: string, sortOrder: string)
    ensures Contains(ListQuery(searchQuery, favoriteFilter, sortBy, sortOrder), And)
        <==> SearchPresent(searchQuery) && favoriteFilter.Some?
  {
    var where := WhereClause(ListConditions(searchQuery, favoriteFilter));
    var query := BaseQuery + where + OrderByClause(sortBy, sortOrder);
    assert ListQuery(searchQuery, favoriteFilter, sortBy, sortOrder) == query;
    WhereClauseCases(searchQuery, favoriteFilter);
    if SearchPresent(searchQuery) && favoriteFilter.Some? {
      KeywordFollowsBase(Where + SearchCondition, And, FavoriteCondition, OrderByClause(sortBy, sortOrder));
    } else {
      WhereWithoutAnd(searchQuery, favoriteFilter);
      OrderByClauseChars(sortBy, sortOrder);
      KeywordMissing(where, OrderByClause(sortBy, sortOrder), And, 2);
    }
  }

  lemma WhereWithoutAnd(searchQuery: Option<string>, favoriteFilter: Option<bool>)
    requires !(SearchPresent(searchQuery) && favoriteFilter.Some?)
    ensures 'N' !in WhereClause(ListConditions(searchQuery, favoriteFilter))
  {
    WhereClauseCases(searchQuery, favoriteFilter);
    KeywordChars();
    ConditionChars();
  }

  /** A keyword inside the WHERE clause is in the text. */
  lemma KeywordFollowsBase(before: string, keyword: string, rest: string, order: string)
    ensures Contains(BaseQuery + (before + keyword + rest) + order, keyword)
  {
    assert BaseQuery + (before + keyword + rest) + order == (BaseQuery + before) + keyword + (rest + order);
    ContainsInContext(BaseQuery + before, keyword, rest + order);
  }

  /** A keyword with a character the SELECT and the clauses lack is not in the text. */
  lemma KeywordMissing(where: string, order: string, keyword: string, k: nat)
    requires k < |keyword| && (keyword[k] == 'W' || keyword[k] == 'N' || keyword[k] == 'Y')
    requires keyword[k] !in where && keyword[k] !in order
    ensures !Contains(BaseQuery + where + order, keyword)
  {
    BaseQueryChars();
    MissingCharNotContained(BaseQuery + where + order, keyword, k);
  }

  /** ORDER BY appears in the text exactly when the sort column is whitelisted. */
  lemma OrderByIffSortColumn(searchQuery: Option<string>, favoriteFilter: Option<bool>, sortBy: string, sortOrder: string)
    ensures Contains(ListQuery(searchQuery, favoriteFilter, sortBy, sortOrder), OrderBy) <==> IsSortColumn(sortBy)
  {
    if IsSortColumn(sortBy) {
      OrderByWhenSortColumn(searchQuery, favoriteFilter, sortBy, sortOrder);
    } else {
      var where := WhereClause(ListConditions(searchQuery, favoriteFilter));
      assert ListQuery(searchQuery, favoriteFilter, sortBy, sortOrder) == BaseQuery + where + "";
      WhereWithoutY(searchQuery, favoriteFilter);
      KeywordMissing(where, "", OrderBy, 8);
    }
  }

  lemma OrderByWhenSortColumn(searchQuery: Option<string>, favoriteFilter: Option<bool>, sortBy: string, sortOrder: string)
    requires IsSortColumn(sortBy)
    ensures Contains(ListQuery(searchQuery, favoriteFilter, sortBy, sortOrder), OrderBy)
  {
    var head := BaseQuery + WhereClause(ListConditions(searchQuery, favoriteFilter));
    OrderByStartsClause(sortBy, sortOrder);
    ContainsPrefixOfTail(head, OrderByClause(sortBy, sortOrder), OrderBy);
  }

  lemma OrderByStartsClause(sortBy: string, sortOrder: string)
    requires IsSortColumn(sortBy)
    ensures OrderBy <= OrderByClause(sortBy, sortOrder)
  {
    assert OrderByClause(sortBy, sortOrder) == OrderBy + (sortBy + " " + SortDirection(sortOrder));
  }

  lemma WhereWithoutY(searchQuery: Option<string>, favoriteFilter: Option<bool>)
    ensures 'Y' !in WhereClause(ListConditions(searchQuery, favoriteFilter))
  {
    WhereClauseCases(searchQuery, favoriteFilter);
    KeywordChars();
    ConditionChars();
  }

  /** A whitelisted column ends the text with the column name and its direction. */
  lemma OrderByEndsQuery(searchQuery: Option<string>, favoriteFilter: Option<bool>, sortBy: string, sortOrder: string)
    requires IsSortColumn(sortBy)
    ensures var query, tail := ListQuery(searchQuery, favoriteFilter, sortBy, sortOrder), OrderBy + sortBy + " " + SortDirection(sortOrder);
      |tail| <= |query| && query[|query| - |tail|..] == tail
  {
    var query, tail := ListQuery(searchQuery, favoriteFilter, sortBy, sortOrder), OrderBy + sortBy + " " + SortDirection(sortOrder);
    var head := BaseQuery + WhereClause(ListConditions(searchQuery, favoriteFilter));
    assert query == head + tail;
    assert query[|head|..] == tail;
  }

  /**
   * Every text the builder produces is one of the fixed texts of
   * QueryShape: the search text and the favourite value never reach it,
   * and the sort column reaches it only when whitelisted.
   */
  lemma ListQueryShape(searchQuery: Option<string>, favoriteFilter: Option<bool>, sortBy: string, sortOrder: string)
    ensures ListQuery(searchQuery, favoriteFilter, sortBy, sortOrder)
         == QueryShape(SearchPresent(searchQuery), favoriteFilter.Some?,
                       if IsSortColumn(sortBy) then Some(sortBy) else None, sortOrder == "asc")
  {
    WhereClauseShape(searchQuery, favoriteFilter);
    OrderByClauseShape(sortBy, sortOrder);
  }

  lemma WhereClauseShape(searchQuery: Option<string>, favoriteFilter: Option<bool>)
    ensures WhereClause(ListConditions(searchQuery, favoriteFilter)) == WhereShape(SearchPresent(searchQuery), favoriteFilter.Some?)
  {
    WhereClauseCases(searchQuery, favoriteFilter);
    WhereTexts();
  }

  lemma OrderByClauseShape(sortBy: string, sortOrder: string)
    ensures OrderByClause(sortBy, sortOrder) == OrderShape(if IsSortColumn(sortBy) then Some(sortBy) else None, sortOrder == "asc")
  {
    if IsSortColumn(sortBy) {
      assert OrderBy + sortBy + " " + SortDirection(sortOrder) == " ORDER BY " + sortBy + (" " + SortDirection(sortOrder));
    }
  }

  /** Texts of two calls differ only if presence of filters, sort column or direction differ. */
  lemma ValuesNeverInText(q1: Option<string>, f1: Option<bool>, q2: Option<string>, f2: Option<bool>,
                          sortBy: string, sortOrder: string)
    requires SearchPresent(q1) == SearchPresent(q2) && f1.Some? == f2.Some?
    ensures ListQuery(q1, f1, sortBy, sortOrder) == ListQuery(q2, f2, sortBy, sortOrder)
  {
    ListQueryShape(q1, f1, sortBy, sortOrder);
    ListQueryShape(q2, f2, sortBy, sortOrder);
  }

  /** A sort column outside the whitelist is ignored: the text is the one without ORDER BY. */
  lemma UnlistedSortColumnIgnored(searchQuery: Option<string>, favoriteFilter: Option<bool>, sortBy: string, sortOrder: string)
    requires !IsSortColumn(sortBy)
    ensures ListQuery(searchQuery, favoriteFilter, sortBy, sortOrder)
         == BaseQuery + WhereClause(ListConditions(searchQuery, favoriteFilter))
  {
  }

  /** The defaults of `list_prompts`: no filter, sorted by title ascending. */
  lemma DefaultListQuery()
    ensures ListQuery(None, None, "title", "asc") == BaseQuery + " ORDER BY title ASC"
    ensures ListParams(None, None) == []
  {
  }
}
