/**
 * The two selector mappings of the page: the favourite selector's choice
 * becomes the tri-state filter, and the sort-order choice becomes the
 * `asc`/`desc` argument of the list query.
 */
module Selectors {
  import opened Wrappers
  import opened PromptStore

  const FavoriteOptions := ["All", "Favorite", "Not Favorite"]
  const SortOrderOptions := ["Ascending", "Descending"]

  /** `"Favorite"` filters on true, `"Not Favorite"` on false, anything else not at all. */
  function FavoriteFilterOf(selected: string): (filter: Option<bool>)
    ensures filter == Some(true) <==> selected == "Favorite"
    ensures filter == Some(false) <==> selected == "Not Favorite"
  {
    if selected == "Favorite" then Some(true)
    else if selected == "Not Favorite" then Some(false)
    else None
  }

  /** The selector option that stands for a filter value. */
  function FavoriteOption(filter: Option<bool>): (selected: string)
    ensures selected in FavoriteOptions
  {
    match filter
    case None => "All"
    case Some(true) => "Favorite"
    case Some(false) => "Not Favorite"
  }

  /** The favourite selector's three options and the three filter values correspond one to one. */
  lemma FavoriteSelectorRoundTrip(filter: Option<bool>, selected: string)
    ensures FavoriteFilterOf(FavoriteOption(filter)) == filter
    ensures selected in FavoriteOptions ==> FavoriteOption(FavoriteFilterOf(selected)) == selected
  {
  }

  /** Only `"Ascending"` maps to `asc`; every other choice maps to `desc`. */
  function SortOrderOf(selected: string): (order: string)
    ensures order == "asc" <==> selected == "Ascending"
    ensures order == "asc" || order == "desc"
  {
    if selected == "Ascending" then "asc" else "desc"
  }

  /** The selector option that stands for a sort order. */
  function SortOrderOption(order: string): (selected: string)
    ensures selected in SortOrderOptions
  {
    if order == "asc" then "Ascending" else "Descending"
  }

  /** The sort-order selector's two options and the two orders correspond one to one. */
  lemma SortOrderSelectorRoundTrip(selected: string)
    ensures SortOrderOf(SortOrderOption("asc")) == "asc" && SortOrderOf(SortOrderOption("desc")) == "desc"
    ensures selected in SortOrderOptions ==> SortOrderOption(SortOrderOf(selected)) == selected
  {
  }

  /** The favourite selector adds a parameter exactly for its two filtering options. */
  lemma FavoriteSelectorFilters(selected: string, searchQuery: Option<string>)
    ensures |ListParams(searchQuery, FavoriteFilterOf(selected))|
         == |ListParams(searchQuery, None)| + (if selected == "Favorite" || selected == "Not Favorite" then 1 else 0)
    ensures selected == "Not Favorite" ==>
      var ps := ListParams(searchQuery, FavoriteFilterOf(selected)); ps[|ps| - 1] == PBool(false)
  {
    FavoriteFilter(searchQuery, FavoriteFilterOf(selected));
  }

  /**
   * Through the sort-order selector, a whitelisted column is sorted ASC
   * exactly when `"Ascending"` is chosen, and DESC otherwise.
   */
  lemma SortOrderSelectorDirection(selected: string, searchQuery: Option<string>, favoriteFilter: Option<bool>, sortBy: string)
    requires IsSortColumn(sortBy)
    ensures var query, tail := ListQuery(searchQuery, favoriteFilter, sortBy, SortOrderOf(selected)),
                               OrderBy + sortBy + " " + (if selected == "Ascending" then "ASC" else "DESC");
      |tail| <= |query| && query[|query| - |tail|..] == tail
  {
    OrderByEndsQuery(searchQuery, favoriteFilter, sortBy, SortOrderOf(selected));
  }
}
