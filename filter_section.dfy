/** The filter panel of the listing page: the search box and type selector,
    and the rule that turns them into the URL's query parameters. */
module FilterSection {
  import opened Wrappers
  import Products

  const SearchKey := "search"
  const TipoKey := "tipo"
  const Todos := "todos"

  /** A `URLSearchParams` object, as a map from parameter name to value. */
  class SearchParams {
    var entries: map<string, string>

    /** `new URLSearchParams(searchParams.toString())`: a copy of the
        current parameters. */
    constructor (init: map<string, string>)
      ensures entries == init
    {
      entries := init;
    }

    /** `params.set(k, v)`. */
    method Set(k: string, v: string)
      modifies this
      ensures entries == old(entries)[k := v]
    {
      entries := entries[k := v];
    }

    /** `params.delete(k)`. */
    method Delete(k: string)
      modifies this
      ensures entries == old(entries) - {k}
    {
      entries := entries - {k};
    }
  }

  /** Whether the type selector names a type, i.e. `tipo && tipo !== "todos"`. */
  predicate NamesType(tipo: string)
  {
    tipo != "" && tipo != Todos
  }

  /** The parameters `updateFilters` pushes: "search" holds the search text
      exactly when it is non-empty, "tipo" holds the type exactly when one
      is named, and every other parameter is kept as it was. */
  function UpdatedParams(current: map<string, string>, search: string, tipo: string): (r: map<string, string>)
    ensures SearchKey in r <==> search != ""
    ensures SearchKey in r ==> r[SearchKey] == search
    ensures TipoKey in r <==> NamesType(tipo)
    ensures TipoKey in r ==> r[TipoKey] == tipo
    ensures forall k :: k != SearchKey && k != TipoKey ==> (k in r <==> k in current)
    ensures forall k :: k != SearchKey && k != TipoKey && k in current ==> r[k] == current[k]
  {
    var withSearch := if search != "" then current[SearchKey := search] else current - {SearchKey};
    if NamesType(tipo) then withSearch[TipoKey := tipo] else withSearch - {TipoKey}
  }

  /** `updateFilters(search, tipo)` up to the navigation: copy the current
      parameters, set or delete "search", set or delete "tipo", and return
      the query the router is sent to. */
  method UpdateFilters(current: map<string, string>, search: string, tipo: string) returns (next: map<string, string>)
    ensures next == UpdatedParams(current, search, tipo)
  {
    var params := new SearchParams(current);
    if search != "" {
      params.Set(SearchKey, search);
    } else {
      params.Delete(SearchKey);
    }
    if NamesType(tipo) {
      params.Set(TipoKey, tipo);
    } else {
      params.Delete(TipoKey);
    }
    next := params.entries;
  }

  /** Pushing the same inputs twice gives the parameters of pushing once. */
  lemma UpdateIdempotent(current: map<string, string>, search: string, tipo: string)
    ensures UpdatedParams(UpdatedParams(current, search, tipo), search, tipo) == UpdatedParams(current, search, tipo)
  {
    var once := UpdatedParams(current, search, tipo);
    var twice := UpdatedParams(once, search, tipo);
    assert forall k :: k in twice <==> k in once;
    assert forall k :: k in twice ==> twice[k] == once[k];
  }

  /** The panel's React state: the search box and the type selector. */
  datatype FilterState = FilterState(searchInput: string, tipoFilter: string)

  /** `searchInput || tipoFilter !== "todos"`: the panel is filtered unless
      it is in the cleared state. */
  predicate HasActiveFilters(st: FilterState)
    ensures HasActiveFilters(st) <==> st != FilterState("", Todos)
  {
    st.searchInput != "" || st.tipoFilter != Todos
  }

  /** `handleClearFilters`: empty search, type "todos". */
  function HandleClearFilters(st: FilterState): (r: FilterState)
    ensures !HasActiveFilters(r)
  {
    FilterState("", Todos)
  }

  /** After clearing, the next push removes both filter parameters and
      keeps every other parameter. */
  lemma ClearThenUpdate(st: FilterState, current: map<string, string>)
    ensures var cleared := HandleClearFilters(st);
      var next := UpdatedParams(current, cleared.searchInput, cleared.tipoFilter);
      && SearchKey !in next && TipoKey !in next
      && next == current - {SearchKey, TipoKey}
  {
    var next := UpdatedParams(current, "", Todos);
    assert forall k :: k in next <==> k in current - {SearchKey, TipoKey};
  }

  /** For a selector that holds a value, the panel shows "clear filters"
      exactly when the pushed query carries a filter parameter. */
  lemma ActiveIffParams(st: FilterState, current: map<string, string>)
    requires st.tipoFilter != ""
    ensures HasActiveFilters(st) <==>
      var next := UpdatedParams(current, st.searchInput, st.tipoFilter);
      SearchKey in next || TipoKey in next
  {
  }

  /** How the listing page reads a query: the value of a key, if present. */
  function Lookup(m: map<string, string>, k: string): Option<string>
  {
    if k in m then Some(m[k]) else None
  }

  function ParamsOf(m: map<string, string>): Products.Params
  {
    Products.Params(Lookup(m, SearchKey), Lookup(m, TipoKey))
  }

  /** The state the panel starts from when the page is rendered for a
      query (`currentSearch`, `currentTipo`). */
  function InitialState(m: map<string, string>): FilterState
  {
    var page := Products.Render([], ParamsOf(m));
    FilterState(page.currentSearch, page.currentTipo)
  }

  /** Round trip through the URL: the page lists for the pushed query the
      same accounts as for the inputs themselves, and a panel rendered from
      that query starts with the same inputs (an empty selector comes back
      as "todos"). */
  lemma UrlRoundTrip(all: seq<Products.Account>, current: map<string, string>, search: string, tipo: string)
    ensures var next := UpdatedParams(current, search, tipo);
      Products.VisibleAccounts(all, ParamsOf(next)) ==
      Products.VisibleAccounts(all, Products.Params(Some(search), Some(tipo)))
    ensures var next := UpdatedParams(current, search, tipo);
      InitialState(next) == FilterState(search, if tipo == "" then Todos else tipo)
  {
    var next := UpdatedParams(current, search, tipo);
    var p1, p2 := ParamsOf(next), Products.Params(Some(search), Some(tipo));
    assert Products.SearchActive(p1) <==> Products.SearchActive(p2);
    assert Products.TipoActive(p1) <==> Products.TipoActive(p2);
    Products.VisibleAccountsExact(all, p1);
    Products.VisibleAccountsExact(all, p2);
    Products.FilterAgree(all, Products.KeepsTest(p1), Products.KeepsTest(p2));
  }
}
