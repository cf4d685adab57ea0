/**
 * The visit list page: the loaded visits (latest first), the search box and
 * the list shown, plus deletion from the list.
 */
module VisitasPage {
  import opened Text
  import opened Seqs
  import opened Types
  import opened Storage

  /** `loadVisitas`'s ordering: by visit date, latest first. */
  function LatestFirst(visitas: seq<Visita>): (r: seq<Visita>)
    ensures multiset(r) == multiset(visitas)
    ensures SortedDesc(r, VisitaDate)
  {
    SortDescSorted(visitas, VisitaDate);
    SortDesc(visitas, VisitaDate)
  }

  /**
   * The search effect: a query that is blank once trimmed shows every visit;
   * any other query is lower-cased, NOT trimmed, and matched as a substring
   * of the four fields the store's search also uses. The list shown keeps
   * the loaded order, so a date-ordered list stays date-ordered.
   */
  function FilterVisitas(visitas: seq<Visita>, searchQuery: string): (r: seq<Visita>)
    ensures Trim(searchQuery) == "" ==> r == visitas
    ensures Trim(searchQuery) != "" ==>
              forall v :: v in r <==> v in visitas && MatchesVisita(v, Lower(searchQuery))
    ensures Trim(searchQuery) != "" ==>
              forall v :: multiset(r)[v] == if MatchesVisita(v, Lower(searchQuery)) then multiset(visitas)[v] else 0
    ensures IsSubsequence(r, visitas)
    ensures SortedDesc(visitas, VisitaDate) ==> SortedDesc(r, VisitaDate)
  {
    if Trim(searchQuery) == "" then
      IsSubsequenceRefl(visitas);
      visitas
    else
      if SortedDesc(visitas, VisitaDate) then
        FilterKeepsSorted(visitas, (v: Visita) => MatchesVisita(v, Lower(searchQuery)), VisitaDate);
        VisitasMatching(visitas, Lower(searchQuery))
      else
        VisitasMatching(visitas, Lower(searchQuery))
  }

  /** On a query with some non-space character the page shows what the store's search returns. */
  lemma FilterAgreesWithSearch(visitas: seq<Visita>, searchQuery: string)
    requires Trim(searchQuery) != ""
    ensures FilterVisitas(visitas, searchQuery) == SearchVisitas(visitas, searchQuery)
  {
  }

  /** A query with a character found in none of the four fields matches nothing. */
  lemma AbsentCharMatchesNoVisita(v: Visita, lowerQuery: string, k: nat)
    requires k < |lowerQuery|
    requires lowerQuery[k] !in Lower(v.clienteNome)
    requires lowerQuery[k] !in Lower(v.fazendaNome)
    requires lowerQuery[k] !in Lower(v.cultura)
    requires lowerQuery[k] !in Lower(v.responsavelTecnico)
    ensures !MatchesVisita(v, lowerQuery)
  {
    AbsentCharExcludes(Lower(v.clienteNome), lowerQuery, k);
    AbsentCharExcludes(Lower(v.fazendaNome), lowerQuery, k);
    AbsentCharExcludes(Lower(v.cultura), lowerQuery, k);
    AbsentCharExcludes(Lower(v.responsavelTecnico), lowerQuery, k);
  }

  /** A query no visit matches finds nothing. */
  lemma NothingMatchesSearchesEmpty(visitas: seq<Visita>, query: string)
    requires forall v :: v in visitas ==> !MatchesVisita(v, Lower(query))
    ensures SearchVisitas(visitas, query) == []
  {
    var found := SearchVisitas(visitas, query);
    assert forall i :: 0 <= i < |found| ==> found[i] in found;
  }

  /**
   * On a query of spaces alone the two part ways: the page shows every
   * visit, while the store's search, which does not trim, keeps only visits
   * with a space in one of the four fields, here none.
   */
  lemma BlankQueryDiffers(visitas: seq<Visita>, spaces: string)
    requires spaces != "" && forall i :: 0 <= i < |spaces| ==> spaces[i] == ' '
    requires forall v :: v in visitas ==>
               && ' ' !in v.clienteNome && ' ' !in v.fazendaNome
               && ' ' !in v.cultura && ' ' !in v.responsavelTecnico
    ensures FilterVisitas(visitas, spaces) == visitas
    ensures SearchVisitas(visitas, spaces) == []
  {
    assert Lower(spaces)[0] == ' ';
    forall v | v in visitas
      ensures !MatchesVisita(v, Lower(spaces))
    {
      LowerAddsNoSpace(v.clienteNome);
      LowerAddsNoSpace(v.fazendaNome);
      LowerAddsNoSpace(v.cultura);
      LowerAddsNoSpace(v.responsavelTecnico);
      AbsentCharMatchesNoVisita(v, Lower(spaces), 0);
    }
    NothingMatchesSearchesEmpty(visitas, spaces);
  }

  /** Once an id is deleted from the store, no visit listed after reloading has it, whatever the query. */
  lemma DeletedNotListed(stored: seq<Visita>, searchQuery: string, id: string)
    ensures forall v :: v in FilterVisitas(LatestFirst(RemoveKey(stored, VisitaId, id)), searchQuery) ==> v.id != id
  {
    var loaded := LatestFirst(RemoveKey(stored, VisitaId, id));
    forall v | v in FilterVisitas(loaded, searchQuery)
      ensures v.id != id
    {
      SubsequenceMembers(FilterVisitas(loaded, searchQuery), loaded, v);
      assert v in multiset(loaded);
    }
  }

  /** The page's state: the loaded visits, the query typed and the list on screen. */
  class Page {
    var visitas: seq<Visita>
    var searchQuery: string
    var filteredVisitas: seq<Visita>

    /** The loaded visits are latest first and the search effect has run. */
    predicate Valid()
      reads this
    {
      && SortedDesc(visitas, VisitaDate)
      && filteredVisitas == FilterVisitas(visitas, searchQuery)
    }

    constructor ()
      ensures visitas == [] && searchQuery == "" && filteredVisitas == []
      ensures Valid()
    {
      visitas := [];
      searchQuery := "";
      filteredVisitas := [];
    }

    /** Re-runs the search effect after the visits or the query changed. */
    method ApplySearch()
      requires SortedDesc(visitas, VisitaDate)
      modifies this
      ensures Valid()
      ensures visitas == old(visitas) && searchQuery == old(searchQuery)
    {
      filteredVisitas := FilterVisitas(visitas, searchQuery);
    }

    /** `loadVisitas`: reads the store's visits and orders them latest first. */
    method LoadVisitas(store: Store)
      modifies this
      ensures Valid()
      ensures visitas == LatestFirst(store.visitas) && searchQuery == old(searchQuery)
      ensures SortedDesc(filteredVisitas, VisitaDate)
    {
      visitas := LatestFirst(store.visitas);
      ApplySearch();
    }

    method SetSearchQuery(query: string)
      requires Valid()
      modifies this
      ensures Valid()
      ensures searchQuery == query && visitas == old(visitas)
      ensures SortedDesc(filteredVisitas, VisitaDate)
    {
      searchQuery := query;
      ApplySearch();
    }

    /**
     * `handleDelete`: when the user confirms, deletes from the store and
     * reloads, after which no visit listed has the deleted id.
     */
    method HandleDelete(store: Store, id: string, confirmed: bool)
      requires Valid() && store.Valid()
      modifies this, store
      ensures Valid() && store.Valid()
      ensures confirmed ==> store.visitas == RemoveKey(old(store.visitas), VisitaId, id)
      ensures confirmed ==> visitas == LatestFirst(store.visitas)
      ensures confirmed ==> forall v :: v in filteredVisitas ==> v.id != id
      ensures !confirmed ==> store.visitas == old(store.visitas) && visitas == old(visitas)
      ensures store.clientes == old(store.clientes) && searchQuery == old(searchQuery)
    {
      if confirmed {
        ghost var stored := store.visitas;
        store.DeleteVisita(id);
        LoadVisitas(store);
        DeletedNotListed(stored, searchQuery, id);
        assert filteredVisitas == FilterVisitas(LatestFirst(RemoveKey(stored, VisitaId, id)), searchQuery);
      }
    }
  }
}
