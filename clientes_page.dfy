/**
 * The client list page: the loaded clients, the search box and the list
 * shown, plus deletion from the list.
 */
module ClientesPage {
  import opened Text
  import opened Seqs
  import opened Types
  import opened Storage

  /** The (already lower-cased) query occurs in the lower-cased producer, farm or main crop. */
  predicate MatchesCliente(c: Cliente, lowerQuery: string)
    ensures lowerQuery == "" ==> MatchesCliente(c, lowerQuery)
    ensures MatchesCliente(c, lowerQuery) ==>
              |lowerQuery| <= |c.nomeProdutor| || |lowerQuery| <= |c.nomeFazenda| || |lowerQuery| <= |c.culturaPrincipal|
  {
    || Includes(Lower(c.nomeProdutor), lowerQuery)
    || Includes(Lower(c.nomeFazenda), lowerQuery)
    || Includes(Lower(c.culturaPrincipal), lowerQuery)
  }

  /**
   * The search effect: a query that is blank once trimmed shows every client;
   * any other query is lower-cased, NOT trimmed, and matched as a substring.
   */
  function FilterClientes(clientes: seq<Cliente>, searchQuery: string): (r: seq<Cliente>)
    ensures Trim(searchQuery) == "" ==> r == clientes
    ensures Trim(searchQuery) != "" ==>
              forall c :: c in r <==> c in clientes && MatchesCliente(c, Lower(searchQuery))
    ensures Trim(searchQuery) != "" ==>
              forall c :: multiset(r)[c] == if MatchesCliente(c, Lower(searchQuery)) then multiset(clientes)[c] else 0
    ensures IsSubsequence(r, clientes)
  {
    if Trim(searchQuery) == "" then
      IsSubsequenceRefl(clientes);
      clientes
    else
      FilterIsSubsequence(clientes, (c: Cliente) => MatchesCliente(c, Lower(searchQuery)));
      FilterMultiset(clientes, (c: Cliente) => MatchesCliente(c, Lower(searchQuery)));
      Filter(clientes, (c: Cliente) => MatchesCliente(c, Lower(searchQuery)))
  }

  /** A query with a character found in none of the three fields matches nothing. */
  lemma AbsentCharMatchesNoCliente(c: Cliente, lowerQuery: string, k: nat)
    requires k < |lowerQuery|
    requires lowerQuery[k] !in Lower(c.nomeProdutor)
    requires lowerQuery[k] !in Lower(c.nomeFazenda)
    requires lowerQuery[k] !in Lower(c.culturaPrincipal)
    ensures !MatchesCliente(c, lowerQuery)
  {
    AbsentCharExcludes(Lower(c.nomeProdutor), lowerQuery, k);
    AbsentCharExcludes(Lower(c.nomeFazenda), lowerQuery, k);
    AbsentCharExcludes(Lower(c.culturaPrincipal), lowerQuery, k);
  }

  /** A query no client matches lists nothing. */
  lemma NothingMatchesListsNone(clientes: seq<Cliente>, searchQuery: string)
    requires Trim(searchQuery) != ""
    requires forall c :: c in clientes ==> !MatchesCliente(c, Lower(searchQuery))
    ensures FilterClientes(clientes, searchQuery) == []
  {
    var shown := FilterClientes(clientes, searchQuery);
    assert multiset(shown) == multiset{};
  }

  /**
   * Spaces around the query take part in the match: with clients whose
   * names and crops hold no space, a word finds every client whose crop
   * contains it, while the same word followed by a space finds none.
   */
  lemma TrailingSpaceMatters(clientes: seq<Cliente>, word: string)
    requires Trim(word) != ""
    requires forall c :: c in clientes ==>
               ' ' !in c.nomeProdutor && ' ' !in c.nomeFazenda && ' ' !in c.culturaPrincipal
    ensures forall c :: c in clientes && Includes(Lower(c.culturaPrincipal), Lower(word)) ==>
              c in FilterClientes(clientes, word)
    ensures FilterClientes(clientes, word + " ") == []
  {
    var query := word + " ";
    assert Trim(query) != "" by {
      var i :| 0 <= i < |word| && !IsWhitespace(word[i]);
      assert query[i] == word[i];
    }
    assert Lower(query)[|word|] == ' ';
    forall c | c in clientes
      ensures !MatchesCliente(c, Lower(query))
    {
      LowerAddsNoSpace(c.nomeProdutor);
      LowerAddsNoSpace(c.nomeFazenda);
      LowerAddsNoSpace(c.culturaPrincipal);
      AbsentCharMatchesNoCliente(c, Lower(query), |word|);
    }
    NothingMatchesListsNone(clientes, query);
  }

  /** Once an id is deleted from the store, no client listed after reloading has it, whatever the query. */
  lemma {:induction false} DeletedNotListed(stored: seq<Cliente>, searchQuery: string, id: string)
    ensures forall c :: c in FilterClientes(RemoveKey(stored, ClienteId, id), searchQuery) ==> c.id != id
  {
    var loaded := RemoveKey(stored, ClienteId, id);
    forall c | c in FilterClientes(loaded, searchQuery)
      ensures c.id != id
    {
      SubsequenceMembers(FilterClientes(loaded, searchQuery), loaded, c);
    }
  }

  /** The page's state: the loaded clients, the query typed and the list on screen. */
  class Page {
    var clientes: seq<Cliente>
    var searchQuery: string
    var filteredClientes: seq<Cliente>

    /** The search effect has run for the current clients and query. */
    predicate Valid()
      reads this
    {
      filteredClientes == FilterClientes(clientes, searchQuery)
    }

    constructor ()
      ensures clientes == [] && searchQuery == "" && filteredClientes == []
      ensures Valid()
    {
      clientes := [];
      searchQuery := "";
      filteredClientes := [];
    }

    /** Re-runs the search effect after the clients or the query changed. */
    method ApplySearch()
      modifies this
      ensures Valid()
      ensures clientes == old(clientes) && searchQuery == old(searchQuery)
    {
      filteredClientes := FilterClientes(clientes, searchQuery);
    }

    /** `loadClientes`: reads the store's clients. */
    method LoadClientes(store: Store)
      modifies this
      ensures Valid()
      ensures clientes == store.clientes && searchQuery == old(searchQuery)
    {
      clientes := store.clientes;
      ApplySearch();
    }

    method SetSearchQuery(query: string)
      modifies this
      ensures Valid()
      ensures searchQuery == query && clientes == old(clientes)
    {
      searchQuery := query;
      ApplySearch();
    }

    /**
     * `handleDelete`: when the user confirms, deletes from the store and
     * reloads, after which no client listed has the deleted id.
     */
    method HandleDelete(store: Store, id: string, confirmed: bool)
      requires Valid() && store.Valid()
      modifies this, store
      ensures Valid() && store.Valid()
      ensures confirmed ==> store.clientes == RemoveKey(old(store.clientes), ClienteId, id)
      ensures confirmed ==> clientes == store.clientes
      ensures confirmed ==> forall c :: c in filteredClientes ==> c.id != id
      ensures !confirmed ==> store.clientes == old(store.clientes) && clientes == old(clientes)
      ensures store.visitas == old(store.visitas) && searchQuery == old(searchQuery)
    {
      if confirmed {
        ghost var stored := store.clientes;
        store.DeleteCliente(id);
        LoadClientes(store);
        DeletedNotListed(stored, searchQuery, id);
        assert filteredClientes == FilterClientes(RemoveKey(stored, ClienteId, id), searchQuery);
      }
    }
  }
}
