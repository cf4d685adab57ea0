/**
 * The browser-resident record store (two collections, clients and visits)
 * and the views derived from it: lookups, the per-client visit list, the
 * visit search and the dashboard statistics.
 */
module Storage {
  import opened Wrappers
  import opened Text
  import opened Seqs
  import opened Types

  /**
   * The two stored collections. Each operation of `storage.ts` reads the
   * whole collection, works on it and writes it back; here the collection is
   * a field that the operation reassigns.
   */
  class Store {
    var clientes: seq<Cliente>
    var visitas: seq<Visita>

    /** Ids are unique within each collection. */
    predicate Valid()
      reads this
    {
      UniqueKeys(clientes, ClienteId) && UniqueKeys(visitas, VisitaId)
    }

    /** A store with nothing saved yet reads as two empty collections. */
    constructor ()
      ensures clientes == [] && visitas == []
      ensures Valid()
    {
      clientes := [];
      visitas := [];
    }

    /** Replaces the first client with the same id, or appends the client. */
    method SaveCliente(cliente: Cliente)
      requires Valid()
      modifies this
      ensures Valid()
      ensures clientes == Upsert(old(clientes), cliente, ClienteId)
      ensures visitas == old(visitas)
    {
      UpsertKeepsUnique(clientes, cliente, ClienteId);
      var index := FirstIndex(clientes, ClienteId, cliente.id);
      if index >= 0 {
        clientes := clientes[index := cliente];
      } else {
        clientes := clientes + [cliente];
      }
    }

    /** Replaces the first visit with the same id, or appends the visit. */
    method SaveVisita(visita: Visita)
      requires Valid()
      modifies this
      ensures Valid()
      ensures visitas == Upsert(old(visitas), visita, VisitaId)
      ensures clientes == old(clientes)
    {
      UpsertKeepsUnique(visitas, visita, VisitaId);
      var index := FirstIndex(visitas, VisitaId, visita.id);
      if index >= 0 {
        visitas := visitas[index := visita];
      } else {
        visitas := visitas + [visita];
      }
    }

    /** Drops every client with the id; the visits that refer to it stay. */
    method DeleteCliente(id: string)
      requires Valid()
      modifies this
      ensures Valid()
      ensures clientes == RemoveKey(old(clientes), ClienteId, id)
      ensures forall c :: c in clientes ==> c.id != id
      ensures visitas == old(visitas)
    {
      RemoveKeyKeepsUnique(clientes, ClienteId, id);
      clientes := RemoveKey(clientes, ClienteId, id);
    }

    /** Drops every visit with the id. */
    method DeleteVisita(id: string)
      requires Valid()
      modifies this
      ensures Valid()
      ensures visitas == RemoveKey(old(visitas), VisitaId, id)
      ensures forall v :: v in visitas ==> v.id != id
      ensures clientes == old(clientes)
    {
      RemoveKeyKeepsUnique(visitas, VisitaId, id);
      visitas := RemoveKey(visitas, VisitaId, id);
    }
  }

  // ---------------------------------------------------------------- lookups

  /** The first client with the id, or none when no client has it. */
  function GetClienteById(clientes: seq<Cliente>, id: string): (r: Option<Cliente>)
    ensures r.None? <==> forall c :: c in clientes ==> c.id != id
    ensures r.Some? ==> exists j :: 0 <= j < |clientes| && clientes[j] == r.value && r.value.id == id
                                   && forall k :: 0 <= k < j ==> clientes[k].id != id
  {
    var i := FirstIndex(clientes, ClienteId, id);
    if i < 0 then None else Some(clientes[i])
  }

  /** The first visit with the id, or none when no visit has it. */
  function GetVisitaById(visitas: seq<Visita>, id: string): (r: Option<Visita>)
    ensures r.None? <==> forall v :: v in visitas ==> v.id != id
    ensures r.Some? ==> exists j :: 0 <= j < |visitas| && visitas[j] == r.value && r.value.id == id
                                   && forall k :: 0 <= k < j ==> visitas[k].id != id
  {
    var i := FirstIndex(visitas, VisitaId, id);
    if i < 0 then None else Some(visitas[i])
  }

  /** In a valid store the lookup by id returns a record exactly when it is the one holding the id. */
  lemma GetByIdUnique(clientes: seq<Cliente>, c: Cliente, visitas: seq<Visita>, v: Visita, id: string)
    requires UniqueKeys(clientes, ClienteId) && UniqueKeys(visitas, VisitaId)
    ensures GetClienteById(clientes, id) == Some(c) <==> c in clientes && c.id == id
    ensures GetVisitaById(visitas, id) == Some(v) <==> v in visitas && v.id == id
  {
    FindUnique(clientes, ClienteId, id, c);
    FindUnique(visitas, VisitaId, id, v);
  }

  /** After a save, the lookup by the saved record's id returns that record. */
  lemma SaveThenGet(clientes: seq<Cliente>, c: Cliente, visitas: seq<Visita>, v: Visita)
    ensures GetClienteById(Upsert(clientes, c, ClienteId), c.id) == Some(c)
    ensures GetVisitaById(Upsert(visitas, v, VisitaId), v.id) == Some(v)
  {
    UpsertThenFind(clientes, c, ClienteId);
    UpsertThenFind(visitas, v, VisitaId);
  }

  /** A deleted id is no longer found, and deleting it again changes nothing. */
  lemma DeleteThenGet(clientes: seq<Cliente>, visitas: seq<Visita>, id: string)
    ensures GetClienteById(RemoveKey(clientes, ClienteId, id), id).None?
    ensures GetVisitaById(RemoveKey(visitas, VisitaId, id), id).None?
    ensures RemoveKey(RemoveKey(clientes, ClienteId, id), ClienteId, id) == RemoveKey(clientes, ClienteId, id)
    ensures RemoveKey(RemoveKey(visitas, VisitaId, id), VisitaId, id) == RemoveKey(visitas, VisitaId, id)
  {
    RemoveKeyIdempotent(clientes, ClienteId, id);
    RemoveKeyIdempotent(visitas, VisitaId, id);
  }

  /** The visits of one client, in stored order. */
  function GetVisitasByCliente(visitas: seq<Visita>, clienteId: string): (r: seq<Visita>)
    ensures forall v :: v in r <==> v in visitas && v.clienteId == clienteId
    ensures IsSubsequence(r, visitas)
    ensures forall v :: multiset(r)[v] == if v.clienteId == clienteId then multiset(visitas)[v] else 0
  {
    FilterIsSubsequence(visitas, (v: Visita) => v.clienteId == clienteId);
    FilterMultiset(visitas, (v: Visita) => v.clienteId == clienteId);
    Filter(visitas, (v: Visita) => v.clienteId == clienteId)
  }

  // ---------------------------------------------------------------- search

  /**
   * The visit test shared by the search and the visit list page: the
   * (already lower-cased) query occurs in the lower-cased client name, farm
   * name, crop or technician.
   */
  predicate MatchesVisita(v: Visita, lowerQuery: string)
    ensures lowerQuery == "" ==> MatchesVisita(v, lowerQuery)
    ensures MatchesVisita(v, lowerQuery) ==>
              || |lowerQuery| <= |v.clienteNome| || |lowerQuery| <= |v.fazendaNome|
              || |lowerQuery| <= |v.cultura| || |lowerQuery| <= |v.responsavelTecnico|
  {
    || Includes(Lower(v.clienteNome), lowerQuery)
    || Includes(Lower(v.fazendaNome), lowerQuery)
    || Includes(Lower(v.cultura), lowerQuery)
    || Includes(Lower(v.responsavelTecnico), lowerQuery)
  }

  function VisitasMatching(visitas: seq<Visita>, lowerQuery: string): (r: seq<Visita>)
    ensures forall v :: v in r <==> v in visitas && MatchesVisita(v, lowerQuery)
    ensures IsSubsequence(r, visitas)
    ensures forall v :: multiset(r)[v] == if MatchesVisita(v, lowerQuery) then multiset(visitas)[v] else 0
  {
    FilterIsSubsequence(visitas, (v: Visita) => MatchesVisita(v, lowerQuery));
    FilterMultiset(visitas, (v: Visita) => MatchesVisita(v, lowerQuery));
    Filter(visitas, (v: Visita) => MatchesVisita(v, lowerQuery))
  }

  /** Case-insensitive search over four visit fields; the empty query finds every visit. */
  function SearchVisitas(visitas: seq<Visita>, query: string): (r: seq<Visita>)
    ensures forall v :: v in r <==> v in visitas && MatchesVisita(v, Lower(query))
    ensures IsSubsequence(r, visitas)
    ensures forall v :: multiset(r)[v] == if MatchesVisita(v, Lower(query)) then multiset(visitas)[v] else 0
    ensures query == "" ==> r == visitas
  {
    if query == "" then FilterKeepsAll(visitas, (v: Visita) => MatchesVisita(v, Lower(query))); VisitasMatching(visitas, Lower(query))
    else VisitasMatching(visitas, Lower(query))
  }

  // ---------------------------------------------------------------- dashboard: this month

  predicate InMonthOf(d: CivilDate, now: CivilDate) {
    d.month == now.month && d.year == now.year
  }

  /** The visits dated in the calendar month and year of `now`. */
  function VisitasDoMes(visitas: seq<Visita>, now: CivilDate): (r: seq<Visita>)
    ensures forall v :: v in r <==> v in visitas && InMonthOf(v.dataVisita, now)
    ensures IsSubsequence(r, visitas)
    ensures forall v :: multiset(r)[v] == if InMonthOf(v.dataVisita, now) then multiset(visitas)[v] else 0
  {
    FilterIsSubsequence(visitas, (v: Visita) => InMonthOf(v.dataVisita, now));
    FilterMultiset(visitas, (v: Visita) => InMonthOf(v.dataVisita, now));
    Filter(visitas, (v: Visita) => InMonthOf(v.dataVisita, now))
  }

  /** The distinct client ids the visits refer to, whether or not the client exists. */
  function ClienteIds(visitas: seq<Visita>): (r: set<string>)
    ensures forall k :: 0 <= k < |visitas| ==> visitas[k].clienteId in r
    ensures forall id :: id in r ==> exists k :: 0 <= k < |visitas| && visitas[k].clienteId == id
  {
    set v | v in visitas :: v.clienteId
  }

  /** There are no more distinct client ids than visits, and at least one when there is a visit. */
  lemma {:induction false} ClienteIdsBound(visitas: seq<Visita>)
    ensures |ClienteIds(visitas)| <= |visitas|
    ensures visitas != [] ==> |ClienteIds(visitas)| >= 1
    decreases |visitas|
  {
    if visitas != [] {
      ClienteIdsBound(visitas[1..]);
      assert ClienteIds(visitas) == {visitas[0].clienteId} + ClienteIds(visitas[1..]) by {
        assert forall v :: v in visitas <==> v == visitas[0] || v in visitas[1..];
      }
    }
  }

  // ---------------------------------------------------------------- dashboard: crops

  /** The number of visits whose crop is exactly `cultura` (no case folding). */
  function Occurrences(visitas: seq<Visita>, cultura: string): nat {
    if visitas == [] then 0
    else Occurrences(visitas[..|visitas| - 1], cultura) + (if visitas[|visitas| - 1].cultura == cultura then 1 else 0)
  }

  /** A crop occurs at most once per visit, and nowhere exactly when no visit has it. */
  lemma {:induction false} OccurrencesZeroIff(visitas: seq<Visita>, cultura: string)
    ensures Occurrences(visitas, cultura) <= |visitas|
    ensures Occurrences(visitas, cultura) == 0 <==> forall k :: 0 <= k < |visitas| ==> visitas[k].cultura != cultura
    decreases |visitas|
  {
    if visitas != [] {
      var init := visitas[..|visitas| - 1];
      OccurrencesZeroIff(init, cultura);
      assert forall k :: 0 <= k < |init| ==> init[k] == visitas[k];
    }
  }

  predicate DistinctCulturas(entries: seq<CulturaCount>) {
    forall i, j :: 0 <= i < j < |entries| ==> entries[i].cultura != entries[j].cultura
  }

  predicate HasCultura(entries: seq<CulturaCount>, cultura: string) {
    exists k :: 0 <= k < |entries| && entries[k].cultura == cultura
  }

  function SumCounts(entries: seq<CulturaCount>): nat {
    if entries == [] then 0 else entries[0].count + SumCounts(entries[1..])
  }

  lemma {:induction false} SumAppend(entries: seq<CulturaCount>, e: CulturaCount)
    ensures SumCounts(entries + [e]) == SumCounts(entries) + e.count
    decreases |entries|
  {
    if entries == [] {
      assert [e][1..] == [];
    } else {
      assert (entries + [e])[1..] == entries[1..] + [e];
      SumAppend(entries[1..], e);
    }
  }

  lemma {:induction false} SumUpdate(entries: seq<CulturaCount>, j: nat, e: CulturaCount)
    requires j < |entries|
    ensures SumCounts(entries[j := e]) == SumCounts(entries) - entries[j].count + e.count
    decreases |entries|
  {
    if j > 0 {
      assert entries[j := e][1..] == entries[1..][j - 1 := e];
      SumUpdate(entries[1..], j - 1, e);
    } else {
      assert entries[j := e][1..] == entries[1..];
    }
  }

  lemma {:induction false} SumPrefix(entries: seq<CulturaCount>, n: nat)
    requires n <= |entries|
    ensures SumCounts(entries[..n]) <= SumCounts(entries)
    decreases |entries|
  {
    if n > 0 {
      assert entries[..n][1..] == entries[1..][..n - 1];
      SumPrefix(entries[1..], n - 1);
    }
  }

  lemma {:induction false} SumSort(entries: seq<CulturaCount>)
    ensures SumCounts(SortDesc(entries, CountOf)) == SumCounts(entries)
    decreases |entries|
  {
    if entries != [] {
      SumSort(entries[1..]);
      SumInsert(entries[0], SortDesc(entries[1..], CountOf));
    }
  }

  lemma {:induction false} SumInsert(e: CulturaCount, entries: seq<CulturaCount>)
    ensures SumCounts(Insert(e, entries, CountOf)) == e.count + SumCounts(entries)
    decreases |entries|
  {
    if entries != [] && e.count < entries[0].count {
      SumInsert(e, entries[1..]);
    }
  }

  lemma {:induction false} InsertKeepsDistinct(e: CulturaCount, entries: seq<CulturaCount>)
    requires DistinctCulturas(entries)
    requires forall x :: x in entries ==> x.cultura != e.cultura
    ensures DistinctCulturas(Insert(e, entries, CountOf))
    decreases |entries|
  {
    if entries != [] && e.count < entries[0].count {
      InsertKeepsDistinct(e, entries[1..]);
      var tail := Insert(e, entries[1..], CountOf);
      forall y | y in tail
        ensures y.cultura != entries[0].cultura
      {
        assert y in multiset(tail);
        if y != e {
          assert y in multiset(entries[1..]);
          var j :| 0 <= j < |entries[1..]| && entries[1..][j] == y;
          assert entries[j + 1] == y;
        }
      }
    }
  }

  /** Sorting the crop tally keeps its crop names distinct. */
  lemma {:induction false} SortKeepsDistinct(entries: seq<CulturaCount>)
    requires DistinctCulturas(entries)
    ensures DistinctCulturas(SortDesc(entries, CountOf))
    decreases |entries|
  {
    if entries != [] {
      SortKeepsDistinct(entries[1..]);
      var sorted := SortDesc(entries[1..], CountOf);
      forall x | x in sorted
        ensures x.cultura != entries[0].cultura
      {
        assert x in multiset(entries[1..]);
        var j :| 0 <= j < |entries[1..]| && entries[1..][j] == x;
        assert entries[j + 1] == x;
      }
      InsertKeepsDistinct(entries[0], sorted);
    }
  }

  /**
   * `entries` is a tally of the crops of `visitas`: one entry per crop
   * visited, none for a crop not visited, each holding its number of visits.
   */
  predicate IsTally(visitas: seq<Visita>, entries: seq<CulturaCount>) {
    && DistinctCulturas(entries)
    && (forall k :: 0 <= k < |entries| ==> entries[k].count == Occurrences(visitas, entries[k].cultura) >= 1)
    && (forall v :: v in visitas ==> HasCultura(entries, v.cultura))
    && SumCounts(entries) == |visitas|
  }

  lemma OccurrencesSnoc(visitas: seq<Visita>, v: Visita, cultura: string)
    ensures Occurrences(visitas + [v], cultura) == Occurrences(visitas, cultura) + (if v.cultura == cultura then 1 else 0)
  {
    assert (visitas + [v])[..|visitas|] == visitas;
  }

  /** A visit to a crop already in the tally increments that crop's entry. */
  lemma TallyBump(visitas: seq<Visita>, v: Visita, entries: seq<CulturaCount>, j: nat)
    requires IsTally(visitas, entries)
    requires j < |entries| && entries[j].cultura == v.cultura
    ensures IsTally(visitas + [v], entries[j := CulturaCount(v.cultura, entries[j].count + 1)])
  {
    var bumped := entries[j := CulturaCount(v.cultura, entries[j].count + 1)];
    SumUpdate(entries, j, bumped[j]);
    forall k | 0 <= k < |bumped|
      ensures bumped[k].count == Occurrences(visitas + [v], bumped[k].cultura) >= 1
    {
      OccurrencesSnoc(visitas, v, bumped[k].cultura);
    }
    forall w | w in visitas + [v]
      ensures HasCultura(bumped, w.cultura)
    {
      if w in visitas {
        var m :| 0 <= m < |entries| && entries[m].cultura == w.cultura;
        assert bumped[m].cultura == w.cultura;
      } else {
        assert bumped[j].cultura == w.cultura;
      }
    }
  }

  /** A visit to a crop not yet in the tally appends an entry with count one. */
  lemma TallyAppend(visitas: seq<Visita>, v: Visita, entries: seq<CulturaCount>)
    requires IsTally(visitas, entries)
    requires forall k :: 0 <= k < |entries| ==> entries[k].cultura != v.cultura
    ensures IsTally(visitas + [v], entries + [CulturaCount(v.cultura, 1)])
  {
    var grown := entries + [CulturaCount(v.cultura, 1)];
    SumAppend(entries, grown[|entries|]);
    UntalliedCropUnvisited(visitas, entries, v.cultura);
    forall k | 0 <= k < |grown|
      ensures grown[k].count == Occurrences(visitas + [v], grown[k].cultura) >= 1
    {
      OccurrencesSnoc(visitas, v, grown[k].cultura);
    }
    GrownTallyCovers(visitas, v, entries);
  }

  /** A crop the tally lacks has not been visited. */
  lemma UntalliedCropUnvisited(visitas: seq<Visita>, entries: seq<CulturaCount>, cultura: string)
    requires forall v :: v in visitas ==> HasCultura(entries, v.cultura)
    requires forall k :: 0 <= k < |entries| ==> entries[k].cultura != cultura
    ensures Occurrences(visitas, cultura) == 0
  {
    forall k | 0 <= k < |visitas|
      ensures visitas[k].cultura != cultura
    {
      assert visitas[k] in visitas;
    }
    OccurrencesZeroIff(visitas, cultura);
  }

  /** After appending `v`'s crop, every crop visited has an entry. */
  lemma GrownTallyCovers(visitas: seq<Visita>, v: Visita, entries: seq<CulturaCount>)
    requires forall w :: w in visitas ==> HasCultura(entries, w.cultura)
    ensures forall w :: w in visitas + [v] ==> HasCultura(entries + [CulturaCount(v.cultura, 1)], w.cultura)
  {
    var grown := entries + [CulturaCount(v.cultura, 1)];
    forall w | w in visitas + [v]
      ensures HasCultura(grown, w.cultura)
    {
      if w in visitas {
        var m :| 0 <= m < |entries| && entries[m].cultura == w.cultura;
        assert grown[m].cultura == w.cultura;
      } else {
        assert grown[|entries|].cultura == w.cultura;
      }
    }
  }

  /**
   * The `Map` that `getDashboardStats` fills in its `forEach`, as the list of
   * its entries in insertion order: a crop met again has its count raised in
   * place, a crop met for the first time is appended with a count of one.
   */
  function Tally(visitas: seq<Visita>): seq<CulturaCount>
    decreases |visitas|
  {
    if visitas == [] then []
    else TallyStep(Tally(visitas[..|visitas| - 1]), visitas[|visitas| - 1])
  }

  function TallyStep(entries: seq<CulturaCount>, v: Visita): seq<CulturaCount> {
    var j := FirstIndex(entries, CulturaOf, v.cultura);
    if j >= 0 then entries[j := CulturaCount(v.cultura, entries[j].count + 1)]
    else entries + [CulturaCount(v.cultura, 1)]
  }

  /** The map's entries are a tally: distinct crops, each with its exact visit count. */
  lemma {:induction false} TallyIsTally(visitas: seq<Visita>)
    ensures IsTally(visitas, Tally(visitas))
    decreases |visitas|
  {
    if visitas != [] {
      var init, v := visitas[..|visitas| - 1], visitas[|visitas| - 1];
      assert visitas == init + [v];
      TallyIsTally(init);
      var entries := Tally(init);
      var j := FirstIndex(entries, CulturaOf, v.cultura);
      if j >= 0 {
        TallyBump(init, v, entries, j);
      } else {
        TallyAppend(init, v, entries);
      }
    }
  }

  /**
   * The entries come in the order their crops are first visited: each crop
   * is visited, and an earlier entry's crop is met before a later entry's.
   */
  predicate FirstEncounterOrder(visitas: seq<Visita>, entries: seq<CulturaCount>) {
    && (forall k :: 0 <= k < |entries| ==> FirstIndex(visitas, VisitaCultura, entries[k].cultura) >= 0)
    && (forall k, l :: 0 <= k < l < |entries| ==>
          FirstIndex(visitas, VisitaCultura, entries[k].cultura) < FirstIndex(visitas, VisitaCultura, entries[l].cultura))
  }

  lemma TallyStepKeepsOrder(init: seq<Visita>, v: Visita, entries: seq<CulturaCount>)
    requires FirstEncounterOrder(init, entries)
    requires forall w :: w in init ==> HasCultura(entries, w.cultura)
    ensures FirstEncounterOrder(init + [v], TallyStep(entries, v))
  {
    var j := FirstIndex(entries, CulturaOf, v.cultura);
    if j >= 0 {
      assert TallyStep(entries, v) == entries[j := CulturaCount(v.cultura, entries[j].count + 1)];
      BumpKeepsOrder(init, v, entries, j);
    } else {
      assert TallyStep(entries, v) == entries + [CulturaCount(v.cultura, 1)];
      forall k | 0 <= k < |init|
        ensures init[k].cultura != v.cultura
      {
        assert init[k] in init;
      }
      AppendKeepsOrder(init, v, entries);
    }
  }

  /** A crop visited before keeps its first index when a visit is appended. */
  lemma VisitedKeepsFirstIndex(init: seq<Visita>, v: Visita, entries: seq<CulturaCount>)
    requires forall k :: 0 <= k < |entries| ==> FirstIndex(init, VisitaCultura, entries[k].cultura) >= 0
    ensures forall k :: 0 <= k < |entries| ==>
              FirstIndex(init + [v], VisitaCultura, entries[k].cultura) == FirstIndex(init, VisitaCultura, entries[k].cultura)
  {
    forall k | 0 <= k < |entries|
      ensures FirstIndex(init + [v], VisitaCultura, entries[k].cultura) == FirstIndex(init, VisitaCultura, entries[k].cultura)
    {
      FirstIndexSnoc(init, v, VisitaCultura, entries[k].cultura);
    }
  }

  lemma BumpKeepsOrder(init: seq<Visita>, v: Visita, entries: seq<CulturaCount>, j: nat)
    requires FirstEncounterOrder(init, entries)
    requires j < |entries| && entries[j].cultura == v.cultura
    ensures FirstEncounterOrder(init + [v], entries[j := CulturaCount(v.cultura, entries[j].count + 1)])
  {
    VisitedKeepsFirstIndex(init, v, entries);
    var r := entries[j := CulturaCount(v.cultura, entries[j].count + 1)];
    assert forall k :: 0 <= k < |r| ==> r[k].cultura == entries[k].cultura;
  }

  lemma AppendKeepsOrder(init: seq<Visita>, v: Visita, entries: seq<CulturaCount>)
    requires FirstEncounterOrder(init, entries)
    requires forall k :: 0 <= k < |init| ==> init[k].cultura != v.cultura
    ensures FirstEncounterOrder(init + [v], entries + [CulturaCount(v.cultura, 1)])
  {
    VisitedKeepsFirstIndex(init, v, entries);
    FirstIndexSnoc(init, v, VisitaCultura, v.cultura);
    var r := entries + [CulturaCount(v.cultura, 1)];
    assert forall k :: 0 <= k < |entries| ==> r[k] == entries[k];
    forall k, l | 0 <= k < l < |r|
      ensures FirstIndex(init + [v], VisitaCultura, r[k].cultura) < FirstIndex(init + [v], VisitaCultura, r[l].cultura)
    {
      if l == |entries| {
        assert FirstIndex(init, VisitaCultura, entries[k].cultura) < |init|;
      }
    }
  }

  /** The map's entries are in first-encounter order, as a JavaScript `Map` iterates. */
  lemma {:induction false} TallyFirstEncounter(visitas: seq<Visita>)
    ensures FirstEncounterOrder(visitas, Tally(visitas))
    decreases |visitas|
  {
    if visitas != [] {
      var init, v := visitas[..|visitas| - 1], visitas[|visitas| - 1];
      assert visitas == init + [v];
      TallyFirstEncounter(init);
      TallyIsTally(init);
      TallyStepKeepsOrder(init, v, Tally(init));
    }
  }

  /** Fills the crop tally the way `getDashboardStats` fills its `Map` in a `forEach`. */
  method CountCulturas(visitas: seq<Visita>) returns (entries: seq<CulturaCount>)
    ensures entries == Tally(visitas)
    ensures IsTally(visitas, entries)
  {
    entries := [];
    var i := 0;
    while i < |visitas|
      invariant 0 <= i <= |visitas|
      invariant entries == Tally(visitas[..i])
    {
      var v := visitas[i];
      assert visitas[..i + 1][..i] == visitas[..i];
      var j := FirstIndex(entries, CulturaOf, v.cultura);
      if j >= 0 {
        entries := entries[j := CulturaCount(v.cultura, entries[j].count + 1)];
      } else {
        entries := entries + [CulturaCount(v.cultura, 1)];
      }
      i := i + 1;
    }
    assert visitas[..i] == visitas;
    TallyIsTally(visitas);
  }

  // ---------------------------------------------------------------- dashboard

  lemma TopCounts(visitas: seq<Visita>, tally: seq<CulturaCount>, top: seq<CulturaCount>)
    requires IsTally(visitas, tally)
    requires multiset(top) <= multiset(tally)
    ensures forall e :: e in top ==> e.count == Occurrences(visitas, e.cultura) >= 1
  {
    forall e | e in top
      ensures e.count == Occurrences(visitas, e.cultura) >= 1
    {
      assert e in multiset(tally);
      var k :| 0 <= k < |tally| && tally[k] == e;
    }
  }

  lemma TopCoversMissing(visitas: seq<Visita>, tally: seq<CulturaCount>, top: seq<CulturaCount>)
    requires IsTally(visitas, tally)
    requires |top| == Min(5, |tally|)
    requires |tally| <= 5 ==> multiset(top) == multiset(tally)
    requires forall x, y :: x in tally && x !in top && y in top ==> CountOf(x) <= CountOf(y)
    ensures forall v :: v in visitas && !HasCultura(top, v.cultura) ==>
              && |top| == 5
              && forall e :: e in top ==> Occurrences(visitas, v.cultura) <= e.count
  {
    forall v | v in visitas && !HasCultura(top, v.cultura)
      ensures |top| == 5
      ensures forall e :: e in top ==> Occurrences(visitas, v.cultura) <= e.count
    {
      var k :| 0 <= k < |tally| && tally[k].cultura == v.cultura;
      var missing := tally[k];
      assert missing !in top;
      assert missing in multiset(tally);
      assert |tally| > 5;
    }
  }

  /** The head of the sorted tally keeps the crop names distinct. */
  lemma TopDistinct(tally: seq<CulturaCount>, top: seq<CulturaCount>)
    requires DistinctCulturas(tally)
    requires |top| <= |tally| && top == SortDesc(tally, CountOf)[..|top|]
    ensures DistinctCulturas(top)
  {
    SortKeepsDistinct(tally);
  }

  /** The head of the sorted tally holds no more visits than the whole tally. */
  lemma TopSum(tally: seq<CulturaCount>, top: seq<CulturaCount>)
    requires |top| <= |tally| && top == SortDesc(tally, CountOf)[..|top|]
    ensures SumCounts(top) <= SumCounts(tally)
  {
    SumSort(tally);
    SumPrefix(SortDesc(tally, CountOf), |top|);
  }

  /**
   * `getDashboardStats`, with the current date passed in. The clients are not
   * consulted: a visit whose client no longer exists still counts.
   */
  method ComputeDashboardStats(visitas: seq<Visita>, now: CivilDate) returns (stats: DashboardStats)
    // visits this month, and distinct properties among them
    ensures stats.visitasMes == |VisitasDoMes(visitas, now)|
    ensures stats.propriedadesVisitadas == |ClienteIds(VisitasDoMes(visitas, now))|
    ensures stats.propriedadesVisitadas <= stats.visitasMes
    ensures stats.visitasMes > 0 ==> stats.propriedadesVisitadas > 0
    // leading crops over all time
    ensures |stats.principaisCulturas| <= 5
    ensures SortedDesc(stats.principaisCulturas, CountOf)
    ensures DistinctCulturas(stats.principaisCulturas)
    ensures forall e :: e in stats.principaisCulturas ==> e.count == Occurrences(visitas, e.cultura) >= 1
    ensures SumCounts(stats.principaisCulturas) <= |visitas|
    ensures forall v :: v in visitas && !HasCultura(stats.principaisCulturas, v.cultura) ==>
              && |stats.principaisCulturas| == 5
              && forall e :: e in stats.principaisCulturas ==> Occurrences(visitas, v.cultura) <= e.count
    // latest visits
    ensures |stats.ultimasVisitas| == Min(5, |visitas|)
    ensures multiset(stats.ultimasVisitas) <= multiset(visitas)
    ensures SortedDesc(stats.ultimasVisitas, VisitaDate)
    ensures forall v, u :: v in visitas && v !in stats.ultimasVisitas && u in stats.ultimasVisitas ==>
              VisitaDate(v) <= VisitaDate(u)
    // ties resolved as the stable sorts resolve them
    ensures stats.principaisCulturas == TopN(Tally(visitas), CountOf, 5)
    ensures stats.ultimasVisitas == TopN(visitas, VisitaDate, 5)
  {
    var doMes := VisitasDoMes(visitas, now);
    ClienteIdsBound(doMes);
    var tally := CountCulturas(visitas);
    var principais := TopN(tally, CountOf, 5);
    TopDistinct(tally, principais);
    TopSum(tally, principais);
    TopCounts(visitas, tally, principais);
    TopCoversMissing(visitas, tally, principais);
    var ultimas := TopN(visitas, VisitaDate, 5);
    stats := DashboardStats(|doMes|, |ClienteIds(doMes)|, principais, ultimas);
  }

  /** The March 2024 visits of the scenarios below: two to client A's soy, one to client B's corn. */
  predicate MarchVisits(a: Visita, b: Visita, c: Visita) {
    && a.dataVisita == CivilDate(2024, 3, 1) && a.cultura == "soja" && a.clienteId == "A"
    && b.dataVisita == CivilDate(2024, 3, 15) && b.cultura == "soja" && b.clienteId == "A"
    && c.dataVisita == CivilDate(2024, 3, 20) && c.cultura == "milho" && c.clienteId == "B"
  }

  /** Seen on 25 March 2024 the three visits count three times this month, for two properties. */
  lemma MarchMonthCounts(a: Visita, b: Visita, c: Visita)
    requires MarchVisits(a, b, c)
    ensures |VisitasDoMes([a, b, c], CivilDate(2024, 3, 25))| == 3
    ensures |ClienteIds(VisitasDoMes([a, b, c], CivilDate(2024, 3, 25)))| == 2
  {
    MarchAllInMonth(a, b, c);
    MarchClienteIds(a, b, c);
  }

  lemma MarchClienteIds(a: Visita, b: Visita, c: Visita)
    requires MarchVisits(a, b, c)
    ensures ClienteIds([a, b, c]) == {"A", "B"}
    ensures |ClienteIds([a, b, c])| == 2
  {
    var s := [a, b, c];
    assert s[0].clienteId in ClienteIds(s) && s[2].clienteId in ClienteIds(s);
    forall id | id in ClienteIds(s)
      ensures id in {"A", "B"}
    {
      var k :| 0 <= k < |s| && s[k].clienteId == id;
    }
    assert "B" !in {"A"} by {
      assert "A"[0] != "B"[0];
    }
    assert {"A", "B"} == {"A"} + {"B"};
  }

  lemma MarchAllInMonth(a: Visita, b: Visita, c: Visita)
    requires MarchVisits(a, b, c)
    ensures VisitasDoMes([a, b, c], CivilDate(2024, 3, 25)) == [a, b, c]
  {
    FilterKeepsAll([a, b, c], (v: Visita) => InMonthOf(v.dataVisita, CivilDate(2024, 3, 25)));
  }

  /** Over the three visits soy is counted twice and corn once. */
  lemma MarchCropCounts(a: Visita, b: Visita, c: Visita)
    requires MarchVisits(a, b, c)
    ensures Occurrences([a, b, c], "soja") == 2 && Occurrences([a, b, c], "milho") == 1
  {
    assert "soja" != "milho" by {
      assert "soja"[0] != "milho"[0];
    }
    assert [a, b, c] == [a, b] + [c] && [a, b] == [a] + [b] && [a] == [] + [a];
    OccurrencesSnoc([], a, "soja");
    OccurrencesSnoc([a], b, "soja");
    OccurrencesSnoc([a, b], c, "soja");
    OccurrencesSnoc([], a, "milho");
    OccurrencesSnoc([a], b, "milho");
    OccurrencesSnoc([a, b], c, "milho");
  }

  /** The latest visits of the three are listed from 20 March back to 1 March. */
  lemma MarchLatest(a: Visita, b: Visita, c: Visita)
    requires MarchVisits(a, b, c)
    ensures TopN([a, b, c], VisitaDate, 5) == [c, b, a]
  {
    SortThree(a, b, c, VisitaDate);
  }
}
