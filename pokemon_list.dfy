/** The paginated list of src/components/PokemonList.tsx: its state, the
    `loadPokemons` step (reset or append with de-duplication by id, `hasMore`,
    page advance, error path), the refresh that follows a filter change, and
    the three filter handlers. */
module PokemonList {
  import opened Collections
  import opened Wrappers
  import opened Api
  import PokemonFilters

  const LoadError := "Failed to load Pokemon"

  /** The ids present in a list, as the `Set` the merge builds. */
  function IdSet(ps: seq<Pokemon>): set<int> {
    set p | p in ps :: p.id
  }

  /** The entries of a response whose id is not yet in `prev`, in response order. */
  function Unseen(prev: seq<Pokemon>, data: seq<Pokemon>): (r: seq<Pokemon>)
    ensures IsSubsequence(r, data)
    ensures forall p :: p in r <==> p in data && p.id !in IdSet(prev)
    ensures forall p :: multiset(r)[p] == if p.id in IdSet(prev) then 0 else multiset(data)[p]
  {
    var existingIds := IdSet(prev);
    FilterSubsequence(data, (p: Pokemon) => p.id !in existingIds);
    FilterMultiset(data, (p: Pokemon) => p.id !in existingIds);
    Filter(data, (p: Pokemon) => p.id !in existingIds)
  }

  /** The list a non-reset load leaves: the previous list followed by the
      response entries whose id it did not already hold. */
  function Merge(prev: seq<Pokemon>, data: seq<Pokemon>): (r: seq<Pokemon>)
    ensures prev <= r
    ensures forall p :: p in r[|prev|..] ==> p.id !in IdSet(prev)
    ensures IsSubsequence(r[|prev|..], data)
    ensures forall p :: p in data ==> p in r || p.id in IdSet(prev)
    ensures forall p :: multiset(r[|prev|..])[p] == if p.id in IdSet(prev) then 0 else multiset(data)[p]
  {
    var r := prev + Unseen(prev, data);
    assert r[|prev|..] == Unseen(prev, data);
    r
  }

  /** The ids after a merge are the previous ids together with the response ids. */
  lemma MergeIds(prev: seq<Pokemon>, data: seq<Pokemon>)
    ensures IdSet(Merge(prev, data)) == IdSet(prev) + IdSet(data)
  {
    var r := Merge(prev, data);
    assert r == prev + Unseen(prev, data);
    forall id | id in IdSet(prev) + IdSet(data) ensures id in IdSet(r) {
      if id !in IdSet(prev) {
        var p :| p in data && p.id == id;
        assert p in r;
      } else {
        var p :| p in prev && p.id == id;
        assert p in r;
      }
    }
    forall id | id in IdSet(r) ensures id in IdSet(prev) + IdSet(data) {
      var p :| p in r && p.id == id;
      if p !in prev {
        assert p in Unseen(prev, data);
      }
    }
  }

  lemma IdsAppend(a: seq<Pokemon>, b: seq<Pokemon>)
    ensures Ids(a + b) == Ids(a) + Ids(b)
  {
  }

  lemma IdsMembers(ps: seq<Pokemon>)
    ensures forall id :: id in Ids(ps) <==> id in IdSet(ps)
  {
    forall id | id in Ids(ps) ensures id in IdSet(ps) {
      var i :| 0 <= i < |ps| && Ids(ps)[i] == id;
      assert ps[i] in ps;
    }
    forall id | id in IdSet(ps) ensures id in Ids(ps) {
      var p :| p in ps && p.id == id;
      var i :| 0 <= i < |ps| && ps[i] == p;
      assert Ids(ps)[i] == id;
    }
  }

  /** When the list and the response each hold every id once, so does the merge. */
  lemma MergeDistinctIds(prev: seq<Pokemon>, data: seq<Pokemon>)
    requires NoDuplicates(Ids(prev)) && NoDuplicates(Ids(data))
    ensures NoDuplicates(Ids(Merge(prev, data)))
  {
    var added := Unseen(prev, data);
    IdsOfSubsequence(added, data);
    SubsequenceNoDuplicates(Ids(added), Ids(data));
    IdsMembers(prev);
    IdsMembers(added);
    assert forall id :: id in Ids(prev) ==> id !in Ids(added);
    NoDuplicatesAppend(Ids(prev), Ids(added));
    IdsAppend(prev, added);
  }

  /** Only ids already in the list are checked: a response whose ids are all
      new is appended whole, so two entries with one id in the same response
      are both appended. */
  lemma MergeKeepsRepeatsWithinResponse(prev: seq<Pokemon>, p: Pokemon)
    requires p.id !in IdSet(prev)
    ensures Merge(prev, [p, p]) == prev + [p, p]
  {
    var existingIds := IdSet(prev);
    FilterKeepsAll([p, p], (q: Pokemon) => q.id !in existingIds);
  }

  /** The selected type ids, passed as `string | number` request arguments. */
  function NumArgs(ids: seq<int>): (r: seq<Arg>)
    ensures |r| == |ids| && forall i :: 0 <= i < |ids| ==> r[i] == Num(ids[i])
  {
    seq(|ids|, i requires 0 <= i < |ids| => Num(ids[i]))
  }

  lemma NumArgsMembers(ids: seq<int>)
    ensures forall a :: a in NumArgs(ids) <==> a.Num? && a.n in ids
  {
    forall a: Arg | a.Num? && a.n in ids ensures a in NumArgs(ids) {
      var i :| 0 <= i < |ids| && ids[i] == a.n;
      assert NumArgs(ids)[i] == a;
    }
  }

  /** Toggling one type twice in the filter panel may reorder the selection,
      but the catalogue search it drives returns the same entries. */
  lemma ToggleTwiceSameSearch(catalogue: seq<Pokemon>, name: string, selected: seq<int>, typeId: int)
    ensures var twice := PokemonFilters.Toggle(PokemonFilters.Toggle(selected, typeId), typeId);
      Search(catalogue, name, NumArgs(twice)) == Search(catalogue, name, NumArgs(selected))
  {
    var twice := PokemonFilters.Toggle(PokemonFilters.Toggle(selected, typeId), typeId);
    assert forall x :: x in twice <==> x in selected;
    NumArgsMembers(twice);
    NumArgsMembers(selected);
    SearchTypeOrderIrrelevant(catalogue, name, NumArgs(twice), NumArgs(selected));
  }

  /** The component's state. */
  datatype ListState = ListState(
    pokemons: seq<Pokemon>, isLoading: bool, error: Option<string>, hasMore: bool,
    page: int, nameFilter: string, typeFilter: seq<int>, limit: int, totalCount: int)

  class PokemonListView {
    var pokemons: seq<Pokemon>
    var isLoading: bool
    var error: Option<string>
    var hasMore: bool
    var page: int
    var nameFilter: string
    var typeFilter: seq<int>
    var limit: int
    var totalCount: int

    function State(): ListState
      reads this
    {
      ListState(pokemons, isLoading, error, hasMore, page, nameFilter, typeFilter, limit, totalCount)
    }

    constructor ()
      ensures State() == ListState([], false, None, true, 1, "", [], 50, 0)
    {
      pokemons, isLoading, error, hasMore := [], false, None, true;
      page, nameFilter, typeFilter, limit, totalCount := 1, "", [], 50, 0;
    }

    /** The arguments `loadPokemons(reset)` passes to `fetchPokemons`. */
    function Request(reset: bool): (q: ListQuery)
      reads this
      ensures q.page == (if reset then 1 else page) && q.limit == limit && q.name == nameFilter
      ensures !Truthy(q.typeId)
      ensures |q.types| == |typeFilter| && forall i :: 0 <= i < |typeFilter| ==> q.types[i] == Num(typeFilter[i])
    {
      ListQuery(if reset then 1 else page, limit, nameFilter, DefaultQuery.typeId, NumArgs(typeFilter))
    }

    /** One `loadPokemons(reset)` call, given what the awaited fetch of
        `Request(reset)` produced (`None` when it threw). */
    method LoadPokemons(reset: bool, outcome: Option<PokemonsResponse>)
      modifies this
      ensures outcome.None? ==>
        State() == old(State()).(isLoading := false, error := Some(LoadError))
      ensures outcome.Some? ==>
        var response := outcome.value;
        State() == old(State()).(
          isLoading := false, error := None, totalCount := response.count,
          pokemons := if reset then response.data else Merge(old(pokemons), response.data),
          hasMore := |response.data| == old(limit),
          page := if reset then old(page) else old(page) + 1)
    {
      isLoading := true;
      error := None;
      match outcome {
        case None =>
          error := Some(LoadError);
        case Some(response) =>
          // The setters of the success path, applied together as React batches them.
          var newPokemons := if reset then response.data else Merge(pokemons, response.data);
          var newPage := if reset then page else page + 1;
          totalCount, pokemons, hasMore, page := response.count, newPokemons, |response.data| == limit, newPage;
      }
      isLoading := false;
    }

    /** `loadPokemons(reset)` against the mock data layer, which never fails:
        the parameter list it builds and the step it takes. */
    method LoadPokemonsFromMock(reset: bool) returns (params: seq<(string, string)>)
      modifies this
      ensures ParamsLayout(old(Request(reset)), params)
      ensures params[0] == ("page", IntToDecimal(if reset then 1 else old(page)))
      ensures var found := Search(MockPokemons, old(nameFilter), NumArgs(old(typeFilter)));
        State() == old(State()).(
          isLoading := false, error := None, totalCount := |found|,
          pokemons := if reset then found else Merge(old(pokemons), found),
          hasMore := |found| == old(limit),
          page := if reset then old(page) else old(page) + 1)
      ensures old(limit) > |MockPokemons| ==> !hasMore
    {
      var response;
      params, response := FetchPokemons(Request(reset));
      LoadPokemons(reset, Some(response));
    }

    /** The effect that runs on mount and whenever a filter changes: a reset
        load, then the page counter set to 2 for the next scroll load. */
    method RefreshAfterFilterChange(outcome: Option<PokemonsResponse>)
      modifies this
      ensures outcome.None? ==>
        State() == old(State()).(isLoading := false, error := Some(LoadError), page := 2)
      ensures outcome.Some? ==>
        var response := outcome.value;
        State() == old(State()).(
          isLoading := false, error := None, totalCount := response.count,
          pokemons := response.data, hasMore := |response.data| == old(limit), page := 2)
    {
      LoadPokemons(true, outcome);
      page := 2;
    }

    method HandleNameChange(name: string)
      modifies this
      ensures State() == old(State()).(nameFilter := name, page := 1)
    {
      nameFilter := name;
      page := 1;
    }

    method HandleTypeChange(types: seq<int>)
      modifies this
      ensures State() == old(State()).(typeFilter := types, page := 1)
    {
      typeFilter := types;
      page := 1;
    }

    method HandleLimitChange(newLimit: int)
      modifies this
      ensures State() == old(State()).(limit := newLimit, page := 1)
    {
      limit := newLimit;
      page := 1;
    }
  }
}
