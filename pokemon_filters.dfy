/** The filter panel of src/components/PokemonFilters.tsx: its state (name,
    selected type ids, loaded type list, page size, loading flag, error) and
    the handlers that update a field and pass the new value to the parent. */
module PokemonFilters {
  import opened Collections
  import opened Wrappers
  import Api

  const TypesLoadError := "Failed to load Pokemon types"

  /** The selection `handleTypeChange(typeId)` computes: a selected id is
      filtered out, an unselected one is appended at the end. */
  function Toggle(selected: seq<int>, typeId: int): (r: seq<int>)
    ensures typeId in r <==> typeId !in selected
    ensures forall x :: x != typeId ==> (x in r <==> x in selected)
    ensures typeId !in selected ==> r == selected + [typeId]
    ensures typeId in selected ==> IsSubsequence(r, selected) && typeId !in r
    ensures forall x :: x != typeId ==> multiset(r)[x] == multiset(selected)[x]
    ensures NoDuplicates(selected) ==> NoDuplicates(r)
  {
    if typeId in selected then
      WithoutNoDuplicates(selected, typeId);
      Without(selected, typeId)
    else
      selected + [typeId]
  }

  /** Toggling an unselected id twice gives the selection back. */
  lemma ToggleTwiceUnselected(selected: seq<int>, typeId: int)
    requires typeId !in selected
    ensures Toggle(Toggle(selected, typeId), typeId) == selected
  {
    WithoutAppended(selected, typeId);
  }

  /** Toggling a selected id twice on a duplicate-free selection gives back the
      same ids, each once, with that id moved to the end. */
  lemma ToggleTwiceSelected(selected: seq<int>, typeId: int)
    requires NoDuplicates(selected) && typeId in selected
    ensures Toggle(Toggle(selected, typeId), typeId) == Without(selected, typeId) + [typeId]
    ensures multiset(Toggle(Toggle(selected, typeId), typeId)) == multiset(selected)
  {
    var r := Without(selected, typeId) + [typeId];
    NoDuplicatesOccursOnce(selected, typeId);
    forall x ensures multiset(r)[x] == multiset(selected)[x] {
      if x == typeId {
        assert x !in multiset(Without(selected, typeId));
      }
    }
    assert multiset(r) == multiset(selected);
  }

  /** The order does change: toggling 3 twice in [3, 5] gives [5, 3]. */
  lemma ToggleTwiceReorders()
    ensures Toggle(Toggle([3, 5], 3), 3) == [5, 3]
  {
    assert Without([3, 5], 3) == [5] by {
      assert [3, 5][1..] == [5];
      FilterKeepsAll([5], y => y != 3);
    }
  }

  /** The selection after a run of toggles from the empty selection. */
  function ToggleAll(typeIds: seq<int>): seq<int>
    decreases |typeIds|
  {
    if typeIds == [] then [] else Toggle(ToggleAll(typeIds[..|typeIds| - 1]), typeIds[|typeIds| - 1])
  }

  /** From the empty selection, the selection never holds an id twice. */
  lemma {:induction false} ToggleAllNoDuplicates(typeIds: seq<int>)
    ensures NoDuplicates(ToggleAll(typeIds))
  {
    if typeIds != [] {
      ToggleAllNoDuplicates(typeIds[..|typeIds| - 1]);
    }
  }

  lemma ToggleAllSnoc(prefix: seq<int>, last: int)
    ensures ToggleAll(prefix + [last]) == Toggle(ToggleAll(prefix), last)
  {
    assert (prefix + [last])[..|prefix|] == prefix;
  }

  lemma MultisetSnoc(prefix: seq<int>, last: int, x: int)
    ensures multiset(prefix + [last])[x] == multiset(prefix)[x] + (if x == last then 1 else 0)
  {
    assert multiset(prefix + [last]) == multiset(prefix) + multiset{last};
  }

  lemma ToggleMembership(selected: seq<int>, typeId: int, x: int)
    ensures x in Toggle(selected, typeId) <==> if x == typeId then x !in selected else x in selected
  {
  }

  lemma ParityStep(c: nat)
    ensures (c + 1) % 2 == 1 <==> c % 2 != 1
  {
  }

  /** From the empty selection, an id is selected exactly when it has been
      toggled an odd number of times. */
  lemma {:induction false} ToggleAllParity(typeIds: seq<int>, x: int)
    ensures x in ToggleAll(typeIds) <==> multiset(typeIds)[x] % 2 == 1
  {
    if typeIds != [] {
      var n := |typeIds| - 1;
      var prefix, last := typeIds[..n], typeIds[n];
      assert typeIds == prefix + [last];
      var before := ToggleAll(prefix);
      var count := multiset(prefix)[x];
      ToggleAllParity(prefix, x);
      assert x in before <==> count % 2 == 1;
      ToggleAllSnoc(prefix, last);
      assert ToggleAll(typeIds) == Toggle(before, last);
      MultisetSnoc(prefix, last, x);
      assert multiset(typeIds)[x] == count + (if x == last then 1 else 0);
      ToggleMembership(before, last, x);
      assert x in ToggleAll(typeIds) <==> if x == last then x !in before else x in before;
      ParityStep(count);
    }
  }

  /** The panel's state. */
  datatype FilterState = FilterState(
    name: string, selectedTypes: seq<int>, types: seq<Api.PokemonType>,
    limit: int, isLoading: bool, error: Option<string>)

  class FilterPanel {
    var name: string
    var selectedTypes: seq<int>
    var types: seq<Api.PokemonType>
    var limit: int
    var isLoading: bool
    var error: Option<string>

    function State(): FilterState
      reads this
    {
      FilterState(name, selectedTypes, types, limit, isLoading, error)
    }

    /** No type id is selected twice. */
    ghost predicate Valid()
      reads this
    {
      NoDuplicates(selectedTypes)
    }

    constructor ()
      ensures Valid()
      ensures State() == FilterState("", [], [], 50, true, None)
    {
      name, selectedTypes, types := "", [], [];
      limit, isLoading, error := 50, true, None;
    }

    /** The mount effect, given what the awaited `fetchPokemonTypes()` produced
        (`None` when it threw). */
    method LoadTypes(fetched: Option<seq<Api.PokemonType>>)
      requires Valid()
      modifies this
      ensures Valid()
      ensures fetched.Some? ==> State() == old(State()).(types := fetched.value, isLoading := false)
      ensures fetched.None? ==> State() == old(State()).(error := Some(TypesLoadError), isLoading := false)
    {
      isLoading := true;
      match fetched {
        case Some(typesData) =>
          types := typesData;
        case None =>
          error := Some(TypesLoadError);
      }
      isLoading := false;
    }

    method HandleNameChange(newName: string) returns (notified: string)
      requires Valid()
      modifies this
      ensures Valid()
      ensures State() == old(State()).(name := newName)
      ensures notified == name
    {
      name := newName;
      notified := name;
    }

    /** Toggles one type id and passes the new selection to the parent. */
    method HandleTypeChange(typeId: int) returns (notified: seq<int>)
      requires Valid()
      modifies this
      ensures Valid()
      ensures State() == old(State()).(selectedTypes := Toggle(old(selectedTypes), typeId))
      ensures notified == selectedTypes
    {
      var newTypes := if typeId in selectedTypes then Without(selectedTypes, typeId) else selectedTypes + [typeId];
      assert newTypes == Toggle(selectedTypes, typeId);
      selectedTypes := newTypes;
      notified := newTypes;
    }

    /** Stores the already parsed page size and passes it to the parent. */
    method HandleLimitChange(newLimit: int) returns (notified: int)
      requires Valid()
      modifies this
      ensures Valid()
      ensures State() == old(State()).(limit := newLimit)
      ensures notified == limit
    {
      limit := newLimit;
      notified := newLimit;
    }
  }
}
