/** The caught-id store of src/lib/PokemonContext.tsx: a list of entry ids,
    initially empty, that `catchPokemon` appends to (once per id),
    `releasePokemon` removes from and `isCaught` queries. */
module PokemonContext {
  import opened Collections

  /** The list `catchPokemon(id)` leaves: the id appended at the end unless it
      is already caught. */
  function AfterCatch(caught: seq<int>, id: int): (r: seq<int>)
    ensures forall x :: x in r <==> x in caught || x == id
    ensures caught <= r && |r| <= |caught| + 1
    ensures id in caught ==> r == caught
    ensures NoDuplicates(caught) ==> NoDuplicates(r)
  {
    if id in caught then caught else caught + [id]
  }

  /** The store as the provider holds it. Each handler is one atomic step. */
  class CaughtStore {
    var caughtPokemon: seq<int>

    /** No id is held twice. */
    ghost predicate Valid()
      reads this
    {
      NoDuplicates(caughtPokemon)
    }

    constructor ()
      ensures Valid() && caughtPokemon == []
    {
      caughtPokemon := [];
    }

    method CatchPokemon(id: int)
      requires Valid()
      modifies this
      ensures Valid()
      ensures caughtPokemon == AfterCatch(old(caughtPokemon), id)
    {
      if id !in caughtPokemon {
        caughtPokemon := caughtPokemon + [id];
      }
    }

    method ReleasePokemon(id: int)
      requires Valid()
      modifies this
      ensures Valid()
      ensures caughtPokemon == Without(old(caughtPokemon), id)
    {
      WithoutNoDuplicates(caughtPokemon, id);
      caughtPokemon := Without(caughtPokemon, id);
    }

    method IsCaught(id: int) returns (b: bool)
      ensures b <==> id in caughtPokemon
    {
      b := id in caughtPokemon;
    }
  }

  /** Catching an id that is not caught and then releasing it restores the list. */
  lemma CatchThenRelease(caught: seq<int>, id: int)
    requires id !in caught
    ensures Without(AfterCatch(caught, id), id) == caught
  {
    WithoutAppended(caught, id);
  }

  /** Catching is idempotent, and so is releasing. */
  lemma CatchReleaseIdempotent(caught: seq<int>, id: int)
    ensures AfterCatch(AfterCatch(caught, id), id) == AfterCatch(caught, id)
    ensures Without(Without(caught, id), id) == Without(caught, id)
  {
  }

  /** One call on the store. */
  datatype Event = Caught(id: int) | Released(id: int)

  function Apply(caught: seq<int>, e: Event): seq<int> {
    match e
    case Caught(id) => AfterCatch(caught, id)
    case Released(id) => Without(caught, id)
  }

  /** The list after a run of calls on a fresh store. */
  function Replay(events: seq<Event>): seq<int>
    decreases |events|
  {
    if events == [] then [] else Apply(Replay(events[..|events| - 1]), events[|events| - 1])
  }

  /** The last event about `id` is a catch. */
  predicate LastEventCatches(events: seq<Event>, id: int) {
    exists i :: 0 <= i < |events| && events[i] == Caught(id) &&
      forall j :: i < j < |events| ==> events[j].id != id
  }

  /** Whatever the calls, the store never holds an id twice. */
  lemma {:induction false} ReplayNoDuplicates(events: seq<Event>)
    ensures NoDuplicates(Replay(events))
  {
    if events != [] {
      var before := Replay(events[..|events| - 1]);
      ReplayNoDuplicates(events[..|events| - 1]);
      match events[|events| - 1]
      case Caught(id) =>
      case Released(id) => WithoutNoDuplicates(before, id);
    }
  }

  /** How one call changes whether `id` is caught. */
  lemma ApplyMembership(caught: seq<int>, e: Event, id: int)
    ensures id in Apply(caught, e) <==> if e.id == id then e.Caught? else id in caught
  {
  }

  /** How one more call changes which call was the last about `id`. */
  lemma LastEventCatchesSnoc(prefix: seq<Event>, e: Event, id: int)
    ensures LastEventCatches(prefix + [e], id) <==>
            if e.id == id then e.Caught? else LastEventCatches(prefix, id)
  {
    var events := prefix + [e];
    var n := |prefix|;
    if e.id == id && e.Caught? {
      assert events[n] == Caught(id);
    } else if e.id == id {
      assert events[n] == e;
    } else {
      if LastEventCatches(prefix, id) {
        var i :| 0 <= i < |prefix| && prefix[i] == Caught(id) &&
          forall j :: i < j < |prefix| ==> prefix[j].id != id;
        assert events[i] == Caught(id);
        forall j | i < j < |events| ensures events[j].id != id {
          if j < n {
            assert events[j] == prefix[j];
          }
        }
      }
      if LastEventCatches(events, id) {
        var i :| 0 <= i < |events| && events[i] == Caught(id) &&
          forall j :: i < j < |events| ==> events[j].id != id;
        assert i < n && prefix[i] == Caught(id);
        forall j | i < j < |prefix| ensures prefix[j].id != id {
          assert prefix[j] == events[j];
        }
      }
    }
  }

  /** An id is caught exactly when the last call about it was a catch. */
  lemma {:induction false} ReplayMembership(events: seq<Event>, id: int)
    ensures id in Replay(events) <==> LastEventCatches(events, id)
  {
    if events != [] {
      var n := |events| - 1;
      ReplayMembership(events[..n], id);
      ApplyMembership(Replay(events[..n]), events[n], id);
      assert events == events[..n] + [events[n]];
      LastEventCatchesSnoc(events[..n], events[n], id);
    }
  }
}
