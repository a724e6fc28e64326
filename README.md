# ControleReact Pokédex: a Dafny model of the list, filter and caught-store core

This project models the state logic of the ControleReact Pokédex, a Next.js
front end that lists Pokémon. It covers four parts:

- **The data layer (`api.dfy`, module `Api`; `src/lib/api.ts`).**
  - The records the pages receive: `Pokemon`, `PokemonType`, `PokemonDetail`, `PokemonsResponse`.
  - The three-entry mock catalogue and the five-entry type list that the code answers from.
  - The `URLSearchParams` list a listing request builds: `page`, `limit`, an optional `name`, an optional `typeId`, then one `types` pair per selected type.
  - The case-insensitive name filter and the any-selected-type filter.
  - The by-id lookup. It returns fixed stats and the first two other entries as "evolutions". An unknown id gets a placeholder record.
- **The caught store (`pokemon_context.dfy`, module `PokemonContext`; `src/lib/PokemonContext.tsx`).**
  - A list of caught ids.
  - `catchPokemon` appends an id once; `releasePokemon` filters it out; `isCaught` queries it.
- **The filter panel (`pokemon_filters.dfy`, module `PokemonFilters`; `src/components/PokemonFilters.tsx`).**
  - Its six state fields and the type-list load on mount.
  - The name, type-toggle and page-size handlers, each of which stores the new value and passes it to the parent.
- **The paginated list (`pokemon_list.dfy`, module `PokemonList`; `src/components/PokemonList.tsx`).**
  - Its nine state fields.
  - One `loadPokemons(reset)` step: a reset replaces the list; otherwise new entries are appended only when their id is not yet listed. The step also sets `hasMore`, advances the page and takes the error path.
  - The effect that reloads when a filter changes, then sets the page to 2.
  - The three parent handlers, which store a filter and set the page back to 1.

`collections.dfy` (module `Collections`) holds the sequence vocabulary the four parts share: `Array.prototype.filter` as `Filter`, its removal instance `Without`, subsequences and duplicate-freedom. `wrappers.dfy` holds `Option`.

Each React component and the context provider is a `class`. Its fields are the component's `useState` cells, and `State()` returns a snapshot of them. Each handler or effect is a `method` that runs as one atomic step, and its `ensures` give the complete new state. Each component awaits `fetchPokemons` or `fetchPokemonTypes` inside a `try`/`catch`. The awaited result becomes an `Option` parameter, and `None` stands for the `catch` path (`PokemonList.tsx:53-55`, `PokemonFilters.tsx:31-33`). As written, neither call can throw: both answer from constants (`api.ts:74-125`, `api.ts:171-175`), so the data layer never reaches the `catch` path. `LoadPokemonsFromMock` shows the load step against that data layer, which never fails.

The pure computations are functions, with lemmas that state what the code promises:
- Every search result is a subsequence of the catalogue.
- The order of the selected types does not matter.
- The merge never appends an entry whose id is already listed. When the list and the response each hold every id once, so does the result (`MergeDistinctIds`).
- The caught store never holds an id twice, and an id is caught exactly when its last call was a catch.
- Starting from nothing, a type is selected exactly when it has been toggled an odd number of times.

Three behaviours of the code as written are stated as they are:
- Toggling a selected type twice does not always restore the selection: the id moves to the end (`ToggleTwiceSelected`, `ToggleTwiceReorders`). The search results stay the same (`ToggleTwiceSameSearch`).
- The merge only compares against ids already in the list. Two entries with the same id in one response are both appended (`MergeKeepsRepeatsWithinResponse`).
- After a filter change, the list's handler sets the page to 1. The effect that follows sets it to 2 (`RefreshAfterFilterChange`).

The data layer names a remote service (`API_BASE_URL`, `api.ts:2`), but each fetch function answers from the fixed mock catalogue instead, with a comment saying so (`api.ts:103`, `api.ts:129`, `api.ts:172`). The model follows the code.

## Model

| member | source | states |
|---|---|---|
| Collections.Filter | controlereact/src/lib/api.ts:110-118 | `filter` keeps exactly the elements that satisfy the predicate and never lengthens the list |
| Collections.FilterMultiset | controlereact/src/lib/api.ts:110-118 | every kept value occurs in the result as often as in the input, and every dropped value not at all |
| Collections.FilterSubsequence | controlereact/src/lib/api.ts:110-118 | the result keeps the surviving elements in their original order (a subsequence of the input) |
| Collections.Without | controlereact/src/lib/PokemonContext.tsx:42 | filtering out one value removes every occurrence of it, keeps every other value's multiplicity and order, and changes nothing when the value is absent |
| Collections.FilterTwice | controlereact/src/lib/api.ts:109-119 | two filters in sequence (name, then types) select the same entries as one filter by the conjunction |
| Api.MockIdsDistinct | controlereact/src/lib/api.ts:13-33 | the mock catalogue's ids 1, 4, 7 are pairwise distinct |
| Api.IntToDecimalRoundTrip | controlereact/src/lib/api.ts:88-89 | `toString` on an integer page or limit gives a non-empty decimal that reads back as the same integer, so different values give different parameters |
| Api.BuildParams | controlereact/src/lib/api.ts:87-101 | the parameter list is `page`, `limit`, `name` only when the name is non-empty, `typeId` only when it is truthy, then one `types` pair per selected type in selection order |
| Api.ParamsLayoutUnique | controlereact/src/lib/api.ts:87-101 | the layout determines the parameter list completely: any two lists with that layout for one query are equal |
| Api.ParamsOptionalKeys | controlereact/src/lib/api.ts:91-97 | a `name` pair occurs only for a non-empty name and carries it, and a `typeId` pair occurs only for a truthy `typeId` |
| Api.ParamsTypesPairs | controlereact/src/lib/api.ts:99-101 | the `types` pairs of the list are exactly one per selected type, in selection order |
| Api.IncludesAt | controlereact/src/lib/api.ts:111 | `includes` holds exactly when the part occurs at some position of the text |
| Api.Search | controlereact/src/lib/api.ts:107-119 | the result is a subsequence of the catalogue holding exactly the entries that match the name filter (when a name is given) and the types filter (when types are given), each as often as the catalogue holds it |
| Api.FetchPokemons | controlereact/src/lib/api.ts:74-125 | the parameters follow the layout, `data` is the catalogue search for the name and types (page and limit have no effect on it), and `count` is the length of `data` |
| Api.SearchAll | controlereact/src/lib/api.ts:107-119 | with no name and no types the whole catalogue is returned unchanged |
| Api.SearchTypeOrderIrrelevant | controlereact/src/lib/api.ts:115-119 | two type selections with the same members give the same result |
| Api.SearchIgnoresCase | controlereact/src/lib/api.ts:109-113 | lower-casing the name query does not change the result |
| Api.SearchStringTypesMatchNothing | controlereact/src/lib/api.ts:115-119 | type ids are compared strictly, so a non-empty selection made only of strings matches no entry |
| Api.MockSearchIdsDistinct | controlereact/src/lib/api.ts:107-124 | no response from the mock catalogue holds two entries with the same id |
| Api.FindById | controlereact/src/lib/api.ts:132 | `find` returns nothing exactly when no entry has the id, and otherwise the first entry with it |
| Api.OtherEntries | controlereact/src/lib/api.ts:164 | the entries whose id differs from the requested one, in catalogue order and with their catalogue multiplicity |
| Api.LookupById | controlereact/src/lib/api.ts:128-168 | the record has the requested id and the six fixed stats. For a known id it carries the entry's name, image and types, height 7, weight 69, and the first `min(2, n)` of the other entries as evolutions. For an unknown id it is the "Unknown Pokemon" placeholder with no types, no evolutions and size 0 |
| Api.FetchPokemonById | controlereact/src/lib/api.ts:128-168 | the record returned always carries the requested id |
| Api.FetchPokemonByIdResolves | controlereact/src/lib/api.ts:132-152 | exactly the ids 1, 4 and 7 resolve to a real entry, and every other id gives the placeholder |
| Api.FetchBulbasaurEvolutions | controlereact/src/lib/api.ts:164 | entry 1's evolutions are entries 4 and 7 |
| Api.FetchCharmanderEvolutions | controlereact/src/lib/api.ts:164 | entry 4's evolutions are entries 1 and 7 |
| Api.FetchSquirtleEvolutions | controlereact/src/lib/api.ts:164 | entry 7's evolutions are entries 1 and 4 |
| Api.FetchPokemonTypes | controlereact/src/lib/api.ts:171-175 | the type list includes every type the catalogue entries carry and never lists an id twice |
| PokemonContext.AfterCatch | controlereact/src/lib/PokemonContext.tsx:35-39 | catching adds the id and nothing else, appends at most one element, changes nothing when the id is already caught, and keeps the list duplicate-free |
| PokemonContext.CaughtStore.constructor | controlereact/src/lib/PokemonContext.tsx:16 | the store starts empty |
| PokemonContext.CaughtStore.CatchPokemon | controlereact/src/lib/PokemonContext.tsx:35-39 | the new list is the old list with the id appended when it was absent, and stays duplicate-free |
| PokemonContext.CaughtStore.ReleasePokemon | controlereact/src/lib/PokemonContext.tsx:41-43 | the new list is the old one with the id filtered out, and stays duplicate-free |
| PokemonContext.CaughtStore.IsCaught | controlereact/src/lib/PokemonContext.tsx:45-47 | true exactly when the id is in the list |
| PokemonContext.CatchThenRelease | controlereact/src/lib/PokemonContext.tsx:35-43 | catching an uncaught id and then releasing it restores the list exactly |
| PokemonContext.CatchReleaseIdempotent | controlereact/src/lib/PokemonContext.tsx:35-43 | catching the same id twice equals catching it once, and likewise for releasing |
| PokemonContext.ReplayNoDuplicates | controlereact/src/lib/PokemonContext.tsx:16-43 | after any sequence of catches and releases on a fresh store, no id is held twice |
| PokemonContext.ReplayMembership | controlereact/src/lib/PokemonContext.tsx:35-47 | after any sequence of calls, an id is caught exactly when the last call about it was a catch |
| PokemonFilters.Toggle | controlereact/src/components/PokemonFilters.tsx:48-52 | toggling flips the id's membership and leaves every other id's membership alone. An unselected id is appended at the end; a selected id is removed, keeping the others in order and as often as before. The selection stays duplicate-free |
| PokemonFilters.ToggleTwiceUnselected | controlereact/src/components/PokemonFilters.tsx:48-52 | toggling an unselected id twice restores the selection exactly |
| PokemonFilters.ToggleTwiceSelected | controlereact/src/components/PokemonFilters.tsx:48-52 | toggling a selected id twice gives the same ids (the same multiset), with that id moved to the end |
| PokemonFilters.ToggleTwiceReorders | controlereact/src/components/PokemonFilters.tsx:48-52 | toggling 3 twice in `[3, 5]` gives `[5, 3]` |
| PokemonFilters.ToggleAllNoDuplicates | controlereact/src/components/PokemonFilters.tsx:19-52 | from the initial empty selection, any run of toggles leaves no id selected twice |
| PokemonFilters.ToggleAllParity | controlereact/src/components/PokemonFilters.tsx:19-52 | from the initial empty selection, an id is selected exactly when it has been toggled an odd number of times |
| PokemonFilters.FilterPanel.constructor | controlereact/src/components/PokemonFilters.tsx:18-23 | the panel starts with an empty name, no selection, no types, page size 50, loading, and no error |
| PokemonFilters.FilterPanel.LoadTypes | controlereact/src/components/PokemonFilters.tsx:25-40 | on success the fetched types are stored; on failure the types error is set; loading ends either way and nothing else changes |
| PokemonFilters.FilterPanel.HandleNameChange | controlereact/src/components/PokemonFilters.tsx:42-46 | stores the new name and passes that same value to the parent |
| PokemonFilters.FilterPanel.HandleTypeChange | controlereact/src/components/PokemonFilters.tsx:48-55 | stores the toggled selection, keeps it duplicate-free, and passes it to the parent |
| PokemonFilters.FilterPanel.HandleLimitChange | controlereact/src/components/PokemonFilters.tsx:57-61 | stores the new page size and passes it to the parent |
| PokemonList.Unseen | controlereact/src/components/PokemonList.tsx:42-43 | the response entries whose id is not already listed, in response order, each kept as often as it occurs in the response |
| PokemonList.Merge | controlereact/src/components/PokemonList.tsx:41-45 | the old list is kept as a prefix. The appended part is a subsequence of the response that holds every entry with a new id as often as the response does, and none with an already-listed id |
| PokemonList.MergeIds | controlereact/src/components/PokemonList.tsx:41-45 | the ids after a merge are the old ids together with the response ids |
| PokemonList.MergeDistinctIds | controlereact/src/components/PokemonList.tsx:40-45 | when the list and the response each hold every id once, so does the merged list |
| PokemonList.MergeKeepsRepeatsWithinResponse | controlereact/src/components/PokemonList.tsx:42-44 | for any list, two entries of one response that share a new id are both appended |
| PokemonList.ToggleTwiceSameSearch | controlereact/src/components/PokemonFilters.tsx:48-54 | toggling one type twice may reorder the selection passed to the list, but the search it drives returns the same entries |
| PokemonList.PokemonListView.constructor | controlereact/src/components/PokemonList.tsx:9-17 | the list starts empty, not loading, without error, with more to load, on page 1, with no filters, page size 50 and count 0 |
| PokemonList.PokemonListView.Request | controlereact/src/components/PokemonList.tsx:26-33 | the fetch arguments: page 1 on a reset and the current page otherwise, the current page size and name filter, no `typeId`, and the selected type ids as numbers in selection order |
| PokemonList.PokemonListView.LoadPokemons | controlereact/src/components/PokemonList.tsx:21-59 | a failed fetch sets only the load error and ends loading. A successful fetch clears the error, stores the count, and replaces the list (reset) or merges into it. `hasMore` becomes whether the page came back full. The page advances by one only when not resetting |
| PokemonList.PokemonListView.LoadPokemonsFromMock | controlereact/src/components/PokemonList.tsx:21-59 | against the mock data layer: the parameters follow the layout for the request, and the page parameter is 1 on a reset. The whole new state is given: the list becomes the catalogue search for the current filters (reset) or has it merged in, the count is that search's size, `hasMore` is whether that size equals the page size, the page advances only when not resetting, and the filters and page size are unchanged. Once the page size exceeds the catalogue, no more is expected |
| PokemonList.PokemonListView.RefreshAfterFilterChange | controlereact/src/components/PokemonList.tsx:62-65 | a reset load followed by setting the page to 2, so the next scroll load asks for page 2 |
| PokemonList.PokemonListView.HandleNameChange | controlereact/src/components/PokemonList.tsx:92-95 | stores the name filter and sets the page to 1 |
| PokemonList.PokemonListView.HandleTypeChange | controlereact/src/components/PokemonList.tsx:97-100 | stores the type filter and sets the page to 1 |
| PokemonList.PokemonListView.HandleLimitChange | controlereact/src/components/PokemonList.tsx:102-105 | stores the page size and sets the page to 1 |

## Left out

- localStorage persistence of the caught ids (`PokemonContext.tsx:18-33`): browser storage and JSON parsing are I/O. The store starts empty as in `useState([])`.
- `usePokemon` (`PokemonContext.tsx:56-62`): it raises an error outside a provider, which is React context plumbing.
- PokemonContext.CaughtStore.CatchPokemon: it is modelled as one atomic step. The source tests `includes` against the rendered list and appends through a functional update, so two catches of one id inside a single render could both append. React's batching is not modelled.
- PokemonList.PokemonListView.LoadPokemons: it is modelled as one atomic step over the state as it stood when the load began. Interleaving between the `await` and the state setters, and between concurrent loads, is not modelled.
- The infinite-scroll `IntersectionObserver` effect (`PokemonList.tsx:67-90`): browser API. Scroll-triggered loads correspond to `LoadPokemons(false, …)`.
- `API_BASE_URL` and `fetchOptions` (`api.ts:1-10`): the network is never contacted.
- The `console.log` calls (`api.ts:104`, `api.ts:130`, `api.ts:173`) and `console.error` calls (`PokemonList.tsx:55`, `PokemonFilters.tsx:33`, `PokemonContext.tsx:25`): logging has no effect on state. `BuildParams` produces the parameter list, which the code builds and never sends.
- Api.FetchPokemonById: `Number(id)` is not modelled. Ids are integers, so string ids, `NaN` and non-integer numbers are left out.
- PokemonFilters.FilterPanel.HandleLimitChange: it receives the page size already parsed. `parseInt` on the select's text (`PokemonFilters.tsx:58`) is not modelled.
- Api.SearchIgnoresCase: lower-casing covers ASCII letters only. JavaScript's full Unicode `toLowerCase` is not modelled.
- Api.IntToDecimal: it renders every integer in plain decimal. JavaScript's `toString` agrees only below 1e21 in magnitude, and larger numbers are written in exponent form (`"1e+21"`). Fractional numbers are left out.
- The `SearchBar` component that the panel renders is not part of this model.
- PokemonFilters.FilterPanel.HandleNameChange: it models the handler as written (`PokemonFilters.tsx:42-46`), but nothing in the panel uses it. The `SearchBar` (`PokemonFilters.tsx:73`) calls the parent's `onNameChange` directly, so in the running program the panel's `name` stays `""`.
- JSX rendering, styling and the other pages and components (cards, detail, stats, evolution view, navigation): presentation only.
