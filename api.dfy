/** The data layer of the Pokédex (src/lib/api.ts): the records it returns,
    the fixed mock catalogue that stands in for the remote service, the
    query-parameter list built for a listing request, the catalogue search,
    the by-id lookup with its fallback record, and the type list. */
module Api {
  import opened Collections
  import opened Wrappers

  datatype PokemonType = PokemonType(id: int, name: string)

  datatype Pokemon = Pokemon(id: int, name: string, image: string, types: seq<PokemonType>)

  datatype PokemonStat = PokemonStat(name: string, value: int)

  /** A catalogue entry with its stats, evolutions and size. */
  datatype PokemonDetail = PokemonDetail(
    id: int, name: string, image: string, types: seq<PokemonType>,
    stats: seq<PokemonStat>, evolutions: seq<Pokemon>, height: int, weight: int)

  datatype PokemonsResponse = PokemonsResponse(data: seq<Pokemon>, count: int)

  /** A JavaScript `string | number` argument. */
  datatype Arg = Num(n: int) | Str(s: string)

  /** The named arguments of a listing request. */
  datatype ListQuery = ListQuery(page: int, limit: int, name: string, typeId: Arg, types: seq<Arg>)

  /** The defaults a caller gets by leaving an argument out. */
  const DefaultQuery := ListQuery(1, 50, "", Str(""), [])

  // ---------------------------------------------------------------------------
  // The mock catalogue

  const ArtworkBase := "https://raw.githubusercontent.com/PokeAPI/sprites/master/sprites/pokemon/other/official-artwork/"

  const Bulbasaur := Pokemon(1, "Bulbasaur", ArtworkBase + "1.png", [PokemonType(12, "Grass"), PokemonType(4, "Poison")])
  const Charmander := Pokemon(4, "Charmander", ArtworkBase + "4.png", [PokemonType(10, "Fire")])
  const Squirtle := Pokemon(7, "Squirtle", ArtworkBase + "7.png", [PokemonType(11, "Water")])

  const MockPokemons: seq<Pokemon> := [Bulbasaur, Charmander, Squirtle]

  const MockTypes: seq<PokemonType> :=
    [PokemonType(1, "Normal"), PokemonType(10, "Fire"), PokemonType(11, "Water"),
     PokemonType(12, "Grass"), PokemonType(4, "Poison")]

  /** The ids of a list of entries, in list order. */
  function Ids(ps: seq<Pokemon>): (r: seq<int>)
    ensures |r| == |ps| && forall i :: 0 <= i < |ps| ==> r[i] == ps[i].id
  {
    seq(|ps|, i requires 0 <= i < |ps| => ps[i].id)
  }

  lemma {:induction false} IdsOfSubsequence(a: seq<Pokemon>, b: seq<Pokemon>)
    requires IsSubsequence(a, b)
    ensures IsSubsequence(Ids(a), Ids(b))
    decreases |b|
  {
    if a != [] {
      assert Ids(b)[1..] == Ids(b[1..]);
      if a[0] == b[0] {
        assert Ids(a)[1..] == Ids(a[1..]);
        IdsOfSubsequence(a[1..], b[1..]);
      } else {
        IdsOfSubsequence(a, b[1..]);
        SubsequenceCons(Ids(a), Ids(b)[1..], Ids(b)[0]);
        assert [Ids(b)[0]] + Ids(b)[1..] == Ids(b);
      }
    }
  }

  /** No two entries of the mock catalogue share an id. */
  lemma MockIdsDistinct()
    ensures NoDuplicates(Ids(MockPokemons))
  {
    assert Ids(MockPokemons) == [1, 4, 7];
  }

  // ---------------------------------------------------------------------------
  // Number rendering (`Number.prototype.toString()` on integers)

  function DigitChar(d: nat): (c: char)
    requires d < 10
  {
    "0123456789"[d]
  }

  function NatToDecimal(n: nat): (r: string)
    ensures |r| >= 1 && forall i :: 0 <= i < |r| ==> '0' <= r[i] <= '9'
  {
    if n < 10 then [DigitChar(n)] else NatToDecimal(n / 10) + [DigitChar(n % 10)]
  }

  /** The decimal rendering of an integer, with a leading `-` when negative. */
  function IntToDecimal(i: int): (r: string)
  {
    if i < 0 then "-" + NatToDecimal(-i) else NatToDecimal(i)
  }

  /** The value of a string of decimal digits. */
  function DigitsValue(s: string): (v: nat)
    requires forall i :: 0 <= i < |s| ==> '0' <= s[i] <= '9'
  {
    if s == [] then 0
    else DigitsValue(s[..|s| - 1]) * 10 + (s[|s| - 1] as int - '0' as int)
  }

  /** Reads back an integer written by IntToDecimal. */
  function ParseDecimal(s: string): int
    requires |s| >= 1
    requires forall i :: (if s[0] == '-' then 1 else 0) <= i < |s| ==> '0' <= s[i] <= '9'
  {
    if s[0] == '-' then 0 - DigitsValue(s[1..]) else DigitsValue(s)
  }

  lemma DigitCharValue(d: nat)
    requires d < 10
    ensures DigitChar(d) as int - '0' as int == d
  {
  }

  lemma {:induction false} NatToDecimalRoundTrip(n: nat)
    ensures DigitsValue(NatToDecimal(n)) == n
  {
    var r := NatToDecimal(n);
    if n < 10 {
      DigitCharValue(n);
      assert r[..0] == [];
    } else {
      var front := NatToDecimal(n / 10);
      assert r == front + [DigitChar(n % 10)];
      NatToDecimalRoundTrip(n / 10);
      assert r[..|r| - 1] == front;
      DigitCharValue(n % 10);
    }
  }

  /** A minus sign in front of a digit string reads back as the negated value. */
  lemma ParseNegative(digits: string)
    requires |digits| >= 1 && forall i :: 0 <= i < |digits| ==> '0' <= digits[i] <= '9'
    ensures var s := "-" + digits;
      && (forall i :: 1 <= i < |s| ==> '0' <= s[i] <= '9')
      && ParseDecimal(s) == 0 - DigitsValue(digits)
  {
    var s := "-" + digits;
    assert s[1..] == digits;
    assert forall i :: 1 <= i < |s| ==> s[i] == digits[i - 1];
  }

  /** Rendering an integer loses nothing: two different integers render differently. */
  lemma IntToDecimalRoundTrip(i: int)
    ensures |IntToDecimal(i)| >= 1
    ensures ParseDecimal(IntToDecimal(i)) == i
  {
    if i < 0 {
      NatToDecimalRoundTrip(-i);
      ParseNegative(NatToDecimal(-i));
    } else {
      NatToDecimalRoundTrip(i);
    }
  }

  // ---------------------------------------------------------------------------
  // The query-parameter list of a listing request

  /** JavaScript truthiness of a `string | number` (NaN is not modelled). */
  predicate Truthy(a: Arg) {
    match a
    case Num(n) => n != 0
    case Str(s) => s != ""
  }

  /** `a.toString()`. */
  function ArgToString(a: Arg): string {
    match a
    case Num(n) => IntToDecimal(n)
    case Str(s) => s
  }

  /** How many pairs precede the `types` pairs. */
  function FixedParamCount(q: ListQuery): (k: nat)
    ensures 2 <= k <= 4
  {
    2 + (if q.name != "" then 1 else 0) + (if Truthy(q.typeId) then 1 else 0)
  }

  /** The layout of the parameter list: `page`, then `limit`, then `name` when
      the name is non-empty, then `typeId` when it is truthy, then one `types`
      pair per selected type, in selection order. */
  predicate ParamsLayout(q: ListQuery, params: seq<(string, string)>) {
    var k := FixedParamCount(q);
    && |params| == k + |q.types|
    && params[0] == ("page", IntToDecimal(q.page))
    && params[1] == ("limit", IntToDecimal(q.limit))
    && (q.name != "" ==> params[2] == ("name", q.name))
    && (Truthy(q.typeId) ==> params[k - 1] == ("typeId", ArgToString(q.typeId)))
    && forall i :: 0 <= i < |q.types| ==> params[k + i] == ("types", ArgToString(q.types[i]))
  }

  /** Builds the `URLSearchParams` of a listing request, one `append` at a time. */
  method BuildParams(q: ListQuery) returns (params: seq<(string, string)>)
    ensures ParamsLayout(q, params)
  {
    params := [];
    params := params + [("page", IntToDecimal(q.page))];
    params := params + [("limit", IntToDecimal(q.limit))];
    if q.name != "" {
      params := params + [("name", q.name)];
    }
    if Truthy(q.typeId) {
      params := params + [("typeId", ArgToString(q.typeId))];
    }
    var k := |params|;
    if |q.types| > 0 {
      var i := 0;
      while i < |q.types|
        invariant 0 <= i <= |q.types|
        invariant |params| == k + i
        invariant forall j :: 0 <= j < i ==> params[k + j] == ("types", ArgToString(q.types[j]))
        invariant params[0] == ("page", IntToDecimal(q.page)) && params[1] == ("limit", IntToDecimal(q.limit))
        invariant q.name != "" ==> params[2] == ("name", q.name)
        invariant Truthy(q.typeId) ==> params[k - 1] == ("typeId", ArgToString(q.typeId))
      {
        params := params + [("types", ArgToString(q.types[i]))];
        i := i + 1;
      }
    }
  }

  /** What the layout says of one position of the list. */
  lemma ParamAt(q: ListQuery, params: seq<(string, string)>, i: int)
    requires ParamsLayout(q, params) && 0 <= i < |params|
    ensures var k := FixedParamCount(q);
      && (i >= k ==> params[i] == ("types", ArgToString(q.types[i - k])))
      && (i < k ==> !IsTypesPair(params[i]))
      && (i < k && params[i].0 == "name" ==> q.name != "" && params[i] == ("name", q.name))
      && (i < k && params[i].0 == "typeId" ==> Truthy(q.typeId) && params[i] == ("typeId", ArgToString(q.typeId)))
  {
    var k := FixedParamCount(q);
    if i >= k {
      assert params[k + (i - k)] == ("types", ArgToString(q.types[i - k]));
    } else if i >= 2 {
      if q.name != "" && i == 2 {
        assert params[i] == ("name", q.name);
      } else {
        assert params[i] == ("typeId", ArgToString(q.typeId));
      }
    }
  }

  /** The parameter layout fixes the list: there is only one list it describes. */
  lemma ParamsLayoutUnique(q: ListQuery, a: seq<(string, string)>, b: seq<(string, string)>)
    requires ParamsLayout(q, a) && ParamsLayout(q, b)
    ensures a == b
  {
    forall i | 0 <= i < |a| ensures a[i] == b[i] {
      ParamAt(q, a, i);
      ParamAt(q, b, i);
    }
  }

  predicate IsTypesPair(kv: (string, string)) {
    kv.0 == "types"
  }

  /** One `types` pair per selected type, in selection order. */
  function TypesPairs(types: seq<Arg>): (r: seq<(string, string)>)
    ensures |r| == |types| && forall i :: 0 <= i < |types| ==> r[i] == ("types", ArgToString(types[i]))
  {
    seq(|types|, i requires 0 <= i < |types| => ("types", ArgToString(types[i])))
  }

  /** `name` and `typeId` pairs appear only when their argument is given. */
  lemma ParamsOptionalKeys(q: ListQuery, params: seq<(string, string)>)
    requires ParamsLayout(q, params)
    ensures forall i :: 0 <= i < |params| && params[i].0 == "name" ==> q.name != "" && params[i].1 == q.name
    ensures forall i :: 0 <= i < |params| && params[i].0 == "typeId" ==> Truthy(q.typeId)
  {
    forall i | 0 <= i < |params| && params[i].0 in {"name", "typeId"}
      ensures params[i].0 == "name" ==> q.name != "" && params[i].1 == q.name
      ensures params[i].0 == "typeId" ==> Truthy(q.typeId)
    {
      ParamAt(q, params, i);
    }
  }

  lemma FixedParamsHaveNoTypes(q: ListQuery, params: seq<(string, string)>)
    requires ParamsLayout(q, params)
    ensures forall kv :: kv in params[..FixedParamCount(q)] ==> !IsTypesPair(kv)
  {
    var head := params[..FixedParamCount(q)];
    forall kv | kv in head ensures !IsTypesPair(kv) {
      var j :| 0 <= j < |head| && head[j] == kv;
      ParamAt(q, params, j);
    }
  }

  lemma TrailingParamsAreTypes(q: ListQuery, params: seq<(string, string)>)
    requires ParamsLayout(q, params)
    ensures params[FixedParamCount(q)..] == TypesPairs(q.types)
  {
    var k := FixedParamCount(q);
    forall j | 0 <= j < |q.types| ensures params[k..][j] == TypesPairs(q.types)[j] {
      ParamAt(q, params, k + j);
    }
  }

  /** The `types` pairs are exactly one per selected type, in selection order. */
  lemma ParamsTypesPairs(q: ListQuery, params: seq<(string, string)>)
    requires ParamsLayout(q, params)
    ensures Filter(params, IsTypesPair) == TypesPairs(q.types)
  {
    var k := FixedParamCount(q);
    var head, tail := params[..k], params[k..];
    assert params == head + tail;
    FilterAppend(head, tail, IsTypesPair);
    FixedParamsHaveNoTypes(q, params);
    FilterKeepsNone(head, IsTypesPair);
    TrailingParamsAreTypes(q, params);
    TypesPairsAreTypes(q.types);
    FilterKeepsAll(tail, IsTypesPair);
  }

  lemma TypesPairsAreTypes(types: seq<Arg>)
    ensures forall kv :: kv in TypesPairs(types) ==> IsTypesPair(kv)
  {
    var r := TypesPairs(types);
    forall kv | kv in r ensures IsTypesPair(kv) {
      var j :| 0 <= j < |r| && r[j] == kv;
    }
  }

  // ---------------------------------------------------------------------------
  // Searching the catalogue

  /** ASCII `toLowerCase` of one character. */
  function LowerChar(c: char): char {
    if 'A' <= c <= 'Z' then (c as int + 32) as char else c
  }

  function ToLower(s: string): string {
    seq(|s|, i requires 0 <= i < |s| => LowerChar(s[i]))
  }

  lemma ToLowerIdempotent(s: string)
    ensures ToLower(ToLower(s)) == ToLower(s)
  {
  }

  /** `text.includes(part)`: `part` occurs in `text` at some position. */
  function Includes(text: string, part: string): (b: bool)
    decreases |text|
  {
    if |part| > |text| then false
    else if text[..|part|] == part then true
    else Includes(text[1..], part)
  }

  /** `part` occurs in `text` starting at index `i`. */
  predicate OccursAt(text: string, part: string, i: int) {
    0 <= i <= |text| - |part| && text[i..i + |part|] == part
  }

  /** An occurrence in the text without its first character is an occurrence one further on. */
  lemma OccursShift(text: string, part: string, i: int)
    requires |text| >= 1 && i >= 0
    ensures OccursAt(text[1..], part, i) <==> OccursAt(text, part, i + 1)
  {
    if 0 <= i <= |text| - 1 - |part| {
      assert text[1..][i..i + |part|] == text[i + 1..i + 1 + |part|];
    }
  }

  lemma {:induction false} IncludesAt(text: string, part: string)
    ensures Includes(text, part) <==> exists i :: OccursAt(text, part, i)
    decreases |text|
  {
    if |part| > |text| {
      assert forall i :: !OccursAt(text, part, i);
    } else if text[..|part|] == part {
      assert OccursAt(text, part, 0);
    } else {
      assert Includes(text, part) == Includes(text[1..], part);
      IncludesAt(text[1..], part);
      if Includes(text, part) {
        var i :| OccursAt(text[1..], part, i);
        OccursShift(text, part, i);
      } else {
        forall i | OccursAt(text, part, i) ensures false {
          if i > 0 {
            OccursShift(text, part, i - 1);
          }
        }
      }
    }
  }

  /** The entry's name contains the query, ignoring (ASCII) case. */
  predicate NameMatches(p: Pokemon, name: string) {
    Includes(ToLower(p.name), ToLower(name))
  }

  /** One of the entry's type ids equals, strictly, one of the selected types. */
  predicate HasSelectedType(p: Pokemon, types: seq<Arg>) {
    exists t :: t in p.types && Num(t.id) in types
  }

  /** The search condition: both filters, each applying only when its argument is given. */
  predicate Matches(p: Pokemon, name: string, types: seq<Arg>) {
    (name == "" || NameMatches(p, name)) && (types == [] || HasSelectedType(p, types))
  }

  /** The entries of `catalogue` that match, in catalogue order. */
  function Search(catalogue: seq<Pokemon>, name: string, types: seq<Arg>): (r: seq<Pokemon>)
    ensures IsSubsequence(r, catalogue)
    ensures forall p :: p in r <==> p in catalogue && Matches(p, name, types)
    ensures forall p :: multiset(r)[p] == if Matches(p, name, types) then multiset(catalogue)[p] else 0
  {
    FilterSubsequence(catalogue, (p: Pokemon) => Matches(p, name, types));
    FilterMultiset(catalogue, (p: Pokemon) => Matches(p, name, types));
    Filter(catalogue, (p: Pokemon) => Matches(p, name, types))
  }

  /** `fetchPokemons`: builds the (unsent) parameter list, then filters the mock
      catalogue by name and by types, reassigning the working list. */
  method FetchPokemons(q: ListQuery) returns (params: seq<(string, string)>, response: PokemonsResponse)
    ensures ParamsLayout(q, params)
    ensures response.data == Search(MockPokemons, q.name, q.types)
    ensures response.count == |response.data|
  {
    params := BuildParams(q);
    var byName := (p: Pokemon) => NameMatches(p, q.name);
    var byTypes := (p: Pokemon) => HasSelectedType(p, q.types);
    var filtered := MockPokemons;
    if q.name != "" {
      filtered := Filter(filtered, byName);
    }
    if |q.types| > 0 {
      filtered := Filter(filtered, byTypes);
    }
    var matches := (p: Pokemon) => Matches(p, q.name, q.types);
    if q.name != "" && |q.types| > 0 {
      FilterTwice(MockPokemons, byName, byTypes, matches);
    } else if q.name != "" {
      FilterCongruent(MockPokemons, byName, matches);
    } else if |q.types| > 0 {
      FilterCongruent(MockPokemons, byTypes, matches);
    } else {
      FilterKeepsAll(MockPokemons, matches);
    }
    response := PokemonsResponse(filtered, |filtered|);
  }

  /** With an empty name and no types the whole catalogue is returned. */
  lemma SearchAll(catalogue: seq<Pokemon>)
    ensures Search(catalogue, "", []) == catalogue
  {
    FilterKeepsAll(catalogue, (p: Pokemon) => Matches(p, "", []));
  }

  /** Only which types are selected matters, not their order or repetition. */
  lemma SearchTypeOrderIrrelevant(catalogue: seq<Pokemon>, name: string, t1: seq<Arg>, t2: seq<Arg>)
    requires forall a :: a in t1 <==> a in t2
    ensures Search(catalogue, name, t1) == Search(catalogue, name, t2)
  {
    if t1 != [] {
      assert t1[0] in t2;
    }
    if t2 != [] {
      assert t2[0] in t1;
    }
    FilterCongruent(catalogue, (p: Pokemon) => Matches(p, name, t1), (p: Pokemon) => Matches(p, name, t2));
  }

  /** The query's letter case does not matter. */
  lemma SearchIgnoresCase(catalogue: seq<Pokemon>, name: string, types: seq<Arg>)
    ensures Search(catalogue, name, types) == Search(catalogue, ToLower(name), types)
  {
    ToLowerIdempotent(name);
    FilterCongruent(catalogue, (p: Pokemon) => Matches(p, name, types), (p: Pokemon) => Matches(p, ToLower(name), types));
  }

  /** Type ids are compared strictly: a selection made only of strings matches nothing. */
  lemma SearchStringTypesMatchNothing(catalogue: seq<Pokemon>, name: string, types: seq<Arg>)
    requires types != [] && forall a :: a in types ==> a.Str?
    ensures Search(catalogue, name, types) == []
  {
    FilterKeepsNone(catalogue, (p: Pokemon) => Matches(p, name, types));
  }

  /** Entries found in the mock catalogue never share an id. */
  lemma MockSearchIdsDistinct(name: string, types: seq<Arg>)
    ensures NoDuplicates(Ids(Search(MockPokemons, name, types)))
  {
    var r := Search(MockPokemons, name, types);
    IdsOfSubsequence(r, MockPokemons);
    MockIdsDistinct();
    SubsequenceNoDuplicates(Ids(r), Ids(MockPokemons));
  }

  // ---------------------------------------------------------------------------
  // Looking up one entry

  /** The position of the first entry with the id, or the length when there is none. */
  function FirstIndexOf(catalogue: seq<Pokemon>, id: int): (k: nat)
    ensures k <= |catalogue|
    ensures forall j :: 0 <= j < k ==> catalogue[j].id != id
    ensures k < |catalogue| ==> catalogue[k].id == id
    decreases |catalogue|
  {
    if catalogue == [] || catalogue[0].id == id then 0
    else
      var k := FirstIndexOf(catalogue[1..], id);
      assert forall j :: 1 <= j <= k ==> catalogue[j] == catalogue[1..][j - 1];
      1 + k
  }

  /** `catalogue.find(p => p.id === id)`: nothing exactly when no entry has the
      id, and otherwise the first entry that has it. */
  function FindById(catalogue: seq<Pokemon>, id: int): (r: Option<Pokemon>)
    ensures r.None? <==> id !in Ids(catalogue)
    ensures r.Some? ==> r.value.id == id
    ensures r.Some? ==>
      exists i :: 0 <= i < |catalogue| && catalogue[i] == r.value && forall j :: 0 <= j < i ==> catalogue[j].id != id
  {
    var k := FirstIndexOf(catalogue, id);
    if k < |catalogue| then
      assert Ids(catalogue)[k] == id;
      Some(catalogue[k])
    else
      None
  }

  const DefaultStats: seq<PokemonStat> :=
    [PokemonStat("hp", 45), PokemonStat("attack", 49), PokemonStat("defense", 49),
     PokemonStat("special-attack", 65), PokemonStat("special-defense", 65), PokemonStat("speed", 45)]

  /** The entries other than the requested one, in catalogue order. */
  function OtherEntries(catalogue: seq<Pokemon>, id: int): (r: seq<Pokemon>)
    ensures IsSubsequence(r, catalogue)
    ensures forall p :: p in r <==> p in catalogue && p.id != id
    ensures forall p :: multiset(r)[p] == if p.id != id then multiset(catalogue)[p] else 0
  {
    FilterSubsequence(catalogue, (p: Pokemon) => p.id != id);
    FilterMultiset(catalogue, (p: Pokemon) => p.id != id);
    Filter(catalogue, (p: Pokemon) => p.id != id)
  }

  function Min(a: int, b: int): int {
    if a <= b then a else b
  }

  /** The detail record for `id`: the entry's own fields with the fixed stats,
      height 7, weight 69 and the first two other entries as evolutions, or a
      placeholder record when no entry has that id. */
  function LookupById(catalogue: seq<Pokemon>, id: int): (d: PokemonDetail)
    ensures d.id == id && d.stats == DefaultStats
    ensures |d.evolutions| <= 2
    ensures forall e :: e in d.evolutions ==> e in catalogue && e.id != id
    ensures d.evolutions <= OtherEntries(catalogue, id)
    ensures id in Ids(catalogue) ==>
      var p := FindById(catalogue, id).value;
      && d.name == p.name && d.image == p.image && d.types == p.types
      && d.height == 7 && d.weight == 69
      && |d.evolutions| == Min(2, |OtherEntries(catalogue, id)|)
    ensures id !in Ids(catalogue) ==>
      && d.name == "Unknown Pokemon" && d.image == "/placeholder.png"
      && d.types == [] && d.evolutions == [] && d.height == 0 && d.weight == 0
  {
    match FindById(catalogue, id)
    case None =>
      PokemonDetail(id, "Unknown Pokemon", "/placeholder.png", [], DefaultStats, [], 0, 0)
    case Some(p) =>
      var others := OtherEntries(catalogue, id);
      var evolutions := others[..Min(2, |others|)];
      assert forall e :: e in evolutions ==> e in others;
      PokemonDetail(p.id, p.name, p.image, p.types, DefaultStats, evolutions, 7, 69)
  }

  /** `fetchPokemonById` over the mock catalogue. */
  function FetchPokemonById(id: int): (d: PokemonDetail)
    ensures d.id == id
  {
    LookupById(MockPokemons, id)
  }

  /** Exactly the three catalogue ids resolve to a real entry. */
  lemma FetchPokemonByIdResolves(id: int)
    ensures FetchPokemonById(id).name != "Unknown Pokemon" <==> id in {1, 4, 7}
  {
    assert Ids(MockPokemons) == [1, 4, 7];
    if id in {1, 4, 7} {
      assert FindById(MockPokemons, id).value in MockPokemons;
    }
  }

  /** A filter over the mock catalogue, one entry at a time. */
  lemma FilterMock(keep: Pokemon -> bool)
    ensures Filter(MockPokemons, keep) ==
      (if keep(Bulbasaur) then [Bulbasaur] else []) + Filter([Charmander, Squirtle], keep)
    ensures Filter([Charmander, Squirtle], keep) ==
      (if keep(Charmander) then [Charmander] else []) + (if keep(Squirtle) then [Squirtle] else [])
  {
    FilterTriple(Bulbasaur, Charmander, Squirtle, keep);
    FilterPair(Charmander, Squirtle, keep);
    FilterSingleton(Squirtle, keep);
  }

  /** Where each mock id sits in the catalogue. */
  lemma MockPositions()
    ensures FirstIndexOf(MockPokemons, 1) == 0
    ensures FirstIndexOf(MockPokemons, 4) == 1
    ensures FirstIndexOf(MockPokemons, 7) == 2
  {
    var tail := [Charmander, Squirtle];
    assert MockPokemons[1..] == tail && tail[1..] == [Squirtle];
    assert FirstIndexOf([Squirtle], 7) == 0;
    assert FirstIndexOf(tail, 7) == 1;
  }

  /** Each entry's evolutions are the other two entries, in catalogue order. */
  lemma FetchBulbasaurEvolutions()
    ensures FetchPokemonById(1).evolutions == [Charmander, Squirtle]
  {
    MockPositions();
    FilterMock((p: Pokemon) => p.id != 1);
  }

  lemma FetchCharmanderEvolutions()
    ensures FetchPokemonById(4).evolutions == [Bulbasaur, Squirtle]
  {
    MockPositions();
    FilterMock((p: Pokemon) => p.id != 4);
  }

  lemma FetchSquirtleEvolutions()
    ensures FetchPokemonById(7).evolutions == [Bulbasaur, Charmander]
  {
    MockPositions();
    FilterMock((p: Pokemon) => p.id != 7);
  }

  /** `fetchPokemonTypes`: the mock type list. Every type an entry of the
      catalogue carries is listed, with the same name, and no id is listed twice. */
  function FetchPokemonTypes(): (r: seq<PokemonType>)
    ensures forall p, t :: p in MockPokemons && t in p.types ==> t in r
    ensures forall i, j :: 0 <= i < j < |r| ==> r[i].id != r[j].id
  {
    MockTypes
  }
}
