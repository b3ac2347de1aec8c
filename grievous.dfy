/**
 * grievous_related_characters.py: find General Grievous, gather every
 * character of the films he appears in, enrich each character through a
 * URL-keyed response cache, and keep the non-droids seen in two films or more.
 *
 * Every function below is the meaning of one cached step, stated on the
 * oracle through `Resolve`; the method of the same step runs it against a
 * `Cache` and is proved to compute that meaning.
 */
module Grievous {
  import opened Py
  import opened Remote
  import opened Seqs

  const SearchUrl: string := "https://swapi.dev/api/people/?search=grievous"

  /** What `get_cached(url)` answers: the decoded body of a successful fetch, otherwise `None`. */
  function Resolve(api: Api, url: Json): Json {
    match Request(api, url)
    case Ok(body) => body
    case Fail => JNull
  }

  // ---------------------------------------------------------------- the cache

  /** The module-level `cache` dict together with `get_cached`. */
  class Cache {
    /** URL to decoded body, for the fetches that succeeded. */
    var entries: map<Json, Json>
    /** How many requests have been sent. */
    ghost var fetches: nat

    /** Every stored body is what its URL answers. */
    ghost predicate Valid(api: Api)
      reads this
    {
      forall u :: u in entries ==> Request(api, u) == Ok(entries[u])
    }

    /** Every entry of `before` is still stored, unchanged: the cache only grows. */
    ghost predicate Keeps(before: map<Json, Json>)
      reads this
    {
      forall u :: u in before ==> u in entries && entries[u] == before[u]
    }

    /**
     * The state after one `get_cached(url)` from `before` and `sent`
     * requests: a hit changes nothing, a miss sends one request and
     * stores the body only on success.
     */
    ghost predicate LookedUp(api: Api, before: map<Json, Json>, sent: nat, url: Json)
      reads this
    {
      && entries == (if url in before || Request(api, url).Fail? then before else before[url := Request(api, url).body])
      && fetches == sent + (if url in before then 0 else 1)
    }

    constructor ()
      ensures entries == map[] && fetches == 0
    {
      entries := map[];
      fetches := 0;
    }

    /**
     * `get_cached`: a stored URL is answered from the cache without a
     * request; otherwise one request is sent and only a success is stored,
     * so a failed URL is requested again on its next lookup.
     */
    method GetCached(api: Api, url: Json) returns (r: Json)
      requires Valid(api)
      modifies this
      ensures Valid(api)
      ensures r == Resolve(api, url)
      ensures url in old(entries) ==> r == old(entries)[url] && entries == old(entries) && fetches == old(fetches)
      ensures url !in old(entries) ==>
        && fetches == old(fetches) + 1
        && entries == (if Request(api, url).Ok? then old(entries)[url := Request(api, url).body] else old(entries))
    {
      if url in entries {
        return entries[url];
      }
      fetches := fetches + 1;
      var res := Request(api, url);
      if res.Ok? {
        entries := entries[url := res.body];
        return res.body;
      }
      return JNull;
    }
  }

  // ---------------------------------------------------------------- Grievous himself

  /** `get_grievous_data`: the first search result when the search reports a positive count. */
  function GrievousData(api: Api): (r: Outcome<Json>)
    ensures !Truthy(Resolve(api, JStr(SearchUrl))) ==> r == Returned(JNull)
    ensures var resp := Resolve(api, JStr(SearchUrl));
      Truthy(resp) && resp.JObj? && "count" !in resp.fields ==> r == Returned(JNull)
    ensures var resp := Resolve(api, JStr(SearchUrl));
      (Truthy(resp) && resp.JObj? && Field(resp.fields, "count", JNull).JNum? && Field(resp.fields, "count", JNull).n <= 0)
      ==> r == Returned(JNull)
    ensures var resp := Resolve(api, JStr(SearchUrl));
      (&& resp.JObj? && Field(resp.fields, "count", JNull).JNum? && Field(resp.fields, "count", JNull).n > 0
       && Field(resp.fields, "results", JNull).JArr? && Field(resp.fields, "results", JNull).elems != [])
      ==> r == Returned(resp.fields["results"].elems[0])
  {
    var resp := Resolve(api, JStr(SearchUrl));
    if !Truthy(resp) then Returned(JNull)
    else
      var count :- Get(resp, "count", JNum(0));
      var found :- Greater(count, JNum(0));
      if found then
        var results :- Subscript(resp, "results");
        Index0(results)
      else Returned(JNull)
  }

  method GetGrievousData(api: Api, cache: Cache) returns (r: Outcome<Json>)
    requires cache.Valid(api)
    modifies cache
    ensures cache.Valid(api)
    ensures cache.LookedUp(api, old(cache.entries), old(cache.fetches), JStr(SearchUrl))
    ensures r == GrievousData(api)
  {
    var resp := cache.GetCached(api, JStr(SearchUrl));
    if !Truthy(resp) {
      return Returned(JNull);
    }
    var count := Get(resp, "count", JNum(0));
    if count.Raised? {
      return Raised;
    }
    var found := Greater(count.value, JNum(0));
    if found.Raised? {
      return Raised;
    }
    if !found.value {
      return Returned(JNull);
    }
    var results := Subscript(resp, "results");
    if results.Raised? {
      return Raised;
    }
    return Index0(results.value);
  }

  // ---------------------------------------------------------------- related characters

  /** The characters one film adds to the set: none when its fetch fails or is falsy. */
  function FilmCharacters(api: Api, filmUrl: Json): Outcome<set<Json>> {
    var data := Resolve(api, filmUrl);
    if !Truthy(data) then Returned({})
    else
      var chars :- Get(data, "characters", JArr([]));
      var xs :- Iter(chars);
      Returned(set x | x in xs)
  }

  function FilmCharactersAttempt(api: Api): Json -> Outcome<set<Json>> {
    u => FilmCharacters(api, u)
  }

  /** The set `character_urls` after the loop has visited `films`. */
  function CharacterUnion(api: Api, films: seq<Json>): Outcome<set<Json>> {
    Union(FilmCharactersAttempt(api), films)
  }

  /** The set behind `get_related_character_urls`, before it becomes a list. */
  function RelatedUrls(api: Api, grievous: Json): Outcome<set<Json>> {
    var field :- Get(grievous, "films", JArr([]));
    var films :- Iter(field);
    CharacterUnion(api, films)
  }

  /**
   * The union raises exactly when one film's characters cannot be read, and
   * otherwise holds exactly the characters of the films that resolved.
   */
  lemma CharacterUnionSpec(api: Api, films: seq<Json>)
    ensures CharacterUnion(api, films).Raised? <==>
      exists i :: 0 <= i < |films| && FilmCharacters(api, films[i]).Raised?
    ensures CharacterUnion(api, films).Returned? ==>
      forall x :: x in CharacterUnion(api, films).value <==>
        exists i :: 0 <= i < |films| && x in FilmCharacters(api, films[i]).value
  {
    UnionSpec(FilmCharactersAttempt(api), films);
  }

  /** A film that fails to fetch adds no character. */
  lemma FailedFilmAddsNothing(api: Api, filmUrl: Json)
    requires Request(api, filmUrl).Fail?
    ensures FilmCharacters(api, filmUrl) == Returned({})
  {
  }

  /** A film that resolves to a dict adds exactly the entries of its `characters` list. */
  lemma FilmAddsItsCharacters(api: Api, filmUrl: Json, m: map<string, Json>, chars: seq<Json>)
    requires Request(api, filmUrl) == Ok(JObj(m)) && m != map[]
    requires Field(m, "characters", JArr([])) == JArr(chars)
    ensures FilmCharacters(api, filmUrl).Returned?
    ensures forall x :: x in FilmCharacters(api, filmUrl).value <==> x in chars
  {
  }

  /** One turn of the loop over the films: the union grows by that film's characters. */
  lemma CharacterStep(api: Api, films: seq<Json>, i: nat, urls: set<Json>)
    requires i < |films| && CharacterUnion(api, films[..i]) == Returned(urls)
    ensures CharacterUnion(api, films[..i + 1]) ==
      match FilmCharacters(api, films[i])
      case Raised => Raised
      case Returned(x) => Returned(urls + x)
  {
    UnionStep(FilmCharactersAttempt(api), films, i);
  }

  /** One turn of the loop in `get_related_character_urls`: the lookup of one film and the characters it adds. */
  method FetchFilmCharacters(api: Api, cache: Cache, filmUrl: Json) returns (r: Outcome<set<Json>>)
    requires cache.Valid(api)
    modifies cache
    ensures cache.Valid(api)
    ensures cache.LookedUp(api, old(cache.entries), old(cache.fetches), filmUrl)
    ensures r == FilmCharacters(api, filmUrl)
  {
    var data := cache.GetCached(api, filmUrl);
    if !Truthy(data) {
      return Returned({});
    }
    var chars := Get(data, "characters", JArr([]));
    if chars.Raised? {
      return Raised;
    }
    var xs := Iter(chars.value);
    if xs.Raised? {
      return Raised;
    }
    return Returned(set x | x in xs.value);
  }

  /** `get_related_character_urls`: the union as a list, each URL once, in no particular order. */
  method GetRelatedCharacterUrls(api: Api, cache: Cache, grievous: Json) returns (r: Outcome<seq<Json>>)
    requires cache.Valid(api)
    modifies cache
    ensures cache.Valid(api)
    ensures cache.Keeps(old(cache.entries))
    ensures old(cache.fetches) <= cache.fetches
    ensures var field := Get(grievous, "films", JArr([]));
      field.Returned? && Iter(field.value).Returned? ==> cache.fetches <= old(cache.fetches) + |Iter(field.value).value|
    ensures r.Raised? <==> RelatedUrls(api, grievous).Raised?
    ensures r.Returned? ==>
      && Distinct(r.value)
      && forall x :: x in r.value <==> x in RelatedUrls(api, grievous).value
  {
    var field := Get(grievous, "films", JArr([]));
    if field.Raised? {
      return Raised;
    }
    var films := Iter(field.value);
    if films.Raised? {
      return Raised;
    }
    var urls: set<Json> := {};
    for i := 0 to |films.value|
      invariant cache.Valid(api)
      invariant CharacterUnion(api, films.value[..i]) == Returned(urls)
      invariant cache.Keeps(old(cache.entries))
      invariant old(cache.fetches) <= cache.fetches <= old(cache.fetches) + i
    {
      var adds := FetchFilmCharacters(api, cache, films.value[i]);
      CharacterStep(api, films.value, i, urls);
      if adds.Raised? {
        UnionPrefixRaised(FilmCharactersAttempt(api), films.value, i + 1);
        return Raised;
      }
      urls := urls + adds.value;
    }
    assert films.value[..|films.value|] == films.value;
    var list := ListOfSet(urls);
    return Returned(list);
  }

  // ---------------------------------------------------------------- species and films

  /** `fetch_species_name`: the name of the first species only; `None` without one or when it fails. */
  function SpeciesName(api: Api, refs: Json): (r: Outcome<Json>)
    ensures !Truthy(refs) ==> r == Returned(JNull)
    ensures refs.JArr? && refs.elems != [] && Request(api, refs.elems[0]).Fail? ==> r == Returned(JNull)
    ensures refs.JArr? && refs.elems != [] && Request(api, refs.elems[0]).Ok? ==>
      var body := Request(api, refs.elems[0]).body;
      body.JObj? && body.fields != map[] ==> r == Returned(Field(body.fields, "name", JNull))
  {
    if !Truthy(refs) then Returned(JNull)
    else
      var first :- Index0(refs);
      var data := Resolve(api, first);
      if Truthy(data) then Get(data, "name", JNull) else Returned(JNull)
  }

  method FetchSpeciesName(api: Api, cache: Cache, refs: Json) returns (r: Outcome<Json>)
    requires cache.Valid(api)
    modifies cache
    ensures cache.Valid(api)
    ensures Truthy(refs) && Index0(refs).Returned? ==>
      cache.LookedUp(api, old(cache.entries), old(cache.fetches), Index0(refs).value)
    ensures !(Truthy(refs) && Index0(refs).Returned?) ==>
      cache.entries == old(cache.entries) && cache.fetches == old(cache.fetches)
    ensures r == SpeciesName(api, refs)
  {
    if !Truthy(refs) {
      return Returned(JNull);
    }
    var first := Index0(refs);
    if first.Raised? {
      return Raised;
    }
    var data := cache.GetCached(api, first.value);
    if Truthy(data) {
      return Get(data, "name", JNull);
    }
    return Returned(JNull);
  }

  /** One element of the comprehension in `fetch_film_titles`: skipped when the film's lookup is falsy. */
  function FilmTitle(api: Api, url: Json): Outcome<Option<Json>> {
    var data := Resolve(api, url);
    if !Truthy(data) then Returned(None)
    else
      var title :- Get(data, "title", JNull);
      Returned(Some(title))
  }

  function FilmTitleAttempt(api: Api): Json -> Outcome<Option<Json>> {
    u => FilmTitle(api, u)
  }

  /** `fetch_film_titles`. */
  function FilmTitles(api: Api, films: Json): Outcome<seq<Json>> {
    var urls :- Iter(films);
    Collect(FilmTitleAttempt(api), urls)
  }

  /**
   * The titles are those of the films whose lookup is truthy, in the order of
   * the URLs; a film that fails to fetch is dropped, so there are at most as
   * many titles as URLs.
   */
  lemma FilmTitlesSpec(api: Api, films: Json)
    requires FilmTitles(api, films).Returned?
    ensures Iter(films).Returned?
    ensures var urls, r, h := Iter(films).value, FilmTitles(api, films).value, Hits(FilmTitleAttempt(api), Iter(films).value);
      && |r| == |h| <= |urls|
      && StrictlyIncreasing(h)
      && (forall k :: 0 <= k < |h| ==> h[k] < |urls| && Get(Resolve(api, urls[h[k]]), "title", JNull) == Returned(r[k]))
      && (forall i :: 0 <= i < |urls| ==> (i in h <==> Truthy(Resolve(api, urls[i]))))
  {
    var urls := Iter(films).value;
    CollectSpec(FilmTitleAttempt(api), urls);
    CollectRaised(FilmTitleAttempt(api), urls);
  }

  /** One turn of the loop over the film URLs: a title is appended when the film yields one. */
  lemma TitleStep(api: Api, urls: seq<Json>, i: nat, titles: seq<Json>)
    requires i < |urls| && Collect(FilmTitleAttempt(api), urls[..i]) == Returned(titles)
    ensures Collect(FilmTitleAttempt(api), urls[..i + 1]) ==
      match FilmTitle(api, urls[i])
      case Raised => Raised
      case Returned(t) => Returned(if t.Some? then titles + [t.value] else titles)
  {
    CollectStep(FilmTitleAttempt(api), urls, i);
  }

  method FetchFilmTitles(api: Api, cache: Cache, films: Json) returns (r: Outcome<seq<Json>>)
    requires cache.Valid(api)
    modifies cache
    ensures cache.Valid(api)
    ensures cache.Keeps(old(cache.entries))
    ensures old(cache.fetches) <= cache.fetches
    ensures Iter(films).Returned? ==> cache.fetches <= old(cache.fetches) + |Iter(films).value|
    ensures r == FilmTitles(api, films)
  {
    var urls := Iter(films);
    if urls.Raised? {
      return Raised;
    }
    var titles: seq<Json> := [];
    for i := 0 to |urls.value|
      invariant cache.Valid(api)
      invariant Collect(FilmTitleAttempt(api), urls.value[..i]) == Returned(titles)
      invariant cache.Keeps(old(cache.entries))
      invariant old(cache.fetches) <= cache.fetches <= old(cache.fetches) + i
    {
      TitleStep(api, urls.value, i, titles);
      var title := FetchFilmTitle(api, cache, urls.value[i]);
      if title.Raised? {
        CollectPrefixRaised(FilmTitleAttempt(api), urls.value, i + 1);
        return Raised;
      }
      if title.value.Some? {
        titles := titles + [title.value.value];
      }
    }
    assert urls.value[..|urls.value|] == urls.value;
    return Returned(titles);
  }

  /** One element of the comprehension: the lookup in its condition, then the lookup for its title. */
  method FetchFilmTitle(api: Api, cache: Cache, url: Json) returns (r: Outcome<Option<Json>>)
    requires cache.Valid(api)
    modifies cache
    ensures cache.Valid(api)
    ensures cache.LookedUp(api, old(cache.entries), old(cache.fetches), url)
    ensures r == FilmTitle(api, url)
  {
    var probe := cache.GetCached(api, url);
    if !Truthy(probe) {
      return Returned(None);
    }
    // The first lookup stored a truthy body, so this one is a hit.
    var data := cache.GetCached(api, url);
    var title := Get(data, "title", JNull);
    if title.Raised? {
      return Raised;
    }
    return Returned(Some(title.value));
  }

  // ---------------------------------------------------------------- characters

  /** One row appended to `data` in `get_enriched_characters_df`. */
  datatype Character = Character(name: Json, species: Json, edited: Json, films: seq<Json>, filmCount: nat)

  /** One iteration of `get_enriched_characters_df`: `None` when the character's lookup is falsy. */
  function EnrichCharacter(api: Api, url: Json): Outcome<Option<Character>> {
    var data := Resolve(api, url);
    if !Truthy(data) then Returned(None)
    else
      var name :- Get(data, "name", JNull);
      var refs :- Get(data, "species", JArr([]));
      var species :- SpeciesName(api, refs);
      var edited :- Get(data, "edited", JNull);
      var filmRefs :- Get(data, "films", JArr([]));
      var films :- FilmTitles(api, filmRefs);
      Returned(Some(Character(name, species, edited, films, |films|)))
  }

  function CharacterAttempt(api: Api): Json -> Outcome<Option<Character>> {
    u => EnrichCharacter(api, u)
  }

  /** The rows of the frame `get_enriched_characters_df` builds. */
  function EnrichedCharacters(api: Api, urls: seq<Json>): Outcome<seq<Character>> {
    Collect(CharacterAttempt(api), urls)
  }

  /** A character that does not raise yields a row exactly when its lookup is truthy, with a consistent count. */
  lemma EnrichCharacterShape(api: Api, url: Json)
    requires EnrichCharacter(api, url).Returned?
    ensures EnrichCharacter(api, url).value.Some? <==> Truthy(Resolve(api, url))
    ensures EnrichCharacter(api, url).value.Some? ==>
      EnrichCharacter(api, url).value.value.filmCount == |EnrichCharacter(api, url).value.value.films|
  {
  }

  /**
   * One row per character whose lookup is truthy, in the order of the URLs,
   * and every row's `film_count` is the length of its `films`.
   */
  lemma EnrichedCharactersSpec(api: Api, urls: seq<Json>)
    requires EnrichedCharacters(api, urls).Returned?
    ensures var r, h := EnrichedCharacters(api, urls).value, Hits(CharacterAttempt(api), urls);
      && |r| == |h| <= |urls|
      && StrictlyIncreasing(h)
      && (forall k :: 0 <= k < |h| ==> h[k] < |urls| && EnrichCharacter(api, urls[h[k]]) == Returned(Some(r[k])))
      && (forall i :: 0 <= i < |urls| ==> (i in h <==> Truthy(Resolve(api, urls[i]))))
      && (forall k :: 0 <= k < |r| ==> r[k].filmCount == |r[k].films|)
  {
    CollectSpec(CharacterAttempt(api), urls);
    CollectRaised(CharacterAttempt(api), urls);
    forall i | 0 <= i < |urls|
      ensures Kept(CharacterAttempt(api), urls[i]) <==> Truthy(Resolve(api, urls[i]))
    {
      EnrichCharacterShape(api, urls[i]);
    }
    var r, h := EnrichedCharacters(api, urls).value, Hits(CharacterAttempt(api), urls);
    forall k | 0 <= k < |r|
      ensures r[k].filmCount == |r[k].films|
    {
      EnrichCharacterShape(api, urls[h[k]]);
    }
  }

  method GetEnrichedCharacters(api: Api, cache: Cache, urls: seq<Json>) returns (r: Outcome<seq<Character>>)
    requires cache.Valid(api)
    modifies cache
    ensures cache.Valid(api)
    ensures cache.Keeps(old(cache.entries))
    ensures old(cache.fetches) <= cache.fetches
    ensures r == EnrichedCharacters(api, urls)
  {
    var data: seq<Character> := [];
    for i := 0 to |urls|
      invariant cache.Valid(api)
      invariant Collect(CharacterAttempt(api), urls[..i]) == Returned(data)
      invariant cache.Keeps(old(cache.entries))
      invariant old(cache.fetches) <= cache.fetches
    {
      CollectStep(CharacterAttempt(api), urls, i);
      var row := EnrichOne(api, cache, urls[i]);
      if row.Raised? {
        CollectPrefixRaised(CharacterAttempt(api), urls, i + 1);
        return Raised;
      }
      if row.value.None? {
        continue;
      }
      data := data + [row.value.value];
    }
    assert urls[..|urls|] == urls;
    return Returned(data);
  }

  /** The body of the loop in `get_enriched_characters_df`. */
  method EnrichOne(api: Api, cache: Cache, url: Json) returns (r: Outcome<Option<Character>>)
    requires cache.Valid(api)
    modifies cache
    ensures cache.Valid(api)
    ensures cache.Keeps(old(cache.entries))
    ensures old(cache.fetches) <= cache.fetches
    ensures r == EnrichCharacter(api, url)
  {
    var data := cache.GetCached(api, url);
    if !Truthy(data) {
      return Returned(None);
    }
    var name := Get(data, "name", JNull);
    var refs := Get(data, "species", JArr([]));
    if name.Raised? || refs.Raised? {
      return Raised;
    }
    var species := FetchSpeciesName(api, cache, refs.value);
    if species.Raised? {
      return Raised;
    }
    var edited := Get(data, "edited", JNull).value;
    var filmRefs := Get(data, "films", JArr([])).value;
    var films := FetchFilmTitles(api, cache, filmRefs);
    if films.Raised? {
      return Raised;
    }
    return Returned(Some(Character(name.value, species.value, edited, films.value, |films.value|)));
  }

  // ---------------------------------------------------------------- the filter in main

  /** `species.lower() == "droid"`; a species that is not a string is never a droid. */
  predicate IsDroid(species: Json) {
    species.JStr? && Lower(species.s) == "droid"
  }

  /** The row mask of `filtered_df`. */
  predicate Keep(c: Character) {
    !IsDroid(c.species) && c.filmCount >= 2
  }

  function KeepAttempt(c: Character): Outcome<Option<Character>> {
    Returned(if Keep(c) then Some(c) else None)
  }

  /** `filtered_df`; a frame built from no rows has no `species` column, so indexing it raises. */
  function FilterCharacters(rows: seq<Character>): Outcome<seq<Character>> {
    if rows == [] then Raised else Collect(KeepAttempt, rows)
  }

  /** The filter raises only on an empty frame, and otherwise keeps, in order, exactly the rows the mask accepts. */
  lemma FilterSpec(rows: seq<Character>)
    ensures FilterCharacters(rows).Raised? <==> rows == []
    ensures rows != [] ==>
      var r, h := FilterCharacters(rows).value, Hits(KeepAttempt, rows);
      && |r| == |h| <= |rows|
      && StrictlyIncreasing(h)
      && (forall k :: 0 <= k < |h| ==> h[k] < |rows| && r[k] == rows[h[k]] && Keep(r[k]))
      && (forall i :: 0 <= i < |rows| ==> (i in h <==> Keep(rows[i])))
  {
    if rows != [] {
      CollectRaised(KeepAttempt, rows);
      CollectSpec(KeepAttempt, rows);
    }
  }

  /** Of a droid in three films, a human in two and a human in one, only the second is kept. */
  lemma FilterScenario(a: Character, b: Character, c: Character)
    requires a.species == JStr("Droid") && a.filmCount == 3
    requires b.species == JStr("Human") && b.filmCount == 2
    requires c.species == JStr("Human") && c.filmCount == 1
    ensures FilterCharacters([a, b, c]) == Returned([b])
  {
    assert Lower("Droid") == "droid";
    assert Lower("Human") != "droid" by {
      assert Lower("Human")[0] == 'h';
    }
    assert !Keep(a) && Keep(b) && !Keep(c);
    var rows := [a, b, c];
    assert rows[..2] == [a, b] && [a, b][..1] == [a] && [a][..0] == [];
    assert Collect(KeepAttempt, [a]) == Returned([]);
    assert KeepAttempt(b) == Returned(Some(b)) && [] + [b] == [b];
    assert Collect(KeepAttempt, [a, b]) == Returned([b]);
  }
}
