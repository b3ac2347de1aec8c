/**
 * fetch_starwars_vehicles.py: page through the vehicle listing, project each
 * vehicle to five fields, and replace every vehicle's pilot URLs by pilot
 * records whose species, homeworld and films are resolved one level further.
 */
module Vehicles {
  import opened Py
  import opened Remote
  import opened Seqs

  const VehiclesEndpoint: string := "https://swapi.dev/api/vehicles/"

  // ---------------------------------------------------------------- helpers

  /** `fetch_field`: a field of the resource at `url`, or `None` when the fetch fails. */
  function FetchField(api: Api, url: Json, field: string): (r: Json)
    ensures Request(api, url).Ok? && Request(api, url).body.JObj? ==>
      r == Field(Request(api, url).body.fields, field, JNull)
    ensures Request(api, url).Fail? ==> r == JNull
    ensures Request(api, url).Ok? && !Request(api, url).body.JObj? ==> r == JNull
  {
    match Request(api, url)
    case Ok(JObj(m)) => Field(m, field, JNull)
    case _ => JNull
  }

  /** `fetch_list_field`: one entry per URL, in order; a failed fetch leaves `None` in its place. */
  function FetchListField(api: Api, urls: seq<Json>, field: string): (r: seq<Json>)
    ensures |r| == |urls|
    ensures forall i :: 0 <= i < |urls| ==> r[i] == FetchField(api, urls[i], field)
  {
    if urls == [] then []
    else [FetchField(api, urls[0], field)] + FetchListField(api, urls[1..], field)
  }

  // ---------------------------------------------------------------- pilots

  /** An enriched pilot: the dict that `get_pilot_data` builds. */
  datatype Pilot = Pilot(name: Json, species: Json, homeworld: Json, films: seq<Json>, edited: Json)

  /** `fetch_field(pilot["species"][0], "name") if pilot.get("species") else None`. */
  function SpeciesOf(api: Api, speciesRefs: Json): Outcome<Json> {
    if Truthy(speciesRefs) then
      var first :- Index0(speciesRefs);
      Returned(FetchField(api, first, "name"))
    else Returned(JNull)
  }

  /** The body of the `try` in `get_pilot_data` once the pilot's resource is decoded. */
  function EnrichPilot(api: Api, pilot: Json): (r: Outcome<Pilot>)
    ensures r.Returned? ==> pilot.JObj?
    ensures pilot.JObj? ==>
      var m := pilot.fields;
      && (r.Raised? <==>
            SpeciesOf(api, Field(m, "species", JNull)).Raised? || Iter(Field(m, "films", JArr([]))).Raised?)
      && (r.Returned? ==>
            && r.value.name == Field(m, "name", JNull)
            && r.value.edited == Field(m, "edited", JNull)
            && r.value.species == SpeciesOf(api, Field(m, "species", JNull)).value
            && r.value.homeworld ==
                 (if Truthy(Field(m, "homeworld", JNull)) then FetchField(api, m["homeworld"], "name") else JNull)
            && r.value.films == FetchListField(api, Iter(Field(m, "films", JArr([]))).value, "title"))
  {
    var name :- Get(pilot, "name", JNull);
    var speciesRefs :- Get(pilot, "species", JNull);
    var species :- SpeciesOf(api, speciesRefs);
    var home :- Get(pilot, "homeworld", JNull);
    var filmRefs :- Get(pilot, "films", JArr([]));
    var filmUrls :- Iter(filmRefs);
    var edited :- Get(pilot, "edited", JNull);
    Returned(Pilot(name, species,
                   if Truthy(home) then FetchField(api, home, "name") else JNull,
                   FetchListField(api, filmUrls, "title"),
                   edited))
  }

  /** The species of an enriched pilot comes from the first species URL only, and is `None` without one. */
  lemma SpeciesFromFirstReference(api: Api, refs: Json)
    ensures !Truthy(refs) ==> SpeciesOf(api, refs) == Returned(JNull)
    ensures refs.JArr? && refs.elems != [] ==>
      SpeciesOf(api, refs) == Returned(FetchField(api, refs.elems[0], "name"))
    ensures refs.JArr? && refs.elems != [] && Request(api, refs.elems[0]).Fail? ==>
      SpeciesOf(api, refs) == Returned(JNull)
  {
  }

  /** One iteration of `get_pilot_data`: a pilot record, or `None` when the pilot is skipped. */
  function FetchPilot(api: Api, url: Json): Option<Pilot> {
    match Request(api, url)
    case Fail => None
    case Ok(body) =>
      match EnrichPilot(api, body)
      case Raised => None
      case Returned(p) => Some(p)
  }

  /** The iteration of `get_pilot_data` as the step of a `Collect`: it never raises. */
  function PilotAttempt(api: Api): Json -> Outcome<Option<Pilot>> {
    u => Returned(FetchPilot(api, u))
  }

  /** What `get_pilot_data` returns. */
  function PilotData(api: Api, urls: seq<Json>): Outcome<seq<Pilot>> {
    Collect(PilotAttempt(api), urls)
  }

  /**
   * `get_pilot_data` never raises; it yields one record per pilot whose
   * fetch and enrichment succeeded, in the order of the URLs, and skips the rest.
   */
  lemma PilotDataSpec(api: Api, urls: seq<Json>)
    ensures PilotData(api, urls).Returned?
    ensures var r, h := PilotData(api, urls).value, Hits(PilotAttempt(api), urls);
      && |r| == |h| <= |urls|
      && StrictlyIncreasing(h)
      && (forall k :: 0 <= k < |h| ==> h[k] < |urls| && FetchPilot(api, urls[h[k]]) == Some(r[k]))
      && (forall i :: 0 <= i < |urls| ==> (i in h <==> FetchPilot(api, urls[i]).Some?))
  {
    CollectRaised(PilotAttempt(api), urls);
    CollectSpec(PilotAttempt(api), urls);
  }

  /** A pilot URL that fails to fetch contributes nothing. */
  lemma FailedPilotSkipped(api: Api, urls: seq<Json>, i: nat)
    requires i < |urls| && Request(api, urls[i]).Fail?
    ensures PilotData(api, urls).Returned?
    ensures i !in Hits(PilotAttempt(api), urls)
  {
    PilotDataSpec(api, urls);
  }

  /** `get_pilot_data`. */
  method GetPilotData(api: Api, pilotUrls: seq<Json>) returns (enriched: seq<Pilot>)
    ensures PilotData(api, pilotUrls) == Returned(enriched)
  {
    enriched := [];
    for i := 0 to |pilotUrls|
      invariant PilotData(api, pilotUrls[..i]) == Returned(enriched)
    {
      CollectStep(PilotAttempt(api), pilotUrls, i);
      var res := Request(api, pilotUrls[i]);
      if res.Fail? {
        continue;
      }
      var pilot := EnrichPilot(api, res.body);
      if pilot.Raised? {
        continue;
      }
      enriched := enriched + [pilot.value];
    }
    assert pilotUrls[..|pilotUrls|] == pilotUrls;
  }

  // ---------------------------------------------------------------- pages

  /** The projection `get_vehicles_basic_info` keeps of each listed vehicle. */
  datatype Vehicle = Vehicle(name: Json, model: Json, vehicleClass: Json, edited: Json, pilots: Json)

  /** Projecting one raw record: a record that is not a dict has no `get`, so it raises. */
  function Project(v: Json): Outcome<Vehicle> {
    match v
    case JObj(m) =>
      Returned(Vehicle(Field(m, "name", JNull), Field(m, "model", JNull), Field(m, "vehicle_class", JNull),
                       Field(m, "edited", JNull), Field(m, "pilots", JNull)))
    case _ => Raised
  }

  function ProjectAttempt(v: Json): Outcome<Option<Vehicle>> {
    var x :- Project(v);
    Returned(Some(x))
  }

  /** One page of the listing: its projected records and its `next` cursor. */
  datatype Page = Page(records: seq<Vehicle>, next: Json)

  /** Fetching and reading one page; every failure here is fatal to the listing. */
  function FetchPage(api: Api, url: Json): Outcome<Page> {
    match Request(api, url)
    case Fail => Raised
    case Ok(data) =>
      var results :- Subscript(data, "results");
      var raw :- Iter(results);
      var records :- Collect(ProjectAttempt, raw);
      var next :- Get(data, "next", JNull);
      Returned(Page(records, next))
  }

  /** Page loading as a value, so that the listing can be reasoned about one page at a time. */
  function Pager(api: Api): Json -> Outcome<Page> {
    u => FetchPage(api, u)
  }

  /** A dict body whose `results` yields only dicts loads. */
  lemma FetchPageLoads(api: Api, url: Json)
    requires Request(api, url).Ok? && Request(api, url).body.JObj?
    requires "results" in Request(api, url).body.fields
    requires Iter(Request(api, url).body.fields["results"]).Returned?
    requires forall k :: 0 <= k < |Iter(Request(api, url).body.fields["results"]).value| ==>
      Iter(Request(api, url).body.fields["results"]).value[k].JObj?
    ensures FetchPage(api, url).Returned?
  {
    var raw := Iter(Request(api, url).body.fields["results"]).value;
    assert forall i :: 0 <= i < |raw| ==> Kept(ProjectAttempt, raw[i]);
    CollectTotal(ProjectAttempt, raw);
  }

  /**
   * A page loads exactly when its body is a dict whose `results` is iterable
   * and yields only dicts; each record then keeps `name`, `model`,
   * `vehicle_class` (as the class), `edited` and `pilots` of the raw record at the same position, and
   * the cursor is the body's `next`.
   */
  lemma FetchPageSpec(api: Api, url: Json)
    ensures Request(api, url).Fail? ==> FetchPage(api, url).Raised?
    ensures FetchPage(api, url).Returned? ==>
      && Request(api, url).Ok? && Request(api, url).body.JObj?
      && "results" in Request(api, url).body.fields
      && Iter(Request(api, url).body.fields["results"]).Returned?
      && FetchPage(api, url).value.next == Field(Request(api, url).body.fields, "next", JNull)
      && var raw, records := Iter(Request(api, url).body.fields["results"]).value, FetchPage(api, url).value.records;
      && |records| == |raw|
      && forall k :: 0 <= k < |raw| ==>
           && raw[k].JObj?
           && records[k] == Vehicle(Field(raw[k].fields, "name", JNull), Field(raw[k].fields, "model", JNull),
                                    Field(raw[k].fields, "vehicle_class", JNull), Field(raw[k].fields, "edited", JNull),
                                    Field(raw[k].fields, "pilots", JNull))
    ensures (&& Request(api, url).Ok? && Request(api, url).body.JObj?
             && "results" in Request(api, url).body.fields
             && Iter(Request(api, url).body.fields["results"]).Returned?
             && var raw := Iter(Request(api, url).body.fields["results"]).value;
                forall k :: 0 <= k < |raw| ==> raw[k].JObj?)
      ==> FetchPage(api, url).Returned?
  {
    if && Request(api, url).Ok? && Request(api, url).body.JObj?
       && "results" in Request(api, url).body.fields
       && Iter(Request(api, url).body.fields["results"]).Returned?
       && var raw := Iter(Request(api, url).body.fields["results"]).value;
          forall k :: 0 <= k < |raw| ==> raw[k].JObj?
    {
      FetchPageLoads(api, url);
    }
    if FetchPage(api, url).Returned? {
      var raw := Iter(Request(api, url).body.fields["results"]).value;
      CollectRaised(ProjectAttempt, raw);
      assert forall i :: 0 <= i < |raw| ==> Kept(ProjectAttempt, raw[i]);
      CollectTotal(ProjectAttempt, raw);
    }
  }

  /**
   * The page chain from `url` stops (a falsy cursor or a fatal page) within
   * `bound` requests. The loop in `get_vehicles_basic_info` has no cycle
   * guard, so this is what its termination rests on.
   */
  ghost predicate ChainEnds(pages: Json -> Outcome<Page>, url: Json, bound: nat)
    decreases bound
  {
    !Truthy(url) ||
    (bound > 0 &&
     match pages(url)
     case Raised => true
     case Returned(p) => ChainEnds(pages, p.next, bound - 1))
  }

  /** The vehicles listed from `url` onwards, or `Raised` when a page fails. */
  ghost function VehiclesFrom(pages: Json -> Outcome<Page>, url: Json, bound: nat): Outcome<seq<Vehicle>>
    requires ChainEnds(pages, url, bound)
    decreases bound
  {
    if !Truthy(url) then Returned([])
    else
      var page :- pages(url);
      var rest :- VehiclesFrom(pages, page.next, bound - 1);
      Returned(page.records + rest)
  }

  /** The page URLs requested from `url` onwards, in order, the failing one included. */
  ghost function PagesRequested(pages: Json -> Outcome<Page>, url: Json, bound: nat): seq<Json>
    requires ChainEnds(pages, url, bound)
    decreases bound
  {
    if !Truthy(url) then []
    else
      [url] + match pages(url)
              case Raised => []
              case Returned(p) => PagesRequested(pages, p.next, bound - 1)
  }

  function Prepend<T>(acc: seq<T>, o: Outcome<seq<T>>): Outcome<seq<T>> {
    match o
    case Raised => Raised
    case Returned(rest) => Returned(acc + rest)
  }

  /** One turn of the listing loop, for a page that loads. */
  lemma ChainStep(pages: Json -> Outcome<Page>, url: Json, bound: nat, page: Page)
    requires ChainEnds(pages, url, bound)
    requires Truthy(url) && pages(url) == Returned(page)
    ensures bound > 0 && ChainEnds(pages, page.next, bound - 1)
    ensures VehiclesFrom(pages, url, bound) == Prepend(page.records, VehiclesFrom(pages, page.next, bound - 1))
    ensures PagesRequested(pages, url, bound) == [url] + PagesRequested(pages, page.next, bound - 1)
  {
  }

  /** The turn of the listing loop whose page fails. */
  lemma ChainStop(pages: Json -> Outcome<Page>, url: Json, bound: nat)
    requires ChainEnds(pages, url, bound)
    requires Truthy(url) && pages(url).Raised?
    ensures VehiclesFrom(pages, url, bound).Raised?
    ensures PagesRequested(pages, url, bound) == [url]
  {
  }

  lemma PrependAssociative<T>(a: seq<T>, b: seq<T>, o: Outcome<seq<T>>)
    ensures Prepend(a, Prepend(b, o)) == Prepend(a + b, o)
  {
    match o {
      case Raised =>
      case Returned(c) => assert a + (b + c) == a + b + c;
    }
  }

  lemma PrependEmpty<T>(o: Outcome<seq<T>>)
    ensures Prepend([], o) == o
  {
    match o {
      case Raised =>
      case Returned(c) => assert [] + c == c;
    }
  }

  // ---------------------------------------------------------------- properties of the listing

  /** A page whose `next` is its own URL never ends: without a cycle guard the loop would not stop. */
  lemma {:induction false} SelfLinkedPageNeverEnds(pages: Json -> Outcome<Page>, url: Json, bound: nat)
    requires Truthy(url)
    requires pages(url).Returned? && pages(url).value.next == url
    ensures !ChainEnds(pages, url, bound)
    decreases bound
  {
    if bound > 0 {
      SelfLinkedPageNeverEnds(pages, url, bound - 1);
    }
  }

  lemma {:induction false} PagesRequestedBounded(pages: Json -> Outcome<Page>, url: Json, bound: nat)
    requires ChainEnds(pages, url, bound)
    ensures |PagesRequested(pages, url, bound)| <= bound
    decreases bound
  {
    if Truthy(url) && pages(url).Returned? {
      PagesRequestedBounded(pages, pages(url).value.next, bound - 1);
    }
  }

  /** The pages requested do not depend on which sufficient bound is used. */
  lemma {:induction false} PagesRequestedUnique(pages: Json -> Outcome<Page>, url: Json, n: nat, m: nat)
    requires ChainEnds(pages, url, n) && ChainEnds(pages, url, m)
    ensures PagesRequested(pages, url, n) == PagesRequested(pages, url, m)
    decreases n
  {
    if Truthy(url) && pages(url).Returned? {
      PagesRequestedUnique(pages, pages(url).value.next, n - 1, m - 1);
    }
  }

  /** One page of `PagesRequested`, for a page that loads. */
  lemma PagesRequestedStep(pages: Json -> Outcome<Page>, url: Json, bound: nat)
    requires ChainEnds(pages, url, bound)
    requires Truthy(url) && pages(url).Returned?
    ensures bound > 0 && ChainEnds(pages, pages(url).value.next, bound - 1)
    ensures PagesRequested(pages, url, bound) == [url] + PagesRequested(pages, pages(url).value.next, bound - 1)
  {
  }

  /**
   * The requests from the `k`-th requested page onwards are the chain from
   * that page, which ends within the `m` requests the bound leaves.
   */
  lemma {:induction false} PagesRequestedSuffix(pages: Json -> Outcome<Page>, url: Json, bound: nat, k: nat, m: nat)
    requires ChainEnds(pages, url, bound)
    requires k < |PagesRequested(pages, url, bound)| && k + m == bound
    ensures ChainEnds(pages, PagesRequested(pages, url, bound)[k], m)
    ensures PagesRequested(pages, url, bound)[k..] == PagesRequested(pages, PagesRequested(pages, url, bound)[k], m)
    decreases k
  {
    var ps := PagesRequested(pages, url, bound);
    if k == 0 {
      assert ps[0..] == ps;
    } else {
      assert Truthy(url) && pages(url).Returned?;
      var next := pages(url).value.next;
      PagesRequestedStep(pages, url, bound);
      var rest := PagesRequested(pages, next, bound - 1);
      assert ps == [url] + rest;
      PagesRequestedSuffix(pages, next, bound - 1, k - 1, m);
      var tail := PagesRequested(pages, rest[k - 1], m);
      ConsSuffix(url, rest, k, tail);
      assert ps[k] == rest[k - 1] && ps[k..] == tail;
    }
  }

  /** Dropping `k > 0` elements of `[x] + s` is dropping `k - 1` of `s`. */
  lemma ConsSuffix<T>(x: T, s: seq<T>, k: nat, tail: seq<T>)
    requires 0 < k <= |s| && s[k - 1..] == tail
    ensures ([x] + s)[k] == s[k - 1]
    ensures ([x] + s)[k..] == tail
  {
  }

  /** The chain after a loaded page never comes back to it. */
  lemma FirstPageNotRepeated(pages: Json -> Outcome<Page>, url: Json, bound: nat)
    requires ChainEnds(pages, url, bound)
    requires Truthy(url) && pages(url).Returned?
    ensures bound > 0 && ChainEnds(pages, pages(url).value.next, bound - 1)
    ensures url !in PagesRequested(pages, pages(url).value.next, bound - 1)
  {
    var next := pages(url).value.next;
    PagesRequestedStep(pages, url, bound);
    var rest := PagesRequested(pages, next, bound - 1);
    if url in rest {
      var k :| 0 <= k < |rest| && rest[k] == url;
      PagesRequestedBounded(pages, next, bound - 1);
      var m := bound - 1 - k;
      PagesRequestedSuffix(pages, next, bound - 1, k, m);
      assert rest[k..] == PagesRequested(pages, url, m);
      PagesRequestedUnique(pages, url, m, bound);
      SuffixIsShorter(rest, k, url);
      assert false;
    }
  }

  /** On a chain that ends, every page is requested exactly once. */
  lemma {:induction false} PagesRequestedDistinct(pages: Json -> Outcome<Page>, url: Json, bound: nat)
    requires ChainEnds(pages, url, bound)
    ensures Distinct(PagesRequested(pages, url, bound))
    decreases bound
  {
    if Truthy(url) && pages(url).Returned? {
      var next := pages(url).value.next;
      PagesRequestedStep(pages, url, bound);
      PagesRequestedDistinct(pages, next, bound - 1);
      FirstPageNotRepeated(pages, url, bound);
      DistinctCons(url, PagesRequested(pages, next, bound - 1));
    }
  }

  lemma SuffixIsShorter<T>(s: seq<T>, k: nat, x: T)
    requires k <= |s|
    ensures s[k..] != [x] + s
  {
    assert |s[k..]| < |[x] + s|;
  }

  lemma DistinctCons<T>(x: T, s: seq<T>)
    requires Distinct(s) && x !in s
    ensures Distinct([x] + s)
  {
    var t := [x] + s;
    forall i, j | 0 <= i < j < |t| ensures t[i] != t[j] {
      assert t[j] == s[j - 1];
      if i > 0 {
        assert t[i] == s[i - 1];
      }
    }
  }

  /** The projected records of the given pages, one page after another. */
  ghost function RecordsOfPages(pages: Json -> Outcome<Page>, urls: seq<Json>): seq<Vehicle>
    requires forall k :: 0 <= k < |urls| ==> pages(urls[k]).Returned?
  {
    if urls == [] then [] else pages(urls[0]).value.records + RecordsOfPages(pages, urls[1..])
  }

  /**
   * The listing succeeds exactly when every requested page does, and then it
   * is the concatenation of their records in page order; a single failing
   * page leaves no partial list.
   */
  lemma {:induction false} VehiclesAreAllPages(pages: Json -> Outcome<Page>, url: Json, bound: nat)
    requires ChainEnds(pages, url, bound)
    ensures var ps := PagesRequested(pages, url, bound);
      VehiclesFrom(pages, url, bound).Returned? <==> forall k :: 0 <= k < |ps| ==> pages(ps[k]).Returned?
    ensures var ps := PagesRequested(pages, url, bound);
      VehiclesFrom(pages, url, bound).Returned? ==> VehiclesFrom(pages, url, bound).value == RecordsOfPages(pages, ps)
    decreases bound
  {
    var ps := PagesRequested(pages, url, bound);
    if Truthy(url) {
      match pages(url)
      case Raised =>
        ChainStop(pages, url, bound);
        assert ps[0] == url;
      case Returned(p) =>
        var rest := PagesRequested(pages, p.next, bound - 1);
        VehiclesAreAllPages(pages, p.next, bound - 1);
        assert ps == [url] + rest;
        assert ps[1..] == rest;
        if forall k :: 0 <= k < |rest| ==> pages(rest[k]).Returned? {
          assert forall k :: 0 <= k < |ps| ==> pages(ps[k]).Returned? by {
            forall k | 0 <= k < |ps| ensures pages(ps[k]).Returned? {
              if k > 0 { assert ps[k] == rest[k - 1]; }
            }
          }
        } else {
          var k :| 0 <= k < |rest| && !pages(rest[k]).Returned?;
          assert ps[k + 1] == rest[k];
          assert !pages(ps[k + 1]).Returned?;
          assert VehiclesFrom(pages, p.next, bound - 1).Raised?;
        }
    }
  }

  /** One iteration of the `while url:` loop of `get_vehicles_basic_info`: fetch, test the status, project. */
  method ReadPage(api: Api, url: Json) returns (page: Outcome<Page>)
    ensures page == FetchPage(api, url)
  {
    var response := Request(api, url);
    if response.Fail? {
      return Raised;
    }
    var data := response.body;
    var results := Subscript(data, "results");
    if results.Raised? {
      return Raised;
    }
    var raw := Iter(results.value);
    if raw.Raised? {
      return Raised;
    }
    var records: seq<Vehicle> := [];
    for j := 0 to |raw.value|
      invariant Collect(ProjectAttempt, raw.value[..j]) == Returned(records)
    {
      CollectStep(ProjectAttempt, raw.value, j);
      var info := Project(raw.value[j]);
      if info.Raised? {
        CollectPrefixRaised(ProjectAttempt, raw.value, j + 1);
        return Raised;
      }
      records := records + [info.value];
    }
    assert raw.value[..|raw.value|] == raw.value;
    return Returned(Page(records, Field(data.fields, "next", JNull)));
  }

  /** The requests so far, plus those still to come, are the whole chain. */
  lemma RequestedStep(pages: Json -> Outcome<Page>, start: Json, bound: nat, requested: seq<Json>,
                      url: Json, left: nat, page: Page)
    requires ChainEnds(pages, start, bound) && ChainEnds(pages, url, left)
    requires PagesRequested(pages, start, bound) == requested + PagesRequested(pages, url, left)
    requires Truthy(url) && pages(url) == Returned(page)
    ensures left > 0 && ChainEnds(pages, page.next, left - 1)
    ensures PagesRequested(pages, start, bound) == (requested + [url]) + PagesRequested(pages, page.next, left - 1)
  {
    ChainStep(pages, url, left, page);
    ConsAssociative(requested, url, PagesRequested(pages, page.next, left - 1));
  }

  lemma ConsAssociative<T>(a: seq<T>, x: T, b: seq<T>)
    ensures a + ([x] + b) == (a + [x]) + b
  {
  }

  /** `get_vehicles_basic_info`; `requested` records each page URL the loop asks for. */
  method GetVehiclesBasicInfo(api: Api, ghost bound: nat) returns (r: Outcome<seq<Vehicle>>, ghost requested: seq<Json>)
    requires ChainEnds(Pager(api), JStr(VehiclesEndpoint), bound)
    ensures r == VehiclesFrom(Pager(api), JStr(VehiclesEndpoint), bound)
    ensures requested == PagesRequested(Pager(api), JStr(VehiclesEndpoint), bound)
  {
    var url := JStr(VehiclesEndpoint);
    var vehicles: seq<Vehicle> := [];
    ghost var left := bound;
    requested := [];
    PrependEmpty(VehiclesFrom(Pager(api), url, left));
    while Truthy(url)
      invariant ChainEnds(Pager(api), url, left)
      invariant VehiclesFrom(Pager(api), JStr(VehiclesEndpoint), bound) == Prepend(vehicles, VehiclesFrom(Pager(api), url, left))
      invariant PagesRequested(Pager(api), JStr(VehiclesEndpoint), bound) == requested + PagesRequested(Pager(api), url, left)
      decreases left
    {
      var page := ReadPage(api, url);
      assert Pager(api)(url) == page;
      if page.Raised? {
        ChainStop(Pager(api), url, left);
        requested := requested + [url];
        return Raised, requested;
      }
      ChainStep(Pager(api), url, left, page.value);
      PrependAssociative(vehicles, page.value.records, VehiclesFrom(Pager(api), page.value.next, left - 1));
      RequestedStep(Pager(api), JStr(VehiclesEndpoint), bound, requested, url, left, page.value);
      requested := requested + [url];
      vehicles := vehicles + page.value.records;
      url := page.value.next;
      left := left - 1;
    }
    assert vehicles + [] == vehicles;
    r := Returned(vehicles);
  }

  // ---------------------------------------------------------------- enrichment

  /** A vehicle after `enrich_vehicle_pilots`: its pilot URLs replaced by pilot records. */
  datatype EnrichedVehicle = EnrichedVehicle(name: Json, model: Json, vehicleClass: Json, edited: Json, pilots: seq<Pilot>)

  /**
   * One iteration of `enrich_vehicle_pilots`. Truthy pilots that cannot be
   * iterated make `get_pilot_data` raise outside its `try`.
   */
  function EnrichVehicle(api: Api, v: Vehicle): (r: Outcome<EnrichedVehicle>)
    ensures r.Raised? <==> Truthy(v.pilots) && Iter(v.pilots).Raised?
    ensures r.Returned? ==>
      && r.value.name == v.name && r.value.model == v.model
      && r.value.vehicleClass == v.vehicleClass && r.value.edited == v.edited
      && Returned(r.value.pilots) == (if Truthy(v.pilots) then PilotData(api, Iter(v.pilots).value) else Returned([]))
  {
    if Truthy(v.pilots) then
      var urls :- Iter(v.pilots);
      PilotDataSpec(api, urls);
      Returned(EnrichedVehicle(v.name, v.model, v.vehicleClass, v.edited, PilotData(api, urls).value))
    else
      Returned(EnrichedVehicle(v.name, v.model, v.vehicleClass, v.edited, []))
  }

  /** `enrich_vehicle_pilots`: one enriched copy per vehicle, in order. */
  method EnrichVehiclePilots(api: Api, vehicles: seq<Vehicle>) returns (r: Outcome<seq<EnrichedVehicle>>)
    ensures r.Raised? <==> exists i :: 0 <= i < |vehicles| && EnrichVehicle(api, vehicles[i]).Raised?
    ensures r.Returned? ==>
      && |r.value| == |vehicles|
      && forall i :: 0 <= i < |vehicles| ==> Returned(r.value[i]) == EnrichVehicle(api, vehicles[i])
  {
    var enriched: seq<EnrichedVehicle> := [];
    for i := 0 to |vehicles|
      invariant |enriched| == i
      invariant forall k :: 0 <= k < i ==> Returned(enriched[k]) == EnrichVehicle(api, vehicles[k])
    {
      var vehicle := vehicles[i];
      var pilots: seq<Pilot>;
      if Truthy(vehicle.pilots) {
        var urls := Iter(vehicle.pilots);
        if urls.Raised? {
          return Raised;
        }
        pilots := GetPilotData(api, urls.value);
      } else {
        pilots := [];
      }
      enriched := enriched + [EnrichedVehicle(vehicle.name, vehicle.model, vehicle.vehicleClass, vehicle.edited, pilots)];
    }
    return Returned(enriched);
  }
}
