/**
 * find_longest_flight.py: list the people who have trips, keep those who flew
 * with at least two airlines (told apart by the first two letters of the
 * flight number), and find whoever took the single longest flight.
 */
module Flights {
  import opened Py
  import opened Remote
  import opened Seqs

  const PeopleUrl: string :=
    "https://services.odata.org/V4/TripPinServiceRW/People?$filter=Trips/any(t: true)&$expand=Trips($expand=PlanItems)&$select=UserName,Trips"

  // ---------------------------------------------------------------- people with trips

  /** A dict appended to `people_with_trips`. */
  datatype PersonTrips = PersonTrips(userName: Json, trips: Json)

  /** One iteration of the loop in `get_people_with_trips_and_planitems`. */
  function PersonWithTrips(person: Json): (r: Outcome<Option<PersonTrips>>)
    ensures r.Raised? <==>
      !person.JObj? || (Truthy(Field(person.fields, "Trips", JArr([]))) && "UserName" !in person.fields)
    ensures r == Returned(None) <==> person.JObj? && !Truthy(Field(person.fields, "Trips", JArr([])))
    ensures r.Returned? && r.value.Some? ==>
      r.value.value == PersonTrips(person.fields["UserName"], person.fields["Trips"])
  {
    var trips :- Get(person, "Trips", JArr([]));
    if !Truthy(trips) then Returned(None)
    else
      var name :- Subscript(person, "UserName");
      Returned(Some(PersonTrips(name, trips)))
  }

  /** What `get_people_with_trips_and_planitems` returns, given what the service answers. */
  function PeopleWithTrips(api: Api): Outcome<seq<PersonTrips>> {
    match Request(api, JStr(PeopleUrl))
    case Fail => Raised
    case Ok(data) =>
      var value :- Get(data, "value", JArr([]));
      var people :- Iter(value);
      Collect(PersonWithTrips, people)
  }

  /**
   * A failed request raises; otherwise the result keeps, in order, exactly the
   * people whose `Trips` is non-empty, with their `UserName` and `Trips` unchanged.
   */
  lemma PeopleWithTripsSpec(api: Api)
    ensures Request(api, JStr(PeopleUrl)).Fail? ==> PeopleWithTrips(api).Raised?
    ensures PeopleWithTrips(api).Returned? ==>
      && Request(api, JStr(PeopleUrl)).Ok?
      && Get(Request(api, JStr(PeopleUrl)).body, "value", JArr([])).Returned?
      && Iter(Get(Request(api, JStr(PeopleUrl)).body, "value", JArr([])).value).Returned?
      && var people := Iter(Get(Request(api, JStr(PeopleUrl)).body, "value", JArr([])).value).value;
         var r, h := PeopleWithTrips(api).value, Hits(PersonWithTrips, people);
         && |r| == |h| <= |people|
         && StrictlyIncreasing(h)
         && (forall k :: 0 <= k < |h| ==>
               h[k] < |people| && people[h[k]].JObj? &&
               "UserName" in people[h[k]].fields && "Trips" in people[h[k]].fields &&
               r[k] == PersonTrips(people[h[k]].fields["UserName"], people[h[k]].fields["Trips"]))
         && (forall i :: 0 <= i < |people| ==>
               people[i].JObj? && (i in h <==> Truthy(Field(people[i].fields, "Trips", JArr([])))))
  {
    if PeopleWithTrips(api).Returned? {
      var people := Iter(Get(Request(api, JStr(PeopleUrl)).body, "value", JArr([])).value).value;
      CollectSpec(PersonWithTrips, people);
      CollectRaised(PersonWithTrips, people);
    }
  }

  /** `get_people_with_trips_and_planitems`, from the response on. */
  method GetPeopleWithTripsAndPlanItems(api: Api) returns (r: Outcome<seq<PersonTrips>>)
    ensures r == PeopleWithTrips(api)
  {
    var response := Request(api, JStr(PeopleUrl));
    if response.Fail? {
      return Raised;
    }
    var value := Get(response.body, "value", JArr([]));
    if value.Raised? {
      return Raised;
    }
    var people := Iter(value.value);
    if people.Raised? {
      return Raised;
    }
    var withTrips: seq<PersonTrips> := [];
    for i := 0 to |people.value|
      invariant Collect(PersonWithTrips, people.value[..i]) == Returned(withTrips)
    {
      CollectStep(PersonWithTrips, people.value, i);
      var person := people.value[i];
      var trips := Get(person, "Trips", JArr([]));
      if trips.Raised? {
        CollectPrefixRaised(PersonWithTrips, people.value, i + 1);
        return Raised;
      }
      if Truthy(trips.value) {
        var name := Subscript(person, "UserName");
        if name.Raised? {
          CollectPrefixRaised(PersonWithTrips, people.value, i + 1);
          return Raised;
        }
        withTrips := withTrips + [PersonTrips(name.value, trips.value)];
      }
    }
    assert people.value[..|people.value|] == people.value;
    return Returned(withTrips);
  }

  // ---------------------------------------------------------------- airline prefixes

  /** The prefix one plan item contributes: the first two characters of its flight number, upper-cased. */
  function ItemPrefix(item: Json): (r: Outcome<Option<string>>)
    ensures r.Returned? && r.value.Some? ==> |r.value.value| == 2 && NoLowerCase(r.value.value)
    ensures !item.JObj? ==> r.Raised?
    ensures item.JObj? && !Truthy(Field(item.fields, "FlightNumber", JNull)) ==> r == Returned(None)
    ensures item.JObj? && Field(item.fields, "FlightNumber", JNull).JStr? ==>
      var s := item.fields["FlightNumber"].s;
      r == Returned(if |s| >= 2 then Some(Upper(s[..2])) else None)
  {
    var number :- Get(item, "FlightNumber", JNull);
    if !Truthy(number) then Returned(None)
    else
      var n :- Len(number);
      if n < 2 then Returned(None)
      else if number.JStr? then
        UpperHasNoLowerCase(number.s[..2]);
        Returned(Some(Upper(number.s[..2])))
      else Raised
  }

  /** `prefixes.add(...)` for one plan item, as a set update. */
  function ItemPrefixSet(item: Json): Outcome<set<string>> {
    var p :- ItemPrefix(item);
    Returned(if p.Some? then {p.value} else {})
  }

  /** `trip.get('PlanItems', [])`, iterated. */
  function TripItems(trip: Json): Outcome<seq<Json>> {
    var field :- Get(trip, "PlanItems", JArr([]));
    Iter(field)
  }

  function TripPrefixes(trip: Json): Outcome<set<string>> {
    var items :- TripItems(trip);
    Union(ItemPrefixSet, items)
  }

  /** The set `prefixes` once a person's trips have all been visited. */
  function Prefixes(trips: Json): Outcome<set<string>> {
    var ts :- Iter(trips);
    Union(TripPrefixes, ts)
  }

  lemma TripPrefixShape(trip: Json)
    requires TripPrefixes(trip).Returned?
    ensures forall p :: p in TripPrefixes(trip).value ==> |p| == 2 && NoLowerCase(p)
  {
    var items := TripItems(trip).value;
    UnionSpec(ItemPrefixSet, items);
    forall p | p in TripPrefixes(trip).value
      ensures |p| == 2 && NoLowerCase(p)
    {
      var k :| 0 <= k < |items| && p in ItemPrefixSet(items[k]).value;
      assert ItemPrefix(items[k]) == Returned(Some(p));
    }
  }

  /** Every collected prefix is two characters long and has no lower-case letter. */
  lemma PrefixShape(trips: Json)
    requires Prefixes(trips).Returned?
    ensures forall p :: p in Prefixes(trips).value ==> |p| == 2 && NoLowerCase(p)
  {
    var ts := Iter(trips).value;
    UnionSpec(TripPrefixes, ts);
    forall p | p in Prefixes(trips).value
      ensures |p| == 2 && NoLowerCase(p)
    {
      var j :| 0 <= j < |ts| && p in TripPrefixes(ts[j]).value;
      TripPrefixShape(ts[j]);
    }
  }

  /** The two inner loops of `filter_people_with_multiple_airline_prefixes`: one person's prefix set. */
  method PersonPrefixes(trips: Json) returns (r: Outcome<set<string>>)
    ensures r == Prefixes(trips)
  {
    var ts := Iter(trips);
    if ts.Raised? {
      return Raised;
    }
    var prefixes: set<string> := {};
    for j := 0 to |ts.value|
      invariant Union(TripPrefixes, ts.value[..j]) == Returned(prefixes)
    {
      UnionStep(TripPrefixes, ts.value, j);
      var items := TripItems(ts.value[j]);
      if items.Raised? {
        UnionPrefixRaised(TripPrefixes, ts.value, j + 1);
        return Raised;
      }
      ghost var before := prefixes;
      ghost var added: set<string> := {};
      for k := 0 to |items.value|
        invariant Union(ItemPrefixSet, items.value[..k]) == Returned(added)
        invariant prefixes == before + added
      {
        UnionStep(ItemPrefixSet, items.value, k);
        var p := ItemPrefix(items.value[k]);
        if p.Raised? {
          UnionPrefixRaised(ItemPrefixSet, items.value, k + 1);
          UnionPrefixRaised(TripPrefixes, ts.value, j + 1);
          return Raised;
        }
        if p.value.Some? {
          prefixes := prefixes + {p.value.value};
          added := added + {p.value.value};
        } else {
          assert added + {} == added;
        }
      }
      assert items.value[..|items.value|] == items.value;
    }
    assert ts.value[..|ts.value|] == ts.value;
    return Returned(prefixes);
  }

  /** A person who qualifies, with the prefix set `list(prefixes)` is taken from. */
  datatype Qualified = Qualified(userName: Json, prefixes: set<string>, trips: Json)

  function Qualify(person: PersonTrips): Outcome<Option<Qualified>> {
    var ps :- Prefixes(person.trips);
    Returned(if |ps| >= 2 then Some(Qualified(person.userName, ps, person.trips)) else None)
  }

  /** The people `filter_people_with_multiple_airline_prefixes` keeps. */
  function Qualifying(people: seq<PersonTrips>): Outcome<seq<Qualified>> {
    Collect(Qualify, people)
  }

  /**
   * The kept people are, in order, exactly those with at least two distinct
   * prefixes, carrying their `UserName` and `Trips` unchanged; every prefix
   * is a two-character string with no lower-case letter.
   */
  lemma QualifyingSpec(people: seq<PersonTrips>)
    requires Qualifying(people).Returned?
    ensures var q, h := Qualifying(people).value, Hits(Qualify, people);
      && |q| == |h| <= |people|
      && StrictlyIncreasing(h)
      && (forall k :: 0 <= k < |h| ==>
            && h[k] < |people|
            && q[k].userName == people[h[k]].userName && q[k].trips == people[h[k]].trips
            && Prefixes(people[h[k]].trips) == Returned(q[k].prefixes)
            && |q[k].prefixes| >= 2
            && forall p :: p in q[k].prefixes ==> |p| == 2 && NoLowerCase(p))
      && (forall i :: 0 <= i < |people| ==>
            Prefixes(people[i].trips).Returned? && (i in h <==> |Prefixes(people[i].trips).value| >= 2))
  {
    CollectSpec(Qualify, people);
    CollectRaised(Qualify, people);
    var q, h := Qualifying(people).value, Hits(Qualify, people);
    forall k | 0 <= k < |h|
      ensures forall p :: p in q[k].prefixes ==> |p| == 2 && NoLowerCase(p)
    {
      PrefixShape(people[h[k]].trips);
    }
  }

  /** A dict appended to `valid_people`. */
  datatype Eligible = Eligible(userName: Json, airlinePrefixes: seq<string>, trips: Json)

  /** `e` is what the script appends for the qualifying person `q`: `AirlinePrefixes` lists the set, each prefix once. */
  ghost predicate Lists(e: Eligible, q: Qualified) {
    && e.userName == q.userName && e.trips == q.trips
    && Distinct(e.airlinePrefixes)
    && |e.airlinePrefixes| == |q.prefixes|
    && (forall p :: p in e.airlinePrefixes <==> p in q.prefixes)
  }

  /** Extending both lists by a matching pair keeps them matched position by position. */
  lemma AppendListed(valid: seq<Eligible>, chosen: seq<Qualified>, e: Eligible, q: Qualified)
    requires |valid| == |chosen| && Lists(e, q)
    requires forall k :: 0 <= k < |valid| ==> Lists(valid[k], chosen[k])
    ensures forall k :: 0 <= k < |valid + [e]| ==> Lists((valid + [e])[k], (chosen + [q])[k])
  {
    forall k | 0 <= k < |valid + [e]|
      ensures Lists((valid + [e])[k], (chosen + [q])[k])
    {
      if k < |valid| {
        assert (valid + [e])[k] == valid[k] && (chosen + [q])[k] == chosen[k];
      }
    }
  }

  /** `filter_people_with_multiple_airline_prefixes`. */
  method FilterPeopleWithMultipleAirlinePrefixes(people: seq<PersonTrips>) returns (r: Outcome<seq<Eligible>>)
    ensures r.Raised? <==> Qualifying(people).Raised?
    ensures r.Returned? ==>
      && |r.value| == |Qualifying(people).value|
      && forall k :: 0 <= k < |r.value| ==> Lists(r.value[k], Qualifying(people).value[k])
  {
    var valid: seq<Eligible> := [];
    ghost var chosen: seq<Qualified> := [];
    for i := 0 to |people|
      invariant Collect(Qualify, people[..i]) == Returned(chosen)
      invariant |valid| == |chosen|
      invariant forall k :: 0 <= k < |valid| ==> Lists(valid[k], chosen[k])
    {
      CollectStep(Qualify, people, i);
      var person := people[i];
      var prefixes := PersonPrefixes(person.trips);
      if prefixes.Raised? {
        CollectPrefixRaised(Qualify, people, i + 1);
        return Raised;
      }
      if |prefixes.value| >= 2 {
        var list := ListOfSet(prefixes.value);
        var e := Eligible(person.userName, list, person.trips);
        ghost var q := Qualified(person.userName, prefixes.value, person.trips);
        assert Qualify(person) == Returned(Some(q));
        AppendListed(valid, chosen, e, q);
        valid := valid + [e];
        chosen := chosen + [q];
      } else {
        assert Qualify(person) == Returned(None);
      }
    }
    assert people[..|people|] == people;
    return Returned(valid);
  }

  // ---------------------------------------------------------------- the longest flight

  /** The dict `longest`. */
  datatype Longest = Longest(userName: Json, distance: Json, airlines: seq<string>)

  /** A plan item with a `Distance` that is not `None`. */
  predicate HasDistance(item: Json) {
    item.JObj? && "Distance" in item.fields && item.fields["Distance"] != JNull
  }

  /** The flight an item stands for: its owner, its distance and its owner's prefixes. */
  function FlightOf(person: Eligible, item: Json): Longest
    requires HasDistance(item)
  {
    Longest(person.userName, item.fields["Distance"], person.airlinePrefixes)
  }

  /** The guard `'Distance' in item and item['Distance'] is not None`, yielding the item's flight. */
  function ItemFlight(person: Eligible, item: Json): (r: Outcome<Option<Longest>>)
    ensures r.Returned? && r.value.Some? <==> HasDistance(item)
    ensures HasDistance(item) ==> r == Returned(Some(FlightOf(person, item)))
    ensures item.JObj? ==> r.Returned?
  {
    var has :- Contains(item, "Distance");
    if !has then Returned(None)
    else
      var d :- Subscript(item, "Distance");
      if d == JNull then Returned(None)
      else Returned(Some(Longest(person.userName, d, person.airlinePrefixes)))
  }

  /** `if not longest or item['Distance'] > longest['Distance']`: the strict `>` keeps the earlier flight on a tie. */
  function Better(longest: Option<Longest>, flight: Longest): Outcome<Option<Longest>> {
    if longest.None? then Returned(Some(flight))
    else
      var greater :- Greater(flight.distance, longest.value.distance);
      Returned(if greater then Some(flight) else longest)
  }

  /** The innermost loop body. */
  function ItemStep(person: Eligible): (Option<Longest>, Json) -> Outcome<Option<Longest>> {
    (longest: Option<Longest>, item: Json) =>
      match ItemFlight(person, item)
      case Raised => Raised
      case Returned(f) => if f.None? then Returned(longest) else Better(longest, f.value)
  }

  /** The middle loop body: one trip's plan items. */
  function TripStep(person: Eligible): (Option<Longest>, Json) -> Outcome<Option<Longest>> {
    (longest: Option<Longest>, trip: Json) =>
      match TripItems(trip)
      case Raised => Raised
      case Returned(items) => FoldL(ItemStep(person), longest, items)
  }

  /** The outer loop body: one person's trips. */
  function PersonStep(longest: Option<Longest>, person: Eligible): Outcome<Option<Longest>> {
    match Iter(person.trips)
    case Raised => Raised
    case Returned(trips) => FoldL(TripStep(person), longest, trips)
  }

  /** What `find_person_with_longest_flight` returns. */
  function FindLongest(people: seq<Eligible>): Outcome<Option<Longest>> {
    FoldL(PersonStep, None, people)
  }

  /** `find_person_with_longest_flight`. */
  method FindPersonWithLongestFlight(people: seq<Eligible>) returns (r: Outcome<Option<Longest>>)
    ensures r == FindLongest(people)
  {
    var longest: Option<Longest> := None;
    for i := 0 to |people|
      invariant FoldL(PersonStep, None, people[..i]) == Returned(longest)
    {
      FoldStep(PersonStep, None, people, i);
      var person := people[i];
      var trips := Iter(person.trips);
      if trips.Raised? {
        FoldStepRaised(PersonStep, None, people, i);
        return Raised;
      }
      ghost var atPerson := longest;
      for j := 0 to |trips.value|
        invariant FoldL(TripStep(person), atPerson, trips.value[..j]) == Returned(longest)
      {
        FoldStep(TripStep(person), atPerson, trips.value, j);
        var items := TripItems(trips.value[j]);
        if items.Raised? {
          FoldStepRaised(TripStep(person), atPerson, trips.value, j);
          FoldStepRaised(PersonStep, None, people, i);
          return Raised;
        }
        ghost var atTrip := longest;
        for k := 0 to |items.value|
          invariant FoldL(ItemStep(person), atTrip, items.value[..k]) == Returned(longest)
        {
          FoldStep(ItemStep(person), atTrip, items.value, k);
          var item := items.value[k];
          var step := ScanItem(person, longest, item);
          if step.Raised? {
            FoldStepRaised(ItemStep(person), atTrip, items.value, k);
            FoldStepRaised(TripStep(person), atPerson, trips.value, j);
            FoldStepRaised(PersonStep, None, people, i);
            return Raised;
          }
          longest := step.value;
        }
        assert items.value[..|items.value|] == items.value;
      }
      assert trips.value[..|trips.value|] == trips.value;
    }
    assert people[..|people|] == people;
    return Returned(longest);
  }

  lemma ItemStepUnfold(person: Eligible, longest: Option<Longest>, item: Json)
    ensures ItemStep(person)(longest, item) ==
      match ItemFlight(person, item)
      case Raised => Raised
      case Returned(f) => if f.None? then Returned(longest) else Better(longest, f.value)
  {
  }

  /** The body of the innermost loop of `find_person_with_longest_flight`. */
  method ScanItem(person: Eligible, longest: Option<Longest>, item: Json) returns (r: Outcome<Option<Longest>>)
    ensures r == ItemStep(person)(longest, item)
  {
    ItemStepUnfold(person, longest, item);
    var has := Contains(item, "Distance");
    if has.Raised? {
      assert ItemFlight(person, item).Raised?;
      return Raised;
    }
    if !has.value {
      assert ItemFlight(person, item) == Returned(None);
      return Returned(longest);
    }
    var distance := Subscript(item, "Distance");
    if distance.Raised? {
      assert ItemFlight(person, item).Raised?;
      return Raised;
    }
    if distance.value == JNull {
      assert ItemFlight(person, item) == Returned(None);
      return Returned(longest);
    }
    var flight := Longest(person.userName, distance.value, person.airlinePrefixes);
    assert ItemFlight(person, item) == Returned(Some(flight));
    if longest.None? {
      return Returned(Some(flight));
    }
    var greater := Greater(distance.value, longest.value.distance);
    if greater.Raised? {
      return Raised;
    }
    if greater.value {
      return Returned(Some(flight));
    }
    return Returned(longest);
  }

  // ---------------------------------------------------------------- the longest flight, by its flights

  function ItemFlightAttempt(person: Eligible): Json -> Outcome<Option<Longest>> {
    item => ItemFlight(person, item)
  }

  /** The flights of a person's trips, trip by trip and item by item. */
  function TripsFlights(person: Eligible, trips: seq<Json>): Outcome<seq<Longest>>
    decreases |trips|
  {
    if trips == [] then Returned([])
    else
      var init :- TripsFlights(person, trips[..|trips| - 1]);
      var items :- TripItems(trips[|trips| - 1]);
      var flights :- Collect(ItemFlightAttempt(person), items);
      Returned(init + flights)
  }

  function PersonFlights(person: Eligible): Outcome<seq<Longest>> {
    var trips :- Iter(person.trips);
    TripsFlights(person, trips)
  }

  /** Every flight of every person, in the order the loops visit them. */
  function Flights(people: seq<Eligible>): Outcome<seq<Longest>>
    decreases |people|
  {
    if people == [] then Returned([])
    else
      var init :- Flights(people[..|people| - 1]);
      var last :- PersonFlights(people[|people| - 1]);
      Returned(init + last)
  }

  /** The first maximum of a list of flights under `Better`. */
  function ArgMax(flights: seq<Longest>): Outcome<Option<Longest>> {
    FoldL(Better, None, flights)
  }

  /** Scanning items is picking among their flights. */
  lemma {:induction false} ItemsAgree(person: Eligible, longest: Option<Longest>, items: seq<Json>)
    ensures FoldL(ItemStep(person), longest, items) ==
      (match Collect(ItemFlightAttempt(person), items)
       case Raised => Raised
       case Returned(flights) => FoldL(Better, longest, flights))
    decreases |items|
  {
    if items != [] {
      var n := |items| - 1;
      var init := items[..n];
      ItemsAgree(person, longest, init);
      assert items[..n + 1] == items;
      FoldStep(ItemStep(person), longest, items, n);
      CollectStep(ItemFlightAttempt(person), items, n);
      match Collect(ItemFlightAttempt(person), init)
      case Raised =>
      case Returned(fs) =>
        match ItemFlight(person, items[n])
        case Raised =>
        case Returned(f) =>
          if f.Some? {
            FoldConcat(Better, longest, fs, [f.value]);
            assert FoldL(Better, longest, [f.value]) == Better(longest, f.value) by {
              assert [f.value][..0] == [];
            }
          }
    }
  }

  /** Scanning trips is picking among their flights. */
  lemma {:induction false} TripsAgree(person: Eligible, longest: Option<Longest>, trips: seq<Json>)
    ensures FoldL(TripStep(person), longest, trips) ==
      (match TripsFlights(person, trips)
       case Raised => Raised
       case Returned(flights) => FoldL(Better, longest, flights))
    decreases |trips|
  {
    if trips != [] {
      var n := |trips| - 1;
      var init := trips[..n];
      TripsAgree(person, longest, init);
      assert trips[..n + 1] == trips;
      FoldStep(TripStep(person), longest, trips, n);
      match TripsFlights(person, init)
      case Raised =>
      case Returned(fs) =>
        forall gs {
          FoldConcat(Better, longest, fs, gs);
        }
        match FoldL(Better, longest, fs)
        case Raised =>
        case Returned(b) =>
          match TripItems(trips[n])
          case Raised =>
          case Returned(items) =>
            ItemsAgree(person, b, items);
    }
  }

  /** Scanning people is picking among their flights. */
  lemma {:induction false} PeopleAgree(longest: Option<Longest>, people: seq<Eligible>)
    ensures FoldL(PersonStep, longest, people) ==
      (match Flights(people)
       case Raised => Raised
       case Returned(flights) => FoldL(Better, longest, flights))
    decreases |people|
  {
    if people != [] {
      var n := |people| - 1;
      var init := people[..n];
      PeopleAgree(longest, init);
      assert people[..n + 1] == people;
      FoldStep(PersonStep, longest, people, n);
      match Flights(init)
      case Raised =>
      case Returned(fs) =>
        forall gs {
          FoldConcat(Better, longest, fs, gs);
        }
        match FoldL(Better, longest, fs)
        case Raised =>
        case Returned(b) =>
          match Iter(people[n].trips)
          case Raised =>
          case Returned(trips) =>
            TripsAgree(people[n], b, trips);
    }
  }

  /** The scan of `find_person_with_longest_flight` is the first maximum of all flights. */
  lemma FindLongestIsArgMax(people: seq<Eligible>)
    ensures FindLongest(people) ==
      (match Flights(people)
       case Raised => Raised
       case Returned(flights) => ArgMax(flights))
  {
    PeopleAgree(None, people);
  }

  /** Flight `i` is the first one whose distance no other flight exceeds. */
  ghost predicate FirstMaximum(flights: seq<Longest>, i: int)
    requires forall k :: 0 <= k < |flights| ==> IsNumber(flights[k].distance)
  {
    && 0 <= i < |flights|
    && (forall j :: 0 <= j < |flights| ==> Num(flights[j].distance) <= Num(flights[i].distance))
    && (forall j :: 0 <= j < i ==> Num(flights[j].distance) < Num(flights[i].distance))
  }

  /** Appending one flight: the old first maximum stays unless the new flight is strictly longer. */
  lemma FirstMaximumStep(flights: seq<Longest>, i: nat)
    requires |flights| >= 2
    requires forall k :: 0 <= k < |flights| ==> IsNumber(flights[k].distance)
    requires FirstMaximum(flights[..|flights| - 1], i)
    ensures var n := |flights| - 1;
      FirstMaximum(flights, if Num(flights[n].distance) > Num(flights[i].distance) then n else i)
  {
    var n := |flights| - 1;
    assert forall j :: 0 <= j < n ==> flights[..n][j] == flights[j];
  }

  /** With numeric distances, `ArgMax` picks the first flight whose distance no other flight exceeds. */
  lemma {:induction false} ArgMaxSpec(flights: seq<Longest>)
    requires forall k :: 0 <= k < |flights| ==> IsNumber(flights[k].distance)
    ensures ArgMax(flights).Returned?
    ensures ArgMax(flights).value.None? <==> flights == []
    ensures flights != [] ==> exists i ::
      && 0 <= i < |flights|
      && ArgMax(flights).value == Some(flights[i])
      && (forall j :: 0 <= j < |flights| ==> Num(flights[j].distance) <= Num(flights[i].distance))
      && (forall j :: 0 <= j < i ==> Num(flights[j].distance) < Num(flights[i].distance))
    decreases |flights|
  {
    if flights != [] {
      var n := |flights| - 1;
      var init := flights[..n];
      ArgMaxSpec(init);
      assert flights[..n + 1] == flights;
      FoldStep(Better, None, flights, n);
      if init == [] {
        assert ArgMax(flights).value == Some(flights[0]);
        assert FirstMaximum(flights, 0);
      } else {
        var i :| && 0 <= i < n && ArgMax(init).value == Some(init[i])
                 && (forall j :: 0 <= j < n ==> Num(init[j].distance) <= Num(init[i].distance))
                 && (forall j :: 0 <= j < i ==> Num(init[j].distance) < Num(init[i].distance));
        assert FirstMaximum(init, i);
        FirstMaximumStep(flights, i);
        assert init[i] == flights[i];
        if Num(flights[n].distance) > Num(flights[i].distance) {
          assert ArgMax(flights).value == Some(flights[n]);
          assert FirstMaximum(flights, n);
        } else {
          assert ArgMax(flights).value == Some(flights[i]);
          assert FirstMaximum(flights, i);
        }
      }
    }
  }

  // ---------------------------------------------------------------- which items have flights

  ghost predicate ItemsSilent(items: seq<Json>) {
    forall k :: 0 <= k < |items| ==> !HasDistance(items[k])
  }

  ghost predicate TripsSilent(trips: seq<Json>) {
    forall j :: 0 <= j < |trips| ==> TripItems(trips[j]).Returned? ==> ItemsSilent(TripItems(trips[j]).value)
  }

  /** No plan item of any person has a `Distance` that is not `None`. */
  ghost predicate PeopleSilent(people: seq<Eligible>) {
    forall i :: 0 <= i < |people| ==> Iter(people[i].trips).Returned? ==> TripsSilent(Iter(people[i].trips).value)
  }

  lemma ItemsFlights(person: Eligible, items: seq<Json>)
    requires Collect(ItemFlightAttempt(person), items).Returned?
    ensures Collect(ItemFlightAttempt(person), items).value == [] <==> ItemsSilent(items)
    ensures forall k :: 0 <= k < |items| && HasDistance(items[k]) ==>
      FlightOf(person, items[k]) in Collect(ItemFlightAttempt(person), items).value
  {
    CollectSpec(ItemFlightAttempt(person), items);
    var r, h := Collect(ItemFlightAttempt(person), items).value, Hits(ItemFlightAttempt(person), items);
    forall k | 0 <= k < |items| && HasDistance(items[k])
      ensures FlightOf(person, items[k]) in r
    {
      assert k in h;
      var m :| 0 <= m < |h| && h[m] == k;
      assert r[m] == FlightOf(person, items[k]);
    }
    if r != [] {
      assert h[0] < |items| && HasDistance(items[h[0]]);
    }
  }

  /** Silence of a list of trips is silence of all but the last, and of the last. */
  lemma TripsSilentSplit(trips: seq<Json>)
    requires trips != []
    ensures var n := |trips| - 1;
      TripsSilent(trips) <==>
        TripsSilent(trips[..n]) && (TripItems(trips[n]).Returned? ==> ItemsSilent(TripItems(trips[n]).value))
  {
    var n := |trips| - 1;
    assert forall j :: 0 <= j < n ==> trips[..n][j] == trips[j];
  }

  lemma {:induction false} TripsFlightsEmpty(person: Eligible, trips: seq<Json>)
    requires TripsFlights(person, trips).Returned?
    ensures TripsFlights(person, trips).value == [] <==> TripsSilent(trips)
    decreases |trips|
  {
    if trips != [] {
      var n := |trips| - 1;
      var init := trips[..n];
      TripsFlightsEmpty(person, init);
      TripsSilentSplit(trips);
      ItemsFlights(person, TripItems(trips[n]).value);
    }
  }

  lemma {:induction false} TripsFlightsCover(person: Eligible, trips: seq<Json>)
    requires TripsFlights(person, trips).Returned?
    ensures forall j :: 0 <= j < |trips| ==>
      && TripItems(trips[j]).Returned?
      && Collect(ItemFlightAttempt(person), TripItems(trips[j]).value).Returned?
      && forall f :: f in Collect(ItemFlightAttempt(person), TripItems(trips[j]).value).value ==>
           f in TripsFlights(person, trips).value
    decreases |trips|
  {
    if trips != [] {
      var n := |trips| - 1;
      var init := trips[..n];
      TripsFlightsCover(person, init);
      assert forall j :: 0 <= j < n ==> init[j] == trips[j];
    }
  }

  /** Silence of a list of people is silence of all but the last, and of the last. */
  lemma PeopleSilentSplit(people: seq<Eligible>)
    requires people != []
    ensures var n := |people| - 1;
      PeopleSilent(people) <==>
        PeopleSilent(people[..n]) && (Iter(people[n].trips).Returned? ==> TripsSilent(Iter(people[n].trips).value))
  {
    var n := |people| - 1;
    assert forall i :: 0 <= i < n ==> people[..n][i] == people[i];
  }

  lemma {:induction false} FlightsEmpty(people: seq<Eligible>)
    requires Flights(people).Returned?
    ensures Flights(people).value == [] <==> PeopleSilent(people)
    decreases |people|
  {
    if people != [] {
      var n := |people| - 1;
      var init := people[..n];
      FlightsEmpty(init);
      PeopleSilentSplit(people);
      TripsFlightsEmpty(people[n], Iter(people[n].trips).value);
    }
  }

  lemma {:induction false} FlightsCover(people: seq<Eligible>)
    requires Flights(people).Returned?
    ensures forall i :: 0 <= i < |people| ==>
      && Iter(people[i].trips).Returned?
      && TripsFlights(people[i], Iter(people[i].trips).value).Returned?
      && forall f :: f in TripsFlights(people[i], Iter(people[i].trips).value).value ==> f in Flights(people).value
    decreases |people|
  {
    if people != [] {
      var n := |people| - 1;
      var init := people[..n];
      FlightsCover(init);
      assert forall i :: 0 <= i < n ==> init[i] == people[i];
    }
  }

  /** `item` is a plan item of one of `trips`. */
  ghost predicate InTrips(trips: seq<Json>, item: Json) {
    exists j :: 0 <= j < |trips| && TripItems(trips[j]).Returned? && item in TripItems(trips[j]).value
  }

  /** `item` is a plan item of one of `person`'s trips. */
  ghost predicate ItemOfPerson(person: Eligible, item: Json) {
    Iter(person.trips).Returned? && InTrips(Iter(person.trips).value, item)
  }

  /** Every flight of a trip is the flight of one of its items that has a distance. */
  lemma ItemsFlightsOwned(person: Eligible, items: seq<Json>)
    requires Collect(ItemFlightAttempt(person), items).Returned?
    ensures forall f :: f in Collect(ItemFlightAttempt(person), items).value ==>
      exists item :: item in items && HasDistance(item) && f == FlightOf(person, item)
  {
    CollectSpec(ItemFlightAttempt(person), items);
    var r, h := Collect(ItemFlightAttempt(person), items).value, Hits(ItemFlightAttempt(person), items);
    forall f | f in r
      ensures exists item :: item in items && HasDistance(item) && f == FlightOf(person, item)
    {
      var m :| 0 <= m < |r| && r[m] == f;
      var item := items[h[m]];
      assert ItemFlight(person, item) == Returned(Some(f));
    }
  }

  /** Every flight of a person's trips is the flight of one of their items that has a distance. */
  lemma {:induction false} TripsFlightsOwned(person: Eligible, trips: seq<Json>)
    requires TripsFlights(person, trips).Returned?
    ensures forall f :: f in TripsFlights(person, trips).value ==>
      exists item :: InTrips(trips, item) && HasDistance(item) && f == FlightOf(person, item)
    decreases |trips|
  {
    if trips != [] {
      var n := |trips| - 1;
      var init := trips[..n];
      TripsFlightsOwned(person, init);
      var items := TripItems(trips[n]).value;
      ItemsFlightsOwned(person, items);
      forall f | f in TripsFlights(person, trips).value
        ensures exists item :: InTrips(trips, item) && HasDistance(item) && f == FlightOf(person, item)
      {
        if f in TripsFlights(person, init).value {
          var item :| InTrips(init, item) && HasDistance(item) && f == FlightOf(person, item);
          var j :| 0 <= j < n && TripItems(init[j]).Returned? && item in TripItems(init[j]).value;
          assert init[j] == trips[j];
        } else {
          var item :| item in items && HasDistance(item) && f == FlightOf(person, item);
          assert InTrips(trips, item);
        }
      }
    }
  }

  /** Every flight in `Flights(people)` is the flight of an item, with a distance, of one of the people. */
  lemma {:induction false} FlightsOwned(people: seq<Eligible>)
    requires Flights(people).Returned?
    ensures forall f :: f in Flights(people).value ==>
      exists o, item :: 0 <= o < |people| && ItemOfPerson(people[o], item) && HasDistance(item) && f == FlightOf(people[o], item)
    decreases |people|
  {
    if people != [] {
      var n := |people| - 1;
      var init := people[..n];
      FlightsOwned(init);
      TripsFlightsOwned(people[n], Iter(people[n].trips).value);
      forall f | f in Flights(people).value
        ensures exists o, item :: 0 <= o < |people| && ItemOfPerson(people[o], item) && HasDistance(item) && f == FlightOf(people[o], item)
      {
        if f in Flights(init).value {
          var o, item :| 0 <= o < n && ItemOfPerson(init[o], item) && HasDistance(item) && f == FlightOf(init[o], item);
          assert init[o] == people[o];
        } else {
          var item :| InTrips(Iter(people[n].trips).value, item) && HasDistance(item) && f == FlightOf(people[n], item);
          assert ItemOfPerson(people[n], item);
        }
      }
    }
  }

  /**
   * `find_person_with_longest_flight` answers `None` exactly when no plan
   * item has a `Distance` that is not `None`.
   */
  lemma NoneIffNoDistance(people: seq<Eligible>)
    requires FindLongest(people).Returned?
    ensures FindLongest(people).value.None? <==> PeopleSilent(people)
  {
    FindLongestIsArgMax(people);
    FlightsEmpty(people);
    ArgMaxIsNoneOnlyWhenEmpty(Flights(people).value);
  }

  lemma {:induction false} ArgMaxIsNoneOnlyWhenEmpty(flights: seq<Longest>)
    requires ArgMax(flights).Returned?
    ensures ArgMax(flights).value.None? <==> flights == []
    decreases |flights|
  {
    if flights != [] {
      var n := |flights| - 1;
      assert flights[..n + 1] == flights;
      FoldStep(Better, None, flights, n);
    }
  }

  /**
   * With numeric distances and an item `k` of trip `j` of person `i` that has
   * a distance, there is an answer: the flight of an item, with a distance, of
   * some person `o` (so it carries `o`'s `UserName` and prefixes); the item
   * named is not longer, and the answer is the first flight (in visiting
   * order) that every earlier flight is shorter than.
   */
  lemma LongestIsFirstMaximum(people: seq<Eligible>, i: nat, j: nat, k: nat)
    requires Flights(people).Returned?
    requires forall f :: f in Flights(people).value ==> IsNumber(f.distance)
    requires i < |people| && Iter(people[i].trips).Returned?
    requires j < |Iter(people[i].trips).value| && TripItems(Iter(people[i].trips).value[j]).Returned?
    requires k < |TripItems(Iter(people[i].trips).value[j]).value|
    requires HasDistance(TripItems(Iter(people[i].trips).value[j]).value[k])
    ensures FindLongest(people).Returned? && FindLongest(people).value.Some?
    ensures var item := TripItems(Iter(people[i].trips).value[j]).value[k];
      Greater(item.fields["Distance"], FindLongest(people).value.value.distance) == Returned(false)
    ensures var fs := Flights(people).value; exists m ::
      && 0 <= m < |fs| && FindLongest(people).value == Some(fs[m])
      && forall l :: 0 <= l < m ==> Greater(fs[m].distance, fs[l].distance) == Returned(true)
    ensures exists o, item ::
      && 0 <= o < |people| && ItemOfPerson(people[o], item) && HasDistance(item)
      && FindLongest(people).value == Some(FlightOf(people[o], item))
      && FindLongest(people).value.value.userName == people[o].userName
      && FindLongest(people).value.value.airlines == people[o].airlinePrefixes
  {
    var fs := Flights(people).value;
    var trips := Iter(people[i].trips).value;
    var items := TripItems(trips[j]).value;
    FindLongestIsArgMax(people);
    FlightsCover(people);
    TripsFlightsCover(people[i], trips);
    ItemsFlights(people[i], items);
    var f := FlightOf(people[i], items[k]);
    assert f in fs;
    ArgMaxSpec(fs);
    LongestOwned(people);
  }

  /** A flight found by `find_person_with_longest_flight` belongs to an item, with a distance, of one of the people. */
  lemma LongestOwned(people: seq<Eligible>)
    requires Flights(people).Returned?
    requires forall f :: f in Flights(people).value ==> IsNumber(f.distance)
    requires FindLongest(people).Returned? && FindLongest(people).value.Some?
    ensures exists o, item ::
      && 0 <= o < |people| && ItemOfPerson(people[o], item) && HasDistance(item)
      && FindLongest(people).value == Some(FlightOf(people[o], item))
  {
    var fs := Flights(people).value;
    FindLongestIsArgMax(people);
    ArgMaxSpec(fs);
    FlightsOwned(people);
    assert FindLongest(people).value.value in fs;
  }
}
