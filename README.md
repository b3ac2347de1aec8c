# Four API integration scripts, modelled in Dafny

The four scripts of `data-engineering/integration-dev-home-task` each pull JSON
from a public API and reshape it:

- `fetch_starwars_vehicles.py` pages through the SWAPI vehicle listing, projects
  every vehicle to five fields and replaces its pilot URLs by pilot records whose
  species, homeworld and film titles are fetched one level further.
- `grievous_related_characters.py` finds General Grievous through a memoising
  `get_cached`, collects the characters of his films, enriches each one with a
  species name and film titles, and keeps the non-droids that appear in at least
  two films.
- `find_longest_flight.py` lists the TripPin people that have trips, keeps those
  whose flight numbers show at least two airline prefixes, and finds the single
  longest flight among them.
- `team_salary_report.py` loads employees into an `Employees` table and runs a
  recursive query that gives every employee the salary sum of their whole team.

The model replaces the network by a fixed answer per URL (`Remote.Api`), a Python
exception by `Py.Outcome.Raised`, and decoded JSON by `Py.Json`. The loops of the
scripts are `method`s proved against specification functions (`Seqs.Collect`,
`Seqs.FoldL`, `Seqs.Union`), and the lemmas state what those functions promise.
The module-level `cache` of `grievous_related_characters.py` is the class
`Grievous.Cache`. The salary query is pure: it becomes a recursive function
over a manager relation with no cycle except self-management.

Files: `py.dfy` (Python values and built-ins, the HTTP oracle), `seqs.dfy` (the
shared loop shapes), `vehicles.dfy`, `grievous.dfy`, `flights.dfy`, `salary.dfy`.

## Model

| member | source | states |
|---|---|---|
| Seqs.ListOfSet | data-engineering/integration-dev-home-task/grievous_related_characters.py:38 | `list(s)` of a set holds every element of the set exactly once and nothing else |
| Vehicles.FetchField | data-engineering/integration-dev-home-task/fetch_starwars_vehicles.py:9-16 | a successful fetch of a dict gives its `field` (`None` when absent); a failed fetch or a body without `get` gives `None` |
| Vehicles.FetchListField | data-engineering/integration-dev-home-task/fetch_starwars_vehicles.py:18-20 | one entry per URL, same order and length, each the `fetch_field` of its URL, so a failure leaves `None` in its place |
| Vehicles.EnrichPilot | data-engineering/integration-dev-home-task/fetch_starwars_vehicles.py:32-39 | a non-dict pilot raises; for a dict it raises exactly when resolving the species or iterating `films` raises, and otherwise copies `name` and `edited`, resolves `homeworld` only when truthy and fetches one title per film |
| Vehicles.SpeciesFromFirstReference | data-engineering/integration-dev-home-task/fetch_starwars_vehicles.py:35 | a falsy `species` gives `None`; otherwise only the first species URL is fetched, and its failure gives `None` |
| Vehicles.PilotDataSpec | data-engineering/integration-dev-home-task/fetch_starwars_vehicles.py:22-47 | `get_pilot_data` never raises; it yields one record per pilot whose fetch and enrichment succeed, in URL order, and no more records than URLs |
| Vehicles.FetchPilot | data-engineering/integration-dev-home-task/fetch_starwars_vehicles.py:27-45 | reference definition of one iteration of `get_pilot_data`: `None` for a failed fetch or a pilot whose enrichment raises, otherwise the `EnrichPilot` record; its properties are stated by `PilotDataSpec` and `FailedPilotSkipped` |
| Vehicles.FailedPilotSkipped | data-engineering/integration-dev-home-task/fetch_starwars_vehicles.py:28-30 | a pilot whose fetch fails contributes no record |
| Vehicles.GetPilotData | data-engineering/integration-dev-home-task/fetch_starwars_vehicles.py:22-47 | the loop with its two `continue`s returns exactly the records of `PilotData` |
| Vehicles.FetchPageSpec | data-engineering/integration-dev-home-task/fetch_starwars_vehicles.py:56-71 | a page loads exactly when its body is a dict whose `results` is iterable and yields only dicts (an empty string gives a page with no records); record `k` is exactly `name`, `model`, `vehicle_class` as the class, `edited` and `pilots` of raw record `k`; the cursor is `next` |
| Vehicles.FetchPage | data-engineering/integration-dev-home-task/fetch_starwars_vehicles.py:56-71 | reference definition of fetching and reading one page; what it promises is stated by `FetchPageSpec` |
| Vehicles.ChainStep | data-engineering/integration-dev-home-task/fetch_starwars_vehicles.py:55-71 | a page that loads contributes its records ahead of those of the pages its `next` leads to, and is requested first |
| Vehicles.ChainStop | data-engineering/integration-dev-home-task/fetch_starwars_vehicles.py:56-58 | a page that fails makes the whole listing raise, and it is the last page requested |
| Vehicles.SelfLinkedPageNeverEnds | data-engineering/integration-dev-home-task/fetch_starwars_vehicles.py:55-71 | a page whose `next` is its own URL never ends the loop within any number of requests: there is no cycle guard |
| Vehicles.PagesRequestedBounded | data-engineering/integration-dev-home-task/fetch_starwars_vehicles.py:55-71 | a chain that ends within `bound` requests requests at most `bound` pages |
| Vehicles.PagesRequestedUnique | data-engineering/integration-dev-home-task/fetch_starwars_vehicles.py:55-71 | the pages requested do not depend on which bound the chain was shown to end within |
| Vehicles.PagesRequestedSuffix | data-engineering/integration-dev-home-task/fetch_starwars_vehicles.py:55-71 | the requests from the `k`-th page on are those of the chain starting at that page, which ends within the requests the bound has left |
| Vehicles.FirstPageNotRepeated | data-engineering/integration-dev-home-task/fetch_starwars_vehicles.py:55-71 | on a chain that ends, the first page is not requested again later |
| Vehicles.PagesRequestedDistinct | data-engineering/integration-dev-home-task/fetch_starwars_vehicles.py:55-71 | on a chain that ends, every page is requested exactly once |
| Vehicles.VehiclesAreAllPages | data-engineering/integration-dev-home-task/fetch_starwars_vehicles.py:55-73 | the listing succeeds exactly when every requested page loads, and is then the concatenation of their records in page order; a failing page leaves no partial list |
| Vehicles.VehiclesFrom | data-engineering/integration-dev-home-task/fetch_starwars_vehicles.py:51-73 | reference definition of the listing from a URL onwards: the records of each page in turn, or `Raised` at the first page that fails; `GetVehiclesBasicInfo` is proved to compute it |
| Vehicles.PagesRequested | data-engineering/integration-dev-home-task/fetch_starwars_vehicles.py:55-56 | reference definition of the URLs the `while url:` loop requests, in order, the failing one included; its properties are stated by the `PagesRequested` lemmas |
| Vehicles.ReadPage | data-engineering/integration-dev-home-task/fetch_starwars_vehicles.py:56-69 | reading one page, with its inner loop, gives exactly `FetchPage` |
| Vehicles.GetVehiclesBasicInfo | data-engineering/integration-dev-home-task/fetch_starwars_vehicles.py:51-73 | the `while url:` loop returns `VehiclesFrom` and requests exactly `PagesRequested` of the listing endpoint, on a chain that ends |
| Vehicles.EnrichVehicle | data-engineering/integration-dev-home-task/fetch_starwars_vehicles.py:79-88 | the enriched copy keeps `name`, `model`, `class` and `edited`; `pilots` becomes the pilot records when truthy and `[]` otherwise; it raises only when truthy pilots cannot be iterated |
| Vehicles.EnrichVehiclePilots | data-engineering/integration-dev-home-task/fetch_starwars_vehicles.py:75-90 | one enriched copy per vehicle, same length and order; it raises exactly when some vehicle's enrichment raises |
| Grievous.Cache.constructor | data-engineering/integration-dev-home-task/grievous_related_characters.py:6 | the cache starts empty with no request sent |
| Grievous.Cache.GetCached | data-engineering/integration-dev-home-task/grievous_related_characters.py:8-19 | the answer is always the URL's decoded body or `None`; a stored URL is answered from the cache with no request and no change; otherwise one request is sent and only a success is stored, so entries are never overwritten and failures are requested again |
| Grievous.GrievousData | data-engineering/integration-dev-home-task/grievous_related_characters.py:21-29 | `None` for a falsy search answer, a missing `count` or a count of at most 0; `results[0]` for a positive count with non-empty results |
| Grievous.GetGrievousData | data-engineering/integration-dev-home-task/grievous_related_characters.py:21-29 | the cached lookup gives exactly `GrievousData`; the cache afterwards is that of one `get_cached` of the search URL (a hit changes nothing; a miss sends one request and stores only a success) |
| Grievous.CharacterUnionSpec | data-engineering/integration-dev-home-task/grievous_related_characters.py:33-37 | the union raises exactly when one film's update raises, and otherwise holds exactly the URLs some film adds |
| Grievous.RelatedUrls | data-engineering/integration-dev-home-task/grievous_related_characters.py:31-37 | reference definition of the set `character_urls` built from Grievous's `films`; `GetRelatedCharacterUrls` is proved to list exactly it and `CharacterUnionSpec` states its contents |
| Grievous.FailedFilmAddsNothing | data-engineering/integration-dev-home-task/grievous_related_characters.py:35-36 | a film whose fetch fails adds nothing |
| Grievous.FilmAddsItsCharacters | data-engineering/integration-dev-home-task/grievous_related_characters.py:35-37 | a truthy film adds exactly the URLs of its `characters` list |
| Grievous.FetchFilmCharacters | data-engineering/integration-dev-home-task/grievous_related_characters.py:34-37 | one film's lookup gives exactly `FilmCharacters`; the cache afterwards is that of one `get_cached` of the film URL |
| Grievous.GetRelatedCharacterUrls | data-engineering/integration-dev-home-task/grievous_related_characters.py:31-38 | raises exactly when the union does; otherwise a duplicate-free list holding exactly the union's URLs; every earlier cache entry stays, and at most one request is sent per film |
| Grievous.SpeciesName | data-engineering/integration-dev-home-task/grievous_related_characters.py:40-45 | `None` for a falsy list; otherwise only the first URL is looked up, `None` when that lookup fails, and its `name` when it succeeds |
| Grievous.FetchSpeciesName | data-engineering/integration-dev-home-task/grievous_related_characters.py:40-45 | the cached version gives exactly `SpeciesName`; the cache afterwards is that of one `get_cached` of `species[0]` when that URL is reached, and is untouched otherwise |
| Grievous.FilmTitlesSpec | data-engineering/integration-dev-home-task/grievous_related_characters.py:49 | titles keep input order, come from exactly the URLs whose lookup is truthy, and number at most the URLs |
| Grievous.FilmTitle | data-engineering/integration-dev-home-task/grievous_related_characters.py:49 | reference definition of one element of the comprehension: skipped when the lookup is falsy, otherwise its `title` |
| Grievous.FilmTitles | data-engineering/integration-dev-home-task/grievous_related_characters.py:47-49 | reference definition of `fetch_film_titles`; `FilmTitlesSpec` states what it promises |
| Grievous.FetchFilmTitles | data-engineering/integration-dev-home-task/grievous_related_characters.py:47-49 | the comprehension, with its two lookups per URL, gives exactly `FilmTitles`; every earlier cache entry stays, and at most one request is sent per URL |
| Grievous.FetchFilmTitle | data-engineering/integration-dev-home-task/grievous_related_characters.py:49 | one element of the comprehension gives exactly `FilmTitle`; the two lookups leave the cache as one `get_cached` does, the second being a hit that sends no request |
| Grievous.EnrichedCharactersSpec | data-engineering/integration-dev-home-task/grievous_related_characters.py:51-71 | one row per character whose lookup is truthy, in URL order, and every row's `film_count` is the length of its `films` |
| Grievous.EnrichCharacter | data-engineering/integration-dev-home-task/grievous_related_characters.py:56-71 | reference definition of one iteration of `get_enriched_characters_df`: `None` for a falsy lookup, otherwise the row with name, species, edited, film titles and their count |
| Grievous.GetEnrichedCharacters | data-engineering/integration-dev-home-task/grievous_related_characters.py:51-74 | the loop with its `continue` gives exactly `EnrichedCharacters`; every earlier cache entry stays |
| Grievous.EnrichOne | data-engineering/integration-dev-home-task/grievous_related_characters.py:56-71 | one iteration of that loop gives exactly `EnrichCharacter`; every earlier cache entry stays |
| Grievous.FilterSpec | data-engineering/integration-dev-home-task/grievous_related_characters.py:87-90 | on a non-empty frame the filter keeps, in order, exactly the rows whose species lowercased is not `droid` and whose `film_count` is at least 2; an empty frame raises |
| Grievous.FilterCharacters | data-engineering/integration-dev-home-task/grievous_related_characters.py:87-90 | reference definition of `filtered_df`: raises on a frame with no rows, otherwise keeps the rows the mask accepts; `FilterSpec` states what it promises |
| Grievous.FilterScenario | data-engineering/integration-dev-home-task/grievous_related_characters.py:87-90 | of a `Droid` in three films and humans in two and one, only the human in two films is kept |
| Flights.PersonWithTrips | data-engineering/integration-dev-home-task/find_longest_flight.py:16-22 | a person without truthy `Trips` is skipped; one with trips is kept with `UserName` and `Trips` unchanged; a non-dict, or a missing `UserName` when trips exist, raises |
| Flights.PeopleWithTripsSpec | data-engineering/integration-dev-home-task/find_longest_flight.py:10-23 | a failed request raises; otherwise the result keeps, in order, exactly the people with non-empty `Trips`, with `UserName` and `Trips` unchanged |
| Flights.PeopleWithTrips | data-engineering/integration-dev-home-task/find_longest_flight.py:10-23 | reference definition of `get_people_with_trips_and_planitems`; `PeopleWithTripsSpec` states what it promises |
| Flights.GetPeopleWithTripsAndPlanItems | data-engineering/integration-dev-home-task/find_longest_flight.py:10-23 | the loop gives exactly `PeopleWithTrips` |
| Flights.ItemPrefix | data-engineering/integration-dev-home-task/find_longest_flight.py:35-37 | a falsy flight number gives no prefix; a string one of length at least 2 gives its first two characters uppercased, and a shorter one none; every prefix has length 2 and no lower-case letter |
| Flights.TripPrefixShape | data-engineering/integration-dev-home-task/find_longest_flight.py:34-37 | every prefix of a trip has length 2 and no lower-case letter |
| Flights.PrefixShape | data-engineering/integration-dev-home-task/find_longest_flight.py:33-37 | every prefix of a person has length 2 and no lower-case letter |
| Flights.PersonPrefixes | data-engineering/integration-dev-home-task/find_longest_flight.py:32-37 | the two nested loops build exactly the prefix set `Prefixes` |
| Flights.QualifyingSpec | data-engineering/integration-dev-home-task/find_longest_flight.py:31-43 | the kept people are, in order, exactly those with at least two distinct prefixes, with `UserName` and `Trips` unchanged and well-formed prefixes |
| Flights.Qualify | data-engineering/integration-dev-home-task/find_longest_flight.py:32-43 | reference definition of one person of `filter_people_with_multiple_airline_prefixes`: kept with their prefix set when it has at least two entries; `QualifyingSpec` states what the whole filter promises |
| Flights.FilterPeopleWithMultipleAirlinePrefixes | data-engineering/integration-dev-home-task/find_longest_flight.py:25-44 | raises exactly when `Qualifying` does; otherwise one entry per qualifying person whose `AirlinePrefixes` lists the prefix set without duplicates |
| Flights.ItemFlight | data-engineering/integration-dev-home-task/find_longest_flight.py:54-60 | an item has a flight exactly when it has a `Distance` that is not `None`, and the flight carries the person's name and `AirlinePrefixes` |
| Flights.FindPersonWithLongestFlight | data-engineering/integration-dev-home-task/find_longest_flight.py:46-61 | the three nested loops give exactly `FindLongest` |
| Flights.Better | data-engineering/integration-dev-home-task/find_longest_flight.py:55-60 | reference definition of the update `if not longest or item['Distance'] > longest['Distance']`, the strict `>` keeping the earlier flight on a tie; `ArgMaxSpec` states what folding it promises |
| Py.ListGreaterPrefix | data-engineering/integration-dev-home-task/find_longest_flight.py:55 | Python's `>` on lists (the `Distance` comparison when distances are lists): a list is not greater than itself or than any extension of it, and a proper extension is greater |
| Py.PyEqReflexive | data-engineering/integration-dev-home-task/find_longest_flight.py:55 | Python's `==`, which decides where a list comparison stops, holds between a value and itself |
| Py.ListComparisons | data-engineering/integration-dev-home-task/find_longest_flight.py:55 | `[2] > [1]` and `[True, 5] > [1, 3]` hold (equal heads, including `True == 1`, pass the decision on), and `[1] > ["a"]` raises |
| Flights.FindLongest | data-engineering/integration-dev-home-task/find_longest_flight.py:46-61 | reference definition of `find_person_with_longest_flight` as a fold over people, trips and items; `FindLongestIsArgMax` and `LongestIsFirstMaximum` state what it promises |
| Flights.ScanItem | data-engineering/integration-dev-home-task/find_longest_flight.py:54-60 | one item of the innermost loop gives exactly `ItemStep` |
| Flights.ItemsAgree | data-engineering/integration-dev-home-task/find_longest_flight.py:53-60 | scanning a trip's items is taking the first maximum of their flights |
| Flights.TripsAgree | data-engineering/integration-dev-home-task/find_longest_flight.py:52-60 | scanning a person's trips is taking the first maximum of their flights |
| Flights.PeopleAgree | data-engineering/integration-dev-home-task/find_longest_flight.py:51-60 | scanning people is taking the first maximum of all their flights |
| Flights.FindLongestIsArgMax | data-engineering/integration-dev-home-task/find_longest_flight.py:50-61 | the answer is `ArgMax` of every flight in visiting order |
| Flights.ArgMaxSpec | data-engineering/integration-dev-home-task/find_longest_flight.py:55 | with numeric distances the strict `>` picks the first flight whose distance no other flight exceeds; `None` only for no flights |
| Flights.ItemsFlights | data-engineering/integration-dev-home-task/find_longest_flight.py:53-54 | a trip has no flights exactly when no item has a distance, and every item with a distance has its flight listed |
| Flights.ItemsFlightsOwned | data-engineering/integration-dev-home-task/find_longest_flight.py:53-54 | conversely, every flight of a trip is the flight of one of its items that has a distance |
| Flights.TripsFlightsEmpty | data-engineering/integration-dev-home-task/find_longest_flight.py:52-54 | a person has no flights exactly when no item of any trip has a distance |
| Flights.TripsFlightsCover | data-engineering/integration-dev-home-task/find_longest_flight.py:52-54 | every flight of every trip is among the person's flights |
| Flights.TripsFlightsOwned | data-engineering/integration-dev-home-task/find_longest_flight.py:52-54 | conversely, every flight of a person is that person's flight of an item, with a distance, of one of their trips |
| Flights.FlightsEmpty | data-engineering/integration-dev-home-task/find_longest_flight.py:51-54 | there are no flights exactly when no item of anyone has a distance |
| Flights.FlightsCover | data-engineering/integration-dev-home-task/find_longest_flight.py:51-54 | every flight of every person is among all flights |
| Flights.FlightsOwned | data-engineering/integration-dev-home-task/find_longest_flight.py:51-54 | conversely, every flight is some person's flight of one of their items that has a distance |
| Flights.NoneIffNoDistance | data-engineering/integration-dev-home-task/find_longest_flight.py:50-61 | the answer is `None` exactly when no plan item of anyone has a `Distance` that is not `None` |
| Flights.ArgMaxIsNoneOnlyWhenEmpty | data-engineering/integration-dev-home-task/find_longest_flight.py:50-55 | the first maximum is `None` exactly for no flights |
| Flights.LongestIsFirstMaximum | data-engineering/integration-dev-home-task/find_longest_flight.py:50-61 | with numeric distances, no item's distance is greater than the answer's, and the answer is the flight of an item, with a distance, of some person, carrying that person's `UserName` and prefixes, and it is the first flight in visiting order that all earlier flights are shorter than |
| Flights.LongestOwned | data-engineering/integration-dev-home-task/find_longest_flight.py:50-61 | with numeric distances, a flight found is `FlightOf` an item, with a distance, of one of the people's trips, so its name and prefixes are that person's |
| TeamSalary.DirectReports | data-engineering/integration-dev-home-task/team_salary_report.py:88-91 | exactly the rows whose `ManagerID` is `x` and who do not manage themselves, no more than the table and with unique ids |
| TeamSalary.ReachesRank | data-engineering/integration-dev-home-task/team_salary_report.py:84-91 | a transitive report is ranked below their manager: the relation has no cycle but self-loops |
| TeamSalary.ReachesThrough | data-engineering/integration-dev-home-task/team_salary_report.py:84-91 | a transitive report of a direct report of `x` is a transitive report of `x` |
| TeamSalary.Via | data-engineering/integration-dev-home-task/team_salary_report.py:84-91 | every transitive report of `x` reports through some direct report of `x` |
| TeamSalary.ViaUnique | data-engineering/integration-dev-home-task/team_salary_report.py:84-91 | with unique ids, that direct report is unique |
| TeamSalary.DirectTeamsHolding | data-engineering/integration-dev-home-task/team_salary_report.py:84-91 | exactly one direct report's team holds a transitive report of `x`, and none holds anyone else |
| TeamSalary.BelowCount | data-engineering/integration-dev-home-task/team_salary_report.py:82-91 | below `x` the recursive rows hold every transitive report of `x` exactly once and nobody else |
| TeamSalary.Below | data-engineering/integration-dev-home-task/team_salary_report.py:82-91 | reference definition of the recursive rows of the CTE below an employee; `BelowCount` states that they hold each transitive report exactly once |
| TeamSalary.BelowAll | data-engineering/integration-dev-home-task/team_salary_report.py:82-91 | reference definition of the recursive rows through a list of direct reports; `BelowAllCount` states how often each employee occurs |
| TeamSalary.BelowAllCount | data-engineering/integration-dev-home-task/team_salary_report.py:82-91 | an employee appears in the rows below some direct reports as many times as their teams hold them |
| TeamSalary.TeamRowsCount | data-engineering/integration-dev-home-task/team_salary_report.py:73-91 | the rows grouped under a root hold the root once and each transitive report once, even when the root manages themselves |
| TeamSalary.ReportsAmongCount | data-engineering/integration-dev-home-task/team_salary_report.py:73-91 | the transitive reports listed in table order hold each once |
| TeamSalary.SumSalariesPermutation | data-engineering/integration-dev-home-task/team_salary_report.py:94-96 | `SUM` does not depend on the order of the rows |
| TeamSalary.TotalIsSalaryPlusReports | data-engineering/integration-dev-home-task/team_salary_report.py:73-97 | `TotalTeamSalary` of an employee is their salary plus the salaries of all their transitive reports, each counted once |
| TeamSalary.TeamRows | data-engineering/integration-dev-home-task/team_salary_report.py:73-92 | reference definition of one group of `TeamHierarchy`: the anchor row and the recursive rows below it; `TeamRowsCount` states its contents |
| TeamSalary.TotalTeamSalary | data-engineering/integration-dev-home-task/team_salary_report.py:93-97 | reference definition of `SUM(Salary)` over one group; `TotalIsSalaryPlusReports` and `TotalIsSalaryPlusDirectTotals` state its value |
| TeamSalary.TotalIsSalaryPlusDirectTotals | data-engineering/integration-dev-home-task/team_salary_report.py:73-97 | equivalently, their salary plus the `TotalTeamSalary` of every direct report other than themselves |
| TeamSalary.SelfManagerCountedOnce | data-engineering/integration-dev-home-task/team_salary_report.py:91 | an employee whose `ManagerID` is their own id is not their own report and is counted once in their team |
| TeamSalary.NoReportsTotalIsSalary | data-engineering/integration-dev-home-task/team_salary_report.py:74-91 | an employee nobody reports to has their own salary as total |
| TeamSalary.InsertById | data-engineering/integration-dev-home-task/team_salary_report.py:98 | inserting a row with a fresh id keeps the rows in ascending id order, adds that row and loses none |
| TeamSalary.SortById | data-engineering/integration-dev-home-task/team_salary_report.py:98 | `ORDER BY EmployeeID` gives the same rows in strictly ascending id order |
| TeamSalary.Groups | data-engineering/integration-dev-home-task/team_salary_report.py:93-97 | one group per employee in table order, each with that employee's id and team total |
| TeamSalary.ReportRows | data-engineering/integration-dev-home-task/team_salary_report.py:72-98 | the result has one row per employee, carrying that employee's team total, and nothing else, in ascending `EmployeeID` order |
| TeamSalary.TeamSalaryReport | data-engineering/integration-dev-home-task/team_salary_report.py:72-98 | reference definition of the whole query result; `ReportRows` states what it promises |
| TeamSalary.FetchEmployeeData | data-engineering/integration-dev-home-task/team_salary_report.py:14-32 | the decoded body of a successful fetch, otherwise the fallback `{"employees": ""}` |
| TeamSalary.MainProceeds | data-engineering/integration-dev-home-task/team_salary_report.py:112-114 | `main` goes on exactly when the data is a dict whose `employees` is a list; a dict never makes the test raise |
| TeamSalary.FallbackRejected | data-engineering/integration-dev-home-task/team_salary_report.py:30-32 | the fallback is always rejected, so `main` goes on only with data the service sent |

## Left out

- HTTP: `requests.get`, status codes, timeouts and JSON decoding are one answer per URL, `Ok(body)` or `Fail`; a non-200 status, a transport error and an undecodable body are all `Fail`.
- The API token, `.env` loading, `logging`, `print`, `to_csv`, `json.dump` and the output paths are not modelled.
- pandas is not modelled: a frame is a sequence of records. `.drop` is out. A species that is not a string counts as not a droid. pandas refuses `.str` on a `species` column whose values are all numbers or booleans, and the model does not. A column of only `None` is accepted by both, and none of its rows is a droid.
- SQLite is not modelled: the connection, `CREATE TABLE`, `executemany` and the commit are out, and the table is a sequence of `Employee` rows. `EmployeeID INTEGER PRIMARY KEY` becomes the `UniqueIds` precondition. Such a column is never NULL, so every row passes the anchor's `IS NOT NULL`. `Salary` is never NULL in the model. SQLite's `SUM` raises on 64-bit integer overflow; the model's sums are unbounded integers.
- TeamSalary.Below: on a manager cycle through two or more employees the query recurses forever; the model requires a rank that grows from report to manager (`Ranked`) instead.
- Vehicles.GetVehiclesBasicInfo: the loop has no cycle guard, so termination rests on the `ChainEnds` precondition; a self-linked page is shown never to end (`Vehicles.SelfLinkedPageNeverEnds`).
- Grievous.GetRelatedCharacterUrls: `list(set)` has a hash-dependent order, so only membership and the absence of duplicates are stated.
- Grievous.Cache: the methods that call `get_cached` in loops promise that every earlier entry stays, and bound their requests, but do not state the exact new entries.
- GetEnrichedCharacters: the number of requests is only said not to shrink; no upper bound is stated.
- EnrichOne: the number of requests is only said not to shrink; no upper bound is stated.
- Iterating a JSON object yields its keys in Python; the model raises instead. Unhashable values used as set or dict keys are not modelled, and neither is dict order.
- Distances and salaries are integers, not floats. Case mapping in `lower()` and `upper()` is ASCII only.
- Top-level code of `find_longest_flight.py` (lines 63-77) and the parts of each `main` beyond the modelled tests of their data are out. This includes `get_related_character_urls` running on `None` after "not found" in `grievous_related_characters.py`.

## Notes on the code

- `get_cached` stores only successful bodies, so failures are fetched again.
- `get_vehicles_basic_info` has no guard against a page chain that loops.
- Among the list-field lookups, `fetch_film_titles` drops failed entries while `fetch_list_field` keeps a `None` for each; `get_pilot_data` and `get_enriched_characters_df` also skip failed lookups.
