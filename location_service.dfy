/** The location services (src/app/data-access/services/location.ts). */
module LocationService {
  import opened Wrappers
  import opened Pagination
  import opened Entities
  import opened Fetching
  import opened PageWalker

  const LocationsFailure: string := "Failed to fetch locations: "
  const AllLocationsFailure: string := "Failed to fetch all locations: "
  const ResidentCountFailure: string := "Failed to fetch locations with resident count: "

  /** The client running the locations list query. */
  type LocationsQuery = Query<Variables<LocationFilter>, RawPage<Location>>

  /** One record of `getLocationsWithResidentCount`: a location without its residents, but with their number. */
  datatype LocationSummary = LocationSummary(id: string, name: string, kind: string, dimension: string, residentCount: int)

  /** `getLocations`: one validated page of locations, or a "Failed to fetch locations: " error. */
  function GetLocations(query: LocationsQuery, vars: Variables<LocationFilter>): (r: Result<Page<Location>, string>)
    ensures r.Ok? <==> query(vars).Ok? && query(vars).value.Accepted?
    ensures r.Ok? ==> r.value.results == query(vars).value.body.results
    ensures r.Ok? ==> r.value.info == NormalizeInfo(query(vars).value.body.info)
    ensures query(vars).Err? ==> r == Err(LocationsFailure + Describe(query(vars).error))
    ensures query(vars).Ok? && query(vars).value.Rejected? ==> r == Err(LocationsFailure + query(vars).value.issue)
    ensures r.Err? ==> LocationsFailure <= r.error
  {
    FetchPage(LocationsFailure, query, vars)
  }

  /** `getLocations` seen as the page fetcher of a walk. */
  function LocationPages(query: LocationsQuery): PageFetcher<LocationFilter, Location>
  {
    vars => GetLocations(query, vars)
  }

  /**
   * `getAllLocations`: every location matching `filter`, pages 1..pages in page order, or an
   * error "Failed to fetch all locations: Failed to fetch locations: ..." when any page fails.
   */
  method GetAllLocations(query: LocationsQuery, filter: Option<LocationFilter>)
    returns (r: Result<seq<Location>, string>, ghost requested: seq<Variables<LocationFilter>>)
    ensures Walked(LocationPages(query), filter, AllLocationsFailure, r)
    ensures |requested| == |RequestedPages(LocationPages(query), filter)|
    ensures forall k :: 0 <= k < |requested| ==> requested[k] == Variables(Some(k + 1), filter)
    ensures r.Err? ==> AllLocationsFailure + LocationsFailure <= r.error
  {
    r, requested := FetchAllPages(LocationPages(query), filter, AllLocationsFailure);
    AllOrNothing(LocationPages(query), filter, AllLocationsFailure, r);
    if r.Err? {
      var p :| 1 <= p <= |RequestedPages(LocationPages(query), filter)|
               && LocationPages(query)(PageRequest(p, filter)).Err?
               && r.error == AllLocationsFailure + LocationPages(query)(PageRequest(p, filter)).error;
      var cause := GetLocations(query, PageRequest(p, filter)).error;
      assert LocationsFailure <= cause;
      assert r.error == AllLocationsFailure + cause;
    }
  }

  /**
   * The projection of `getLocationsWithResidentCount`: one record per location, in the same
   * order, with `id`, `name`, `type` and `dimension` copied and the residents counted.
   */
  function WithResidentCount(locations: seq<Location>): (r: seq<LocationSummary>)
    ensures |r| == |locations|
    ensures forall k :: 0 <= k < |r| ==>
              && r[k].id == locations[k].id && r[k].name == locations[k].name
              && r[k].kind == locations[k].kind && r[k].dimension == locations[k].dimension
              && r[k].residentCount == |locations[k].residents|
  {
    seq(|locations|, k requires 0 <= k < |locations| =>
      var location := locations[k];
      LocationSummary(location.id, location.name, location.kind, location.dimension, |location.residents|))
  }

  /**
   * `getLocationsWithResidentCount`: the projection of the whole walk of locations when it
   * succeeds; otherwise its error, wrapped once more.
   */
  method GetLocationsWithResidentCount(query: LocationsQuery, filter: Option<LocationFilter>)
    returns (r: Result<seq<LocationSummary>, string>)
    ensures r.Ok? <==> Collected(LocationPages(query), filter).Some?
    ensures r.Ok? ==> r.value == WithResidentCount(Collected(LocationPages(query), filter).value)
    ensures r.Err? ==> ResidentCountFailure + AllLocationsFailure + LocationsFailure <= r.error
    ensures r.Err? ==> exists e :: Walked(LocationPages(query), filter, AllLocationsFailure, Err(e)) && r.error == ResidentCountFailure + e
  {
    var locations, _ := GetAllLocations(query, filter);
    match locations
    case Ok(all) =>
      assert Collected(LocationPages(query), filter) == Some(all);
      r := Ok(WithResidentCount(all));
    case Err(e) =>
      FailedWalkCollectsNothing(LocationPages(query), filter, AllLocationsFailure, e);
      r := Err(ResidentCountFailure + e);
  }
}
