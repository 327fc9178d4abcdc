/** GET /api/user/search/fetchcities: the cities that have a restaurant, for
    the search page's location picker. */
module FetchCities {
  import opened Common
  import opened Store
  import opened Ordering

  datatype Response = Cities(cities: seq<string>) | ServerError
  {
    function StatusCode(): int
    {
      match this
      case Cities(_) => 200
      case ServerError => 500
    }
  }

  ghost function CitySet(restaurants: map<Id, Restaurant>): (cs: set<string>)
    ensures forall c :: c in cs <==> exists k :: k in restaurants && restaurants[k].city == c
  {
    set k | k in restaurants :: restaurants[k].city
  }

  /** `filter(Boolean)`: the empty strings are dropped, the order kept. */
  function DropEmpty(s: seq<string>): (r: seq<string>)
    ensures forall c :: c in r <==> c in s && c != ""
    ensures StrictlyAscending(s) ==> StrictlyAscending(r)
  {
    if s == [] then []
    else
      var rest := DropEmpty(s[1..]);
      if s[0] == "" then rest
      else
        assert StrictlyAscending(s) ==> forall c :: c in rest ==> LexLess(s[0], c);
        [s[0]] + rest
  }

  /** The distinct cities in ascending order, without the empty one;
      `storeOk` is false when the query fails. */
  ghost function Get(restaurants: map<Id, Restaurant>, storeOk: bool): (r: Response)
    ensures r.ServerError? <==> !storeOk
    ensures r.Cities? ==>
      && StrictlyAscending(r.cities) && Distinct(r.cities)
      && (forall i :: 0 <= i < |r.cities| ==> r.cities[i] != "")
      && forall c :: c in r.cities <==> c != "" && exists k :: k in restaurants && restaurants[k].city == c
  {
    if !storeOk then ServerError
    else
      var sorted := AscendingOf(CitySet(restaurants));
      assert forall c :: c in sorted <==> c in multiset(sorted);
      var cities := DropEmpty(sorted);
      AscendingIsDistinct(cities);
      assert forall i :: 0 <= i < |cities| ==> cities[i] in cities;
      Cities(cities)
  }
}
