/** GET /api/restaurants/search: restaurants whose name or cuisines contain the
    query and whose city or country contains the location, best rated first. */
module RestaurantSearch {
  import opened Common
  import opened Store
  import opened Ordering

  /** The selected columns of a result. */
  datatype Card = Card(
    id: Id, name: string, city: string, country: string, cuisines: string, deliveryPrice: int,
    estimatedTime: string, imagePath: Option<string>, rating: Option<int>, isOpen: bool)

  datatype Response = Unauthorized | Results(restaurants: seq<Card>)
  {
    function StatusCode(): int
    {
      match this
      case Unauthorized => 401
      case Results(_) => 200
    }
  }

  /** The where clause: an empty query or location imposes no condition, and
      the two conditions are conjoined. */
  predicate Selected(r: Restaurant, q: string, location: string)
  {
    && (q == "" || Contains(r.name, q) || Contains(r.cuisines, q))
    && (location == "" || Contains(r.city, location) || Contains(r.country, location))
  }

  /** With neither parameter every restaurant is selected. */
  lemma NoFilterSelectsAll(r: Restaurant)
    ensures Selected(r, "", "")
  {
  }

  function CardOf(id: Id, r: Restaurant): Card
  {
    Card(id, r.name, r.city, r.country, r.cuisines, r.deliveryPrice, r.estimatedTime, r.imagePath, r.rating, r.isOpen)
  }

  /** The selected rows with and without a rating. */
  ghost function RatedMatches(restaurants: map<Id, Restaurant>, q: string, location: string, rated: bool): (ids: set<Id>)
    ensures forall k :: k in ids <==> k in restaurants && Selected(restaurants[k], q, location)
                                      && restaurants[k].rating.Some? == rated
  {
    set k | k in restaurants && Selected(restaurants[k], q, location) && restaurants[k].rating.Some? == rated
  }

  ghost function RatingKey(restaurants: map<Id, Restaurant>): (key: map<Id, int>)
    ensures key.Keys == restaurants.Keys
    ensures forall k :: k in restaurants ==> key[k] == (if restaurants[k].rating.Some? then restaurants[k].rating.value else 0)
  {
    map k | k in restaurants :: if restaurants[k].rating.Some? then restaurants[k].rating.value else 0
  }

  /** Two disjoint groups, each listed once, concatenated: every member once. */
  lemma Concatenated(a: seq<Id>, b: seq<Id>, A: set<Id>, B: set<Id>)
    requires Distinct(a) && Distinct(b) && A !! B
    requires forall x :: x in a <==> x in A
    requires forall x :: x in b <==> x in B
    ensures Distinct(a + b)
    ensures forall x :: x in a + b <==> x in A || x in B
  {
    var s := a + b;
    forall i, j | 0 <= i < j < |s| ensures s[i] != s[j] {
      if i < |a| && j >= |a| {
        assert s[i] in A && s[j] in B;
      }
    }
  }

  function Rating(restaurants: map<Id, Restaurant>, k: Id): Option<int>
    requires k in restaurants
  {
    restaurants[k].rating
  }

  /** The listing, stated on row ids. */
  ghost predicate IdListing(restaurants: map<Id, Restaurant>, q: string, location: string,
                            nullsFirst: bool, ids: seq<Id>)
  {
    && (forall i :: 0 <= i < |ids| ==> ids[i] in restaurants && Selected(restaurants[ids[i]], q, location))
    && (forall k :: k in restaurants && Selected(restaurants[k], q, location) ==> k in ids)
    && Distinct(ids)
    && (forall i, j :: 0 <= i < j < |ids| && Rating(restaurants, ids[i]).Some? && Rating(restaurants, ids[j]).Some? ==>
          Rating(restaurants, ids[i]).value >= Rating(restaurants, ids[j]).value)
    && (forall i, j :: 0 <= i < j < |ids| ==>
          if nullsFirst then !(Rating(restaurants, ids[i]).Some? && Rating(restaurants, ids[j]).None?)
          else !(Rating(restaurants, ids[i]).None? && Rating(restaurants, ids[j]).Some?))
  }

  function IdsOf(cs: seq<Card>): (ids: seq<Id>)
    ensures |ids| == |cs| && forall i :: 0 <= i < |cs| ==> ids[i] == cs[i].id
  {
    seq(|cs|, i requires 0 <= i < |cs| => cs[i].id)
  }

  /** The answer to a search: the cards of the listed rows, in listing order. */
  ghost predicate SearchListing(restaurants: map<Id, Restaurant>, q: string, location: string,
                                nullsFirst: bool, cs: seq<Card>)
  {
    && IdListing(restaurants, q, location, nullsFirst, IdsOf(cs))
    && forall i :: 0 <= i < |cs| ==> cs[i] == CardOf(cs[i].id, restaurants[cs[i].id])
  }

  lemma CardsOfIds(restaurants: map<Id, Restaurant>, q: string, location: string, nullsFirst: bool, ids: seq<Id>)
    requires IdListing(restaurants, q, location, nullsFirst, ids)
    ensures SearchListing(restaurants, q, location, nullsFirst, Projected(restaurants, ids, CardOf))
  {
    assert IdsOf(Projected(restaurants, ids, CardOf)) == ids;
  }

  lemma RatedFirst(restaurants: map<Id, Restaurant>, rated: seq<Id>, unrated: seq<Id>)
    requires forall i :: 0 <= i < |rated| ==> rated[i] in restaurants && Rating(restaurants, rated[i]).Some?
    requires forall i :: 0 <= i < |unrated| ==> unrated[i] in restaurants && Rating(restaurants, unrated[i]).None?
    requires KeyedBy(RatingKey(restaurants), rated) && Descending(RatingKey(restaurants), rated)
    ensures var ids := rated + unrated;
      && (forall i, j :: 0 <= i < j < |ids| && Rating(restaurants, ids[i]).Some? && Rating(restaurants, ids[j]).Some? ==>
            Rating(restaurants, ids[i]).value >= Rating(restaurants, ids[j]).value)
      && (forall i, j :: 0 <= i < j < |ids| ==> !(Rating(restaurants, ids[i]).None? && Rating(restaurants, ids[j]).Some?))
  {
    var ids := rated + unrated;
    forall i, j | 0 <= i < j < |ids| && Rating(restaurants, ids[i]).Some? && Rating(restaurants, ids[j]).Some?
      ensures Rating(restaurants, ids[i]).value >= Rating(restaurants, ids[j]).value
    {
      assert j < |rated|;
      assert RatingKey(restaurants)[rated[i]] >= RatingKey(restaurants)[rated[j]];
    }
  }

  lemma UnratedFirst(restaurants: map<Id, Restaurant>, rated: seq<Id>, unrated: seq<Id>)
    requires forall i :: 0 <= i < |rated| ==> rated[i] in restaurants && Rating(restaurants, rated[i]).Some?
    requires forall i :: 0 <= i < |unrated| ==> unrated[i] in restaurants && Rating(restaurants, unrated[i]).None?
    requires KeyedBy(RatingKey(restaurants), rated) && Descending(RatingKey(restaurants), rated)
    ensures var ids := unrated + rated;
      && (forall i, j :: 0 <= i < j < |ids| && Rating(restaurants, ids[i]).Some? && Rating(restaurants, ids[j]).Some? ==>
            Rating(restaurants, ids[i]).value >= Rating(restaurants, ids[j]).value)
      && (forall i, j :: 0 <= i < j < |ids| ==> !(Rating(restaurants, ids[i]).Some? && Rating(restaurants, ids[j]).None?))
  {
    var ids := unrated + rated;
    var n := |unrated|;
    forall i, j | 0 <= i < j < |ids| && Rating(restaurants, ids[i]).Some? && Rating(restaurants, ids[j]).Some?
      ensures Rating(restaurants, ids[i]).value >= Rating(restaurants, ids[j]).value
    {
      assert n <= i;
      assert ids[i] == rated[i - n] && ids[j] == rated[j - n];
      assert RatingKey(restaurants)[rated[i - n]] >= RatingKey(restaurants)[rated[j - n]];
    }
  }

  lemma CardsOfGroups(restaurants: map<Id, Restaurant>, q: string, location: string,
                      nullsFirst: bool, rated: seq<Id>, unrated: seq<Id>)
    requires Distinct(rated) && Distinct(unrated)
    requires forall x :: x in rated <==> x in RatedMatches(restaurants, q, location, true)
    requires forall x :: x in unrated <==> x in RatedMatches(restaurants, q, location, false)
    requires KeyedBy(RatingKey(restaurants), rated) && Descending(RatingKey(restaurants), rated)
    ensures var ids := if nullsFirst then unrated + rated else rated + unrated;
      && (forall i :: 0 <= i < |ids| ==> ids[i] in restaurants)
      && SearchListing(restaurants, q, location, nullsFirst, Projected(restaurants, ids, CardOf))
  {
    var R := RatedMatches(restaurants, q, location, true);
    var U := RatedMatches(restaurants, q, location, false);
    assert forall i :: 0 <= i < |rated| ==> rated[i] in R;
    assert forall i :: 0 <= i < |unrated| ==> unrated[i] in U;
    var ids := if nullsFirst then unrated + rated else rated + unrated;
    if nullsFirst {
      Concatenated(unrated, rated, U, R);
      UnratedFirst(restaurants, rated, unrated);
    } else {
      Concatenated(rated, unrated, R, U);
      RatedFirst(restaurants, rated, unrated);
    }
    assert forall i :: 0 <= i < |ids| ==> ids[i] in ids;
    CardsOfIds(restaurants, q, location, nullsFirst, ids);
  }

  /** The route; `signedIn` is whether a session exists, `q` and `location`
      are the query parameters ("" when absent). */
  ghost function Search(signedIn: bool, restaurants: map<Id, Restaurant>, q: string, location: string,
                        nullsFirst: bool): (r: Response)
    ensures r == Unauthorized <==> !signedIn
    ensures r.Results? ==> SearchListing(restaurants, q, location, nullsFirst, r.restaurants)
  {
    if !signedIn then Unauthorized
    else
      var key := RatingKey(restaurants);
      var rated := OrderedDesc(key, RatedMatches(restaurants, q, location, true));
      var unrated := OrderedDesc(key, RatedMatches(restaurants, q, location, false));
      OrderedDescFacts(key, RatedMatches(restaurants, q, location, true));
      OrderedDescFacts(key, RatedMatches(restaurants, q, location, false));
      CardsOfGroups(restaurants, q, location, nullsFirst, rated, unrated);
      Results(Projected(restaurants, if nullsFirst then unrated + rated else rated + unrated, CardOf))
  }
}
