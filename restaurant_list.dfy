/** GET /api/restaurants: the open restaurants, newest first, one page at a
    time, with the page count. */
module RestaurantList {
  import opened Common
  import opened Store
  import opened Ordering

  /** A query parameter: absent (or empty), an integer, or text that does not
      parse as one. */
  datatype Param = Absent | Num(n: int) | NotANumber

  const DefaultLimit := 10
  const DefaultPage := 1

  datatype Card = Card(
    id: Id, name: string, city: string, country: string, cuisines: string, imagePath: Option<string>,
    rating: Option<int>, estimatedTime: string, deliveryPrice: int)

  datatype Pagination = Pagination(total: nat, page: int, limit: int, pages: int)

  datatype Response =
    | Listing(restaurants: seq<Card>, pagination: Pagination)
    | NonPositiveLimit
    | ServerError
  {
    function StatusCode(): int
    {
      match this
      case Listing(_, _) => 200
      case NonPositiveLimit => 200
      case ServerError => 500
    }
  }

  function ParamValue(p: Param, default: int): Option<int>
  {
    match p
    case Absent => Some(default)
    case Num(n) => Some(n)
    case NotANumber => None
  }

  /** Rows skipped before the page: `(page - 1) * limit`. */
  function Skip(page: int, limit: int): int
  {
    (page - 1) * limit
  }

  /** `Math.ceil(total / limit)` for a positive limit. */
  function PageCount(total: nat, limit: int): (pages: nat)
    requires limit > 0
    ensures pages * limit >= total
    ensures total > 0 ==> (pages - 1) * limit < total
    ensures total == 0 ==> pages == 0
  {
    var p := (total + limit - 1) / limit;
    assert p * limit <= total + limit - 1 < (p + 1) * limit;
    p
  }

  /** The index range of page `page`: `[skip, skip + limit)` cut to the rows. */
  function PageRange(n: nat, page: int, limit: int): (r: (nat, nat))
    requires limit > 0 && page >= 1
    ensures r.0 <= r.1 <= n
    ensures r.1 - r.0 <= limit
    ensures r.0 == if Skip(page, limit) < n then Skip(page, limit) else n
  {
    var lo := if Skip(page, limit) < n then Skip(page, limit) else n;
    var hi := if Skip(page, limit) + limit < n then Skip(page, limit) + limit else n;
    (lo, hi)
  }

  lemma MulMono(a: int, b: int, c: int)
    requires a <= b && c > 0
    ensures a * c <= b * c
  {
  }

  lemma MulCancel(a: int, b: int, c: int)
    requires c > 0
    ensures a * c < b * c ==> a < b
    ensures a * c >= 0 ==> a >= 0
  {
    if a >= b { MulMono(b, a, c); }
    if a < 0 { MulMono(a, -1, c); }
  }

  /** Two different pages never share a row. */
  lemma {:induction false} PagesDisjoint(n: nat, p1: int, p2: int, limit: int, i: nat)
    requires limit > 0 && 1 <= p1 < p2
    requires PageRange(n, p1, limit).0 <= i < PageRange(n, p1, limit).1
    ensures !(PageRange(n, p2, limit).0 <= i < PageRange(n, p2, limit).1)
  {
    assert Skip(p1, limit) + limit == p1 * limit;
    MulMono(p1, p2 - 1, limit);
    assert i < Skip(p2, limit);
  }

  /** Every row is on exactly one of the pages 1 .. PageCount. */
  lemma {:induction false} RowOnPage(n: nat, limit: int, i: nat)
    requires limit > 0 && i < n
    ensures var p := i / limit + 1;
      1 <= p <= PageCount(n, limit) && PageRange(n, p, limit).0 <= i < PageRange(n, p, limit).1
  {
    var q, m := i / limit, i % limit;
    assert i == q * limit + m && 0 <= m < limit;
    var p := q + 1;
    assert Skip(p, limit) == q * limit <= i < q * limit + limit;
    var pages := PageCount(n, limit);
    assert q * limit < pages * limit;
    MulCancel(q, pages, limit);
  }

  function CardOf(id: Id, r: Restaurant): Card
  {
    Card(id, r.name, r.city, r.country, r.cuisines, r.imagePath, r.rating, r.estimatedTime, r.deliveryPrice)
  }

  ghost function OpenIds(restaurants: map<Id, Restaurant>): (ids: set<Id>)
    ensures forall k :: k in ids <==> k in restaurants && restaurants[k].isOpen
  {
    set k | k in restaurants && restaurants[k].isOpen
  }

  ghost function CreatedAt(restaurants: map<Id, Restaurant>): (key: map<Id, int>)
    ensures key.Keys == restaurants.Keys
    ensures forall k :: k in restaurants ==> key[k] == restaurants[k].createdAt
  {
    map k | k in restaurants :: restaurants[k].createdAt
  }

  /** All open restaurants, newest first (ties in the store's order). */
  ghost function OpenNewestFirst(restaurants: map<Id, Restaurant>): (ids: seq<Id>)
    ensures |ids| == |OpenIds(restaurants)| && Distinct(ids)
    ensures forall k :: k in ids <==> k in restaurants && restaurants[k].isOpen
    ensures forall i :: 0 <= i < |ids| ==> ids[i] in restaurants && restaurants[ids[i]].isOpen
    ensures forall i, j :: 0 <= i < j < |ids| ==> restaurants[ids[i]].createdAt >= restaurants[ids[j]].createdAt
  {
    OrderedDescFacts(CreatedAt(restaurants), OpenIds(restaurants));
    OrderedDesc(CreatedAt(restaurants), OpenIds(restaurants))
  }

  /** The rows on page `page` of a listing: `[skip, skip + limit)`, cut to its length. */
  function Window<T>(all: seq<T>, page: int, limit: int): (rows: seq<T>)
    requires limit > 0 && page >= 1
    ensures rows == all[PageRange(|all|, page, limit).0..PageRange(|all|, page, limit).1]
    ensures |rows| <= limit
    ensures forall x :: x in rows ==> x in all
  {
    var range := PageRange(|all|, page, limit);
    all[range.0..range.1]
  }

  /** `r` is page `page` of the open restaurants, newest first, `limit` to a
      page, with the page count. */
  ghost predicate IsPage(restaurants: map<Id, Restaurant>, limit: int, page: int, r: Response)
  {
    && limit > 0 && page >= 1
    && r.Listing?
    && r.pagination == Pagination(|OpenIds(restaurants)|, page, limit, PageCount(|OpenIds(restaurants)|, limit))
    && r.restaurants == Projected(restaurants, Window(OpenNewestFirst(restaurants), page, limit), CardOf)
  }

  /** Page `page` of the open restaurants, newest first, with the page count. */
  ghost function Page(restaurants: map<Id, Restaurant>, limit: int, page: int): (r: Response)
    requires limit > 0 && page >= 1
    ensures IsPage(restaurants, limit, page, r)
  {
    var total := |OpenNewestFirst(restaurants)|;
    Listing(Projected(restaurants, Window(OpenNewestFirst(restaurants), page, limit), CardOf), Pagination(total, page, limit, PageCount(total, limit)))
  }

  /** The route. A parameter that does not parse, or a negative skip, makes
      the store query fail (500). */
  ghost function Get(restaurants: map<Id, Restaurant>, limitParam: Param, pageParam: Param): (r: Response)
    ensures ParamValue(limitParam, DefaultLimit).None? || ParamValue(pageParam, DefaultPage).None? ==> r == ServerError
    ensures r.Listing? ==>
      IsPage(restaurants, ParamValue(limitParam, DefaultLimit).value, ParamValue(pageParam, DefaultPage).value, r)
    ensures (ParamValue(limitParam, DefaultLimit).Some? && ParamValue(pageParam, DefaultPage).Some?
             && ParamValue(limitParam, DefaultLimit).value > 0 && ParamValue(pageParam, DefaultPage).value >= 1)
            ==> r.Listing?
    ensures (ParamValue(limitParam, DefaultLimit).Some? && ParamValue(pageParam, DefaultPage).Some?
             && ParamValue(limitParam, DefaultLimit).value <= 0)
            ==> r == NonPositiveLimit
    ensures (ParamValue(limitParam, DefaultLimit).Some? && ParamValue(pageParam, DefaultPage).Some?
             && ParamValue(limitParam, DefaultLimit).value > 0 && ParamValue(pageParam, DefaultPage).value < 1)
            ==> r == ServerError
  {
    var limit := ParamValue(limitParam, DefaultLimit);
    var page := ParamValue(pageParam, DefaultPage);
    if limit.None? || page.None? then ServerError
    else if limit.value <= 0 then NonPositiveLimit
    else
      MulCancel(page.value - 1, 0, limit.value);
      if Skip(page.value, limit.value) < 0 then ServerError
      else Page(restaurants, limit.value, page.value)
  }
}
