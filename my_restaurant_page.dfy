/** The owner's restaurant page: the restaurant and menu validators, the
    menu editor, the cuisine checkboxes, and the request a submit sends. */
module MyRestaurantPage {
  import opened Common
  import opened Store

  /** The cuisines offered as checkboxes. */
  const OfferedCuisines: seq<string> := [
    "Italian", "Chinese", "Japanese", "Indian", "Mexican", "Thai", "American",
    "French", "Mediterranean", "Greek", "Spanish", "Turkish", "Korean",
    "Vietnamese", "Lebanese", "Brazilian", "Peruvian", "Ethiopian", "Moroccan", "German"]

  /** The restaurant form after coercion; prices are pence and None stands
      for a price that is not a number. */
  datatype FormValues = FormValues(
    name: string, city: string, country: string, deliveryPrice: Option<int>,
    estimatedTime: string, cuisines: seq<string>)

  datatype FormField = NameField | CityField | CountryField | DeliveryPriceField | EstimatedTimeField | CuisinesField
  datatype FieldError = FieldError(field: FormField, message: string)

  /** The restaurant schema. */
  predicate ValidForm(f: FormValues)
  {
    && |f.name| >= 2 && |f.city| >= 2 && |f.country| >= 2
    && f.deliveryPrice.Some? && f.deliveryPrice.value >= 0
    && |f.estimatedTime| >= 1
    && |f.cuisines| >= 1
  }

  function PriceError(p: Option<int>, min: int, tooLow: string): Option<string>
  {
    if p.None? then Some("Expected number, received nan")
    else if p.value < min then Some(tooLow)
    else None
  }

  /** The error a rule reports when it fails. */
  function Rule(fails: bool, field: FormField, message: string): (r: seq<FieldError>)
    ensures fails <==> FieldError(field, message) in r
    ensures forall e :: e in r ==> e.field == field
  {
    if fails then [FieldError(field, message)] else []
  }

  /** Every failed rule of the restaurant schema, in field order. */
  function FormErrors(f: FormValues): (errs: seq<FieldError>)
    ensures errs == [] <==> ValidForm(f)
    ensures |f.name| < 2 <==> FieldError(NameField, "Restaurant name must be at least 2 characters") in errs
    ensures |f.cuisines| == 0 <==> FieldError(CuisinesField, "Select at least one cuisine") in errs
  {
    var price := PriceError(f.deliveryPrice, 0, "Delivery price must be a positive number");
    var name := Rule(|f.name| < 2, NameField, "Restaurant name must be at least 2 characters");
    var city := Rule(|f.city| < 2, CityField, "City must be at least 2 characters");
    var country := Rule(|f.country| < 2, CountryField, "Country must be at least 2 characters");
    var fee := if price.Some? then [FieldError(DeliveryPriceField, price.value)] else [];
    var time := Rule(|f.estimatedTime| < 1, EstimatedTimeField, "Estimated time is required");
    var cuisines := Rule(|f.cuisines| < 1, CuisinesField, "Select at least one cuisine");
    var errs := name + city + country + fee + time + cuisines;
    assert FieldError(NameField, "Restaurant name must be at least 2 characters") !in city + country + fee + time + cuisines;
    assert FieldError(CuisinesField, "Select at least one cuisine") !in name + city + country + fee + time;
    errs
  }

  // ---------------------------------------------------------------------------
  // Menu

  /** A menu row's description as the page holds it: missing from the
      object (a row added on the page), null (a stored row saved without
      one), or text. */
  datatype Description = Missing | Null | Text(text: string)

  /** A menu row being edited; `price` is pence, None when the input is not a number. */
  datatype MenuDraft = MenuDraft(id: Option<Id>, name: string, price: Option<int>, description: Description)

  /** The row "Add Item" appends. */
  const NewItem := MenuDraft(None, "", Some(0), Missing)

  /** The menu item schema: a name of two characters or more, a price of at
      least one penny, and a description that is missing or text; an optional
      string rejects null. */
  predicate ValidItem(m: MenuDraft)
  {
    |m.name| >= 2 && m.price.Some? && m.price.value >= 1 && !m.description.Null?
  }

  predicate ValidMenu(items: seq<MenuDraft>)
  {
    forall i :: 0 <= i < |items| ==> ValidItem(items[i])
  }

  /** A fresh row fails validation until it is edited, so it blocks submission. */
  lemma NewItemBlocks(items: seq<MenuDraft>)
    ensures !ValidItem(NewItem)
    ensures !ValidMenu(items + [NewItem])
  {
    assert (items + [NewItem])[|items|] == NewItem;
  }

  /** A stored menu row as the owner route returns it and the page loads it:
      its id, its name, its price, and its description or null. */
  function LoadedDraft(id: Id, m: MenuItem): (d: MenuDraft)
    ensures d.id == Some(id) && d.name == m.name && d.price == Some(m.price)
    ensures d.description.Null? <==> m.description.None?
    ensures ValidItem(d) <==> |m.name| >= 2 && m.price >= 1 && m.description.Some?
  {
    MenuDraft(Some(id), m.name, Some(m.price), if m.description.Some? then Text(m.description.value) else Null)
  }

  /** The menu rows the page starts from, in the order the owner route lists them. */
  function LoadedMenu(rows: seq<(Id, MenuItem)>): (items: seq<MenuDraft>)
    ensures |items| == |rows|
    ensures forall i :: 0 <= i < |rows| ==> items[i] == LoadedDraft(rows[i].0, rows[i].1)
  {
    seq(|rows|, i requires 0 <= i < |rows| => LoadedDraft(rows[i].0, rows[i].1))
  }

  /** A loaded menu passes the menu schema exactly when every stored row has a
      name of two characters or more, a positive price and a description. */
  lemma LoadedMenuValid(rows: seq<(Id, MenuItem)>)
    ensures ValidMenu(LoadedMenu(rows)) <==>
      forall i :: 0 <= i < |rows| ==> |rows[i].1.name| >= 2 && rows[i].1.price >= 1 && rows[i].1.description.Some?
  {
    var items := LoadedMenu(rows);
    if ValidMenu(items) {
      forall i | 0 <= i < |rows|
        ensures |rows[i].1.name| >= 2 && rows[i].1.price >= 1 && rows[i].1.description.Some?
      {
        assert ValidItem(items[i]);
      }
    }
  }

  /** One input of a row: the name, the parsed price, or the description. */
  datatype Edit = SetName(name: string) | SetPrice(price: Option<int>) | SetDescription(description: string)

  /** `{ ...item, [field]: value }`. */
  function Edited(m: MenuDraft, e: Edit): (r: MenuDraft)
    ensures r.id == m.id
    ensures r.name == (if e.SetName? then e.name else m.name)
    ensures r.price == (if e.SetPrice? then e.price else m.price)
    ensures r.description == (if e.SetDescription? then Text(e.description) else m.description)
  {
    match e
    case SetName(n) => m.(name := n)
    case SetPrice(p) => m.(price := p)
    case SetDescription(d) => m.(description := Text(d))
  }

  /** Where `splice(index, 1)` starts: a negative index counts from the end. */
  function SpliceStart(len: nat, index: int): (k: nat)
    ensures k <= len
    ensures 0 <= index ==> k == Min(index, len)
    ensures index < 0 && len + index >= 0 ==> k == len + index
    ensures len + index < 0 ==> k == 0
  {
    if index < 0 then (if len + index < 0 then 0 else len + index)
    else if index > len then len else index
  }

  function Min(a: int, b: int): int
  {
    if a <= b then a else b
  }

  /** `splice(index, 1)` on a copy: at most one row goes, the rest keep their order. */
  function Spliced<T>(s: seq<T>, index: int): (r: seq<T>)
    ensures 0 <= index < |s| ==> |r| == |s| - 1 && r == s[..index] + s[index + 1..]
    ensures index >= |s| ==> r == s
    ensures forall x :: x in r ==> x in s
  {
    var k := SpliceStart(|s|, index);
    if k < |s| then s[..k] + s[k + 1..] else s
  }

  /** Removing a row keeps a valid menu valid. */
  lemma SpliceKeepsValid(items: seq<MenuDraft>, index: int)
    requires ValidMenu(items)
    ensures ValidMenu(Spliced(items, index))
  {
    var r := Spliced(items, index);
    forall i | 0 <= i < |r| ensures ValidItem(r[i]) {
      assert r[i] in items;
    }
  }

  /** Adding a row and then removing it restores the menu. */
  lemma RemoveAddedRow(items: seq<MenuDraft>)
    ensures Spliced(items + [NewItem], |items|) == items
  {
    assert (items + [NewItem])[..|items|] == items;
  }

  /** The menu rows as the page holds them. */
  class MenuEditor {
    var items: seq<MenuDraft>

    /** The page starts from no rows, or from the loaded restaurant's rows. */
    constructor (rows: seq<(Id, MenuItem)>)
      ensures items == LoadedMenu(rows)
    {
      items := LoadedMenu(rows);
    }

    method Add()
      modifies this
      ensures items == old(items) + [NewItem]
    {
      items := items + [NewItem];
    }

    method Remove(index: int)
      modifies this
      ensures items == Spliced(old(items), index)
    {
      items := Spliced(items, index);
    }

    /** The inputs of row `index` exist only for rows on the page. */
    method Change(index: nat, e: Edit)
      requires index < |items|
      modifies this
      ensures |items| == |old(items)|
      ensures items[index] == Edited(old(items)[index], e)
      ensures forall k :: 0 <= k < |items| && k != index ==> items[k] == old(items)[k]
    {
      items := items[index := Edited(items[index], e)];
    }
  }

  // ---------------------------------------------------------------------------
  // Cuisines

  /** A checkbox change: checking appends the cuisine, unchecking drops every copy. */
  function CheckboxChange(value: seq<string>, c: string, checked: bool): (r: seq<string>)
    ensures checked ==> r == value + [c]
    ensures !checked ==> c !in r && forall x :: x in r <==> x in value && x != c
  {
    if checked then value + [c] else RemoveAll(value, c)
  }

  /** Checking and then unchecking an unselected cuisine restores the selection. */
  lemma CheckUncheck(value: seq<string>, c: string)
    requires c !in value
    ensures CheckboxChange(CheckboxChange(value, c, true), c, false) == value
  {
    RemoveAppended(value, c);
  }

  /** The stored cuisine text, as submitted: the selection joined with commas. */
  function StoredCuisines(cs: seq<string>): string
  {
    Join(cs, ',')
  }

  /** The selection read back on load: empty text gives none, otherwise the comma-separated parts. */
  function LoadedCuisines(s: string): (r: seq<string>)
    ensures s == "" ==> r == []
    ensures s != "" ==> r == Split(s, ',') && |r| >= 1
  {
    if s == "" then [] else Split(s, ',')
  }

  lemma OfferedHaveNoComma()
    ensures forall i :: 0 <= i < |OfferedCuisines| ==> ',' !in OfferedCuisines[i] && OfferedCuisines[i] != ""
  {
  }

  /** Saving and reloading any selection of offered cuisines gives the same selection back. */
  lemma {:induction false} CuisinesRoundTrip(cs: seq<string>)
    requires forall i :: 0 <= i < |cs| ==> cs[i] in OfferedCuisines
    ensures LoadedCuisines(StoredCuisines(cs)) == cs
  {
    OfferedHaveNoComma();
    if cs != [] {
      assert forall i :: 0 <= i < |cs| ==> ',' !in cs[i];
      SplitJoin(cs, ',');
      assert StoredCuisines(cs) != "" by {
        if |cs| == 1 {
          assert StoredCuisines(cs) == cs[0];
        } else {
          assert StoredCuisines(cs) == cs[0] + [','] + Join(cs[1..], ',');
        }
      }
    }
  }

  // ---------------------------------------------------------------------------
  // Submit

  datatype Verb = Post | Patch

  /** The multipart request a submit sends. */
  datatype Request = Request(
    verb: Verb, url: string, name: string, city: string, country: string, deliveryPrice: int,
    estimatedTime: string, cuisines: string, menu: seq<MenuDraft>, withImage: bool)

  datatype SubmitOutcome =
    | FormRejected(errors: seq<FieldError>)
    | MenuRejected(message: string)
    | Send(request: Request)

  const MenuErrorMessage := "Please check your menu items for errors"

  /** The form resolver runs first; then the menu check; then the request goes
      to the create route when no restaurant is loaded and to the owner route
      of the loaded restaurant otherwise. */
  function Submit(f: FormValues, items: seq<MenuDraft>, loaded: Option<string>, withImage: bool): (r: SubmitOutcome)
    ensures r.FormRejected? <==> !ValidForm(f)
    ensures r.FormRejected? ==> r.errors == FormErrors(f) && r.errors != []
    ensures r.MenuRejected? <==> ValidForm(f) && !ValidMenu(items)
    ensures r.Send? <==> ValidForm(f) && ValidMenu(items)
    ensures r.Send? ==> r.request.verb == (if loaded.None? then Post else Patch)
    ensures r.Send? && loaded.None? ==> r.request.url == "/api/restaurant"
    ensures r.Send? && loaded.Some? ==> r.request.url == "/api/restaurant/owner/" + loaded.value
    ensures r.Send? ==> r.request.cuisines == StoredCuisines(f.cuisines) && r.request.menu == items
    ensures r.Send? ==> r.request.name == f.name && r.request.deliveryPrice == f.deliveryPrice.value
  {
    if !ValidForm(f) then FormRejected(FormErrors(f))
    else if !ValidMenu(items) then MenuRejected(MenuErrorMessage)
    else Send(RequestFor(f, items, loaded, withImage))
  }

  /** The request for a valid form: create or update, with the joined cuisines and the menu. */
  function RequestFor(f: FormValues, items: seq<MenuDraft>, loaded: Option<string>, withImage: bool): Request
    requires ValidForm(f)
  {
    var url := if loaded.None? then "/api/restaurant" else "/api/restaurant/owner/" + loaded.value;
    Request(if loaded.None? then Post else Patch, url, f.name, f.city, f.country,
            f.deliveryPrice.value, f.estimatedTime, StoredCuisines(f.cuisines), items, withImage)
  }

  /** What a submit sends for the offered cuisines is what the page reads back after a reload. */
  lemma SubmittedCuisinesReload(f: FormValues, items: seq<MenuDraft>, loaded: Option<string>, withImage: bool)
    requires forall i :: 0 <= i < |f.cuisines| ==> f.cuisines[i] in OfferedCuisines
    requires Submit(f, items, loaded, withImage).Send?
    ensures LoadedCuisines(Submit(f, items, loaded, withImage).request.cuisines) == f.cuisines
  {
    CuisinesRoundTrip(f.cuisines);
  }

  /** A loaded menu holding a row stored without a description is refused on
      every submit of a valid form, whatever the other rows hold. */
  lemma {:induction false} LoadedNullBlocks(f: FormValues, rows: seq<(Id, MenuItem)>, k: int, loaded: Option<string>, withImage: bool)
    requires ValidForm(f)
    requires 0 <= k < |rows| && rows[k].1.description.None?
    ensures Submit(f, LoadedMenu(rows), loaded, withImage) == MenuRejected(MenuErrorMessage)
  {
    assert !ValidItem(LoadedMenu(rows)[k]);
  }

  /** Typing into the description of the one refused row, when that row's name
      and price pass, turns the refusal into a request carrying the edited menu. */
  lemma {:induction false} DescribingUnblocks(f: FormValues, items: seq<MenuDraft>, k: int, d: string, loaded: Option<string>, withImage: bool)
    requires ValidForm(f)
    requires 0 <= k < |items| && items[k].description.Null?
    requires |items[k].name| >= 2 && items[k].price.Some? && items[k].price.value >= 1
    requires forall i :: 0 <= i < |items| && i != k ==> ValidItem(items[i])
    ensures Submit(f, items, loaded, withImage).MenuRejected?
    ensures Submit(f, items[k := Edited(items[k], SetDescription(d))], loaded, withImage).Send?
  {
    assert !ValidItem(items[k]);
    var edited := items[k := Edited(items[k], SetDescription(d))];
    forall i | 0 <= i < |edited| ensures ValidItem(edited[i]) {
      if i != k {
        assert edited[i] == items[i];
      }
    }
  }

  /** The menu item schema as evidently intended: a description may also be
      null, as the create route stores a missing one. */
  predicate ValidItemIntended(m: MenuDraft)
  {
    |m.name| >= 2 && m.price.Some? && m.price.value >= 1
  }

  predicate ValidMenuIntended(items: seq<MenuDraft>)
  {
    forall i :: 0 <= i < |items| ==> ValidItemIntended(items[i])
  }

  /** Submit with the intended menu schema: it refuses only what the written
      schema refuses for a name or a price, and otherwise sends what Submit sends. */
  function SubmitIntended(f: FormValues, items: seq<MenuDraft>, loaded: Option<string>, withImage: bool): (r: SubmitOutcome)
    ensures r.FormRejected? <==> !ValidForm(f)
    ensures r.MenuRejected? <==> ValidForm(f) && !ValidMenuIntended(items)
    ensures ValidMenu(items) ==> r == Submit(f, items, loaded, withImage)
    ensures r.Send? ==> r.request.menu == items
  {
    if !ValidForm(f) then FormRejected(FormErrors(f))
    else if !ValidMenuIntended(items) then MenuRejected(MenuErrorMessage)
    else Send(RequestFor(f, items, loaded, withImage))
  }

  /** Under the intended schema a loaded menu whose stored rows all have a
      valid name and price can be saved again unchanged, descriptions or not. */
  lemma {:induction false} LoadedMenuResubmits(f: FormValues, rows: seq<(Id, MenuItem)>, loaded: Option<string>, withImage: bool)
    requires ValidForm(f)
    requires forall i :: 0 <= i < |rows| ==> |rows[i].1.name| >= 2 && rows[i].1.price >= 1
    ensures SubmitIntended(f, LoadedMenu(rows), loaded, withImage) == Send(RequestFor(f, LoadedMenu(rows), loaded, withImage))
  {
    var items := LoadedMenu(rows);
    forall i | 0 <= i < |items| ensures ValidItemIntended(items[i]) {
      assert items[i] == LoadedDraft(rows[i].0, rows[i].1);
    }
  }
}
