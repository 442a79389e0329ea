/**
 * The stored rows and the rules their `save` methods enforce (house/models.py):
 * unique type and listing slugs, restoring and geocoding listing coordinates, a single
 * main image per listing and the next free sort position. The database is a `Store`
 * object whose tables are fields; `slugify` is a parameter, and the geocoding service
 * is the answer it would give for the address.
 */
module Models {
  import opened Wrappers
  import opened Text
  import Slugs

  datatype TypeRow = TypeRow(id: nat, name: string, slug: string)
  datatype DealRow = DealRow(id: nat, name: string)

  /** A `Property` row, without its id (the key it is stored under). */
  datatype Listing = Listing(
    title: string,
    description: string,
    address: string,
    latitude: Option<real>,
    longitude: Option<real>,
    price: real,
    area: int,
    rooms: int,
    isArchived: bool,
    featuredHomepage: bool,
    propertyType: Option<nat>,
    dealType: Option<nat>,
    features: set<nat>,
    slug: string
  )

  datatype ImageRow = ImageRow(id: nat, property: nat, url: string, isMain: bool, sortOrder: nat)

  // ---------------------------------------------------------------- property types

  /** The row for a relation's id, `None` when it is unset. */
  function TypeOf(types: seq<TypeRow>, id: Option<nat>): (r: Option<TypeRow>)
    ensures r.Some? ==> id == Some(r.value.id) && r.value in types
    ensures id.Some? && (exists t :: t in types && t.id == id.value) ==> r.Some?
  {
    if id.None? || types == [] then None
    else if types[0].id == id.value then Some(types[0])
    else TypeOf(types[1..], id)
  }

  function DealOf(deals: seq<DealRow>, id: Option<nat>): (r: Option<DealRow>)
    ensures r.Some? ==> id == Some(r.value.id) && r.value in deals
    ensures id.Some? && (exists d :: d in deals && d.id == id.value) ==> r.Some?
  {
    if id.None? || deals == [] then None
    else if deals[0].id == id.value then Some(deals[0])
    else DealOf(deals[1..], id)
  }

  /** The slugs of the type rows other than `pk` (`exclude(pk=None)` excludes nothing). */
  function TypeSlugs(types: seq<TypeRow>, pk: Option<nat>): set<string> {
    set t | t in types && Some(t.id) != pk :: t.slug
  }

  /** `PropertyType.save`: a blank slug becomes `slugify(name)`, suffixed until no other
      row has it; a set slug is kept. */
  function TypeSlugOnSave(name: string, slug: string, pk: Option<nat>, types: seq<TypeRow>,
                          slugify: string -> string): (r: string)
    ensures slug != "" ==> r == slug
    ensures slug == "" ==> r !in TypeSlugs(types, pk)
  {
    if slug != "" then slug
    else Slugs.FirstFree(slugify(name), slugify(name), TypeSlugs(types, pk))
  }

  // ---------------------------------------------------------------- listings

  predicate MissingCoordinates(p: Listing) { p.latitude.None? || p.longitude.None? }

  /** On an update that keeps the address, a missing coordinate is taken from the stored
      row. */
  function Restore(p: Listing, original: Listing): (r: Listing)
    ensures r.latitude == (if p.latitude.Some? then p.latitude else original.latitude)
    ensures r.longitude == (if p.longitude.Some? then p.longitude else original.longitude)
    ensures r.(latitude := p.latitude, longitude := p.longitude) == p
  {
    p.(latitude := if p.latitude.None? then original.latitude else p.latitude,
       longitude := if p.longitude.None? then original.longitude else p.longitude)
  }

  /** The first half of `Property.save`: the listing after restoring stored coordinates,
      and whether the address is to be geocoded. `pk` is `None` while creating. */
  function Prepare(pk: Option<nat>, p: Listing, stored: map<nat, Listing>): (Listing, bool) {
    if pk.None? then (p, p.address != "" && MissingCoordinates(p))
    else if pk.value != 0 && pk.value in stored then
      var original := stored[pk.value];
      var changed := original.address != p.address;
      var q := if changed then p else Restore(p, original);
      (q, q.address != ""
          && (changed || (MissingCoordinates(q) && (original.latitude.None? || original.longitude.None?))))
    else if pk.value != 0 then (p, p.address != "")
    else (p, p.address != "" && MissingCoordinates(p))
  }

  /** The slugs of the listings other than `pk`. */
  function ListingSlugs(stored: map<nat, Listing>, pk: Option<nat>): set<string> {
    set id | id in stored && Some(id) != pk :: stored[id].slug
  }

  /** The row `Property.save` writes: `located` is what the geocoder answers for the
      address (`None` for no match or an error), `baseSlug` the generated slug. */
  function SavedListing(pk: Option<nat>, p: Listing, stored: map<nat, Listing>,
                        located: Option<(real, real)>, baseSlug: string): (r: Listing)
    ensures p.slug != "" ==> r.slug == p.slug
    ensures p.slug == "" ==> r.slug !in ListingSlugs(stored, pk)
    ensures r.(latitude := p.latitude, longitude := p.longitude, slug := p.slug) == p
  {
    var (q, geocode) := Prepare(pk, p, stored);
    var g := if geocode && located.Some? then q.(latitude := Some(located.value.0), longitude := Some(located.value.1)) else q;
    g.(slug := if p.slug != "" then p.slug else Slugs.FirstFree(baseSlug, baseSlug, ListingSlugs(stored, pk)))
  }

  /** A listing without an address is never geocoded. */
  lemma NoAddressNoGeocoding(pk: Option<nat>, p: Listing, stored: map<nat, Listing>)
    requires p.address == ""
    ensures !Prepare(pk, p, stored).1
  {
  }

  /** A new listing is geocoded exactly when it has an address and lacks a coordinate. */
  lemma CreateGeocodesWhenMissing(p: Listing, stored: map<nat, Listing>)
    ensures Prepare(None, p, stored).1 <==> p.address != "" && MissingCoordinates(p)
  {
  }

  /** An update that changes a non-empty address is always geocoded. */
  lemma ChangedAddressGeocoded(id: nat, p: Listing, stored: map<nat, Listing>)
    requires id != 0 && id in stored && stored[id].address != p.address && p.address != ""
    ensures Prepare(Some(id), p, stored).1
  {
  }

  /** An update that keeps the address of a row with both coordinates stored is not
      geocoded, and ends with both coordinates, its own where given and the stored ones
      otherwise. */
  lemma KeptAddressRestored(id: nat, p: Listing, stored: map<nat, Listing>,
                            located: Option<(real, real)>, baseSlug: string)
    requires id != 0 && id in stored && stored[id].address == p.address
    requires stored[id].latitude.Some? && stored[id].longitude.Some?
    ensures !Prepare(Some(id), p, stored).1
    ensures var r := SavedListing(Some(id), p, stored, located, baseSlug);
            r.latitude == (if p.latitude.Some? then p.latitude else stored[id].latitude)
            && r.longitude == (if p.longitude.Some? then p.longitude else stored[id].longitude)
  {
  }

  /** The listings after `filter(id__in=ids).update(is_archived=flag)`. */
  function WithArchived(listings: map<nat, Listing>, ids: set<nat>, flag: bool): (r: map<nat, Listing>)
    ensures r.Keys == listings.Keys
    ensures forall id :: id in r ==> r[id].(isArchived := listings[id].isArchived) == listings[id]
    ensures forall id :: id in r ==> r[id].isArchived == (if id in ids then flag else listings[id].isArchived)
  {
    map id | id in listings :: if id in ids then listings[id].(isArchived := flag) else listings[id]
  }

  /** Archiving listings that were active and then restoring them gives back the table. */
  lemma ArchiveRestoreRoundTrip(listings: map<nat, Listing>, ids: set<nat>)
    requires forall id :: id in listings && id in ids ==> !listings[id].isArchived
    ensures WithArchived(WithArchived(listings, ids, true), ids, false) == listings
  {
    var r := WithArchived(WithArchived(listings, ids, true), ids, false);
    assert forall id :: id in r ==> r[id] == listings[id];
  }

  /** The listings after `filter(id__in=ids).delete()`. */
  function WithoutListings(listings: map<nat, Listing>, ids: set<nat>): (r: map<nat, Listing>)
    ensures r.Keys == listings.Keys - ids
    ensures forall id :: id in r ==> r[id] == listings[id]
  {
    map id | id in listings && id !in ids :: listings[id]
  }

  // ---------------------------------------------------------------- images

  /** No listing has two main images. */
  predicate OneMainEach(images: seq<ImageRow>) {
    forall i, j :: (0 <= i < |images| && 0 <= j < |images| && i != j
      && images[i].property == images[j].property && images[i].isMain) ==> !images[j].isMain
  }

  predicate IdsAtMost(images: seq<ImageRow>, n: nat) {
    forall i :: 0 <= i < |images| ==> images[i].id <= n
  }

  predicate DistinctIds(images: seq<ImageRow>) {
    forall i, j :: 0 <= i < |images| && 0 <= j < |images| && i != j ==> images[i].id != images[j].id
  }

  /** `filter(property=p, is_main=True).update(is_main=False)`. */
  function ClearMain(images: seq<ImageRow>, property: nat): (r: seq<ImageRow>)
    ensures |r| == |images|
    ensures forall i :: 0 <= i < |r| ==>
              r[i] == (if images[i].property == property then images[i].(isMain := false) else images[i])
  {
    if images == [] then []
    else
      [if images[0].property == property then images[0].(isMain := false) else images[0]]
      + ClearMain(images[1..], property)
  }

  /** The row after clearing the main flags of `property`. */
  function UnflagIf(x: ImageRow, property: nat): ImageRow {
    if x.property == property then x.(isMain := false) else x
  }

  lemma ClearMainEach(images: seq<ImageRow>, rows: seq<ImageRow>, property: nat)
    requires |rows| == |images| && forall k :: 0 <= k < |rows| ==> rows[k] == UnflagIf(images[k], property)
    ensures rows == ClearMain(images, property)
  {
  }

  /** `Max("sort_order")` over the images of `property`, 0 when it has none. */
  function MaxSortOrder(images: seq<ImageRow>, property: nat): (r: nat)
    ensures forall i :: 0 <= i < |images| && images[i].property == property ==> images[i].sortOrder <= r
    ensures r == 0 || exists i :: 0 <= i < |images| && images[i].property == property && images[i].sortOrder == r
  {
    if images == [] then 0
    else
      var rest := MaxSortOrder(images[1..], property);
      var r := if images[0].property == property && images[0].sortOrder > rest then images[0].sortOrder else rest;
      assert r == 0 || exists i :: 0 <= i < |images| && images[i].property == property && images[i].sortOrder == r by {
        if r != 0 && r == rest {
          var i :| 0 <= i < |images[1..]| && images[1..][i].property == property && images[1..][i].sortOrder == r;
          assert images[i + 1] == images[1..][i];
        }
      }
      r
  }

  /** The row written in place of the one with the same id, or appended. */
  function Upsert(images: seq<ImageRow>, row: ImageRow): (r: seq<ImageRow>)
    ensures row in r
    ensures forall x :: x in r ==> x == row || x in images
    ensures forall x :: x in images && x.id != row.id ==> x in r
  {
    if images == [] then [row]
    else if images[0].id == row.id then [row] + images[1..]
    else [images[0]] + Upsert(images[1..], row)
  }

  /** The row `PropertyImage.save` writes: a zero sort position becomes one past the
      largest of the listing's images. */
  function PlacedImage(images: seq<ImageRow>, row: ImageRow): (r: ImageRow)
    ensures row.sortOrder != 0 ==> r == row
    ensures row.sortOrder == 0 ==> r == row.(sortOrder := MaxSortOrder(images, row.property) + 1)
    ensures forall i :: 0 <= i < |images| && images[i].property == row.property ==> images[i].sortOrder < r.sortOrder || row.sortOrder != 0
  {
    if row.sortOrder == 0 then row.(sortOrder := MaxSortOrder(images, row.property) + 1) else row
  }

  /** The image table after `PropertyImage.save` of `row`. */
  function SavedImages(images: seq<ImageRow>, row: ImageRow): seq<ImageRow> {
    var cleared := if row.isMain then ClearMain(images, row.property) else images;
    Upsert(cleared, PlacedImage(cleared, row))
  }

  lemma {:induction false} UpsertIndex(images: seq<ImageRow>, row: ImageRow, k: nat)
    requires k < |Upsert(images, row)|
    ensures Upsert(images, row)[k] == row
            || exists i :: 0 <= i < |images| && Upsert(images, row)[k] == images[i]
  {
    if images != [] && images[0].id != row.id && k > 0 {
      UpsertIndex(images[1..], row, k - 1);
      var r := Upsert(images, row);
      if r[k] != row {
        var i :| 0 <= i < |images[1..]| && Upsert(images[1..], row)[k - 1] == images[1..][i];
        assert images[i + 1] == images[1..][i];
      }
    } else if images != [] && images[0].id == row.id && k > 0 {
      assert Upsert(images, row)[k] == images[k];
    }
  }

  lemma {:induction false} UpsertKeepsDistinct(images: seq<ImageRow>, row: ImageRow)
    requires DistinctIds(images)
    ensures DistinctIds(Upsert(images, row))
  {
    if images != [] {
      if images[0].id != row.id {
        UpsertKeepsDistinct(images[1..], row);
        var rest := Upsert(images[1..], row);
        forall k | 0 <= k < |rest| ensures rest[k].id != images[0].id {
          UpsertIndex(images[1..], row, k);
        }
      } else {
        assert forall k :: 1 <= k < |images| ==> images[k].id != row.id;
      }
    }
  }

  /** Clearing the main flags of a listing keeps the ids and leaves it no main image. */
  lemma ClearMainProperties(images: seq<ImageRow>, property: nat)
    requires OneMainEach(images) && DistinctIds(images)
    ensures OneMainEach(ClearMain(images, property)) && DistinctIds(ClearMain(images, property))
    ensures forall x :: x in ClearMain(images, property) && x.property == property ==> !x.isMain
    ensures forall x :: x in ClearMain(images, property) ==> exists y :: y in images && y.id == x.id
  {
    var r := ClearMain(images, property);
    forall x | x in r ensures exists y :: y in images && y.id == x.id {
      var k :| 0 <= k < |r| && r[k] == x;
      assert images[k].id == x.id;
    }
  }

  /** Writing a row into a table of distinct ids with at most one main image per listing
      keeps both, provided a main row meets no other main image of its listing. */
  lemma UpsertOneMain(images: seq<ImageRow>, row: ImageRow)
    requires OneMainEach(images) && DistinctIds(images)
    requires row.isMain ==> forall x :: x in images && x.property == row.property && x.id != row.id ==> !x.isMain
    ensures OneMainEach(Upsert(images, row)) && DistinctIds(Upsert(images, row))
  {
    var r := Upsert(images, row);
    UpsertKeepsDistinct(images, row);
    forall i, j | 0 <= i < |r| && 0 <= j < |r| && i != j && r[i].property == r[j].property && r[i].isMain
      ensures !r[j].isMain
    {
      assert r[i].id != r[j].id;
      UpsertIndex(images, row, i);
      UpsertIndex(images, row, j);
      if r[i] != row && r[j] != row {
        var a :| 0 <= a < |images| && r[i] == images[a];
        var b :| 0 <= b < |images| && r[j] == images[b];
      }
    }
  }

  /** Saving an image keeps at most one main image per listing, and a saved main image is
      its listing's only one. */
  lemma SavedImagesOneMain(images: seq<ImageRow>, row: ImageRow)
    requires OneMainEach(images) && DistinctIds(images)
    ensures OneMainEach(SavedImages(images, row)) && DistinctIds(SavedImages(images, row))
    ensures row.isMain ==> forall x :: x in SavedImages(images, row) && x.property == row.property && x.isMain
                                       ==> x == PlacedImage(ClearMain(images, row.property), row)
    ensures forall n: nat :: IdsAtMost(images, n) && row.id <= n ==> IdsAtMost(SavedImages(images, row), n)
  {
    var cleared := if row.isMain then ClearMain(images, row.property) else images;
    var placed := PlacedImage(cleared, row);
    forall n: nat | IdsAtMost(images, n) && row.id <= n ensures IdsAtMost(SavedImages(images, row), n) {
      var r := Upsert(cleared, placed);
      forall k | 0 <= k < |r| ensures r[k].id <= n {
        UpsertIndex(cleared, placed, k);
      }
    }
    if row.isMain {
      ClearMainProperties(images, row.property);
    }
    UpsertOneMain(cleared, placed);
  }

  /** Writing a row over the one with its id, in a table of distinct ids, replaces it in place. */
  lemma {:induction false} UpsertAt(images: seq<ImageRow>, row: ImageRow, j: nat)
    requires DistinctIds(images) && j < |images| && images[j].id == row.id
    ensures Upsert(images, row) == images[j := row]
  {
    if j > 0 {
      assert images[0].id != row.id;
      assert DistinctIds(images[1..]) by {
        forall a, b | 0 <= a < |images[1..]| && 0 <= b < |images[1..]| && a != b
          ensures images[1..][a].id != images[1..][b].id
        {
          assert images[1..][a] == images[a + 1] && images[1..][b] == images[b + 1];
        }
      }
      UpsertAt(images[1..], row, j - 1);
      assert [images[0]] + images[1..][j - 1 := row] == images[j := row];
    }
  }

  /** Saving a stored image with only a new, non-zero sort position replaces its row and
      touches no other row. */
  lemma SaveExistingImage(images: seq<ImageRow>, j: nat, sortOrder: nat)
    requires OneMainEach(images) && DistinctIds(images) && j < |images| && sortOrder != 0
    ensures SavedImages(images, images[j].(sortOrder := sortOrder)) == images[j := images[j].(sortOrder := sortOrder)]
  {
    var row := images[j].(sortOrder := sortOrder);
    var cleared := if row.isMain then ClearMain(images, row.property) else images;
    if row.isMain {
      assert cleared == images[j := images[j].(isMain := false)] by {
        forall i | 0 <= i < |images| && i != j ensures cleared[i] == images[i] {
          if images[i].property == row.property {
            assert !images[i].isMain;
          }
        }
      }
    }
    assert DistinctIds(cleared) by {
      forall a, b | 0 <= a < |cleared| && 0 <= b < |cleared| && a != b ensures cleared[a].id != cleared[b].id {
        assert cleared[a].id == images[a].id && cleared[b].id == images[b].id;
      }
    }
    UpsertAt(cleared, row, j);
  }

  /** The image table after the listings in `gone` are deleted (`on_delete=CASCADE`). */
  function ImagesWithout(images: seq<ImageRow>, gone: set<nat>): (r: seq<ImageRow>)
    ensures forall x :: x in r <==> x in images && x.property !in gone
  {
    if images == [] then []
    else (if images[0].property in gone then [] else [images[0]]) + ImagesWithout(images[1..], gone)
  }

  /** A listing's rows after a head row either share nothing with it (distinct ids) or
      are not main when it is. */
  lemma TailFacts(images: seq<ImageRow>)
    requires images != [] && OneMainEach(images) && DistinctIds(images)
    ensures OneMainEach(images[1..]) && DistinctIds(images[1..])
    ensures forall y :: y in images[1..] ==> y.id != images[0].id
    ensures images[0].isMain ==> forall y :: y in images[1..] && y.property == images[0].property ==> !y.isMain
  {
    var tail := images[1..];
    forall y | y in tail ensures y.id != images[0].id && (images[0].isMain && y.property == images[0].property ==> !y.isMain) {
      var b :| 0 <= b < |tail| && tail[b] == y;
      assert images[b + 1] == y;
    }
    assert forall a :: 0 <= a < |tail| ==> tail[a] == images[a + 1];
  }

  /** Prepending a row that meets the table's invariants against every other row keeps them. */
  lemma ConsValid(x: ImageRow, rest: seq<ImageRow>)
    requires OneMainEach(rest) && DistinctIds(rest)
    requires forall y :: y in rest ==> y.id != x.id
    requires x.isMain ==> forall y :: y in rest && y.property == x.property ==> !y.isMain
    ensures OneMainEach([x] + rest) && DistinctIds([x] + rest)
  {
    var r := [x] + rest;
    assert forall a :: 0 < a < |r| ==> r[a] == rest[a - 1] && r[a] in rest;
  }

  /** Deleting images keeps the table's invariants. */
  lemma {:induction false} ImagesWithoutValid(images: seq<ImageRow>, gone: set<nat>, n: nat)
    requires OneMainEach(images) && DistinctIds(images) && IdsAtMost(images, n)
    ensures var r := ImagesWithout(images, gone);
            OneMainEach(r) && DistinctIds(r) && IdsAtMost(r, n)
  {
    var r := ImagesWithout(images, gone);
    if images != [] {
      TailFacts(images);
      assert IdsAtMost(images[1..], n) by {
        assert forall a :: 0 <= a < |images[1..]| ==> images[1..][a] == images[a + 1];
      }
      ImagesWithoutValid(images[1..], gone, n);
      var rest := ImagesWithout(images[1..], gone);
      if images[0].property !in gone {
        ConsValid(images[0], rest);
        assert r == [images[0]] + rest;
      }
      assert forall a :: 0 <= a < |r| ==> r[a] in images;
    }
  }

  predicate Precedes(a: ImageRow, b: ImageRow) {
    a.sortOrder < b.sortOrder || (a.sortOrder == b.sortOrder && a.id > b.id)
  }

  lemma NotPrecedesTransitive(a: ImageRow, b: ImageRow, c: ImageRow)
    requires !Precedes(a, b) && !Precedes(b, c)
    ensures !Precedes(a, c)
  {
  }

  /** `.first()` under the default ordering. */
  function FirstInOrder(xs: seq<ImageRow>): (r: Option<ImageRow>)
    ensures r.Some? <==> xs != []
    ensures r.Some? ==> r.value in xs && forall x :: x in xs ==> !Precedes(x, r.value)
  {
    if xs == [] then None
    else
      match FirstInOrder(xs[1..])
      case None => Some(xs[0])
      case Some(y) =>
        if Precedes(y, xs[0]) then Some(y)
        else
          assert forall x :: x in xs[1..] ==> !Precedes(x, xs[0]) by {
            forall x | x in xs[1..] ensures !Precedes(x, xs[0]) { NotPrecedesTransitive(x, y, xs[0]); }
          }
          Some(xs[0])
  }

  function ImagesOfListing(images: seq<ImageRow>, property: nat): (r: seq<ImageRow>)
    ensures forall x :: x in r <==> x in images && x.property == property
    ensures r == [] <==> forall x :: x in images ==> x.property != property
  {
    if images == [] then []
    else (if images[0].property == property then [images[0]] else []) + ImagesOfListing(images[1..], property)
  }

  function MainsOfListing(images: seq<ImageRow>, property: nat): (r: seq<ImageRow>)
    ensures forall x :: x in r <==> x in images && x.property == property && x.isMain
    ensures r == [] <==> forall x :: x in images && x.property == property ==> !x.isMain
  {
    if images == [] then []
    else (if images[0].property == property && images[0].isMain then [images[0]] else [])
         + MainsOfListing(images[1..], property)
  }

  /** `Property.main_image`: the first main image, else the first image. */
  function MainImage(images: seq<ImageRow>, property: nat): (r: Option<ImageRow>)
    ensures r.Some? ==> r.value in images && r.value.property == property
  {
    FirstInOrder(MainsOfListing(images, property)).OrElse(FirstInOrder(ImagesOfListing(images, property)))
  }

  /** A listing with a main image shows it; one without shows its first image, and one
      without images shows none. */
  lemma MainImagePrefersMain(images: seq<ImageRow>, property: nat)
    ensures (exists x :: x in images && x.property == property && x.isMain) ==>
              MainImage(images, property).Some? && MainImage(images, property).value.isMain
              && MainImage(images, property).value in images
              && MainImage(images, property).value.property == property
    ensures (forall x :: x in images && x.property == property ==> !x.isMain) ==>
              MainImage(images, property) == FirstInOrder(ImagesOfListing(images, property))
    ensures MainImage(images, property).None? <==> forall x :: x in images ==> x.property != property
  {
    var mains := MainsOfListing(images, property);
    if exists x :: x in images && x.property == property && x.isMain {
      var x :| x in images && x.property == property && x.isMain;
      assert x in mains;
    }
  }

  // ---------------------------------------------------------------- the store

  class Store {
    var types: seq<TypeRow>
    var deals: seq<DealRow>
    var listings: map<nat, Listing>
    var images: seq<ImageRow>
    /** The largest id handed out so far. */
    var lastId: nat

    ghost predicate Valid()
      reads this
    {
      OneMainEach(images) && DistinctIds(images) && IdsAtMost(images, lastId)
      && (forall t :: t in types ==> t.id <= lastId)
      && (forall d :: d in deals ==> d.id <= lastId)
      && (forall id :: id in listings ==> 0 < id <= lastId)
    }

    constructor ()
      ensures Valid() && types == [] && deals == [] && listings == map[] && images == [] && lastId == 0
    {
      types := [];
      deals := [];
      listings := map[];
      images := [];
      lastId := 0;
    }

    /** `PropertyType.objects.create(name=name)`. */
    method CreateType(name: string, slugify: string -> string) returns (row: TypeRow)
      requires Valid()
      modifies this
      ensures Valid()
      ensures row == TypeRow(old(lastId) + 1, name, TypeSlugOnSave(name, "", None, old(types), slugify))
      ensures types == old(types) + [row] && lastId == old(lastId) + 1
      ensures deals == old(deals) && listings == old(listings) && images == old(images)
    {
      var taken := TypeSlugs(types, None);
      var slug := Slugs.UniqueSlug(slugify(name), slugify(name), taken);
      lastId := lastId + 1;
      row := TypeRow(lastId, name, slug);
      types := types + [row];
    }

    /** `property_type.save()` of the row at `index` with a new slug. */
    method SaveTypeSlug(index: nat, slug: string, slugify: string -> string)
      requires Valid() && index < |types|
      modifies this
      ensures Valid()
      ensures types == old(types)[index := old(types)[index].(
                slug := TypeSlugOnSave(old(types)[index].name, slug, Some(old(types)[index].id), old(types), slugify))]
      ensures deals == old(deals) && listings == old(listings) && images == old(images) && lastId == old(lastId)
    {
      var row := types[index];
      var saved := slug;
      if saved == "" {
        saved := Slugs.UniqueSlug(slugify(row.name), slugify(row.name), TypeSlugs(types, Some(row.id)));
      }
      types := types[index := row.(slug := saved)];
    }

    /** `DealType.objects.create(name=name)`. */
    method CreateDeal(name: string) returns (row: DealRow)
      requires Valid()
      modifies this
      ensures Valid()
      ensures row == DealRow(old(lastId) + 1, name)
      ensures deals == old(deals) + [row] && lastId == old(lastId) + 1
      ensures types == old(types) && listings == old(listings) && images == old(images)
    {
      lastId := lastId + 1;
      row := DealRow(lastId, name);
      deals := deals + [row];
    }

    /** `Property.save`: a listing without a primary key gets a fresh one. */
    method SaveListing(pk: Option<nat>, p: Listing, located: Option<(real, real)>, baseSlug: string)
      returns (id: nat, saved: Listing)
      requires Valid()
      requires pk.Some? ==> 0 < pk.value <= lastId
      modifies this
      ensures Valid()
      ensures saved == SavedListing(pk, p, old(listings), located, baseSlug)
      ensures pk.Some? ==> id == pk.value && lastId == old(lastId)
      ensures pk.None? ==> id == old(lastId) + 1 && lastId == id
      ensures listings == old(listings)[id := saved]
      ensures types == old(types) && deals == old(deals) && images == old(images)
    {
      saved := ListingRow(pk, p, located, baseSlug);
      if pk.None? {
        lastId := lastId + 1;
        id := lastId;
      } else {
        id := pk.value;
      }
      listings := listings[id := saved];
    }

    /** The row `Property.save` is about to write: restored or geocoded coordinates, and
        a unique slug when it has none. */
    method ListingRow(pk: Option<nat>, p: Listing, located: Option<(real, real)>, baseSlug: string)
      returns (row: Listing)
      ensures row == SavedListing(pk, p, listings, located, baseSlug)
    {
      var prepared := Prepare(pk, p, listings);
      row := prepared.0;
      if prepared.1 && located.Some? {
        row := row.(latitude := Some(located.value.0), longitude := Some(located.value.1));
      }
      if p.slug == "" {
        var slug := Slugs.UniqueSlug(baseSlug, baseSlug, ListingSlugs(listings, pk));
        row := row.(slug := slug);
      }
    }

    /** `instance.features.set(...)` on a stored listing. */
    method SetFeatures(id: nat, features: set<nat>)
      requires Valid() && id in listings
      modifies this
      ensures Valid()
      ensures listings == old(listings)[id := old(listings)[id].(features := features)]
      ensures types == old(types) && deals == old(deals) && images == old(images) && lastId == old(lastId)
    {
      listings := listings[id := listings[id].(features := features)];
    }

    /** `Property.objects.filter(id__in=ids).update(is_archived=flag)`. */
    method SetArchived(ids: set<nat>, flag: bool)
      requires Valid()
      modifies this
      ensures Valid()
      ensures listings == WithArchived(old(listings), ids, flag)
      ensures types == old(types) && deals == old(deals) && images == old(images) && lastId == old(lastId)
    {
      listings := WithArchived(listings, ids, flag);
    }

    /** `Property.objects.filter(id__in=ids).delete()`: the images of a deleted listing go
        with it. */
    method DeleteListings(ids: set<nat>)
      requires Valid()
      modifies this
      ensures Valid()
      ensures listings == WithoutListings(old(listings), ids)
      ensures images == ImagesWithout(old(images), ids)
      ensures types == old(types) && deals == old(deals) && lastId == old(lastId)
    {
      ImagesWithoutValid(images, ids, lastId);
      listings := WithoutListings(listings, ids);
      images := ImagesWithout(images, ids);
    }

    /** The bulk `update(is_main=False)`. */
    method ClearMainImages(property: nat)
      modifies this
      ensures images == ClearMain(old(images), property)
      ensures types == old(types) && deals == old(deals) && listings == old(listings) && lastId == old(lastId)
    {
      var rows := images;
      ghost var before := rows;
      var i := 0;
      while i < |rows|
        invariant 0 <= i <= |rows| == |before|
        invariant forall k :: 0 <= k < i ==> rows[k] == UnflagIf(before[k], property)
        invariant forall k :: i <= k < |rows| ==> rows[k] == before[k]
      {
        if rows[i].property == property && rows[i].isMain {
          rows := rows[i := rows[i].(isMain := false)];
        }
        i := i + 1;
      }
      ClearMainEach(before, rows, property);
      images := rows;
    }

    /** The `Max("sort_order")` aggregate. */
    method LargestSortOrder(property: nat) returns (m: nat)
      ensures m == MaxSortOrder(images, property)
    {
      m := 0;
      var i := |images|;
      while i > 0
        invariant 0 <= i <= |images|
        invariant m == MaxSortOrder(images[i..], property)
      {
        i := i - 1;
        assert images[i..][1..] == images[i + 1..];
        if images[i].property == property && images[i].sortOrder > m {
          m := images[i].sortOrder;
        }
      }
    }

    /** `PropertyImage.save`; with `creating` the row receives a fresh id. */
    method SaveImage(img: ImageRow, creating: bool) returns (row: ImageRow)
      requires Valid()
      requires !creating ==> img.id <= lastId
      modifies this
      ensures Valid()
      ensures creating ==> lastId == old(lastId) + 1 && row.id == lastId
      ensures !creating ==> lastId == old(lastId) && row.id == img.id
      ensures images == SavedImages(old(images), img.(id := row.id))
      ensures row in images
      ensures types == old(types) && deals == old(deals) && listings == old(listings)
    {
      row := if creating then img.(id := lastId + 1) else img;
      ghost var before := images;
      ghost var target := row;
      row := PlaceImage(row);
      SavedImagesOneMain(before, target);
      images := Upsert(images, row);
      if creating {
        lastId := lastId + 1;
      }
    }

    /** The first half of `PropertyImage.save`: unflag the listing's other main images
        when `row` is main, and give a row without a position the next one. */
    method PlaceImage(row: ImageRow) returns (placed: ImageRow)
      modifies this
      ensures images == (if row.isMain then ClearMain(old(images), row.property) else old(images))
      ensures placed == PlacedImage(images, row)
      ensures types == old(types) && deals == old(deals) && listings == old(listings) && lastId == old(lastId)
    {
      placed := row;
      if row.isMain {
        ClearMainImages(row.property);
      }
      if row.sortOrder == 0 {
        var m := LargestSortOrder(row.property);
        placed := row.(sortOrder := m + 1);
      }
    }
  }
}
