/**
 * The JSON shapes of the admin API (house/api/serializers.py): a listing with its type,
 * deal, features and images, its price as a float and again in a USD price block, its
 * address and coordinates again in a location block, and its main image. The request,
 * when there is one, is the function that makes a path absolute.
 */
module Serializers {
  import opened Wrappers
  import opened Json
  import opened Models

  /** `_absolute_url(request, relative_url)`: `request` is `None` without a request,
      otherwise `request.build_absolute_uri`. */
  function AbsoluteUrl(request: Option<string -> string>, relative: Option<string>): (r: Option<string>)
    ensures relative.None? || relative == Some("") || request.None? ==> r == relative
    ensures relative.Some? && relative.value != "" && request.Some? ==> r == Some(request.value(relative.value))
  {
    if relative.None? || relative.value == "" || request.None? then relative
    else Some(request.value(relative.value))
  }

  function StrOrNull(s: Option<string>): Value {
    if s.Some? then Str(s.value) else Null
  }

  function FloatOrNull(x: Option<real>): Value {
    if x.Some? then Float(x.value) else Null
  }

  /** `PriceInfoSerializer(amount=...).as_dict()`, always in USD. */
  function PriceInfo(amount: Value): Value {
    Obj(map["amount" := amount, "currency" := Str("USD")])
  }

  /** `LocationSerializer(...).as_dict()`. */
  function Location(address: string, latitude: Option<real>, longitude: Option<real>): Value {
    Obj(map["address" := Str(address), "latitude" := FloatOrNull(latitude), "longitude" := FloatOrNull(longitude)])
  }

  /** `serialize_type`: nothing for a missing relation. */
  function SerializeType(t: Option<TypeRow>): (r: Value)
    ensures t.None? <==> r == Null
    ensures t.Some? ==> r == Obj(map["id" := Int(t.value.id), "name" := Str(t.value.name), "slug" := Str(t.value.slug)])
  {
    if t.None? then Null
    else Obj(map["id" := Int(t.value.id), "name" := Str(t.value.name), "slug" := Str(t.value.slug)])
  }

  /** `serialize_deal`: nothing for a missing relation. */
  function SerializeDeal(d: Option<DealRow>): (r: Value)
    ensures d.None? <==> r == Null
    ensures d.Some? ==> r == Obj(map["id" := Int(d.value.id), "name" := Str(d.value.name)])
  {
    if d.None? then Null else Obj(map["id" := Int(d.value.id), "name" := Str(d.value.name)])
  }

  /** `serialize_feature` of a feature row `(id, name)`. */
  function SerializeFeature(f: (nat, string)): Value {
    Obj(map["id" := Int(f.0), "name" := Str(f.1)])
  }

  /** `serialize_image`: the stored file's URL, made absolute when there is a request. */
  function SerializeImage(img: ImageRow, request: Option<string -> string>): Value {
    Obj(map["id" := Int(img.id), "url" := StrOrNull(AbsoluteUrl(request, Some(img.url))), "is_main" := Bool(img.isMain)])
  }

  function SerializeImages(images: seq<ImageRow>, request: Option<string -> string>): (r: seq<Value>)
    ensures |r| == |images| && forall i :: 0 <= i < |images| ==> r[i] == SerializeImage(images[i], request)
  {
    if images == [] then [] else [SerializeImage(images[0], request)] + SerializeImages(images[1..], request)
  }

  function SerializeFeatures(features: seq<(nat, string)>): (r: seq<Value>)
    ensures |r| == |features| && forall i :: 0 <= i < |features| ==> r[i] == SerializeFeature(features[i])
  {
    if features == [] then [] else [SerializeFeature(features[0])] + SerializeFeatures(features[1..])
  }

  /** The first main image of the list. */
  function FirstMain(images: seq<ImageRow>): (r: Option<ImageRow>)
    ensures r.Some? ==> r.value in images && r.value.isMain
    ensures r.None? <==> forall x :: x in images ==> !x.isMain
    ensures r.Some? ==> exists k :: 0 <= k < |images| && images[k] == r.value && forall j :: 0 <= j < k ==> !images[j].isMain
  {
    if images == [] then None
    else if images[0].isMain then Some(images[0])
    else
      var r := FirstMain(images[1..]);
      if r.Some? then
        var k :| 0 <= k < |images[1..]| && images[1..][k] == r.value && forall j :: 0 <= j < k ==> !images[1..][j].isMain;
        assert images[k + 1] == r.value;
        r
      else r
  }

  /** The row `main_image_url` is taken from: the first main image, else the first image. */
  function MainRow(images: seq<ImageRow>): Option<ImageRow> {
    FirstMain(images).OrElse(if images == [] then None else Some(images[0]))
  }

  /** `main_image_url`: the serialized URL of that row. */
  function MainImageUrl(images: seq<ImageRow>, request: Option<string -> string>): Option<string> {
    if MainRow(images).None? then None else AbsoluteUrl(request, Some(MainRow(images).value.url))
  }

  /** `{"url": main_image_url} if main_image_url else None`. */
  function MainImageField(images: seq<ImageRow>, request: Option<string -> string>): Value {
    var u := MainImageUrl(images, request);
    if u.Some? && u.value != "" then Obj(map["url" := Str(u.value)]) else Null
  }

  /** The default ordering of `property.images.all()`: by sort position, newest first
      among equal positions. */
  predicate InDefaultOrder(images: seq<ImageRow>) {
    forall i, j :: 0 <= i < j < |images| ==> !Precedes(images[j], images[i])
  }

  /** The path `get_absolute_url` reverses to. */
  function DetailPath(slug: string): string {
    "/property/" + slug + "/"
  }

  /** The dictionary `serialize_property` returns, one field per key. */
  datatype PropertyJson = PropertyJson(
    id: Value, title: Value, slug: Value, description: Value, address: Value, latitude: Value, longitude: Value,
    location: Value, price: Value, priceInfo: Value, area: Value, rooms: Value, createdAt: Value,
    isArchived: Value, featuredHomepage: Value, propertyType: Value, dealType: Value, features: Value,
    images: Value, mainImage: Value, absoluteUrl: Value)
  {
    /** The dictionary itself, under the keys the API returns. */
    function AsDict(): map<string, Value> {
      map["id" := id, "title" := title, "slug" := slug, "description" := description, "address" := address,
          "latitude" := latitude, "longitude" := longitude, "location" := location, "price" := price,
          "price_info" := priceInfo, "area" := area, "rooms" := rooms, "created_at" := createdAt,
          "is_archived" := isArchived, "featured_homepage" := featuredHomepage, "property_type" := propertyType,
          "deal_type" := dealType, "features" := features, "images" := images, "main_image" := mainImage,
          "absolute_url" := absoluteUrl]
    }
  }

  /** `serialize_property`: `images` are the listing's image rows in the order the query
      returns them, `features` its feature rows, `createdAt` the ISO form of its creation
      time. */
  function SerializeProperty(id: nat, p: Listing, types: seq<TypeRow>, deals: seq<DealRow>,
                             images: seq<ImageRow>, features: seq<(nat, string)>, createdAt: Option<string>,
                             request: Option<string -> string>): (r: PropertyJson)
    ensures r.priceInfo == Obj(map["amount" := r.price, "currency" := Str("USD")])
    ensures r.location == Obj(map["address" := r.address, "latitude" := r.latitude, "longitude" := r.longitude])
    ensures r.price == Float(p.price) && r.address == Str(p.address)
    ensures (r.latitude == Null <==> p.latitude.None?) && (r.longitude == Null <==> p.longitude.None?)
    ensures images == [] ==> r.mainImage == Null
  {
    var price := Float(p.price);
    PropertyJson(
      Int(id), Str(p.title), Str(p.slug), Str(p.description), Str(p.address),
      FloatOrNull(p.latitude), FloatOrNull(p.longitude), Location(p.address, p.latitude, p.longitude),
      price, PriceInfo(price), Int(p.area), Int(p.rooms), StrOrNull(createdAt),
      Bool(p.isArchived), Bool(p.featuredHomepage),
      SerializeType(TypeOf(types, p.propertyType)), SerializeDeal(DealOf(deals, p.dealType)),
      Arr(SerializeFeatures(features)), Arr(SerializeImages(images, request)),
      MainImageField(images, request), StrOrNull(AbsoluteUrl(request, Some(DetailPath(p.slug)))))
  }

  // ---------------------------------------------------------------- properties

  /** Without a request, or for an empty path, the URL comes back as it went in; with a
      request that makes every path absolute, making it absolute again changes nothing. */
  lemma AbsoluteUrlStable(request: Option<string -> string>, relative: Option<string>)
    requires request.Some? ==> forall s :: request.value(request.value(s)) == request.value(s)
    ensures AbsoluteUrl(request, AbsoluteUrl(request, relative)) == AbsoluteUrl(request, relative)
  {
  }

  /** The listing's type and deal appear when set (and stored), and as null when unset. */
  lemma RelationsSerialized(id: nat, p: Listing, types: seq<TypeRow>, deals: seq<DealRow>,
                            images: seq<ImageRow>, features: seq<(nat, string)>, createdAt: Option<string>,
                            request: Option<string -> string>)
    ensures var r := SerializeProperty(id, p, types, deals, images, features, createdAt, request);
            (p.propertyType.None? ==> r.propertyType == Null)
            && (p.dealType.None? ==> r.dealType == Null)
            && (p.propertyType.Some? && (exists t :: t in types && t.id == p.propertyType.value) ==>
                  r.propertyType.Obj? && r.propertyType.fields["id"] == Int(p.propertyType.value))
            && (p.dealType.Some? && (exists d :: d in deals && d.id == p.dealType.value) ==>
                  r.dealType.Obj? && r.dealType.fields["id"] == Int(p.dealType.value))
  {
    var t := TypeOf(types, p.propertyType);
    var d := DealOf(deals, p.dealType);
  }

  /** The main image is the first main image, else the first image; with no images there
      is none, and the field is null. */
  lemma MainImageChoice(images: seq<ImageRow>, request: Option<string -> string>)
    ensures images == [] ==> MainImageField(images, request) == Null
    ensures (exists k :: 0 <= k < |images| && images[k].isMain) ==>
              MainRow(images).Some? && MainRow(images).value.isMain
              && exists k :: 0 <= k < |images| && images[k] == MainRow(images).value
                             && forall j :: 0 <= j < k ==> !images[j].isMain
    ensures images != [] && (forall k :: 0 <= k < |images| ==> !images[k].isMain) ==>
              MainRow(images) == Some(images[0])
    ensures request.None? && MainRow(images).Some? && MainRow(images).value.url != "" ==>
              MainImageField(images, request) == Obj(map["url" := Str(MainRow(images).value.url)])
  {
    if exists k :: 0 <= k < |images| && images[k].isMain {
      var k :| 0 <= k < |images| && images[k].isMain;
      assert images[k] in images;
    }
    if images != [] && (forall k :: 0 <= k < |images| ==> !images[k].isMain) {
      assert FirstMain(images).None?;
    }
  }

  lemma PrecedesTotal(a: ImageRow, b: ImageRow)
    requires a.id != b.id
    ensures Precedes(a, b) || Precedes(b, a)
  {
  }

  /** For the listing's rows in the default order, the serialized main image is the one
      `Property.main_image` picks. */
  lemma MainRowIsModelMain(stored: seq<ImageRow>, property: nat, images: seq<ImageRow>)
    requires OneMainEach(stored) && DistinctIds(stored)
    requires forall x :: x in images <==> x in stored && x.property == property
    requires InDefaultOrder(images)
    ensures MainRow(images) == MainImage(stored, property)
  {
    MainImagePrefersMain(stored, property);
    var fm := FirstMain(images);
    if fm.Some? {
      var m := fm.value;
      assert m in stored && m.property == property && m.isMain;
      var mm := MainImage(stored, property).value;
      assert mm in stored && mm.property == property && mm.isMain;
      SameMain(stored, m, mm);
    } else {
      forall x | x in stored && x.property == property ensures !x.isMain {
        assert x in images;
      }
      if images != [] {
        var first := images[0];
        var fo := FirstInOrder(ImagesOfListing(stored, property)).value;
        assert first in stored;
        assert fo in images;
        assert first in ImagesOfListing(stored, property);
        assert !Precedes(first, fo);
        assert !Precedes(fo, first) by {
          var j :| 0 <= j < |images| && images[j] == fo;
          if j > 0 { assert !Precedes(images[j], images[0]); }
        }
        if first != fo {
          DistinctRows(stored, first, fo);
          PrecedesTotal(first, fo);
        }
      } else {
        assert forall x :: x in stored ==> x.property != property;
      }
    }
  }

  lemma DistinctRows(stored: seq<ImageRow>, a: ImageRow, b: ImageRow)
    requires DistinctIds(stored) && a in stored && b in stored && a != b
    ensures a.id != b.id
  {
    var i :| 0 <= i < |stored| && stored[i] == a;
    var j :| 0 <= j < |stored| && stored[j] == b;
  }

  lemma SameMain(stored: seq<ImageRow>, a: ImageRow, b: ImageRow)
    requires OneMainEach(stored)
    requires a in stored && b in stored && a.isMain && b.isMain && a.property == b.property
    ensures a == b
  {
    var i :| 0 <= i < |stored| && stored[i] == a;
    var j :| 0 <= j < |stored| && stored[j] == b;
  }
}
