/**
 * Assembly of one listing record from a document (house/utils/html_parser.py,
 * lines 87-104 and 186-232): every field extractor runs once, the title is classified,
 * and when asked to, the address is geocoded to fill in missing coordinates.
 */
module ListingParser {
  import opened Wrappers
  import opened Document
  import opened PriceNormalizer
  import opened FieldExtractor
  import Classifier
  import Coordinates
  import AddressGeocoder

  /** `ParsedProperty`. */
  datatype ParsedProperty = ParsedProperty(
    title: string,
    address: string,
    price: real,
    area: real,
    rooms: nat,
    descriptionHtml: string,
    mainImage: string,
    gallery: seq<string>,
    propertyType: string,
    dealType: string,
    latitude: Option<real>,
    longitude: Option<real>
  )

  /** Python truthiness of an optional float: missing and 0.0 are both false. */
  predicate Truthy(x: Option<real>) { x.Some? && x.value != 0.0 }

  /** `x or y` on optional floats. */
  function OrCoordinate(x: Option<real>, y: Option<real>): Option<real> {
    if Truthy(x) then x else y
  }

  /** The condition under which `parse_property_html` asks the geocoder. */
  predicate NeedsGeocoding(geocodeMissing: bool, address: string, found: Coordinates.Coords) {
    geocodeMissing && address != "" && (found.0.None? || found.1.None?)
  }

  /** The pair the record keeps: the document's own, with each missing or zero half taken
      from the geocoder's answer when geocoding is asked for. */
  function Located(geocodeMissing: bool, address: string, found: Coordinates.Coords,
                   geocoded: Coordinates.Coords): Coordinates.Coords {
    if NeedsGeocoding(geocodeMissing, address, found)
    then (OrCoordinate(found.0, geocoded.0), OrCoordinate(found.1, geocoded.1))
    else found
  }

  /** The record `parse_property_html` builds, given the pair the geocoder would answer
      for the address (used only when `NeedsGeocoding`). */
  function ParsedOf(doc: Doc, rates: Option<Rates>, fetched: Rates, geocodeMissing: bool,
                    geocoded: Coordinates.Coords): (p: ParsedProperty)
    ensures p.rooms >= 1 && p.area >= 0.0
    ensures p.title == ExtractTitle(doc) && p.address == AddressOf(doc)
    ensures p.gallery == ImagesOf(doc).1 && p.mainImage == ImagesOf(doc).0
    ensures p.propertyType == Classifier.GetPropertyType(p.title)
    ensures p.dealType == Classifier.GetDealType(p.title)
    ensures (p.latitude, p.longitude) ==
              Located(geocodeMissing, p.address, Coordinates.CoordinatesOf(doc), geocoded)
  {
    var title := ExtractTitle(doc);
    var address := AddressOf(doc);
    var images := ImagesOf(doc);
    var found := Coordinates.CoordinatesOf(doc);
    var coords := Located(geocodeMissing, address, found, geocoded);
    ParsedProperty(
      title, address, ExtractPriceUsd(doc, rates, fetched), ExtractArea(doc), ExtractRooms(doc),
      ExtractDescription(doc), images.0, images.1,
      Classifier.GetPropertyType(title), Classifier.GetDealType(title),
      coords.0, coords.1)
  }

  /** Coordinates found in the document are never replaced by the geocoder's. */
  lemma FoundCoordinatesKept(doc: Doc, rates: Option<Rates>, fetched: Rates, geocodeMissing: bool,
                             geocoded: Coordinates.Coords)
    requires Coordinates.CoordinatesOf(doc).0.Some?
    ensures var p := ParsedOf(doc, rates, fetched, geocodeMissing, geocoded);
            (p.latitude, p.longitude) == Coordinates.CoordinatesOf(doc)
  {
    var found := Coordinates.CoordinatesOf(doc);
    LocatedKeepsPair(geocodeMissing, AddressOf(doc), found, geocoded);
  }

  lemma LocatedKeepsPair(geocodeMissing: bool, address: string, found: Coordinates.Coords,
                         geocoded: Coordinates.Coords)
    requires found.0.Some? && found.1.Some?
    ensures Located(geocodeMissing, address, found, geocoded) == found
  {
  }

  /** A document without coordinates takes the geocoder's pair, as long as it has an
      address and geocoding was asked for. */
  lemma MissingCoordinatesGeocoded(doc: Doc, rates: Option<Rates>, fetched: Rates,
                                   geocoded: Coordinates.Coords)
    requires Coordinates.CoordinatesOf(doc).0.None? && AddressOf(doc) != ""
    ensures var p := ParsedOf(doc, rates, fetched, true, geocoded);
            (p.latitude, p.longitude) == geocoded
  {
  }

  /** The record's coordinates are a pair or nothing whenever the geocoder's answer is. */
  lemma CoordinatesPaired(doc: Doc, rates: Option<Rates>, fetched: Rates, geocodeMissing: bool,
                          geocoded: Coordinates.Coords)
    requires geocoded.0.Some? <==> geocoded.1.Some?
    ensures var p := ParsedOf(doc, rates, fetched, geocodeMissing, geocoded);
            p.latitude.Some? <==> p.longitude.Some?
  {
    var p := ParsedOf(doc, rates, fetched, geocodeMissing, geocoded);
    var found := Coordinates.CoordinatesOf(doc);
    assert found.0.None? ==> !Truthy(found.0) && !Truthy(found.1);
    assert (p.latitude, p.longitude) == Located(geocodeMissing, p.address, found, geocoded);
  }

  /** Without the geocoding flag, or without an address, the geocoder's answer is unused. */
  lemma GeocoderIgnoredUnlessAsked(doc: Doc, rates: Option<Rates>, fetched: Rates, geocodeMissing: bool,
                                   g1: Coordinates.Coords, g2: Coordinates.Coords)
    requires !geocodeMissing || AddressOf(doc) == ""
    ensures ParsedOf(doc, rates, fetched, geocodeMissing, g1) == ParsedOf(doc, rates, fetched, geocodeMissing, g2)
  {
  }

  /** The pair the memoised geocoder answers for an address: the remembered one, or the
      service's. */
  function CachedAnswer(entries: map<AddressGeocoder.Key, Coordinates.Coords>, address: string, userAgent: string,
                        available: bool, answer: string -> AddressGeocoder.Answer): Coordinates.Coords {
    if (address, userAgent) in entries then entries[(address, userAgent)]
    else AddressGeocoder.GeocodeUncached(address, available, answer)
  }

  /** `parse_property_html`, geocoding through the memoised lookup. */
  method ParsePropertyHtml(doc: Doc, rates: Option<Rates>, fetched: Rates, geocodeMissing: bool,
                           userAgent: string, cache: AddressGeocoder.GeocodeCache,
                           available: bool, answer: string -> AddressGeocoder.Answer)
    returns (p: ParsedProperty)
    requires cache.Valid()
    modifies cache
    ensures cache.Valid()
    ensures p.title == ExtractTitle(doc) && p.address == AddressOf(doc)
    ensures p == ParsedOf(doc, rates, fetched, geocodeMissing,
                          CachedAnswer(old(cache.entries), AddressOf(doc), userAgent, available, answer))
    ensures !NeedsGeocoding(geocodeMissing, AddressOf(doc), Coordinates.CoordinatesOf(doc)) ==>
              cache.entries == old(cache.entries) && cache.order == old(cache.order)
  {
    var title := ExtractTitle(doc);
    var address := ExtractAddress(doc);
    var price := ExtractPriceUsd(doc, rates, fetched);
    var rooms := ExtractRooms(doc);
    var area := ExtractArea(doc);
    var description := ExtractDescription(doc);
    var mainImage, gallery := ExtractImages(doc);
    var propertyType := Classifier.GetPropertyType(title);
    var dealType := Classifier.GetDealType(title);
    var latitude, longitude := Locate(doc, geocodeMissing, address, userAgent, cache, available, answer);
    p := ParsedProperty(title, address, price, area, rooms, description, mainImage, gallery,
                        propertyType, dealType, latitude, longitude);
  }

  /** The coordinate step of `parse_property_html`: the document's pair, completed through
      the memoised geocoder when geocoding is asked for and a half is missing. */
  method Locate(doc: Doc, geocodeMissing: bool, address: string, userAgent: string,
                cache: AddressGeocoder.GeocodeCache, available: bool, answer: string -> AddressGeocoder.Answer)
    returns (latitude: Option<real>, longitude: Option<real>)
    requires cache.Valid()
    modifies cache
    ensures cache.Valid()
    ensures (latitude, longitude) == Located(geocodeMissing, address, Coordinates.CoordinatesOf(doc),
                                             CachedAnswer(old(cache.entries), address, userAgent, available, answer))
    ensures !NeedsGeocoding(geocodeMissing, address, Coordinates.CoordinatesOf(doc)) ==>
              cache.entries == old(cache.entries) && cache.order == old(cache.order)
  {
    latitude, longitude := Coordinates.ExtractCoordinates(doc);
    if geocodeMissing && address != "" && (latitude.None? || longitude.None?) {
      var g := cache.GeocodeAddress(address, userAgent, available, answer);
      latitude := OrCoordinate(latitude, g.0);
      longitude := OrCoordinate(longitude, g.1);
    }
  }
}
