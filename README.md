# DOMINIUM listing pipeline — a Dafny model

DOMINIUM is a Django real-estate site. Its core is a listing-import pipeline:
- a listing page, given as an HTML document, is turned into a listing record by ordered fallback chains: title, address, price with currency detection and conversion to dollars, rooms, area, description, images, coordinates, and the deal and property type read from keywords;
- the admin API validates the record, resolves the type and deal rows, stores the listing and transfers its images, each on a best-effort basis;
- the exchange rates come from a provider with a cache and fixed defaults.

Around that core sit smaller rules, all modelled here:
- the save invariants of the stored models: unique slugs, one main image per listing, image order and when to geocode;
- the search filters and the price display in three currencies;
- the public views: the consultation throttle, meta descriptions and the home-page selection;
- the form, settings, account and serialisation helpers;
- the pure helpers of the search page's script.

Each source file has a module of its own.

| module | file | source |
|---|---|---|
| `Wrappers`, `Text` | text.dfy | Python string built-ins: strip, lower, split, replace, `int()` |
| `Json` | json.dfy | the values `json.loads` gives, with Python truthiness and conversions |
| `Document` | document.dfy | the parsed page, given as one answer per selector |
| `PriceNormalizer` | price_normalizer.dfy | house/utils/html_parser.py: currency, price cleaning, rounding up to 5, conversion |
| `Classifier` | classifier.dfy | house/utils/html_parser.py: deal and property type |
| `Scalars`, `FieldExtractor` | scalars.dfy, field_extractor.dfy | house/utils/html_parser.py: rooms, area, title, address, description, images |
| `Coordinates`, `AddressGeocoder` | coordinates.dfy, address_geocoder.dfy | house/utils/html_parser.py: coordinates, address variants, the geocode memo |
| `ListingParser` | listing_parser.dfy | house/utils/html_parser.py: parse_property_html |
| `ExchangeRates` | exchange_rates.dfy | house/utils/currency.py |
| `AdminFields`, `AdminImport`, `ImageTransfer`, `AdminBatch`, `AdminRequests` | admin_*.dfy, image_transfer.dfy | house/api/views.py |
| `ServiceImporter` | importer.dfy | house/services/importer.py |
| `Slugs`, `Models` | slugs.dfy, models.dfy | house/models.py |
| `Serializers` | serializers.dfy | house/api/serializers.py |
| `SearchService`, `SearchView` | search_service.dfy, search_view.dfy | house/services/search.py, landing_doominium_real_state/views/search.py |
| `PublicViews`, `WebCommon` | public_view.dfy, web_common.dfy | landing_doominium_real_state/views/public.py, views/common.py |
| `Forms`, `Settings`, `Accounts` | forms.dfy, settings.dfy, accounts.dfy | forms/mixins.py, settings/base.py, accounts/models.py |
| `SearchUi` | search_ui.dfy | static/base/assets/js/search/ui.js |

How the model is built:
- **Imperative code.** Code that changes state step by step is written as classes and methods with loops. Examples are the image import loops, the batch import, the slug loops, the stored tables, the cache counters, the environment loader and the home-page selection. Each such method is proved against a specification function, and lemmas about that function state what the source promises.
- **Pure code.** Pure code is written as functions and lemmas.
- **External services as parameters.** The network, the database and the cache backend are given as parameters or class fields: maps and sequences. So are the clock, randomness, slugify and strip_tags.
- **Numbers.** Floats and decimals are exact rationals (`real`).

Behaviour worth noting, modelled as the code does it:
- every comma in a price becomes a dot, so "1,250,000" does not parse and gives 0;
- a leading minus sign survives price cleaning, so a negative price is possible;
- the geocode memo holds at most 256 addresses and also remembers failures;
- a newly created property type whose slugified name is free still ends up with the slug `base-1`, because the regeneration does not exclude the row itself.

## Model

| member | source | states |
|---|---|---|
| PriceNormalizer.DetectCurrency | house/utils/html_parser.py:107-112 | the answer is one of "UAH", "EUR", "USD" (see also house/utils/html_parser.py:41-46) |
| PriceNormalizer.DetectInFirstSign | house/utils/html_parser.py:107-112 | over any sign table: the code of the first sign in table order that occurs in the text, or "USD" when none occurs |
| PriceNormalizer.DetectCurrencyFirstSign | house/utils/html_parser.py:107-112 | detect_currency answers the code of the first of грн, ₴, €, $ found in the lower-cased text, else "USD" (see also house/utils/html_parser.py:41-46) |
| PriceNormalizer.HryvniaBeforeDollar | house/utils/html_parser.py:107-112 | a text mentioning "грн" is hryvnia whatever other signs it holds (see also house/utils/html_parser.py:41-46) |
| PriceNormalizer.NoSignMeansUsd | house/utils/html_parser.py:107-112 | a text with no currency sign is dollars |
| PriceNormalizer.CleanPrice | house/utils/html_parser.py:115-120 | the cleaned text holds only digits, ".", "," and "-" |
| PriceNormalizer.FilterRemoveAll | house/utils/html_parser.py:117-119 | removing a sign made of dropped characters does not change what the character filter keeps |
| PriceNormalizer.FilterRemoveSigns | house/utils/html_parser.py:117-119 | removing all currency signs in turn does not change what the character filter keeps |
| PriceNormalizer.FilterLower | house/utils/html_parser.py:116-119 | lower-casing does not change what the character filter keeps |
| PriceNormalizer.CleanPriceIsNumericChars | house/utils/html_parser.py:115-120 | clean_price is exactly the subsequence of digits, ".", "," and "-" of the raw text, in order |
| PriceNormalizer.Ceil | house/utils/html_parser.py:126 | ceil: the least integer not below x |
| PriceNormalizer.RoundUpToNearestFive | house/utils/html_parser.py:123-126 | a non-positive value is returned unchanged; a positive one becomes a multiple of 5 that is at least the value and less than value + 5 |
| PriceNormalizer.ConvertToUsd | house/utils/html_parser.py:129-142 | a code other than UAH and EUR returns the price unchanged; UAH and EUR return the unrounded dollar amount rounded up to a multiple of 5 when positive, unrounded otherwise |
| PriceNormalizer.UahConversion | house/utils/html_parser.py:129-134 | hryvnia divide by the dollar rate; with no dollar rate the divisor is 1 |
| PriceNormalizer.EurConversion | house/utils/html_parser.py:136-140 | euros are multiplied by the euro rate over the dollar rate, then rounded up to a multiple of 5 |
| Classifier.GetDealType | house/utils/html_parser.py:145-151 | rent exactly when a rent keyword occurs in the lower-cased title; sale exactly when no rent keyword but a sale keyword occurs; "Інше" otherwise (see also house/utils/html_parser.py:18-39) |
| Classifier.GetPropertyType | house/utils/html_parser.py:154-164 | house, apartment, land, commercial in that priority, each exactly when its words occur and no earlier group's do; "Інше" otherwise |
| Classifier.ClassificationIgnoresCase | house/utils/html_parser.py:146-155 | classifying a lower-cased title gives the same deal and property type |
| Classifier.RentIsStable | house/utils/html_parser.py:146-148 | a rent title stays rent whatever text is appended |
| Scalars.SafeFloat | house/utils/html_parser.py:551-559 | a missing or empty value gives the default; otherwise the number the text reads as once every comma is a point, or the default when it does not parse |
| Scalars.DigitPrefix | house/utils/html_parser.py:534 | the longest all-digit prefix |
| Scalars.FromFirstDigit | house/utils/html_parser.py:534 | present exactly when the text has a digit; then the suffix starting at the first digit |
| Scalars.FirstDigitRun | house/utils/html_parser.py:534 | present exactly when the text has a digit; then a non-empty run of digits |
| Scalars.HasDigitAppend | house/utils/html_parser.py:534 | a concatenation has a digit exactly when one of its parts has |
| Scalars.RemoveCharKeepsDigits | house/utils/html_parser.py:534 | removing spaces neither adds nor removes digits |
| Scalars.ExtractInt | house/utils/html_parser.py:531-535 | `_extract_int` finds a number exactly when the text has a digit |
| Scalars.ExtractIntIgnoresSpace | house/utils/html_parser.py:534 | a space between two parts does not change the integer read ("1 200" reads as "1200") |
| Scalars.ExtractIntNatToString | house/utils/html_parser.py:531-535 | the decimal numeral of n reads back as n |
| Scalars.NumeralAt | house/utils/html_parser.py:541-546 | the match of `[0-9]+(?:[.,][0-9]+)?` at a digit: a prefix starting and ending with a digit |
| Scalars.NumeralParses | house/utils/html_parser.py:555-557 | digits, optionally with one point between digits, parse as a non-negative number |
| Scalars.NumeralAtParses | house/utils/html_parser.py:546-556 | the matched numeral, commas made points, always parses to a non-negative number |
| Scalars.ReadNumeral | house/utils/html_parser.py:548 | `_safe_float` of the matched numeral is never the default and is non-negative |
| Scalars.ExtractFloat | house/utils/html_parser.py:538-548 | `_extract_float` answers a number exactly when the text has a digit, and that number is non-negative |
| Document.SelectOne | house/utils/html_parser.py:236-238 | `select_one` answers a node exactly when the selector matches, and then the first match |
| Document.AttrOr | house/utils/html_parser.py:442 | `get(a) or get(b)` answers only a non-empty value |
| Document.CollapseSpaces | house/utils/html_parser.py:562-563 | collapsing keeps emptiness and whether the text starts with whitespace |
| Document.CollapseSingleSpaced | house/utils/html_parser.py:563 | after `re.sub(r"\s+", " ", ...)` every whitespace character is a plain space and no two are adjacent |
| Document.CollapseIdentity | house/utils/html_parser.py:563 | a single-spaced text is left as it is by the collapse |
| Document.TrimLeftSingleSpaced | house/utils/html_parser.py:563 | trimming the left end keeps a text single-spaced |
| Document.TrimRightSingleSpaced | house/utils/html_parser.py:563 | trimming the right end keeps a text single-spaced |
| Document.NormalizeText | house/utils/html_parser.py:562-563 | `_normalize_text` gives a single-spaced text with no whitespace at either end |
| Document.NormalizeFixesNormalized | house/utils/html_parser.py:562-563 | a normalised text is its own normal form |
| Document.NormalizeIdempotent | house/utils/html_parser.py:562-563 | normalising twice is normalising once |
| Coordinates.FirstFloatAttrOf | house/utils/html_parser.py:511-517 | the number is the `_safe_float` value of the first listed attribute the element has whose value parses, no earlier listed attribute giving one; nothing is answered exactly when no listed attribute parses |
| Coordinates.FirstFloatAttr | house/utils/html_parser.py:511-517 | the loop answers the first listed attribute present whose value parses, or nothing |
| Coordinates.FirstSep | house/utils/html_parser.py:525 | the position of the first ";" or ",", or the length when there is none |
| Coordinates.SplitGeo | house/utils/html_parser.py:525 | `re.split(r"[;,]", value)`: at least one part; two or more exactly when a separator occurs; the first two parts are the texts before and between the first two separators |
| Coordinates.ParseGeoPosition | house/utils/html_parser.py:520-528 | a half is present only when the value holds a separator |
| Coordinates.SingleNumberIsNoPosition | house/utils/html_parser.py:526-528 | a value without ";" or "," gives (None, None) |
| Coordinates.DigitsParse | house/utils/html_parser.py:551-557 | a digit string reads as its value |
| Coordinates.SplitGeoPair | house/utils/html_parser.py:525 | "x;y" with separator-free halves splits into exactly [x, y] |
| Coordinates.PositionOfTwoNumbers | house/utils/html_parser.py:520-528 | "a;b" or "a,b" of two whole numbers gives (a, b) |
| Coordinates.MetaCoordsWithoutSeparator | house/utils/html_parser.py:436-450 | metas whose contents hold no separator never give a position |
| Coordinates.ScanMeta | house/utils/html_parser.py:436-442 | the loop over one meta list answers the first complete position of the list, or nothing |
| Coordinates.TakeWhileCoord | house/utils/html_parser.py:455 | the run `[0-9.\-]+`: a prefix made only of digits, "." and "-" |
| Coordinates.MatchAt | house/utils/html_parser.py:455 | a match at the start begins with the key and captures a non-empty number run |
| Coordinates.Search | house/utils/html_parser.py:455 | a found match begins with the key and captures a non-empty number run |
| Coordinates.LetterIsNoNumber | house/utils/html_parser.py:555-557 | a text starting with a letter does not parse as a number |
| Coordinates.ScriptValueAsWrittenNeverReads | house/utils/html_parser.py:447-456 | as written, the script step hands the whole match, key included, to `float()` (`_extract_float` at house/utils/html_parser.py:538-548) and never yields a latitude or a longitude |
| Coordinates.MatchKeyDigits | house/utils/html_parser.py:455 | "key:digits" is matched whole, capturing the digits |
| Coordinates.ScriptValueReadsNumber | house/utils/html_parser.py:451-458 | read at the captured group, "latitude: n" gives n |
| Coordinates.CoordinatesOf | house/utils/html_parser.py:423-459 | the coordinates are a pair or nothing: the latitude is present exactly when the longitude is; a pair only ever comes from an element's attributes or a position meta, because the script step as written never reads one |
| Coordinates.ExtractCoordinates | house/utils/html_parser.py:423-459 | the loop over the elements, the two meta lists and the script text (read as written) answers exactly the pair of the first step that yields both halves, else (None, None) |
| Coordinates.SeparateMetasGiveNothing | house/utils/html_parser.py:423-459 | separate latitude and longitude metas holding one number each are not combined: with no element coordinates the pair stays empty (the case house/tests.py:89-110 exercises) |
| Coordinates.ElementCoords | house/utils/html_parser.py:426-430 | the pair of the first element whose attributes hold both a numeric latitude and a numeric longitude; nothing exactly when no element holds both |
| Coordinates.MetaCoords | house/utils/html_parser.py:432-446 | the pair of the first selector whose meta holds a complete position; nothing exactly when none does |
| Coordinates.ScriptCoords | house/utils/html_parser.py:448-457 | the script step as written gives no pair, whatever the page holds |
| Coordinates.CoordinatesOfIntended | house/utils/html_parser.py:423-459 | with the script step reading the captured numbers the pair stays a pair or nothing; it agrees with the cascade as written whenever that finds a pair, and otherwise is the script's pair |
| FieldExtractor.ExtractTitle | house/utils/html_parser.py:235-246 | the title is normalised text, and with no h1, h2, title or og:title it is the placeholder "Об'єкт DOMINIUM" |
| FieldExtractor.TitleFromFirstHeading | house/utils/html_parser.py:236-242 | a first h1 decides the title, even when its text is blank |
| FieldExtractor.FirstSelectorText | house/utils/html_parser.py:250-261 | answers a non-empty text, the text of a selector that every earlier selector leaves empty, and answers nothing exactly when every selector yields "" |
| FieldExtractor.FirstHolder | house/utils/html_parser.py:263-265 | the element found carries both data-address and data-location and is the first such element in document order; nothing is found only when no element carries both |
| FieldExtractor.FirstAttrText | house/utils/html_parser.py:267-270 | a holder's attribute text, when found, is non-empty |
| FieldExtractor.Candidate | house/utils/html_parser.py:273-279 | a text candidate is normalised |
| FieldExtractor.CandidatesNormalized | house/utils/html_parser.py:272-281 | every collected text candidate is normalised |
| FieldExtractor.AddressOf | house/utils/html_parser.py:249-283 | the address is always normalised text |
| FieldExtractor.ScanSelectors | house/utils/html_parser.py:250-261 | the selector loop stops at the first selector that yields text |
| FieldExtractor.ScanAttrs | house/utils/html_parser.py:267-270 | the attribute loop stops at the first non-empty attribute |
| FieldExtractor.CollectCandidates | house/utils/html_parser.py:272-279 | the loop over p/span/li elements collects the place-mentioning texts in document order |
| FieldExtractor.ExtractAddress | house/utils/html_parser.py:249-283 | the imperative extraction yields the address the selector, holder and candidate strategies settle on |
| FieldExtractor.AddressFromSelector | house/utils/html_parser.py:250-261 | when the k-th selector is the first with text, that text, normalised, is the address |
| FieldExtractor.FirstSelectorSkips | house/utils/html_parser.py:250-253 | selectors yielding nothing are skipped |
| FieldExtractor.AddressEmptyWithoutEvidence | house/utils/html_parser.py:249-283 | with no selector text, no holder and no candidate, the address is "" |
| FieldExtractor.ExtractPriceUsd | house/utils/html_parser.py:286-318 | a missing price text, or one that is not a decimal once cleaned, gives 0.0 |
| FieldExtractor.PriceRoundedUp | house/utils/html_parser.py:308-318 | a converted hryvnia or euro price is a multiple of 5 |
| FieldExtractor.DollarPriceUnchanged | house/utils/html_parser.py:308-318 | a dollar price is returned as parsed, without rounding |
| FieldExtractor.FirstString | house/utils/html_parser.py:337-339 | the text found is the first text of the document satisfying the pattern, no earlier one doing so; nothing is found only when no text does |
| FieldExtractor.FirstHeaderCell | house/utils/html_parser.py:358 | the cell found is the first th of the document whose own text contains the caption; nothing is found exactly when no th does (see also house/utils/html_parser.py:330) |
| FieldExtractor.ExtractRooms | house/utils/html_parser.py:321-346 | the room count is at least 1: a positive icon count decides it; failing that (missing or 0), a positive table-cell count; failing that, a positive count from the first text mentioning rooms; else 1 |
| FieldExtractor.RoomsFallback | house/utils/html_parser.py:321-346 | when no strategy yields a positive count, the count is 1 |
| FieldExtractor.ExtractArea | house/utils/html_parser.py:349-369 | the area is never negative; AreaFromIcon, AreaFromCell, AreaFromText and AreaFallback pin each step of the cascade |
| FieldExtractor.AreaFromCell | house/utils/html_parser.py:358-363 | with no icon value, a number read from the cell after the "Площа" header decides the area, even when it is 0 |
| FieldExtractor.AreaFromText | house/utils/html_parser.py:365-369 | with no icon or cell value, the first text holding an area phrase decides the area, and it holds a digit, so a number is read |
| FieldExtractor.AreaFallback | house/utils/html_parser.py:365-369 | with no icon value, no cell value and no area phrase in any text, the area is 0.0 |
| FieldExtractor.AreaOfSquareMetres | house/tests.py:85 | a page whose first area phrase is "55 м²" has area 55 (see also house/tests.py:74) |
| FieldExtractor.SquareMetresNumber | house/tests.py:74 | `_extract_float("55 м²")` is 55 |
| FieldExtractor.AreaFromIcon | house/utils/html_parser.py:350-356 | an area icon whose span holds a digit decides the area |
| FieldExtractor.DescriptionKeepsParagraphs | house/utils/html_parser.py:383-385 | without pdf-blocks or a description element, every description paragraph's markup is in the description |
| FieldExtractor.ExtractDescription | house/utils/html_parser.py:372-387 | with two or more pdf-blocks the second block's markup is the description, whatever else exists; otherwise the first `[itemprop='description']` element, then the first `.description` element; with none of these and no description paragraphs it is empty |
| FieldExtractor.AttrValues | house/utils/html_parser.py:401-411 | no collected url is empty |
| FieldExtractor.GalleryUrls | house/utils/html_parser.py:400-411 | no gallery url, link href or image src, is empty |
| FieldExtractor.Dedup | house/utils/html_parser.py:413-416 | the result has no duplicates and holds exactly the non-empty input urls |
| FieldExtractor.DedupIdentity | house/utils/html_parser.py:413-416 | a duplicate-free list of non-empty urls is left unchanged |
| FieldExtractor.DedupKeepsFirstSeenOrder | house/utils/html_parser.py:413-416 | urls are kept in the order of their first occurrence |
| FieldExtractor.ImagesOf | house/utils/html_parser.py:390-421 | the gallery is duplicate-free, holds exactly the link hrefs and image srcs, and keeps first-seen order; the main image is the main tag's src, else the first gallery url, and is "" only when both are missing |
| FieldExtractor.CollectAttr | house/utils/html_parser.py:401-411 | the collection loop gathers the non-empty attribute values in order |
| FieldExtractor.DedupUrls | house/utils/html_parser.py:413-416 | the dedup loop computes Dedup |
| FieldExtractor.ExtractImages | house/utils/html_parser.py:390-421 | the imperative extraction yields ImagesOf |
| AddressGeocoder.AppendNew | house/utils/html_parser.py:574-579 | appending keeps the list duplicate-free, keeps the earlier variants as a prefix, and holds exactly the old and the offered strings |
| AddressGeocoder.AddAll | house/utils/html_parser.py:570-589 | successive `add` calls keep the list duplicate-free and never reorder or drop an earlier variant |
| AddressGeocoder.AddAllMembers | house/utils/html_parser.py:570-589 | after the `add` calls, a string is a variant exactly when it was one before or one of the calls offered it |
| AddressGeocoder.DerivedCons | house/utils/html_parser.py:570-579 | a string offered by a list of candidates comes from the first candidate or from the rest |
| AddressGeocoder.WithoutDistrict | house/utils/html_parser.py:583 | no kept part mentions "район", and no part is added |
| AddressGeocoder.VariantsOf | house/utils/html_parser.py:566-591 | there is always at least one variant and no variant repeats |
| AddressGeocoder.VariantsAreDerived | house/utils/html_parser.py:566-591 | the variants are exactly the trimmed candidates and their ", Україна" forms; with no usable candidate the address itself is the only variant |
| AddressGeocoder.FirstVariantIsWholeAddress | house/utils/html_parser.py:581 | the first variant is the trimmed, re-joined address |
| AddressGeocoder.FirstAddedFirst | house/utils/html_parser.py:570-581 | a non-blank first candidate becomes the first variant |
| AddressGeocoder.CountryFormTried | house/utils/html_parser.py:570-579 | every non-blank candidate that does not name Ukraine is tried both as it is and with ", Україна" |
| AddressGeocoder.AddVariant | house/utils/html_parser.py:570-579 | the nested `add` computes Add on the variant list |
| AddressGeocoder.AddAllAppend | house/utils/html_parser.py:581-589 | adding two runs of candidates equals adding them one after the other |
| AddressGeocoder.AddDistrictTails | house/utils/html_parser.py:587-589 | the loop over district parts adds, in order, the joined tail after each district part that is not last |
| AddressGeocoder.TailStep | house/utils/html_parser.py:587-589 | one step of the district loop adds the tail exactly when the part mentions "район" and is not last |
| AddressGeocoder.AddHeadCandidates | house/utils/html_parser.py:581-585 | the first two `add` calls offer the joined parts (or the address) and, when it differs, the district-free join |
| AddressGeocoder.AddHeads | house/utils/html_parser.py:581-585 | adding the head candidates is adding the joined address and then, only when it is non-empty and differs from the parts, the district-free join |
| AddressGeocoder.AddressVariants | house/utils/html_parser.py:566-591 | the imperative `_address_variants` computes VariantsOf |
| AddressGeocoder.FirstFound | house/utils/html_parser.py:481-492 | coordinates come in pairs; a found pair is the answer for the first variant the service locates, failures and empty answers skipped; no pair means no variant was located |
| AddressGeocoder.QueryVariants | house/utils/html_parser.py:481-492 | the query loop computes FirstFound |
| AddressGeocoder.GeocodeUncachedStep | house/utils/html_parser.py:475-492 | without a geolocator the answer is (None, None); otherwise it is the first located variant |
| AddressGeocoder.Without | house/utils/html_parser.py:471 | removing a key from the recency order drops exactly that key and keeps the order duplicate-free |
| AddressGeocoder.TouchedKeeps | house/utils/html_parser.py:471 | a cache hit keeps the cache invariant and makes the key most recent |
| AddressGeocoder.InsertedKeeps | house/utils/html_parser.py:471 | a miss keeps the invariant, stores the key as most recent, changes no other entry, and evicts only the least recently used key when 256 are held |
| AddressGeocoder.GeocodeCache.constructor | house/utils/html_parser.py:471 | the cache starts empty |
| AddressGeocoder.GeocodeCache.Lookup | house/utils/html_parser.py:471-492 | a hit answers the stored pair, failures included, keeps every entry and moves the key to the most recent end of the order (Touched); a miss asks the service, stores the answer as most recent, and evicts only the least recently used key when 256 are held (Evicted, EvictedOrder); the recency order lists exactly the stored keys, once each |
| AddressGeocoder.GeocodeCache.GeocodeAddress | house/utils/html_parser.py:463-468 | an empty address answers (None, None) and leaves entries and order as they were; otherwise the answer is the cached pair or the service's, and the cache moves exactly as Lookup says: a hit only reorders, a miss stores the pair as most recent after the least recently used key is evicted from a full cache |
| ListingParser.ParsedOf | house/utils/html_parser.py:186-232 | each field comes from its extractor; the types come from classifying the title; rooms are at least 1 and the area is not negative; the coordinates are those `_extract_coordinates` finds as written, so never a script's, with each missing or zero half filled from the geocoder only when geocoding is asked for, an address exists and a half is missing (see also house/utils/html_parser.py:87-104) |
| ListingParser.FoundCoordinatesKept | house/utils/html_parser.py:212-217 | coordinates found in the document are never replaced |
| ListingParser.MissingCoordinatesGeocoded | house/utils/html_parser.py:212-217 | a document without coordinates, but with an address, takes the geocoder's pair when geocoding is on |
| ListingParser.CoordinatesPaired | house/utils/html_parser.py:212-217 | latitude and longitude are both present or both absent whenever the geocoder answers in pairs |
| ListingParser.GeocoderIgnoredUnlessAsked | house/utils/html_parser.py:214 | without the flag or an address, the geocoder's answer makes no difference to the record |
| ListingParser.ParsePropertyHtml | house/utils/html_parser.py:186-232 | the imperative parse builds ParsedOf, with the script step as written, from the memoised geocoder's answer, and leaves the cache untouched when no geocoding is needed |
| ListingParser.Locate | house/utils/html_parser.py:212-217 | the coordinate step answers the document's pair completed from the memoised geocoder's answer exactly as Located says, and leaves the cache untouched when no geocoding is needed |
| AdminFields.GetDecimal | house/api/views.py:38-45 | a blank value gives nothing and no error; a value `Decimal` rejects records "Повинно бути числове значення." under the field and nothing else; a parsed value leaves the errors alone |
| AdminFields.GetInt | house/api/views.py:48-55 | the same three outcomes for `int()`, with the message "Повинно бути ціле число." |
| AdminFields.GetBool | house/api/views.py:58-71 | a boolean is itself; blanks, lists and objects read as nothing; numbers read as non-zero; a string reads true or false by its stripped, lower-cased word, else nothing |
| AdminFields.BoolWordsDisjoint | house/api/views.py:67-70 | no word reads as both true and false |
| AdminFields.ReadFlag | house/api/views.py:262-274 | an absent or blank flag is left alone; a readable one is set; an unreadable one is left alone and records "Повинно бути булеве значення." |
| AdminFields.ReadCoordinate | house/api/views.py:247-261 | an absent coordinate is left alone; null clears it; a number sets it; anything else is left alone and records the number message |
| AdminFields.ReadText | house/api/views.py:228-233 | an absent text is kept; a present string is stored stripped; a present non-string makes `.strip()` raise |
| AdminFields.ReadNumbers | house/api/views.py:235-245 | only price, area and rooms change, each to its parsed value or left alone; each rejected value records its message; no other key of the error map changes |
| AdminFields.ReadDecimal | house/api/views.py:235-237 | the price becomes the parsed decimal or stays, and the error map gains the number message exactly when the value is rejected |
| AdminFields.ReadInt | house/api/views.py:239-245 | the same for area and rooms, with the integer message |
| AdminFields.ReadCoordinates | house/api/views.py:247-261 | only the two coordinates change, each as ReadCoordinate says; only rejected values change the error map |
| AdminFields.ReadFlags | house/api/views.py:262-274 | only the two flags change, each as ReadFlag says; only rejected values change the error map |
| AdminFields.UpdateFields | house/api/views.py:227-274 | raises exactly when a present text field is not a string; otherwise texts, numbers, coordinates and flags are applied, each rejected value records its message, no other key changes, and the features, slug and types are kept |
| AdminFields.UpdateFieldsOfStrings | house/api/views.py:228-233 | string texts never raise |
| AdminFields.UpdateFieldsAccepts | house/api/views.py:227-274 | a payload with no rejected value leaves the error map unchanged |
| AdminFields.UpdateFieldsNumbers | house/api/views.py:235-245 | numbers given as numbers are stored as given |
| AdminFields.UpdateFieldsTexts | house/api/views.py:228-233 | texts given as strings are stored stripped |
| AdminFields.UpdateFieldsCoordinates | house/api/views.py:247-261 | coordinates given as numbers or null are stored as given |
| AdminFields.ApplyFeatures | house/api/views.py:216-224 | the update fails exactly when the list cannot be read; an absent list changes nothing; only the features and the "feature_ids" error can change; new features all exist; an unknown id records an error and leaves the listing as it was |
| AdminFields.ApplyId | house/api/views.py:204-214 | an absent id leaves the key alone; a known id sets it; an unknown id leaves it and records the message under its own key |
| AdminFields.ApplyRelation | house/api/views.py:199-224 | the update fails exactly when an id or the feature list cannot be read; only the two foreign keys and the features change, and the features only when asked to |
| AdminFields.ApplyRelationIds | house/api/views.py:204-214 | the foreign keys are set as ApplyId says, and each unknown id's message is in the final error map |
| AdminImport.FindNamed | house/api/views.py:181-193 | the answer is the first row whose name equals the given one up to case; no answer means no row matches |
| AdminImport.FindNamedAppend | house/api/views.py:181-184 | a row added under a name is found by the next lookup of that name, and any match found before stays the match |
| AdminImport.FindNamedFirst | house/api/views.py:181 | the index of the first match is the lookup's answer |
| AdminImport.TypeNames | house/api/views.py:181 | the names of the type rows, in row order |
| AdminImport.DealNames | house/api/views.py:193 | the names of the deal rows, in row order |
| AdminImport.ResolveType | house/api/views.py:175-184 | a property type is resolved exactly when the stripped name is not blank |
| AdminImport.ResolveTypeIdempotent | house/api/views.py:175-184 | resolving keeps every existing row and adds at most one; resolving the same name again returns the same row and changes nothing |
| AdminImport.ResolveTypeMatches | house/api/views.py:175-184 | the resolved row is in the table and carries the stripped name up to case |
| AdminImport.ResolveTypeByName | house/api/views.py:175-184 | the store's type table and the answer follow ResolveType; a created row takes the next id; the other tables are untouched |
| AdminImport.ResolveDeal | house/api/views.py:187-196 | a deal type is resolved exactly when the stripped name is not blank |
| AdminImport.ResolveDealIdempotent | house/api/views.py:187-196 | resolving keeps every row and adds at most one; resolving again returns the same row and changes nothing |
| AdminImport.ResolveDealMatches | house/api/views.py:187-196 | the resolved row is in the table and carries the stripped name up to case |
| AdminImport.ResolveDealByName | house/api/views.py:187-196 | the store's deal table and the answer follow ResolveDeal; the other tables are untouched |
| AdminImport.RoundHalfEven | house/api/views.py:94 | Python's `round` gives the nearest integer, within a half, and picks the even one on a tie |
| AdminImport.Take | house/api/views.py:92 | `s[:n]` is a prefix of at most n characters, and the whole text when it is short enough |
| AdminImport.NameErrors | house/api/views.py:100-104 | exactly the missing title and the missing address are recorded, each with its own message, and nothing else |
| AdminImport.MissingNames | house/api/views.py:100-104 | there is no error exactly when both the title and the address are present |
| AdminImport.PayloadReadable | house/api/views.py:89-107 | no value of a parsed record's payload is rejected by the field readers |
| AdminImport.ValidatedErrors | house/api/views.py:100-110 | validation records only the missing title and address errors |
| AdminImport.ValidatedTexts | house/api/views.py:89-107 | the listing takes the stripped title and address, and a description of at most 4000 characters |
| AdminImport.ValidatedNumbers | house/api/views.py:93-107 | the listing takes the price, the rounded area and at least one room (a parsed 0 becomes 1) |
| AdminImport.ValidatedCoordinates | house/api/views.py:96-107 | the listing takes the parsed coordinates |
| AdminImport.ValidatedIsUpdate | house/api/views.py:106-107 | validation is `_update_fields` on a fresh listing, seeded with the name errors, and never raises |
| AdminImport.ResolveNames | house/api/views.py:112-113 | listings are untouched; a type and a deal are resolved exactly when their names are not blank |
| AdminImport.SaveParsed | house/api/views.py:112-123 | a new listing is saved under a fresh id, carrying the validated fields and the resolved types, and no existing listing changes |
| AdminImport.CreatePropertyFromParsed | house/api/views.py:87-127 | a record missing its title or address is rejected with exactly those errors and the store unchanged; otherwise a new listing with the validated fields is saved, no existing listing changes, and the warnings are those of transferring the main image and the gallery |
| AdminBatch.ChunkOf | house/api/views.py:666-678 | a list body is the chunk; for an object, the truthy "items" list or else the "properties" list; an undecodable or null body is invalid JSON; another scalar makes `payload.get` raise |
| AdminBatch.EmptyItemsFallsThrough | house/api/views.py:670-678 | an empty "items" list gives way to "properties", and without that key the request is refused |
| AdminBatch.Classify | house/api/views.py:683-697 | an item is "not an object" exactly when it is not a JSON object; an invalid item carries at least one error; a saved listing has no negative area or rooms and no slug yet |
| AdminBatch.ClassifyUpdated | house/api/views.py:688-697 | after `_update_fields`, an invalid item has errors and a saved one keeps the slug |
| AdminBatch.UnknownTypeReported | house/api/views.py:691-695 | an unknown property type id rejects the item, with the message under "property_type_id" (see also house/api/views.py:204-208) |
| AdminBatch.SavedAsGiven | house/api/views.py:688-697 | a saved item has the price, area and rooms it gave |
| AdminBatch.UnknownTypeRejected | house/api/views.py:688-695 | an item whose texts read but whose property type id is unknown is rejected with that message |
| AdminBatch.Verdicts | house/api/views.py:683-708 | each item of the chunk is judged on its own, in order |
| AdminBatch.ErrorsOfIndices | house/api/views.py:683-695 | every error entry names the 1-based position of an item that was not saved, and says "not an object" exactly for non-objects |
| AdminBatch.ErrorsOfIncreasing | house/api/views.py:683-695 | the positions of the error entries strictly increase |
| AdminBatch.ErrorsOfCount | house/api/views.py:683-708 | a batch that runs to the end accounts for every item, saved or listed |
| AdminBatch.StatusCreatedIff | house/api/views.py:710 | a completed batch answers 201 exactly when it is not empty and every item was saved, else 207 |
| AdminBatch.UnsavedListed | house/api/views.py:684-695 | an item neither saved nor crashing leaves an error entry |
| AdminBatch.AllSavedNoErrors | house/api/views.py:683-708 | when every item is saved, there are no error entries |
| AdminBatch.SaveItem | house/api/views.py:697-706 | a valid item is saved under the next id, with its fields and the features applied afterwards; only the listing table grows, and the call raises exactly when the feature step does |
| AdminBatch.ImportVerdicts | house/api/views.py:683-711 | the loop finishes exactly when no item raises; it then lists the error entries and the created ids, consecutive after the last id, each holding its item's listing; existing rows never change |
| AdminBatch.PropertyImport | house/api/views.py:661-711 | the same of the judged chunk, with the type and deal tables as they stood before the batch |
| AdminBatch.FilesAccounted | house/api/views.py:730-760 | each file yields one error entry or one created listing |
| AdminBatch.FlattenEmpty | house/api/views.py:728-756 | the error list is empty exactly when no file has an entry |
| AdminBatch.HtmlStatusCreatedIff | house/api/views.py:762 | the HTML batch answers 201 exactly when there is at least one file and every file imports |
| AdminBatch.ParsePage | house/api/views.py:740-747 | the parsed record's title and address are the page's |
| AdminBatch.ImportPage | house/api/views.py:740-760 | a page without a title or an address is rejected with exactly those errors; otherwise a new listing is stored under a fresh id. Over the parsed record it returns, whose title and address are the page's, the stored row holds the record's validated fields, with type and deal set exactly when their names are not blank, and the warnings are those of transferring the record's main image and gallery. Existing rows never change |
| AdminBatch.ImportFile | house/api/views.py:730-760 | a file that is not UTF-8 gets the "cannot read" entry, a rejected page its errors; a file without an entry creates one new listing whose stored title is reported |
| AdminBatch.ImportFiles | house/api/views.py:730-760 | the error list is the files' entries in order, one created listing per file without an entry, each new, with its stored title, in increasing id order |
| AdminBatch.ImportNext | house/api/views.py:730-760 | one turn of the file loop extends the error list and the created list by that file's outcome and keeps every existing row |
| AdminBatch.PropertyImportHtml | house/api/views.py:716-763 | no files means refusal, with nothing stored and no rates fetched; otherwise the rates are fetched once and each file's outcome is recorded as ImportFiles says |
| AdminBatch.LinkUrl | house/api/views.py:777 | a missing or falsy url reads as ""; a string url is stripped; a truthy non-string makes `.strip()` raise |
| AdminBatch.PropertyImportLink | house/api/views.py:768-817 | a null body is invalid JSON; a non-object body or an unreadable url raises; an empty url is refused; a failed download gives its reason; a page without a title or an address is rejected with those errors; otherwise a new listing is created; an outcome that is neither created nor rejected stores nothing |
| AdminBatch.ImportLinkedPage | house/api/views.py:791-810 | after the download, a page without a title or an address is rejected with exactly those errors; otherwise a new listing is created and its stored title is reported |
| AdminRequests.Ordering | house/api/views.py:382-393 | the ordering is always one of the six allowed values: the requested one when allowed, else "-created_at" |
| AdminRequests.OrderingIdempotent | house/api/views.py:382-393 | normalising an ordering twice gives the same result as once |
| AdminRequests.PageNumber | house/api/views.py:395-398 | the page number is the parsed integer, else 1 |
| AdminRequests.PageSize | house/api/views.py:399-406 | the page size is always between 1 and 100 |
| AdminRequests.PageSizeReads | house/api/views.py:399-406 | a readable size is used as given when in range, else clamped to the nearer end |
| AdminRequests.BlankPageSizeIgnoresPerPage | house/api/views.py:399-405 | a blank `page_size` gives 10 without consulting `per_page`; `per_page` counts only when `page_size` is absent |
| AdminRequests.NumPages | house/api/views.py:408 | there is at least one page, and just enough pages of the given size to hold the results |
| AdminRequests.ServedPage | house/api/views.py:409-412 | the page served exists: the requested one when in range, else the last page |
| AdminRequests.ServedPageNonEmpty | house/api/views.py:409-412 | a non-empty result list never gets an empty page |
| AdminRequests.StatusFilter | house/api/views.py:283-302 | a non-blank `is_archived` decides by `_get_bool` (true, false, else all); otherwise the trimmed, lower-cased `status` gives archived or all, and anything else gives active |
| AdminRequests.ExplicitArchivedWins | house/api/views.py:285-294 | a non-blank `is_archived` makes `status` irrelevant |
| AdminRequests.ActiveByDefault | house/api/views.py:284-302 | with neither parameter set, only active listings are listed |
| AdminRequests.Hit | house/api/views.py:639-646 | a call is throttled exactly when the counter has reached the limit, and then nothing changes; otherwise the counter goes up by one (from 0 when missing); other counters are untouched |
| AdminRequests.Calls | house/api/views.py:633-646 | n calls on one key give n answers |
| AdminRequests.CallsThrottleAtLimit | house/api/views.py:639-646 | from a count at or below the limit, the i-th call is throttled exactly when count + i reaches the limit |
| AdminRequests.SecondCallThrottled | house/api/views.py:633-646 | with limit 1, the first call passes and the second is throttled |
| AdminRequests.ImportKeysSeparateUsers | house/api/views.py:637-638 | two different users never share a throttle counter, whatever their addresses |
| AdminRequests.ImportThrottle.constructor | house/api/views.py:635 | the throttle starts with no counters and the given limit |
| AdminRequests.ImportThrottle.RateLimited | house/api/views.py:633-646 | the imperative check updates the counters as Hit says |
| AdminRequests.ImportThrottle.EnsureStaff | house/api/views.py:649-656 | non-staff get 403 and are not counted; staff are counted under their key and get 429 when throttled |
| AdminRequests.QueryIds | house/api/views.py:856 | an id filter raises exactly when an item cannot be read as an integer; every readable item's id is in the filter (see also house/api/views.py:948) |
| AdminRequests.Selected | house/api/views.py:856-857 | the selected rows are exactly the stored listings whose ids the filter holds |
| AdminRequests.ActionOf | house/api/views.py:843-854 | a falsy action reads as none; a truthy non-string raises; a recognised action is "archive", "restore" or "delete" after trimming and lower-casing |
| AdminRequests.BulkPlan | house/api/views.py:835-873 | a null body is invalid JSON; a processed action has readable ids, a recognised action, and counts the stored listings selected, at least one |
| AdminRequests.NoIdsRefused | house/api/views.py:842-848 | an empty or missing ids list is refused before the action is looked at |
| AdminRequests.UnknownIdsNotFound | house/api/views.py:856-862 | a supported action on ids that name no stored listing answers 404 |
| AdminRequests.BulkAction | house/api/views.py:835-873 | the answer follows BulkPlan; a refused request changes nothing; archive and restore set the flag on exactly the selected listings; delete removes them with their images; the type and deal tables never change |
| AdminRequests.DictKey | house/api/views.py:949-951 | an order item that finds a key reads as that integer |
| AdminRequests.LastPosition | house/api/views.py:950-953 | an image's new position is the last position that lists it, and no later position does |
| AdminRequests.Reordered | house/api/views.py:948-954 | each image is reordered on its own |
| AdminRequests.ReorderedOnlySortOrder | house/api/views.py:948-954 | only sort positions change, and only for the listing's images |
| AdminRequests.ReorderedFollowsOrder | house/api/views.py:950-954 | with distinct integer ids, the image with the i-th id moves to position i + 1 and unlisted images keep theirs |
| AdminRequests.ReorderedSnoc | house/api/views.py:950-954 | one more order item changes exactly the image it looks up |
| AdminRequests.ReorderPlan | house/api/views.py:940-947 | an unknown listing gives 404; a completed reorder had an object body whose order is a readable id list |
| AdminRequests.FindImage | house/api/views.py:948-951 | the image found belongs to the listing and has the id; none found means the listing has no such image |
| AdminRequests.ReorderHit | house/api/views.py:951-954 | an order item that finds one of the listing's images moves that image alone |
| AdminRequests.ReorderMiss | house/api/views.py:951-952 | an order item that finds no image changes nothing |
| AdminRequests.ApplyItem | house/api/views.py:951-954 | one order item: the images become Reordered over one more item, and the store stays valid with nothing else changed |
| AdminRequests.ApplyOrder | house/api/views.py:950-954 | the loop leaves the images as Reordered says, and nothing else changes |
| AdminRequests.ImagesReorder | house/api/views.py:940-955 | the answer follows ReorderPlan; a completed reorder applies the order; otherwise no image changes |
| ImageTransfer.Pairs | house/api/views.py:131-136 | the main image, when given, comes first and is the only pair that wants to be main; the gallery follows in order |
| ImageTransfer.RunKeepsMains | house/api/views.py:139-170 | the loop keeps the main-flag bookkeeping: nothing is flagged main before `has_main` is set, at most one upload is flagged, and none when the listing already had a main image |
| ImageTransfer.AtMostOneMain | house/api/views.py:161-165 | an import flags at most one image as main, and none when the listing already had one (see also house/api/views.py:139) |
| ImageTransfer.DedupOutcomes | house/api/views.py:141-145 | with de-duplication the tried set grows by exactly the input's non-empty URLs, and every try ends in one warning or one upload |
| ImageTransfer.ApiTriesEachUrlOnce | house/api/views.py:138-148 | the admin API loop has one outcome per distinct non-empty URL and never uploads the same URL twice |
| ImageTransfer.ServiceOutcomes | house/services/importer.py:72-99 | the service loop has one outcome per pair with a non-empty URL, repeats included |
| ImageTransfer.ServiceRepeatsUrls | house/services/importer.py:72-75 | a gallery holding the same fetchable URL twice uploads it twice through the service and once through the admin API |
| ImageTransfer.WarningsName | house/api/views.py:146-167 | warnings are only added, and each new warning is a failed input URL followed by ": " and its reason |
| ImageTransfer.StepKeepsMains | house/api/views.py:161-165 | one loop step keeps the main-flag bookkeeping: `has_main` turns on exactly when an upload is flagged main, and is never off after one |
| ImageTransfer.ClearMainNoMain | house/models.py:253-257 | clearing the other main images of a listing that has none changes nothing |
| ImageTransfer.UpsertFresh | house/models.py:252-264 | saving a row under an id no stored row has appends it |
| ImageTransfer.MaxSortOrderSnoc | house/models.py:258-264 | after a row is placed at or above the listing's highest sort position, that row's position is the highest |
| ImageTransfer.SavedUpload | house/models.py:252-264 | saving a fresh row with sort position 0 appends it one above the listing's highest position, and leaves the other rows alone when it is not a main image or the listing has no main image yet |
| ImageTransfer.SaveUpload | house/api/views.py:160-163 | `images.create` of one fetched URL: the image table gains exactly the next uploaded row, under the next id and one above the highest sort position; nothing else changes |
| ImageTransfer.TransferOne | house/api/views.py:141-167 | one iteration of the loop does what the loop's specification step says, and the image table stays the table before the loop followed by the rows uploaded so far |
| ImageTransfer.NewMainsAtMostOne | house/api/views.py:139-165 | of the rows an import adds, none is main when the listing had a main image, and at most one otherwise |
| ImageTransfer.ImportImages | house/api/views.py:128-172 | the loop returns the warnings the specification gives; the image table is the old one followed by one row per upload, numbered from the id counter, placed above the listing's highest sort position and flagged as the loop decided; no added row is main when the listing had a main image and at most one is otherwise; listings, types and deals are untouched |
| ServiceImporter.NetlocEnd | house/services/importer.py:23-24 | the host part of `urlsplit` ends at the first '/', '?' or '#', or at the end of the text |
| ServiceImporter.NoColonInvalid | house/services/importer.py:21-26 | text without a ':' has no scheme and is never a valid import URL |
| ServiceImporter.CleanedPlain | house/services/importer.py:23 | a URL with no leading control characters and no tab or newline is parsed as written |
| ServiceImporter.SchemeSplit | house/services/importer.py:23-24 | a scheme made of scheme characters and starting with a letter is split off at "://" and lower-cased |
| ServiceImporter.NetlocHost | house/services/importer.py:24 | after "//", the host is the text up to the next delimiter |
| ServiceImporter.HttpUrlValid | house/services/importer.py:21-26 | an http or https scheme in any case, followed by "://", a non-empty host and a path, query or fragment, is valid |
| ServiceImporter.ValidOfParts | house/services/importer.py:21-26 | a URL whose scheme is http or https and whose host is non-empty is valid |
| ServiceImporter.ListingUrlValid | house/services/importer.py:21-26 | "https://example.com/listing" is a valid import URL |
| ServiceImporter.ImporterSlug | house/services/importer.py:29-36 | the generated type slug is non-empty and no type row has it |
| ServiceImporter.GenerateUniqueSlug | house/services/importer.py:29-36 | the loop returns the first free candidate |
| ServiceImporter.SecondCandidate | house/services/importer.py:32-35 | when the first candidate is taken and `base-1` is free, the slug is `base-1` |
| ServiceImporter.EmptyBaseSlugs | house/services/importer.py:30-35 | a name that slugifies to nothing gets "property-type", and once that is taken "-1", because the suffixes are added to the empty base |
| ServiceImporter.ExactMatches | house/services/importer.py:42-52 | the rows matched are exactly those whose name equals the name, in table order |
| ServiceImporter.ExactMatchesAdded | house/services/importer.py:42-52 | after a row with a new name is added, that row is its only match |
| ServiceImporter.CreatedType | house/services/importer.py:42-45 | a created type row is appended with the next id and the name, and gets a non-empty slug; earlier rows are untouched |
| ServiceImporter.ReusedType | house/services/importer.py:43-45 | a found row keeps its id and name and ends with a non-empty slug; it changes only when its slug was blank; other rows are untouched |
| ServiceImporter.ServiceType | house/services/importer.py:39-46 | a blank name resolves to nothing; an ambiguous name changes nothing; otherwise the table keeps its size or gains exactly the created row with the next id |
| ServiceImporter.LastIdAfterTypeGrowth | house/services/importer.py:42 | the id counter advances by the number of rows the type lookup added |
| ServiceImporter.ServiceTypeExact | house/services/importer.py:42-45 | a name no row has creates a row with the next id |
| ServiceImporter.NewTypeSlugSuffixed | house/services/importer.py:42-45 | a created row whose slug and `slug-1` were both free ends with `slug-1`, because the save's slug counts as taken when regenerating |
| ServiceImporter.ServiceTypeIdempotent | house/services/importer.py:39-46 | resolving the same name again returns the same row and changes nothing |
| ServiceImporter.ServiceDeal | house/services/importer.py:49-53 | a blank name resolves to nothing; otherwise the deal table is unchanged or gains exactly one row with the name and the next id |
| ServiceImporter.ServiceDealIdempotent | house/services/importer.py:49-53 | resolving the same deal name again returns the same row and changes nothing |
| ServiceImporter.ReuseTypeRow | house/services/importer.py:43-45 | the imperative reuse writes the table that ReusedType gives, and nothing else |
| ServiceImporter.CreateTypeRow | house/services/importer.py:42-45 | the imperative creation writes the table that CreatedType gives and takes the next id |
| ServiceImporter.ResolveServiceType | house/services/importer.py:39-46 | the imperative lookup follows ServiceType; the counter advances by the rows added |
| ServiceImporter.ResolveServiceDeal | house/services/importer.py:49-53 | the imperative lookup follows ServiceDeal; the counter advances by the rows added |
| ServiceImporter.SafeInt | house/services/importer.py:56-60 | `_safe_int` is `int(value)` where Python converts, the default elsewhere |
| ServiceImporter.SafeIntFallbacks | house/services/importer.py:56-60 | null, blank text and lists give the default; a written-out number converts; floats truncate toward zero |
| ServiceImporter.ServiceListing | house/services/importer.py:116-127 | the listing carries the parsed title, address, description, price, rooms and coordinates, the area truncated down, and the resolved type and deal; unarchived, not featured, no slug yet |
| ServiceImporter.SecondSaveGeocodesAgain | house/services/importer.py:128-129 | the second save consults the geocoder exactly when the row the first save wrote still lacks a coordinate and has a non-empty address (the rule of house/models.py:139-148); its answer, if any, then replaces both coordinates, and otherwise the first save's row is kept |
| ServiceImporter.SaveTwice | house/services/importer.py:128-129 | the two saves store one new row under the next id: the first save's row, geocoded by the second save's geocoder answer only when a coordinate is still missing and the address is non-empty; nothing else changes |
| ServiceImporter.ResolveBoth | house/services/importer.py:113-114 | the type is resolved first; the deal lookup follows ServiceDeal unless the type lookup raised |
| ServiceImporter.SavedCarries | house/services/importer.py:116-128 | the saved row keeps the parsed fields the save does not touch |
| ServiceImporter.SaveWithImages | house/services/importer.py:128-133 | the listing is stored under a fresh id, and the warnings are those of the service image loop |
| ServiceImporter.ImportParsed | house/services/importer.py:112-133 | an ambiguous name leaves the listings and images as they were; otherwise exactly one listing is added, built from the parsed record, with the resolved ids and the image-loop warnings |
| ServiceImporter.ImportPropertyFromUrl | house/services/importer.py:104-133 | an empty or invalid URL is refused, and a failed download is reported with its reason; both change nothing; an import adds exactly one listing carrying the parsed page's fields |
| ServiceImporter.NoImagesNoWarnings | house/services/importer.py:131 | a page with no images imports with no warnings |
| ServiceImporter.FreshTablesGainOneEach | house/services/importer.py:113-114 | empty tables gain exactly one type row and one deal row, each under the next value of the id counter |
| ExchangeRates.AbsorbAllValues | house/utils/currency.py:38-46 | the payload loop keeps the hryvnia, adds no code but USD and EUR, and each of those ends with the last sale value `float()` accepts, or its earlier value when there is none |
| ExchangeRates.RatesFromResponse | house/utils/currency.py:17-47 | rates are returned only with the hryvnia at 1, at least one other rate, and no code but UAH, USD and EUR |
| ExchangeRates.PayloadYieldsRates | house/utils/currency.py:38-47 | a payload yields rates exactly when it holds a valid USD or EUR sale value, and the dollar rate is then the last valid one |
| ExchangeRates.ParsePayload | house/utils/currency.py:38-46 | the imperative loop computes the rates AbsorbAll gives |
| ExchangeRates.ProvideWellFormed | house/utils/currency.py:50-70 | every answer maps the hryvnia to 1 and has another rate, and the cache keeps that property |
| ExchangeRates.CachedAnswerSkipsFetch | house/utils/currency.py:56-59 | with a cached entry and no forced refresh, the answer is the cache whatever the bank would say |
| ExchangeRates.FailureWithoutCacheGivesDefaults | house/utils/currency.py:61-70 | a failed fetch with nothing cached answers the default rates and stores nothing |
| ExchangeRates.RateCache.constructor | house/utils/currency.py:12 | the cache starts empty |
| ExchangeRates.RateCache.GetExchangeRates | house/utils/currency.py:50-70 | the imperative provider answers, and leaves the cache, as Provide says; its answer is well formed |
| ExchangeRates.Provide | house/utils/currency.py:50-70 | the cache entry is either left alone or holds the answer, and the answer is the cached, the freshly fetched or the default rates |
| Models.TypeOf | house/models.py:67-69 | a type found belongs to the table and has the id; a stored id is always found |
| Models.DealOf | house/models.py:70-72 | a deal found belongs to the table and has the id; a stored id is always found |
| Models.TypeSlugOnSave | house/models.py:20-31 | a set slug is kept; a blank one becomes a slug no other type row has |
| Models.Restore | house/models.py:131-135 | a coordinate missing on an update with an unchanged address is taken from the stored row; nothing else changes |
| Models.SavedListing | house/models.py:109-177 | a set slug is kept and a blank one becomes a slug no other listing has; only the coordinates and the slug can differ from the listing given |
| Models.NoAddressNoGeocoding | house/models.py:142 | a listing without an address is never geocoded |
| Models.CreateGeocodesWhenMissing | house/models.py:139-144 | a new listing is geocoded exactly when it has an address and lacks a coordinate |
| Models.ChangedAddressGeocoded | house/models.py:126-148 | an update that changes a non-empty address is geocoded |
| Models.KeptAddressRestored | house/models.py:131-148 | an update keeping the address of a row with both coordinates is not geocoded and ends with both coordinates, the given ones first |
| Models.WithArchived | house/api/views.py:864-867 | a bulk archive or restore sets the flag on the listings named and changes nothing else |
| Models.ArchiveRestoreRoundTrip | house/api/views.py:864-867 | archiving active listings and then restoring them gives back the table |
| Models.WithoutListings | house/api/views.py:868-869 | a bulk delete removes exactly the listings named |
| Models.ClearMain | house/models.py:253-257 | clearing a listing's main flag unflags exactly that listing's images |
| Models.MaxSortOrder | house/models.py:259-263 | the result is the largest sort position among the listing's images, 0 when it has none |
| Models.Upsert | house/models.py:278 | the saved row is in the table, every other row was there before, and no row with another id is lost |
| Models.PlacedImage | house/models.py:258-264 | a zero sort position becomes one past every position of the listing's images; a set one is kept |
| Models.UpsertKeepsDistinct | house/models.py:278 | saving a row keeps the image ids distinct |
| Models.ClearMainProperties | house/models.py:253-257 | clearing keeps the one-main-per-listing and distinct-id invariants and leaves the listing with no main image |
| Models.UpsertOneMain | house/models.py:252-278 | saving a row keeps both invariants when a main row's listing has no other main image |
| Models.SavedImagesOneMain | house/models.py:252-278 | `PropertyImage.save` keeps at most one main image per listing and distinct ids; a saved main image is then its listing's only main image |
| Models.SaveExistingImage | house/models.py:252-278 | re-saving a stored image with a set sort position rewrites that one row in place |
| Models.ImagesWithout | house/models.py:241-243 | deleting listings removes exactly their images (`on_delete=CASCADE`) |
| Models.ImagesWithoutValid | house/models.py:241-243 | the cascade keeps the image table's invariants |
| Models.FirstInOrder | house/models.py:249-250 | `.first()` picks a row that no other row precedes under ordering by sort position, then highest id |
| Models.ImagesOfListing | house/models.py:241-243 | exactly the images of the listing |
| Models.MainsOfListing | house/models.py:186 | exactly the main images of the listing |
| Models.MainImagePrefersMain | house/models.py:184-186 | a listing with a main image shows one of its main images; one without shows its first image; one without images shows none |
| Models.Store.constructor | house/models.py:16-297 | the database starts with empty tables |
| Models.Store.CreateType | house/models.py:20-31 | a new type row gets the next id and the slug its save gives |
| Models.Store.SaveTypeSlug | house/services/importer.py:44-45 | only the slug of that type row changes |
| Models.Store.CreateDeal | house/models.py:37-38 | a new deal row gets the next id |
| Models.Store.SaveListing | house/models.py:109-177 | the row written is SavedListing's, a new one under the next id |
| Models.Store.ListingRow | house/models.py:109-177 | the imperative save computes SavedListing |
| Models.Store.SetFeatures | house/models.py:73 | only that listing's feature set changes |
| Models.Store.SetArchived | house/api/views.py:864-867 | the listings become WithArchived's and nothing else changes |
| Models.Store.DeleteListings | house/api/views.py:868-869 | the listings and their images are removed as WithoutListings and ImagesWithout say |
| Models.Store.ClearMainImages | house/models.py:253-257 | the loop leaves the images ClearMain gives |
| Models.Store.LargestSortOrder | house/models.py:259-263 | the loop computes MaxSortOrder |
| Models.Store.SaveImage | house/models.py:252-278 | the image table becomes SavedImages', with the next id for a new row, and the invariants hold |
| Models.MainImage | house/models.py:184-186 | the image shown belongs to the listing and is one of the stored images |
| Models.Store.PlaceImage | house/models.py:252-264 | the first half of the save: the listing's other main images are unflagged exactly when the row is main, and the row gets the listing's next sort position when it has none; nothing else changes |
| SearchService.Get | house/services/search.py:17 | `QueryDict.get` finds the last value of a parameter given at least once |
| SearchService.ExactRoomsMembers | house/services/search.py:66-70 | a count is among the exact rooms exactly when some digit-only token writes it |
| SearchService.LegacyRooms | house/services/search.py:64-70 | the token loop collects the digit-only tokens' counts in order, and sets the "5+" flag exactly when a token is "5+" |
| SearchService.MinBoundWins | house/services/search.py:43-49 | a readable `rooms_min` makes the legacy `rooms` list irrelevant, and every kept listing has at least that many rooms |
| SearchService.MaxBoundWins | house/services/search.py:43-56 | a readable `rooms_max`, with `rooms_min` absent or readable, decides the rooms condition: the lower bound, and an upper bound only below 6 |
| SearchService.ExactRoomsEmpty | house/services/search.py:64-73 | there are no exact rooms exactly when no token is digit-only |
| SearchService.TokensUnion | house/services/search.py:71-76 | the legacy condition keeps a count that some token writes, or any count from 5 with "5+"; with neither kind of token it keeps everything |
| SearchService.LegacyUnion | house/services/search.py:58-76 | with no readable bound the legacy list decides, as that union over its trimmed non-empty tokens |
| SearchService.BadMinIgnoresMax | house/services/search.py:46-58 | an unreadable `rooms_min` raises before anything is filtered, so the legacy list applies even when `rooms_max` is a number |
| SearchService.SortFallback | house/services/search.py:78-80 | a known sort option gives its own field, otherwise the default option's field, otherwise newest first; always one of the five fields (see also house/services/search.py:5-11) |
| SearchService.BuildPlan | house/services/search.py:14-80 | the search raises exactly when an area or price bound cannot be read as that column's number; otherwise it orders by SortField |
| SearchService.Kept | house/services/search.py:19-76 | exactly the rows that pass every filter are kept |
| SearchService.SearchResultMembers | house/services/search.py:14-80 | a search returns exactly the stored rows that pass every filter |
| SearchService.NoParamsKeepAll | house/services/search.py:14-80 | an empty query string keeps every row |
| SearchService.FilterKeysOf | house/services/search.py:17-59 | each parameter is read by one filter only, the three rooms parameters by the rooms filter, and `sort` by none |
| SearchService.PlanFields | house/services/search.py:17-79 | the plan holds each filter's value as read from its own parameters |
| SearchService.RestrictedPlan | house/services/search.py:17-79 | one filter's parameters alone give the plan with every other filter off |
| SearchService.FiltersCompose | house/services/search.py:14-76 | the filters compose by conjunction: a row passes the search exactly when each filter, made from its own parameters alone, keeps it |
| SearchService.KeepsAllParts | house/services/search.py:19-76 | a plan keeps a row exactly when each of its eight filters does |
| SearchService.HalfUp | house/services/search.py:96-106 | `quantize(Decimal("1"), ROUND_HALF_UP)` is the nearest whole number, halves away from zero |
| SearchService.HalfUpMonotone | house/services/search.py:96-106 | half-up rounding never reverses the order of two amounts |
| SearchService.RateOr | house/services/search.py:84-86 | a missing or zero rate takes its fallback, so no rate used is zero |
| SearchService.ConversionRules | house/services/search.py:84-116 | each displayed price is within half a unit of the exact converted amount; a missing price shows as 0 in every currency |
| SearchService.ConversionMonotone | house/services/search.py:90-110 | with positive rates, a dearer listing never shows a smaller price in any currency |
| SearchService.SymbolOf | house/services/search.py:119-121 | the symbol is that of an option with the selected code |
| SearchService.CodeIndex | house/services/search.py:129 | the position of the first option with the code |
| SearchService.OtherValuesMembers | house/services/search.py:123-131 | the other values never name the selected code and list every other option with its symbol and its converted value |
| SearchService.OtherValuesOrder | house/services/search.py:129 | the other values follow the order of the options |
| SearchService.ShownProperty.constructor | house/services/search.py:89-94 | a listing object carries its price |
| SearchService.ApplyCurrencyDisplay | house/services/search.py:83-133 | every listing's display fields hold its three conversions, the selected code, symbol and price, and the other values; the dollar and euro rates used are returned |
| SearchService.SearchResult | house/services/search.py:14-80 | a search result, being the kept rows reordered, is never longer than the stored rows |
| SearchView.PageSize | landing_doominium_real_state/views/search.py:70-82 | the page size is always 9, 12, 18 or 24: `per_page` when it reads as one of those, else 9 |
| SearchView.SelectedCurrency | landing_doominium_real_state/views/search.py:84-89 | the currency code is always USD, EUR or UAH: the upper-cased parameter when it names one, else USD |
| SearchView.CurrencyOptionsUsable | landing_doominium_real_state/views/search.py:51-55 | the three options have distinct currency codes and include every code the view can select |
| SearchView.SearchFiltersView.constructor | landing_doominium_real_state/views/search.py:50-60 | a view starts paginating by 9 with no page size or currency chosen yet |
| SearchView.SearchFiltersView.GetPaginateBy | landing_doominium_real_state/views/search.py:70-82 | the page size chosen is PageSize's, stored as both `paginate_by` and the selected size |
| SearchView.SearchFiltersView.GetSelectedCurrency | landing_doominium_real_state/views/search.py:84-89 | the currency chosen is SelectedCurrency's and is stored on the view |
| SearchView.Unarchived | landing_doominium_real_state/views/search.py:93 | exactly the rows that are not archived remain |
| SearchView.ArchivedNeverShown | landing_doominium_real_state/views/search.py:91-94 | whatever the query string, the list shows exactly the unarchived stored rows that pass every filter |
| SearchView.ViewDefaultOrder | landing_doominium_real_state/views/search.py:94 | a missing or unknown sort option lists newest first |
| SearchView.Smallest | landing_doominium_real_state/views/search.py:162 | `min` is a member no other count is below |
| SearchView.Largest | landing_doominium_real_state/views/search.py:164 | `max` is a member no other count is above |
| SearchView.DeriveRoomsSlider | landing_doominium_real_state/views/search.py:146-169 | the loop gives the slider positions RoomsSlider says: the given bounds, or when both are empty the smallest count and the largest count, or 6 with "5+" |
| SearchView.SliderEchoesBounds | landing_doominium_real_state/views/search.py:146-148 | a given `rooms_min` or `rooms_max` is shown unchanged |
| SearchView.LegacySliderCovers | landing_doominium_real_state/views/search.py:146-169 | read back as `rooms_min` and `rooms_max`, the slider keeps every count the legacy list selects, when exact counts next to "5+" are at most 5 |
| SearchView.SliderBounds | house/services/search.py:43-54 | slider positions that read as numbers give back the range between them |
| SearchView.MetaDescription | landing_doominium_real_state/views/search.py:171-182 | the meta description is a prefix of summary plus tagline, at most 160 characters |
| SearchView.MetaDescriptionWhole | landing_doominium_real_state/views/search.py:171-182 | nothing is cut unless the result count has more than 38 digits |
| SearchUi.ReplaceByAppend | static/base/assets/js/search/ui.js:18-22 | a global replace distributes over concatenation |
| SearchUi.ReplaceByOmits | static/base/assets/js/search/ui.js:18-22 | after a global replace by text without the character, the character is gone |
| SearchUi.EscapeAppend | static/base/assets/js/search/ui.js:16-22 | the five replaces distribute over concatenation |
| SearchUi.EscapeOne | static/base/assets/js/search/ui.js:16-22 | the five replaces turn one character into its entity, or leave it alone; an entity put in by an earlier replace is never touched by a later one |
| SearchUi.EscapeIsEscaped | static/base/assets/js/search/ui.js:16-22 | the chain of replaces escapes each character on its own |
| SearchUi.UnescapeChar | static/base/assets/js/search/ui.js:18-22 | each escaped character reads back as itself |
| SearchUi.UnescapeEscaped | static/base/assets/js/search/ui.js:16-22 | reading the entities back gives the original text |
| SearchUi.EscapeHtmlRoundTrip | static/base/assets/js/search/ui.js:16-22 | `escapeHtml` loses nothing: decoding its output gives the text, or "" for a falsy value |
| SearchUi.EscapeHtmlSafe | static/base/assets/js/search/ui.js:16-22 | the output holds no '<', '>', '"' or '\'' |
| SearchUi.LtGone | static/base/assets/js/search/ui.js:19-22 | no '<' survives the replaces from the second on |
| SearchUi.GtGone | static/base/assets/js/search/ui.js:20-22 | no '>' survives the replaces from the third on |
| SearchUi.QuotGone | static/base/assets/js/search/ui.js:21-22 | no '"' survives the last two replaces |
| SearchUi.EscapeHtmlEmpty | static/base/assets/js/search/ui.js:17 | a missing or empty value escapes to "" |
| SearchUi.FormatPrice | static/base/assets/js/search/ui.js:24-27 | a missing price reads "Ціна за запитом"; a price goes to the formatter |
| SearchUi.DealKey | static/base/assets/js/search/ui.js:138-139 | the deal key holds no whitespace |
| SearchUi.PriceHeading | static/base/assets/js/search/ui.js:137-139 | the heading is the escaped price, followed by " /міс" exactly when the deal key is "оренда" (see also static/base/assets/js/search/ui.js:191) |
| SearchUi.DealKeyTrims | static/base/assets/js/search/ui.js:139 | whitespace around a deal name is dropped and the name is lower-cased |
| SearchUi.DealKeyOf | static/base/assets/js/search/ui.js:138-139 | a non-empty deal name keys as itself lower-cased without its whitespace |
| SearchUi.KeyAppend | static/base/assets/js/search/ui.js:139 | keying distributes over concatenation |
| SearchUi.RentSuffix | static/base/assets/js/search/ui.js:139-141 | " Оренда " keys as "оренда", so the card shows the monthly suffix (see also static/base/assets/js/search/ui.js:191) |
| SearchUi.NoDealNotRent | static/base/assets/js/search/ui.js:138-141 | a listing without a deal never shows the monthly suffix |
| SearchUi.Without | static/base/assets/js/search/ui.js:223-224 | deleting "page" keeps exactly the other parameters, and a list without "page" is left as it is |
| SearchUi.WithoutAppend | static/base/assets/js/search/ui.js:223-224 | deleting distributes over concatenation, so every kept parameter of a first part precedes every kept parameter of a second |
| SearchUi.WithoutKeepsOrder | static/base/assets/js/search/ui.js:223-224 | two kept parameters stay in the order they had |
| SearchUi.PageHref | static/base/assets/js/search/ui.js:227-232 | a page link keeps the page path and the other parameters and sets only "page" |
| SearchUi.Window | static/base/assets/js/search/ui.js:248-262 | the window holds one piece per page number from start to end, in order, the current page as a plain number |
| SearchUi.WindowGrows | static/base/assets/js/search/ui.js:250 | one more loop step adds the piece for the next page number |
| SearchUi.RenderPagination | static/base/assets/js/search/ui.js:221-279 | the function returns the pieces Bar gives |
| SearchUi.RenderWindow | static/base/assets/js/search/ui.js:248-262 | the page loop returns the window's pieces |
| SearchUi.BarShape | static/base/assets/js/search/ui.js:234-274 | with more than one page, the bar has the previous arrow, at most five page pieces from `page - 2` to `page + 2` within range, and the next arrow |
| SearchUi.BarShowsCurrent | static/base/assets/js/search/ui.js:248-254 | a page within range appears as the current page |
| SearchUi.BarOneCurrent | static/base/assets/js/search/ui.js:250-254 | at most one piece is the current page, and it is the requested page |
| SearchUi.EscapeHtml | static/base/assets/js/search/ui.js:16-22 | the chain of replacements, "&" first, is the same as escaping each character on its own, so no entity is escaped twice |
| Serializers.AbsoluteUrl | house/api/serializers.py:7-10 | an empty or missing path, or no request, gives the path back; otherwise the request makes it absolute |
| Serializers.AbsoluteUrlStable | house/api/serializers.py:7-10 | with a request whose absolute URLs stay as they are, making a URL absolute twice is the same as once |
| Serializers.SerializeType | house/api/serializers.py:36-43 | an unset type is null, a set one is its id, name and slug |
| Serializers.SerializeDeal | house/api/serializers.py:46-49 | an unset deal is null, a set one is its id and name |
| Serializers.SerializeImages | house/api/serializers.py:56-65 | one entry per image, in order |
| Serializers.SerializeFeatures | house/api/serializers.py:52-53 | one entry per feature, in order (see also house/api/serializers.py:96-98) |
| Serializers.FirstMain | house/api/serializers.py:66-67 | the first image flagged main, and none exactly when no image is flagged |
| Serializers.SerializeProperty | house/api/serializers.py:70-100 | the price block repeats the top-level price in USD; the location block repeats the top-level address and coordinates; a coordinate is null exactly when the listing has none; a listing without images has a null main image |
| Serializers.RelationsSerialized | house/api/serializers.py:94-95 | a stored type or deal appears with its id, and an unset one as null |
| Serializers.MainImageChoice | house/api/serializers.py:65-69 | the main image is the first flagged image, else the first image; with no images the field is null (see also house/api/serializers.py:100) |
| Serializers.PrecedesTotal | house/models.py:249-250 | the default image order ranks any two rows with different ids |
| Serializers.MainRowIsModelMain | house/api/serializers.py:65-69 | on the listing's images in their default order, the serialized main image is the one `Property.main_image` shows |
| PublicViews.RateCache.constructor | landing_doominium_real_state/views/public.py:36 | the cache starts with no counters |
| PublicViews.RateCache.Get | landing_doominium_real_state/views/public.py:36 | `cache.get(key, 0)` is the stored count while it has not expired, else 0 |
| PublicViews.RateCache.Set | landing_doominium_real_state/views/public.py:47-52 | `cache.set` stores the value with its expiry and changes no other key |
| PublicViews.RateCache.Incr | landing_doominium_real_state/views/public.py:49-52 | `cache.incr` adds one to a live counter and keeps its expiry; on a missing or expired key it raises and the key is gone |
| PublicViews.RateCache.Hit | landing_doominium_real_state/views/public.py:36-52 | a hit is refused exactly when the count read has reached the limit; otherwise the counter starts at 1 or goes up by one |
| PublicViews.HitsCount | landing_doominium_real_state/views/public.py:36-52 | from a fresh counter, n hits within the window leave the count at n, expiring one window after the first |
| PublicViews.ThrottleAfterLimit | landing_doominium_real_state/views/public.py:33-44 | the first `limit` hits are let through, and the next one is refused and changes nothing |
| PublicViews.WindowExpires | landing_doominium_real_state/views/public.py:34-47 | once the window has passed, the address may send again |
| PublicViews.Failures | landing_doominium_real_state/views/public.py:81-88 | at most one error per chat |
| PublicViews.FailuresExact | landing_doominium_real_state/views/public.py:81-88 | a chat is reported exactly when its send failed, with that send's error |
| PublicViews.SendAll | landing_doominium_real_state/views/public.py:79-88 | every chat is tried in order, and the failures are collected |
| PublicViews.UpdateProfile | landing_doominium_real_state/views/public.py:93-103 | the phone is written when given and different, the e-mail only when given and the user has none; the fields saved are exactly those that changed |
| PublicViews.Consultation | landing_doominium_real_state/views/public.py:22-105 | an invalid form answers its errors and touches nothing; a valid one counts the hit and is refused when throttled; without a token or chats nothing is sent; otherwise every chat is tried, the answer is Sent when no send failed and SendFailed with exactly the failed chats otherwise; the profile changes only after every send has succeeded |
| PublicViews.FailuresEmpty | landing_doominium_real_state/views/public.py:81-91 | no failure is reported exactly when every chat's send succeeded |
| PublicViews.PropertyLine | landing_doominium_real_state/views/public.py:56 | the listing line is the link given, else "Не вказано" |
| PublicViews.WordEnd | landing_doominium_real_state/views/public.py:119 | the first word ends at the first whitespace |
| PublicViews.Words | landing_doominium_real_state/views/public.py:119 | `split()` gives non-empty words without whitespace |
| PublicViews.WordsOfJoin | landing_doominium_real_state/views/public.py:119 | splitting words joined by single spaces gives them back |
| PublicViews.CompactKeepsWords | landing_doominium_real_state/views/public.py:119 | compacting the whitespace keeps the words, and compacting twice is the same as once |
| PublicViews.Truncated | landing_doominium_real_state/views/public.py:124-128 | text over 160 characters keeps its first 157 and ends with an ellipsis, 158 in all; shorter text is kept |
| PublicViews.DetailMetaDescription | landing_doominium_real_state/views/public.py:118-128 | the meta description is never empty and at most 160 characters: the compacted description without tags, else the title and address sentence |
| PublicViews.HomeLimit | landing_doominium_real_state/views/public.py:197 | the settings' limit when set and non-zero, else 3 |
| PublicViews.FirstWhere | landing_doominium_real_state/views/public.py:205 | the first min(n, number passing) rows passing the test, in list order, with no id twice |
| PublicViews.Passing | landing_doominium_real_state/views/public.py:205 | the rows passing the test are exactly those of the list that pass it |
| PublicViews.FirstWhereAll | landing_doominium_real_state/views/public.py:230 | fewer than n rows means every passing row was taken |
| PublicViews.AutoPicks | landing_doominium_real_state/views/public.py:210-232 | the automatic picks pass the settings' filters and were not chosen already; fewer than needed only when no other listing passes |
| PublicViews.FallbackPicks | landing_doominium_real_state/views/public.py:235-242 | the fallback picks are among the newest listings and were not chosen already; fewer than needed only when every newest listing not chosen is taken |
| PublicViews.HomeShapeOf | landing_doominium_real_state/views/public.py:199-244 | featured, then automatic, then fallback picks make the home-page shape |
| PublicViews.HomepageSelection | landing_doominium_real_state/views/public.py:193-244 | the home page shows at most `limit` distinct listings: the featured ones newest first, then random listings passing the filters, then the newest others, fallbacks only once no other listing passes the filters; the list is HomeList's |
| PublicViews.HomeList | landing_doominium_real_state/views/public.py:199-244 | the featured prefix, the automatic picks and the fallback picks fill at most `limit` places with distinct listings in the home-page shape, and a page left short of `limit` holds every one of the newest listings |
| PublicViews.HomeFilled | landing_doominium_real_state/views/public.py:235-242 | when the fallback phase leaves the page short of its limit, every newest listing is on it |
| PublicViews.AddAutoPicks | landing_doominium_real_state/views/public.py:208-233 | when places remain, the automatic picks are appended and their ids recorded |
| PublicViews.AddFallbackPicks | landing_doominium_real_state/views/public.py:235-242 | when places remain, the fallback picks are appended |
| PublicViews.HomeSelected | landing_doominium_real_state/views/public.py:199-244 | the three phases together respect the limit, keep ids distinct, give the home-page shape, and leave the page short of `limit` only when every newest listing is on it |
| PublicViews.DisjointJoin | landing_doominium_real_state/views/public.py:237 | excluding the ids already chosen keeps the whole list free of repeats (see also landing_doominium_real_state/views/public.py:206-211) |
| Settings.BreakAt | landing_doominium_real_state/settings/base.py:18 | the first line ends at the first line break |
| Settings.SplitLines | landing_doominium_real_state/settings/base.py:18 | `splitlines()` gives lines without a line break in them |
| Settings.SplitLinesEnds | landing_doominium_real_state/settings/base.py:18 | one line, with or without a final newline, is one line |
| Settings.EnvEntry | landing_doominium_real_state/settings/base.py:19-22 | a line gives an entry exactly when it is non-empty, is not a "#" comment once stripped, and holds "=" |
| Settings.EnvEntryCut | landing_doominium_real_state/settings/base.py:21-22 | the key is the stripped text before the first "=", the value the stripped text after it |
| Settings.SetDefault | landing_doominium_real_state/settings/base.py:22 | `setdefault` keeps every variable already set and adds the entry's key only when it is missing |
| Settings.Entries | landing_doominium_real_state/settings/base.py:18-19 | one entry candidate per line, in order |
| Settings.EnvKeepsSet | landing_doominium_real_state/settings/base.py:22 | loading the file never changes a variable that was already set |
| Settings.EnvAddsEntries | landing_doominium_real_state/settings/base.py:18-22 | every variable the file adds comes from one of its lines |
| Settings.FirstEntryWins | landing_doominium_real_state/settings/base.py:22 | of two lines with the same key, the first one's value is kept |
| Settings.Environment.LoadEnvFile | landing_doominium_real_state/settings/base.py:14-22 | a missing file changes nothing; otherwise each line's entry is set by default, in order, until an entry whose name is empty or holds NUL, or whose value holds NUL, is met for a name not yet set: that raises and the later lines are not reached |
| Settings.Load | landing_doominium_real_state/settings/base.py:18-22 | with no refused entry, loading is the plain run of `setdefault` calls and does not raise; it raises only when some entry is refused; set variables never change |
| Settings.EmptyNameRaises | landing_doominium_real_state/settings/base.py:22 | a line such as "=x", whose name strips to "", makes the load raise |
| Settings.EnvList | landing_doominium_real_state/settings/base.py:28-34 | an unset or empty variable gives the default list, else [];  otherwise the stripped non-empty pieces between separators |
| Settings.EnvBool | landing_doominium_real_state/settings/base.py:37-41 | an unset variable gives the default; a set one is true exactly when stripped and lower-cased it is 1, true, yes or on |
| Settings.EnvBoolStripped | landing_doominium_real_state/settings/base.py:41 | surrounding whitespace does not change the answer |
| Settings.EnvBoolEmpty | landing_doominium_real_state/settings/base.py:41 | a set but empty variable is false whatever the default |
| Settings.EnvInt | landing_doominium_real_state/settings/base.py:44-51 | an unset variable or one `int()` refuses gives the default; otherwise the number read |
| Settings.EnvIntReadsNumber | landing_doominium_real_state/settings/base.py:49 | a variable holding the decimal digits of n gives n |
| Settings.SplitAtEquals | landing_doominium_real_state/settings/base.py:150 | `opt.split("=")` gives the text before the first "=" and the text between the first and second "=" |
| Settings.DbOptionsShape | landing_doominium_real_state/settings/base.py:147-153 | every database option key comes from an item holding "=", and its value is that item's text between the first and second "=" |
| Settings.DbOptionsFromItem | landing_doominium_real_state/settings/base.py:147-153 | every item holding "=" puts its key in the options, and the value is that item's when no later item has the same key (the last one wins) |
| Settings.ChatIds | landing_doominium_real_state/settings/base.py:241-247 | one chat id per item, in order: a number when `int()` reads it, else the text |
| Settings.ParseIntNegative | landing_doominium_real_state/settings/base.py:245 | a minus sign before decimal digits reads as the negative number |
| Settings.ChatIdNumeric | landing_doominium_real_state/settings/base.py:241-247 | numeric chat ids, negative group ids included, are kept as numbers |
| Settings.Environment.constructor | landing_doominium_real_state/settings/base.py:14 | the environment starts as the variables given |
| WebCommon.BuildAbsoluteUri | landing_doominium_real_state/views/common.py:4-9 | no path or an empty one gives the current page's address; an http or https path is returned as is; any other path is resolved against the request |
| WebCommon.AbsoluteUriStable | landing_doominium_real_state/views/common.py:4-9 | when the request resolves every path to an absolute address, the result is absolute, and building it again gives the same address |
| WebCommon.ClientIpFirstHop | landing_doominium_real_state/views/common.py:37-41 | a non-empty forwarded chain gives its first hop, trimmed and free of commas; otherwise the peer address, else "unknown" |
| Forms.CleanPhone | landing_doominium_real_state/forms/mixins.py:5-26 | a phone is accepted, unchanged, exactly when it matches the pattern and keeps at least nine characters without spaces; otherwise the invalid-phone message |
| Forms.CleanPhoneField | landing_doominium_real_state/forms/mixins.py:9-26 | the field is stripped; empty is refused as required, over 32 characters as too long, and the rest goes through the phone rule |
| Forms.AcceptedPhone | landing_doominium_real_state/forms/mixins.py:5-26 | an accepted phone is an optional "+" and 9 to 20 class characters, and is accepted again when submitted again |
| Forms.ShortPhoneRefused | landing_doominium_real_state/forms/mixins.py:5-25 | fewer than nine characters are refused with the invalid-phone message |
| Forms.DigitPhoneAccepted | landing_doominium_real_state/forms/mixins.py:5-26 | nine to twenty digits, with or without a leading "+", are accepted unchanged |
| Forms.CompactRuleRefuses | landing_doominium_real_state/forms/mixins.py:23-25 | five spaced digits match the pattern yet are refused by the space-free length rule |
| Forms.CleanEmail | landing_doominium_real_state/forms/mixins.py:37-39 | a missing address becomes "" and a given one is kept |
| Accounts.CustomUser.constructor | accounts/models.py:14-20 | a user holds the name and contact fields it is given |
| Accounts.CustomUser.DisplayName | accounts/models.py:34-44 | never empty: the first filled of full name, Telegram name, username and e-mail, else "користувачу" |
| Accounts.CustomUser.Str | accounts/models.py:46-47 | the user prints as its display name |
| Slugs.SuffixedInjective | house/models.py:29 | different counters give different suffixed slugs |
| Slugs.SuffixedUpToCard | house/models.py:25-30 | the suffixed slugs with counters 1 to n are n distinct slugs |
| Slugs.CounterBounded | house/models.py:26-30 | the counter never passes the number of slugs already taken, so the loop stops |
| Slugs.FirstFreeFrom | house/models.py:26-30 | from any counter on, the loop settles on a free candidate, every earlier one being taken |
| Slugs.FirstFree | house/models.py:20-31 | the slug chosen is not taken, and it is the first candidate that is not |
| Slugs.FreeFirstKept | house/models.py:168-174 | a free first candidate is kept unsuffixed |
| Slugs.UniqueSlug | house/models.py:168-174 | the suffix loop returns the first free candidate |
| Json.Trunc | house/services/importer.py:56-60 | `int()` of a float truncates toward zero: the result is within one of the value, on the side of zero |
| Text.Lower | landing_doominium_real_state/settings/base.py:41 | `lower()` lower-cases each character and keeps the length |
| Text.LowerIdempotent | landing_doominium_real_state/settings/base.py:41 | lower-casing twice is the same as once |
| Text.Strip | landing_doominium_real_state/settings/base.py:22-41 | `strip()` leaves no whitespace at either end and never lengthens the text |
| Text.StripIsSlice | landing_doominium_real_state/settings/base.py:22 | the stripped text is a slice of the original |
| Text.StripIdempotent | landing_doominium_real_state/settings/base.py:22 | stripping twice is the same as once |
| Text.RemoveChar | landing_doominium_real_state/forms/mixins.py:23 | `replace(" ", "")` removes every space and adds nothing |
| Text.RemoveCharCount | landing_doominium_real_state/forms/mixins.py:23 | removing a character shortens the text by exactly its number of occurrences |
| Text.Split | landing_doominium_real_state/settings/base.py:34 | `split(sep)` always gives at least one piece |
| Text.JoinSplit | landing_doominium_real_state/settings/base.py:34 | joining the pieces with the separator gives the text back |
| Text.SplitPiecesAvoid | landing_doominium_real_state/views/common.py:40 | no piece holds the separator |
| Text.StrippedPieces | landing_doominium_real_state/settings/base.py:34 | the kept pieces are non-empty and already stripped |
| Text.ParseInt | landing_doominium_real_state/settings/base.py:49 | `int()` refuses blank text |
| Text.ParseIntNatToString | landing_doominium_real_state/settings/base.py:49 | `int()` reads back the decimal digits of any natural number |

## Left out

- HTML parsing itself: the page is an abstract document that answers each selector with its matches in document order. CSS selector matching is not modelled.
- Network calls are parameters: the Nominatim geocoder, the rate provider, page and image downloads, and Telegram. Each answers with success or failure. Timeouts are not modelled.
- The module-level `_GEOCODERS` cache is modelled as the `available` parameter.
- The database, QuerySets, the Paginator, transactions and the cache backend are maps, sequences and class fields. Concurrent requests are not modelled.
- slugify, strip_tags, Intl.NumberFormat and the clock are uninterpreted parameters.
- `iexact` lookups are modelled as equality after lower-casing. Lower-casing covers ASCII and Cyrillic letters only.
- Floats are exact rationals. Exponent notation, inf and nan in `float()` are not modelled, nor is binary rounding.
- Integer and decimal text is read as ASCII digits only, so "1_000", non-ASCII digits and Decimal's "NaN" and "Infinity" are not modelled; neither is a digit such as "²" that `isdigit()` accepts and `int()` refuses. This concerns PriceNormalizer.CleanPrice and Scalars.ExtractInt, whose `\d` keeps non-ASCII decimal digits that `int()` and `float()` then read, and AdminFields.GetInt, AdminFields.GetDecimal, ServiceImporter.SafeInt, Settings.EnvInt, Settings.ChatIds, Text.ParseInt, SearchService.ExactRooms, SearchService.LegacyRooms and SearchView.DeriveRoomsSlider.
- Models.Store: one id counter numbers the rows of every table, where the database numbers each table on its own. Ids stay fresh and increasing within a table, but are not consecutive.
- FreshTablesGainOneEach: the deal row is numbered after the type row because the counter is shared; in the database each would be the first id of its own table.
- The random slug generators of a listing, and the random choice among them, are a parameter (the first candidate).
- The random order of the home page's automatic picks is a parameter: any order of the eligible listings.
- PIL WebP conversion, file names and file deletion when an image is saved are not modelled.
- The stale module landing_doominium_real_state/views.py is not part of this model: the `views/` package shadows it.
- Auth flows, the Telegram bot, URL wiring, admin registrations, migrations, logging and the sitemaps are not part of this model.
- The DOM and fetch code of the site's scripts is not part of this model. Only escapeHtml, formatPrice, the deal key and the pagination window of search/ui.js are.
- house/admin.py import_html is not modelled, because it passes keys the model does not have.
- The duplicate serialize_image in house/api/views.py:824-829 is not modelled; it shadows the imported one and names an undefined helper.
- `parse_property_from_html`, which reads a file, and `as_dict` are left out.
- Parse exceptions in property_import_html and property_import_link are not modelled: the parser is total here.
- ParsePage: states only the title and the address of the record it returns. Its whole record is ListingParser.ParsedOf of the page, as ParsePropertyHtml states. Carrying that equation through ParsePage would put every extractor's contract and the import's field validation into one proof obligation, and the verifier's resource bound does not allow that.
- ImportPage: a created listing is stated to hold the validated fields of the record `data` it returns (AdminImport.StoredFrom), and its warnings are those of transferring that record's images (AdminImport.WarnedFrom). The contract links `data` to the page only through its title and address, not as the page's full ParsedOf record, for the same reason.
- The `{"save": str(exc)}` error path, taken when the database refuses a save, is left out.
- AdminFields.ApplyFeatures: its message does not list the missing ids, because the source prints them in the iteration order of a Python set.
- AdminFields.ApplyFeatures: a feature_ids item that is not an integer is treated as one that raises.
- AdminRequests: expiry of the import throttle's counter is not modelled.
- ExchangeRates.ParsePayload: a payload that is not a list of objects, where `.get` raises, is not modelled. The cache timeout is not modelled either.
- ServiceImporter.ServiceListing: requires a non-negative area.
- SearchService.ApplyCurrencyDisplay: requires the selected code to be among the options and every option code to be USD, EUR or UAH; the source raises KeyError otherwise.
- The `search_properties` function view (landing_doominium_real_state/views/search.py:21-45) is not modelled beyond build_search_queryset.
- The view's `dispatch` caching and its asynchronous JSON response are left out.
- property_detail is modelled only for its meta description. Its structured data and JSON-LD are left out.
- SearchUi.EscapeHtml: modelled over an optional string, so non-string values are left out.
- The three-way featured toggle in house/views.py and views/admin.py is left out.

## Findings

| source | as written | input that shows it | evidently intended | confidence | as-written member | corrected member |
|---|---|---|---|---|---|---|
| house/utils/html_parser.py:538-548 | `_extract_float`, called by the script step at lines 449-456, passes `match.group()`, the whole match such as "latitude:50.45", to `float()`, so the script fallback never yields a coordinate | a page whose only coordinates are a script saying `latitude: 50, longitude: 30` gives (None, None) | read the captured group, `match.group(1)`, and give (50, 30), as the cascade Coordinates.CoordinatesOfIntended does | not executed | Coordinates.ScriptValueAsWrittenNeverReads | Coordinates.ScriptValueReadsNumber |
