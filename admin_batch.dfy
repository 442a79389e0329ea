/**
 * The batch import endpoints of the admin API (house/api/views.py, lines 661-817):
 * a chunk of JSON objects, a set of uploaded HTML files, or one page link. Each item is
 * judged on its own and a bad one is recorded and skipped; the response lists what was
 * created and what was not, with 1-based indices.
 */
module AdminBatch {
  import opened Wrappers
  import opened Text
  import opened Json
  import opened Models
  import opened AdminFields
  import opened Document
  import AdminImport
  import ImageTransfer
  import ListingParser
  import FieldExtractor
  import AddressGeocoder
  import ExchangeRates
  import PriceNormalizer

  const InvalidJsonMessage := "Некоректний JSON."
  const NotListMessage := "Очікується список об'єктів у полі 'items'."
  const NotObjectMessage := "Елемент має бути JSON-об'єктом."

  // ---------------------------------------------------------------- the JSON chunk

  /** Where the items of `property_import` come from. */
  datatype Chunk =
    | Items(items: seq<Value>)
    | InvalidJson      // the body did not decode, or decoded to `null`: 400
    | NotAList         // no list under `items` or `properties`: 400
    | Raises           // `payload.get` on a string, number or boolean raises

  /** The chunk of a decoded body: the body itself when it is a list, else the truthy one
      of `items` and `properties`. */
  function ChunkOf(payload: Value): (r: Chunk)
    ensures payload.Arr? ==> r == Items(payload.items)
    ensures payload.Obj? && r.Items? ==>
              (Get(payload.fields, "items") == Arr(r.items) && r.items != [])
              || (!Truthy(Get(payload.fields, "items")) && Get(payload.fields, "properties") == Arr(r.items))
    ensures r.InvalidJson? <==> payload == Null
    ensures r.Raises? <==> !payload.Arr? && !payload.Obj? && payload != Null
  {
    match payload
    case Null => InvalidJson
    case Arr(items) => Items(items)
    case Obj(m) =>
      var v := if Truthy(Get(m, "items")) then Get(m, "items") else Get(m, "properties");
      if v.Arr? then Items(v.items) else NotAList
    case _ => Raises
  }

  /** An empty `items` list is falsy, so it gives way to `properties`, and without that
      key the request is refused rather than answered with an empty import. */
  lemma EmptyItemsFallsThrough(properties: seq<Value>)
    ensures ChunkOf(Obj(map["items" := Arr([]), "properties" := Arr(properties)])) == Items(properties)
    ensures ChunkOf(Obj(map["items" := Arr([])])) == NotAList
  {
    var m := map["items" := Arr([]), "properties" := Arr(properties)];
    assert Get(m, "properties") == Arr(properties);
  }

  /** What becomes of one entry of the chunk. */
  datatype FeaturePhase = NoFeatures | SetTo(ids: set<nat>) | Ignored | FeaturesRaise

  datatype Verdict =
    | NotObject
    | Invalid(errors: Errors)
    | Crash                                       // an exception escapes before the save
    | Save(listing: Listing, phase: FeaturePhase) // saved, then `feature_ids` applied

  /** The ids of the stored type and deal rows. */
  function TypeIds(types: seq<TypeRow>): set<nat> { set t | t in types :: t.id }
  function DealIds(deals: seq<DealRow>): set<nat> { set d | d in deals :: d.id }

  /** A field `Property()` leaves at `None` and the payload does not set: the save fails
      on the column's NOT NULL constraint. */
  predicate Unset(m: map<string, Value>) {
    IsBlank(Get(m, "price")) || IsBlank(Get(m, "area")) || IsBlank(Get(m, "rooms"))
  }

  /** The `feature_ids` step after the save: a list is applied, and its missing-id error
      goes into a map nobody reads. */
  function FeaturesAfterSave(p: Listing, m: map<string, Value>, featureIds: set<nat>): FeaturePhase {
    match Get(m, "feature_ids")
    case Arr(items) =>
      (match ApplyFeatures(p, map["feature_ids" := Arr(items)], map[], featureIds)
       case None => FeaturesRaise
       case Some(w) => if w.1 == map[] then SetTo(w.0.features) else Ignored)
    case _ => NoFeatures
  }

  /** One iteration of the `property_import` loop, as a value. */
  function Classify(item: Value, typeIds: set<nat>, dealIds: set<nat>, featureIds: set<nat>): (v: Verdict)
    ensures v.NotObject? <==> !item.Obj?
    ensures v.Invalid? ==> v.errors != map[]
    ensures v.Save? ==> v.listing.area >= 0 && v.listing.rooms >= 0 && v.listing.slug == ""
  {
    match item
    case Obj(m) =>
      (match UpdateFields(AdminImport.Unsaved, m, map[])
       case None => Crash
       case Some(u) => ClassifyUpdated(m, u, typeIds, dealIds, featureIds))
    case _ => NotObject
  }

  /** The rest of the iteration once `_update_fields` has run. */
  function ClassifyUpdated(m: map<string, Value>, u: (Listing, Errors), typeIds: set<nat>, dealIds: set<nat>,
                           featureIds: set<nat>): (v: Verdict)
    ensures v.Invalid? ==> v.errors != map[]
    ensures v.Save? ==> v.listing.area >= 0 && v.listing.rooms >= 0 && v.listing.slug == u.0.slug
    ensures !v.NotObject?
  {
    match ApplyRelation(u.0, m, u.1, false, typeIds, dealIds, featureIds)
    case None => Crash
    case Some(r) =>
      if r.1 != map[] then Invalid(r.1)
      else if Unset(m) || r.0.area < 0 || r.0.rooms < 0 then Crash
      else Save(r.0, FeaturesAfterSave(r.0, m, featureIds))
  }

  /** An unknown type id is reported under its key. */
  lemma UnknownTypeReported(m: map<string, Value>, u: (Listing, Errors), typeIds: set<nat>, dealIds: set<nat>,
                            featureIds: set<nat>)
    requires Get(m, "property_type_id").Int? && !IdIn(Get(m, "property_type_id"), typeIds)
    requires Get(m, "deal_type_id") == Null || LookupId(Get(m, "deal_type_id")).Some?
    ensures var v := ClassifyUpdated(m, u, typeIds, dealIds, featureIds);
            v.Invalid? && "property_type_id" in v.errors && v.errors["property_type_id"] == MissingTypeMessage
  {
    var r := ApplyRelation(u.0, m, u.1, false, typeIds, dealIds, featureIds);
    assert r.Some?;
    ApplyRelationIds(u.0, m, u.1, false, typeIds, dealIds, featureIds);
    assert "property_type_id" in r.value.1;
  }

  /** A valid object is saved with the values it gives. */
  lemma SavedAsGiven(m: map<string, Value>, typeIds: set<nat>, dealIds: set<nat>, featureIds: set<nat>)
    requires Classify(Obj(m), typeIds, dealIds, featureIds).Save?
    ensures var p := Classify(Obj(m), typeIds, dealIds, featureIds).listing;
            p.price == ToDecimal(Get(m, "price")).value && p.area == ToInt(Get(m, "area")).value
            && p.rooms == ToInt(Get(m, "rooms")).value
  {
    var u := UpdateFields(AdminImport.Unsaved, m, map[]).value;
    var r := ApplyRelation(u.0, m, u.1, false, typeIds, dealIds, featureIds).value;
    assert u.1.Keys <= r.1.Keys == {};
  }

  /** An unknown type id rejects the item with the message under its key. */
  lemma UnknownTypeRejected(m: map<string, Value>, typeIds: set<nat>, dealIds: set<nat>, featureIds: set<nat>)
    requires UpdateFields(AdminImport.Unsaved, m, map[]).Some?
    requires Get(m, "property_type_id").Int? && !IdIn(Get(m, "property_type_id"), typeIds)
    requires Get(m, "deal_type_id") == Null || LookupId(Get(m, "deal_type_id")).Some?
    ensures var v := Classify(Obj(m), typeIds, dealIds, featureIds);
            v.Invalid? && "property_type_id" in v.errors && v.errors["property_type_id"] == MissingTypeMessage
  {
    var u := UpdateFields(AdminImport.Unsaved, m, map[]).value;
    UnknownTypeReported(m, u, typeIds, dealIds, featureIds);
  }

  function Verdicts(chunk: seq<Value>, typeIds: set<nat>, dealIds: set<nat>, featureIds: set<nat>): (vs: seq<Verdict>)
    ensures |vs| == |chunk|
    ensures forall k :: 0 <= k < |chunk| ==> vs[k] == Classify(chunk[k], typeIds, dealIds, featureIds)
  {
    seq(|chunk|, k requires 0 <= k < |chunk| => Classify(chunk[k], typeIds, dealIds, featureIds))
  }

  /** An entry of the `errors` list of the response. */
  datatype ItemError = NotAnObject(index: nat) | InvalidItem(index: nat, errors: Errors)

  /** The entry, if any, for the item at 1-based `index`. */
  function EntryOf(v: Verdict, index: nat): seq<ItemError> {
    match v
    case NotObject => [NotAnObject(index)]
    case Invalid(e) => [InvalidItem(index, e)]
    case _ => []
  }

  /** A verdict that stops the loop: an exception before or after the save. */
  predicate Stops(v: Verdict) { v.Crash? || (v.Save? && v.phase.FeaturesRaise?) }

  predicate NoStop(vs: seq<Verdict>) { forall k :: 0 <= k < |vs| ==> !Stops(vs[k]) }

  /** The `errors` list after the items behind `vs`. */
  function ErrorsOf(vs: seq<Verdict>): seq<ItemError>
    decreases |vs|
  {
    if vs == [] then [] else ErrorsOf(vs[..|vs| - 1]) + EntryOf(vs[|vs| - 1], |vs|)
  }

  /** The listing as it ends up stored, before geocoding and slug generation. */
  function Final(v: Verdict): Listing
    requires v.Save?
  {
    if v.phase.SetTo? then v.listing.(features := v.phase.ids) else v.listing
  }

  /** The listings saved for the items behind `vs`, in order. */
  function SavedOf(vs: seq<Verdict>): seq<Listing>
    decreases |vs|
  {
    if vs == [] then []
    else SavedOf(vs[..|vs| - 1]) + (if vs[|vs| - 1].Save? then [Final(vs[|vs| - 1])] else [])
  }

  /** Every entry names the 1-based position of an item that was not saved, the positions
      strictly increase, and every item is either saved or has its entry. */
  lemma ErrorsOfSnoc(vs: seq<Verdict>, i: nat)
    requires i < |vs|
    ensures ErrorsOf(vs[..i + 1]) == ErrorsOf(vs[..i]) + EntryOf(vs[i], i + 1)
    ensures SavedOf(vs[..i + 1]) == SavedOf(vs[..i]) + (if vs[i].Save? then [Final(vs[i])] else [])
  {
    assert vs[..i + 1][..i] == vs[..i];
  }

  /** Every entry names the 1-based position of an item that was not saved, and it says
      "not an object" exactly for the items that were not objects. */
  lemma {:induction false} ErrorsOfIndices(vs: seq<Verdict>)
    ensures forall j :: 0 <= j < |ErrorsOf(vs)| ==>
              1 <= ErrorsOf(vs)[j].index <= |vs| && !vs[ErrorsOf(vs)[j].index - 1].Save?
              && (ErrorsOf(vs)[j].NotAnObject? <==> vs[ErrorsOf(vs)[j].index - 1].NotObject?)
    decreases |vs|
  {
    if vs != [] {
      var n := |vs| - 1;
      var init := vs[..n];
      ErrorsOfIndices(init);
      var e := ErrorsOf(vs);
      var ei := ErrorsOf(init);
      assert e == ei + EntryOf(vs[n], n + 1);
      forall j | 0 <= j < |e|
        ensures 1 <= e[j].index <= |vs| && !vs[e[j].index - 1].Save?
                && (e[j].NotAnObject? <==> vs[e[j].index - 1].NotObject?)
      {
        if j < |ei| {
          assert e[j] == ei[j];
          assert init[ei[j].index - 1] == vs[ei[j].index - 1];
        } else {
          assert e[j].index == n + 1;
        }
      }
    }
  }

  /** The positions of the entries strictly increase. */
  lemma {:induction false} ErrorsOfIncreasing(vs: seq<Verdict>)
    ensures forall j :: 0 <= j < |ErrorsOf(vs)| ==> ErrorsOf(vs)[j].index <= |vs|
    ensures forall j, l :: 0 <= j < l < |ErrorsOf(vs)| ==> ErrorsOf(vs)[j].index < ErrorsOf(vs)[l].index
    decreases |vs|
  {
    if vs != [] {
      var n := |vs| - 1;
      ErrorsOfIncreasing(vs[..n]);
      var e := ErrorsOf(vs);
      var ei := ErrorsOf(vs[..n]);
      assert e == ei + EntryOf(vs[n], n + 1);
      assert forall j :: |ei| <= j < |e| ==> e[j].index == n + 1;
    }
  }

  /** A batch that runs to the end accounts for every item: saved or listed. */
  lemma {:induction false} ErrorsOfCount(vs: seq<Verdict>)
    requires NoStop(vs)
    ensures |ErrorsOf(vs)| + |SavedOf(vs)| == |vs|
    decreases |vs|
  {
    if vs != [] {
      var n := |vs| - 1;
      assert NoStop(vs[..n]) by {
        assert forall k :: 0 <= k < n ==> vs[..n][k] == vs[k];
      }
      ErrorsOfCount(vs[..n]);
      assert !Stops(vs[n]);
    }
  }

  /** `201 if created and not errors else 207`. */
  function BatchStatus<T, U>(created: seq<T>, errors: seq<U>): int {
    if created != [] && errors == [] then 201 else 207
  }

  /** A batch that runs to the end answers 201 exactly when it was not empty and every
      item was saved. */
  lemma StatusCreatedIff(vs: seq<Verdict>)
    requires NoStop(vs)
    ensures BatchStatus(SavedOf(vs), ErrorsOf(vs)) == 201 <==>
            vs != [] && forall k :: 0 <= k < |vs| ==> vs[k].Save?
  {
    if vs != [] && forall k :: 0 <= k < |vs| ==> vs[k].Save? {
      AllSavedNoErrors(vs);
    } else if vs != [] {
      var k :| 0 <= k < |vs| && !vs[k].Save?;
      assert !Stops(vs[k]);
      UnsavedListed(vs, k);
    }
  }

  /** An item that was neither saved nor stopped the loop has its entry. */
  lemma {:induction false} UnsavedListed(vs: seq<Verdict>, k: nat)
    requires k < |vs| && !vs[k].Save? && !vs[k].Crash?
    ensures ErrorsOf(vs) != []
    decreases |vs|
  {
    var n := |vs| - 1;
    if k < n {
      assert vs[..n][k] == vs[k];
      UnsavedListed(vs[..n], k);
    } else {
      assert EntryOf(vs[n], n + 1) != [];
    }
  }

  lemma {:induction false} AllSavedNoErrors(vs: seq<Verdict>)
    requires forall k :: 0 <= k < |vs| ==> vs[k].Save?
    ensures ErrorsOf(vs) == [] && |SavedOf(vs)| == |vs|
    decreases |vs|
  {
    if vs != [] {
      AllSavedNoErrors(vs[..|vs| - 1]);
    }
  }

  /** The outcome of the loop: it runs to the end, or an exception escapes (the rows saved
      before it stay, there being no transaction around the loop). */
  datatype BatchOutcome = Finished(created: seq<nat>, errors: seq<ItemError>) | Crashed

  /** The stored row carries the listing's fields, up to coordinates and slug. */
  predicate Matches(q: Listing, p: Listing) {
    q.(latitude := p.latitude, longitude := p.longitude, slug := p.slug) == p
  }

  /** The save of a valid item and its `feature_ids` step; `raised` when that step throws. */
  method SaveItem(store: Store, v: Verdict, located: Option<(real, real)>, baseSlug: string)
    returns (id: nat, raised: bool)
    requires store.Valid() && v.Save?
    modifies store
    ensures store.Valid()
    ensures store.types == old(store.types) && store.deals == old(store.deals) && store.images == old(store.images)
    ensures id == old(store.lastId) + 1 == store.lastId && id !in old(store.listings)
    ensures raised <==> v.phase.FeaturesRaise?
    ensures id in store.listings && Matches(store.listings[id], Final(v))
    ensures forall k :: k in old(store.listings) ==> k in store.listings && store.listings[k] == old(store.listings)[k]
  {
    var saved;
    id, saved := store.SaveListing(None, v.listing, located, baseSlug);
    raised := v.phase.FeaturesRaise?;
    if v.phase.SetTo? {
      store.SetFeatures(id, v.phase.ids);
    }
  }

  /** The loop of `property_import` over the judged items. */
  method ImportVerdicts(store: Store, vs: seq<Verdict>, located: nat -> Option<(real, real)>,
                        baseSlug: nat -> string)
    returns (outcome: BatchOutcome)
    requires store.Valid()
    modifies store
    ensures store.Valid()
    ensures store.types == old(store.types) && store.deals == old(store.deals) && store.images == old(store.images)
    ensures forall id :: id in old(store.listings) ==> id in store.listings && store.listings[id] == old(store.listings)[id]
    ensures outcome.Finished? <==> NoStop(vs)
    ensures outcome.Finished? ==>
              outcome.errors == ErrorsOf(vs) && |outcome.created| == |SavedOf(vs)|
              && store.lastId == old(store.lastId) + |outcome.created|
              && forall k :: 0 <= k < |outcome.created| ==>
                   outcome.created[k] == old(store.lastId) + k + 1 && outcome.created[k] in store.listings
                   && Matches(store.listings[outcome.created[k]], SavedOf(vs)[k])
  {
    ghost var start := store.lastId;
    ghost var saved: seq<Listing> := [];
    var created: seq<nat> := [];
    var errors: seq<ItemError> := [];
    var i := 0;
    while i < |vs|
      invariant 0 <= i <= |vs|
      invariant store.Valid()
      invariant store.types == old(store.types) && store.deals == old(store.deals) && store.images == old(store.images)
      invariant Extends(old(store.listings), store.listings)
      invariant NoStop(vs[..i])
      invariant errors == ErrorsOf(vs[..i]) && saved == SavedOf(vs[..i])
      invariant store.lastId == start + |created|
      invariant Recorded(created, saved, store.listings, start)
    {
      ErrorsOfSnoc(vs, i);
      var verdict := vs[i];
      if verdict.NotObject? {
        errors := errors + [NotAnObject(i + 1)];
      } else if verdict.Invalid? {
        errors := errors + [InvalidItem(i + 1, verdict.errors)];
      } else if verdict.Crash? {
        return Crashed;
      } else {
        ghost var listings := store.listings;
        var id, raised := SaveItem(store, verdict, located(i), baseSlug(i));
        if raised {
          return Crashed;
        }
        RecordedKept(created, saved, listings, store.listings, start);
        RecordedAppend(created, saved, store.listings, start, id, Final(verdict));
        created := created + [id];
        saved := saved + [Final(verdict)];
      }
      NoStopSnoc(vs, i);
      i := i + 1;
    }
    assert vs[..i] == vs;
    outcome := Finished(created, errors);
  }

  /** The ids in `created` are the ones after `start`, in order, each holding the
      matching listing of `saved`. */
  ghost predicate Recorded(created: seq<nat>, saved: seq<Listing>, listings: map<nat, Listing>, start: nat) {
    |created| == |saved|
    && forall k :: 0 <= k < |created| ==>
         created[k] == start + k + 1 && created[k] in listings && Matches(listings[created[k]], saved[k])
  }

  lemma RecordedKept(created: seq<nat>, saved: seq<Listing>, listings: map<nat, Listing>,
                     listings': map<nat, Listing>, start: nat)
    requires Recorded(created, saved, listings, start) && Extends(listings, listings')
    ensures Recorded(created, saved, listings', start)
  {
  }

  lemma RecordedAppend(created: seq<nat>, saved: seq<Listing>, listings: map<nat, Listing>, start: nat,
                       id: nat, q: Listing)
    requires Recorded(created, saved, listings, start)
    requires id == start + |created| + 1 && id in listings && Matches(listings[id], q)
    ensures Recorded(created + [id], saved + [q], listings, start)
  {
  }

  lemma NoStopSnoc(vs: seq<Verdict>, i: nat)
    requires i < |vs| && NoStop(vs[..i]) && !Stops(vs[i])
    ensures NoStop(vs[..i + 1])
  {
    assert forall k :: 0 <= k < i ==> vs[..i + 1][k] == vs[..i][k];
  }

  /** `property_import` for the items of its chunk; `featureIds` is the feature table,
      `located(i)` what the geocoder answers for the i-th item's save and `baseSlug(i)` the
      random slug drawn for it. */
  method PropertyImport(store: Store, chunk: seq<Value>, featureIds: set<nat>,
                        located: nat -> Option<(real, real)>, baseSlug: nat -> string)
    returns (outcome: BatchOutcome)
    requires store.Valid()
    modifies store
    ensures store.Valid()
    ensures store.types == old(store.types) && store.deals == old(store.deals) && store.images == old(store.images)
    ensures forall id :: id in old(store.listings) ==> id in store.listings && store.listings[id] == old(store.listings)[id]
    ensures var vs := Verdicts(chunk, TypeIds(old(store.types)), DealIds(old(store.deals)), featureIds);
            (outcome.Finished? <==> NoStop(vs))
            && (outcome.Finished? ==>
                  outcome.errors == ErrorsOf(vs) && |outcome.created| == |SavedOf(vs)|
                  && store.lastId == old(store.lastId) + |outcome.created|
                  && forall k :: 0 <= k < |outcome.created| ==>
                       outcome.created[k] == old(store.lastId) + k + 1 && outcome.created[k] in store.listings
                       && Matches(store.listings[outcome.created[k]], SavedOf(vs)[k]))
  {
    var vs := Verdicts(chunk, TypeIds(store.types), DealIds(store.deals), featureIds);
    outcome := ImportVerdicts(store, vs, located, baseSlug);
  }

  // ---------------------------------------------------------------- uploaded HTML files

  const NoFilesMessage := "Не передано файлів для імпорту."
  const UnreadableMessage := "Не вдалося прочитати файл у кодуванні UTF-8."

  /** An uploaded file: its name and whether its bytes decode as UTF-8 into a page. */
  datatype Upload = Upload(name: string, content: Content)
  datatype Content = NotUtf8 | Page(doc: Doc)

  /** `request.POST.get("geocode") in {"1", "true", "on"}`. */
  predicate GeocodeRequested(flag: Option<string>) {
    flag.Some? && flag.value in {"1", "true", "on"}
  }

  /** An entry of `errors` and of `created` in the response. */
  datatype FileError = Unreadable(file: string) | InvalidFile(file: string, errors: Errors)
  datatype FileCreated = FileCreated(id: nat, title: string, warnings: seq<string>)

  /** The entry, if any, for one file: an unreadable file, or a page whose title or
      address cannot be found. */
  function FileEntry(u: Upload): seq<FileError> {
    match u.content
    case NotUtf8 => [Unreadable(u.name)]
    case Page(doc) =>
      if FieldExtractor.ExtractTitle(doc) == "" || FieldExtractor.AddressOf(doc) == ""
      then [InvalidFile(u.name, AdminImport.NameErrors(FieldExtractor.ExtractTitle(doc), FieldExtractor.AddressOf(doc)))]
      else []
  }

  /** The entries of the files, in order. */
  function Entries(files: seq<Upload>): (es: seq<seq<FileError>>)
    ensures |es| == |files|
  {
    seq(|files|, k requires 0 <= k < |files| => FileEntry(files[k]))
  }

  /** The `errors` list: the entries one after the other. */
  function Flatten(es: seq<seq<FileError>>): seq<FileError>
    decreases |es|
  {
    if es == [] then [] else Flatten(es[..|es| - 1]) + es[|es| - 1]
  }

  /** The number of files without an entry: the listings created. */
  function ImportedCount(es: seq<seq<FileError>>): nat
    decreases |es|
  {
    if es == [] then 0 else ImportedCount(es[..|es| - 1]) + (if es[|es| - 1] == [] then 1 else 0)
  }

  lemma FlattenSnoc(es: seq<seq<FileError>>, i: nat)
    requires i < |es|
    ensures Flatten(es[..i + 1]) == Flatten(es[..i]) + es[i]
    ensures ImportedCount(es[..i + 1]) == ImportedCount(es[..i]) + (if es[i] == [] then 1 else 0)
  {
    assert es[..i + 1][..i] == es[..i];
  }

  /** Each file yields at most one entry, or one listing. */
  lemma {:induction false} FilesAccounted(es: seq<seq<FileError>>)
    requires forall k :: 0 <= k < |es| ==> |es[k]| <= 1
    ensures |Flatten(es)| + ImportedCount(es) == |es|
    decreases |es|
  {
    if es != [] {
      FilesAccounted(es[..|es| - 1]);
    }
  }

  lemma {:induction false} FlattenEmpty(es: seq<seq<FileError>>)
    ensures Flatten(es) == [] <==> forall k :: 0 <= k < |es| ==> es[k] == []
    decreases |es|
  {
    if es != [] {
      var n := |es| - 1;
      FlattenEmpty(es[..n]);
      assert forall k :: 0 <= k < n ==> es[..n][k] == es[k];
    }
  }

  /** The batch answers 201 exactly when every file, and at least one, imports. */
  lemma HtmlStatusCreatedIff(files: seq<Upload>, created: seq<FileCreated>)
    requires |created| == ImportedCount(Entries(files))
    ensures BatchStatus(created, Flatten(Entries(files))) == 201 <==>
            files != [] && forall k :: 0 <= k < |files| ==> FileEntry(files[k]) == []
  {
    var es := Entries(files);
    assert forall k :: 0 <= k < |es| ==> es[k] == FileEntry(files[k]) && |es[k]| <= 1;
    FilesAccounted(es);
    FlattenEmpty(es);
  }

  datatype HtmlOutcome = NoFiles | HtmlDone(created: seq<FileCreated>, errors: seq<FileError>)

  /** `parse_property_html` on a decoded file, with the rates fetched once for the batch:
      the record's title and address are the page's. */
  method ParsePage(doc: Doc, rates: PriceNormalizer.Rates, geocode: bool, userAgent: string,
                   geoCache: AddressGeocoder.GeocodeCache, available: bool, answer: string -> AddressGeocoder.Answer)
    returns (data: ListingParser.ParsedProperty)
    requires geoCache.Valid()
    modifies geoCache
    ensures geoCache.Valid()
    ensures data.title == FieldExtractor.ExtractTitle(doc) && data.address == FieldExtractor.AddressOf(doc)
  {
    data := ListingParser.ParsePropertyHtml(doc, Some(rates), rates, geocode, userAgent, geoCache, available, answer);
  }

  /** One file of `property_import_html` that decoded into a page; `data` is the record
      `parse_property_html` built from it. */
  method ImportPage(store: Store, doc: Doc, rates: PriceNormalizer.Rates, geocode: bool, geoCache: AddressGeocoder.GeocodeCache,
                    userAgent: string, available: bool, answer: string -> AddressGeocoder.Answer,
                    stripTags: string -> string, slugify: string -> string, located: Option<(real, real)>,
                    baseSlug: string, transfer: string -> ImageTransfer.Transfer)
    returns (result: AdminImport.Creation, data: ListingParser.ParsedProperty)
    requires store.Valid() && geoCache.Valid()
    modifies store, geoCache
    ensures store.Valid() && geoCache.Valid()
    ensures store.lastId >= old(store.lastId)
    ensures forall k :: k in old(store.listings) ==> k in store.listings && store.listings[k] == old(store.listings)[k]
    ensures result.Rejected? <==> FieldExtractor.ExtractTitle(doc) == "" || FieldExtractor.AddressOf(doc) == ""
    ensures result.Rejected? ==>
              result.errors == AdminImport.NameErrors(FieldExtractor.ExtractTitle(doc), FieldExtractor.AddressOf(doc))
    ensures result.Created? ==> old(store.lastId) < result.id <= store.lastId && result.id in store.listings
    ensures data.title == FieldExtractor.ExtractTitle(doc) && data.address == FieldExtractor.AddressOf(doc)
    ensures result.Created? ==>
              result.id !in old(store.listings) && AdminImport.StoredFrom(store.listings[result.id], data, stripTags)
    ensures result.Created? ==> AdminImport.WarnedFrom(result.warnings, data, transfer)
  {
    data := ParsePage(doc, rates, geocode, userAgent, geoCache, available, answer);
    result := AdminImport.CreatePropertyFromParsed(store, data, stripTags, slugify, located, baseSlug, transfer);
  }

  /** One file of `property_import_html`: its entry in `errors`, or what goes into
      `created`. */
  method ImportFile(store: Store, u: Upload, rates: PriceNormalizer.Rates, geocode: bool,
                    geoCache: AddressGeocoder.GeocodeCache, userAgent: string, available: bool,
                    answer: string -> AddressGeocoder.Answer, stripTags: string -> string,
                    slugify: string -> string, located: Option<(real, real)>,
                    baseSlug: string, transfer: string -> ImageTransfer.Transfer)
    returns (entry: seq<FileError>, made: Option<FileCreated>)
    requires store.Valid() && geoCache.Valid()
    modifies store, geoCache
    ensures store.Valid() && geoCache.Valid()
    ensures store.lastId >= old(store.lastId)
    ensures forall k :: k in old(store.listings) ==> k in store.listings && store.listings[k] == old(store.listings)[k]
    ensures entry == FileEntry(u)
    ensures made.Some? <==> entry == []
    ensures made.Some? ==> old(store.lastId) < made.value.id <= store.lastId && made.value.id in store.listings
                           && made.value.title == store.listings[made.value.id].title
  {
    if u.content.NotUtf8? {
      return [Unreadable(u.name)], None;
    }
    var result, _ := ImportPage(store, u.content.doc, rates, geocode, geoCache, userAgent, available, answer,
                             stripTags, slugify, located, baseSlug, transfer);
    if result.Rejected? {
      entry, made := [InvalidFile(u.name, result.errors)], None;
    } else {
      entry, made := [], Some(FileCreated(result.id, store.listings[result.id].title, result.warnings));
    }
  }

  /** The loop of `property_import_html` over the files, with the rates already fetched. */
  method ImportFiles(store: Store, files: seq<Upload>, rates: PriceNormalizer.Rates, geocode: bool,
                     geoCache: AddressGeocoder.GeocodeCache, userAgent: string, available: bool,
                     answer: string -> AddressGeocoder.Answer, stripTags: string -> string,
                     slugify: string -> string, located: nat -> Option<(real, real)>,
                     baseSlug: nat -> string, transfer: string -> ImageTransfer.Transfer)
    returns (created: seq<FileCreated>, errors: seq<FileError>)
    requires store.Valid() && geoCache.Valid()
    modifies store, geoCache
    ensures store.Valid() && geoCache.Valid()
    ensures errors == Flatten(Entries(files)) && |created| == ImportedCount(Entries(files))
    ensures forall k :: 0 <= k < |created| ==>
              created[k].id in store.listings && created[k].id !in old(store.listings)
              && created[k].title == store.listings[created[k].id].title
    ensures forall j, k :: 0 <= j < k < |created| ==> created[j].id < created[k].id
  {
    ghost var es := Entries(files);
    ghost var before := store.listings;
    created := [];
    errors := [];
    var i := 0;
    while i < |files|
      invariant 0 <= i <= |files|
      invariant store.Valid() && geoCache.Valid()
      invariant errors == Flatten(es[..i]) && |created| == ImportedCount(es[..i])
      invariant Extends(before, store.listings)
      invariant CreatedIn(created, store.listings, store.lastId, before)
    {
      created, errors := ImportNext(store, files, i, created, errors, before, rates, geocode, geoCache, userAgent,
                                    available, answer, stripTags, slugify, located(i), baseSlug(i), transfer);
      i := i + 1;
    }
    assert es[..i] == es;
  }

  /** One turn of the loop of `property_import_html`: the i-th file is imported and its
      entry or listing recorded. */
  method ImportNext(store: Store, files: seq<Upload>, i: nat, created: seq<FileCreated>, errors: seq<FileError>,
                    ghost before: map<nat, Listing>, rates: PriceNormalizer.Rates, geocode: bool,
                    geoCache: AddressGeocoder.GeocodeCache, userAgent: string, available: bool,
                    answer: string -> AddressGeocoder.Answer, stripTags: string -> string,
                    slugify: string -> string, located: Option<(real, real)>,
                    baseSlug: string, transfer: string -> ImageTransfer.Transfer)
    returns (created': seq<FileCreated>, errors': seq<FileError>)
    requires i < |files| && store.Valid() && geoCache.Valid()
    requires errors == Flatten(Entries(files)[..i]) && |created| == ImportedCount(Entries(files)[..i])
    requires Extends(before, store.listings) && CreatedIn(created, store.listings, store.lastId, before)
    modifies store, geoCache
    ensures store.Valid() && geoCache.Valid()
    ensures errors' == Flatten(Entries(files)[..i + 1]) && |created'| == ImportedCount(Entries(files)[..i + 1])
    ensures Extends(before, store.listings) && CreatedIn(created', store.listings, store.lastId, before)
  {
    FlattenSnoc(Entries(files), i);
    ghost var listings, lastId := store.listings, store.lastId;
    var entry, made := ImportFile(store, files[i], rates, geocode, geoCache, userAgent, available, answer,
                                  stripTags, slugify, located, baseSlug, transfer);
    errors' := errors + entry;
    CreatedKept(created, listings, store.listings, lastId, store.lastId, before);
    created' := created;
    if made.Some? {
      CreatedAppend(created, made.value, store.listings, lastId, store.lastId, before);
      created' := created + [made.value];
    }
  }

  /** Every stored row of `before` is still there, unchanged, in `after`. */
  ghost predicate Extends(before: map<nat, Listing>, after: map<nat, Listing>) {
    forall id :: id in before ==> id in after && after[id] == before[id]
  }

  /** The `created` list names new rows, in increasing order, with their stored titles. */
  ghost predicate CreatedIn(created: seq<FileCreated>, listings: map<nat, Listing>, lastId: nat,
                            before: map<nat, Listing>) {
    (forall k :: 0 <= k < |created| ==>
       created[k].id in listings && created[k].id !in before
       && created[k].title == listings[created[k].id].title && created[k].id <= lastId)
    && (forall j, k :: 0 <= j < k < |created| ==> created[j].id < created[k].id)
  }

  lemma CreatedKept(created: seq<FileCreated>, listings: map<nat, Listing>, listings': map<nat, Listing>,
                    lastId: nat, lastId': nat, before: map<nat, Listing>)
    requires CreatedIn(created, listings, lastId, before)
    requires Extends(listings, listings') && lastId <= lastId'
    ensures CreatedIn(created, listings', lastId', before)
  {
  }

  lemma CreatedAppend(created: seq<FileCreated>, made: FileCreated, listings: map<nat, Listing>,
                      lastId: nat, lastId': nat, before: map<nat, Listing>)
    requires CreatedIn(created, listings, lastId, before)
    requires forall id :: id in before ==> id <= lastId
    requires lastId < made.id <= lastId' && made.id in listings && made.title == listings[made.id].title
    requires forall k :: 0 <= k < |created| ==> created[k].id <= lastId
    ensures CreatedIn(created + [made], listings, lastId', before)
  {
  }

  /** `property_import_html` once the caller passed the staff guard: without files the
      request is refused; otherwise the exchange rates are asked for once and each file is
      read, parsed and imported. `located(i)` and `baseSlug(i)` stand for the geocoder's
      answer and the random slug of the i-th file's save. */
  method PropertyImportHtml(store: Store, files: seq<Upload>, geocodeFlag: Option<string>,
                            rateCache: ExchangeRates.RateCache, bank: ExchangeRates.Response,
                            geoCache: AddressGeocoder.GeocodeCache, userAgent: string, available: bool,
                            answer: string -> AddressGeocoder.Answer, stripTags: string -> string,
                            slugify: string -> string, located: nat -> Option<(real, real)>,
                            baseSlug: nat -> string, transfer: string -> ImageTransfer.Transfer)
    returns (outcome: HtmlOutcome)
    requires store.Valid() && rateCache.Valid() && geoCache.Valid()
    modifies store, rateCache, geoCache
    ensures store.Valid() && rateCache.Valid() && geoCache.Valid()
    ensures outcome.NoFiles? <==> files == []
    ensures files == [] ==> store.lastId == old(store.lastId) && store.listings == old(store.listings)
                            && rateCache.entry == old(rateCache.entry)
    ensures outcome.HtmlDone? ==>
              outcome.errors == Flatten(Entries(files)) && |outcome.created| == ImportedCount(Entries(files))
              && forall k :: 0 <= k < |outcome.created| ==>
                   outcome.created[k].id in store.listings && outcome.created[k].id !in old(store.listings)
                   && outcome.created[k].title == store.listings[outcome.created[k].id].title
    ensures outcome.HtmlDone? ==>
              forall j, k :: 0 <= j < k < |outcome.created| ==> outcome.created[j].id < outcome.created[k].id
  {
    if files == [] {
      return NoFiles;
    }
    var geocode := geocodeFlag.Some? && geocodeFlag.value in {"1", "true", "on"};
    var rates := rateCache.GetExchangeRates(false, bank);
    var created, errors := ImportFiles(store, files, rates, geocode, geoCache, userAgent, available, answer,
                                       stripTags, slugify, located, baseSlug, transfer);
    outcome := HtmlDone(created, errors);
  }

  // ---------------------------------------------------------------- one page link

  const NoUrlMessage := "Поле 'url' обов'язкове."

  /** What downloading the page brings: a request error, or the page. */
  datatype Download = DownloadError(reason: string) | Downloaded(doc: Doc)

  datatype LinkOutcome =
    | LinkInvalidJson                    // 400
    | LinkRaises                         // an exception escapes the view
    | NoUrl                              // 400
    | DownloadFailed(reason: string)     // 400
    | LinkRejected(errors: Errors)       // 400
    | LinkCreated(id: nat, title: string, warnings: seq<string>)   // 201

  function LinkStatus(o: LinkOutcome): int {
    match o
    case LinkRaises => 500
    case LinkCreated(_, _, _) => 201
    case _ => 400
  }

  /** `(payload.get("url") or "").strip()`: `None` when a truthy non-string makes
      `.strip()` raise. */
  function LinkUrl(m: map<string, Value>): (r: Option<string>)
    ensures !Truthy(Get(m, "url")) ==> r == Some("")
    ensures Get(m, "url").Str? ==> r == Some(Strip(Get(m, "url").s))
  {
    var v := Get(m, "url");
    if !Truthy(v) then Some("")
    else if v.Str? then Some(Strip(v.s))
    else None
  }

  /** `property_import_link` once the caller passed the staff guard; `download(url)` is
      the outcome of the GET request, and the rates are asked for only after it
      succeeded. */
  method PropertyImportLink(store: Store, payload: Value, download: string -> Download,
                            rateCache: ExchangeRates.RateCache, bank: ExchangeRates.Response,
                            geoCache: AddressGeocoder.GeocodeCache, userAgent: string, available: bool,
                            answer: string -> AddressGeocoder.Answer, stripTags: string -> string,
                            slugify: string -> string, located: Option<(real, real)>,
                            baseSlug: string, transfer: string -> ImageTransfer.Transfer)
    returns (outcome: LinkOutcome)
    requires store.Valid() && rateCache.Valid() && geoCache.Valid()
    modifies store, rateCache, geoCache
    ensures store.Valid() && rateCache.Valid() && geoCache.Valid()
    ensures outcome == LinkInvalidJson <==> payload == Null
    ensures outcome == LinkRaises <==> payload != Null && (!payload.Obj? || LinkUrl(payload.fields).None?)
    ensures outcome == NoUrl <==> payload.Obj? && LinkUrl(payload.fields) == Some("")
    ensures outcome.DownloadFailed? || outcome.LinkRejected? || outcome.LinkCreated? ==>
              payload.Obj? && LinkUrl(payload.fields).Some? && LinkUrl(payload.fields).value != ""
    ensures outcome.DownloadFailed? ==>
              download(LinkUrl(payload.fields).value) == DownloadError(outcome.reason)
    ensures outcome.LinkRejected? || outcome.LinkCreated? ==>
              download(LinkUrl(payload.fields).value).Downloaded?
    ensures outcome.LinkRejected? ==>
              var doc := download(LinkUrl(payload.fields).value).doc;
              (FieldExtractor.ExtractTitle(doc) == "" || FieldExtractor.AddressOf(doc) == "")
              && outcome.errors == AdminImport.NameErrors(FieldExtractor.ExtractTitle(doc), FieldExtractor.AddressOf(doc))
    ensures outcome.LinkCreated? ==>
              outcome.id in store.listings && outcome.id !in old(store.listings)
              && outcome.title == store.listings[outcome.id].title
    ensures !outcome.LinkCreated? && !outcome.LinkRejected? ==>
              store.listings == old(store.listings) && store.lastId == old(store.lastId)
  {
    if payload == Null {
      return LinkInvalidJson;
    }
    if !payload.Obj? {
      return LinkRaises;
    }
    var url := LinkUrl(payload.fields);
    if url.None? {
      return LinkRaises;
    }
    if url.value == "" {
      return NoUrl;
    }
    var geocode := Truthy(Get(payload.fields, "geocode"));
    var page := download(url.value);
    if page.DownloadError? {
      return DownloadFailed(page.reason);
    }
    outcome := ImportLinkedPage(store, page.doc, rateCache, bank, geocode, geoCache, userAgent, available, answer,
                                stripTags, slugify, located, baseSlug, transfer);
  }

  /** `property_import_link` once the page has downloaded: the rates are fetched, the page
      parsed and the listing created or rejected. */
  method ImportLinkedPage(store: Store, doc: Doc, rateCache: ExchangeRates.RateCache, bank: ExchangeRates.Response,
                          geocode: bool, geoCache: AddressGeocoder.GeocodeCache, userAgent: string, available: bool,
                          answer: string -> AddressGeocoder.Answer, stripTags: string -> string,
                          slugify: string -> string, located: Option<(real, real)>,
                          baseSlug: string, transfer: string -> ImageTransfer.Transfer)
    returns (outcome: LinkOutcome)
    requires store.Valid() && rateCache.Valid() && geoCache.Valid()
    modifies store, rateCache, geoCache
    ensures store.Valid() && rateCache.Valid() && geoCache.Valid()
    ensures outcome.LinkRejected? || outcome.LinkCreated?
    ensures outcome.LinkRejected? <==> FieldExtractor.ExtractTitle(doc) == "" || FieldExtractor.AddressOf(doc) == ""
    ensures outcome.LinkRejected? ==>
              outcome.errors == AdminImport.NameErrors(FieldExtractor.ExtractTitle(doc), FieldExtractor.AddressOf(doc))
    ensures outcome.LinkCreated? ==>
              outcome.id in store.listings && outcome.id !in old(store.listings)
              && outcome.title == store.listings[outcome.id].title
  {
    var rates := rateCache.GetExchangeRates(false, bank);
    var result, _ := ImportPage(store, doc, rates, geocode, geoCache, userAgent, available, answer,
                                stripTags, slugify, located, baseSlug, transfer);
    if result.Rejected? {
      return LinkRejected(result.errors);
    }
    outcome := LinkCreated(result.id, store.listings[result.id].title, result.warnings);
  }
}
