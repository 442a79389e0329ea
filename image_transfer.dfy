/**
 * Best-effort image transfer after an import: the main image is tried first, then the
 * gallery in order; each URL that cannot be fetched or stored adds one warning and the
 * loop goes on. The admin API version (house/api/views.py, lines 130-172) skips URLs
 * it has already tried; the service version (house/services/importer.py, lines 63-101)
 * does not. Both flag at most one new image as main, and none when the listing already
 * has one. What happens to each URL is a parameter.
 */
module ImageTransfer {
  import opened Models

  /** The outcome of `requests.get(url)` followed by `images.create(...)`. */
  datatype Transfer = Fetched | FetchFailed(reason: string) | StoreFailed(reason: string)

  /** `image_pairs`: the main image (when non-empty) flagged as wanted main, then the gallery. */
  function Pairs(mainImage: string, gallery: seq<string>): (r: seq<(string, bool)>)
    ensures |r| == |gallery| + (if mainImage != "" then 1 else 0)
    ensures forall i :: 0 <= i < |r| ==> (r[i].1 <==> mainImage != "" && i == 0)
    ensures mainImage != "" ==> r[0] == (mainImage, true)
  {
    (if mainImage != "" then [(mainImage, true)] else []) + seq(|gallery|, i requires 0 <= i < |gallery| => (gallery[i], false))
  }

  /** The loop's variables: warnings, the uploads made (URL and main flag), the URLs
      already tried and `has_main`. */
  datatype Progress = Progress(warnings: seq<string>, created: seq<(string, bool)>, seen: set<string>, hasMain: bool)

  /** One iteration. */
  function Step(s: Progress, pair: (string, bool), dedup: bool, transfer: string -> Transfer): Progress {
    var (url, wantsMain) := pair;
    if url == "" || (dedup && url in s.seen) then s
    else
      var s1 := if dedup then s.(seen := s.seen + {url}) else s;
      match transfer(url)
      case Fetched => s1.(created := s1.created + [(url, wantsMain && !s1.hasMain)], hasMain := s1.hasMain || wantsMain)
      case FetchFailed(m) => s1.(warnings := s1.warnings + [url + ": " + m])
      case StoreFailed(m) => s1.(warnings := s1.warnings + [url + ": " + m])
  }

  /** The loop from state `s` over `pairs`. */
  function Run(s: Progress, pairs: seq<(string, bool)>, dedup: bool, transfer: string -> Transfer): Progress
    decreases |pairs|
  {
    if pairs == [] then s else Run(Step(s, pairs[0], dedup, transfer), pairs[1..], dedup, transfer)
  }

  /** The state before the loop. */
  function Start(hasMain: bool): Progress { Progress([], [], {}, hasMain) }

  /** How many uploads are flagged main. */
  function MainCount(created: seq<(string, bool)>): nat {
    if created == [] then 0 else (if created[|created| - 1].1 then 1 else 0) + MainCount(created[..|created| - 1])
  }

  /** The main-flag bookkeeping: no flagged upload while `has_main` is false, and at most
      one flagged upload, none at all when the listing started with a main image. */
  predicate MainsKept(s: Progress, hadMain: bool) {
    (!s.hasMain ==> MainCount(s.created) == 0)
    && MainCount(s.created) <= (if hadMain then 0 else 1)
    && (hadMain ==> s.hasMain)
  }

  lemma StepKeepsMains(s: Progress, pair: (string, bool), dedup: bool, transfer: string -> Transfer, hadMain: bool)
    requires MainsKept(s, hadMain)
    ensures MainsKept(Step(s, pair, dedup, transfer), hadMain)
  {
    var next := Step(s, pair, dedup, transfer);
    var url := pair.0;
    if url != "" && !(dedup && url in s.seen) && transfer(url).Fetched? {
      var s1 := if dedup then s.(seen := s.seen + {url}) else s;
      var c := s1.created + [(url, pair.1 && !s1.hasMain)];
      assert c[..|c| - 1] == s1.created;
      assert next.created == c;
    }
  }

  lemma {:induction false} RunKeepsMains(s: Progress, pairs: seq<(string, bool)>, dedup: bool,
                                         transfer: string -> Transfer, hadMain: bool)
    requires MainsKept(s, hadMain)
    ensures MainsKept(Run(s, pairs, dedup, transfer), hadMain)
    decreases |pairs|
  {
    if pairs != [] {
      StepKeepsMains(s, pairs[0], dedup, transfer, hadMain);
      RunKeepsMains(Step(s, pairs[0], dedup, transfer), pairs[1..], dedup, transfer, hadMain);
    }
  }

  /** At most one image becomes main, and none if the listing already had one. */
  lemma AtMostOneMain(pairs: seq<(string, bool)>, dedup: bool, transfer: string -> Transfer, hadMain: bool)
    ensures MainCount(Run(Start(hadMain), pairs, dedup, transfer).created) <= (if hadMain then 0 else 1)
  {
    RunKeepsMains(Start(hadMain), pairs, dedup, transfer, hadMain);
  }

  /** The non-empty URLs of `pairs`. */
  function Urls(pairs: seq<(string, bool)>): set<string> {
    set i | 0 <= i < |pairs| && pairs[i].0 != "" :: pairs[i].0
  }

  /** How many pairs carry a non-empty URL. */
  function Tries(pairs: seq<(string, bool)>): nat
    decreases |pairs|
  {
    if pairs == [] then 0 else (if pairs[0].0 != "" then 1 else 0) + Tries(pairs[1..])
  }

  lemma UrlsCons(pairs: seq<(string, bool)>)
    requires pairs != []
    ensures Urls(pairs) == (if pairs[0].0 != "" then {pairs[0].0} else {}) + Urls(pairs[1..])
  {
    var url := pairs[0].0;
    forall u | u in Urls(pairs) ensures u in (if url != "" then {url} else {}) + Urls(pairs[1..]) {
      var i :| 0 <= i < |pairs| && pairs[i].0 != "" && pairs[i].0 == u;
      if i > 0 { assert pairs[1..][i - 1] == pairs[i]; }
    }
    forall u | u in Urls(pairs[1..]) ensures u in Urls(pairs) {
      var i :| 0 <= i < |pairs[1..]| && pairs[1..][i].0 != "" && pairs[1..][i].0 == u;
      assert pairs[i + 1] == pairs[1..][i];
    }
  }

  /** The bookkeeping of the de-duplicating loop: one outcome per URL seen, and every
      upload a distinct seen URL. */
  predicate DedupKept(s: Progress) {
    |s.warnings| + |s.created| == |s.seen|
    && (forall i :: 0 <= i < |s.created| ==> s.created[i].0 in s.seen)
    && (forall i, j :: 0 <= i < j < |s.created| ==> s.created[i].0 != s.created[j].0)
  }

  lemma StepKeepsDedup(s: Progress, pair: (string, bool), transfer: string -> Transfer)
    requires DedupKept(s)
    ensures DedupKept(Step(s, pair, true, transfer))
    ensures Step(s, pair, true, transfer).seen == s.seen + (if pair.0 != "" then {pair.0} else {})
  {
    var url := pair.0;
    if url != "" && url !in s.seen {
      assert |s.seen + {url}| == |s.seen| + 1;
    }
  }

  /** With de-duplication every distinct non-empty URL is tried exactly once, and each
      try ends as exactly one upload or exactly one warning; no URL is uploaded twice. */
  lemma {:induction false} DedupOutcomes(s: Progress, pairs: seq<(string, bool)>, transfer: string -> Transfer)
    requires DedupKept(s)
    ensures DedupKept(Run(s, pairs, true, transfer))
    ensures Run(s, pairs, true, transfer).seen == s.seen + Urls(pairs)
    decreases |pairs|
  {
    if pairs != [] {
      StepKeepsDedup(s, pairs[0], transfer);
      UrlsCons(pairs);
      DedupOutcomes(Step(s, pairs[0], true, transfer), pairs[1..], transfer);
    }
  }

  /** The admin API loop: one outcome per distinct non-empty URL, and no URL twice. */
  lemma ApiTriesEachUrlOnce(pairs: seq<(string, bool)>, transfer: string -> Transfer, hadMain: bool)
    ensures var r := Run(Start(hadMain), pairs, true, transfer);
            |r.warnings| + |r.created| == |Urls(pairs)|
            && forall i, j :: 0 <= i < j < |r.created| ==> r.created[i].0 != r.created[j].0
  {
    DedupOutcomes(Start(hadMain), pairs, transfer);
  }

  /** Without de-duplication every pair with a non-empty URL is one try and one outcome. */
  lemma {:induction false} ServiceOutcomes(s: Progress, pairs: seq<(string, bool)>, transfer: string -> Transfer)
    ensures var r := Run(s, pairs, false, transfer);
            |r.warnings| + |r.created| == |s.warnings| + |s.created| + Tries(pairs)
    decreases |pairs|
  {
    if pairs != [] {
      ServiceOutcomes(Step(s, pairs[0], false, transfer), pairs[1..], transfer);
    }
  }

  /** The service loop tries a repeated URL again: a gallery holding the same fetchable
      URL twice uploads it twice. */
  lemma ServiceRepeatsUrls(url: string, transfer: string -> Transfer)
    requires url != "" && transfer(url) == Fetched
    ensures |Run(Start(false), Pairs("", [url, url]), false, transfer).created| == 2
    ensures |Run(Start(false), Pairs("", [url, url]), true, transfer).created| == 1
  {
    var pairs := Pairs("", [url, url]);
    assert pairs == [(url, false), (url, false)];
    assert pairs[1..] == [(url, false)];
    assert pairs[1..][1..] == [];
    var s1 := Step(Start(false), (url, false), false, transfer);
    assert s1.created == [(url, false)];
    assert Step(s1, (url, false), false, transfer).created == [(url, false), (url, false)];
    assert Run(Start(false), pairs, false, transfer) == Run(s1, pairs[1..], false, transfer);
    var s2 := Step(s1, (url, false), false, transfer);
    assert Run(s1, pairs[1..], false, transfer) == Run(s2, [], false, transfer) == s2;
    var d1 := Step(Start(false), (url, false), true, transfer);
    assert d1.seen == {url} && d1.created == [(url, false)];
    assert Step(d1, (url, false), true, transfer) == d1;
    assert Run(Start(false), pairs, true, transfer) == Run(d1, pairs[1..], true, transfer);
    assert Run(d1, pairs[1..], true, transfer) == Run(d1, [], true, transfer) == d1;
  }

  /** Each warning names a URL of the input whose transfer failed, followed by the reason. */
  lemma {:induction false} WarningsName(s: Progress, pairs: seq<(string, bool)>, dedup: bool, transfer: string -> Transfer)
    ensures var r := Run(s, pairs, dedup, transfer);
            |s.warnings| <= |r.warnings| && r.warnings[..|s.warnings|] == s.warnings
            && forall k :: |s.warnings| <= k < |r.warnings| ==>
                 exists i :: 0 <= i < |pairs| && !transfer(pairs[i].0).Fetched?
                             && r.warnings[k] == pairs[i].0 + ": " + transfer(pairs[i].0).reason
    decreases |pairs|
  {
    if pairs != [] {
      var next := Step(s, pairs[0], dedup, transfer);
      WarningsName(next, pairs[1..], dedup, transfer);
      var r := Run(next, pairs[1..], dedup, transfer);
      assert r.warnings[..|s.warnings|] == r.warnings[..|next.warnings|][..|s.warnings|];
      forall k | |s.warnings| <= k < |r.warnings|
        ensures exists i :: 0 <= i < |pairs| && !transfer(pairs[i].0).Fetched?
                            && r.warnings[k] == pairs[i].0 + ": " + transfer(pairs[i].0).reason
      {
        if k < |next.warnings| {
          assert r.warnings[k] == next.warnings[k];
          assert 0 < |pairs| && !transfer(pairs[0].0).Fetched?
                 && r.warnings[k] == pairs[0].0 + ": " + transfer(pairs[0].0).reason;
        } else {
          var i :| 0 <= i < |pairs[1..]| && !transfer(pairs[1..][i].0).Fetched?
                   && r.warnings[k] == pairs[1..][i].0 + ": " + transfer(pairs[1..][i].0).reason;
          assert pairs[1..][i] == pairs[i + 1];
        }
      }
    }
  }

  /** `images.filter(is_main=True).exists()`. */
  predicate HasMainImage(images: seq<ImageRow>, property: nat) {
    exists x :: x in images && x.property == property && x.isMain
  }

  // ---------------------------------------------------------------- the image table

  /** The rows the uploads become: the k-th is saved under id `lastId + k + 1` at position
      `top + k + 1`, after the listing's images. */
  function Uploaded(created: seq<(string, bool)>, property: nat, lastId: nat, top: nat): seq<ImageRow> {
    seq(|created|, k requires 0 <= k < |created| =>
      ImageRow(lastId + k + 1, property, created[k].0, created[k].1, top + k + 1))
  }

  /** Clearing the main flags of a listing that has none changes nothing. */
  lemma ClearMainNoMain(images: seq<ImageRow>, property: nat)
    requires forall i :: 0 <= i < |images| && images[i].property == property ==> !images[i].isMain
    ensures ClearMain(images, property) == images
  {
    var r := ClearMain(images, property);
    assert forall i :: 0 <= i < |r| ==> r[i] == images[i];
  }

  /** A row with a fresh id is appended. */
  lemma {:induction false} UpsertFresh(images: seq<ImageRow>, row: ImageRow)
    requires forall i :: 0 <= i < |images| ==> images[i].id != row.id
    ensures Upsert(images, row) == images + [row]
  {
    if images != [] {
      UpsertFresh(images[1..], row);
      assert [images[0]] + (images[1..] + [row]) == images + [row];
    }
  }

  /** A row placed above every position of its listing holds the new largest position. */
  lemma MaxSortOrderSnoc(images: seq<ImageRow>, row: ImageRow)
    requires row.sortOrder >= MaxSortOrder(images, row.property)
    ensures MaxSortOrder(images + [row], row.property) == row.sortOrder
  {
    var all := images + [row];
    var r := MaxSortOrder(all, row.property);
    assert all[|images|] == row;
    if r != 0 {
      var i :| 0 <= i < |all| && all[i].property == row.property && all[i].sortOrder == r;
      if i < |images| { assert all[i] == images[i]; }
    }
  }

  /** A flagged upload only happens while the listing has no main image. */
  lemma {:induction false} MainCountZero(c: seq<(string, bool)>)
    requires MainCount(c) == 0
    ensures forall k :: 0 <= k < |c| ==> !c[k].1
    decreases |c|
  {
    if c != [] {
      MainCountZero(c[..|c| - 1]);
      forall k | 0 <= k < |c| ensures !c[k].1 {
        if k < |c| - 1 { assert c[k] == c[..|c| - 1][k]; }
      }
    }
  }

  lemma NoMainYet(base: seq<ImageRow>, c: seq<(string, bool)>, property: nat, baseId: nat, top: nat)
    requires !HasMainImage(base, property) && MainCount(c) == 0
    ensures var images := base + Uploaded(c, property, baseId, top);
            forall i :: 0 <= i < |images| && images[i].property == property ==> !images[i].isMain
  {
    MainCountZero(c);
    var images := base + Uploaded(c, property, baseId, top);
    forall i | 0 <= i < |images| && images[i].property == property ensures !images[i].isMain {
      if i < |base| {
        assert images[i] == base[i] && base[i] in base;
      } else {
        assert images[i] == Uploaded(c, property, baseId, top)[i - |base|];
      }
    }
  }

  /** One more upload adds one row at the end. */
  lemma UploadedSnoc(c: seq<(string, bool)>, property: nat, baseId: nat, top: nat, url: string, flag: bool)
    ensures Uploaded(c + [(url, flag)], property, baseId, top)
            == Uploaded(c, property, baseId, top) + [ImageRow(baseId + |c| + 1, property, url, flag, top + |c| + 1)]
  {
  }

  /** A row above every id is fresh. */
  lemma FreshAbove(images: seq<ImageRow>, n: nat, row: ImageRow)
    requires IdsAtMost(images, n) && row.id == n + 1
    ensures forall i :: 0 <= i < |images| ==> images[i].id != row.id
  {
  }

  /** Saving one more upload appends its row after the earlier ones. */
  lemma SaveUploadStep(base: seq<ImageRow>, c: seq<(string, bool)>, property: nat, baseId: nat, top: nat,
                       url: string, flag: bool)
    requires var images := base + Uploaded(c, property, baseId, top);
             IdsAtMost(images, baseId + |c|) && MaxSortOrder(images, property) == top + |c|
             && (flag ==> forall i :: 0 <= i < |images| && images[i].property == property ==> !images[i].isMain)
    ensures var images := base + Uploaded(c, property, baseId, top);
            var after := base + Uploaded(c + [(url, flag)], property, baseId, top);
            SavedImages(images, ImageRow(baseId + |c| + 1, property, url, flag, 0)) == after
            && MaxSortOrder(after, property) == top + |c| + 1
  {
    var images := base + Uploaded(c, property, baseId, top);
    var row := ImageRow(baseId + |c| + 1, property, url, flag, 0);
    var placed := ImageRow(baseId + |c| + 1, property, url, flag, top + |c| + 1);
    SavedUpload(images, row, placed, baseId + |c|);
    UploadedSnoc(c, property, baseId, top, url, flag);
    assert images + [placed] == base + Uploaded(c + [(url, flag)], property, baseId, top);
    MaxSortOrderSnoc(images, placed);
  }

  lemma SavedUpload(images: seq<ImageRow>, row: ImageRow, placed: ImageRow, n: nat)
    requires IdsAtMost(images, n) && row.id == n + 1 && row.sortOrder == 0
    requires placed == row.(sortOrder := MaxSortOrder(images, row.property) + 1)
    requires row.isMain ==> forall i :: 0 <= i < |images| && images[i].property == row.property ==> !images[i].isMain
    ensures SavedImages(images, row) == images + [placed]
  {
    if row.isMain { ClearMainNoMain(images, row.property); }
    assert PlacedImage(images, row) == placed;
    FreshAbove(images, n, placed);
    UpsertFresh(images, placed);
  }

  /** Both import loops. Each upload is saved through `PropertyImage.save`: the table keeps
      every image it had and gains the uploads in order, after the listing's images. */
  method ImportImages(store: Store, property: nat, mainImage: string, gallery: seq<string>, dedup: bool,
                      transfer: string -> Transfer) returns (warnings: seq<string>)
    requires store.Valid()
    modifies store
    ensures store.Valid()
    ensures var r := Run(Start(HasMainImage(old(store.images), property)), Pairs(mainImage, gallery), dedup, transfer);
            warnings == r.warnings && store.lastId == old(store.lastId) + |r.created|
            && store.images == old(store.images) + Uploaded(r.created, property, old(store.lastId),
                                                            MaxSortOrder(old(store.images), property))
    ensures HasMainImage(old(store.images), property) ==>
              forall k :: |old(store.images)| <= k < |store.images| ==> !store.images[k].isMain
    ensures forall j, k :: |old(store.images)| <= j < k < |store.images| ==>
              !(store.images[j].isMain && store.images[k].isMain)
    ensures store.types == old(store.types) && store.deals == old(store.deals) && store.listings == old(store.listings)
  {
    var pairs := Pairs(mainImage, gallery);
    var hasMain := MainsOfListing(store.images, property) != [];
    assert hasMain == HasMainImage(store.images, property);
    ghost var base, baseId := store.images, store.lastId;
    ghost var top := MaxSortOrder(base, property);
    ghost var goal := Run(Start(hasMain), pairs, dedup, transfer);
    var s := Start(hasMain);
    assert base + Uploaded(s.created, property, baseId, top) == base;
    var i := 0;
    while i < |pairs|
      invariant 0 <= i <= |pairs|
      invariant store.Valid()
      invariant Run(s, pairs[i..], dedup, transfer) == goal
      invariant store.lastId == baseId + |s.created|
      invariant store.images == base + Uploaded(s.created, property, baseId, top)
      invariant MaxSortOrder(store.images, property) == top + |s.created|
      invariant MainsKept(s, hasMain)
      invariant store.types == old(store.types) && store.deals == old(store.deals) && store.listings == old(store.listings)
    {
      assert pairs[i..][1..] == pairs[i + 1..];
      s := TransferOne(store, property, s, pairs[i], dedup, transfer, base, baseId, top, hasMain);
      i := i + 1;
    }
    warnings := s.warnings;
    NewMainsAtMostOne(store.images, |base|, property, base);
  }

  /** In a table with one main image per listing, new rows of a listing add at most one
      main image, and none when the listing already had one. */
  lemma NewMainsAtMostOne(images: seq<ImageRow>, n: nat, property: nat, base: seq<ImageRow>)
    requires OneMainEach(images) && n <= |images| && images[..n] == base
    requires forall k :: n <= k < |images| ==> images[k].property == property
    ensures HasMainImage(base, property) ==> forall k :: n <= k < |images| ==> !images[k].isMain
    ensures forall j, k :: n <= j < k < |images| ==> !(images[j].isMain && images[k].isMain)
  {
    if HasMainImage(base, property) {
      var x :| x in base && x.property == property && x.isMain;
      var i :| 0 <= i < n && base[i] == x;
      assert images[i] == x;
    }
  }

  /** One turn of the loop: a URL that is empty or (with de-duplication) already tried is
      skipped; otherwise it is fetched and stored as a new image row, flagged main when
      it is the wanted main image and the listing has none yet, or it adds a warning. */
  method TransferOne(store: Store, property: nat, s: Progress, pair: (string, bool), dedup: bool,
                     transfer: string -> Transfer, ghost base: seq<ImageRow>, ghost baseId: nat,
                     ghost top: nat, ghost hadMain: bool) returns (next: Progress)
    requires store.Valid() && store.lastId == baseId + |s.created|
    requires store.images == base + Uploaded(s.created, property, baseId, top)
    requires MaxSortOrder(store.images, property) == top + |s.created|
    requires MainsKept(s, hadMain) && hadMain == HasMainImage(base, property)
    modifies store
    ensures store.Valid()
    ensures next == Step(s, pair, dedup, transfer)
    ensures store.lastId == baseId + |next.created|
    ensures store.images == base + Uploaded(next.created, property, baseId, top)
    ensures MaxSortOrder(store.images, property) == top + |next.created|
    ensures MainsKept(next, hadMain)
    ensures store.types == old(store.types) && store.deals == old(store.deals) && store.listings == old(store.listings)
  {
    StepKeepsMains(s, pair, dedup, transfer, hadMain);
    var (url, wantsMain) := pair;
    next := s;
    if url != "" && !(dedup && url in s.seen) {
      if dedup {
        next := next.(seen := next.seen + {url});
      }
      var outcome := transfer(url);
      if outcome.Fetched? {
        var flag := wantsMain && !next.hasMain;
        if flag { NoMainYet(base, s.created, property, baseId, top); }
        SaveUpload(store, property, url, flag, base, baseId, top, s.created);
        next := next.(created := s.created + [(url, flag)], hasMain := next.hasMain || wantsMain);
      } else {
        next := next.(warnings := next.warnings + [url + ": " + outcome.reason]);
      }
    }
  }

  /** `property.images.create(...)` for one upload. */
  method SaveUpload(store: Store, property: nat, url: string, flag: bool, ghost base: seq<ImageRow>,
                    ghost baseId: nat, ghost top: nat, ghost c: seq<(string, bool)>)
    requires store.Valid() && store.lastId == baseId + |c|
    requires store.images == base + Uploaded(c, property, baseId, top)
    requires MaxSortOrder(store.images, property) == top + |c|
    requires flag ==> forall i :: 0 <= i < |store.images| && store.images[i].property == property ==> !store.images[i].isMain
    modifies store
    ensures store.Valid() && store.lastId == baseId + |c| + 1
    ensures store.images == base + Uploaded(c + [(url, flag)], property, baseId, top)
    ensures MaxSortOrder(store.images, property) == top + |c| + 1
    ensures store.types == old(store.types) && store.deals == old(store.deals) && store.listings == old(store.listings)
  {
    ghost var images := store.images;
    ghost var after := base + Uploaded(c + [(url, flag)], property, baseId, top);
    ghost var target := ImageRow(baseId + |c| + 1, property, url, flag, 0);
    SaveUploadStep(base, c, property, baseId, top, url, flag);
    assert SavedImages(images, target) == after && MaxSortOrder(after, property) == top + |c| + 1;
    var img := ImageRow(0, property, url, flag, 0);
    var row := store.SaveImage(img, true);
    assert img.(id := row.id) == target;
  }
}
