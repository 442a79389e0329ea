/**
 * Geocoding of a listing address (house/utils/html_parser.py, lines 463-508 and 566-591):
 * the address is expanded into query variants, the variants are tried in order against
 * the geocoding service, and answers are memoised per (address, user agent) in a
 * least-recently-used cache of 256 entries that keeps failures as well.
 */
module AddressGeocoder {
  import opened Wrappers
  import opened Text
  import Coordinates

  const Country := ", Україна"
  const CacheCapacity := 256

  // ---------------------------------------------------------------- variants

  /** `candidate.strip(", ")`. */
  function Trimmed(candidate: string): string {
    StripChars(candidate, {',', ' '})
  }

  predicate MentionsUkraine(s: string) { Contains(Lower(s), "україн") }
  predicate MentionsDistrict(s: string) { Contains(Lower(s), "район") }

  /** What an `add(candidate)` call offers: the trimmed candidate, followed by it with the
      country appended when it does not name the country already; nothing when blank. */
  function Contribution(candidate: string): seq<string> {
    var c := Trimmed(candidate);
    if c == "" then [] else if MentionsUkraine(c) then [c] else [c, c + Country]
  }

  predicate NoDup(xs: seq<string>) {
    forall i, j :: 0 <= i < j < |xs| ==> xs[i] != xs[j]
  }

  /** Append each string not yet present. */
  function AppendNew(variants: seq<string>, xs: seq<string>): (r: seq<string>)
    requires NoDup(variants)
    ensures NoDup(r)
    ensures forall v :: v in r <==> v in variants || v in xs
    ensures |r| >= |variants| && r[..|variants|] == variants
    decreases |xs|
  {
    if xs == [] then variants
    else
      var next := if xs[0] in variants then variants else variants + [xs[0]];
      assert next[..|variants|] == variants;
      var r := AppendNew(next, xs[1..]);
      assert r[..|variants|] == r[..|next|][..|variants|];
      assert forall v :: v in xs <==> v == xs[0] || v in xs[1..];
      r
  }

  /** The nested `add`. */
  function Add(variants: seq<string>, candidate: string): seq<string>
    requires NoDup(variants)
  {
    AppendNew(variants, Contribution(candidate))
  }

  /** Successive `add` calls. */
  function AddAll(variants: seq<string>, candidates: seq<string>): (r: seq<string>)
    requires NoDup(variants)
    ensures NoDup(r)
    ensures |r| >= |variants| && r[..|variants|] == variants
    decreases |candidates|
  {
    if candidates == [] then variants
    else
      var next := Add(variants, candidates[0]);
      var r := AddAll(next, candidates[1..]);
      PrefixOfPrefix(r, next, variants);
      r
  }

  lemma PrefixOfPrefix(a: seq<string>, b: seq<string>, c: seq<string>)
    requires |c| <= |b| <= |a| && a[..|b|] == b && b[..|c|] == c
    ensures a[..|c|] == c
  {
    assert a[..|c|] == a[..|b|][..|c|];
  }

  /** `v` is offered by one of the candidates. */
  predicate Derived(v: string, candidates: seq<string>) {
    exists k :: 0 <= k < |candidates| && v in Contribution(candidates[k])
  }

  lemma {:induction false} AddAllMembers(variants: seq<string>, candidates: seq<string>)
    requires NoDup(variants)
    ensures forall v :: v in AddAll(variants, candidates) <==> v in variants || Derived(v, candidates)
    decreases |candidates|
  {
    if candidates != [] {
      var next := Add(variants, candidates[0]);
      AddAllMembers(next, candidates[1..]);
      assert AddAll(variants, candidates) == AddAll(next, candidates[1..]);
      forall v ensures v in AddAll(variants, candidates) <==> v in variants || Derived(v, candidates) {
        DerivedCons(v, candidates);
      }
    }
  }

  lemma DerivedCons(v: string, candidates: seq<string>)
    requires candidates != []
    ensures Derived(v, candidates) <==> v in Contribution(candidates[0]) || Derived(v, candidates[1..])
  {
    if Derived(v, candidates) {
      var k :| 0 <= k < |candidates| && v in Contribution(candidates[k]);
      if k > 0 { assert candidates[1..][k - 1] == candidates[k]; }
    }
    if Derived(v, candidates[1..]) {
      var k :| 0 <= k < |candidates[1..]| && v in Contribution(candidates[1..][k]);
      assert candidates[k + 1] == candidates[1..][k];
    }
  }

  /** `[part.strip() for part in address.split(",") if part.strip()]`. */
  function Parts(address: string): seq<string> {
    StrippedPieces(Split(address, ","))
  }

  /** `[part for part in parts if "район" not in part.lower()]`. */
  function WithoutDistrict(parts: seq<string>): (r: seq<string>)
    ensures |r| <= |parts|
    ensures forall k :: 0 <= k < |r| ==> !MentionsDistrict(r[k])
  {
    if parts == [] then []
    else (if MentionsDistrict(parts[0]) then [] else [parts[0]]) + WithoutDistrict(parts[1..])
  }

  /** The joined parts after each district part that is not the last one, from `start` on. */
  function DistrictTails(parts: seq<string>, start: nat): seq<string>
    requires start <= |parts|
    decreases |parts| - start
  {
    if start == |parts| then []
    else
      (if MentionsDistrict(parts[start]) && start + 1 < |parts| then [Join(", ", parts[start + 1..])] else [])
      + DistrictTails(parts, start + 1)
  }

  /** Every candidate `_address_variants` hands to `add`, in call order. */
  function VariantCandidates(address: string): seq<string> {
    var parts := Parts(address);
    HeadCandidates(address, parts) + DistrictTails(parts, 0)
  }

  function VariantsFrom(address: string, cands: seq<string>): (r: seq<string>)
    ensures |r| >= 1 && NoDup(r)
  {
    var v := AddAll([], cands);
    if v == [] then [address] else v
  }

  /** `_address_variants`. */
  function VariantsOf(address: string): (r: seq<string>)
    ensures |r| >= 1 && NoDup(r)
  {
    VariantsFrom(address, VariantCandidates(address))
  }

  /** The variants are exactly the trimmed candidates and their country forms, without
      repeats; with no usable candidate the address itself is the only variant. */
  lemma VariantsAreDerived(address: string)
    ensures AddAll([], VariantCandidates(address)) != [] ==>
      forall v :: v in VariantsOf(address) <==> Derived(v, VariantCandidates(address))
    ensures AddAll([], VariantCandidates(address)) == [] ==> VariantsOf(address) == [address]
  {
    AddAllMembers([], VariantCandidates(address));
  }

  /** The first variant is the trimmed, re-joined address. */
  lemma FirstVariantIsWholeAddress(address: string)
    requires Trimmed(VariantCandidates(address)[0]) != ""
    ensures VariantsOf(address)[0] == Trimmed(VariantCandidates(address)[0])
  {
    FirstAddedFirst(VariantCandidates(address));
  }

  /** The first candidate that is not blank is the first one added. */
  lemma FirstAddedFirst(cands: seq<string>)
    requires cands != [] && Trimmed(cands[0]) != ""
    ensures AddAll([], cands) != [] && AddAll([], cands)[0] == Trimmed(cands[0])
  {
    ContributionFirst(cands[0]);
    AppendNewFirst(Contribution(cands[0]));
    AddAllKeepsFirst(cands);
  }

  lemma ContributionFirst(candidate: string)
    requires Trimmed(candidate) != ""
    ensures Contribution(candidate) != [] && Contribution(candidate)[0] == Trimmed(candidate)
  {
  }

  lemma AppendNewFirst(xs: seq<string>)
    requires xs != []
    ensures AppendNew([], xs) != [] && AppendNew([], xs)[0] == xs[0]
  {
    var none: seq<string> := [];
    var next := none + [xs[0]];
    assert next == [xs[0]] && xs[0] !in none;
    assert AppendNew(none, xs) == AppendNew(next, xs[1..]);
    assert AppendNew(next, xs[1..])[..|next|] == next;
  }

  lemma AddAllKeepsFirst(cands: seq<string>)
    requires cands != [] && Add([], cands[0]) != []
    ensures AddAll([], cands) != [] && AddAll([], cands)[0] == Add([], cands[0])[0]
  {
    var first := Add([], cands[0]);
    assert AddAll([], cands) == AddAll(first, cands[1..]);
    assert AddAll([], cands)[..|first|] == first;
  }

  /** A trimmed candidate without the country name is always tried with it as well. */
  lemma CountryFormTried(address: string, k: nat)
    requires k < |VariantCandidates(address)|
    requires Trimmed(VariantCandidates(address)[k]) != ""
    requires !MentionsUkraine(Trimmed(VariantCandidates(address)[k]))
    ensures Trimmed(VariantCandidates(address)[k]) in VariantsOf(address)
    ensures Trimmed(VariantCandidates(address)[k]) + Country in VariantsOf(address)
  {
    var cands := VariantCandidates(address);
    var c := Trimmed(cands[k]);
    AddAllMembers([], cands);
    assert c in Contribution(cands[k]) && c + Country in Contribution(cands[k]);
  }

  /** The nested `add` as a step on the variant list. */
  method AddVariant(variants: seq<string>, candidate: string) returns (next: seq<string>)
    requires NoDup(variants)
    ensures next == Add(variants, candidate)
  {
    var c := Trimmed(candidate);
    if c == "" {
      return variants;
    }
    next := variants;
    if c !in next {
      next := next + [c];
    }
    assert next == AppendNew(variants, [c]) by {
      assert [c][1..] == [];
    }
    if !MentionsUkraine(c) {
      var withCountry := c + Country;
      var before := next;
      if withCountry !in next {
        next := next + [withCountry];
      }
      assert next == AppendNew(before, [withCountry]) by {
        assert [withCountry][1..] == [];
      }
      assert [c, withCountry][1..] == [withCountry];
    }
  }

  lemma {:induction false} AddAllAppend(variants: seq<string>, a: seq<string>, b: seq<string>)
    requires NoDup(variants)
    ensures AddAll(variants, a + b) == AddAll(AddAll(variants, a), b)
    decreases |a|
  {
    if a == [] {
      assert a + b == b;
    } else {
      assert (a + b)[0] == a[0] && (a + b)[1..] == a[1..] + b;
      AddAllAppend(Add(variants, a[0]), a[1..], b);
    }
  }

  lemma DistrictTailsStep(parts: seq<string>, idx: nat)
    requires idx < |parts|
    ensures DistrictTails(parts, idx)
         == (if MentionsDistrict(parts[idx]) && idx + 1 < |parts| then [Join(", ", parts[idx + 1..])] else [])
            + DistrictTails(parts, idx + 1)
  {
  }

  /** The loop of `_address_variants` over the parts: after each district part that is
      not the last one, the remaining parts are tried joined. */
  method AddDistrictTails(start: seq<string>, parts: seq<string>) returns (variants: seq<string>)
    requires NoDup(start)
    ensures variants == AddAll(start, DistrictTails(parts, 0))
  {
    variants := start;
    var idx := 0;
    while idx < |parts|
      invariant 0 <= idx <= |parts|
      invariant NoDup(variants)
      invariant AddAll(variants, DistrictTails(parts, idx)) == AddAll(start, DistrictTails(parts, 0))
    {
      TailStep(variants, parts, idx);
      if MentionsDistrict(parts[idx]) && idx + 1 < |parts| {
        variants := AddVariant(variants, Join(", ", parts[idx + 1..]));
      }
      idx := idx + 1;
    }
  }

  /** One turn of the loop: the tail after a district part is added, then the rest. */
  lemma TailStep(variants: seq<string>, parts: seq<string>, idx: nat)
    requires NoDup(variants) && idx < |parts|
    ensures var cond := MentionsDistrict(parts[idx]) && idx + 1 < |parts|;
            AddAll(variants, DistrictTails(parts, idx))
            == AddAll(if cond then Add(variants, Join(", ", parts[idx + 1..])) else variants, DistrictTails(parts, idx + 1))
  {
    DistrictTailsStep(parts, idx);
    if MentionsDistrict(parts[idx]) && idx + 1 < |parts| {
      var tail := Join(", ", parts[idx + 1..]);
      AddOne(variants, tail);
      AddAllAppend(variants, [tail], DistrictTails(parts, idx + 1));
    } else {
      assert DistrictTails(parts, idx) == DistrictTails(parts, idx + 1);
    }
  }

  /** The two whole-address candidates: all parts, then the parts without a district. */
  function HeadCandidates(address: string, parts: seq<string>): seq<string> {
    var noDistrict := WithoutDistrict(parts);
    [if parts != [] then Join(", ", parts) else address]
      + (if noDistrict != [] && noDistrict != parts then [Join(", ", noDistrict)] else [])
  }

  method AddHeadCandidates(address: string, parts: seq<string>) returns (variants: seq<string>)
    ensures variants == AddAll([], HeadCandidates(address, parts))
  {
    var first := if parts != [] then Join(", ", parts) else address;
    var noDistrict := WithoutDistrict(parts);
    variants := AddVariant([], first);
    if noDistrict != [] && noDistrict != parts {
      variants := AddVariant(variants, Join(", ", noDistrict));
    }
    AddHeads(address, parts);
  }

  /** Adding the head candidates is adding the whole address, then the address without
      its districts when that differs. */
  lemma AddHeads(address: string, parts: seq<string>)
    ensures var first := if parts != [] then Join(", ", parts) else address;
            var noDistrict := WithoutDistrict(parts);
            AddAll([], HeadCandidates(address, parts))
            == if noDistrict != [] && noDistrict != parts then Add(Add([], first), Join(", ", noDistrict))
               else Add([], first)
  {
    var first := if parts != [] then Join(", ", parts) else address;
    var noDistrict := WithoutDistrict(parts);
    AddOne([], first);
    if noDistrict != [] && noDistrict != parts {
      var second := Join(", ", noDistrict);
      AddOne(Add([], first), second);
      AddAllAppend([], [first], [second]);
    }
  }

  lemma AddOne(variants: seq<string>, candidate: string)
    requires NoDup(variants)
    ensures AddAll(variants, [candidate]) == Add(variants, candidate)
  {
    assert [candidate][1..] == [];
  }

  /** `_address_variants`. */
  method AddressVariants(address: string) returns (variants: seq<string>)
    ensures variants == VariantsOf(address)
  {
    var parts := Parts(address);
    variants := AddHeadCandidates(address, parts);
    variants := AddDistrictTails(variants, parts);
    AddAllAppend([], HeadCandidates(address, parts), DistrictTails(parts, 0));
    if variants == [] {
      variants := [address];
    }
  }

  // ---------------------------------------------------------------- lookups

  /** One answer of the geocoding service to one query. */
  datatype Answer = Found(lat: real, lon: real) | NotFound | Failed

  /** The first variant the service locates; failed and empty answers move on. */
  function FirstFound(variants: seq<string>, answer: string -> Answer): (r: Coordinates.Coords)
    ensures r.0.Some? <==> r.1.Some?
    ensures r.0.Some? ==> exists k :: 0 <= k < |variants| && answer(variants[k]) == Found(r.0.value, r.1.value)
                                      && forall j :: 0 <= j < k ==> !answer(variants[j]).Found?
    ensures r.0.None? ==> forall k :: 0 <= k < |variants| ==> !answer(variants[k]).Found?
  {
    if variants == [] then (None, None)
    else match answer(variants[0])
      case Found(lat, lon) => (Some(lat), Some(lon))
      case _ =>
        var r := FirstFound(variants[1..], answer);
        FirstFoundStep(variants, answer, r);
        r
  }

  /** A miss on the first variant leaves the answer of the rest. */
  lemma FirstFoundStep(variants: seq<string>, answer: string -> Answer, r: Coordinates.Coords)
    requires variants != [] && !answer(variants[0]).Found? && (r.0.Some? <==> r.1.Some?)
    requires r.0.Some? ==> exists k :: 0 <= k < |variants[1..]| && answer(variants[1..][k]) == Found(r.0.value, r.1.value)
                                       && forall j :: 0 <= j < k ==> !answer(variants[1..][j]).Found?
    requires r.0.None? ==> forall k :: 0 <= k < |variants[1..]| ==> !answer(variants[1..][k]).Found?
    ensures r.0.Some? ==> exists k :: 0 <= k < |variants| && answer(variants[k]) == Found(r.0.value, r.1.value)
                                      && forall j :: 0 <= j < k ==> !answer(variants[j]).Found?
    ensures r.0.None? ==> forall k :: 0 <= k < |variants| ==> !answer(variants[k]).Found?
  {
    if r.0.Some? {
      var k :| 0 <= k < |variants[1..]| && answer(variants[1..][k]) == Found(r.0.value, r.1.value)
               && forall j :: 0 <= j < k ==> !answer(variants[1..][j]).Found?;
      assert variants[k + 1] == variants[1..][k];
      forall j | 0 <= j < k + 1 ensures !answer(variants[j]).Found? {
        if j > 0 { assert variants[j] == variants[1..][j - 1]; }
      }
    } else {
      forall k | 0 <= k < |variants| ensures !answer(variants[k]).Found? {
        if k > 0 { assert variants[k] == variants[1..][k - 1]; }
      }
    }
  }

  /** The loop of `_geocode_cached` over the variants. */
  method QueryVariants(variants: seq<string>, answer: string -> Answer) returns (r: Coordinates.Coords)
    ensures r == FirstFound(variants, answer)
  {
    var i := 0;
    while i < |variants|
      invariant 0 <= i <= |variants|
      invariant FirstFound(variants[i..], answer) == FirstFound(variants, answer)
    {
      var location := answer(variants[i]);
      if location.Found? {
        return (Some(location.lat), Some(location.lon));
      }
      assert variants[i..][1..] == variants[i + 1..];
      i := i + 1;
    }
    return (None, None);
  }

  /** What `_geocode_cached` computes on a cache miss; `available` says whether a
      geolocator could be built for the user agent. */
  function GeocodeUncached(address: string, available: bool, answer: string -> Answer): Coordinates.Coords {
    if !available then (None, None) else FirstFound(VariantsOf(address), answer)
  }

  /** The body of `_geocode_cached`. */
  method GeocodeUncachedStep(address: string, available: bool, answer: string -> Answer) returns (r: Coordinates.Coords)
    ensures r == GeocodeUncached(address, available, answer)
  {
    if !available {
      return (None, None);
    }
    var variants := AddressVariants(address);
    r := QueryVariants(variants, answer);
  }

  type Key = (string, string)

  predicate NoDupKeys(xs: seq<Key>) {
    forall i, j :: 0 <= i < j < |xs| ==> xs[i] != xs[j]
  }

  function Without(xs: seq<Key>, k: Key): (r: seq<Key>)
    ensures forall x :: x in r <==> x in xs && x != k
    ensures NoDupKeys(xs) ==> NoDupKeys(r)
    ensures k in xs && NoDupKeys(xs) ==> |r| == |xs| - 1
    ensures k !in xs ==> r == xs
  {
    if xs == [] then []
    else
      var rest := Without(xs[1..], k);
      assert NoDupKeys(xs) ==> xs[0] !in xs[1..] && NoDupKeys(xs[1..]);
      if xs[0] == k then rest else [xs[0]] + rest
  }

  /** The cache's invariant: the recency order lists each stored key once, and at most
      256 keys are held. */
  ghost predicate CacheInv(entries: map<Key, Coordinates.Coords>, order: seq<Key>) {
    NoDupKeys(order) && (forall k :: k in entries <==> k in order) && |order| <= CacheCapacity
  }

  /** A hit: the key moves to the most recent end. */
  function Touched(order: seq<Key>, key: Key): seq<Key> {
    Without(order, key) + [key]
  }

  lemma TouchedKeeps(entries: map<Key, Coordinates.Coords>, order: seq<Key>, key: Key)
    requires CacheInv(entries, order) && key in entries
    ensures CacheInv(entries, Touched(order, key)) && Touched(order, key)[|Touched(order, key)| - 1] == key
  {
    var r := Touched(order, key);
    assert forall x :: x in r <==> x in Without(order, key) || x == key;
    assert NoDupKeys(r) by {
      var w := Without(order, key);
      forall i, j | 0 <= i < j < |r| ensures r[i] != r[j] {
        if j == |w| { assert r[i] == w[i] && w[i] in w; } else { assert r[i] == w[i] && r[j] == w[j]; }
      }
    }
  }

  /** The entries after evicting the least recently used key when the cache is full. */
  function Evicted(entries: map<Key, Coordinates.Coords>, order: seq<Key>): map<Key, Coordinates.Coords> {
    if |order| == CacheCapacity then map k | k in entries && k != order[0] :: entries[k] else entries
  }

  /** The recency order after that eviction. */
  function EvictedOrder(order: seq<Key>): seq<Key> {
    if |order| == CacheCapacity then order[1..] else order
  }

  /** A miss: the least recently used key goes when the cache is full, and the new key
      is stored as the most recent. */
  lemma InsertedKeeps(entries: map<Key, Coordinates.Coords>, order: seq<Key>, key: Key, r: Coordinates.Coords)
    requires CacheInv(entries, order) && key !in entries
    ensures var e := Evicted(entries, order)[key := r];
            var o := EvictedOrder(order) + [key];
            CacheInv(e, o) && o[|o| - 1] == key
            && (forall k :: k in e && k != key ==> k in entries && e[k] == entries[k])
            && (|order| < CacheCapacity ==> forall k :: k in entries ==> k in e)
            && (|order| == CacheCapacity ==> order[0] !in e && forall k :: k in entries && k != order[0] ==> k in e)
  {
    var o0 := EvictedOrder(order);
    var e0 := Evicted(entries, order);
    if |order| == CacheCapacity {
      assert order == [order[0]] + order[1..];
      assert forall x :: x in o0 <==> x in order && x != order[0] by {
        forall x ensures x in o0 <==> x in order && x != order[0] {
          if x in o0 {
            var i :| 0 <= i < |o0| && o0[i] == x;
            assert order[i + 1] == x;
          }
        }
      }
    }
    assert NoDupKeys(o0);
    assert forall k :: k in e0 <==> k in o0;
    var o := o0 + [key];
    assert NoDupKeys(o) by {
      forall i, j | 0 <= i < j < |o| ensures o[i] != o[j] {
        if j == |o0| { assert o[i] == o0[i] && o0[i] in o0; } else { assert o[i] == o0[i] && o[j] == o0[j]; }
      }
    }
  }

  /** The `lru_cache(maxsize=256)` around `_geocode_cached`. */
  class GeocodeCache {
    var entries: map<Key, Coordinates.Coords>
    /** Keys from least to most recently used. */
    var order: seq<Key>

    ghost predicate Valid()
      reads this
    {
      CacheInv(entries, order)
    }

    constructor ()
      ensures Valid() && entries == map[] && order == []
    {
      entries := map[];
      order := [];
    }

    /** `_geocode_cached(address, user_agent)` through the cache: a hit answers the stored
        pair, failures included, and becomes most recent; a miss asks the service, stores
        the answer and evicts the least recently used key when more than 256 are held. */
    method Lookup(address: string, userAgent: string, available: bool, answer: string -> Answer)
      returns (r: Coordinates.Coords)
      requires Valid()
      modifies this
      ensures Valid()
      ensures (address, userAgent) in old(entries) ==> r == old(entries)[(address, userAgent)]
      ensures (address, userAgent) !in old(entries) ==> r == GeocodeUncached(address, available, answer)
      ensures (address, userAgent) in entries && entries[(address, userAgent)] == r
      ensures order[|order| - 1] == (address, userAgent)
      ensures forall k :: k in entries && k != (address, userAgent) ==>
                k in old(entries) && entries[k] == old(entries)[k]
      ensures |old(order)| < CacheCapacity ==> forall k :: k in old(entries) ==> k in entries
      ensures (address, userAgent) !in old(entries) && |old(order)| == CacheCapacity ==>
                old(order)[0] !in entries &&
                forall k :: k in old(entries) && k != old(order)[0] ==> k in entries
      ensures (address, userAgent) in old(entries) ==>
                entries == old(entries) && order == Touched(old(order), (address, userAgent))
      ensures (address, userAgent) !in old(entries) ==>
                entries == Evicted(old(entries), old(order))[(address, userAgent) := r]
                && order == EvictedOrder(old(order)) + [(address, userAgent)]
    {
      var key := (address, userAgent);
      if key in entries {
        TouchedKeeps(entries, order, key);
        r := entries[key];
        order := Touched(order, key);
        return;
      }
      r := GeocodeUncachedStep(address, available, answer);
      InsertedKeeps(entries, order, key, r);
      entries := Evicted(entries, order)[key := r];
      order := EvictedOrder(order) + [key];
    }

    /** `geocode_address`: an empty address is never looked up. */
    method GeocodeAddress(address: string, userAgent: string, available: bool, answer: string -> Answer)
      returns (r: Coordinates.Coords)
      requires Valid()
      modifies this
      ensures Valid()
      ensures address == "" ==> r == (None, None) && entries == old(entries) && order == old(order)
      ensures address != "" && (address, userAgent) !in old(entries) ==>
                r == GeocodeUncached(address, available, answer)
                && entries == Evicted(old(entries), old(order))[(address, userAgent) := r]
                && order == EvictedOrder(old(order)) + [(address, userAgent)]
      ensures address != "" && (address, userAgent) in old(entries) ==>
                r == old(entries)[(address, userAgent)]
                && entries == old(entries) && order == Touched(old(order), (address, userAgent))
    {
      if address == "" {
        return (None, None);
      }
      r := Lookup(address, userAgent, available, answer);
    }
  }
}
