/**
 * The import service (house/services/importer.py): URL validation, a page fetched and
 * parsed into a listing saved without validation, type and deal names matched exactly
 * or created, and every image URL tried, repeats included. The page download, the
 * image transfers, the rate service and the geocoder are parameters.
 */
module ServiceImporter {
  import opened Wrappers
  import opened Text
  import opened Json
  import opened Models
  import Slugs
  import ListingParser
  import ImageTransfer
  import AdminBatch
  import AdminImport
  import Document
  import PriceNormalizer

  // ---------------------------------------------------------------- URL validation

  /** The characters `urlsplit` strips from the front (C0 controls and space). */
  predicate LeadingJunk(c: char) { c <= ' ' }

  /** Tab, carriage return and newline, which `urlsplit` deletes everywhere. */
  predicate Unsafe(c: char) { c == '\t' || c == '\r' || c == '\n' }

  predicate SafeChar(c: char) { !Unsafe(c) }

  predicate AsciiAlpha(c: char) { 'a' <= c <= 'z' || 'A' <= c <= 'Z' }

  predicate SchemeChar(c: char) { AsciiAlpha(c) || IsDigit(c) || c == '+' || c == '-' || c == '.' }

  /** The text `urlsplit` works on. */
  function Cleaned(url: string): string {
    Filter(TrimLeft(url, LeadingJunk), SafeChar)
  }

  /** The scheme, lowercased, and the rest: a scheme is a letter followed by scheme
      characters up to the first ':'. */
  function SplitScheme(url: string): (r: (string, string)) {
    var i := IndexOf(url, ':');
    if 0 < i < |url| && AsciiAlpha(url[0]) && (forall k :: 0 <= k < i ==> SchemeChar(url[k])) then
      (Lower(url[..i]), url[i + 1..])
    else ("", url)
  }

  predicate Delimiter(c: char) { c == '/' || c == '?' || c == '#' }

  /** Index of the first '/', '?' or '#', or `|s|`. */
  function NetlocEnd(s: string): (k: nat)
    ensures k <= |s|
    ensures k < |s| ==> Delimiter(s[k])
    ensures forall i :: 0 <= i < k ==> !Delimiter(s[i])
  {
    if s == [] then 0 else if Delimiter(s[0]) then 0 else 1 + NetlocEnd(s[1..])
  }

  /** The network location after "//", "" without one; `None` where `urlsplit` raises on
      a lone bracket. */
  function Netloc(rest: string): Option<string> {
    if |rest| >= 2 && rest[..2] == "//" then
      var n := rest[2..][..NetlocEnd(rest[2..])];
      if ('[' in n) != (']' in n) then None else Some(n)
    else Some("")
  }

  /** `is_valid_url`: the scheme is http or https and the host part is non-empty. */
  predicate IsValidUrl(url: string) {
    var (scheme, rest) := SplitScheme(Cleaned(url));
    (scheme == "http" || scheme == "https") && Netloc(rest).Some? && Netloc(rest).value != ""
  }

  lemma {:induction false} FilterWithout(s: string, keep: char -> bool, c: char)
    requires c !in s
    ensures c !in Filter(s, keep)
  {
    if s != [] {
      FilterWithout(s[1..], keep, c);
      assert s[0] != c;
    }
  }

  /** Text without a ':' has no scheme and is never valid. */
  lemma NoColonInvalid(url: string)
    requires ':' !in url
    ensures !IsValidUrl(url)
  {
    var t := TrimLeft(url, LeadingJunk);
    assert ':' !in t by {
      forall i | 0 <= i < |t| ensures t[i] != ':' {
        assert t[i] == url[|url| - |t| + i];
      }
    }
    FilterWithout(t, SafeChar, ':');
  }

  predicate Safe(s: string) { forall i :: 0 <= i < |s| ==> !Unsafe(s[i]) }

  lemma SafeConcat(a: string, b: string)
    requires Safe(a) && Safe(b)
    ensures Safe(a + b)
  {
    forall i | 0 <= i < |a + b| ensures !Unsafe((a + b)[i]) {
      if i < |a| { assert (a + b)[i] == a[i]; } else { assert (a + b)[i] == b[i - |a|]; }
    }
  }

  /** Text that starts with a visible character and holds no tab or line break is
      parsed as it is. */
  lemma CleanedPlain(url: string)
    requires url != [] && !LeadingJunk(url[0]) && Safe(url)
    ensures Cleaned(url) == url
  {
    FilterKeepsAll(url, SafeChar);
  }

  lemma ColonSplit(a: string, host: string, tail: string)
    ensures |a + "://" + host + tail| == |a| + 3 + |host| + |tail|
    ensures (a + "://" + host + tail)[..|a|] == a && (a + "://" + host + tail)[|a|] == ':'
    ensures (a + "://" + host + tail)[|a| + 1..] == "//" + host + tail
  {
    var u := a + "://" + host + tail;
    var rest := "//" + host + tail;
    assert u[|a| + 1..] == rest by {
      assert |u[|a| + 1..]| == |rest|;
      forall i | 0 <= i < |rest| ensures u[|a| + 1..][i] == rest[i] {
        if i < 2 { assert u[|a| + 1 + i] == '/' == rest[i]; }
        else if i < 2 + |host| { assert u[|a| + 1 + i] == host[i - 2] == rest[i]; }
        else { assert u[|a| + 1 + i] == tail[i - 2 - |host|] == rest[i]; }
      }
    }
  }

  lemma SchemeSplit(scheme: string, host: string, tail: string)
    requires scheme != [] && AsciiAlpha(scheme[0])
    requires forall k :: 0 <= k < |scheme| ==> SchemeChar(scheme[k])
    ensures SplitScheme(scheme + "://" + host + tail) == (Lower(scheme), "//" + host + tail)
  {
    var u := scheme + "://" + host + tail;
    ColonSplit(scheme, host, tail);
    assert forall k :: 0 <= k < |scheme| ==> u[k] == u[..|scheme|][k];
    assert IndexOf(u, ':') == |scheme|;
  }

  lemma NetlocHost(host: string, tail: string)
    requires HostChars(host)
    requires tail == [] || Delimiter(tail[0])
    ensures Netloc("//" + host + tail) == Some(host)
  {
    var rest := "//" + host + tail;
    assert rest[..2] == "//";
    var s := rest[2..];
    assert s == host + tail;
    assert forall i :: 0 <= i < |host| ==> s[i] == host[i];
    assert tail != [] ==> s[|host|] == tail[0];
    assert NetlocEnd(s) == |host|;
    assert s[..|host|] == host;
  }

  /** A URL whose scheme is http or https in any letter case, followed by "//", a
      non-empty host free of delimiters, brackets and control characters, then a path,
      query or fragment (or nothing), is valid. */
  lemma HttpUrlValid(scheme: string, host: string, tail: string)
    requires Lower(scheme) == "http" || Lower(scheme) == "https"
    requires forall k :: 0 <= k < |scheme| ==> AsciiAlpha(scheme[k])
    requires host != [] && HostChars(host) && Safe(host) && Safe(tail)
    requires tail == [] || Delimiter(tail[0])
    ensures IsValidUrl(scheme + "://" + host + tail)
  {
    var url := scheme + "://" + host + tail;
    UrlParts(scheme, host, tail);
    ValidOfParts(url, Lower(scheme), "//" + host + tail, host);
  }

  lemma UrlParts(scheme: string, host: string, tail: string)
    requires scheme != [] && forall k :: 0 <= k < |scheme| ==> AsciiAlpha(scheme[k])
    requires HostChars(host) && Safe(host) && Safe(tail)
    requires tail == [] || Delimiter(tail[0])
    ensures SplitScheme(Cleaned(scheme + "://" + host + tail)) == (Lower(scheme), "//" + host + tail)
    ensures Netloc("//" + host + tail) == Some(host)
  {
    var url := scheme + "://" + host + tail;
    CleanUrl(url, scheme, host, tail);
    AlphaSafe(scheme);
    SchemeSplit(scheme, host, tail);
    NetlocHost(host, tail);
  }

  lemma CleanUrl(url: string, scheme: string, host: string, tail: string)
    requires scheme != [] && forall k :: 0 <= k < |scheme| ==> AsciiAlpha(scheme[k])
    requires Safe(host) && Safe(tail)
    requires url == scheme + "://" + host + tail
    ensures Cleaned(url) == url
  {
    AlphaSafe(scheme);
    SafeConcat(scheme, "://");
    SafeConcat(scheme + "://", host);
    SafeConcat(scheme + "://" + host, tail);
    assert url[0] == scheme[0];
    CleanedPlain(url);
  }

  lemma AlphaSafe(s: string)
    requires s != [] && forall k :: 0 <= k < |s| ==> AsciiAlpha(s[k])
    ensures Safe(s) && !LeadingJunk(s[0]) && forall k :: 0 <= k < |s| ==> SchemeChar(s[k])
  {
  }

  lemma ValidOfParts(url: string, scheme: string, rest: string, host: string)
    requires SplitScheme(Cleaned(url)) == (scheme, rest)
    requires scheme == "http" || scheme == "https"
    requires Netloc(rest) == Some(host) && host != []
    ensures IsValidUrl(url)
  {
  }

  predicate HostChars(host: string) {
    forall i :: 0 <= i < |host| ==> !Delimiter(host[i]) && host[i] != '[' && host[i] != ']'
  }

  /** The URL of the import tests, "https://example.com/listing". */
  lemma ListingUrlValid()
    ensures IsValidUrl("https" + "://" + "example.com" + "/listing")
  {
    var scheme, host, tail := "https", "example.com", "/listing";
    assert Lower(scheme) == "https" by {
      assert |Lower(scheme)| == 5;
      assert Lower(scheme)[0] == 'h' && Lower(scheme)[1] == 't' && Lower(scheme)[2] == 't';
      assert Lower(scheme)[3] == 'p' && Lower(scheme)[4] == 's';
    }
    assert HostChars(host) && Safe(host) by {
      assert |host| == 11;
    }
    assert Safe(tail) && Delimiter(tail[0]);
    HttpUrlValid(scheme, host, tail);
  }

  // ---------------------------------------------------------------- type and deal names

  const TypeSlugFallback := "property-type"

  /** `_generate_unique_slug_for_property_type`: `slugify(name)`, or the fallback when that
      is empty, then `base-1`, `base-2`, ... of the possibly empty base, until no type
      row has it. */
  function ImporterSlug(name: string, slugify: string -> string, taken: set<string>): (r: string)
    ensures r !in taken && r != ""
  {
    var base := slugify(name);
    var first := if base == "" then TypeSlugFallback else base;
    var r := Slugs.FirstFree(first, base, taken);
    assert r != "" by {
      var n: nat :| r == Slugs.Candidate(first, base, n);
      if n > 0 { assert r == base + "-" + NatToString(n); }
    }
    r
  }

  /** The suffix loop of `_generate_unique_slug_for_property_type`. */
  method GenerateUniqueSlug(name: string, slugify: string -> string, taken: set<string>) returns (slug: string)
    ensures slug == ImporterSlug(name, slugify, taken)
  {
    var base := slugify(name);
    slug := Slugs.UniqueSlug(if base == "" then TypeSlugFallback else base, base, taken);
  }

  /** When the first candidate is taken and `base-1` is not, the loop stops at `base-1`. */
  lemma SecondCandidate(first: string, base: string, taken: set<string>)
    requires first in taken && Slugs.Suffixed(base, 1) !in taken
    ensures Slugs.FirstFree(first, base, taken) == Slugs.Suffixed(base, 1)
  {
    assert Slugs.Candidate(first, base, 0) in taken;
    assert Slugs.FirstFreeFrom(first, base, taken, 0) == Slugs.FirstFreeFrom(first, base, taken, 1);
  }

  /** A name that slugifies to nothing falls back to "property-type", and once that is
      taken, the suffixes hang off the empty base: "-1". */
  lemma EmptyBaseSlugs(name: string, slugify: string -> string, taken: set<string>)
    requires slugify(name) == ""
    ensures TypeSlugFallback !in taken ==> ImporterSlug(name, slugify, taken) == TypeSlugFallback
    ensures TypeSlugFallback in taken && "-1" !in taken ==> ImporterSlug(name, slugify, taken) == "-1"
  {
    if TypeSlugFallback in taken && "-1" !in taken {
      assert Slugs.Suffixed("", 1) == "-1";
      SecondCandidate(TypeSlugFallback, "", taken);
    }
  }

  /** How an exact-name `get_or_create` ends. */
  datatype Resolution = NoName | Row(id: nat) | Ambiguous

  /** The positions of the rows named exactly `name`, in table order. */
  function ExactMatches(names: seq<string>, name: string): (r: seq<nat>)
    ensures forall k :: 0 <= k < |r| ==> r[k] < |names| && names[r[k]] == name
    ensures forall i :: 0 <= i < |names| && names[i] == name ==> i in r
    ensures forall a, b :: 0 <= a < b < |r| ==> r[a] < r[b]
    decreases |names|
  {
    if names == [] then []
    else
      var rest := ExactMatches(names[..|names| - 1], name);
      if names[|names| - 1] == name then rest + [|names| - 1] else rest
  }

  lemma {:induction false} NoExactMatches(names: seq<string>, name: string)
    requires forall i :: 0 <= i < |names| ==> names[i] != name
    ensures ExactMatches(names, name) == []
    decreases |names|
  {
    if names != [] {
      NoExactMatches(names[..|names| - 1], name);
    }
  }

  /** A row added under `name` after rows none of which is named so is the one match. */
  lemma ExactMatchesAdded(names: seq<string>, name: string)
    requires forall i :: 0 <= i < |names| ==> names[i] != name
    ensures ExactMatches(names + [name], name) == [|names|]
  {
    var all := names + [name];
    assert all[..|all| - 1] == names;
    NoExactMatches(names, name);
  }

  /** The type row `get_or_create` adds (its `save` gives it a slug), whose slug is then
      regenerated against every row, itself included. */
  function CreatedType(types: seq<TypeRow>, lastId: nat, name: string, slugify: string -> string): (r: seq<TypeRow>)
    ensures |r| == |types| + 1 && r[..|types|] == types
    ensures r[|types|].id == lastId + 1 && r[|types|].name == name && r[|types|].slug != ""
  {
    var row := TypeRow(lastId + 1, name, TypeSlugOnSave(name, "", None, types, slugify));
    types + [row.(slug := ImporterSlug(name, slugify, TypeSlugs(types + [row], None)))]
  }

  /** The row `get_or_create` found: its slug regenerated only when blank. */
  function ReusedType(types: seq<TypeRow>, k: nat, slugify: string -> string): (r: seq<TypeRow>)
    requires k < |types|
    ensures |r| == |types| && r[k].slug != ""
    ensures forall i :: 0 <= i < |types| ==> r[i].id == types[i].id && r[i].name == types[i].name
    ensures forall i :: 0 <= i < |types| && i != k ==> r[i] == types[i]
    ensures types[k].slug != "" ==> r == types
  {
    if types[k].slug != "" then types
    else types[k := types[k].(slug := ImporterSlug(types[k].name, slugify, TypeSlugs(types, None)))]
  }

  /** `_resolve_property_type` on the type table: a blank name resolves to nothing, two
      rows with the name make `get` raise, the one row so named is reused, and otherwise
      a row is created. */
  function ServiceType(types: seq<TypeRow>, lastId: nat, name: string, slugify: string -> string)
    : (r: (Resolution, seq<TypeRow>))
    ensures name == "" <==> r.0 == NoName
    ensures !r.0.Row? ==> r.1 == types
    ensures |r.1| == |types| || (r.0 == Row(lastId + 1) && r.1 == CreatedType(types, lastId, name, slugify))
  {
    if name == "" then (NoName, types)
    else
      var m := ExactMatches(AdminImport.TypeNames(types), name);
      if |m| > 1 then (Ambiguous, types)
      else if |m| == 1 then (Row(types[m[0]].id), ReusedType(types, m[0], slugify))
      else
        var r := CreatedType(types, lastId, name, slugify);
        assert r[|types|].id == lastId + 1;
        (Row(lastId + 1), r)
  }

  /** The id counter after `_resolve_property_type`. */
  function LastIdAfterType(types: seq<TypeRow>, lastId: nat, name: string, slugify: string -> string): nat {
    if |ServiceType(types, lastId, name, slugify).1| == |types| then lastId else lastId + 1
  }

  lemma LastIdAfterTypeGrowth(types: seq<TypeRow>, lastId: nat, name: string, slugify: string -> string)
    ensures LastIdAfterType(types, lastId, name, slugify) == lastId + |ServiceType(types, lastId, name, slugify).1| - |types|
  {
  }

  /** A name no row carries exactly is created, even when a row differs from it only
      by letter case. */
  lemma ServiceTypeExact(types: seq<TypeRow>, lastId: nat, name: string, slugify: string -> string)
    requires name != ""
    requires forall t :: t in types ==> t.name != name
    ensures ServiceType(types, lastId, name, slugify) == (Row(lastId + 1), CreatedType(types, lastId, name, slugify))
  {
    NoExactMatches(AdminImport.TypeNames(types), name);
  }

  /** A new type whose name slugifies to a free, non-empty base gets `base-1`: its own
      row already holds `base` when the slug is regenerated. */
  lemma NewTypeSlugSuffixed(types: seq<TypeRow>, lastId: nat, name: string, slugify: string -> string)
    requires slugify(name) != ""
    requires slugify(name) !in TypeSlugs(types, None) && Slugs.Suffixed(slugify(name), 1) !in TypeSlugs(types, None)
    ensures CreatedType(types, lastId, name, slugify)[|types|].slug == slugify(name) + "-1"
  {
    var base := slugify(name);
    Slugs.FreeFirstKept(base, base, TypeSlugs(types, None));
    var row := TypeRow(lastId + 1, name, base);
    assert TypeSlugOnSave(name, "", None, types, slugify) == base;
    var created := types + [row];
    assert TypeSlugs(created, None) == TypeSlugs(types, None) + {base};
    SecondCandidate(base, base, TypeSlugs(created, None));
    assert NatToString(1) == "1";
  }

  /** Resolving the same name again returns the same row and changes nothing. */
  lemma ServiceTypeIdempotent(types: seq<TypeRow>, lastId: nat, later: nat, name: string, slugify: string -> string)
    requires ServiceType(types, lastId, name, slugify).0.Row?
    ensures var (r, after) := ServiceType(types, lastId, name, slugify);
            ServiceType(after, later, name, slugify) == (r, after)
  {
    var names := AdminImport.TypeNames(types);
    var m := ExactMatches(names, name);
    if |m| == 1 {
      ReusedAgain(types, m[0], slugify);
    } else {
      CreatedAgain(types, lastId, name, slugify);
    }
  }

  lemma ReusedAgain(types: seq<TypeRow>, k: nat, slugify: string -> string)
    requires k < |types|
    ensures var after := ReusedType(types, k, slugify);
            AdminImport.TypeNames(after) == AdminImport.TypeNames(types) && ReusedType(after, k, slugify) == after
  {
    var after := ReusedType(types, k, slugify);
    assert AdminImport.TypeNames(after) == AdminImport.TypeNames(types);
  }

  lemma CreatedAgain(types: seq<TypeRow>, lastId: nat, name: string, slugify: string -> string)
    requires forall i :: 0 <= i < |types| ==> types[i].name != name
    ensures var after := CreatedType(types, lastId, name, slugify);
            ExactMatches(AdminImport.TypeNames(after), name) == [|types|]
            && ReusedType(after, |types|, slugify) == after
  {
    var after := CreatedType(types, lastId, name, slugify);
    var names := AdminImport.TypeNames(types);
    assert AdminImport.TypeNames(after) == names + [name];
    ExactMatchesAdded(names, name);
  }

  /** `_resolve_deal_type`: the exact name, reused when one row has it, raising when
      two do, created otherwise. */
  function ServiceDeal(deals: seq<DealRow>, lastId: nat, name: string): (r: (Resolution, seq<DealRow>))
    ensures name == "" <==> r.0 == NoName
    ensures r.1 == deals || (r.1 == deals + [DealRow(lastId + 1, name)] && r.0 == Row(lastId + 1))
  {
    if name == "" then (NoName, deals)
    else
      var m := ExactMatches(AdminImport.DealNames(deals), name);
      if |m| > 1 then (Ambiguous, deals)
      else if |m| == 1 then (Row(deals[m[0]].id), deals)
      else
        var r := deals + [DealRow(lastId + 1, name)];
        assert r[|deals|] == DealRow(lastId + 1, name);
        (Row(lastId + 1), r)
  }

  /** Resolving the same deal name again returns the same row and changes nothing. */
  lemma ServiceDealIdempotent(deals: seq<DealRow>, lastId: nat, later: nat, name: string)
    requires ServiceDeal(deals, lastId, name).0.Row?
    ensures var (r, after) := ServiceDeal(deals, lastId, name);
            ServiceDeal(after, later, name) == (r, after)
  {
    var m := ExactMatches(AdminImport.DealNames(deals), name);
    if |m| == 0 {
      var after := deals + [DealRow(lastId + 1, name)];
      assert AdminImport.DealNames(after) == AdminImport.DealNames(deals) + [name];
      ExactMatchesAdded(AdminImport.DealNames(deals), name);
    }
  }

  lemma ReplaceLast<T>(s: seq<T>, x: T, y: T)
    ensures (s + [x])[|s| := y] == s + [y]
  {
  }

  /** The found row: a blank slug is regenerated and saved. */
  method ReuseTypeRow(store: Store, k: nat, slugify: string -> string)
    requires store.Valid() && k < |store.types|
    modifies store
    ensures store.Valid()
    ensures store.types == ReusedType(old(store.types), k, slugify)
    ensures store.lastId == old(store.lastId)
    ensures store.deals == old(store.deals) && store.listings == old(store.listings) && store.images == old(store.images)
  {
    if store.types[k].slug == "" {
      var slug := GenerateUniqueSlug(store.types[k].name, slugify, TypeSlugs(store.types, None));
      store.SaveTypeSlug(k, slug, slugify);
    }
  }

  /** `get_or_create` adding the row, then the regenerated slug saved. */
  method CreateTypeRow(store: Store, name: string, slugify: string -> string) returns (id: nat)
    requires store.Valid()
    modifies store
    ensures store.Valid()
    ensures store.types == CreatedType(old(store.types), old(store.lastId), name, slugify)
    ensures id == old(store.lastId) + 1 && store.lastId == id
    ensures store.deals == old(store.deals) && store.listings == old(store.listings) && store.images == old(store.images)
  {
    ghost var types := store.types;
    var row := store.CreateType(name, slugify);
    var slug := GenerateUniqueSlug(name, slugify, TypeSlugs(store.types, None));
    store.SaveTypeSlug(|store.types| - 1, slug, slugify);
    ReplaceLast(types, row, row.(slug := slug));
    id := row.id;
  }

  method ResolveServiceType(store: Store, name: string, slugify: string -> string) returns (r: Resolution)
    requires store.Valid()
    modifies store
    ensures store.Valid()
    ensures (r, store.types) == ServiceType(old(store.types), old(store.lastId), name, slugify)
    ensures store.lastId == old(store.lastId) + |store.types| - |old(store.types)|
    ensures store.deals == old(store.deals) && store.listings == old(store.listings) && store.images == old(store.images)
  {
    if name == "" {
      return NoName;
    }
    var m := ExactMatches(AdminImport.TypeNames(store.types), name);
    if |m| > 1 {
      return Ambiguous;
    }
    if |m| == 1 {
      r := Row(store.types[m[0]].id);
      ReuseTypeRow(store, m[0], slugify);
      return;
    }
    var id := CreateTypeRow(store, name, slugify);
    r := Row(id);
  }

  method ResolveServiceDeal(store: Store, name: string) returns (r: Resolution)
    requires store.Valid()
    modifies store
    ensures store.Valid()
    ensures (r, store.deals) == ServiceDeal(old(store.deals), old(store.lastId), name)
    ensures store.lastId == old(store.lastId) + |store.deals| - |old(store.deals)|
    ensures store.types == old(store.types) && store.listings == old(store.listings) && store.images == old(store.images)
  {
    if name == "" {
      return NoName;
    }
    var m := ExactMatches(AdminImport.DealNames(store.deals), name);
    if |m| > 1 {
      return Ambiguous;
    }
    if |m| == 1 {
      assert store.deals[m[0]] in store.deals;
      return Row(store.deals[m[0]].id);
    }
    var row := store.CreateDeal(name);
    r := Row(row.id);
  }

  // ---------------------------------------------------------------- the listing

  /** `_safe_int(value, default)`: `int(value)`, or the default where Python raises. */
  function SafeInt(value: Value, default: int): (r: int)
    ensures ToInt(value).Some? ==> r == ToInt(value).value
    ensures ToInt(value).None? ==> r == default
  {
    match ToInt(value)
    case Some(i) => i
    case None => default
  }

  /** Missing and non-numeric values fall back to the default; numbers and numeric
      text convert, floats toward zero. */
  lemma SafeIntFallbacks(d: int, n: nat, x: real, items: seq<Value>)
    ensures SafeInt(Null, d) == d && SafeInt(Str(""), d) == d && SafeInt(Arr(items), d) == d
    ensures SafeInt(Str(NatToString(n)), d) == n
    ensures x >= 0.0 ==> SafeInt(Float(x), d) as real <= x < SafeInt(Float(x), d) as real + 1.0
    ensures x < 0.0 ==> SafeInt(Float(x), d) as real - 1.0 < x <= SafeInt(Float(x), d) as real
  {
    ParseIntNatToString(n);
    assert Strip("") == [];
  }

  /** The `Property(...)` the service builds from the parsed record: no validation, the
      area truncated to an integer, the rooms as parsed. */
  function ServiceListing(data: ListingParser.ParsedProperty, typeId: Option<nat>, dealId: Option<nat>): (r: Listing)
    requires data.area >= 0.0
    ensures r.title == data.title && r.address == data.address && r.description == data.descriptionHtml
    ensures r.price == data.price && r.rooms == data.rooms
    ensures r.area as real <= data.area < r.area as real + 1.0 && r.area >= 0
    ensures (r.latitude, r.longitude) == (data.latitude, data.longitude)
    ensures r.propertyType == typeId && r.dealType == dealId && r.slug == "" && r.features == {}
    ensures !r.isArchived && !r.featuredHomepage
  {
    Listing(data.title, data.descriptionHtml, data.address, data.latitude, data.longitude, data.price,
            SafeInt(Float(data.area), 0), SafeInt(Int(data.rooms), 1), false, false, typeId, dealId, {}, "")
  }

  function IdOf(r: Resolution): Option<nat> {
    if r.Row? then Some(r.id) else None
  }

  /** The row the two saves leave: the create, with the geocoder's answer `located`, then
      the update, with its answer `relocated` when it asks again. */
  function SavedTwice(p: Listing, stored: map<nat, Listing>, located: Option<(real, real)>,
                      relocated: Option<(real, real)>, baseSlug: string, id: nat): Listing {
    var first := SavedListing(None, p, stored, located, baseSlug);
    SavedListing(Some(id), first, stored[id := first], relocated, baseSlug)
  }

  /** The update asks the geocoder again exactly when the created row has an address and
      still lacks a coordinate; a pair found then is stored, and otherwise the row stays
      as it was created. */
  lemma SecondSaveGeocodesAgain(p: Listing, stored: map<nat, Listing>, located: Option<(real, real)>,
                                relocated: Option<(real, real)>, baseSlug: string, id: nat)
    requires id != 0 && id !in stored
    ensures var first := SavedListing(None, p, stored, located, baseSlug);
            Prepare(Some(id), first, stored[id := first]).1 <==> first.address != "" && MissingCoordinates(first)
    ensures var first := SavedListing(None, p, stored, located, baseSlug);
            SavedTwice(p, stored, located, relocated, baseSlug, id)
            == if first.address != "" && MissingCoordinates(first) && relocated.Some?
               then first.(latitude := Some(relocated.value.0), longitude := Some(relocated.value.1))
               else first
  {
    var first := SavedListing(None, p, stored, located, baseSlug);
    var after := stored[id := first];
    assert Restore(first, first) == first;
    assert ListingSlugs(after, Some(id)) == ListingSlugs(stored, None);
  }

  /** `property_obj.save()` twice, a create then an update. */
  method SaveTwice(store: Store, p: Listing, located: Option<(real, real)>, relocated: Option<(real, real)>,
                   baseSlug: string) returns (id: nat)
    requires store.Valid()
    modifies store
    ensures store.Valid()
    ensures id == old(store.lastId) + 1 && store.lastId == id && id !in old(store.listings)
    ensures store.listings == old(store.listings)[id := SavedTwice(p, old(store.listings), located, relocated, baseSlug, id)]
    ensures store.types == old(store.types) && store.deals == old(store.deals) && store.images == old(store.images)
  {
    var saved;
    id, saved := store.SaveListing(None, p, located, baseSlug);
    var again;
    id, again := store.SaveListing(Some(id), saved, relocated, baseSlug);
  }

  datatype ServiceOutcome =
    | InvalidImportUrl             // `InvalidImportURL` raised
    | PageFailed(reason: string)   // the page request raised
    | ResolveRaises                // `get_or_create` found two rows
    | Imported(id: nat, warnings: seq<string>)

  /** The record `parse_property_html(response.text, source=url)` returns: no rates given,
      so the ones `fetched` from the rate service are used, and no geocoding. */
  function ServiceParsed(doc: Document.Doc, fetched: PriceNormalizer.Rates): ListingParser.ParsedProperty {
    ListingParser.ParsedOf(doc, None, fetched, false, (None, None))
  }

  /** Type and deal resolution, in that order; a type created before the deal lookup
      raises stays created. */
  method ResolveBoth(store: Store, typeName: string, dealName: string, slugify: string -> string)
    returns (t: Resolution, d: Resolution)
    requires store.Valid()
    modifies store
    ensures store.Valid()
    ensures (t, store.types) == ServiceType(old(store.types), old(store.lastId), typeName, slugify)
    ensures t != Ambiguous ==>
              (d, store.deals) == ServiceDeal(old(store.deals), LastIdAfterType(old(store.types), old(store.lastId), typeName, slugify), dealName)
    ensures t == Ambiguous ==> store.deals == old(store.deals) && d == NoName
    ensures store.lastId == LastIdAfterType(old(store.types), old(store.lastId), typeName, slugify) + |store.deals| - |old(store.deals)|
    ensures store.listings == old(store.listings) && store.images == old(store.images)
  {
    LastIdAfterTypeGrowth(store.types, store.lastId, typeName, slugify);
    ghost var after := LastIdAfterType(store.types, store.lastId, typeName, slugify);
    t := ResolveServiceType(store, typeName, slugify);
    assert store.lastId == after;
    if t == Ambiguous {
      d := NoName;
    } else {
      d := ResolveServiceDeal(store, dealName);
    }
  }

  /** The saved row holds the parsed title, address, description, price and room count,
      and the area truncated to whole square metres. */
  predicate Carries(l: Listing, data: ListingParser.ParsedProperty) {
    l.title == data.title && l.address == data.address && l.description == data.descriptionHtml
    && l.price == data.price && l.rooms == data.rooms
    && l.area as real <= data.area < l.area as real + 1.0
  }

  lemma SavedCarries(p: Listing, data: ListingParser.ParsedProperty, stored: map<nat, Listing>,
                     located: Option<(real, real)>, relocated: Option<(real, real)>, baseSlug: string, id: nat)
    requires data.area >= 0.0 && p == ServiceListing(data, p.propertyType, p.dealType)
    ensures Carries(SavedTwice(p, stored, located, relocated, baseSlug, id), data)
  {
    var first := SavedListing(None, p, stored, located, baseSlug);
    assert first.(latitude := p.latitude, longitude := p.longitude, slug := p.slug) == p;
    var r := SavedTwice(p, stored, located, relocated, baseSlug, id);
    assert r.(latitude := first.latitude, longitude := first.longitude, slug := first.slug) == first;
  }

  /** The listing saved twice, then its images imported, every URL tried. */
  method SaveWithImages(store: Store, p: Listing, located: Option<(real, real)>,
                        relocated: Option<(real, real)>, baseSlug: string,
                        mainImage: string, gallery: seq<string>, transfer: string -> ImageTransfer.Transfer)
    returns (id: nat, warnings: seq<string>)
    requires store.Valid()
    modifies store
    ensures store.Valid()
    ensures id == old(store.lastId) + 1 && id !in old(store.listings)
    ensures store.listings == old(store.listings)[id := SavedTwice(p, old(store.listings), located, relocated, baseSlug, id)]
    ensures store.types == old(store.types) && store.deals == old(store.deals)
    ensures exists h :: warnings == ImageTransfer.Run(ImageTransfer.Start(h), ImageTransfer.Pairs(mainImage, gallery),
                                                      false, transfer).warnings
  {
    id := SaveTwice(store, p, located, relocated, baseSlug);
    ghost var hadMain := ImageTransfer.HasMainImage(store.images, id);
    warnings := ImageTransfer.ImportImages(store, id, mainImage, gallery, false, transfer);
    assert warnings == ImageTransfer.Run(ImageTransfer.Start(hadMain), ImageTransfer.Pairs(mainImage, gallery),
                                         false, transfer).warnings;
  }

  /** What follows the download: both names resolved, then the listing built from the
      parsed record and saved with its images. */
  method ImportParsed(store: Store, data: ListingParser.ParsedProperty, slugify: string -> string,
                      located: Option<(real, real)>, relocated: Option<(real, real)>, baseSlug: string,
                      transfer: string -> ImageTransfer.Transfer)
    returns (outcome: ServiceOutcome)
    requires store.Valid() && data.area >= 0.0
    modifies store
    ensures store.Valid()
    ensures outcome == ResolveRaises || outcome.Imported?
    ensures store.types == ServiceType(old(store.types), old(store.lastId), data.propertyType, slugify).1
    ensures outcome == ResolveRaises ==> store.listings == old(store.listings) && store.images == old(store.images)
    ensures outcome.Imported? ==>
              var t := ServiceType(old(store.types), old(store.lastId), data.propertyType, slugify);
              var last := LastIdAfterType(old(store.types), old(store.lastId), data.propertyType, slugify);
              var d := ServiceDeal(old(store.deals), last, data.dealType);
              var p := ServiceListing(data, IdOf(t.0), IdOf(d.0));
              t.0 != Ambiguous && d.0 != Ambiguous && store.deals == d.1
              && outcome.id == last + |d.1| - |old(store.deals)| + 1 && outcome.id !in old(store.listings)
              && store.listings == old(store.listings)[outcome.id := SavedTwice(p, old(store.listings), located, relocated, baseSlug, outcome.id)]
    ensures outcome.Imported? ==>
              exists h :: outcome.warnings == ImageTransfer.Run(ImageTransfer.Start(h),
                            ImageTransfer.Pairs(data.mainImage, data.gallery), false, transfer).warnings
    ensures outcome.Imported? ==>
              store.listings.Keys == old(store.listings).Keys + {outcome.id} && Carries(store.listings[outcome.id], data)
  {
    var t, d := ResolveBoth(store, data.propertyType, data.dealType, slugify);
    if t == Ambiguous || d == Ambiguous {
      return ResolveRaises;
    }
    var p := ServiceListing(data, IdOf(t), IdOf(d));
    var id, warnings := SaveWithImages(store, p, located, relocated, baseSlug, data.mainImage, data.gallery, transfer);
    SavedCarries(p, data, old(store.listings), located, relocated, baseSlug, id);
    outcome := Imported(id, warnings);
  }

  /** `import_property_from_url`. An invalid URL is refused before anything is fetched;
      a failed page request changes nothing. */
  method ImportPropertyFromUrl(store: Store, url: string, download: string -> AdminBatch.Download,
                               fetched: PriceNormalizer.Rates, slugify: string -> string,
                               located: Option<(real, real)>, relocated: Option<(real, real)>, baseSlug: string,
                               transfer: string -> ImageTransfer.Transfer)
    returns (outcome: ServiceOutcome)
    requires store.Valid()
    modifies store
    ensures store.Valid()
    ensures outcome == InvalidImportUrl <==> url == "" || !IsValidUrl(url)
    ensures outcome.PageFailed? <==> url != "" && IsValidUrl(url) && download(url).DownloadError?
    ensures outcome.PageFailed? ==> outcome.reason == download(url).reason
    ensures outcome == InvalidImportUrl || outcome.PageFailed? ==>
              store.types == old(store.types) && store.deals == old(store.deals) && store.lastId == old(store.lastId)
              && store.listings == old(store.listings) && store.images == old(store.images)
    ensures outcome == ResolveRaises || outcome.Imported? ==>
              download(url).Downloaded?
              && store.types == ServiceType(old(store.types), old(store.lastId),
                                            ServiceParsed(download(url).doc, fetched).propertyType, slugify).1
    ensures outcome.Imported? ==>
              download(url).Downloaded? && outcome.id !in old(store.listings)
              && store.listings.Keys == old(store.listings).Keys + {outcome.id}
              && Carries(store.listings[outcome.id], ServiceParsed(download(url).doc, fetched))
  {
    if url == "" || !IsValidUrl(url) {
      return InvalidImportUrl;
    }
    var page := download(url);
    if page.DownloadError? {
      return PageFailed(page.reason);
    }
    var data := ServiceParsed(page.doc, fetched);
    outcome := ImportParsed(store, data, slugify, located, relocated, baseSlug, transfer);
  }

  /** A page with no images imports with no warnings. */
  lemma NoImagesNoWarnings(data: ListingParser.ParsedProperty, transfer: string -> ImageTransfer.Transfer, h: bool)
    requires data.mainImage == "" && data.gallery == []
    ensures ImageTransfer.Run(ImageTransfer.Start(h), ImageTransfer.Pairs(data.mainImage, data.gallery), false, transfer).warnings == []
  {
    assert ImageTransfer.Pairs(data.mainImage, data.gallery) == [];
  }

  /** Into empty tables an import with both names adds exactly one type row and one
      deal row, numbered from the store's one id counter. */
  lemma FreshTablesGainOneEach(typeName: string, dealName: string, slugify: string -> string, lastId: nat)
    requires typeName != "" && dealName != ""
    ensures var (t, types) := ServiceType([], lastId, typeName, slugify);
            t == Row(lastId + 1) && |types| == 1
    ensures var (d, deals) := ServiceDeal([], lastId + 1, dealName);
            d == Row(lastId + 2) && |deals| == 1
  {
    ServiceTypeExact([], lastId, typeName, slugify);
  }
}
