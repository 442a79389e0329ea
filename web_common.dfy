/**
 * Request helpers shared by the public views (landing_doominium_real_state/views/common.py):
 * absolute URLs for meta tags and the client address used as a throttle key.
 * The request's own URL resolution is a parameter.
 */
module WebCommon {
  import opened Wrappers
  import opened Text

  predicate IsAbsolute(url: string) {
    StartsWith(url, "http://") || StartsWith(url, "https://")
  }

  /** `build_absolute_uri(request, path)`: `current` is `request.build_absolute_uri()` and
      `resolve(p)` is `request.build_absolute_uri(p)`. */
  function BuildAbsoluteUri(current: string, resolve: string -> string, path: Option<string>): (r: string)
    ensures (path.None? || path == Some("")) ==> r == current
    ensures path.Some? && path.value != "" && IsAbsolute(path.value) ==> r == path.value
    ensures path.Some? && path.value != "" && !IsAbsolute(path.value) ==> r == resolve(path.value)
  {
    if path.None? || path.value == "" then current
    else if IsAbsolute(path.value) then path.value
    else resolve(path.value)
  }

  /** When the request resolves every path to an absolute URL, every result is absolute,
      and feeding a result back in returns it unchanged. */
  lemma AbsoluteUriStable(current: string, resolve: string -> string, path: Option<string>)
    requires IsAbsolute(current)
    requires forall p :: IsAbsolute(resolve(p))
    ensures IsAbsolute(BuildAbsoluteUri(current, resolve, path))
    ensures var r := BuildAbsoluteUri(current, resolve, path);
            BuildAbsoluteUri(current, resolve, Some(r)) == r
  {
    var r := BuildAbsoluteUri(current, resolve, path);
    assert r != "" by { assert |r| >= 7; }
  }

  /** `get_client_ip(request)` over `request.META`. */
  function ClientIp(meta: map<string, string>): string {
    if "HTTP_X_FORWARDED_FOR" in meta && meta["HTTP_X_FORWARDED_FOR"] != "" then
      Strip(Split(meta["HTTP_X_FORWARDED_FOR"], ",")[0])
    else if "REMOTE_ADDR" in meta then meta["REMOTE_ADDR"]
    else "unknown"
  }

  /** A forwarded chain gives its first hop, trimmed and without a comma; otherwise the
      peer address, else "unknown". */
  lemma ClientIpFirstHop(meta: map<string, string>)
    ensures var r := ClientIp(meta);
            if "HTTP_X_FORWARDED_FOR" in meta && meta["HTTP_X_FORWARDED_FOR"] != "" then
              var chain := meta["HTTP_X_FORWARDED_FOR"];
              var k := IndexOf(chain, ',');
              r == Strip(chain[..k]) && ',' !in r && Strip(r) == r
              && (k == |chain| || chain[k] == ',')
            else if "REMOTE_ADDR" in meta then r == meta["REMOTE_ADDR"]
            else r == "unknown"
  {
    if "HTTP_X_FORWARDED_FOR" in meta && meta["HTTP_X_FORWARDED_FOR"] != "" {
      var chain := meta["HTTP_X_FORWARDED_FOR"];
      var k := IndexOf(chain, ',');
      SplitFirst(chain, ',');
      var r := Strip(chain[..k]);
      assert Split(chain, ",") == Split(chain, [',']);
      StripIdempotent(chain[..k]);
      StripInside(chain[..k]);
      forall i | 0 <= i < |r| ensures r[i] != ',' {
        var j :| 0 <= j < |chain[..k]| && chain[..k][j] == r[i];
      }
    }
  }

  /** Every character of a stripped text comes from the text. */
  lemma StripInside(s: string)
    ensures forall i :: 0 <= i < |Strip(s)| ==> exists j :: 0 <= j < |s| && s[j] == Strip(s)[i]
  {
    var lo, hi := StripIsSlice(s);
    forall i | 0 <= i < |Strip(s)| ensures exists j :: 0 <= j < |s| && s[j] == Strip(s)[i] {
      assert s[lo + i] == Strip(s)[i];
    }
  }
}
