/** src/lib/auth/authHelpers.ts: normalising profile image URLs to `https`. */
module AuthHelpers {
  import opened Wrappers
  import opened Strings

  const HTTP: string := "http://"
  const HTTPS: string := "https://"

  /** `normalizeImageUrl`: a missing or empty URL becomes `undefined`; a URL that
      starts with `http://` has that prefix replaced by `https://`; any other
      URL is returned as it is. */
  function NormalizeImageUrl(url: Option<string>): (r: Option<string>)
    ensures !Truthy(url) <==> r == None
    ensures Truthy(url) && StartsWith(url.value, HTTP) ==> r == Some(HTTPS + url.value[|HTTP|..])
    ensures Truthy(url) && !StartsWith(url.value, HTTP) ==> r == url
    ensures r.Some? ==> r.value != "" && !StartsWith(r.value, HTTP)
    ensures r.Some? ==> |r.value| == |url.value| + (if StartsWith(url.value, HTTP) then 1 else 0)
  {
    if !Truthy(url) then None
    else if StartsWith(url.value, HTTP) then
      ReplaceFirstAtStart(url.value, HTTP, HTTPS);
      assert (HTTPS + url.value[|HTTP|..])[4] != HTTP[4];
      Some(ReplaceFirst(url.value, HTTP, HTTPS))
    else url
  }

  /** Normalising twice is the same as normalising once. */
  lemma NormalizeIdempotent(url: Option<string>)
    ensures NormalizeImageUrl(NormalizeImageUrl(url)) == NormalizeImageUrl(url)
  {
  }
}
