/** A movie as the server returns it, and the card that links to it: how an
    image path becomes the address the browser loads, and the link to the
    detail page. The `REACT_APP_API_URL` build setting is the parameter
    `apiUrl` (empty when it is unset). */
module MovieCard {
  import opened Wrappers
  import opened JsText

  const HttpScheme := "http"
  const DetailPrefix := "/movie/"

  /** The fields of a movie the pages read. Optional fields may be missing
      or `null`. */
  datatype Movie = Movie(
    id: string, title: string, year: nat, description: string,
    poster: Option<string>, banner: Option<string>, gallery: Option<seq<string>>,
    downloadLink: Option<string>, streamingLink: Option<string>)

  /** `getImageUrl`: nothing for a missing or empty path, a path that already
      starts with `http` as it is, and otherwise the path behind `apiUrl`. */
  function ImageUrl(path: Option<string>, apiUrl: string): (url: string)
    ensures !IsTruthy(path) ==> url == []
    ensures IsTruthy(path) && StartsWith(path.value, HttpScheme) ==> url == path.value
    ensures IsTruthy(path) && !StartsWith(path.value, HttpScheme) ==> url == apiUrl + path.value
  {
    if !IsTruthy(path) then []
    else if StartsWith(path.value, HttpScheme) then path.value
    else if apiUrl != [] then apiUrl + path.value
    else path.value
  }

  /** Every non-empty path survives at the end of its address, and an
      address is empty only for a missing or empty path. */
  lemma ImageUrlKeepsPath(path: Option<string>, apiUrl: string)
    ensures ImageUrl(path, apiUrl) == [] <==> !IsTruthy(path)
    ensures IsTruthy(path) ==>
      var url := ImageUrl(path, apiUrl);
      |path.value| <= |url| && url[|url| - |path.value|..] == path.value
  {
    if IsTruthy(path) && !StartsWith(path.value, HttpScheme) {
      var url := apiUrl + path.value;
      assert url[|url| - |path.value|..] == path.value;
    }
  }

  /** With no API address, or one that is itself an `http` address,
      resolving an address again gives the same address. */
  lemma ImageUrlIdempotent(path: Option<string>, apiUrl: string)
    requires apiUrl == [] || StartsWith(apiUrl, HttpScheme)
    ensures ImageUrl(Some(ImageUrl(path, apiUrl)), apiUrl) == ImageUrl(path, apiUrl)
  {
    if IsTruthy(path) && !StartsWith(path.value, HttpScheme) && apiUrl != [] {
      var url := apiUrl + path.value;
      assert url[..|HttpScheme|] == apiUrl[..|HttpScheme|];
    }
  }

  /** The link target of a card. */
  function DetailPath(id: string): (path: string)
    ensures StartsWith(path, DetailPrefix) && path[|DetailPrefix|..] == id
  {
    DetailPrefix + id
  }
}
