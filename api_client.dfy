/**
 * The URL building of the frontend's REST client: the request URL of
 * `api(path)` and the public URL of an uploaded file. The `fetch` calls
 * themselves are I/O and are not modelled.
 */
module ApiClient {
  import opened Common

  const ApiBase: string := "/api"

  /** The URL `api(path)` fetches: an absolute `http…` path as is, else under `/api`. */
  function RequestUrl(path: string): (url: string)
    ensures StartsWith(path, "http") ==> url == path
    ensures !StartsWith(path, "http") ==> url == ApiBase + path && |url| == |path| + 4
  {
    if StartsWith(path, "http") then path else ApiBase + path
  }

  /** `uploadsUrl(path)`: `http…` and `/…` paths as they are, any other path rooted with "/". */
  function UploadsUrl(path: string): (url: string)
  {
    if StartsWith(path, "http") then path
    else if StartsWith(path, "/") then path
    else "/" + path
  }

  /** uploadsUrl never alters the path: it ends the URL, behind at most one added character. */
  lemma UploadsUrlKeepsPath(path: string)
    ensures var url := UploadsUrl(path);
      |path| <= |url| <= |path| + 1 && url[|url| - |path|..] == path
  {
    if !StartsWith(path, "http") && !StartsWith(path, "/") {
      assert ("/" + path)[1..] == path;
    }
  }

  /** Every URL uploadsUrl returns is absolute (`http…`) or rooted (`/…`). */
  lemma UploadsUrlRooted(path: string)
    ensures StartsWith(UploadsUrl(path), "http") || StartsWith(UploadsUrl(path), "/")
  {
    if !StartsWith(path, "http") && !StartsWith(path, "/") {
      assert ("/" + path)[..1] == "/";
    }
  }

  /** uploadsUrl is idempotent: a URL it returned is returned unchanged. */
  lemma UploadsUrlIdempotent(path: string)
    ensures UploadsUrl(UploadsUrl(path)) == UploadsUrl(path)
  {
    UploadsUrlRooted(path);
  }

  /** A stored attachment path such as "uploads/a.png" is served from "/uploads/a.png". */
  lemma StoredPathIsRooted(dir: string, filename: string)
    requires dir != "" && dir[0] != 'h' && dir[0] != '/'
    ensures UploadsUrl(dir + "/" + filename) == "/" + dir + "/" + filename
  {
    assert (dir + "/" + filename)[0] == dir[0];
  }
}
