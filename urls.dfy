/** Links to stored files. */
module Urls {
  import opened Common

  /** Already a full address: `http://` or `https://`. */
  predicate IsAbsolute(p: string)
  {
    StartsWith(p, "http://") || StartsWith(p, "https://")
  }

  /** `replace(/^\/+/, '')`: every leading '/' removed. */
  function StripLeadingSlashes(p: string): (r: string)
    ensures |r| <= |p| && r == p[|p| - |r|..]
    ensures r == [] || r[0] != '/'
    ensures forall k :: 0 <= k < |p| - |r| ==> p[k] == '/'
  {
    if p != [] && p[0] == '/' then
      var r := StripLeadingSlashes(p[1..]);
      assert p[1..][|p[1..]| - |r|..] == p[|p| - |r|..];
      r
    else p
  }

  /**
   * A relative path under the storage address: the address, one '/', and
   * the path with its leading slashes removed.
   */
  function UnderStorage(storageBaseUrl: string, p: string): (r: string)
    ensures StartsWith(r, storageBaseUrl + "/")
    ensures var rest := r[|storageBaseUrl| + 1..];
      var n := |p| - |rest|;
      0 <= n <= |p| && p == p[..n] + rest &&
      (rest == [] || rest[0] != '/') &&
      forall k :: 0 <= k < n ==> p[k] == '/'
  {
    var rest := StripLeadingSlashes(p);
    var n := |p| - |rest|;
    assert p == p[..n] + rest;
    var url := storageBaseUrl + "/" + rest;
    assert url[..|storageBaseUrl| + 1] == storageBaseUrl + "/";
    assert url[|storageBaseUrl| + 1..] == rest;
    url
  }

  /**
   * `getFileUrl`: nothing for a missing or empty path, a full address as it
   * is, and otherwise the path under the storage address.
   */
  function GetFileUrl(path: Option<string>, storageBaseUrl: string): (r: Option<string>)
    ensures r.None? <==> !JsTruthy(path)
    ensures JsTruthy(path) && IsAbsolute(path.value) ==> r == path
    ensures JsTruthy(path) && !IsAbsolute(path.value) ==> r == Some(UnderStorage(storageBaseUrl, path.value))
  {
    if !JsTruthy(path) then None
    else if IsAbsolute(path.value) then path
    else Some(UnderStorage(storageBaseUrl, path.value))
  }

  /** A leading '/' makes no difference to a relative path. */
  lemma LeadingSlashIgnored(p: string, storageBaseUrl: string)
    requires p != "" && !IsAbsolute(p)
    ensures GetFileUrl(Some("/" + p), storageBaseUrl) == GetFileUrl(Some(p), storageBaseUrl)
  {
    var q := "/" + p;
    assert q[1..] == p;
    assert !StartsWith(q, "http://") && !StartsWith(q, "https://") by {
      assert q[0] == '/';
    }
  }

  /** A prefix of a prefix carries over to a longer string. */
  lemma StartsWithExtends(s: string, more: string, prefix: string)
    requires StartsWith(s, prefix)
    ensures StartsWith(s + more, prefix)
  {
    assert (s + more)[..|prefix|] == s[..|prefix|];
  }

  /** With an absolute storage address, building a link twice changes
      nothing: the link is already absolute. */
  lemma GetFileUrlIdempotent(path: Option<string>, storageBaseUrl: string)
    requires IsAbsolute(storageBaseUrl)
    ensures var r := GetFileUrl(path, storageBaseUrl);
      r.Some? ==> GetFileUrl(r, storageBaseUrl) == r
  {
    if JsTruthy(path) && !IsAbsolute(path.value) {
      var rest := StripLeadingSlashes(path.value);
      if StartsWith(storageBaseUrl, "http://") {
        StartsWithExtends(storageBaseUrl, "/" + rest, "http://");
      } else {
        StartsWithExtends(storageBaseUrl, "/" + rest, "https://");
      }
      assert storageBaseUrl + "/" + rest == storageBaseUrl + ("/" + rest);
    }
  }
}
