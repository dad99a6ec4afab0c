/** Resolving a YouTube URL to a video id. The URL arrives already split into
    its host name, path and query pairs (in the order `parse_qs` keeps them,
    blank values already dropped); only the selection rule is modelled. */
module Url {
  import opened Wrappers
  import opened Errors
  import opened Text

  /** A URL as the standard URL parser splits it. `url` is the original text,
      kept for the error message. */
  datatype UrlParts = UrlParts(url: string, hostname: Option<string>, path: string, query: seq<(string, string)>)

  const ShortHost := "youtu.be"

  /** The first value given for `key` in the query, if any. */
  function FirstValue(query: seq<(string, string)>, key: string): (r: Option<string>)
    ensures r.None? <==> forall i :: 0 <= i < |query| ==> query[i].0 != key
    ensures r.Some? ==>
      exists i :: (0 <= i < |query| && query[i] == (key, r.value)
                   && forall j :: 0 <= j < i ==> query[j].0 != key)
  {
    if |query| == 0 then None
    else if query[0].0 == key then Some(query[0].1)
    else
      var r := FirstValue(query[1..], key);
      assert r.Some? ==>
        exists i :: (1 <= i < |query| && query[i] == (key, r.value)
                     && forall j :: 0 <= j < i ==> query[j].0 != key) by {
        if r.Some? {
          var i :| 0 <= i < |query[1..]| && query[1..][i] == (key, r.value)
            && forall j :: 0 <= j < i ==> query[1..][j].0 != key;
          assert query[i + 1] == (key, r.value);
        }
      }
      r
  }

  /** The video id of a URL: on the short-link host, the path without its
      leading slashes; elsewhere, the first `v` query value; otherwise an
      error naming the URL. */
  function ResolveVideoId(u: UrlParts): (r: Result<string, Error>)
    ensures r.Failure? <==>
      (u.hostname != Some(ShortHost) && forall i :: 0 <= i < |u.query| ==> u.query[i].0 != "v")
    ensures r.Failure? ==> r.error == InvalidUrl(u.url)
    ensures u.hostname == Some(ShortHost) ==>
      (r.Success? && |r.value| <= |u.path| && r.value == u.path[|u.path| - |r.value|..]
       && (r.value == [] || r.value[0] != '/')
       && forall i :: 0 <= i < |u.path| - |r.value| ==> u.path[i] == '/')
    ensures u.hostname != Some(ShortHost) && r.Success? ==>
      exists i :: (0 <= i < |u.query| && u.query[i] == ("v", r.value)
                   && forall j :: 0 <= j < i ==> u.query[j].0 != "v")
  {
    if u.hostname == Some(ShortHost) then Success(LStrip(u.path, '/'))
    else
      match FirstValue(u.query, "v")
      case None => Failure(InvalidUrl(u.url))
      case Some(v) => Success(v)
  }

  /** The message of a resolution failure names the URL that was given. */
  lemma ErrorNamesUrl(u: UrlParts)
    requires ResolveVideoId(u).Failure?
    ensures ResolveVideoId(u).error.InvalidUrl?
    ensures Occurs(u.url, UrlMessage(ResolveVideoId(u).error.url))
  {
  }

  /** A short link with nothing after the slashes resolves to the empty id:
      no check that the id is non-empty is made. */
  lemma EmptyShortLink(url: string, slashes: nat, query: seq<(string, string)>)
    ensures ResolveVideoId(UrlParts(url, Some(ShortHost), seq(slashes, _ => '/'), query)) == Success("")
  {
  }
}
