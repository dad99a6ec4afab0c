/** The failures a transcript request can end in. Each one surfaces to the
    protocol layer as a failed tool call, never as a crash of the server. */
module Errors {
  import opened Text

  datatype Error =
    | InvalidUrl(url: string)        // no video id could be recovered from the URL
    | InvalidCursor(cursor: string)  // the continuation cursor is not a decimal number
    | Provider(message: string)      // the page fetch or the transcript provider failed

  /** `s` occurs somewhere inside `t`. */
  ghost predicate Occurs(s: string, t: string)
  {
    exists i :: 0 <= i <= |t| && StartsWith(t[i..], s)
  }

  /** The text of the error raised for a URL without a video id. */
  function UrlMessage(url: string): (m: string)
    ensures Occurs(url, m)
  {
    var prefix := "couldn't find a video ID from the provided URL: ";
    var m := prefix + url + ".";
    assert StartsWith(m[|prefix|..], url);
    m
  }
}
