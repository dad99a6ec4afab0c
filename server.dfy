/** The `get_transcript` tool: resolve the URL, load the transcript for the
    requested language, and return it whole or one page at a time. */
module Server {
  import opened Wrappers
  import opened Errors
  import opened Text
  import opened Cursor
  import opened Pagination
  import opened Url
  import opened Languages

  /** The tool's result: title, transcript text and the optional cursor of
      the next page. */
  datatype Transcript = Transcript(title: string, transcript: string, nextCursor: Option<string>)

  /** A response limit that is absent or not positive means "no limit". */
  predicate Unbounded(responseLimit: Option<int>)
  {
    responseLimit.None? || responseLimit.value <= 0
  }

  /** The cursor string handed to the client for a page. */
  function CursorText(cursor: Option<nat>): (s: Option<string>)
    ensures s.Some? <==> cursor.Some?
    ensures s.Some? ==> ParseCursor(s) == Success(cursor.value)
  {
    match cursor
    case None => None
    case Some(i) => CursorRoundTrip(i); Some(ShowNat(i))
  }

  method GetTranscript(
    responseLimit: Option<int>,
    url: UrlParts,
    lang: string,
    nextCursor: Option<string>,
    fetchPage: (string, string) -> Result<Option<string>, string>,
    fetchLines: (string, seq<string>) -> Result<seq<string>, string>
  ) returns (r: Result<Transcript, Error>)
    // a URL without a video id fails before anything is fetched
    ensures ResolveVideoId(url).Failure? ==> r == Failure(InvalidUrl(url.url))
    // a failed fetch is passed on unchanged
    ensures ResolveVideoId(url).Success? ==>
      var rec := LoadTranscript(ResolveVideoId(url).value, lang, fetchPage, fetchLines);
      rec.Failure? ==> r == Failure(rec.error)
    // unbounded mode: the whole transcript and no cursor, whatever cursor was passed
    ensures ResolveVideoId(url).Success? && Unbounded(responseLimit) ==>
      var rec := LoadTranscript(ResolveVideoId(url).value, lang, fetchPage, fetchLines);
      rec.Success? ==> r == Success(Transcript(rec.value.title, Join("\n", rec.value.lines), None))
    // bounded mode: the page that starts at the parsed cursor, which `islice`
    // refuses beyond its largest index
    ensures ResolveVideoId(url).Success? && !Unbounded(responseLimit) ==>
      var rec := LoadTranscript(ResolveVideoId(url).value, lang, fetchPage, fetchLines);
      var start := ParseCursor(nextCursor);
      rec.Success? ==>
        (start.Failure? ==> r == Failure(start.error))
        && (start.Success? && start.value > MaxIndex ==> r == Failure(InvalidCursor(nextCursor.value)))
        && (start.Success? && start.value <= MaxIndex ==>
              var p := Paginate(rec.value.lines, start.value, responseLimit.value);
              r == Success(Transcript(rec.value.title, p.text, CursorText(p.cursor))))
    ensures r.Success? && !Unbounded(responseLimit) ==> |r.value.transcript| < responseLimit.value
    ensures r.Success? ==> r.value.title != ""
  {
    var videoId;
    match ResolveVideoId(url) {
      case Failure(e) => return Failure(e);
      case Success(id) => videoId := id;
    }
    var title, lines;
    match LoadTranscript(videoId, lang, fetchPage, fetchLines) {
      case Failure(e) => return Failure(e);
      case Success(rec) => title, lines := rec.title, rec.lines;
    }
    if responseLimit.None? || responseLimit.value <= 0 {
      return Success(Transcript(title, Join("\n", lines), None));
    }
    var start;
    match ParseCursor(nextCursor) {
      case Failure(e) => return Failure(e);
      case Success(s) => start := s;
    }
    if start > MaxIndex {
      return Failure(InvalidCursor(nextCursor.value));
    }
    var text, cursor := BuildPage(lines, start, responseLimit.value);
    ChunkWithinLimit(lines, start, responseLimit.value);
    r := Success(Transcript(title, text, CursorText(cursor)));
  }
}
