/** The language fallback policy and the fetch of a transcript record
    (`_get_transcript`). The page fetch and the transcript provider are
    network calls; they are parameters here. */
module Languages {
  import opened Wrappers
  import opened Errors
  import opened Text

  /** The languages offered to the provider for a requested tag: the tag
      itself, then English as the silent fallback. */
  function Candidates(lang: string): (r: seq<string>)
    ensures 1 <= |r| <= 2
    ensures r[0] == lang && r[|r| - 1] == "en"
    ensures |r| == 1 <==> lang == "en"
  {
    if lang == "en" then ["en"] else [lang, "en"]
  }

  /** The `Accept-Language` header value for a list of candidates: the
      most preferred language comes first. */
  function AcceptLanguage(languages: seq<string>): (header: string)
    ensures languages == [] ==> header == ""
    ensures languages != [] ==> StartsWith(header, languages[0])
    ensures languages != [] ==> |header| == Width(languages) + |languages| - 1
  {
    if languages != [] then JoinLength(",", languages); Join(",", languages)
    else ""
  }

  lemma AcceptLanguageOfCandidates(lang: string)
    ensures AcceptLanguage(Candidates(lang)) == if lang == "en" then "en" else lang + ",en"
  {
    if lang != "en" {
      assert Candidates(lang)[1..] == ["en"];
      assert Join(",", Candidates(lang)) == lang + "," + "en";
    }
  }

  const DefaultTitle := "Transcript"

  /** The page title, or the placeholder when the page has none or it is empty. */
  function TitleOrDefault(pageTitle: Option<string>): (t: string)
    ensures t != ""
    ensures pageTitle.Some? && pageTitle.value != "" ==> t == pageTitle.value
    ensures pageTitle.None? || pageTitle.value == "" ==> t == DefaultTitle
  {
    if pageTitle.Some? && pageTitle.value != "" then pageTitle.value else DefaultTitle
  }

  /** A transcript as fetched: the title and the caption lines in order. */
  datatype Record = Record(title: string, lines: seq<string>)

  /** `_get_transcript`: fetch the watch page with the candidates as language
      preference (its title, if any), then the caption lines for the same
      candidates. A failing page fetch stops before the provider is asked.
      Either fetch fails with a message, which becomes a `Provider` error. */
  function LoadTranscript(
    videoId: string,
    lang: string,
    fetchPage: (string, string) -> Result<Option<string>, string>,
    fetchLines: (string, seq<string>) -> Result<seq<string>, string>
  ): (r: Result<Record, Error>)
    ensures var page := fetchPage(videoId, AcceptLanguage(Candidates(lang)));
      var lines := fetchLines(videoId, Candidates(lang));
      && (page.Failure? ==> r == Failure(Provider(page.error)))
      && (page.Success? && lines.Failure? ==> r == Failure(Provider(lines.error)))
      && (page.Success? && lines.Success? ==>
            r.Success? && r.value.title == TitleOrDefault(page.value) && r.value.lines == lines.value)
  {
    var languages := Candidates(lang);
    match fetchPage(videoId, AcceptLanguage(languages))
    case Failure(message) => Failure(Provider(message))
    case Success(pageTitle) =>
      match fetchLines(videoId, languages)
      case Failure(message) => Failure(Provider(message))
      case Success(lines) => Success(Record(TitleOrDefault(pageTitle), lines))
  }
}
