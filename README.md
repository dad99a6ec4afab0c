# mcp-youtube-transcript — a Dafny model of transcript pagination and request handling

The server exposes a `get_transcript` tool to model-context-protocol clients.
The tool takes a YouTube URL, a language tag and an optional continuation
cursor. It resolves the URL to a video id and builds the list of candidate
languages, with English as the fallback. It then fetches the page title and
the caption lines. Under a positive response limit it returns one page of
the transcript and the cursor of the next page. Without a limit it returns
the whole transcript. When the server starts, it chooses a proxy mode from
the credentials it was given.

This project models that logic in Dafny 4.11. Each network call is a function
parameter, and a URL arrives already split into its parts. The modules are:

- `Wrappers`: the `Option` and `Result` types.
- `Errors`: the three failure kinds and the message naming a bad URL.
- `Text`: `sep.join` and `lstrip`.
- `Cursor`: writing a cursor as `str(i)` and reading it back with `int(next_cursor or 0)`.
- `Pagination`: the bounded loop and its functional specification, the
  lemmas about pages, and the client's read-until-no-cursor round trip.
- `Url`: video-id resolution.
- `Languages`: the candidate list, the `Accept-Language` value, the title
  fallback, and loading a record.
- `Proxy`: proxy-mode selection.
- `Server`: the composed `get_transcript` tool.

The pagination loop is imperative in the source. It is therefore the method
`Pagination.BuildPage`, whose loop invariants tie the accumulator to
`Terminated(lines[start..i])`. The method is proved equal to the
specification function `Pagination.Paginate`. The lemmas then prove the page
properties about `Paginate`. Everything else in the source is conditionals
and expressions, so it is modelled as functions.

In unbounded mode (no limit, or a limit of zero or less) the source joins
ALL lines and returns before it reads the cursor
(`src/mcp_youtube_transcript/__init__.py:142-143`). A malformed cursor is
therefore an error only when a positive limit is set. The short-link branch
makes no check that the id is non-empty, so `https://youtu.be/` resolves to
the empty id (`Url.EmptyShortLink`).

## Model

| member | source | states |
|---|---|---|
| `Pagination.BuildPage` | src/mcp_youtube_transcript/__init__.py:145-153 | the loop's page (chunk text and cursor) equals the specification `Paginate` for every line list, start and positive limit, including a start past the end |
| `Pagination.FitEnd` | src/mcp_youtube_transcript/__init__.py:147-151 | the stopping index lies in `[i, len(lines)]`; the accumulated lines before it fit in the budget; the line at it, if any, would overflow |
| `Pagination.Paginate` | src/mcp_youtube_transcript/__init__.py:145-153 | the specification of one page: a start at or past the end gives `""` and no cursor; a cursor lies in `[start, len(lines))`; the lemmas below state the rest |
| `Pagination.ChunkWithinLimit` | src/mcp_youtube_transcript/__init__.py:148-153 | under a positive limit the returned transcript is strictly shorter than the limit |
| `Pagination.TerminatedIsJoin` | src/mcp_youtube_transcript/__init__.py:151-153 | the accumulator of `line + "\n"` pieces with its last character dropped is `"\n".join` of those lines |
| `Pagination.ChunkIsContiguousJoin` | src/mcp_youtube_transcript/__init__.py:145-153 | the chunk is `"\n".join(lines[start:k])` with `k` the cursor or `len(lines)`; a start at or past the end (also an empty transcript) gives `""` and no cursor |
| `Pagination.CursorIsFirstOverflow` | src/mcp_youtube_transcript/__init__.py:147-151 | a cursor `c` satisfies `start <= c < len(lines)`; line `c` overflows; every earlier line from `start` fitted when it was appended |
| `Pagination.NoCursorIffAllFit` | src/mcp_youtube_transcript/__init__.py:147-153 | no cursor is returned exactly when the start is past the end or every line from the start fits |
| `Pagination.ZeroProgressIff` | src/mcp_youtube_transcript/__init__.py:148-150 | the cursor equals the start exactly when `len(lines[start]) + 1 > limit` |
| `Pagination.CursorAdvances` | src/mcp_youtube_transcript/__init__.py:147-151 | when every line fits on its own, a returned cursor is strictly greater than the start |
| `Pagination.ReadAllRoundTrip` | tests/test_mcp.py:177-194 | re-calling with each returned cursor until none comes back, then joining the chunks with `"\n"`, gives `"\n".join(lines[start:])` |
| `Pagination.WholeTranscriptRoundTrip` | tests/test_mcp.py:177-194 | starting from cursor 0, the joined chunks equal the unbounded transcript `"\n".join(lines)` |
| `Cursor.ShowNat` | src/mcp_youtube_transcript/__init__.py:149 | `str(i)` is a non-empty string of decimal digits with no leading zero |
| `Cursor.ParseCursor` | src/mcp_youtube_transcript/__init__.py:147 | an absent or empty cursor is line 0; a digit string is accepted; any other string is an error carrying that cursor |
| `Cursor.CursorRoundTrip` | src/mcp_youtube_transcript/__init__.py:147-149 | a cursor written as `str(i)` parses back to `i` |
| `Server.CursorText` | src/mcp_youtube_transcript/__init__.py:149-153 | a page has a cursor string exactly when it has a cursor index, and the string parses back to that index |
| `Server.GetTranscript` | src/mcp_youtube_transcript/__init__.py:124-153 | URL errors come first, then fetch errors as `LoadTranscript` reports them; unbounded mode returns the whole join with no cursor whatever cursor was passed; bounded mode fails on a malformed cursor or a start index beyond `islice`'s largest (`sys.maxsize`), and otherwise returns the `Paginate` page at the parsed cursor, shorter than the limit; the title is never empty |
| `Text.LStrip` | src/mcp_youtube_transcript/__init__.py:133 | `lstrip("/")` drops only `/` characters, keeps a suffix of the path, and the result does not start with `/` |
| `Text.Join` | src/mcp_youtube_transcript/__init__.py:143 | `sep.join(parts)`: empty for no parts; otherwise it starts with the first part |
| `Text.JoinLength` | src/mcp_youtube_transcript/__init__.py:143 | a join of one or more parts is as long as all parts plus one separator per seam |
| `Text.JoinAppend` | src/mcp_youtube_transcript/__init__.py:143 | joining two non-empty lists puts exactly one separator at the seam |
| `Url.FirstValue` | src/mcp_youtube_transcript/__init__.py:135-138 | the result is absent exactly when no query pair has the key; otherwise it is the value of the first such pair |
| `Url.ResolveVideoId` | src/mcp_youtube_transcript/__init__.py:131-138 | on host `youtu.be` the id is the path with every leading `/` stripped; on other hosts it is the first `v` value; it fails exactly when there is no `v` on another host, and the error carries the URL |
| `Url.ErrorNamesUrl` | src/mcp_youtube_transcript/__init__.py:137 | the message of a resolution failure contains the original URL |
| `Url.EmptyShortLink` | src/mcp_youtube_transcript/__init__.py:132-133 | a short link whose path is only slashes resolves to the empty id, not an error |
| `Errors.UrlMessage` | src/mcp_youtube_transcript/__init__.py:137 | the error text contains the URL |
| `Languages.Candidates` | src/mcp_youtube_transcript/__init__.py:77-80 | the list has one or two entries, starts with the requested tag and ends with `"en"`; it has one entry exactly when the tag is `"en"` |
| `Languages.AcceptLanguage` | src/mcp_youtube_transcript/__init__.py:83 | the header `",".join(languages)` starts with the most preferred language and is as long as the tags plus one comma per seam |
| `Languages.AcceptLanguageOfCandidates` | src/mcp_youtube_transcript/__init__.py:83 | the header is `"en"` for `"en"` and `lang + ",en"` otherwise |
| `Languages.TitleOrDefault` | src/mcp_youtube_transcript/__init__.py:87 | the title is never empty: a missing or empty page title becomes `"Transcript"`, any other is kept |
| `Languages.LoadTranscript` | src/mcp_youtube_transcript/__init__.py:76-90 | a page-fetch failure is returned before the provider is asked; either failure becomes a `Provider` error carrying its message; on success the lines are the provider's and the title is the page title or, when that is missing or empty, `"Transcript"` |
| `Proxy.SelectProxy` | src/mcp_youtube_transcript/__init__.py:115-119 | Webshare exactly when both credentials are non-empty, even if proxy URLs are also given; otherwise generic exactly when one proxy URL is non-empty; otherwise none; the chosen mode carries the given values |

## Left out

- Tool registration, the server lifespan and the shared clients (the HTTP session, the transcript client, the metadata extractor): protocol plumbing with no logic of its own.
- `get_video_info` and `_parse_time_info`: a call into the metadata extractor plus library date parsing and duration formatting.
- The network: the page fetch (including `raise_for_status` and disabled TLS verification) and the transcript provider are the function parameters `fetchPage` and `fetchLines` of `Languages.LoadTranscript`. Each fails with a message, and `LoadTranscript` wraps it as the error kind `Provider`; the distinct exception classes are not kept apart.
- HTML title extraction: `fetchPage` returns the page title or `None`, and only the fallback to `"Transcript"` is modelled.
- Memoisation of `_get_transcript` and `_get_video_info` (a bounded LRU cache of 128 entries). A cache hit returns the stored value, so it does not change any result modelled here.
- URL splitting: the host name, path and query pairs arrive already split. Percent-decoding, host-name lower-casing and the dropping of blank query values are not modelled.
- Cursor.ParseCursor: accepts only ASCII decimal digits. Python's `int()` also accepts surrounding whitespace, a sign, underscores between digits and non-ASCII digits, and those inputs are errors in the model. A negative number, which makes `islice` raise, is an error in both. A digit string above `sys.maxsize` (taken as the 64-bit value) is refused by `Server.GetTranscript`, as `islice` refuses it. Python's limit of 4300 digits on `int()` is not modelled: a longer digit string with leading zeros and a small value is accepted by the model and refused by the source.
- Transcripts longer than `sys.maxsize` lines cannot exist in the source; the model does not bound the number of lines, and `Pagination.ReadAll` works on line indices rather than going through `Server.GetTranscript`.
- Concurrency: requests run independently and share no mutable state in the modelled logic.
