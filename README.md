# OSRS Wiki bot: a verified model of its text and decision layer

`bot_simple.py` is a Discord bot that answers five slash commands
(`/search`, `/info`, `/random`, `/recent`, `/ai`) from the Old School
RuneScape Wiki. Each command asks the wiki's MediaWiki API through one
shared `OSRSWikiSearcher`, reduces the decoded JSON answer to a list, a
record or nothing, cleans the wiki's HTML with `clean_html`, truncates it,
builds page links, and fills an embed. `/ai` also hands the cleaned text to
a language model.

This Dafny project models that layer:

- **Text** (`text.dfy`) models `clean_html`, its four steps one by one:
  - tag removal with `<[^>]+>`;
  - `html.unescape`, over a table of six references;
  - collapsing `\s+` to one space;
  - `strip()`, over Python's exact `isspace` set.
- **Format** (`format.dfy`) models:
  - the five truncation caps;
  - the search snippet, which always gets "...";
  - the `/recent` limit clamp;
  - page links, where spaces become `_` and nothing is percent-encoded;
  - the `"{i}. {title}"` field names.
- **UrlQuote** (`urlquote.dfy`) models `urllib.parse.quote`, the only
  percent-encoding the bot does, on the search link: UTF-8, then `%XX`
  in upper-case hex, with `safe='/'`.
- **JsonValue** (`json.dfy`) models decoded JSON with Python's
  truthiness, `dict.get`, indexing and `str()` of scalars.
- **Client** (`client.dfy`) models `OSRSWikiSearcher`:
  - It is a class with a lazily created session.
  - Each read operation issues one GET, with the exact query parameters the
    source sends, while the session is open; once it is closed the GET
    fails before it is sent.
  - Its answer is reduced by a pure function. Every failure becomes `[]` or
    nothing, as in the source.
  - The wiki is a parameter, `Network = Get -> HttpOutcome`. The searcher
    logs the GETs it issues in a ghost field.
- **Commands** (`commands.dfy`) models each handler as a function of the
  wiki (and, for `/ai`, the language model). The function yields the reply,
  the GETs sent and the completion request. An exception that the handler's
  `try` catches is the reply `Failed`.
- **Handlers** (`handlers.dfy`) holds the handlers as methods. They run step
  by step against a `WikiSearcher`, and the field-building loops carry
  invariants. Each method is proved to give the reply and the request log
  that the Commands functions state.

Two facts about the code that a reader might not expect:

- `clean_html` is not idempotent (`Text.CleanHtmlNotIdempotent`). One pass
  turns `&lt;b&gt;` into the tag `<b>`, and a second pass removes it.
- Page titles are not percent-encoded in page links. Only spaces become `_`.
  The search query in the search link is the only text that is
  percent-encoded.

`OSRSWikiSearcher.close` closes the session but leaves the field pointing
at it, so `get_session` hands out the closed session afterwards. A request
on it raises, and each read operation's `except` turns that into `[]` or
`None`, as for a failed transport; nothing reaches the wiki. The model
states this with `WikiSearcher.Open()` and `Through(open, net)`, which is
the network while the session is open and `Offline()`, where every GET
fails, once it is closed. `Commands.OfflineReplies` gives the replies that
follow.

## Model

| member | source | states |
|---|---|---|
| `Text.FirstClose` | bot_simple.py:35 | the position of the first '>' (or the end): where the greedy `[^>]+` of a match must stop |
| `Text.StripTags` | bot_simple.py:35 | tag removal only ever drops characters: never longer, every character comes from the input; with `StripTagsTag` and `StripTagsWithoutOpen` it is determined on text built of tags and text |
| `Text.StripTagsAfterText` | bot_simple.py:35 | text without '<' is kept as it is, and removal of what follows it goes on unaffected |
| `Text.StripTagsLeadingTag` | bot_simple.py:35 | a tag at the front (a '<', one or more non-'>' characters, a '>') is removed whole |
| `Text.StripTagsTag` | bot_simple.py:35 | a tag `<y>` (y non-empty, without '>') after text without '<' is removed whole; the text before it and the result for what follows are kept |
| `Text.StripTagsLeavesNoTag` | bot_simple.py:35 | after removal no `<`, one or more non-`>` characters, `>` is left, not even one that removal itself brought together |
| `Text.StripTagsKeepsTagFree` | bot_simple.py:35 | text without a tag is left alone |
| `Text.StripTagsFixedPoints` | bot_simple.py:35 | removal leaves a text unchanged exactly when it has no tag; removal is idempotent |
| `Text.StripTagsWithoutOpen` | bot_simple.py:35 | text without '<' is left alone |
| `Text.StripTagsEmptyBrackets` | bot_simple.py:35 | `<>` is no tag: both brackets are kept and removal goes on after them |
| `Text.EntityAt` | bot_simple.py:37 | a recognised reference starts with '&' and fits in the text |
| `Text.Unescape` | bot_simple.py:37 | decoding never lengthens the text |
| `Text.UnescapeEscape` | bot_simple.py:37 | decoding inverts `html.escape`: unescape(escape(s)) == s for every s |
| `Text.UnescapeWithoutAmpersand` | bot_simple.py:37 | text without '&' is left alone by decoding |
| `Text.UnescapeAfterText` | bot_simple.py:37 | text without '&' is copied, and decoding of what follows it goes on unaffected |
| `Text.UnescapeReference` | bot_simple.py:37 | each of the six references of the table (`&amp;`, `&lt;`, `&gt;`, `&quot;`, `&#x27;`, `&#39;`) becomes its character, whatever follows |
| `Text.UnescapeBareAmpersand` | bot_simple.py:37 | a '&' that starts no reference of the table is kept, and decoding goes on after it |
| `Text.Collapse` | bot_simple.py:39 | after `re.sub(r'\s+', ' ')`: empty exactly when the input is, starts with whitespace exactly when the input does, only plain spaces, never two in a row; `CollapseRun` and `CollapseWord` say what each part becomes |
| `Text.CollapseKeepsText` | bot_simple.py:39 | collapsing keeps every non-whitespace character, in order |
| `Text.CollapseRun` | bot_simple.py:39 | a maximal whitespace run of any length and kind becomes exactly one plain space, and the rest is collapsed on its own |
| `Text.CollapseWord` | bot_simple.py:39 | characters other than whitespace are copied unchanged, in place |
| `Text.IsSpace` | bot_simple.py:39-40 | Python's whitespace set, shared by `\s` and `str.strip()`: 9-13, 1C-20, 85, A0, 1680, 2000-200A, 2028, 2029, 202F, 205F, 3000; used by `Collapse` and `Strip` |
| `Text.DropLeadingSpaces` | bot_simple.py:40 | lstrip: a suffix of the input, not starting with whitespace, having dropped only whitespace |
| `Text.DropTrailingSpaces` | bot_simple.py:40 | rstrip: a prefix of the input, not ending with whitespace, having dropped only whitespace |
| `Text.StripSlice` | bot_simple.py:40 | `strip()` keeps one contiguous slice of its input |
| `Text.Strip` | bot_simple.py:40 | `str.strip()` as lstrip then rstrip: no whitespace is left at either end; `StripSlice` and `StripKeepsText` say what is kept |
| `Text.StripKeepsText` | bot_simple.py:40 | `strip()` drops whitespace only |
| `Text.CollapseStripShape` | bot_simple.py:39-40 | collapse then strip: no whitespace at either end, only plain spaces, never two adjacent whitespace characters, all other characters kept in order |
| `Text.CleanHtml` | bot_simple.py:32-41 | `clean_html`: tag removal, then decoding, then collapsing, then `strip()`; `CleanHtmlShape` states its output shape |
| `Text.CleanHtmlShape` | bot_simple.py:32-41 | the output of `clean_html` has no leading or trailing whitespace, no two adjacent whitespace characters, only plain spaces, and all non-whitespace characters of the decoded, tag-free text |
| `Text.CleanHtmlNotIdempotent` | bot_simple.py:32-41 | `clean_html("&lt;b&gt;") == "<b>"` but cleaning that again gives "" |
| `Format.Truncate` | bot_simple.py:268-269 | text within the cap is unchanged; longer text becomes its first cap characters plus "...", of length cap + 3 |
| `Format.TruncateBounds` | bot_simple.py:268-269 | at every cap (1500, 1000, 100, 2000): truncation never yields more than cap + 3 characters and keeps the longest prefix that fits under the cap |
| `Format.TruncateIdempotent` | bot_simple.py:268-269 | at every cap: truncating twice with one cap is truncating once |
| `Format.TruncateFixedPoints` | bot_simple.py:268-269 | at every cap: truncation leaves exactly the texts within the cap and those already of the form cap characters plus "..." |
| `Format.SnippetText` | bot_simple.py:215 | the snippet text is at most 203 characters and always ends in "..."; it differs from truncation on every snippet within 200 characters and agrees above |
| `Format.ClampLimit` | bot_simple.py:362-365 | above 10 gives 10, below 1 gives 5, otherwise unchanged; always in [1, 10] |
| `Format.ClampLimitShape` | bot_simple.py:362-365 | the clamp is idempotent but not monotone (0 asks for more than 1) |
| `Format.Replace` | bot_simple.py:211 | `s.replace(a, b)` for single characters: same length, every a becomes b and every other character stays in place |
| `Format.ReplaceBack` | bot_simple.py:211 | replacing a by b in a text without b is undone by replacing b by a |
| `Format.PageUrl` | bot_simple.py:211 | the page link `f"{base}/{title.replace(' ', '_')}"`, used at all five link sites; `PageUrlShape` states its shape |
| `Format.PageUrlShape` | bot_simple.py:276 | a page link is base + "/" + a title part of the same length without spaces, every other character of the title unchanged in place; a title without '_' can be read back from the link |
| `Format.NatToString` | bot_simple.py:214 | `str(i)` of a natural is a non-empty string of digits with no leading zero (only 0 itself starts with '0'); one digit exactly below 10 |
| `Format.ParseNatToString` | bot_simple.py:214 | `int(str(n)) == n` |
| `Format.FieldName` | bot_simple.py:214 | a field name is digits that read back as i, with no leading zero, then ". ", then the title |
| `Format.IntToString` | bot_simple.py:145 | `str(limit)` as the `rclimit` parameter: a minus sign exactly for a negative limit, then the digits of its magnitude, read back exactly and without a leading zero |
| `UrlQuote.Utf8` | bot_simple.py:200 | the shortest encoding: one byte below 0x80, two below 0x800, three below 0x10000, four above; the byte itself for ASCII, otherwise a lead byte ≥ 0xC0 and continuation bytes 10xxxxxx |
| `UrlQuote.Utf8RoundTrip` | bot_simple.py:200 | decoding the UTF-8 bytes of a character gives its code point |
| `UrlQuote.HexDigit` | bot_simple.py:200 | an upper-case hex digit ('0'-'9' or 'A'-'F'), itself a safe character |
| `UrlQuote.QuoteByte` | bot_simple.py:200 | a safe byte is kept; any other becomes '%' and two upper-case hex digits whose value is the byte |
| `UrlQuote.Quote` | bot_simple.py:200 | `urllib.parse.quote(query)`: UTF-8, then `QuoteByte` per byte; `QuoteLinkSafe`, `QuoteKeepsSafe` and `UnquoteQuoteBytes` state its properties |
| `UrlQuote.UnquoteQuoteBytes` | bot_simple.py:200 | unquoting undoes quoting, byte for byte |
| `UrlQuote.QuoteLinkSafe` | bot_simple.py:200 | the quoted query has only '%' and unreserved ASCII characters: no space, '&' or '#' |
| `UrlQuote.QuoteKeepsSafe` | bot_simple.py:200 | a query of unreserved ASCII characters is left alone |
| `JsonValue.Truthy` | bot_simple.py:186 | Python truthiness of decoded JSON, the test of every `if not x:` and `if x:` in the handlers: null, false, 0, "", [] and {} are falsy |
| `JsonValue.GetOr` | bot_simple.py:389-391 | `d.get(key, default)`: the value when present, the default otherwise |
| `JsonValue.Index` | bot_simple.py:283 | `obj[key]` succeeds exactly on an object holding the key, with its value |
| `JsonValue.StringAt` | bot_simple.py:204-205 | `obj[key]` used as a string succeeds exactly when the member is a string |
| `JsonValue.Show` | bot_simple.py:403 | `str()` renders every scalar and gives a string back unchanged |
| `Client.SearchGet` | bot_simple.py:58-66 | the search request: `api.php` with `list=search`, the query, `srlimit=5`, `srnamespace=0` |
| `Client.ParseGet` | bot_simple.py:84-91 | the page request: `action=parse`, the title, `prop` asking for the text and the sections, `section=0` |
| `Client.RandomGet` | bot_simple.py:113-120 | the random-page request: `list=random`, `rnnamespace=0`, `rnlimit=1` |
| `Client.RecentGet` | bot_simple.py:139-147 | the recent-changes request: `list=recentchanges`, `rcnamespace=0`, the limit as `rclimit`, `rcprop` asking for title, timestamp, user and comment |
| `Client.OkBody` | bot_simple.py:70-71 | a body is used exactly when the status is 200 and it decodes |
| `Client.QueryList` | bot_simple.py:70-77 | search and recent-changes yield the `query` member when it is there, `[]` on any other status, undecodable or misshapen body, or missing key |
| `Client.FirstOf` | bot_simple.py:127-128 | `value[0]` of a truthy list is its first element, of a string its first character; otherwise Python raises |
| `Client.RandomPageOf` | bot_simple.py:123-132 | a random page is yielded only when the `random` member is present and truthy, and is a list or a string; it is the first element of a non-empty list, or the first character of a non-empty string; any other truthy value raises and yields nothing |
| `Client.PageContentOf` | bot_simple.py:94-106 | a page record exactly when the status is 200, the body decodes and has a well-shaped `parse` member; sections default to `[]` |
| `Client.WikiSearcher.constructor` | bot_simple.py:44-46 | a new searcher has its base URL, no session and no requests sent |
| `Client.WikiSearcher.GetSession` | bot_simple.py:48-51 | the session is created once, on first use, and reused afterwards, closed or not; a new session is open |
| `Client.WikiSearcher.SearchWiki` | bot_simple.py:53-77 | while the session is open, sends exactly the search GET (5 results, main namespace) and returns its `QueryList`; on a closed session sends nothing and returns what a failed transport gives |
| `Client.WikiSearcher.GetPageContent` | bot_simple.py:79-106 | while the session is open, sends exactly the parse GET for the lead section and returns its `PageContentOf`; on a closed session sends nothing and returns nothing |
| `Client.WikiSearcher.GetRandomPage` | bot_simple.py:108-132 | while the session is open, sends exactly the random GET and returns its `RandomPageOf`; on a closed session sends nothing and returns nothing |
| `Client.WikiSearcher.GetRecentChanges` | bot_simple.py:134-158 | while the session is open, sends exactly the recent-changes GET with the given limit and returns its `QueryList`; on a closed session sends nothing and returns `[]` |
| `Client.WikiSearcher.Close` | bot_simple.py:160-163 | closes the session if there is one; the field keeps pointing at it, so the searcher is no longer open |
| `Commands.Take` | bot_simple.py:203 | `xs[:n]`: the first min(n, len) elements |
| `Commands.Enumerate` | bot_simple.py:203 | the `for i, x in enumerate(xs, 1)` loops that build one field per element, failing when one element raises; `EnumerateAll` states what it yields |
| `Commands.EnumerateAll` | bot_simple.py:203 | the enumerate loop succeeds exactly when every element succeeds, and then its k-th item is what the element at k makes numbered k + 1 |
| `Commands.SearchField` | bot_simple.py:203-217 | a result field exists exactly when title and snippet are strings; it is named "i. title" and holds ≤ 203 characters of cleaned snippet ending in "..." and the page link |
| `Commands.SearchLink` | bot_simple.py:200 | the "Special:Search" link with the percent-encoded query; `UrlQuote.QuoteLinkSafe` states that the query part is link-safe |
| `Commands.SearchReply` | bot_simple.py:186-217 | the `/search` reply to the client's results; `SearchReplyOutcomes`, `SearchReplyFound` and `SearchReplyFields` state it on every input |
| `Commands.SearchFlow` | bot_simple.py:184-217 | `/search`: one search request, then `SearchReply`; `Handlers.SearchCommand` is proved to follow it |
| `Commands.SearchReplyOutcomes` | bot_simple.py:186-195 | empty results give "No results", and only they; a reply that is not the results embed is otherwise a failure |
| `Commands.SearchReplyFound` | bot_simple.py:186-217 | the results embed is sent exactly when the results are a non-empty list whose first three entries all have a string title and snippet |
| `Commands.SearchReplyFields` | bot_simple.py:197-217 | the results embed lists only the first three results, in order, one field each as `SearchField` makes it, with the query, the total count and the quoted search link |
| `Commands.Resolve` | bot_simple.py:237-262 | the search-then-fetch shared by `/info` and `/ai` (bot_simple.py:434-456 repeats it): not found, a malformed best result, no content for the best title, or the fetched page, with the requests sent; `InfoFlowBranches` and `AiAsksAfterFetch` state its branches |
| `Commands.ResolveGets` | bot_simple.py:237-262 | a lookup sends the search for the topic first, and a second request, the page fetch of the best title, exactly when a best title was found (whether or not that fetch succeeds) |
| `Commands.BestTitle` | bot_simple.py:249-250 | the best match is the title of the first result |
| `Commands.PageText` | bot_simple.py:265-269 | the page lead, cleaned and cut to the cap, at most cap + 3 characters |
| `Commands.SectionsText` | bot_simple.py:281-283 | the "Available Sections" header and one bullet line per section of the first five; `SectionsAtMostFive` states it |
| `Commands.SectionsOf` | bot_simple.py:280-284 | no field for falsy sections, the `SectionsText` field for a list, a failure otherwise; `InfoReplyShape` states it within the embed |
| `Commands.SectionsAtMostFive` | bot_simple.py:280-284 | the sections field holds the header and at most the first five sections, in order |
| `Commands.InfoReply` | bot_simple.py:264-284 | the `/info` embed of a fetched page; `InfoReplyShape` states its parts |
| `Commands.InfoFlow` | bot_simple.py:230-295 | `/info`: `Resolve`, then "Topic Not Found", "Content Error" or `InfoReply`; `InfoFlowBranches` states the branches |
| `Commands.InfoReplyShape` | bot_simple.py:265-289 | the `/info` embed exists exactly when the lead is a string and the sections can be listed; it then holds the title, the lead cleaned and cut to 1500 characters, the page link and the sections field; otherwise the handler fails |
| `Commands.InfoFlowBranches` | bot_simple.py:237-262 | an empty search gives "Topic Not Found" (iff) with no page fetch; otherwise the best match is fetched, "Content Error" with its title comes exactly when that fetch fails, and a fetched page gives the `InfoReply` embed of that page |
| `Commands.RandomFlow` | bot_simple.py:297-353 | `/random`: the random-page request, then the page request for its title; `RandomFlowBranches` states the branches |
| `Commands.RandomFlowBranches` | bot_simple.py:303-341 | no random page gives "unavailable" (iff) after one request; otherwise the page named by the random page's title is fetched, "Content Error" with that title comes exactly when the fetch fails, and a fetched string lead gives the random-page embed with the lead cleaned and cut to 1000 characters and the page link |
| `Commands.ChangeField` | bot_simple.py:387-405 | a change field exists exactly when the change is an object with a string title, a renderable editor and a string comment; editor defaults to "Unknown", comment to "No comment", cleaned and ≤ 103 characters |
| `Commands.RecentReply` | bot_simple.py:370-405 | the `/recent` reply to the client's changes; `RecentReplyFields` states it on every input |
| `Commands.RecentFlow` | bot_simple.py:355-416 | `/recent`: the clamp, one request, then `RecentReply`; `RecentFlowRequest` states the request |
| `Commands.RecentReplyFields` | bot_simple.py:370-405 | no changes give "No recent changes" (iff); otherwise one field per change, in order, as `ChangeField` makes it, with the count and the recent-changes link, exactly when every change is well-formed, and fails otherwise |
| `Commands.RecentFlowRequest` | bot_simple.py:362-368 | `/recent` sends one request whose `rclimit` is the clamped limit, in [1, 10] |
| `Commands.HasApiKey` | bot_simple.py:421 | `if not OPENAI_API_KEY`: a key is configured and non-empty |
| `Commands.AiFlow` | bot_simple.py:418-510 | `/ai`: the key check, `Resolve`, then the completion request and its answer; `AiWithoutKey` and `AiAsksAfterFetch` state the branches |
| `Commands.AiAnswer` | bot_simple.py:436-510 | what `/ai` does once the lookup is done; `AiAnswerBranches` states its branches |
| `Commands.AiAnswerBranches` | bot_simple.py:436-510 | for any lookup: the requests are those of the lookup; not found gives "Topic Not Found", no content gives "Content Error" with the title, a malformed best result a failure; the model is asked exactly for a fetched page with a string lead, with the fixed model settings, the topic and the cleaned lead cut to 2000 characters, and its answer is shown with the page link or the command fails |
| `Commands.AiWithoutKey` | bot_simple.py:421-428 | without a non-empty key `/ai` answers "API Key Required" (iff), sends no request and asks no model |
| `Commands.AiAsksAfterFetch` | bot_simple.py:434-491 | with a key `/ai` sends what `/info` sends and answers like it when the topic is not found or cannot be fetched; the model is asked exactly when the page was fetched with a string lead, with the fixed model settings, the topic and the lead cleaned and cut to 2000 characters; its answer is shown with the page link |
| `Commands.OfflineReplies` | bot_simple.py:53-163 | on the network of a closed session `/search` finds nothing, `/info` and `/ai` answer "Topic Not Found" without asking the model, `/random` has no page and `/recent` no changes |
| `Handlers.AddFields` | bot_simple.py:203-217 | the `enumerate(..., 1)` + `add_field` loop builds exactly the fields `Commands.Enumerate` gives, or fails |
| `Handlers.BuildSectionsText` | bot_simple.py:281-283 | the `sections_text +=` loop builds the header and the first five bullet lines |
| `Handlers.BuildSections` | bot_simple.py:280-284 | the optional sections field is absent for falsy sections, and fails on a truthy non-list |
| `Handlers.PageInfoReply` | bot_simple.py:265-284 | the `/info` embed of a fetched page |
| `Handlers.SearchCommand` | bot_simple.py:177-228 | `/search` gives the reply of its flow over the network its session sees, and sends that flow's requests while the session is open and none once it is closed |
| `Handlers.LookUp` | bot_simple.py:237-262 | the search-then-fetch of `/info` and `/ai`, as `Resolve` gives it over the network the session sees; requests are sent only while the session is open |
| `Handlers.InfoCommand` | bot_simple.py:230-295 | `/info` gives the reply of its flow over the network its session sees, and sends that flow's requests while the session is open and none once it is closed |
| `Handlers.RandomCommand` | bot_simple.py:297-353 | `/random` gives the reply of its flow over the network its session sees, and sends that flow's requests while the session is open and none once it is closed |
| `Handlers.RecentCommand` | bot_simple.py:355-416 | `/recent` clamps, then gives the reply of its flow over the network its session sees, and sends its request only while the session is open |
| `Handlers.AiCommand` | bot_simple.py:418-510 | `/ai` gives the reply and the completion request of its flow over the network its session sees, and sends its requests only while the session is open; without a key even the session is left untouched |

## Left out

- Commands.BestTitle: a best match whose title is not a string ends the handler as `Failed` before the page request. Python would still send that request, and would report "Content Error" if the request failed.
- Commands.RandomFlow: a random page whose title is not a string ends the handler as `Failed` before the page request. Python would still send that request with the value as the `page` parameter, and would report "Content Error" if the request failed.
- Handlers.RandomCommand: follows `Commands.RandomFlow`, so the same non-string title case is not modelled.
- Commands.ChangeField: an editor that is a list or object makes the field fail. Python renders it with `str()`, which depends on key order.
- JsonValue.Show: a list or object as an editor name or section heading counts as a failure. Python renders it with `str()`, which depends on key order.
- JSON numbers are integers only. Floats and their `str()` rendering are not modelled.
- `html.unescape` decodes only `&amp;`, `&lt;`, `&gt;`, `&quot;`, `&#x27;` and `&#39;`. Other references are kept as text: the other named references, numeric references in general, and references without a semicolon.
- HTTP, aiohttp and JSON decoding are an oracle from request to outcome: a transport failure, or a status and a decoded body. Timeouts, content types and the encoding of parameters (integers as decimal strings) are not modelled.
- The OpenAI call is an oracle from the completion request to an answer or a failure. The prompt text, the system message and the client object are not modelled.
- Embeds are reduced to their data: title, text, link and fields. Colours, emoji, footers, `defer`/`followup` and the wording of error messages are not modelled.
- `on_ready`, command syncing, `/help`, `on_command_error`, the shutdown hook, bot start-up and environment loading are Discord and process plumbing, and are not part of this model.
- Concurrent commands on the shared searcher are not modelled: each command runs alone.
- test_wiki.py (a manual script against the live wiki) and start_bot.py (environment checks and process launch) are not part of this model.
