/**
 * The slash-command handlers of bot_simple.py as they run: step by step
 * against the shared `OSRSWikiSearcher`, each proved to give the reply and
 * to send the requests that the corresponding flow of module Commands
 * describes.  While the searcher's session is open the flow sees the
 * network; once it is closed every request fails before it is sent, and
 * the flow sees the Offline network.
 */
module Handlers {
  import opened Wrappers
  import opened JsonValue
  import opened Format
  import opened Client
  import opened Commands

  /** The `for i, x in enumerate(xs, 1): embed.add_field(...)` loops of
      `/search` and `/recent`: one field per element, or None as soon as
      one element makes Python raise. */
  method AddFields(items: seq<Json>, field: (nat, Json) -> Option<Field>)
    returns (fields: Option<seq<Field>>)
    ensures fields == Enumerate(items, field)
  {
    var acc: seq<Field> := [];
    var i := 0;
    while i < |items|
      invariant 0 <= i <= |items|
      invariant Enumerate(items[..i], field) == Some(acc)
    {
      match field(i + 1, items[i]) {
        case None =>
          EnumerateStops(items, field, i);
          return None;
        case Some(f) =>
          EnumerateStep(items, field, i, acc, f);
          acc := acc + [f];
      }
      i := i + 1;
    }
    assert items[..i] == items;
    return Some(acc);
  }

  /** The `sections_text += ...` loop of `/info` over the first five
      sections. */
  method BuildSectionsText(sections: seq<Json>) returns (text: Option<string>)
    ensures text == SectionsText(sections)
  {
    var shown := Take(sections, 5);
    var body := SectionsHeader;
    ghost var lines: seq<string> := [];
    var i := 0;
    while i < |shown|
      invariant 0 <= i <= |shown|
      invariant Enumerate(shown[..i], SectionLineOf()) == Some(lines)
      invariant body == SectionsHeader + Concat(lines)
    {
      match SectionLineOf()(i + 1, shown[i]) {
        case None =>
          EnumerateStops(shown, SectionLineOf(), i);
          return None;
        case Some(line) =>
          EnumerateStep(shown, SectionLineOf(), i, lines, line);
          ConcatStep(SectionsHeader, lines, line);
          lines := lines + [line];
          body := body + line;
      }
      i := i + 1;
    }
    assert shown[..i] == shown;
    return Some(body);
  }

  /** `/search query`. */
  method SearchCommand(searcher: WikiSearcher, query: string, net: Network)
    returns (reply: Reply)
    modifies searcher`session, searcher`sent
    ensures var open := old(searcher.Open());
      reply == SearchFlow(searcher.baseUrl, query, Through(open, net)).reply
      && searcher.sent == old(searcher.sent) + (if open then SearchFlow(searcher.baseUrl, query, net).gets else [])
    ensures searcher.session != null && searcher.Open() == old(searcher.Open())
    ensures old(searcher.session) != null ==> searcher.session == old(searcher.session)
  {
    var results := searcher.SearchWiki(query, net);
    if !Truthy(results) {
      return NoResults(query);
    }
    match results {
      case JArr(items) =>
        var fields := AddFields(Take(items, 3), SearchFieldOf(searcher.baseUrl));
        if fields.None? {
          return Failed(Search);
        }
        reply := Found(query, |items|, SearchLink(searcher.baseUrl, query), fields.value);
      case _ =>
        reply := Failed(Search);
    }
  }

  /** The search and the page fetch that `/info` and `/ai` both begin
      with. */
  method LookUp(searcher: WikiSearcher, topic: string, net: Network)
    returns (lookup: Lookup)
    modifies searcher`session, searcher`sent
    ensures var open := old(searcher.Open());
      lookup == Resolve(searcher.baseUrl, topic, Through(open, net)).0
      && searcher.sent == old(searcher.sent) + (if open then Resolve(searcher.baseUrl, topic, net).1 else [])
    ensures searcher.session != null && searcher.Open() == old(searcher.Open())
    ensures old(searcher.session) != null ==> searcher.session == old(searcher.session)
  {
    var results := searcher.SearchWiki(topic, net);
    if !Truthy(results) {
      return NotFound;
    }
    var best := BestTitle(results);
    if best.None? {
      return Malformed;
    }
    var content := searcher.GetPageContent(best.value, net);
    if content.None? {
      return NoContent(best.value);
    }
    lookup := Resolved(best.value, content.value);
  }

  /** `if content.get('sections'):` and the loop below it. */
  method BuildSections(sections: Json) returns (field: Option<Sections>)
    ensures field == SectionsOf(sections)
  {
    if !Truthy(sections) {
      return Some(NoSections);
    }
    if !sections.JArr? {
      return None;
    }
    var text := BuildSectionsText(sections.items);
    if text.None? {
      return None;
    }
    field := Some(SectionList(text.value));
  }

  /** The embed `/info` builds for the page it fetched. */
  method PageInfoReply(base: string, title: string, page: PageContent) returns (reply: Reply)
    ensures reply == InfoReply(base, title, page)
  {
    var text := PageText(page.content, InfoCap);
    if text.None? {
      return Failed(Info);
    }
    var sections := BuildSections(page.sections);
    if sections.None? {
      return Failed(Info);
    }
    reply := PageInfo(title, text.value, PageUrl(base, title), sections.value);
  }

  /** `/info topic`. */
  method InfoCommand(searcher: WikiSearcher, topic: string, net: Network)
    returns (reply: Reply)
    modifies searcher`session, searcher`sent
    ensures var open := old(searcher.Open());
      reply == InfoFlow(searcher.baseUrl, topic, Through(open, net)).reply
      && searcher.sent == old(searcher.sent) + (if open then InfoFlow(searcher.baseUrl, topic, net).gets else [])
    ensures searcher.session != null && searcher.Open() == old(searcher.Open())
    ensures old(searcher.session) != null ==> searcher.session == old(searcher.session)
  {
    var lookup := LookUp(searcher, topic, net);
    match lookup {
      case NotFound => reply := TopicNotFound(topic);
      case Malformed => reply := Failed(Info);
      case NoContent(title) => reply := ContentError(title);
      case Resolved(title, page) => reply := PageInfoReply(searcher.baseUrl, title, page);
    }
  }

  /** `/random`. */
  method RandomCommand(searcher: WikiSearcher, net: Network) returns (reply: Reply)
    modifies searcher`session, searcher`sent
    ensures var open := old(searcher.Open());
      reply == RandomFlow(searcher.baseUrl, Through(open, net)).reply
      && searcher.sent == old(searcher.sent) + (if open then RandomFlow(searcher.baseUrl, net).gets else [])
    ensures searcher.session != null && searcher.Open() == old(searcher.Open())
    ensures old(searcher.session) != null ==> searcher.session == old(searcher.session)
  {
    var page := searcher.GetRandomPage(net);
    if page.None? || !Truthy(page.value) {
      return RandomUnavailable;
    }
    var title := StringAt(page.value, "title");
    if title.None? {
      return Failed(Random);
    }
    var content := searcher.GetPageContent(title.value, net);
    if content.None? {
      return ContentError(title.value);
    }
    var text := PageText(content.value.content, RandomCap);
    if text.None? {
      return Failed(Random);
    }
    reply := RandomPage(title.value, text.value, PageUrl(searcher.baseUrl, title.value));
  }

  /** `/recent limit`. */
  method RecentCommand(searcher: WikiSearcher, limit: int, net: Network)
    returns (reply: Reply)
    modifies searcher`session, searcher`sent
    ensures var open := old(searcher.Open());
      reply == RecentFlow(searcher.baseUrl, limit, Through(open, net)).reply
      && searcher.sent == old(searcher.sent) + (if open then RecentFlow(searcher.baseUrl, limit, net).gets else [])
    ensures searcher.session != null && searcher.Open() == old(searcher.Open())
    ensures old(searcher.session) != null ==> searcher.session == old(searcher.session)
  {
    var n := limit;
    if n > 10 {
      n := 10;
    } else if n < 1 {
      n := 5;
    }
    var changes := searcher.GetRecentChanges(n, net);
    if !Truthy(changes) {
      return NoRecentChanges;
    }
    match changes {
      case JArr(items) =>
        var fields := AddFields(items, ChangeFieldOf(searcher.baseUrl));
        if fields.None? {
          return Failed(Recent);
        }
        reply := RecentChanges(|items|, searcher.baseUrl + RecentPath, fields.value);
      case _ =>
        reply := Failed(Recent);
    }
  }

  /** `/ai topic`: the reply and the completion request sent to the
      language model, if any.  Without a key the searcher is not touched:
      not even its session is created. */
  method AiCommand(searcher: WikiSearcher, apiKey: Option<string>, topic: string,
                   net: Network, assistant: Assistant)
    returns (reply: Reply, asked: Option<Completion>)
    modifies searcher`session, searcher`sent
    ensures var open := old(searcher.Open());
      var run := AiFlow(searcher.baseUrl, apiKey, topic, Through(open, net), assistant);
      reply == run.reply && asked == run.asked
      && searcher.sent == old(searcher.sent)
                          + (if open then AiFlow(searcher.baseUrl, apiKey, topic, net, assistant).gets else [])
    ensures !HasApiKey(apiKey) ==> searcher.session == old(searcher.session)
    ensures searcher.Open() == old(searcher.Open())
    ensures old(searcher.session) != null ==> searcher.session == old(searcher.session)
  {
    if !HasApiKey(apiKey) {
      return ApiKeyRequired, None;
    }
    var lookup := LookUp(searcher, topic, net);
    asked := None;
    match lookup {
      case NotFound => reply := TopicNotFound(topic);
      case Malformed => reply := Failed(Ai);
      case NoContent(title) => reply := ContentError(title);
      case Resolved(title, page) =>
        var text := PageText(page.content, AiCap);
        if text.None? {
          return Failed(Ai), None;
        }
        var request := Completion(AiModel, AiMaxTokens, AiTemperature, topic, text.value);
        asked := Some(request);
        var answer := assistant(request);
        if answer.None? {
          return Failed(Ai), asked;
        }
        reply := AiAnalysis(title, answer.value, PageUrl(searcher.baseUrl, title));
    }
  }
}
