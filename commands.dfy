/**
 * The five slash-command handlers of bot_simple.py (`/search`, `/info`,
 * `/random`, `/recent`, `/ai`) as functions: given the wiki and the
 * language model as functions from request to answer, each yields the reply
 * the user sees and the requests the handler issued, in order.
 *
 * A reply is the plain data of the embed (title, text, link, fields); the
 * colours, emoji and footers are presentation and are not modelled.  Every
 * exception the handler's `try` catches becomes `Failed`.
 */
module Commands {
  import opened Wrappers
  import opened JsonValue
  import opened Format
  import opened Text
  import UrlQuote
  import opened Client

  /** The handler a failure is reported by. */
  datatype Command = Search | Info | Random | Recent | Ai

  /** One embed field. */
  datatype Field = Field(name: string, value: string)

  /** The optional "Sections" field of `/info`. */
  datatype Sections = NoSections | SectionList(text: string)

  datatype Reply =
    | NoResults(query: string)                                    // "No Results Found"
    | Found(query: string, count: nat, link: string, fields: seq<Field>)
    | TopicNotFound(topic: string)                                // "Topic Not Found"
    | ContentError(title: string)                                 // "Content Error"
    | PageInfo(title: string, text: string, link: string, sections: Sections)
    | RandomUnavailable                                           // no random page
    | RandomPage(title: string, text: string, link: string)
    | NoRecentChanges                                             // "No Recent Changes"
    | RecentChanges(count: nat, link: string, fields: seq<Field>)
    | ApiKeyRequired                                              // "OpenAI API Key Required"
    | AiAnalysis(title: string, answer: string, link: string)
    | Failed(command: Command)                                    // the `except` embed

  /** The chat-completion request of `/ai`.  The prompt is a fixed template
      around the topic and the wiki text; the template's wording is not
      modelled. */
  datatype Completion = Completion(model: string, maxTokens: nat, temperature: real,
                                   topic: string, wikiText: string)

  const AiModel := "gpt-3.5-turbo"
  const AiMaxTokens: nat := 500
  const AiTemperature: real := 0.7

  /** The language model: the text of the answer, or None when the call
      fails. */
  type Assistant = Completion -> Option<string>

  /** What a handler did: its reply, the wiki requests it sent and the
      completion it asked for, if any. */
  datatype Run = Run(reply: Reply, gets: seq<Get>, asked: Option<Completion>)

  // ---------------------------------------------------------------------
  // Lists
  // ---------------------------------------------------------------------

  /** `xs[:n]`. */
  function Take<T>(xs: seq<T>, n: nat): (r: seq<T>)
    ensures |r| == (if |xs| < n then |xs| else n)
    ensures r == xs[..|r|]
  {
    if |xs| <= n then xs else xs[..n]
  }

  /** `for i, x in enumerate(xs, 1)` building one item per element with f,
      where f fails (None) when the element makes Python raise: the items
      of all elements, or None when any element fails. */
  function Enumerate<T, U>(xs: seq<T>, f: (nat, T) -> Option<U>): Option<seq<U>>
    decreases |xs|
  {
    if xs == [] then Some([])
    else
      match Enumerate(xs[..|xs| - 1], f)
      case None => None
      case Some(us) =>
        match f(|xs|, xs[|xs| - 1])
        case None => None
        case Some(u) => Some(us + [u])
  }

  /** Enumerate succeeds exactly when f succeeds on every element, and then
      its k-th item is what f makes of the k-th element numbered k + 1. */
  lemma {:induction false} EnumerateAll<T, U>(xs: seq<T>, f: (nat, T) -> Option<U>)
    ensures Enumerate(xs, f).Some? <==> forall k :: 0 <= k < |xs| ==> f(k + 1, xs[k]).Some?
    ensures Enumerate(xs, f).Some? ==>
      |Enumerate(xs, f).value| == |xs|
      && forall k :: 0 <= k < |xs| ==> Enumerate(xs, f).value[k] == f(k + 1, xs[k]).value
    decreases |xs|
  {
    if xs != [] {
      var init := xs[..|xs| - 1];
      EnumerateAll(init, f);
      assert forall k :: 0 <= k < |init| ==> init[k] == xs[k];
    }
  }

  /** EnumerateAll for the first n elements, indexed in the whole list. */
  lemma EnumerateTake<T, U>(xs: seq<T>, n: nat, f: (nat, T) -> Option<U>)
    ensures Enumerate(Take(xs, n), f).Some? <==>
      forall k :: 0 <= k < |Take(xs, n)| ==> f(k + 1, xs[k]).Some?
    ensures Enumerate(Take(xs, n), f).Some? ==>
      |Enumerate(Take(xs, n), f).value| == |Take(xs, n)|
      && forall k :: 0 <= k < |Take(xs, n)| ==> Some(Enumerate(Take(xs, n), f).value[k]) == f(k + 1, xs[k])
  {
    var shown := Take(xs, n);
    EnumerateAll(shown, f);
    assert forall k :: 0 <= k < |shown| ==> shown[k] == xs[k];
  }

  /** One more step of a loop that follows Enumerate. */
  lemma EnumerateStep<T, U>(xs: seq<T>, f: (nat, T) -> Option<U>, i: nat, acc: seq<U>, u: U)
    requires i < |xs| && Enumerate(xs[..i], f) == Some(acc) && f(i + 1, xs[i]) == Some(u)
    ensures Enumerate(xs[..i + 1], f) == Some(acc + [u])
  {
    assert xs[..i + 1][..i] == xs[..i];
  }

  /** A loop that follows Enumerate may stop at the first element f rejects. */
  lemma EnumerateStops<T, U>(xs: seq<T>, f: (nat, T) -> Option<U>, i: nat)
    requires i < |xs| && f(i + 1, xs[i]).None?
    ensures Enumerate(xs, f).None?
  {
    EnumerateAll(xs, f);
  }

  /** The concatenation of parts, as repeated `+=` builds it. */
  function Concat(parts: seq<string>): string {
    if parts == [] then "" else Concat(parts[..|parts| - 1]) + parts[|parts| - 1]
  }

  /** One more `+=` on text that starts with head. */
  lemma ConcatStep(head: string, parts: seq<string>, part: string)
    ensures head + Concat(parts + [part]) == head + Concat(parts) + part
  {
    assert (parts + [part])[..|parts|] == parts;
  }

  // ---------------------------------------------------------------------
  // /search
  // ---------------------------------------------------------------------

  /** The "Special:Search" link of the results embed; the only place where
      text is percent-encoded. */
  function SearchLink(base: string, query: string): string {
    base + "/Special:Search?search=" + UrlQuote.Quote(query)
  }

  /** The field of the i-th result: `f"{i}. {title}"` and the cleaned
      snippet, cut to 200 characters, always followed by "..." and the link. */
  function SearchField(base: string, i: nat, result: Json): (f: Option<Field>)
    ensures f.Some? <==> StringAt(result, "title").Some? && StringAt(result, "snippet").Some?
    ensures f.Some? ==>
      var title := StringAt(result, "title").value;
      var text := SnippetText(CleanHtml(StringAt(result, "snippet").value));
      f.value.name == FieldName(i, title)
      && |text| <= SnippetCap + 3 && text[|text| - 3..] == Ellipsis
      && f.value.value == text + "\n[Read More](" + PageUrl(base, title) + ")"
  {
    match (StringAt(result, "title"), StringAt(result, "snippet"))
    case (Some(title), Some(snippet)) =>
      Some(Field(FieldName(i, title),
                 SnippetText(CleanHtml(snippet)) + "\n[Read More](" + PageUrl(base, title) + ")"))
    case _ => None
  }

  function SearchFieldOf(base: string): (nat, Json) -> Option<Field> {
    (i: nat, result: Json) => SearchField(base, i, result)
  }

  /** The reply of `/search` to what `search_wiki` returned: at most the
      first three results become fields. */
  function SearchReply(base: string, query: string, results: Json): Reply {
    if !Truthy(results) then NoResults(query)
    else
      match results
      case JArr(items) =>
        (match Enumerate(Take(items, 3), SearchFieldOf(base))
         case Some(fields) => Found(query, |items|, SearchLink(base, query), fields)
         case None => Failed(Search))
      case _ => Failed(Search)
  }

  /** `/search`: one search request, then the reply. */
  function SearchFlow(base: string, query: string, net: Network): Run {
    var g := SearchGet(base, query);
    Run(SearchReply(base, query, QueryList(net(g), "search")), [g], None)
  }

  /** Empty results give "No results", and only they; any other reply
      that lists no results is a failure of the handler. */
  lemma SearchReplyOutcomes(base: string, query: string, results: Json)
    ensures !Truthy(results) <==> SearchReply(base, query, results) == NoResults(query)
    ensures Truthy(results) && !SearchReply(base, query, results).Found? ==>
      SearchReply(base, query, results) == Failed(Search)
  {
  }

  /** The results embed is sent exactly when the results are a non-empty
      list whose first three entries all have a string title and snippet;
      one that lacks them makes the handler fail. */
  lemma SearchReplyFound(base: string, query: string, results: Json)
    ensures SearchReply(base, query, results).Found? <==>
      Truthy(results) && results.JArr?
      && forall k :: 0 <= k < |Take(results.items, 3)| ==> SearchField(base, k + 1, results.items[k]).Some?
  {
    if Truthy(results) && results.JArr? {
      var f := SearchFieldOf(base);
      var xs := results.items;
      SearchReplyEnumerates(base, query, results);
      EnumerateTake(xs, 3, f);
      SearchFieldsAllSome(base, xs);
    }
  }

  /** Truthy list results give the embed exactly when the enumerate loop
      over the first three of them succeeds. */
  lemma SearchReplyEnumerates(base: string, query: string, results: Json)
    requires Truthy(results) && results.JArr?
    ensures SearchReply(base, query, results).Found? <==>
      Enumerate(Take(results.items, 3), SearchFieldOf(base)).Some?
  {
  }

  lemma SearchFieldsAllSome(base: string, xs: seq<Json>)
    ensures (forall k :: 0 <= k < |Take(xs, 3)| ==> SearchFieldOf(base)(k + 1, xs[k]).Some?) <==>
      (forall k :: 0 <= k < |Take(xs, 3)| ==> SearchField(base, k + 1, xs[k]).Some?)
  {
  }

  /** The results embed lists the first three results, in order, one field
      each as SearchField makes it, with the total count and the search
      link. */
  lemma SearchReplyFields(base: string, query: string, results: Json)
    ensures SearchReply(base, query, results).Found? ==>
      var reply := SearchReply(base, query, results);
      reply.query == query && reply.count == |results.items| && reply.link == SearchLink(base, query)
      && |reply.fields| == |Take(results.items, 3)| <= 3
      && forall k :: 0 <= k < |reply.fields| ==> Some(reply.fields[k]) == SearchField(base, k + 1, results.items[k])
  {
    if SearchReply(base, query, results).Found? {
      SearchReplyIsEnumerate(base, query, results);
      var xs := results.items;
      var f := SearchFieldOf(base);
      EnumerateTake(xs, 3, f);
      SearchFieldsEach(base, xs, SearchReply(base, query, results).fields);
    }
  }

  /** The results embed is built from the enumerate loop over the first
      three results. */
  lemma SearchReplyIsEnumerate(base: string, query: string, results: Json)
    requires SearchReply(base, query, results).Found?
    ensures Truthy(results) && results.JArr?
    ensures var es := Enumerate(Take(results.items, 3), SearchFieldOf(base));
      es.Some? && SearchReply(base, query, results)
        == Found(query, |results.items|, SearchLink(base, query), es.value)
  {
  }

  lemma SearchFieldsEach(base: string, xs: seq<Json>, es: seq<Field>)
    requires |es| <= |xs|
    requires forall k :: 0 <= k < |es| ==> Some(es[k]) == SearchFieldOf(base)(k + 1, xs[k])
    ensures forall k :: 0 <= k < |es| ==> Some(es[k]) == SearchField(base, k + 1, xs[k])
  {
  }



  // ---------------------------------------------------------------------
  // Looking a topic up: the search-then-fetch steps of /info and /ai
  // ---------------------------------------------------------------------

  /** `results[0]['title']` for truthy search results, None when Python
      raises on it. */
  function BestTitle(results: Json): (t: Option<string>)
    requires Truthy(results)
    ensures results.JArr? ==> t == StringAt(results.items[0], "title")
    ensures !results.JArr? ==> t == None
  {
    match FirstOf(results)
    case Some(best) => StringAt(best, "title")
    case None => None
  }

  /** Where looking a topic up ended. */
  datatype Lookup =
    | NotFound                                  // the search gave nothing
    | Malformed                                 // the best result has no usable title
    | NoContent(title: string)                  // the page could not be fetched
    | Resolved(title: string, page: PageContent)

  /** The search for a topic and, when it yields a best match, the fetch of
      that page's lead section; with the requests sent. */
  function Resolve(base: string, topic: string, net: Network): (Lookup, seq<Get>) {
    var sg := SearchGet(base, topic);
    var results := QueryList(net(sg), "search");
    if !Truthy(results) then (NotFound, [sg])
    else
      match BestTitle(results)
      case None => (Malformed, [sg])
      case Some(title) =>
        var pg := ParseGet(base, title);
        match PageContentOf(net(pg))
        case None => (NoContent(title), [sg, pg])
        case Some(page) => (Resolved(title, page), [sg, pg])
  }

  /** The cleaned page lead cut to a cap, when the lead is a string. */
  function PageText(content: Json, cap: nat): (t: Option<string>)
    ensures t.Some? <==> content.JStr?
    ensures t.Some? ==> |t.value| <= cap + 3 && t.value == Truncate(CleanHtml(content.s), cap)
  {
    match content
    case JStr(html) => Some(Truncate(CleanHtml(html), cap))
    case _ => None
  }

  // ---------------------------------------------------------------------
  // /info
  // ---------------------------------------------------------------------

  const SectionsHeader := "**Available Sections:**\n"

  /** `f"• {section['line']}\n"`. */
  function SectionLine(i: nat, section: Json): Option<string> {
    match Index(section, "line")
    case Some(line) =>
      (match Show(line)
       case Some(s) => Some("\U{2022} " + s + "\n")
       case None => None)
    case None => None
  }

  function SectionLineOf(): (nat, Json) -> Option<string> {
    (i: nat, section: Json) => SectionLine(i, section)
  }

  /** The text of the "Sections" field: the header and one bullet line for
      each of the first five sections. */
  function SectionsText(sections: seq<Json>): Option<string> {
    match Enumerate(Take(sections, 5), SectionLineOf())
    case Some(lines) => Some(SectionsHeader + Concat(lines))
    case None => None
  }

  /** `if content.get('sections'):` and the loop below it. */
  function SectionsOf(sections: Json): Option<Sections> {
    if !Truthy(sections) then Some(NoSections)
    else
      match sections
      case JArr(items) =>
        (match SectionsText(items)
         case Some(text) => Some(SectionList(text))
         case None => None)
      case _ => None
  }

  /** The "Sections" field lists at most five sections, the first ones, in
      order. */
  lemma SectionsAtMostFive(sections: seq<Json>)
    ensures SectionsText(sections).Some? ==>
      var lines := Enumerate(Take(sections, 5), SectionLineOf()).value;
      SectionsText(sections).value == SectionsHeader + Concat(lines)
      && |lines| <= 5 && |lines| <= |sections|
      && forall k :: 0 <= k < |lines| ==> Some(lines[k]) == SectionLine(k + 1, sections[k])
  {
    EnumerateAll(Take(sections, 5), SectionLineOf());
  }

  function InfoReply(base: string, title: string, page: PageContent): Reply {
    match (PageText(page.content, InfoCap), SectionsOf(page.sections))
    case (Some(text), Some(sections)) => PageInfo(title, text, PageUrl(base, title), sections)
    case _ => Failed(Info)
  }

  /** `/info`. */
  function InfoFlow(base: string, topic: string, net: Network): Run {
    var (lookup, gets) := Resolve(base, topic, net);
    match lookup
    case NotFound => Run(TopicNotFound(topic), gets, None)
    case Malformed => Run(Failed(Info), gets, None)
    case NoContent(title) => Run(ContentError(title), gets, None)
    case Resolved(title, page) => Run(InfoReply(base, title, page), gets, None)
  }

  /** The page embed of `/info`: the page's cleaned lead cut to 1500
      characters, the page link and the sections field; a lead that is not
      a string, or sections Python cannot list, make the handler fail. */
  lemma InfoReplyShape(base: string, title: string, page: PageContent)
    ensures InfoReply(base, title, page).PageInfo? <==>
      page.content.JStr? && SectionsOf(page.sections).Some?
    ensures !InfoReply(base, title, page).PageInfo? ==> InfoReply(base, title, page) == Failed(Info)
    ensures InfoReply(base, title, page).PageInfo? ==>
      var reply := InfoReply(base, title, page);
      reply.title == title && reply.link == PageUrl(base, title)
      && reply.text == Truncate(CleanHtml(page.content.s), InfoCap) && |reply.text| <= InfoCap + 3
      && Some(reply.sections) == SectionsOf(page.sections)
  {
  }

  /** `/info` answers "Topic Not Found" exactly when the search finds
      nothing, and then sends nothing more; otherwise it fetches the best
      match, answers "Content Error" with that title exactly when the fetch
      fails, and else shows the page embed of the page it fetched. */
  lemma InfoFlowBranches(base: string, topic: string, net: Network)
    ensures var run := InfoFlow(base, topic, net);
      var results := QueryList(net(SearchGet(base, topic)), "search");
      run.asked == None
      && (!Truthy(results) <==> run.reply == TopicNotFound(topic))
      && (!Truthy(results) ==> run.gets == [SearchGet(base, topic)])
      && (Truthy(results) && BestTitle(results).None? ==>
            run.reply == Failed(Info) && run.gets == [SearchGet(base, topic)])
      && (Truthy(results) && BestTitle(results).Some? ==>
            var title := BestTitle(results).value;
            var fetched := PageContentOf(net(ParseGet(base, title)));
            run.gets == [SearchGet(base, topic), ParseGet(base, title)]
            && (fetched.None? <==> run.reply == ContentError(title))
            && (fetched.Some? ==> run.reply == InfoReply(base, title, fetched.value)))
      && (run.reply.ContentError? ==>
            Truthy(results) && BestTitle(results) == Some(run.reply.title))
  {
    var results := QueryList(net(SearchGet(base, topic)), "search");
    if Truthy(results) {
      match BestTitle(results)
      case None =>
      case Some(title) =>
        match PageContentOf(net(ParseGet(base, title)))
        case None =>
        case Some(page) => InfoReplyShape(base, title, page);
    }
  }

  // ---------------------------------------------------------------------
  // /random
  // ---------------------------------------------------------------------

  /** `/random`: a random page, then its lead section. */
  function RandomFlow(base: string, net: Network): Run {
    var rg := RandomGet(base);
    match RandomPageOf(net(rg))
    case None => Run(RandomUnavailable, [rg], None)
    case Some(p) =>
      if !Truthy(p) then Run(RandomUnavailable, [rg], None)
      else
        match StringAt(p, "title")
        case None => Run(Failed(Random), [rg], None)
        case Some(title) =>
          var pg := ParseGet(base, title);
          match PageContentOf(net(pg))
          case None => Run(ContentError(title), [rg, pg], None)
          case Some(page) =>
            match PageText(page.content, RandomCap)
            case None => Run(Failed(Random), [rg, pg], None)
            case Some(text) => Run(RandomPage(title, text, PageUrl(base, title)), [rg, pg], None)
  }

  /** `/random` answers "could not fetch a random page" exactly when the
      random list is empty, missing or holds a falsy page, and then sends
      nothing more; otherwise it fetches the page named by the random
      page's title, answers "Content Error" with that title exactly when the
      fetch fails, and else shows the page's cleaned lead cut to 1000
      characters with the page link. */
  lemma RandomFlowBranches(base: string, net: Network)
    ensures var run := RandomFlow(base, net);
      var picked := RandomPageOf(net(RandomGet(base)));
      var none := picked.None? || !Truthy(picked.value);
      run.asked == None && |run.gets| >= 1 && run.gets[0] == RandomGet(base)
      && (none <==> run.reply == RandomUnavailable)
      && (none ==> run.gets == [RandomGet(base)])
      && (!none && StringAt(picked.value, "title").None? ==>
            run.reply == Failed(Random) && run.gets == [RandomGet(base)])
      && (!none && StringAt(picked.value, "title").Some? ==>
            var title := StringAt(picked.value, "title").value;
            var fetched := PageContentOf(net(ParseGet(base, title)));
            run.gets == [RandomGet(base), ParseGet(base, title)]
            && (fetched.None? <==> run.reply == ContentError(title))
            && (fetched.Some? && !fetched.value.content.JStr? ==> run.reply == Failed(Random))
            && (fetched.Some? && fetched.value.content.JStr? ==>
                  run.reply == RandomPage(title, Truncate(CleanHtml(fetched.value.content.s), RandomCap),
                                          PageUrl(base, title))))
      && (run.reply.ContentError? ==>
            !none && StringAt(picked.value, "title") == Some(run.reply.title))
      && (run.reply.RandomPage? ==> |run.reply.text| <= RandomCap + 3)
  {
  }

  // ---------------------------------------------------------------------
  // /recent
  // ---------------------------------------------------------------------

  /** The field of the i-th change: its title, editor, and cleaned comment
      cut to 100 characters, then its page link.  A missing editor reads
      "Unknown", a missing comment "No comment"; the timestamp is fetched but
      not shown. */
  function ChangeField(base: string, i: nat, change: Json): (f: Option<Field>)
    ensures f.Some? <==>
      change.JObj? && StringAt(change, "title").Some?
      && ("user" in change.fields ==> !(change.fields["user"].JArr? || change.fields["user"].JObj?))
      && ("comment" in change.fields ==> change.fields["comment"].JStr?)
    ensures f.Some? ==>
      var title := StringAt(change, "title").value;
      var user := if "user" in change.fields then Show(change.fields["user"]).value else "Unknown";
      var comment := Truncate(CleanHtml(if "comment" in change.fields then change.fields["comment"].s
                                        else "No comment"), CommentCap);
      f.value.name == FieldName(i, title) && |comment| <= CommentCap + 3
      && f.value.value == "**Edited by:** " + user + "\n**Comment:** " + comment
                          + "\n[View Page](" + PageUrl(base, title) + ")"
  {
    match change
    case JObj(m) =>
      var user := Show(GetOr(m, "user", JStr("Unknown")));
      var comment := GetOr(m, "comment", JStr("No comment"));
      if "title" in m && m["title"].JStr? && user.Some? && comment.JStr? then
        var title := m["title"].s;
        Some(Field(FieldName(i, title),
                   "**Edited by:** " + user.value
                   + "\n**Comment:** " + Truncate(CleanHtml(comment.s), CommentCap)
                   + "\n[View Page](" + PageUrl(base, title) + ")"))
      else None
    case _ => None
  }

  function ChangeFieldOf(base: string): (nat, Json) -> Option<Field> {
    (i: nat, change: Json) => ChangeField(base, i, change)
  }

  const RecentPath := "/Special:RecentChanges"

  /** The reply of `/recent` to what `get_recent_changes` returned. */
  function RecentReply(base: string, changes: Json): Reply {
    if !Truthy(changes) then NoRecentChanges
    else
      match changes
      case JArr(items) =>
        (match Enumerate(items, ChangeFieldOf(base))
         case Some(fields) => RecentChanges(|items|, base + RecentPath, fields)
         case None => Failed(Recent))
      case _ => Failed(Recent)
  }

  /** The changes embed has one field per change, in order, and the link to
      the wiki's own recent-changes page; no changes give "No recent
      changes", and one malformed change makes the handler fail. */
  lemma RecentReplyFields(base: string, changes: Json)
    ensures !Truthy(changes) <==> RecentReply(base, changes) == NoRecentChanges
    ensures Truthy(changes) && !RecentReply(base, changes).RecentChanges? ==>
      RecentReply(base, changes) == Failed(Recent)
    ensures RecentReply(base, changes).RecentChanges? <==>
      Truthy(changes) && changes.JArr?
      && forall k :: 0 <= k < |changes.items| ==> ChangeField(base, k + 1, changes.items[k]).Some?
    ensures RecentReply(base, changes).RecentChanges? ==>
      var reply := RecentReply(base, changes);
      reply.count == |changes.items| == |reply.fields| && reply.link == base + RecentPath
      && forall k :: 0 <= k < |reply.fields| ==> Some(reply.fields[k]) == ChangeField(base, k + 1, changes.items[k])
  {
    if Truthy(changes) && changes.JArr? {
      var xs := changes.items;
      var f := ChangeFieldOf(base);
      RecentReplyOfList(base, changes);
      EnumerateAll(xs, f);
      ChangeFieldsAllSome(base, xs);
      if Enumerate(xs, f).Some? {
        ChangeFieldsEach(base, xs, Enumerate(xs, f).value);
      }
    }
  }

  /** For a truthy list of changes the reply is what the enumerate loop
      over all of them gives. */
  lemma RecentReplyOfList(base: string, changes: Json)
    requires Truthy(changes) && changes.JArr?
    ensures var es := Enumerate(changes.items, ChangeFieldOf(base));
      RecentReply(base, changes)
        == if es.Some? then RecentChanges(|changes.items|, base + RecentPath, es.value) else Failed(Recent)
  {
  }

  lemma ChangeFieldsAllSome(base: string, xs: seq<Json>)
    ensures (forall k :: 0 <= k < |xs| ==> ChangeFieldOf(base)(k + 1, xs[k]).Some?) <==>
      (forall k :: 0 <= k < |xs| ==> ChangeField(base, k + 1, xs[k]).Some?)
  {
  }

  lemma ChangeFieldsEach(base: string, xs: seq<Json>, es: seq<Field>)
    requires |es| == |xs|
    requires forall k :: 0 <= k < |xs| ==> ChangeFieldOf(base)(k + 1, xs[k]).Some?
    requires forall k :: 0 <= k < |xs| ==> es[k] == ChangeFieldOf(base)(k + 1, xs[k]).value
    ensures forall k :: 0 <= k < |es| ==> Some(es[k]) == ChangeField(base, k + 1, xs[k])
  {
  }

  /** `/recent`: the limit is clamped, then one request. */
  function RecentFlow(base: string, limit: int, net: Network): Run {
    var g := RecentGet(base, ClampLimit(limit));
    Run(RecentReply(base, QueryList(net(g), "recentchanges")), [g], None)
  }

  /** `/recent` sends exactly one request, asking for between 1 and 10
      changes: 10 for any larger limit, 5 for any limit below 1. */
  lemma RecentFlowRequest(base: string, limit: int, net: Network)
    ensures var run := RecentFlow(base, limit, net);
      var n := ClampLimit(limit);
      run.gets == [RecentGet(base, n)] && run.asked == None
      && 1 <= n <= 10 && (limit > 10 ==> n == 10) && (limit < 1 ==> n == 5)
      && ("rclimit", Format.IntToString(n)) in run.gets[0].params
  {
    var n := ClampLimit(limit);
    assert RecentGet(base, n).params[4] == ("rclimit", Format.IntToString(n));
  }

  // ---------------------------------------------------------------------
  // /ai
  // ---------------------------------------------------------------------

  /** `if not OPENAI_API_KEY`: unset or empty. */
  predicate HasApiKey(apiKey: Option<string>) {
    apiKey.Some? && apiKey.value != []
  }

  /** `/ai`: without a key, nothing is sent; otherwise the topic is looked
      up like `/info` does, its lead cut to 2000 characters is handed to the
      language model, and the answer is shown with the page link. */
  function AiFlow(base: string, apiKey: Option<string>, topic: string,
                  net: Network, assistant: Assistant): Run {
    if !HasApiKey(apiKey) then Run(ApiKeyRequired, [], None)
    else AiAnswer(base, topic, Resolve(base, topic, net), assistant)
  }

  /** What `/ai` does once the lookup is done: the reply for a missing or
      unfetchable page, or the completion request and the model's answer. */
  function AiAnswer(base: string, topic: string, resolved: (Lookup, seq<Get>),
                    assistant: Assistant): Run {
    var (lookup, gets) := resolved;
    match lookup
    case NotFound => Run(TopicNotFound(topic), gets, None)
    case Malformed => Run(Failed(Ai), gets, None)
    case NoContent(title) => Run(ContentError(title), gets, None)
    case Resolved(title, page) =>
      match PageText(page.content, AiCap)
      case None => Run(Failed(Ai), gets, None)
      case Some(text) =>
        var request := Completion(AiModel, AiMaxTokens, AiTemperature, topic, text);
        match assistant(request)
        case None => Run(Failed(Ai), gets, Some(request))
        case Some(answer) => Run(AiAnalysis(title, answer, PageUrl(base, title)), gets, Some(request))
  }

  /** Without a usable key `/ai` answers at once: nothing goes to the wiki
      and the model is not asked. */
  lemma AiWithoutKey(base: string, apiKey: Option<string>, topic: string,
                     net: Network, assistant: Assistant)
    ensures !HasApiKey(apiKey) <==> AiFlow(base, apiKey, topic, net, assistant).reply == ApiKeyRequired
    ensures !HasApiKey(apiKey) ==>
      AiFlow(base, apiKey, topic, net, assistant).gets == []
      && AiFlow(base, apiKey, topic, net, assistant).asked == None
  {
  }

  /** With a key, `/ai` sends the wiki what `/info` sends for the same
      topic and answers as `/info` does when the topic is not found or its
      page cannot be fetched; it asks the model exactly when the page was
      fetched with a string lead, and then with the topic and that lead,
      cleaned and cut to 2000 characters; the model's answer is shown with
      the page link. */
  lemma AiAsksAfterFetch(base: string, apiKey: Option<string>, topic: string,
                         net: Network, assistant: Assistant)
    requires HasApiKey(apiKey)
    ensures var run := AiFlow(base, apiKey, topic, net, assistant);
      var lookup := Resolve(base, topic, net).0;
      run.gets == InfoFlow(base, topic, net).gets
      && ((lookup.NotFound? || lookup.NoContent?) ==> run.reply == InfoFlow(base, topic, net).reply)
      && (lookup.Malformed? ==> run.reply == Failed(Ai))
      && (run.asked.Some? <==> lookup.Resolved? && lookup.page.content.JStr?)
      && (run.asked.Some? ==>
            |run.gets| == 2 && run.gets[1] == ParseGet(base, lookup.title)
            && run.asked.value == Completion(AiModel, AiMaxTokens, AiTemperature, topic,
                                             Truncate(CleanHtml(lookup.page.content.s), AiCap))
            && |run.asked.value.wikiText| <= AiCap + 3
            && run.reply == (match assistant(run.asked.value)
                             case Some(answer) => AiAnalysis(lookup.title, answer, PageUrl(base, lookup.title))
                             case None => Failed(Ai)))
  {
    ResolveGets(base, topic, net);
    AiAnswerBranches(base, topic, Resolve(base, topic, net), assistant);
  }

  /** The branches of `AiAnswer` for any lookup: it keeps the requests of
      the lookup, and asks the model exactly for a fetched page with a
      string lead. */
  lemma AiAnswerBranches(base: string, topic: string, resolved: (Lookup, seq<Get>),
                         assistant: Assistant)
    ensures var run := AiAnswer(base, topic, resolved, assistant);
      var lookup := resolved.0;
      run.gets == resolved.1
      && (lookup.NotFound? ==> run.reply == TopicNotFound(topic))
      && (lookup.NoContent? ==> run.reply == ContentError(lookup.title))
      && (lookup.Malformed? ==> run.reply == Failed(Ai))
      && (run.asked.Some? <==> lookup.Resolved? && lookup.page.content.JStr?)
      && (run.asked.Some? ==>
            run.asked.value == Completion(AiModel, AiMaxTokens, AiTemperature, topic,
                                          Truncate(CleanHtml(lookup.page.content.s), AiCap))
            && |run.asked.value.wikiText| <= AiCap + 3
            && run.reply == (match assistant(run.asked.value)
                             case Some(answer) => AiAnalysis(lookup.title, answer, PageUrl(base, lookup.title))
                             case None => Failed(Ai)))
  {
    match resolved.0
    case Resolved(title, page) =>
      if page.content.JStr? {
        assert PageText(page.content, AiCap) == Some(Truncate(CleanHtml(page.content.s), AiCap));
      }
    case _ =>
  }

  /** The requests of a lookup: the search, then the page fetch of the best
      title once there is one. */
  lemma ResolveGets(base: string, topic: string, net: Network)
    ensures var (lookup, gets) := Resolve(base, topic, net);
      1 <= |gets| <= 2 && gets[0] == SearchGet(base, topic)
      && (|gets| == 2 <==> lookup.NoContent? || lookup.Resolved?)
      && (lookup.NoContent? || lookup.Resolved? ==> gets[1] == ParseGet(base, lookup.title))
  {
  }

  // ---------------------------------------------------------------------
  // A closed session
  // ---------------------------------------------------------------------

  /** Once the searcher's session is closed, every command answers as if
      the wiki could not be reached: no search results, topic not found,
      no random page, no recent changes, and `/ai` never asks the model. */
  lemma OfflineReplies(base: string, query: string, limit: int,
                       apiKey: Option<string>, assistant: Assistant)
    ensures SearchFlow(base, query, Offline()).reply == NoResults(query)
    ensures InfoFlow(base, query, Offline()).reply == TopicNotFound(query)
    ensures RandomFlow(base, Offline()).reply == RandomUnavailable
    ensures RecentFlow(base, limit, Offline()).reply == NoRecentChanges
    ensures HasApiKey(apiKey) ==>
      AiFlow(base, apiKey, query, Offline(), assistant).reply == TopicNotFound(query)
      && AiFlow(base, apiKey, query, Offline(), assistant).asked == None
  {
  }
}
