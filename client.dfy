/**
 * `OSRSWikiSearcher` (bot_simple.py): the MediaWiki API client.  It keeps
 * one lazily created session and offers four read operations, each one GET
 * to `{base_url}/api.php` whose decoded answer it boils down to a list, a
 * record or nothing, swallowing every failure.
 *
 * The network is a parameter: a function from the GET the client issues to
 * what came back.  The searcher records, in a ghost field, every GET it
 * issues, so that callers can state which requests a command makes.
 */
module Client {
  import opened Wrappers
  import opened JsonValue
  import Format

  /** One HTTP GET as the session sends it: the URL and the query
      parameters in the order the source lists them. */
  datatype Get = Get(url: string, params: seq<(string, string)>)

  /** What a GET yields: the transport failed (the `except` branch), or a
      status with the body decoded as JSON (None when it does not decode,
      which makes `response.json()` raise). */
  datatype HttpOutcome =
    | TransportFailure
    | Response(status: int, body: Option<Json>)

  /** The wiki as the client sees it. */
  type Network = Get -> HttpOutcome

  /** A session that has been closed raises on every request, which the
      client's `except` branches turn into the same answer as a failed
      transport. */
  function Offline(): Network {
    (g: Get) => TransportFailure
  }

  /** The wiki as a session sees it: the network while the session is
      open, nothing once it is closed. */
  function Through(open: bool, net: Network): Network {
    if open then net else Offline()
  }

  /** Every request goes to the same endpoint. */
  function ApiUrl(base: string): string {
    base + "/api.php"
  }

  /** `search_wiki`: full-text search, 5 results, main namespace. */
  function SearchGet(base: string, query: string): Get {
    Get(ApiUrl(base), [("action", "query"), ("format", "json"), ("list", "search"),
                       ("srsearch", query), ("srlimit", "5"), ("srnamespace", "0")])
  }

  /** `get_page_content`: text and section list of the lead section. */
  function ParseGet(base: string, page: string): Get {
    Get(ApiUrl(base), [("action", "parse"), ("format", "json"), ("page", page),
                       ("prop", "text|sections"), ("section", "0")])
  }

  /** `get_random_page`: one random page of the main namespace. */
  function RandomGet(base: string): Get {
    Get(ApiUrl(base), [("action", "query"), ("format", "json"), ("list", "random"),
                       ("rnnamespace", "0"), ("rnlimit", "1")])
  }

  /** `get_recent_changes`: the limit is passed through unchecked. */
  function RecentGet(base: string, limit: int): Get {
    Get(ApiUrl(base), [("action", "query"), ("format", "json"), ("list", "recentchanges"),
                       ("rcnamespace", "0"), ("rclimit", Format.IntToString(limit)),
                       ("rcprop", "title|timestamp|user|comment")])
  }

  // ---------------------------------------------------------------------
  // Boiling responses down
  // ---------------------------------------------------------------------

  /** The decoded body, when the status is 200 and the body decodes. */
  function OkBody(o: HttpOutcome): (d: Option<Json>)
    ensures d.Some? <==> o.Response? && o.status == 200 && o.body.Some?
    ensures d.Some? ==> d.value == o.body.value
  {
    if o.Response? && o.status == 200 then o.body else None
  }

  /** The answer holds `data['query'][key]`. */
  predicate HasQueryMember(o: HttpOutcome, key: string) {
    OkBody(o).Some? && OkBody(o).value.JObj? && "query" in OkBody(o).value.fields
    && OkBody(o).value.fields["query"].JObj? && key in OkBody(o).value.fields["query"].fields
  }

  function QueryMember(o: HttpOutcome, key: string): Json
    requires HasQueryMember(o, key)
  {
    OkBody(o).value.fields["query"].fields[key]
  }

  /** `data.get('query', {}).get(key, [])`, or None when Python raises
      because `data` or `data['query']` is not a dict. */
  function QueryGet(data: Json, key: string): Option<Json> {
    match data
    case JObj(d) =>
      (match GetOr(d, "query", JObj(map[]))
       case JObj(q) => Some(GetOr(q, key, JArr([])))
       case _ => None)
    case _ => None
  }

  /** What `search_wiki` (key "search") and `get_recent_changes` (key
      "recentchanges") return: the member of the answer's "query" object,
      and an empty list on any other status, on a body that does not
      decode or has the wrong shape, and when the key is missing. */
  function QueryList(o: HttpOutcome, key: string): (v: Json)
    ensures HasQueryMember(o, key) ==> v == QueryMember(o, key)
    ensures !HasQueryMember(o, key) ==> v == JArr([])
  {
    match OkBody(o)
    case None => JArr([])
    case Some(data) =>
      match QueryGet(data, key)
      case None => JArr([])
      case Some(v) => v
  }

  /** `value[0]` after `if value:` for a truthy value: the first element of
      a list, the first character of a string; a dict, number or boolean
      raises, which counts as nothing. */
  function FirstOf(v: Json): (p: Option<Json>)
    requires Truthy(v)
    ensures v.JArr? ==> p == Some(v.items[0])
    ensures v.JStr? ==> p == Some(JStr([v.s[0]]))
    ensures !(v.JArr? || v.JStr?) ==> p == None
  {
    match v
    case JArr(items) => Some(items[0])
    case JStr(s) => Some(JStr([s[0]]))
    case _ => None
  }

  /** What `get_random_page` returns: the first entry of the answer's
      "random" list, and nothing when the request fails in any way or the
      list is missing or empty.  A non-empty string in its place yields its
      first character; any other truthy value makes `[0]` raise, which the
      `except` branch turns into nothing. */
  function RandomPageOf(o: HttpOutcome): (p: Option<Json>)
    ensures p.Some? ==> HasQueryMember(o, "random") && Truthy(QueryMember(o, "random"))
    ensures p.Some? ==> QueryMember(o, "random").JArr? || QueryMember(o, "random").JStr?
    ensures HasQueryMember(o, "random") && QueryMember(o, "random").JStr?
            && QueryMember(o, "random").s != []
            ==> p == Some(JStr([QueryMember(o, "random").s[0]]))
    ensures HasQueryMember(o, "random") && QueryMember(o, "random").JArr?
            && QueryMember(o, "random").items != []
            ==> p == Some(QueryMember(o, "random").items[0])
  {
    match OkBody(o)
    case None => None
    case Some(data) =>
      match QueryGet(data, "random")
      case None => None
      case Some(v) => if Truthy(v) then FirstOf(v) else None
  }

  /** The record `get_page_content` builds from `data['parse']`. */
  datatype PageContent = PageContent(title: Json, content: Json, sections: Json)

  /** `data['parse']` has the title and the `text['*']` the record needs. */
  predicate ParseShaped(data: Json) {
    data.JObj? && "parse" in data.fields
    && data.fields["parse"].JObj? && "title" in data.fields["parse"].fields
    && "text" in data.fields["parse"].fields
    && data.fields["parse"].fields["text"].JObj?
    && "*" in data.fields["parse"].fields["text"].fields
  }

  /** What `get_page_content` returns: a record exactly when the status is
      200, the body decodes and holds a well-shaped "parse" member; the
      section list defaults to the empty list. */
  function PageContentOf(o: HttpOutcome): (c: Option<PageContent>)
    ensures c.Some? <==> OkBody(o).Some? && ParseShaped(OkBody(o).value)
    ensures c.Some? ==>
      var p := OkBody(o).value.fields["parse"].fields;
      c.value == PageContent(p["title"], p["text"].fields["*"], GetOr(p, "sections", JArr([])))
  {
    match OkBody(o)
    case None => None
    case Some(data) =>
      match data
      case JObj(d) =>
        if "parse" !in d then None
        else
          (match d["parse"]
           case JObj(p) =>
             if "title" in p && "text" in p && p["text"].JObj? && "*" in p["text"].fields
             then Some(PageContent(p["title"], p["text"].fields["*"], GetOr(p, "sections", JArr([]))))
             else None
           case _ => None)
      case _ => None
  }

  // ---------------------------------------------------------------------
  // The client object
  // ---------------------------------------------------------------------

  /** An HTTP session: open until closed. */
  class Session {
    var closed: bool

    constructor ()
      ensures !closed
    {
      closed := false;
    }

    method Close()
      modifies this
      ensures closed
    {
      closed := true;
    }
  }

  class WikiSearcher {
    const baseUrl: string
    var session: Session?
    /** Every GET issued so far, oldest first. */
    ghost var sent: seq<Get>

    constructor (baseUrl: string)
      ensures this.baseUrl == baseUrl && session == null && sent == []
    {
      this.baseUrl := baseUrl;
      session := null;
      sent := [];
    }

    /** Requests can still go out: no session yet, or one not closed. */
    predicate Open()
      reads this, session
    {
      session == null || !session.closed
    }

    /** `get_session`: the session is created on first use and reused
        afterwards. */
    method GetSession() returns (s: Session)
      modifies this`session
      ensures session == s
      ensures old(session) != null ==> s == old(session)
      ensures old(session) == null ==> fresh(s) && !s.closed
      ensures s.closed <==> !old(Open())
    {
      if session == null {
        session := new Session();
      }
      s := session;
    }

    /** `search_wiki`: one GET through the session; on a closed session the
        request raises before anything is sent. */
    method SearchWiki(query: string, net: Network) returns (results: Json)
      modifies this`session, this`sent
      ensures results == QueryList(Through(old(Open()), net)(SearchGet(baseUrl, query)), "search")
      ensures sent == old(sent) + (if old(Open()) then [SearchGet(baseUrl, query)] else [])
      ensures session != null && (old(session) != null ==> session == old(session))
      ensures Open() == old(Open())
    {
      var s := GetSession();
      var g := SearchGet(baseUrl, query);
      if s.closed {
        return QueryList(TransportFailure, "search");
      }
      sent := sent + [g];
      results := QueryList(net(g), "search");
    }

    /** `get_page_content`: one GET through the session; on a closed session
        the request raises before anything is sent. */
    method GetPageContent(page: string, net: Network) returns (content: Option<PageContent>)
      modifies this`session, this`sent
      ensures content == PageContentOf(Through(old(Open()), net)(ParseGet(baseUrl, page)))
      ensures sent == old(sent) + (if old(Open()) then [ParseGet(baseUrl, page)] else [])
      ensures session != null && (old(session) != null ==> session == old(session))
      ensures Open() == old(Open())
    {
      var s := GetSession();
      var g := ParseGet(baseUrl, page);
      if s.closed {
        return PageContentOf(TransportFailure);
      }
      sent := sent + [g];
      content := PageContentOf(net(g));
    }

    /** `get_random_page`: one GET through the session; on a closed session
        the request raises before anything is sent. */
    method GetRandomPage(net: Network) returns (page: Option<Json>)
      modifies this`session, this`sent
      ensures page == RandomPageOf(Through(old(Open()), net)(RandomGet(baseUrl)))
      ensures sent == old(sent) + (if old(Open()) then [RandomGet(baseUrl)] else [])
      ensures session != null && (old(session) != null ==> session == old(session))
      ensures Open() == old(Open())
    {
      var s := GetSession();
      var g := RandomGet(baseUrl);
      if s.closed {
        return RandomPageOf(TransportFailure);
      }
      sent := sent + [g];
      page := RandomPageOf(net(g));
    }

    /** `get_recent_changes`: one GET through the session; on a closed session
        the request raises before anything is sent. */
    method GetRecentChanges(limit: int, net: Network) returns (changes: Json)
      modifies this`session, this`sent
      ensures changes == QueryList(Through(old(Open()), net)(RecentGet(baseUrl, limit)), "recentchanges")
      ensures sent == old(sent) + (if old(Open()) then [RecentGet(baseUrl, limit)] else [])
      ensures session != null && (old(session) != null ==> session == old(session))
      ensures Open() == old(Open())
    {
      var s := GetSession();
      var g := RecentGet(baseUrl, limit);
      if s.closed {
        return QueryList(TransportFailure, "recentchanges");
      }
      sent := sent + [g];
      changes := QueryList(net(g), "recentchanges");
    }

    /** `close`: closes the session if there is one.  The field keeps
        pointing at the closed session. */
    method Close()
      modifies if session != null then {session} else {}
      ensures session == old(session)
      ensures session != null ==> session.closed
      ensures session != null ==> !Open()
    {
      if session != null {
        session.Close();
      }
    }
  }
}
