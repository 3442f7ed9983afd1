/**
 * The result providers of the viewer.  The HTTP request and the feed parser
 * are outside the model: each provider receives what the request or the
 * parser delivered and the model decides, as `fetch_news` and `fetch_arxiv`
 * do, which list of records to hand back and which error to report.
 */
module Fetchers {
  import opened Wrappers

  /** The `source` object of a NewsAPI article; `name` may be missing. */
  datatype ArticleSource = ArticleSource(name: Option<string>)

  /** A NewsAPI article; every key may be missing from the JSON object. */
  datatype Article = Article(
    title: Option<string>,
    description: Option<string>,
    urlToImage: Option<string>,
    url: Option<string>,
    source: Option<ArticleSource>,
    publishedAt: Option<string>)

  datatype Author = Author(name: string)

  /** An arXiv feed entry, with the fields the viewer reads. */
  datatype Paper = Paper(title: string, summary: string, link: string, authors: seq<Author>)

  /** The JSON object NewsAPI answers with: keys `status`, `message`, `articles`. */
  datatype NewsBody = NewsBody(status: Option<string>, message: Option<string>, articles: Option<seq<Article>>)

  /**
   * What `requests.get` delivered: a reply with its status code, its raw
   * text and its text decoded as JSON (`None` when the text is not JSON),
   * or an exception raised by the request itself.
   */
  datatype NewsReply = Reply(statusCode: int, text: string, json: Option<NewsBody>) | RequestRaised

  /** A feed as `feedparser.parse` returns it: the malformed flag and the entries. */
  datatype Feed = Feed(bozo: bool, entries: seq<Paper>)

  /** What the call to the feed parser delivered: a feed, or an exception with its message. */
  datatype FeedResult = Parsed(feed: Feed) | ParserRaised(reason: string)

  /** The error messages the providers show with `st.error`. */
  datatype FetchError =
    | HttpFailure(code: int, text: string)     // status code other than 200, with the raw body
    | ApiFailure(message: Option<string>)      // body's status is not "ok", with its message
    | FeedMalformed                            // the parsed feed has `bozo` set
    | FeedException(reason: string)            // the parser raised

  /**
   * What a provider call ends with: it returns a list (and at most one
   * error it showed), or an exception escapes it.
   */
  datatype Fetched<T> = Returned(items: seq<T>, error: Option<FetchError>) | Raised

  /** The reply is a 200 whose JSON body reports status "ok". */
  predicate NewsSucceeded(reply: NewsReply) {
    reply.Reply? && reply.statusCode == 200 && reply.json.Some? && reply.json.value.status == Some("ok")
  }

  /**
   * The selection of `fetch_news`: a non-200 status reports the code and the
   * body and yields no articles; a body whose status is not "ok" reports the
   * provider's message and yields no articles; otherwise the `articles` key,
   * or no articles when it is missing.  A failed request or a 200 reply whose
   * body is not JSON raises out of the function.
   */
  function SelectNews(reply: NewsReply): (r: Fetched<Article>)
    ensures r.Raised? <==> reply.RequestRaised? || (reply.statusCode == 200 && reply.json.None?)
    ensures r.Returned? ==> (r.error.None? <==> NewsSucceeded(reply))
    ensures r.Returned? && reply.statusCode != 200 ==> r == Returned([], Some(HttpFailure(reply.statusCode, reply.text)))
    ensures r.Returned? && reply.statusCode == 200 && !NewsSucceeded(reply) ==>
              r == Returned([], Some(ApiFailure(reply.json.value.message)))
    ensures NewsSucceeded(reply) ==> r == Returned(reply.json.value.articles.GetOr([]), None)
    ensures r.Returned? && r.items != [] ==> NewsSucceeded(reply)
  {
    match reply
    case RequestRaised => Raised
    case Reply(code, text, json) =>
      if code != 200 then Returned([], Some(HttpFailure(code, text)))
      else match json
        case None => Raised
        case Some(body) =>
          if body.status != Some("ok") then Returned([], Some(ApiFailure(body.message)))
          else Returned(body.articles.GetOr([]), None)
  }

  /**
   * The selection of `fetch_arxiv`: a malformed feed or a parser exception
   * yields no papers and reports the failure; otherwise the feed's entries.
   * Nothing escapes it.
   */
  function SelectArxiv(result: FeedResult): (r: Fetched<Paper>)
    ensures r.Returned?
    ensures r.error.None? <==> result.Parsed? && !result.feed.bozo
    ensures r.error.None? ==> r.items == result.feed.entries
    ensures r.error.Some? ==> r.items == []
    ensures result.Parsed? && result.feed.bozo ==> r.error == Some(FeedMalformed)
    ensures result.ParserRaised? ==> r.error == Some(FeedException(result.reason))
  {
    match result
    case ParserRaised(reason) => Returned([], Some(FeedException(reason)))
    case Parsed(feed) =>
      if feed.bozo then Returned([], Some(FeedMalformed)) else Returned(feed.entries, None)
  }

  /** The video "provider": a non-empty URL becomes the one-element list, an empty one no list. */
  function VideoData(url: string): (r: seq<string>)
    ensures |r| <= 1
    ensures r == [] <==> url == ""
    ensures forall i :: 0 <= i < |r| ==> r[i] == url
  {
    if url != "" then [url] else []
  }
}
