/**
 * What the results section shows for a session state: the record at the
 * cursor, formatted per source kind with defaults for missing fields, and
 * the page counter under the navigation buttons.
 */
module Render {
  import opened Wrappers
  import opened Fetchers
  import opened Controller

  const NoTitle: string := "제목 없음"
  const NoDescription: string := "설명 없음"
  const NoLink: string := "#"
  const UnknownSource: string := "알 수 없음"

  /** The text of a news card. */
  datatype NewsCard = NewsCard(heading: string, image: Option<string>, body: string, link: string, caption: string)

  /** The text of a paper card. */
  datatype PaperCard = PaperCard(heading: string, summary: string, link: string, caption: string)

  /** What the results section shows. */
  datatype View =
    | NoResults                  // info "no search results yet"
    | NewsView(news: NewsCard)
    | PaperView(paper: PaperCard)
    | VideoPanel                 // the video player, fed from the URL box
    | Exhausted(source: Source)  // info "nothing more to show"

  /** The counter "현재 {current} / {total} 페이지". */
  datatype PageLabel = PageLabel(current: int, total: int)

  function Min(a: int, b: int): int {
    if a <= b then a else b
  }

  /** The publication day: the first ten characters of `publishedAt`, or "" when it is missing. */
  function PublishedDay(publishedAt: Option<string>): (r: string)
    ensures r <= publishedAt.GetOr("")
    ensures |r| == Min(10, |publishedAt.GetOr("")|)
    ensures publishedAt.None? ==> r == ""
  {
    var d := publishedAt.GetOr("");
    if |d| <= 10 then d else d[..10]
  }

  /** The author names joined by ", ". */
  function JoinAuthors(authors: seq<Author>): (r: string)
    ensures authors == [] ==> r == ""
    ensures |authors| == 1 ==> r == authors[0].name
    ensures authors != [] ==> authors[0].name <= r
    ensures authors != [] ==> |authors[|authors| - 1].name| <= |r| &&
                              r[|r| - |authors[|authors| - 1].name|..] == authors[|authors| - 1].name
    decreases |authors|
  {
    if authors == [] then ""
    else if |authors| == 1 then authors[0].name
    else authors[0].name + ", " + JoinAuthors(authors[1..])
  }

  /** Joining one more author appends the separator and that name. */
  lemma {:induction false} JoinAuthorsSnoc(authors: seq<Author>, last: Author)
    requires authors != []
    ensures JoinAuthors(authors + [last]) == JoinAuthors(authors) + ", " + last.name
    decreases |authors|
  {
    var whole := authors + [last];
    var head := authors[0].name;
    if |authors| == 1 {
      assert whole[1..] == [last];
      assert JoinAuthors(whole) == head + ", " + last.name;
    } else {
      var tail := authors[1..];
      assert whole[0].name == head;
      assert whole[1..] == tail + [last];
      JoinAuthorsSnoc(tail, last);
      assert JoinAuthors(whole) == head + ", " + (JoinAuthors(tail) + ", " + last.name);
      assert JoinAuthors(authors) == head + ", " + JoinAuthors(tail);
    }
  }

  /** The name of the article's `source` object; a missing object or name is "unknown". */
  function SourceName(a: Article): (r: string)
    ensures a.source.None? ==> r == UnknownSource
    ensures a.source.Some? && a.source.value.name.None? ==> r == UnknownSource
    ensures a.source.Some? && a.source.value.name.Some? ==> r == a.source.value.name.value
  {
    match a.source
    case None => UnknownSource
    case Some(src) => src.name.GetOr(UnknownSource)
  }

  /**
   * The news card: each key the article has is shown as it is, each missing
   * key shows its default text; the image shows only for a non-empty URL.
   */
  function RenderNews(a: Article): (v: NewsCard)
    ensures a.title.Some? ==> v.heading == a.title.value
    ensures a.title.None? ==> v.heading == NoTitle
    ensures a.description.Some? ==> v.body == a.description.value
    ensures a.description.None? ==> v.body == NoDescription
    ensures a.url.Some? ==> v.link == a.url.value
    ensures a.url.None? ==> v.link == NoLink
    ensures v.image.Some? <==> a.urlToImage.Some? && a.urlToImage.value != ""
    ensures v.image.Some? ==> v.image == a.urlToImage
    ensures v.caption == "출처: " + SourceName(a) + " | 발행일: " + PublishedDay(a.publishedAt)
  {
    NewsCard(
      a.title.GetOr(NoTitle),
      if a.urlToImage.Some? && a.urlToImage.value != "" then a.urlToImage else None,
      a.description.GetOr(NoDescription),
      a.url.GetOr(NoLink),
      "출처: " + SourceName(a) + " | 발행일: " + PublishedDay(a.publishedAt))
  }

  /**
   * The paper card: title, summary and link as the entry has them, and an
   * author line of the author names in order.
   */
  function RenderPaper(p: Paper): (v: PaperCard)
    ensures v.heading == p.title && v.summary == p.summary && v.link == p.link
    ensures v.caption == "저자: " + JoinAuthors(p.authors)
    ensures p.authors == [] ==> v.caption == "저자: "
    ensures |p.authors| == 1 ==> v.caption == "저자: " + p.authors[0].name
  {
    PaperCard(p.title, p.summary, p.link, "저자: " + JoinAuthors(p.authors))
  }

  /** One more author on an entry adds ", " and that name to the end of its author line. */
  lemma PaperCaptionSnoc(p: Paper, last: Author)
    requires p.authors != []
    ensures RenderPaper(p.(authors := p.authors + [last])).caption == RenderPaper(p).caption + ", " + last.name
  {
    JoinAuthorsSnoc(p.authors, last);
  }

  /** An article without any of its keys shows the default texts and no image. */
  lemma NewsDefaults()
    ensures RenderNews(Article(None, None, None, None, None, None))
            == NewsCard(NoTitle, None, NoDescription, NoLink, "출처: 알 수 없음 | 발행일: ")
  {
  }

  /**
   * The results section: nothing loaded shows the "no results yet" info;
   * otherwise the card of the record at the cursor for the recorded source.
   */
  function Display(s: State): (v: View)
    requires Uniform(s) && 0 <= s.index
    ensures v.NoResults? <==> s.data == []
    ensures CursorOk(s) ==> !v.Exhausted?
    ensures CursorOk(s) && s.data != [] ==>
              (v.NewsView? <==> s.source == Some(News)) &&
              (v.PaperView? <==> s.source == Some(ArxivPapers)) &&
              (v.VideoPanel? <==> s.source == Some(Video))
    ensures v.NewsView? ==>
              s.source == Some(News) && s.index < |s.data| && s.data[s.index].NewsItem? &&
              v.news == RenderNews(s.data[s.index].article)
    ensures v.PaperView? ==>
              s.source == Some(ArxivPapers) && s.index < |s.data| && s.data[s.index].PaperItem? &&
              v.paper == RenderPaper(s.data[s.index].paper)
  {
    if s.data == [] then NoResults
    else
      assert s.source == Some(KindOf(s.data[0]));
      match s.source.value
      case News =>
        if s.index < |s.data| then NewsView(RenderNews(s.data[s.index].article)) else Exhausted(News)
      case ArxivPapers =>
        if s.index < |s.data| then PaperView(RenderPaper(s.data[s.index].paper)) else Exhausted(ArxivPapers)
      case Video => VideoPanel
  }

  /** The page counter, drawn only while results are loaded. */
  function Page(s: State): (p: Option<PageLabel>)
    ensures p.None? <==> s.data == []
    ensures p.Some? ==> p.value.current == s.index + 1 && p.value.total == |s.data|
    ensures CursorOk(s) && p.Some? ==> 1 <= p.value.current <= p.value.total
  {
    if s.data == [] then None else Some(PageLabel(s.index + 1, |s.data|))
  }

  /** After any presses, the page counter lies in 1..total and the display is never exhausted. */
  lemma ReachableDisplay(actions: seq<Action>)
    ensures var s := Run(Init(), actions);
            Inv(s) && !Display(s).Exhausted? &&
            (s.data != [] ==> Page(s).Some? && 1 <= Page(s).value.current <= |s.data|)
  {
    ReachableInv(actions);
  }
}
