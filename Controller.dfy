/**
 * The session state of the viewer and the controller that changes it: a
 * search replaces the loaded results and resets the cursor, the previous and
 * next buttons move the cursor by one and stop at both ends.
 *
 * The pure part (`State`, `SearchStep`, `PrevStep`, `NextStep`, `Run`) is the
 * specification; the class `Session` updates the three session fields in
 * place and is proved to follow it.
 */
module Controller {
  import opened Wrappers
  import opened Fetchers

  /** The source kinds of the select box: "News", "arXiv Papers", "Video (URL 직접 입력)". */
  datatype Source = News | ArxivPapers | Video

  /** One loaded record; the tag says which provider produced it. */
  datatype Item = NewsItem(article: Article) | PaperItem(paper: Paper) | VideoItem(url: string)

  function KindOf(item: Item): Source {
    match item
    case NewsItem(_) => News
    case PaperItem(_) => ArxivPapers
    case VideoItem(_) => Video
  }

  /**
   * A pressed search button, with what the selected provider's request
   * delivered (for the video source, the text typed into the URL box).
   */
  datatype SearchInput = NewsSearch(reply: NewsReply) | ArxivSearch(feed: FeedResult) | VideoSearch(url: string)

  function SourceOf(input: SearchInput): Source {
    match input
    case NewsSearch(_) => News
    case ArxivSearch(_) => ArxivPapers
    case VideoSearch(_) => Video
  }

  /** The messages the page shows in response to an interaction. */
  datatype Notice =
    | FetchFailed(error: FetchError)   // st.error inside a provider
    | NoNewsResults                    // warning after an empty news search
    | NoPaperResults                   // warning after an empty arXiv search
    | VideoUrlMissing                  // error after a video search without URL
    | ScriptAborted                    // an exception escaped the provider
    | FirstItem                        // info "first item"
    | LastItem                         // info "last item"

  /** The three session fields `index`, `data` and `source`. */
  datatype State = State(index: int, data: seq<Item>, source: Option<Source>)

  /** The state after an interaction, with the messages it showed. */
  datatype Step = Step(state: State, notices: seq<Notice>)

  /** A button press of the user. */
  datatype Action = Search(input: SearchInput) | Prev | Next

  /** The session fields as the first run of the script sets them. */
  function Init(): State {
    State(0, [], None)
  }

  /** The cursor lies on a loaded record, and stays 0 while nothing is loaded. */
  predicate CursorOk(s: State) {
    0 <= s.index && (if s.data == [] then s.index == 0 else s.index < |s.data|)
  }

  /** Every loaded record comes from the recorded source. */
  predicate Uniform(s: State) {
    forall i :: 0 <= i < |s.data| ==> s.source == Some(KindOf(s.data[i]))
  }

  predicate Inv(s: State) {
    CursorOk(s) && Uniform(s)
  }

  function NewsItems(articles: seq<Article>): (r: seq<Item>)
    ensures |r| == |articles|
    ensures forall i :: 0 <= i < |r| ==> r[i] == NewsItem(articles[i])
  {
    seq(|articles|, i requires 0 <= i < |articles| => NewsItem(articles[i]))
  }

  function PaperItems(papers: seq<Paper>): (r: seq<Item>)
    ensures |r| == |papers|
    ensures forall i :: 0 <= i < |r| ==> r[i] == PaperItem(papers[i])
  {
    seq(|papers|, i requires 0 <= i < |papers| => PaperItem(papers[i]))
  }

  function VideoItems(urls: seq<string>): (r: seq<Item>)
    ensures |r| == |urls|
    ensures forall i :: 0 <= i < |r| ==> r[i] == VideoItem(urls[i])
  {
    seq(|urls|, i requires 0 <= i < |urls| => VideoItem(urls[i]))
  }

  function ErrorNotices(error: Option<FetchError>): seq<Notice> {
    match error
    case None => []
    case Some(e) => [FetchFailed(e)]
  }

  /** The records a search loads: only the provider's answer decides them. */
  function Loaded(input: SearchInput): seq<Item> {
    match input
    case NewsSearch(reply) =>
      var got := SelectNews(reply);
      if got.Raised? then [] else NewsItems(got.items)
    case ArxivSearch(feed) => PaperItems(SelectArxiv(feed).items)
    case VideoSearch(url) => VideoItems(VideoData(url))
  }

  /**
   * The search button: the cursor goes back to 0, the source is recorded and
   * the results are replaced by the provider's answer; an empty answer adds
   * a "no results" message, an exception stops the script after the reset.
   */
  function SearchStep(s: State, input: SearchInput): (r: Step)
    ensures r.state == State(0, Loaded(input), Some(SourceOf(input)))
    ensures Inv(r.state)
    ensures input.NewsSearch? && SelectNews(input.reply).Raised? ==> r.notices == [ScriptAborted]
    ensures input.NewsSearch? && SelectNews(input.reply).Returned? ==>
              r.notices == ErrorNotices(SelectNews(input.reply).error) +
                           (if r.state.data == [] then [NoNewsResults] else [])
    ensures input.ArxivSearch? ==>
              r.notices == ErrorNotices(SelectArxiv(input.feed).error) +
                           (if r.state.data == [] then [NoPaperResults] else [])
    ensures input.VideoSearch? ==> r.notices == (if r.state.data == [] then [VideoUrlMissing] else [])
    ensures NoNewsResults in r.notices <==> input.NewsSearch? && SelectNews(input.reply).Returned? && r.state.data == []
    ensures NoPaperResults in r.notices <==> input.ArxivSearch? && r.state.data == []
  {
    var reset := State(0, [], Some(SourceOf(input)));
    match input
    case NewsSearch(reply) =>
      (match SelectNews(reply)
       case Raised => Step(reset, [ScriptAborted])
       case Returned(articles, error) =>
         Step(reset.(data := NewsItems(articles)),
              ErrorNotices(error) + (if articles == [] then [NoNewsResults] else [])))
    case ArxivSearch(feed) =>
      var got := SelectArxiv(feed);
      Step(reset.(data := PaperItems(got.items)),
           ErrorNotices(got.error) + (if got.items == [] then [NoPaperResults] else []))
    case VideoSearch(url) =>
      var urls := VideoData(url);
      Step(reset.(data := VideoItems(urls)), if urls == [] then [VideoUrlMissing] else [])
  }

  /**
   * The previous button.  Without results the buttons are not drawn and
   * nothing happens; otherwise the cursor moves back unless it is on the
   * first record, where the state stays and the "first item" info shows.
   */
  function PrevStep(s: State): (r: Step)
    ensures r.state.data == s.data && r.state.source == s.source
    ensures Inv(s) ==> Inv(r.state)
  {
    if s.data == [] then Step(s, [])
    else if s.index > 0 then Step(s.(index := s.index - 1), [])
    else Step(s, [FirstItem])
  }

  /** The next button, symmetric to `PrevStep` with "last item" at the end. */
  function NextStep(s: State): (r: Step)
    ensures r.state.data == s.data && r.state.source == s.source
    ensures Inv(s) ==> Inv(r.state)
  {
    if s.data == [] then Step(s, [])
    else if s.index < |s.data| - 1 then Step(s.(index := s.index + 1), [])
    else Step(s, [LastItem])
  }

  function Apply(s: State, a: Action): Step {
    match a
    case Search(input) => SearchStep(s, input)
    case Prev => PrevStep(s)
    case Next => NextStep(s)
  }

  /** The state after the user's presses, in order. */
  function Run(s: State, actions: seq<Action>): State
    decreases |actions|
  {
    if actions == [] then s else Run(Apply(s, actions[0]).state, actions[1..])
  }

  predicate NavigationOnly(actions: seq<Action>) {
    forall i :: 0 <= i < |actions| ==> !actions[i].Search?
  }

  // ---------------------------------------------------------------------------
  // Properties of the controller
  // ---------------------------------------------------------------------------

  lemma InitValid()
    ensures Inv(Init())
    ensures Init().index == 0 && Init().data == [] && Init().source == None
  {
  }

  /** Every step keeps the invariant. */
  lemma ApplyKeepsInv(s: State, a: Action)
    requires Inv(s)
    ensures Inv(Apply(s, a).state)
  {
  }

  lemma {:induction false} RunAppend(s: State, xs: seq<Action>, ys: seq<Action>)
    ensures Run(s, xs + ys) == Run(Run(s, xs), ys)
    decreases |xs|
  {
    if xs != [] {
      assert (xs + ys)[0] == xs[0];
      assert (xs + ys)[1..] == xs[1..] + ys;
      RunAppend(Apply(s, xs[0]).state, xs[1..], ys);
    } else {
      assert xs + ys == ys;
    }
  }

  /** Any sequence of presses keeps the invariant. */
  lemma {:induction false} RunKeepsInv(s: State, actions: seq<Action>)
    requires Inv(s)
    ensures Inv(Run(s, actions))
    decreases |actions|
  {
    if actions != [] {
      ApplyKeepsInv(s, actions[0]);
      RunKeepsInv(Apply(s, actions[0]).state, actions[1..]);
    }
  }

  /**
   * Every reachable state has its cursor on a loaded record when records are
   * loaded: the render guard `idx < total_items` always holds.
   */
  lemma ReachableInv(actions: seq<Action>)
    ensures Inv(Run(Init(), actions))
    ensures Run(Init(), actions).data != [] ==> 0 <= Run(Init(), actions).index < |Run(Init(), actions).data|
  {
    InitValid();
    RunKeepsInv(Init(), actions);
  }

  /** A search never merges with what was loaded before: the prior state does not matter. */
  lemma SearchForgetsPrior(s1: State, s2: State, input: SearchInput)
    ensures SearchStep(s1, input) == SearchStep(s2, input)
  {
  }

  /** After a search, the history before it does not matter. */
  lemma {:induction false} LastSearchDecides(before: seq<Action>, input: SearchInput, after: seq<Action>)
    ensures Run(Init(), before + [Search(input)] + after) == Run(SearchStep(Init(), input).state, after)
  {
    RunAppend(Init(), before + [Search(input)], after);
    RunAppend(Init(), before, [Search(input)]);
    SearchForgetsPrior(Run(Init(), before), Init(), input);
  }

  /** A video search loads exactly the given URL, or nothing and an error when it is empty. */
  lemma VideoSearchLoads(s: State, url: string)
    ensures url != "" ==> SearchStep(s, VideoSearch(url)) == Step(State(0, [VideoItem(url)], Some(Video)), [])
    ensures url == "" ==> SearchStep(s, VideoSearch(url)) == Step(State(0, [], Some(Video)), [VideoUrlMissing])
  {
  }

  /** A news reply with an error status leaves no results and shows the code and the warning. */
  lemma HttpErrorShowsNoResults(s: State, code: int, text: string, json: Option<NewsBody>)
    requires code != 200
    ensures SearchStep(s, NewsSearch(Reply(code, text, json)))
            == Step(State(0, [], Some(News)), [FetchFailed(HttpFailure(code, text)), NoNewsResults])
  {
  }

  /** Previous moves exactly when there are results and the cursor is past the first. */
  lemma PrevMovesIff(s: State)
    requires Inv(s)
    ensures PrevStep(s).state != s <==> s.data != [] && s.index > 0
    ensures PrevStep(s).state != s ==> PrevStep(s).state.index == s.index - 1 && PrevStep(s).notices == []
    ensures s.data != [] && s.index == 0 ==> PrevStep(s) == Step(s, [FirstItem])
  {
  }

  /** Next moves exactly when there are results and the cursor is before the last. */
  lemma NextMovesIff(s: State)
    requires Inv(s)
    ensures NextStep(s).state != s <==> s.index < |s.data| - 1
    ensures NextStep(s).state != s ==> NextStep(s).state.index == s.index + 1 && NextStep(s).notices == []
    ensures s.data != [] && s.index == |s.data| - 1 ==> NextStep(s) == Step(s, [LastItem])
  {
  }

  /** From an interior cursor, previous then next (and next then previous) restore the state. */
  lemma PrevNextInverse(s: State)
    requires Inv(s)
    ensures s.index > 0 ==> NextStep(PrevStep(s).state).state == s
    ensures s.index < |s.data| - 1 ==> PrevStep(NextStep(s).state).state == s
  {
  }

  /** Navigation never changes the loaded results or the source. */
  lemma {:induction false} NavigationKeepsResults(s: State, actions: seq<Action>)
    requires NavigationOnly(actions)
    ensures Run(s, actions).data == s.data && Run(s, actions).source == s.source
    decreases |actions|
  {
    if actions != [] {
      assert !actions[0].Search?;
      NavigationKeepsResults(Apply(s, actions[0]).state, actions[1..]);
    }
  }

  /** With a single record (one video), no sequence of previous/next presses changes anything. */
  lemma {:induction false} SingleItemFrozen(s: State, actions: seq<Action>)
    requires Inv(s) && |s.data| == 1
    requires NavigationOnly(actions)
    ensures Run(s, actions) == s
    decreases |actions|
  {
    if actions != [] {
      assert !actions[0].Search?;
      assert Apply(s, actions[0]).state == s;
      SingleItemFrozen(s, actions[1..]);
    }
  }

  /** Three articles: two presses of next reach the third, a third press stays there with "last item". */
  lemma ThreeArticlesScenario(s: State, a0: Article, a1: Article, a2: Article, text: string)
    ensures var loaded := SearchStep(s, NewsSearch(Reply(200, text, Some(NewsBody(Some("ok"), None, Some([a0, a1, a2])))))).state;
            var twice := NextStep(NextStep(loaded).state).state;
            loaded.index == 0 && |loaded.data| == 3 &&
            twice.index == 2 && twice.data[2] == NewsItem(a2) &&
            NextStep(twice) == Step(twice, [LastItem])
  {
  }

  // ---------------------------------------------------------------------------
  // The dual-button construction as written
  // ---------------------------------------------------------------------------

  /** Which of the two identically labelled buttons was clicked. */
  datatype Press = ActiveButton | InactiveButton

  /**
   * The previous buttons as the script runs them: the `..._active` button
   * moves the cursor when it is past the first record; the `..._inactive`
   * button is drawn on every run in which the active one did not move, and a
   * click on it shows the "first item" info whatever the cursor is.
   */
  function PrevPressAsWritten(s: State, press: Press): (r: Step)
    ensures r.state == (if press == ActiveButton then PrevStep(s).state else s)
  {
    if s.data == [] then Step(s, [])
    else if press == ActiveButton && s.index > 0 then Step(s.(index := s.index - 1), [])
    else if press == InactiveButton then Step(s, [FirstItem])
    else Step(s, [])
  }

  /** The next buttons as the script runs them, symmetric to `PrevPressAsWritten`. */
  function NextPressAsWritten(s: State, press: Press): (r: Step)
    ensures r.state == (if press == ActiveButton then NextStep(s).state else s)
  {
    if s.data == [] then Step(s, [])
    else if press == ActiveButton && s.index < |s.data| - 1 then Step(s.(index := s.index + 1), [])
    else if press == InactiveButton then Step(s, [LastItem])
    else Step(s, [])
  }

  /**
   * As written, the "first item" info shows on the second of two records and
   * a press on the first record shows nothing; the same for "last item".
   */
  lemma BoundaryNoticeAsWritten(a: Item, b: Item)
    ensures var s := State(1, [a, b], Some(KindOf(a)));
            PrevPressAsWritten(s, InactiveButton).notices == [FirstItem] && s.index != 0
    ensures var s := State(0, [a, b], Some(KindOf(a)));
            PrevPressAsWritten(s, ActiveButton).notices == [] && s.index == 0
    ensures var s := State(0, [a, b], Some(KindOf(a)));
            NextPressAsWritten(s, InactiveButton).notices == [LastItem] && s.index != |s.data| - 1
    ensures var s := State(1, [a, b], Some(KindOf(a)));
            NextPressAsWritten(s, ActiveButton).notices == [] && s.index == |s.data| - 1
  {
  }

  /** A press in the script as written: a search, or a click on one of the two buttons of a side. */
  datatype ScriptPress = PressSearch(input: SearchInput) | PressPrev(prev: Press) | PressNext(next: Press)

  function ApplyAsWritten(s: State, p: ScriptPress): Step {
    match p
    case PressSearch(input) => SearchStep(s, input)
    case PressPrev(b) => PrevPressAsWritten(s, b)
    case PressNext(b) => NextPressAsWritten(s, b)
  }

  /** The state after the presses, with the two-button construction as written. */
  function RunAsWritten(s: State, presses: seq<ScriptPress>): State
    decreases |presses|
  {
    if presses == [] then s else RunAsWritten(ApplyAsWritten(s, presses[0]).state, presses[1..])
  }

  /** The presses that reach the cursor: clicks on an inactive button are dropped. */
  function CursorActions(presses: seq<ScriptPress>): seq<Action>
    decreases |presses|
  {
    if presses == [] then []
    else
      var rest := CursorActions(presses[1..]);
      match presses[0]
      case PressSearch(input) => [Search(input)] + rest
      case PressPrev(b) => if b == ActiveButton then [Prev] + rest else rest
      case PressNext(b) => if b == ActiveButton then [Next] + rest else rest
  }

  /**
   * The two-button script moves the cursor exactly as the corrected
   * controller does on its active clicks, so it keeps the same invariant.
   */
  lemma {:induction false} RunAsWrittenAgrees(s: State, presses: seq<ScriptPress>)
    ensures RunAsWritten(s, presses) == Run(s, CursorActions(presses))
    decreases |presses|
  {
    if presses != [] {
      var next := ApplyAsWritten(s, presses[0]).state;
      var rest := CursorActions(presses[1..]);
      RunAsWrittenAgrees(next, presses[1..]);
      match presses[0]
      case PressSearch(input) =>
        assert ([Search(input)] + rest)[1..] == rest;
      case PressPrev(b) =>
        if b == ActiveButton {
          assert ([Prev] + rest)[1..] == rest;
        }
      case PressNext(b) =>
        if b == ActiveButton {
          assert ([Next] + rest)[1..] == rest;
        }
    }
  }

  /** Every state the two-button script reaches satisfies the session invariant. */
  lemma ReachableInvAsWritten(presses: seq<ScriptPress>)
    ensures Inv(RunAsWritten(Init(), presses))
  {
    RunAsWrittenAgrees(Init(), presses);
    ReachableInv(CursorActions(presses));
  }

  /** As intended: the boundary info shows exactly at the boundary. */
  lemma BoundaryNoticeIff(s: State)
    requires Inv(s) && s.data != []
    ensures PrevStep(s).notices == [FirstItem] <==> s.index == 0
    ensures NextStep(s).notices == [LastItem] <==> s.index == |s.data| - 1
    ensures PrevStep(s).notices == [] <==> s.index != 0
    ensures NextStep(s).notices == [] <==> s.index != |s.data| - 1
  {
  }

  // ---------------------------------------------------------------------------
  // The session object
  // ---------------------------------------------------------------------------

  /** `st.session_state`: the cursor, the loaded results and the selected source. */
  class Session {
    var index: int
    var data: seq<Item>
    var source: Option<Source>

    ghost function Snapshot(): State
      reads this
    {
      State(index, data, source)
    }

    ghost predicate Valid()
      reads this
    {
      Inv(Snapshot())
    }

    /** The first run of the script: cursor 0, no results, no source. */
    constructor ()
      ensures Valid()
      ensures index == 0 && data == [] && source == None
      ensures Snapshot() == Init()
    {
      index := 0;
      data := [];
      source := None;
    }

    /** The search button. */
    method Search(input: SearchInput) returns (notices: seq<Notice>)
      modifies this
      ensures Valid()
      ensures index == 0 && source == Some(SourceOf(input)) && data == Loaded(input)
      ensures Step(Snapshot(), notices) == SearchStep(old(Snapshot()), input)
    {
      index := 0;
      source := Some(SourceOf(input));
      data := [];
      match input {
        case NewsSearch(reply) =>
          var got := SelectNews(reply);
          if got.Raised? {
            notices := [ScriptAborted];
            return;
          }
          data := NewsItems(got.items);
          notices := ErrorNotices(got.error);
          if data == [] {
            notices := notices + [NoNewsResults];
          }
        case ArxivSearch(feed) =>
          var got := SelectArxiv(feed);
          data := PaperItems(got.items);
          notices := ErrorNotices(got.error);
          if data == [] {
            notices := notices + [NoPaperResults];
          }
        case VideoSearch(url) =>
          if url != "" {
            data := [VideoItem(url)];
            notices := [];
          } else {
            notices := [VideoUrlMissing];
            data := [];
          }
      }
    }

    /** The previous button; `moved` tells whether the cursor moved. */
    method Prev() returns (moved: bool, notices: seq<Notice>)
      requires Valid()
      modifies this
      ensures Valid()
      ensures moved <==> old(data) != [] && old(index) > 0
      ensures data == old(data) && source == old(source)
      ensures index == if moved then old(index) - 1 else old(index)
      ensures Step(Snapshot(), notices) == PrevStep(old(Snapshot()))
    {
      moved := false;
      notices := [];
      if data != [] {
        if index > 0 {
          index := index - 1;
          moved := true;
        } else {
          notices := [FirstItem];
        }
      }
    }

    /** The next button; `moved` tells whether the cursor moved. */
    method Next() returns (moved: bool, notices: seq<Notice>)
      requires Valid()
      modifies this
      ensures Valid()
      ensures moved <==> old(data) != [] && old(index) < |old(data)| - 1
      ensures data == old(data) && source == old(source)
      ensures index == if moved then old(index) + 1 else old(index)
      ensures Step(Snapshot(), notices) == NextStep(old(Snapshot()))
    {
      moved := false;
      notices := [];
      if data != [] {
        if index < |data| - 1 {
          index := index + 1;
          moved := true;
        } else {
          notices := [LastItem];
        }
      }
    }

    /** The record on display, or none while nothing is loaded. */
    function Current(): (r: Option<Item>)
      reads this
      requires Valid()
      ensures r.None? <==> data == []
      ensures r.Some? ==> 0 <= index < |data| && r.value == data[index] && source == Some(KindOf(r.value))
    {
      if data == [] then None else Some(data[index])
    }
  }
}
