# Short-form news, paper and video viewer: session and pagination model

The viewer (`app.py`) is one Streamlit page. The user types a keyword, picks a
source (NewsAPI headlines, arXiv papers, or a pasted video URL) and presses
search. The page then shows the loaded results one at a time, with previous and
next buttons under them. All of its logic sits in three session fields:

- `index`, the cursor;
- `data`, the loaded results;
- `source`, the kind of source that loaded them.

On top of these fields there are two small choices made inside the providers:
what `fetch_news` and `fetch_arxiv` return for a given reply.

The model has four modules:

- `Wrappers` (`Wrappers.dfy`): the `Option` type. It stands for a missing JSON key and for the unset source.
- `Fetchers` (`Fetchers.dfy`): the result providers as pure functions over what the request or the feed parser delivered.
  - `SelectNews` is the branch cascade of `fetch_news`: HTTP status, then the body's `status`, then a default for a missing `articles` key.
  - `SelectArxiv` is the `bozo`/exception handling of `fetch_arxiv`.
  - `VideoData` wraps the URL.
- `Controller` (`Controller.dfy`): the session state.
  - A pure specification: `State`, `SearchStep`, `PrevStep`, `NextStep`, and `Run` over a sequence of button presses.
  - The class `Session`, whose fields `index`, `data` and `source` are updated in place by `Search`, `Prev` and `Next`. Each method is proved equal to its step function applied to the old state.
  - The lemmas: the cursor invariant, reset on search, no merging, boundary behaviour, the inverse pair, and the scenarios.
- `Render` (`Render.dfy`): the results section.
  - Default texts for missing article keys, the `publishedAt[:10]` day and the `", "` join of author names.
  - `Display`, which dispatches on the source. Its "nothing more to show" branch is proved unreachable.
  - The page counter `idx + 1 / total`.

The invariant of the session (`Controller.Inv`) has two parts:

- The cursor is 0 while nothing is loaded, and `0 <= index < |data|` otherwise.
- Every loaded record comes from the recorded source.

`Controller.RunKeepsInv` proves that every step keeps it. `Controller.ReachableInv`
and `Render.ReachableDisplay` conclude from it that the render guard `idx < total_items`
(app.py:99, 111) always holds, and that the counter is always within `1..total`.

A search whose provider fails does not keep the previous results. Lines 70-72
clear them before the provider is called. The model follows this code: a failed
or empty search leaves no results, with the source set and the cursor at 0. A
design in which a failed search keeps the previous results would behave
differently. When an exception escapes `fetch_news` (the request raising, or a
200 reply whose body is not JSON), the script stops right after lines 70-72. The
model gives that state and the notice `ScriptAborted`.

The external inputs are parameters:

- what `requests.get` answered;
- what `feedparser.parse` produced or raised;
- the text of the URL box.

## Model

| member | source | states |
|---|---|---|
| `Fetchers.SelectNews` | app.py:42-52 | A non-200 status gives no articles and reports the code and the body. A 200 whose body status is not "ok" gives no articles and reports the provider's message. Otherwise the result is the `articles` key, or no articles when the key is missing. Any error is reported exactly when the reply did not succeed. A failed request or a non-JSON body raises. |
| `Fetchers.SelectArxiv` | app.py:58-66 | Always returns. A malformed feed gives no papers and reports `FeedMalformed`. A parser exception gives no papers and reports the exception. Otherwise the result is exactly the feed's entries, with no error. |
| `Fetchers.VideoData` | app.py:83-87 | At most one element. Empty exactly when the URL is empty. Every element is the URL. |
| `Controller.SearchStep` | app.py:69-87 | After a search the cursor is 0 and the source is the selected one. The results are exactly what the provider's answer loads, whatever the state before. The invariant holds afterwards. The notices are the provider's error, if any, followed by the "no news" or "no papers" warning exactly when nothing was loaded. A video search shows the "enter a URL" error exactly when nothing was loaded. A news provider that raised gives only `ScriptAborted`. |
| `Controller.PrevStep` | app.py:132-137 | Previous never changes the results or the source. It keeps the invariant. (This is the corrected behaviour of the buttons; see Findings.) |
| `Controller.NextStep` | app.py:140-145 | Next never changes the results or the source. It keeps the invariant. (This is the corrected behaviour of the buttons; see Findings.) |
| `Controller.InitValid` | app.py:13-18 | A fresh session has `index == 0`, `data == []` and `source == None`, and satisfies the invariant. |
| `Controller.ApplyKeepsInv` | app.py:69-145 | Each of search, previous and next keeps the session invariant. |
| `Controller.RunKeepsInv` | app.py:69-145 | Any sequence of presses keeps the session invariant. |
| `Controller.ReachableInv` | app.py:94-99 | In every reachable state, loaded results imply `0 <= index < len(data)`. So the render guard `idx < total_items` holds. |
| `Controller.SearchForgetsPrior` | app.py:70-87 | A search gives the same state and notices from any prior state. The new results are never merged with the earlier ones. |
| `Controller.LastSearchDecides` | app.py:69-87 | After any history, a run ending in a search followed by more presses depends only on that search and those presses. |
| `Controller.VideoSearchLoads` | app.py:82-87 | A video search with a non-empty URL loads exactly `[url]` and shows nothing. With an empty URL it loads nothing and shows the "enter a URL" error. |
| `Controller.HttpErrorShowsNoResults` | app.py:42-77 | A news reply with a non-200 status leaves no results and the source News. It shows the status error followed by the "no news results" warning. |
| `Controller.PrevMovesIff` | app.py:132-137 | Previous changes the state exactly when results are loaded and the cursor is past the first record. It then decrements the cursor and shows nothing. On the first record it keeps the state and shows "first item". |
| `Controller.NextMovesIff` | app.py:140-145 | Next changes the state exactly when the cursor is before the last record. It then increments the cursor and shows nothing. On the last record it keeps the state and shows "last item". |
| `Controller.PrevNextInverse` | app.py:132-145 | From an interior cursor, previous then next restores the state. So does next then previous. |
| `Controller.NavigationKeepsResults` | app.py:132-145 | No sequence of previous/next presses changes the loaded results or the source. |
| `Controller.SingleItemFrozen` | app.py:132-145 | With exactly one loaded record (a video), no sequence of previous/next presses changes the state. |
| `Controller.ThreeArticlesScenario` | app.py:69-145 | A successful news reply with three articles loads them with cursor 0. Two presses of next reach the third article. A third press keeps the state and shows "last item". |
| `Controller.PrevPressAsWritten` | app.py:132-137 | As written, the cursor effect of the two previous buttons: the active button moves as `PrevStep` does, and the inactive button never moves the cursor. |
| `Controller.NextPressAsWritten` | app.py:140-145 | As written, the cursor effect of the two next buttons: the active button moves as `NextStep` does, and the inactive button never moves the cursor. |
| `Controller.BoundaryNoticeAsWritten` | app.py:132-145 | As written, "first item" shows on the second of two records, and pressing previous on the first record shows nothing. The same holds for "last item" and next. |
| `Controller.RunAsWrittenAgrees` | app.py:69-145 | Any presses of the script with both buttons per side, as written, end in the same state as the corrected controller run on the same presses with the inactive-button clicks dropped. |
| `Controller.ReachableInvAsWritten` | app.py:94-145 | Every state the script as written reaches satisfies the session invariant. |
| `Controller.BoundaryNoticeIff` | app.py:132-145 | In the corrected controller, "first item" shows exactly on the first record, and "last item" exactly on the last. Away from the boundary nothing is shown. |
| `Controller.Session.constructor` | app.py:13-18 | The session fields start as `index == 0`, `data == []`, `source == None`, and the invariant holds. |
| `Controller.Session.Search` | app.py:69-87 | Sets the cursor to 0 and the source to the selected one, and replaces the results with the provider's answer. The new state and the notices are those of `SearchStep`, and the invariant holds. |
| `Controller.Session.Prev` | app.py:132-137 | Moves exactly when results are loaded and the cursor is past the first. It then decrements the cursor, and the results and source are unchanged. The new state and the notices are those of `PrevStep`. |
| `Controller.Session.Next` | app.py:140-145 | Moves exactly when the cursor is before the last record. It then increments the cursor, and the results and source are unchanged. The new state and the notices are those of `NextStep`. |
| `Controller.Session.Current` | app.py:94-100 | None exactly when nothing is loaded. Otherwise the result is the record at the cursor, which lies within the results and comes from the recorded source. |
| `Render.PublishedDay` | app.py:106 | The day is a prefix of `publishedAt` of length `min(10, len)`. It is `""` when the key is missing. |
| `Render.JoinAuthors` | app.py:116 | No authors give `""`, and one author gives that name. Otherwise the text starts with the first author's name and ends with the last's. |
| `Render.JoinAuthorsSnoc` | app.py:116 | Joining one more author appends `", "` and that author's name. |
| `Render.NewsDefaults` | app.py:101-106 | An article without any key shows the default title, no image, the default description, the link `#`, and the caption with the unknown source and an empty day. |
| `Render.SourceName` | app.py:106 | The name of the article's `source` object when both the object and its name are present. Otherwise "알 수 없음" (unknown). |
| `Render.RenderNews` | app.py:101-106 | Title, description and link are shown as the article has them. Each missing one shows its default: "제목 없음", "설명 없음", `#`. The image shows exactly when `urlToImage` is present and non-empty. The caption is the source name followed by the publication day. |
| `Render.RenderPaper` | app.py:113-117 | Title, summary and link are shown as the entry has them. The author line is "저자: " followed by the joined author names: empty for no authors, the one name for a single author. |
| `Render.PaperCaptionSnoc` | app.py:116-117 | One more author on an entry appends `", "` and that name to its author line. |
| `Render.Display` | app.py:93-125 | The "no results yet" info shows exactly when nothing is loaded. Under a valid cursor with results loaded, the "nothing more to show" branch is never taken. There, a news card shows exactly for the News source, a paper card exactly for arXiv, and the video panel exactly for Video. A news or paper card is the card of the record at the cursor. |
| `Render.Page` | app.py:147 | The counter is drawn exactly when results are loaded. It shows `index + 1` out of the number of results. Under a valid cursor the first number lies in `1..total`. |
| `Render.ReachableDisplay` | app.py:94-147 | In every reachable state the display is never "nothing more to show". When results are loaded, the counter lies in `1..total`. |

## Left out

- Streamlit widgets, layout and rendering (`st.*` calls): button presses are the actions `Search`, `Prev` and `Next`, and messages are the abstract `Notice` values. The Korean message texts are not modelled, except for the default field texts.
- `st.experimental_rerun()`: it only restarts the script. Its effect, a fresh render of the new state, is what `Render.Display` gives.
- The select box and its label-to-source mapping (app.py:23-29), and the keyword text input: this is UI. The source is the `SourceOf` of the search input.
- HTTP through `requests.get`, the NewsAPI and arXiv URLs, `urllib.parse.quote`, the page-size and `max_results` constants, and the secrets lookup of the API key (app.py:10, 38-40, 57): network I/O and foreign libraries. The reply is a parameter.
- Feed parsing by `feedparser`: a foreign library. A feed is its `bozo` flag and its entries, or a raised exception.
- `@st.cache_data(ttl=3600)`: memoisation with wall-clock expiry. It does not change which list a reply selects.
- The video branch of the display (app.py:122-125): it plays the live URL box, not the stored record. `Render.Display` returns `VideoPanel` without content.
- JSON `null` values: the model has each key absent or present as a string. A `null` description (shown as "None"), a `null` `publishedAt` (which makes the slice raise), a `null` `articles` key, a non-string `status` and a body that is not a JSON object are not modelled.
- Missing attributes on feed entries (`title`, `summary`, `link`, `authors`, an author's `name`): they would raise `AttributeError`. A paper record always has them.
- The page counter's text formatting: `Render.Page` gives the two numbers.
- `Controller.Session.Prev`, `Controller.Session.Next`: they model the corrected single control of the Findings, not the two buttons. The buttons as written are `PrevPressAsWritten` and `NextPressAsWritten`.

## Findings

| source | as written | input that shows it | evidently intended | confidence | as-written member | corrected member |
|---|---|---|---|---|---|---|
| app.py:132-137 | On an ordinary run the active button is not pressed, so the `elif` also draws the `prev_button_inactive` button. Clicking it shows "first item" at any cursor. Clicking the active button on the first record shows nothing, because the inactive button drawn in that run is not the one clicked. | Two records, cursor 1, click on the second previous button: "first item" shows, although the cursor is not on the first record. | The comment at line 135 says the inactive button appears only when the cursor is on the first record. "First item" should show exactly there. | medium, not executed | `Controller.PrevPressAsWritten`, `Controller.BoundaryNoticeAsWritten` | `Controller.PrevStep`, `Controller.BoundaryNoticeIff` |
| app.py:140-145 | Symmetrically, the `next_button_inactive` button is drawn on every ordinary run. Clicking it shows "last item" at any cursor, and the active button on the last record shows nothing. | Two records, cursor 0, click on the second next button: "last item" shows, although the cursor is not on the last record. | The comment at line 143 says the inactive button appears only on the last record. "Last item" should show exactly there. | medium, not executed | `Controller.NextPressAsWritten`, `Controller.BoundaryNoticeAsWritten` | `Controller.NextStep`, `Controller.BoundaryNoticeIff` |
