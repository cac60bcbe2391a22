# Pixabay image search: pagination state machine and `escapeHtml`

A model of the logic under a small browser image-search page. The page submits a
query to the Pixabay search API, shows the hits in a gallery, and fetches more
pages through a "load more" button. Two parts of it are modelled.

- **The search session.** `src/api.js` has a `PixabayClient` that holds the
  query, page and page size. `src/main.js` has a `state` record that holds the
  current query, the provider's total and the number of hits loaded. The handlers
  `onSearchSubmit`, `onLoadMore` and `fetchAndRender` are modelled as pure
  transitions `Step(state, event) -> (next state, effects)` over the events
  `Submit(raw)`, `LoadMore`, `FetchOk(reply)` and `FetchFail`. Effects are abstract
  page actions: clear or append to the gallery, show or hide "load more" and the
  loader, set the status text, raise a toast, send a request. A `View` records what
  those effects leave on screen.
- **`escapeHtml`**, modelled as it actually behaves. The pattern `/[&<>"]+/g`
  matches whole runs of special characters, but the replacement table only has
  single-character keys. So a lone special character becomes its entity, and a
  run of two or more becomes the text `undefined`.

Modules: `Text` (ECMAScript `trim`), `Pixabay` (the client), `Html`
(`escapeHtml`), `Ui` (effects and view), `Search` (the handlers) and
`SearchProperties` (invariants and scenarios).

`fetchAndRender` waits for the network in the middle. The model splits it at that
point. `BeginFetch` shows the loader and sends the request, and sets `fetching`.
The reply then arrives as its own event and is handled by `Complete` or `Abort`.
An empty client query resolves at once without a request, so in that case
`BeginFetch` handles the empty reply in the same step.

Two facts about the code shape what is proved:
- The code never checks `loadedHits <= totalHits`. A provider that returns more
  hits than it reports breaks it. The model proves it only for consistent replies
  (`SearchProperties.LoadedWithinTotal`).
- Nothing stops a "load more" click except the hidden button. `Step` accepts
  `LoadMore` in any state, and the invariants hold regardless.

## Model

| member | source | states |
|---|---|---|
| `Text.Trim` | src/main.js:100 | the result is the slice of the input between its leading and trailing ECMAScript white space; what it drops is white space, and a non-empty result neither starts nor ends with white space |
| `Text.TrimIdempotent` | src/api.js:30 | trimming an already trimmed query changes nothing, so `setQuery` stores the query `onSearchSubmit` checked |
| `Text.TrimEmptyIff` | src/main.js:100-101 | the trimmed input is empty exactly when every character is white space |
| `Pixabay.NewClient` | src/api.js:11-15 | a new client is on page 1 with an empty query; page size is the one given, or 40 when none is given |
| `Pixabay.SetQuery` | src/api.js:29-31 | the stored query becomes the trimmed argument; page, page size and key are untouched |
| `Pixabay.ResetPage` | src/api.js:33-35 | the page becomes 1; query, page size and key are untouched |
| `Pixabay.IncrementPage` | src/api.js:37-39 | the page grows by exactly one, so a valid page (at least 1) stays valid; nothing else changes |
| `Pixabay.FetchImages` | src/api.js:45-56 | no request exactly when the query is empty, and then the reply is empty with totals 0; otherwise one request carrying exactly the current query, page and page size |
| `Pixabay.ResetPageIdempotent` | src/api.js:33-35 | resetting the page twice is the same as resetting it once |
| `Pixabay.SetQueryOverwrites` | src/api.js:29-31 | a second `setQuery` fully replaces the first |
| `Pixabay.BlankQueryFetchesNothing` | src/api.js:29-46 | after a white-space-only `setQuery` the query is empty and the next fetch sends nothing and yields the empty reply |
| `Pixabay.NonBlankQuerySends` | src/api.js:45-55 | after `setQuery` with a non-blank argument the fetch sends the trimmed query with the unchanged page and page size |
| `Html.Entity` | src/main.js:91-94 | each of the four special characters maps to an entity that starts with `&`, ends with `;` and contains no markup character |
| `Html.TableKeys` | src/main.js:90-95 | the lookup table's keys are exactly the one-character strings of the four special characters, each mapped to its entity |
| `Html.SpecialRun` | src/main.js:90 | the length of one greedy match of `[&<>"]+` at the front: all special characters, and the next character is not special |
| `Html.Replacement` | src/main.js:90-95 | the whole matched run is the lookup key: a run of length 1 is a key and becomes its entity; a run of length 2 or more is no key and becomes `undefined`; the result never contains markup |
| `Html.EscapeHtml` | src/main.js:89-96 | the output never contains `<`, `>` or `"` |
| `Html.EscapePlain` | src/main.js:90 | text without special characters is returned unchanged |
| `Html.EscapeLone` | src/main.js:90-95 | a lone special character becomes its entity |
| `Html.EscapeRun` | src/main.js:90-95 | a string of two or more special characters becomes `undefined` |
| `Html.SpecialRunConcat` | src/main.js:90 | a match stops at the first non-special character, so appending text after it does not lengthen it |
| `Html.EscapeConcat` | src/main.js:89-96 | escaping a concatenation is concatenating the escapes, wherever the join is not between two special characters |
| `Html.EscapeChar` | src/main.js:91-94 | the intended per-character replacement: the character itself exactly when it is not special |
| `Html.EscapeEach` | src/main.js:89-96 | the intended escaping: output free of `<`, `>` and `"`, and never shorter than the input |
| `Html.UnescapeEscapeEach` | src/main.js:89-96 | decoding the intended escaping gives back the input |
| `Html.EscapeMatchesIntended` | src/main.js:89-96 | when no two special characters are adjacent, the actual escaping equals the intended one |
| `Html.AdjacentSpecialsBecomeUndefined` | src/main.js:90-95 | `&&` and `<>` both become `undefined`, while the intended escaping of `&&` is `&amp;&amp;` |
| `Ui.PerformAllConcat` | src/main.js:45-85 | carrying out two lists of page actions one after the other is carrying out their concatenation |
| `Ui.PerformAllExtendsGallery` | src/main.js:63-85 | page actions without `clearGallery` keep the gallery shown as a prefix, since `renderImages` only inserts at the end |
| `Search.Start` | src/main.js:15-24 | the session starts with an empty query, zero totals, nothing in flight, and a client on page 1 with an empty query and 40 per page |
| `Search.Complete` | src/main.js:126-159 | reply handling: on page 1 the total is taken from the reply, and later it is kept; page 1 with total 0 appends nothing, hides "load more" and keeps the count and page; any other reply is appended, adds its hit count to the loaded count and advances the page by one; no found or no-match toast after page 1; the loader is hidden last |
| `Search.Abort` | src/main.js:154-159 | a failed fetch leaves the session as it was apart from the in-flight flag; it raises a generic failure toast and then hides the loader |
| `Search.BeginFetch` | src/main.js:123-126 | the loader is shown first; a non-empty query sends one request for the current query, page and page size and changes nothing else; an empty query resolves at once and ends with the loader hidden |
| `Search.OnSearchSubmit` | src/main.js:98-117 | blank input yields an info toast and no state change; otherwise query set, totals zeroed, client query set and page 1, gallery cleared, "load more" hidden, status cleared, loader shown, and one request for page 1 of the trimmed query |
| `Search.Step` | src/main.js:98-121 | only a submit can change the query or lower the loaded count; the page size never changes |
| `Search.Run` | src/main.js:98-160 | over any run of events without a submit, the query is kept and the loaded count does not shrink |
| `SearchProperties.SubmitBlank` | src/main.js:100-104 | blank input leaves the session unchanged and adds only the toast to the page, an info toast; no request is sent |
| `SearchProperties.SubmitResets` | src/main.js:106-116 | after a real submit the gallery is empty, "load more" hidden, status empty, loader shown, exactly one page-1 request sent, and the session reset to the trimmed query with zero totals |
| `SearchProperties.NoMatchesStops` | src/main.js:128-134 | page 1 with total 0: gallery untouched, "load more" hidden, no-match toast of the failure kind, loader hidden, session unchanged apart from total 0 |
| `SearchProperties.RenderAppends` | src/main.js:128-153 | a rendered reply's hits are appended after those shown; "load more" is shown and the status cleared exactly when the loaded count is below the total, else the end-of-results text is shown; the found toast, of the success kind, only on page 1; page plus one |
| `SearchProperties.FailureChangesOnlyLoader` | src/main.js:154-159 | after a failure only the loader (now hidden) and the toast list (one generic toast of the failure kind) differ; gallery, "load more", status and session are unchanged |
| `SearchProperties.LoaderBracket` | src/main.js:123-159 | every fetch shows the loader, and every reply or failure leaves it hidden |
| `SearchProperties.PageAdvancesOnlyOnRender` | src/main.js:138-153 | the page grows by one exactly when a page is appended; otherwise it stays, or a submit sets it to 1 |
| `SearchProperties.TotalsOnlyOnFirstPage` | src/main.js:119-136 | the total changes only on a page-1 reply (a network reply, or the empty reply that "load more" with an empty client query resolves at once) or is zeroed by a submit; a failure or a sent request never changes it; found and no-match toasts come only from page 1 |
| `SearchProperties.StepKeepsGallery` | src/main.js:119-160 | no event except a submit clears the gallery |
| `SearchProperties.RunKeepsGallery` | src/main.js:119-160 | no effect of a run of events without a submit clears the gallery |
| `SearchProperties.GalleryGrowsWithinQuery` | src/main.js:119-139 | without a new submit the query stays and the gallery shown before is a prefix of the gallery after: hits are only added at the end |
| `SearchProperties.SubmitQuiet` | src/main.js:98-117 | a submit never appends hits and never raises the found or no-match toast |
| `SearchProperties.SendQuiet` | src/main.js:123-126 | sending a request appends nothing and raises no found or no-match toast |
| `SearchProperties.AbortQuiet` | src/main.js:154-159 | a failure appends nothing and raises no found or no-match toast |
| `SearchProperties.ImmediateFetch` | src/main.js:119-126 | "load more" with an empty client query handles the empty reply at once: same next session, and it appends or announces exactly when handling that reply does |
| `SearchProperties.StartCoherent` | src/main.js:15-24 | the initial session agrees with the blank page |
| `SearchProperties.StepPreservesCoherent` | src/main.js:98-160 | after any event the page still agrees with the session: gallery size is the loaded count, "load more" shown iff hits remain, loader shown iff a request is out, end text only after an exhausting page |
| `SearchProperties.RunPreservesCoherent` | src/main.js:98-160 | the same agreement holds after any sequence of events |
| `SearchProperties.LoadMoreVisibleIffHitsRemain` | src/main.js:145-151 | from page load, after any events, "load more" is visible exactly when the loaded count is below the total, and the gallery holds the loaded count |
| `SearchProperties.LoadedWithinTotal` | src/main.js:139-145 | with replies that do not over-deliver, the loaded count never exceeds the total |
| `SearchProperties.FirstPage` | src/main.js:98-153 | a non-blank submit and a page-1 reply of n hits out of a positive total leave n loaded, the total taken, page 2 and the trimmed query |
| `SearchProperties.LoadNextPage` | src/main.js:119-153 | a "load more" past page 1 and its reply of n hits add n to the count, keep the total and advance the page by one |
| `SearchProperties.EndOfResultsExample` | src/main.js:145-151 | total 83 at 40 per page: "load more" stays after 40 and 80 loaded and goes after 83, with the end-of-results text shown |
| `SearchProperties.NoResultsScenario` | src/main.js:128-134 | "cats" with no matches: empty gallery, no-match toast, "load more" hidden, one request only, page still 1 |
| `SearchProperties.FirstPageFailureScenario` | src/main.js:154-159 | a failure on page 1: loader hidden, failure toast, page 1, totals 0, gallery empty |
| `SearchProperties.SecondQueryClearsGallery` | src/main.js:106-139 | after a new submit and its page-1 reply the gallery holds exactly the new hits, none from the old query |

## Left out

- DOM wiring and markup (`refs`, `DOMContentLoaded`, the `renderImages` template, `insertAdjacentHTML`): presentation only. Each DOM helper (`showLoader`, `showLoadMore`, `setStatus`, `clearGallery`, the append of `renderImages`) is an abstract effect, which `Ui.Perform` applies to a `Ui.View` and `Ui.PerformAll` folds over a list; neither has a contract of its own, and their behaviour is stated through the lemmas about them. The initial page is taken to have "load more" and the loader hidden, because the HTML is not part of this model.
- Notiflix toasts and SimpleLightbox (`lightbox.refresh()`): foreign libraries. A toast is a `Notice` tag, and the lightbox is not modelled.
- axios, the endpoint, the fixed filter parameters, the 15 s timeout and the API-key lookup: network I/O and configuration. A reply is an event value. Every transport, HTTP or parsing failure is the single `FetchFail` event.
- Replies are taken to be well formed (`hits` an array, `totalHits` a number). A malformed body that throws inside the reply handling is treated as `FetchFail`. The code could then already have stored a page-1 total and, when `renderImages` throws, already raised the page-1 success toast; those partial updates are not modelled.
- `smoothScrollByTwoCards`: floating-point layout geometry and window scrolling.
- Overlapping fetches, and a submit racing a pending "load more": concurrency is left out. Each event is atomic, and only one reply per request is modelled.
- `console.error`: logging only.
- `escapeHtml` coerces non-string arguments with `String(...)`. The model only takes strings.
- JavaScript strings are sequences of UTF-16 code units, and a lone surrogate cannot be a Dafny `char`. No such input changes what `trim` or `escapeHtml` do, since neither white space nor the special characters are surrogates.
- Integers are unbounded. JavaScript numbers lose precision above 2^53, which a page counter or hit count never reaches.

## Findings

| source | as written | input that shows it | evidently intended | confidence | as-written member | corrected member |
|---|---|---|---|---|---|---|
| src/main.js:90-95 | the pattern `/[&<>"]+/g` matches a whole run, but the lookup table has only single-character keys, so a run of two or more is replaced by `undefined` | `escapeHtml("&&")` gives `undefined` (and so does `escapeHtml("<>")`) | each special character replaced by its own entity: `&amp;&amp;` | high; not executed | `Html.AdjacentSpecialsBecomeUndefined` | `Html.UnescapeEscapeEach` |
