# ShopOut frontend logic in Dafny

ShopOut is a shopping-recommendation demo. The user types a life goal on the landing page. The scene page fetches AI-generated product recommendations and shows up to five of them as clickable 3D objects. Clicking one searches for matching items, and a refresh button asks for items not shown yet. A separate results page reads a recommendation snapshot that another flow left in browser storage, and reads it only once.

This project models the sequential logic of those three pages as pure functions over immutable records. Network answers and storage contents are explicit inputs:

- `Landing` (`frontend/app/page.tsx`): the goal field must keep its fixed prefix `"I want to… "`. The Go button and the submit handler refuse a goal that is only the prefix plus white space. The navigation parameter is the goal with the first occurrence of the prefix removed. The placeholder suggestion cycles through three texts.
- `Demo`, `RefreshAttempts` and `Scene` (`frontend/app/3d-demo/page.tsx`): the view state and its handlers. Category clicks toggle the selection and issue one search. Back resets the view. A detail panel opens and closes. Refresh runs a filter-and-accept-first loop of at most five searches plus one fallback. `Scene` places each recommended product.
- `Snapshot` (`frontend/app/prompt_results/page.tsx`): the read-once handoff. Storage is a `map<string, string>` and `JSON.parse` is a function argument. The page redirects with storage untouched, or it shows the data and deletes both keys.
- `Text` holds the JavaScript string operations used above. `trim` is modelled over the explicit WhiteSpace and LineTerminator set of sections 12.2 and 12.3 of ECMA-262. `Catalog` holds the shared records and `Common` holds `Option`.

Each asynchronous handler is modelled as one atomic step. A click receives one `SearchResponse`, which is either `Found(products)` or `Failed` for a thrown error. A refresh receives `answers: nat -> SearchResponse`, where `answers(j)` answers the `j`-th search call of that refresh. Every handler also returns the search calls it issued. `Demo.Deliver` adds which controls are on screen: the 3D items only while no detail is open, the panel buttons only while a category is selected, and so on. This lets the model prove which handler branches a user can actually reach.

Some behaviours of the code that a reader might not expect, all modelled as written:

- The shown-URL set is never reset. Every handler only extends it by union, including when another category is chosen (`Demo.ShownOnlyGrows`).
- Choosing a category does not clear the previous hits before searching. They are replaced when the search answers. When the category is missing they are kept and the page stays loading.
- Submission compares `goal.trim()` with `PREFIX.trim()`, not with the empty string.
- Clicking the selected category again does not close an open detail. This cannot happen on screen, because the 3D items are hidden while a detail is open (`Demo.ToggleOffIsBack`).

## Model

| member | source | states |
|---|---|---|
| Text.TrimStart | frontend/app/page.tsx:49 | the result is the suffix of the input after its longest all-white-space prefix, and does not start with white space |
| Text.TrimEnd | frontend/app/page.tsx:49 | the result is the prefix of the input before its longest all-white-space suffix, and does not end with white space |
| Text.IndexOfFrom | frontend/app/page.tsx:51 | the result is an occurrence of the pattern at or after the start position, and none occurs between the start position and it; `None` means none occurs at or after the start position |
| Text.ReplaceFirst | frontend/app/page.tsx:51 | exactly the first occurrence of the pattern, wherever it is, is replaced; in particular a leading occurrence replaces that prefix; a string without the pattern is unchanged |
| Landing.OnChange | frontend/app/page.tsx:71-74 | a typed value is taken exactly when it starts with the prefix, otherwise the state is unchanged; a goal that starts with the prefix keeps it |
| Landing.RunKeepsValid | frontend/app/page.tsx:71-74 | after any sequence of typing, focus and timer events the goal still starts with the prefix and the placeholder index stays below 3 |
| Landing.ReachableValid | frontend/app/page.tsx:18-23 | starting from the initial goal (the prefix itself), every reachable goal starts with the prefix |
| Landing.NextPlaceholder | frontend/app/page.tsx:40 | the next index is always in [0, 3): it moves one step forward and wraps from 2 to 0 |
| Landing.PlaceholderCycle | frontend/app/page.tsx:26-42 | three `Advance` ticks (each `NextPlaceholder`, as `Landing.Step` states) return to the same placeholder after visiting all three |
| Landing.GoTo3DDemo | frontend/app/page.tsx:48-53 | submission does nothing exactly when the Go button is disabled; otherwise, for a goal that keeps the prefix, the parameter is the text after the prefix |
| Landing.Step | frontend/app/page.tsx:35-82 | typing goes through the change handler and touches nothing else; focus and blur only set the focus flag; the first timer half only fades out; the second only moves to the next placeholder and fades in; every event keeps a valid state valid |
| Landing.GoDisabled | frontend/app/page.tsx:101 | for a goal that keeps the prefix, the button is disabled exactly when nothing but white space follows the prefix |
| Landing.TrimPrefix | frontend/app/page.tsx:18 | the trimmed prefix is the prefix without its trailing space |
| Landing.BlockedIffBlankTail | frontend/app/page.tsx:49 | for a goal that keeps the prefix, `goal.trim()` equals `PREFIX.trim()` exactly when everything typed after the prefix is white space (both directions) |
| Landing.SuggestionOnlyWhileDisabled | frontend/app/page.tsx:87-101 | the animated suggestion is only drawn while the Go button is disabled and submission does nothing |
| Catalog.Urls | frontend/app/3d-demo/page.tsx:183 | every hit's URL is in the set, and every URL in the set belongs to some hit |
| Scene.Place | frontend/app/3d-demo/page.tsx:106-113 | only the first min(n, 5) products are placed; an item is centred exactly when it is the selected index; the others go to (10,10,10) while something is selected; with no selection item i sits at slot i and no two slots coincide |
| Scene.CenterIffSelectedPlaced | frontend/app/3d-demo/page.tsx:106-113 | some item is centred exactly when the selection is a placed index, and never two items |
| RefreshAttempts.Unseen | frontend/app/3d-demo/page.tsx:214-216 | the kept hits are no more than the batch and none of their URLs was shown |
| RefreshAttempts.UnseenMembers | frontend/app/3d-demo/page.tsx:214-216 | a hit is kept exactly when it is in the batch and its URL was not shown |
| RefreshAttempts.UnseenAppend | frontend/app/3d-demo/page.tsx:214-216 | filtering distributes over concatenation, so kept hits stay in response order |
| RefreshAttempts.TakePage | frontend/app/3d-demo/page.tsx:218-223 | an accepted batch is the first min(n, 6) unseen hits |
| RefreshAttempts.Attempts | frontend/app/3d-demo/page.tsx:206-227 | the attempts are exhausted exactly when all five are barren; an accepted batch comes from the first non-barren attempt, after only barren ones, is non-empty and is that attempt's first min(n, 6) unseen hits; a thrown error comes from the first failed call |
| RefreshAttempts.FirstFreshAccepted | frontend/app/3d-demo/page.tsx:210-227 | if attempt m is the first to bring something new, the refresh accepts that attempt's unseen hits, cut to six, after m + 1 calls |
| RefreshAttempts.AttemptLoop | frontend/app/3d-demo/page.tsx:206-227 | the counted loop with its two break conditions computes the same outcome and call count as the recursive definition |
| Demo.Arrive | frontend/app/3d-demo/page.tsx:149-166 | a missing or empty goal sends the user home without a fetch; otherwise one fetch, and the page is ready exactly when it succeeds |
| Demo.Click | frontend/app/3d-demo/page.tsx:168-192 | clicking the selected index unselects and empties the hits with no search; another index becomes selected, and with no such category no search is issued and loading stays true; otherwise one search of 6 replaces the hits (empty on failure) and the shown set becomes the old set plus the hits' URLs |
| Demo.Back | frontend/app/3d-demo/page.tsx:425-429 | Back clears the selection, the hits and the detail, and keeps the shown set, the data and the flags |
| Demo.OpenDetail | frontend/app/3d-demo/page.tsx:455 | opening a card's detail changes nothing but the detail, so the shown set is not affected |
| Demo.CloseDetail | frontend/app/3d-demo/page.tsx:281 | closing the detail changes nothing but the detail |
| Demo.Filtered | frontend/app/3d-demo/page.tsx:211 | each filtered attempt is one search call for the category name asking for 12 hits |
| Demo.Refresh | frontend/app/3d-demo/page.tsx:194-247 | nothing happens without a selection, without data or while refreshing; otherwise the refresh ends not refreshing, not loading, without a detail, with the shown set extended by exactly the shown hits' URLs; at most 5 calls of 12 then at most one call of 6, all for the selected name, and the sixth call only when all five attempts were barren; a selected index with no product throws before any call and leaves no hits and the shown set unchanged |
| Demo.RefreshShowsFirstFresh | frontend/app/3d-demo/page.tsx:213-233 | when attempt m is the first with n > 0 unseen hits, the hits become its first min(n, 6) unseen hits, none shown before the refresh, after m + 1 calls |
| Demo.RefreshFallsBack | frontend/app/3d-demo/page.tsx:229-240 | when all five attempts are barren, a sixth call of 6 is made and its answer is shown unfiltered (nothing if it throws) |
| Demo.RefreshErrorShowsNothing | frontend/app/3d-demo/page.tsx:241-245 | a thrown call before any attempt brought something new leaves no hits and the shown set unchanged |
| Demo.ToggleOffIsBack | frontend/app/3d-demo/page.tsx:169-173 | with no detail open, clicking the selected item has the same effect as Back and issues no search |
| Demo.ClickTwice | frontend/app/3d-demo/page.tsx:168-192 | clicking an unselected existing item twice returns to no selection and no hits after exactly one search, and keeps the shown URLs |
| Demo.Deliver | frontend/app/3d-demo/page.tsx:355-455 | no event delivered through the drawn controls removes a URL from the shown set (items parked out of view while another is selected still count as clickable) |
| Demo.ShownOnlyGrows | frontend/app/3d-demo/page.tsx:168-247 | over any event sequence, including category switches, the shown set only grows |
| Demo.DeliverKeepsSettled | frontend/app/3d-demo/page.tsx:260-455 | one delivered event keeps the settled invariant: the selection is a drawn index, a detail only under a selection, every hit on screen recorded as shown, no flag left set |
| Demo.RunKeepsSettled | frontend/app/3d-demo/page.tsx:260-455 | every state reached from a loaded page is settled |
| Demo.SettledClickSearches | frontend/app/3d-demo/page.tsx:175-191 | on a settled page a click on an unselected drawn item always issues its single search and ends not loading |
| Demo.ArrivalSettled | frontend/app/3d-demo/page.tsx:141-158 | the freshly loaded page is settled |
| Snapshot.Truthy | frontend/app/prompt_results/page.tsx:43-44 | a parsed value is falsy exactly when it is `null`, `false`, `0` or the empty string |
| Snapshot.WellShaped | frontend/app/prompt_results/page.tsx:42-46 | the check passes exactly for an object with a truthy `vibe_analysis` and an array `products`; the `!products` test adds nothing |
| Snapshot.Mount | frontend/app/prompt_results/page.tsx:15-62 | a missing or empty key redirects with storage unchanged; every redirect leaves storage unchanged; the data is shown exactly when both keys are present, the text parses to a non-null value with a truthy `vibe_analysis` and an array `products`; then the data and goal are the stored ones and exactly the two keys are removed |
| Snapshot.SecondMountRedirects | frontend/app/prompt_results/page.tsx:52-57 | mounting again on what a mount left always redirects, and after a shown snapshot because it is missing |
| Snapshot.FalsyVibeRefused | frontend/app/prompt_results/page.tsx:42-50 | a falsy `vibe_analysis`, the empty string included, is refused as invalid with storage unchanged |
| Snapshot.ExampleSnapshot | frontend/app/prompt_results/page.tsx:37-57 | the goal "relax more" with a one-product "calm" snapshot is shown as stored, and only the unrelated key remains |
| Snapshot.ViewProducts | frontend/app/prompt_results/page.tsx:67-72 | an empty product name goes nowhere; any other goes to the suggested-products page with that index and name |

## Left out

- Rendering: the React markup, CSS, fonts, the 3D canvas, camera, lights, models, scales and offsets. `frontend/app/layout.tsx` is markup only.
- The API client `@/lib/api` is not part of this model. `getRecommendations` and `searchProducts` are explicit inputs, and nothing is claimed about how many hits the service returns.
- Async interleaving: each handler is one atomic step. Not modelled: overlapping searches, where a stale answer can overwrite a newer one; the window in which `isRefreshing` blocks a second refresh; the 50 ms mount delay; the `setInterval`/`setTimeout` timing of the placeholder fade.
- Refresh filters against the shown set as it was when the refresh started, which is the set its closure captured.
- Floating point and randomness: prices, `toFixed`, `parseFloat` star ratings and the random animation delays. JSON numbers are exact reals, so a literal that rounds to zero in IEEE doubles is not modelled.
- `encodeURIComponent`: navigation targets carry the raw parameter values.
- `JSON.parse` is a function argument. Property lookups such as `__proto__` are not modelled.
- JavaScript strings are UTF-16 code units. The model uses Unicode scalar values, which agree for every character involved here.
- Search hits keep only title and URL. Image, platform, rating, condition and the image `onError` hiding are display-only.
- The results page's `loadingProducts` map is never written, so its Browse buttons are never disabled. It is not modelled.
- `console` logging.
- Which scene items are in view: `Demo.Deliver` lets every placed item be clicked while another is selected, although the page parks those far away at (10,10,10). This admits more clicks than the page receives, so the invariants proved over it still hold.
- Navigation away from a page (the "Back to Home" buttons) and the caret placement on focus.
