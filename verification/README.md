# Retail recommendation assistant — a Dafny model

This project models the logic of a retail product-recommendation assistant.
The assistant has a Python back end that ranks catalogue products for a
query, and a React front end with a chat page, a search page and an animated
dashboard search bar. Four parts are modelled:

- **Ranking pipeline** (`scripts/recommend.py`). It covers:
  - indexing the catalogue by product id (`load_products`);
  - the price, rating and stock filters (`apply_numeric_filters`);
  - the hybrid score and its stable descending sort (`compute_hybrid_score`);
  - the truncate, filter, score and top-k tail of `semantic_retrieve_and_rank`.

  Candidates arrive already carrying their semantic similarity, as a `real`.
  The filters and the score read the products' JSON values. For price,
  rating and stock, Python's dynamic typing is explicit: a value can be
  missing, `null`, a boolean, a number, a string or something else, and
  `float()` and `int()` conversions either succeed or raise. Identifiers,
  brand, category and the other textual fields are strings, `null` or
  missing.
- **Embedding texts** (`scripts/generate_embeddings.py`). It covers
  `dict_to_text`, the `merged_text` template, the records `process_file`
  writes, and how the pipeline reads those records back as candidates.
- **Chat page** (`frontend/src/pages/Chat.tsx`). The page is a state machine
  over an immutable message log:
  - start-up seeds the log with a welcome message or the loaded history;
  - each send goes through four awaited steps: append the user message, save
    it, append a loading placeholder, then fetch and save the reply;
  - every network call is an event that carries its outcome;
  - clock readings are event parameters, and ids are their decimal rendering.

  The chat area's projection of the log into displayed blocks is modelled in
  `frontend/src/components/chat/ChatArea.tsx`.
- **Small state machines**:
  - the dashboard search bar's typewriter placeholder, its search guard and
    its tag buttons (`AnimatedSearchBar.tsx`);
  - the query, results and loading lifecycle of the standalone
    recommendation page (`Recommend.tsx`).

The modules are:

| file | module | models |
|---|---|---|
| `wrappers.dfy` | `Wrappers` | `Option`, `Result` |
| `seqs.dfy` | `Seqs` | filtering, Python's stable `sort(reverse=True)`, the slice `s[:n]` |
| `strings.dfy` | `Strings` | ASCII `lower()`, JavaScript `trim()`, `str.join`, decimal rendering and parsing |
| `catalogue.dfy` | `Catalogue` | product JSON values, `float()`/`int()`, `load_products` |
| `ranking.dfy` | `Ranking` | budget lookup, numeric filters, hybrid score, the pipeline tail |
| `embeddings.dfy` | `Embeddings` | `dict_to_text`, `merged_text`, `process_file`, candidates from records |
| `recommend_api.dfy` | `RecommendApi` | request payload, result products, reply outcome |
| `chat_log.dfy` | `ChatLog` | the chat page's start-up and send transitions |
| `chat_area.dfy` | `ChatArea` | messages to displayed blocks |
| `search_bar.dfy` | `SearchBar` | typewriter, search guard, tags |
| `recommend_page.dfy` | `RecommendPage` | the recommendation page's search lifecycle |

The chat flow as the code writes it differs from a naive reading of it in
four places, and the model follows the code:

- The placeholder is appended only after saving the user message succeeds.
  If that save fails, the send stops there.
- Saving the bot reply sits in the same `try` as the request. If the save
  fails, the error message is appended after the products message that is
  already shown.
- A reply removes every loading message, not just its own placeholder.
- The products message carries no summary, so the chat area always shows
  the default summary phrase for it.

## Model

| member | source | states |
|---|---|---|
| Catalogue.LoadProducts | scripts/recommend.py:78-95 | The map's keys are exactly the truthy `_id`s, or `id`s when `_id` is falsy. Products with neither are skipped. Under each key is the last product carrying that key, and "" is never a key. |
| Catalogue.ToFloat | scripts/recommend.py:138 | `float()` keeps a number, maps booleans to 1.0 and 0.0, and accepts a string exactly when it is a signed decimal numeral. Such a string is worth its sign times its digits read as one number, divided by ten per digit after the point. Anything else raises. Whatever `int()` converts, other than a float, `float()` converts to the same value. |
| Catalogue.ToInt | scripts/recommend.py:150 | `int()` truncates a number toward zero, maps booleans to 1 and 0, and accepts a string exactly when it is an optional sign followed by digits. Anything else raises. |
| Catalogue.KeyOf | scripts/recommend.py:92-93 | A product has a key exactly when `_id` or `id` is a non-empty string. `_id` wins when both are, and the key is never "". |
| Catalogue.TruncatePositive | scripts/recommend.py:150 | For a numeric stock, `int(stock) > 0` holds exactly when the stock is at least 1. |
| Catalogue.Truncate | scripts/recommend.py:150 | `int(x)` of a float is the integer next to `x` toward zero: at most `x` and within 1 of it for `x >= 0`, at least `x` and within 1 of it for `x < 0`. |
| Ranking.BudgetThreshold | scripts/recommend.py:38-42 | A threshold exists exactly when the lower-cased budget is "low", "mid" or "high". The finite thresholds are 15000 and 40000. |
| Ranking.BudgetThresholdIgnoresCase | scripts/recommend.py:169-174 | Budgets that agree after lower-casing get the same threshold. |
| Ranking.BudgetExamples | scripts/recommend.py:38-42 | "LOW" maps to 15000, "Mid" to 40000, "high" to the unbounded threshold, and "medium" to none. |
| Ranking.ApplyNumericFilters | scripts/recommend.py:120-153 | It fails exactly when some candidate's stock makes `int()` raise, and then it names the first such candidate. Otherwise it returns, in input order, exactly the candidates the screen admits. |
| Ranking.StockVerdict | scripts/recommend.py:134-151 | A stock is kept exactly when it is present and converts to a positive integer. The check raises exactly when a present, non-null stock does not convert. A missing stock reads as 0 and is dropped. |
| Ranking.Screen | scripts/recommend.py:127-152 | A candidate without a catalogue entry is dropped. The uncaught `int()` error escapes exactly when the candidate passes the price and rating checks and then fails the stock conversion. |
| Ranking.ScreenKeepIff | scripts/recommend.py:128-152 | A candidate is kept if and only if all of these hold: its id is in the map; with a cap, the price is present and at most the cap when it converts; with a minimum, the rating is present and at least the minimum when it converts; with `in_stock_only`, the stock converts to a positive integer. |
| Ranking.FilteredAreAvailable | scripts/recommend.py:126-153 | The output is a subsequence of the input. Every kept candidate has a catalogue product. With `in_stock_only`, that product's stock is present and positive. Price and rating are present when their filter is set. |
| Ranking.Proximity | scripts/recommend.py:199-206 | Within the budget the term is a bonus of at least 0, and below 0.05 for a non-negative price. Above the budget it is a penalty in (-0.05, 0], however high the price. |
| Ranking.PriceTerm | scripts/recommend.py:193-208 | With no budget, the unbounded budget or a price that does not convert, the term is 0. Otherwise it is above -0.05, below 0.05 for a non-negative price, and negative only for a price over the budget. |
| Ranking.ProximityAntitone | scripts/recommend.py:194-206 | A cheaper price never gets a smaller price term. |
| Ranking.ScoreStrictlyMonotoneInSimilarity | scripts/recommend.py:182-215 | For the same product and preferences, higher similarity gives a strictly higher score. |
| Ranking.HybridScore | scripts/recommend.py:179-215 | With similarity in [-1, 1], rating in [0, 5] and a non-negative price, the score lies in (-1.05, 1.15). |
| Ranking.ProximityAsWrittenFinite | scripts/recommend.py:195-206 | For a finite threshold, both branches of the proximity computation, in exact arithmetic extended with infinities and NaN, give the model's proximity. |
| Ranking.PriceTermAsWrittenFinite | scripts/recommend.py:195-208 | For finite budgets, the price term evaluated in exact arithmetic extended with infinities and NaN equals the model's price term. |
| Ranking.HighBudgetPriceTermIsNaN | scripts/recommend.py:195-202 | With the "high" budget, the price term as written is NaN for every price that converts. |
| Ranking.HighBudgetExample | scripts/recommend.py:195-202 | Budget "high" with price 100 gives NaN as written, and 0 in the corrected model. |
| Ranking.ScoreAll | scripts/recommend.py:176-219 | There is one entry per candidate, in input order. Each entry keeps the candidate and adds its product and score. |
| Ranking.ComputeHybridScore | scripts/recommend.py:155-223 | The output is a permutation of the unsorted entries and has the same length as the input. It is ordered by non-increasing score, and each entry pairs its candidate with its catalogue product and that pair's score. |
| Ranking.ComputeHybridScoreIsStable | scripts/recommend.py:222 | For every score value, the entries with that score keep their input order. |
| Ranking.PoolIsMostSimilar | scripts/recommend.py:253-254 | The kept pool and the discarded rest split the candidates. The pool has `min(3k, n)` entries, and no discarded candidate is more similar than a kept one. |
| Ranking.Pool | scripts/recommend.py:252-254 | The pool holds `min(3k, n)` candidates for `k >= 0`, and `max(0, n + k)` for `k < 0`, where `max(3k, k)` is `k`. They are drawn from the candidates and ordered by non-increasing similarity. |
| Ranking.Ranked | scripts/recommend.py:256-276 | For preferences of the modelled shape, it fails exactly when a pooled candidate's stock makes `int()` raise. Otherwise the entries are exactly the pooled candidates the filter keeps, each scored once (a multiset equality), sorted by score. Entries with equal scores keep their pool order, as the stable sort gives. Every pooled candidate the filter keeps has an entry, and every entry is an admitted pooled candidate. |
| Ranking.RetrieveAndRank | scripts/recommend.py:253-279 | For preferences of the modelled shape, it fails exactly as `Ranked` does. Otherwise it returns the first `min(top_k, n)` entries of the ranking of n entries (`max(0, n + top_k)` for negative `top_k`), sorted by score. They score at least as high as every entry cut off, and every entry is admitted. |
| Ranking.TopOfRanking | scripts/recommend.py:279 | The first `top_k` entries of a sorted, admitted ranking number `min(top_k, n)`, or `max(0, n + top_k)` for negative `top_k`. They are sorted and admitted, form a prefix, and score at least as high as every later entry. |
| Embeddings.SpecSegments | scripts/generate_embeddings.py:22-24 | There is one `"key: value"` segment per specification entry, in iteration order. |
| Embeddings.DictToText | scripts/generate_embeddings.py:22-24 | An empty object gives "", and one entry gives exactly its `key: value` segment. With n > 0 entries the text has the length of the segments plus n - 1 separators of two characters; with `DictToTextSnoc` this fixes the whole text. |
| Embeddings.DictToTextSnoc | scripts/generate_embeddings.py:22-24 | One more entry appends ". ", the key, ": " and the value. |
| Embeddings.MergedTextIsSections | scripts/generate_embeddings.py:44-52 | The merged text is the sections name, Brand, Category, Description, Specifications, Reviews and Tags, joined by ". " and closed by ".". |
| Embeddings.MergedText | scripts/generate_embeddings.py:44-52 | The template adds exactly 74 characters to the rendered fields. |
| Embeddings.BareProductText | scripts/generate_embeddings.py:40-52 | For `{}`, every field and list renders as "", leaving only the labels (74 characters). |
| Embeddings.ProcessFile | scripts/generate_embeddings.py:36-61 | There is one record per product, in order. Each record has the product's `_id`, the file's category (not the product's) and the merged text. |
| Embeddings.AttachSimilarities | scripts/recommend.py:244-251 | Candidate i is record i with similarity i. |
| ChatLog.StartUp | frontend/src/pages/Chat.tsx:27-66 | A missing or empty history leaves exactly the welcome message. Any other history is kept verbatim. A failure leaves the log empty. In every case the start-up screen is dismissed. |
| ChatLog.Initialize | frontend/src/pages/Chat.tsx:27-66 | The start-up screen is dismissed whatever happened. A missing or empty loaded history becomes the welcome message, any other is kept verbatim, and a failure leaves the log as it was. The session id is the created session's, and is kept only when creation failed. |
| ChatLog.Step | frontend/src/pages/Chat.tsx:27-144 | Nothing happens before start-up ends, and the session never changes after it. A send is taken up exactly when the page is idle with a session. Every transition keeps `Inv`: `isInitialLoading` holds exactly while starting; `isLoading` holds exactly while the reply is fetched or saved; a pending send has a session; while fetching, the placeholder is last after the user message. |
| ChatLog.SendWithoutSession | frontend/src/pages/Chat.tsx:72 | Without a truthy session id, a send changes nothing. |
| ChatLog.SendShowsPlaceholder | frontend/src/pages/Chat.tsx:74-100 | The user message is appended, then exactly one loading placeholder. `isLoading` is set, and the request carries the content, user "user-1" and top 5. |
| ChatLog.SendAbortsWhenSaveFails | frontend/src/pages/Chat.tsx:81-90 | If saving the user message fails, only the user message has been added. There is no placeholder and no request. |
| ChatLog.SendShowsProducts | frontend/src/pages/Chat.tsx:102-122 | On arrival of the results, loading messages are removed and the rest keep their order. One products message with the results follows the user message. |
| ChatLog.SendSucceeds | frontend/src/pages/Chat.tsx:102-143 | After a successful send, the log is the settled old log, then the user message, then the products message. The input is enabled again. |
| ChatLog.SendFails | frontend/src/pages/Chat.tsx:130-143 | After a failed request, the log is the settled old log, then the user message, then the one error message. `isLoading` is false. |
| ChatLog.SendReplyNotSaved | frontend/src/pages/Chat.tsx:124-141 | When saving the reply fails, the error message follows the products message. |
| ChatLog.TwoSuccessfulSends | frontend/src/pages/Chat.tsx:71-143 | Two successful sends append exactly four messages, in submission order. |
| ChatLog.StepKeepsSettled | frontend/src/pages/Chat.tsx:81-141 | After start-up, the non-loading messages before any step are a prefix of those after it. |
| ChatLog.RunKeepsSettled | frontend/src/pages/Chat.tsx:81-141 | The same prefix property holds for any run of events. |
| ChatLog.SentMessageSurvives | frontend/src/pages/Chat.tsx:81 | A sent user message stays in the log through every later transition. |
| ChatLog.RunPreservesInv | frontend/src/pages/Chat.tsx:71-163 | `Inv` is preserved by every run of events. |
| ChatLog.ReachableInv | frontend/src/pages/Chat.tsx:17-22 | Every state reached from the initial state satisfies `Inv`. |
| ChatLog.ResolvedSendIsClear | frontend/src/pages/Chat.tsx:119-143 | A step that ends a send leaves no loading message and clears `isLoading`. |
| ChatArea.Project | frontend/src/components/chat/ChatArea.tsx:39-85 | A products message becomes its cards plus a bot summary. The summary's id is `id + "-summary"`, it keeps the same timestamp, and its text is the summary or the default phrase. Any other message is shown unchanged. |
| ChatArea.Display | frontend/src/components/chat/ChatArea.tsx:23-36 | An empty log shows exactly the fallback welcome. Otherwise there is one block per message, in order. |
| ChatArea.CardsAreLoggedProducts | frontend/src/components/chat/ChatArea.tsx:35-67 | The cards shown are exactly the products of the products messages, in log order. |
| ChatArea.SummaryIdsDistinct | frontend/src/components/chat/ChatArea.tsx:73 | Distinct message ids give distinct summary ids. |
| ChatArea.FallbackOnlyAfterFailedStart | frontend/src/components/chat/ChatArea.tsx:23-33 | After start-up, the fallback shows exactly when start-up failed. |
| ChatArea.SuccessfulSendDisplayed | frontend/src/components/chat/ChatArea.tsx:39-81 | After a successful send, the display ends with the user bubble, then the result cards under the default summary. |
| ChatArea.FailedSendDisplayed | frontend/src/components/chat/ChatArea.tsx:83-85 | After a failed send, the display ends with the user bubble, then the error bubble. |
| SearchBar.Tick | frontend/src/components/dashboard/AnimatedSearchBar.tsx:23-52 | The shown text stays a prefix of the current suggestion. Typing adds exactly the next character. Deleting removes exactly the last character. Deleting an empty text moves to suggestion (i + 1) mod 6. At full length the state is unchanged and the switch to deleting is scheduled. |
| SearchBar.StartDeleting | frontend/src/components/dashboard/AnimatedSearchBar.tsx:35 | The delayed switch sets deleting and keeps the text and the index. |
| SearchBar.StartValid | frontend/src/components/dashboard/AnimatedSearchBar.tsx:17-19 | The initial state satisfies the prefix invariant. |
| SearchBar.TypingCompletes | frontend/src/components/dashboard/AnimatedSearchBar.tsx:29-36 | Typing reaches the full suggestion after one tick per missing character. |
| SearchBar.DeletingCompletes | frontend/src/components/dashboard/AnimatedSearchBar.tsx:37-41 | Deleting empties the text after one tick per character. |
| SearchBar.FullCycle | frontend/src/components/dashboard/AnimatedSearchBar.tsx:23-52 | Typing, the switch, deleting and one more tick lead from suggestion i to suggestion (i + 1) mod 6. |
| SearchBar.SelectTag | frontend/src/components/dashboard/AnimatedSearchBar.tsx:95-98 | The box holds exactly the tag, and the animation is untouched. |
| SearchBar.TagThenSearchNavigates | frontend/src/components/dashboard/AnimatedSearchBar.tsx:95-98 | Searching after clicking any tag navigates to "/chat". |
| SearchBar.HandleSearch | frontend/src/components/dashboard/AnimatedSearchBar.tsx:54-58 | The search navigates, always to "/chat", if and only if the value is not all white space. |
| RecommendPage.Edit | frontend/src/pages/Recommend.tsx:37 | Typing changes only the query. |
| RecommendPage.Search | frontend/src/pages/Recommend.tsx:9-18 | A request is sent if and only if the query is not all white space, and a blank query changes nothing. A sent request carries the query verbatim, user "123" and top 10, and `loading` is set. |
| RecommendPage.Finish | frontend/src/pages/Recommend.tsx:19-25 | An answer replaces the results wholesale, and a failure keeps them. `loading` is cleared either way. |
| RecommendPage.FailedSearchRestores | frontend/src/pages/Recommend.tsx:9-25 | A failed search leaves the page as before, with `loading` false. |
| RecommendPage.AnsweredSearchShowsResults | frontend/src/pages/Recommend.tsx:9-25 | An answered search shows the query, the new results, and `loading` false. |
| RecommendPage.LoadingWhileInFlight | frontend/src/pages/Recommend.tsx:12-25 | `loading` is on exactly while a sent request is outstanding. |
| Strings.Lower | scripts/recommend.py:167-169 | Lower-casing keeps the length and lower-cases each ASCII letter. |
| Strings.Trim | frontend/src/components/dashboard/AnimatedSearchBar.tsx:55 | The result is a contiguous slice of the input with only white space before and after it. It is empty exactly when the input is all white space, and otherwise neither starts nor ends with white space. |
| Strings.JoinLength | scripts/generate_embeddings.py:24 | Joining n > 0 parts adds exactly n - 1 separators. |
| Strings.NatToString | frontend/src/pages/Chat.tsx:75 | The result is a non-empty string of decimal digits with no leading zero, and it denotes the number. |
| Strings.NatToStringInjective | frontend/src/pages/Chat.tsx:75 | Distinct clock readings give distinct ids. |
| Strings.ParseInt | scripts/recommend.py:150 | The modelled `int()` of a string succeeds exactly on an optional sign followed by at least one digit, and gives the signed value of the digits. |
| Strings.ParseDecimal | scripts/recommend.py:138 | The modelled `float()` of a string succeeds exactly on an optional sign and digits with at most one dot and at least one digit. Its value is the sign times the digits read as one number, divided by ten per digit after the dot. On an integer numeral it agrees with `int()`. |
| Strings.ParseIntOfNatToString | scripts/recommend.py:150 | `int(str(n)) == n`. |
| Strings.ParseDecimalOfNatToString | scripts/recommend.py:138 | `float(str(n)) == n`. |
| Seqs.Filter | frontend/src/pages/Chat.tsx:121 | Every kept element passes and comes from the input. Every passing input element is kept. |
| Seqs.FilterIsSubsequence | scripts/recommend.py:126-153 | Filtering keeps the input order. |
| Seqs.SortDesc | scripts/recommend.py:222 | The result is a permutation of the input, ordered by non-increasing key. |
| Seqs.SortDescIsStable | scripts/recommend.py:222 | Elements with equal keys keep their input order. |
| Seqs.TakePrefix | scripts/recommend.py:279 | `s[:n]` is a prefix of length `min(n, len)` for n >= 0, and `max(0, len + n)` for n < 0. |
| Seqs.PrefixOfSortedIsSorted | scripts/recommend.py:279 | The top-k of a sorted list is sorted. |

## Left out

- Embedding and similarity are left out: the Gemini calls and `cosine_sim_matrix`. Similarities are given `real` inputs.
- File, database and network I/O are left out:
  - `os.listdir`, `json.load` and `json.dump`;
  - `get_user_profile`;
  - the upload scripts;
  - the CLI `main`;
  - the HTTP wrappers.

  Network outcomes are event parameters or `Reply` values.
- IEEE floating point is left out. Scores and prices are exact `real`s, with no rounding. Only the infinities and NaN of the "high" budget's arithmetic are modelled (see Findings).
- Ranking.ProximityAsWrittenFinite: agreement is shown in exact arithmetic extended with infinities and NaN, not in rounded double arithmetic, because rounding is left out.
- Ranking.PriceTermAsWrittenFinite: the same holds; a rounded double can differ from the exact value in its last bits.
- Catalogue.ToFloat: the parser accepts an optional sign, digits and at most one dot. Python's `float()` also accepts surrounding white space, exponents, `inf`/`nan`, underscores between digits and non-ASCII digits. The model treats those strings as unconvertible. In the filters such a price or rating is kept unfiltered rather than compared. In the score (scripts/recommend.py:196-217) the model adds 0 for it, where the source converts it: a rating of " 4.5" adds 0.15 there, and a price of "nan" makes the score NaN.
- Catalogue.ToInt: the parser accepts an optional sign and digits. Python's `int()` also accepts surrounding white space, underscores between digits and non-ASCII digits (`int(" 5")`, `int("1_0")`). For such a stock the model's Ranking.ApplyNumericFilters fails the whole pipeline, where the source converts the stock and keeps or drops the product.
- Strings.Lower: `lower()` is modelled for ASCII letters only; other letters are kept as they are. This carries over to the budget lookup in Ranking.BudgetThreshold and to the brand and category matches in Ranking.BrandMatches and Ranking.CategoryMatches. JavaScript's code-unit slicing is likewise modelled for ASCII text only.
- Strings.ParseInt: this is `int()` on the numerals listed under Catalogue.ToInt only. Python's `int()` also accepts surrounding white space, underscores between digits and non-ASCII digits, which the model rejects.
- Strings.ParseDecimal: this is `float()` on the numerals listed under Catalogue.ToFloat only. Python's `float()` also accepts surrounding white space, exponents (`float("1e3")` is 1000.0), `inf`/`nan`, underscores between digits and non-ASCII digits, which the model rejects.
- Catalogue.KeyOf: identifiers are strings, `null` or missing. A numeric `_id` or `id`, which the source would use as a key (scripts/recommend.py:92-94), is left out. Likewise Ranking.HybridScore reads brand and category as text, so a number or boolean there, which `str()` would render (scripts/recommend.py:185,190), is left out.
- A `min_rating` that is not a number makes the source's comparison raise. A product with a missing or `null` rating is still dropped, because `rating is None` short-circuits first. For every other product the exception is swallowed and the rating filter lets it through. The model takes `min_rating` as an optional number.
- Specification values are taken as already rendered with `str()`.
- Present-but-`null` `specifications`, `reviews` or `tags`, and non-string reviews or tags, make `process_file` raise. The model has only missing or present lists.
- Clock readings are event parameters, and one reading serves a message's id and its timestamp. React timers, effects, the 2-second delay and scrolling are discrete events, or are left out.
- Sending without a session calls `alert("No session available!")` before returning. The model keeps only the early return: the state is unchanged, and the alert dialog is left out as a browser effect.
- Overlapping sends are left out: a `Submit` outside the idle phase is ignored. In the source, the input is disabled only while `isLoading` is set, so a second send during the save of the user message is possible.
- The same holds on the recommendation page: overlapping searches are left out.
- Message ids that are not strings, and history entries of other shapes, are left out.
- Ranking.Preferences: the preferences are always an object, with a string budget and lists of strings for `preferred_brands` and `categories`. Other shapes are left out, because the source fails or misreads them before ranking. A non-string budget makes `.lower()` raise (scripts/recommend.py:169,261). A non-string brand or category entry makes `.lower()` raise (scripts/recommend.py:167-168). A bare string for `preferred_brands` or `categories` is read one character at a time (scripts/recommend.py:167-168). `"preferences": null` makes `.get` raise (scripts/recommend.py:259,273). The "fails exactly" statements of Ranking.Ranked and Ranking.RetrieveAndRank hold for preferences of the modelled shape only.
- Ranking.PriceTerm: gives 0 for the "high" budget, where the source computes NaN (see Findings).

## Findings

| source | as written | input that shows it | evidently intended | confidence | as-written member | corrected member |
|---|---|---|---|---|---|---|
| scripts/recommend.py:195-202 | With budget "high" the threshold is `float("inf")`, and a product within budget adds `(inf - price) / (inf + 1) * 0.05`, which is `inf / inf`, NaN. The score becomes NaN, and the descending sort of NaN scores has no defined order. | budget "high", any product whose price converts, e.g. 100 | A budget with no cap should add nothing to the score, or a finite bonus. The ranking should stay a sort by a real score. | high (not executed) | Ranking.HighBudgetPriceTermIsNaN | Ranking.PriceTerm |
