# FinanceManager core, modelled in Dafny

FinanceManager is a personal-finance web app. It has a Next.js frontend
(dashboard, transaction form and table, summary cards, category pie chart,
advisor chat) and a FastAPI backend (transaction and profile endpoints, and
category prediction by a generative model). This project models the logic
under the UI and I/O plumbing, one Dafny module per source file:

- `Common`: the shared `Option` type, the three outcomes of an HTTP request
  (`Ok` with a body, `NotOk` with a status, `Thrown`) and the frontend's
  transaction record.
- `Strings`: the JavaScript and Python string built-ins the code relies on.
  These are `startsWith`, `includes`/`in`, `trim`/`strip` (generic over the
  whitespace set), `split` and `join`.
- `Config` (`frontend/src/config.ts`): the API base-URL fallback and its
  production warning, plus the different inline fallback used by the form
  and the dashboard.
- `Api` (`frontend/src/lib/api.ts`): header merge, path normalisation and
  session-failure handling of `authenticatedFetch`.
- `NextConfig` (`frontend/next.config.ts`): the `.env.local` line parser and
  the loop that builds the record.
- `Database` (`backend/database.py`): the database-URL resolution at
  start-up.
- `Dashboard` (`frontend/src/app/dashboard/page.tsx`): the page state,
  modelled as a class.
- `TransactionForm`, `TransactionList`, `SummaryCards`, `ChatInterface`: the
  components' state, modelled as classes whose methods are the handlers.
  The table's CSV export and the cards' arithmetic are pure functions.
- `ExpensePieChart`: the category grouping, as a loop proved against a
  declarative definition.
- `BackendMain` (`backend/main.py`): the model-call retry loop, the category
  prediction, and the endpoints over a store class.

How the model is built:

- Amounts are `real`.
- `parseFloat` is a parameter `string -> Option<real>`, where `None` stands
  for NaN. Number printing (`toString`, `toFixed`) is a parameter
  `real -> string`.
- Each handler that awaits a request is split at the `await` into
  `Begin…` and `Complete…`. A third method runs the whole handler, so the
  state while the request is outstanding is stated as well.
- The outcome of a request is an input to the model.
- A callback prop is the `Dashboard.Page` object itself. Calling the prop
  is calling that object's `HandleTransactionAdded`.

## Model

| member | source | states |
|---|---|---|
| Config.GetApiUrl | frontend/src/config.ts:1-12 | A non-empty `NEXT_PUBLIC_API_URL` is used verbatim; otherwise `http://127.0.0.1:8000`. The URL is never empty. The warning is emitted iff `NODE_ENV` is `production` and there is no override. |
| Config.InlineApiUrl | frontend/src/components/TransactionForm.tsx:12 | The form's and the dashboard's own fallback: the override when it is set, otherwise a non-empty default. |
| Config.FallbacksAgreeOnlyWithOverride | frontend/src/app/dashboard/page.tsx:27 | The shared resolver and the inline fallback give the same URL exactly when an override is set (`127.0.0.1` vs `localhost`). |
| Api.Token | frontend/src/lib/api.ts:5-13 | A failed session read gives no token; a session gives its access token. |
| Api.NormalizePath | frontend/src/lib/api.ts:22 | The path always begins with "/". An endpoint that already begins with "/" is unchanged; any other gets "/" prefixed. |
| Api.NormalizePathIdempotent | frontend/src/lib/api.ts:22 | Normalising twice is normalising once. |
| Api.BuildHeaders | frontend/src/lib/api.ts:15-19 | The keys are Content-Type, the caller's keys, and Authorization iff the token is truthy. Caller headers override the JSON Content-Type. The token's `Bearer` credential overrides a caller Authorization. Every other caller header is kept. |
| Api.AuthorizationPresence | frontend/src/lib/api.ts:13-19 | Authorization is present iff a truthy token was obtained or the caller gave one. Without a caller Authorization, it is present iff the token is truthy. A token's value is `Bearer ` + token. |
| Api.AuthenticatedRequest | frontend/src/lib/api.ts:15-27 | URL = API_URL + normalised path; the caller's method and body are kept; the headers are the merged ones. |
| Api.AuthenticatedFetch | frontend/src/lib/api.ts:24-34 | The response to that request is returned unchanged, a 401 included. |
| Api.SessionFailureProceedsWithoutToken | frontend/src/lib/api.ts:6-11 | A failed session read still sends the request, with Authorization only if the caller gave one. |
| Strings.TrimShape | frontend/next.config.ts:14 | A trim is a contiguous run of the input, bounded by non-whitespace, with only whitespace removed on either side. |
| Strings.TrimIdempotent | frontend/next.config.ts:18 | Trimming twice is trimming once. |
| Strings.TrimEmpty | frontend/src/components/ChatInterface.tsx:21 | The trim is empty iff every character is whitespace. |
| Strings.JoinSplit | frontend/next.config.ts:16-18 | `split(sep)` followed by `join(sep)` gives the input back. |
| Strings.SplitJoin | frontend/src/components/TransactionList.tsx:74 | Splitting a join of separator-free pieces gives the pieces back. |
| Strings.SplitAtFirst | frontend/next.config.ts:16-18 | The first piece of a split is the text before the first separator. The other pieces joined again are the text after it, further separators included. |
| NextConfig.ParseLineMeaning | frontend/next.config.ts:14-18 | A line yields nothing iff its trim is empty, starts with "#", has no "=" or starts with "=". Otherwise the key is the trimmed text before the first "=" and the value is the trimmed text after it. |
| NextConfig.ParseLineKey | frontend/next.config.ts:16-18 | Every key a line yields is non-empty, free of "=" and trimmed. |
| NextConfig.Entries | frontend/next.config.ts:13-14 | One entry per line, in line order. |
| NextConfig.Assign | frontend/next.config.ts:18 | Assigning to a plain object sets the key, except `__proto__`, which changes nothing. No other key changes. |
| NextConfig.InsertKeyDefined | frontend/next.config.ts:18 | A key is in the record iff some entry defines it and it is not `__proto__`. |
| NextConfig.InsertLastWins | frontend/next.config.ts:18 | A key other than `__proto__` has the value of the last entry that defines it. `__proto__` is absent. |
| NextConfig.InsertStep | frontend/next.config.ts:18 | One more entry updates the record by that entry alone. |
| NextConfig.EnvKeysWellFormed | frontend/next.config.ts:16-18 | Every key in the record is non-empty, has no "=" and is trimmed. |
| NextConfig.EnvLookup | frontend/next.config.ts:13-18 | A key defined by line j and by no later line maps to line j's value, unless it is `__proto__`, which is absent. |
| NextConfig.ProtoKeyIgnored | frontend/next.config.ts:18 | No file yields a `__proto__` key. |
| NextConfig.EnvUndefinedAbsent | frontend/next.config.ts:13-18 | A key defined by no line is absent. |
| NextConfig.LoadEnv | frontend/next.config.ts:6-28 | A missing or unreadable file gives the empty record. Otherwise the loop over the "\n"-split lines builds exactly `EnvOf` of those lines, so a `__proto__` key is never stored. UTF-16LE decoding happens before this point (see Left out). |
| Database.ReplaceFirst | backend/database.py:30 | Text without the pattern is unchanged; a leading pattern is replaced once. |
| Database.RewriteScheme | backend/database.py:29-30 | A URL starting `postgres://` becomes `postgresql://` + the unchanged rest; any other URL is unchanged. |
| Database.RewriteSchemeIdempotent | backend/database.py:29-30 | Rewriting twice is rewriting once; `postgresql://` URLs are untouched. |
| Database.ResolveDatabaseUrl | backend/database.py:14-32 | A set DATABASE_URL is used, subject only to the rewrite. Otherwise: `sqlite:////tmp/finance.db` on VERCEL or Lambda, `sqlite:///./finance.db` elsewhere. The thread check is off iff "sqlite" occurs in the URL. The seed copy happens iff serverless, no override, the /tmp file is absent and the bundled file exists. |
| Database.FallbacksDisableThreadCheck | backend/database.py:24-32 | Both SQLite fallbacks contain "sqlite", so both turn the thread check off. |
| Dashboard.Reversed | frontend/src/app/dashboard/page.tsx:31 | Same length; element k is element n-1-k of the input. |
| Dashboard.ReversedPermutes | frontend/src/app/dashboard/page.tsx:31 | Reversal keeps the same multiset of transactions. |
| Dashboard.Page.constructor | frontend/src/app/dashboard/page.tsx:15-17 | The counter starts at 0, the list empty, loading on. |
| Dashboard.Page.HandleTransactionAdded | frontend/src/app/dashboard/page.tsx:19-21 | The counter goes up by exactly one. |
| Dashboard.Page.BeginFetch | frontend/src/app/dashboard/page.tsx:26-28 | Loading is on; the request goes to the inline base URL + `/transactions/`. |
| Dashboard.Page.CompleteFetch | frontend/src/app/dashboard/page.tsx:29-37 | Ok replaces the list with the server list reversed. A failure or an error keeps the old list. Loading ends in every case. |
| Dashboard.Page.FetchTransactions | frontend/src/app/dashboard/page.tsx:23-40 | The whole effect: the same results as the two steps, with the counter untouched. |
| TransactionForm.Form.constructor | frontend/src/components/TransactionForm.tsx:6-10 | The fields are empty, loading is off, and the callback is the dashboard's. |
| TransactionForm.Form.SetAmount | frontend/src/components/TransactionForm.tsx:65 | The amount field holds the typed text. |
| TransactionForm.Form.SetCategory | frontend/src/components/TransactionForm.tsx:79 | The category field holds the typed text. |
| TransactionForm.Form.SetDescription | frontend/src/components/TransactionForm.tsx:92 | The description field holds the typed text. |
| TransactionForm.Form.BeginSubmit | frontend/src/components/TransactionForm.tsx:17-30 | Loading is on. The POST carries `parseFloat(amount)`, and category and description verbatim. |
| TransactionForm.Form.CompleteSubmit | frontend/src/components/TransactionForm.tsx:32-47 | Ok clears the three fields and calls back exactly once. Non-ok keeps the fields, does not call back, and alerts with the status. An error keeps the fields, does not call back, and alerts. Loading ends in every case. |
| TransactionForm.Form.HandleSubmit | frontend/src/components/TransactionForm.tsx:14-48 | The request is built from the fields as they were at submit. Ok clears the fields, calls back once and adds no alert. Non-ok adds the status alert, a throw adds the error alert, and both keep the fields. Loading ends. |
| TransactionList.DraftOf | frontend/src/components/TransactionList.tsx:38 | The draft seeded from a row has all five fields present with the row's values. |
| TransactionList.Table.constructor | frontend/src/components/TransactionList.tsx:14-17 | No row is edited, the draft is empty and no row is busy. The list and the callback are the props. |
| TransactionList.Table.BeginDelete | frontend/src/components/TransactionList.tsx:19-25 | Declining issues nothing and changes nothing. Confirming marks the row busy and issues its DELETE. |
| TransactionList.Table.CompleteDelete | frontend/src/components/TransactionList.tsx:26-33 | Only an ok response signals a refresh, exactly once. The busy marker is cleared in every case. |
| TransactionList.Table.HandleDelete | frontend/src/components/TransactionList.tsx:19-34 | The whole handler. The list prop is a constant the table never changes. |
| TransactionList.NotEditing | frontend/src/components/TransactionList.tsx:47 | `!editingId`: no row is being edited, or the id is 0 (a definition used by BeginSave). |
| TransactionList.Table.StartEdit | frontend/src/components/TransactionList.tsx:36-39 | The edited id becomes the row's id and the draft becomes the row. |
| TransactionList.Table.CancelEdit | frontend/src/components/TransactionList.tsx:41-44 | No row is edited and the draft is emptied. |
| TransactionList.Table.EditCategory | frontend/src/components/TransactionList.tsx:112 | Only the draft's category changes. |
| TransactionList.Table.EditDescription | frontend/src/components/TransactionList.tsx:126 | Only the draft's description changes. |
| TransactionList.Table.EditAmount | frontend/src/components/TransactionList.tsx:141 | Only the draft's amount changes, to the parse of the text. |
| TransactionList.Table.BeginSave | frontend/src/components/TransactionList.tsx:46-56 | Nothing happens when the edited id is null or 0, since the test is falsy. Otherwise the row is marked busy and the draft is PUT under the edited id. |
| TransactionList.Table.CompleteSave | frontend/src/components/TransactionList.tsx:57-65 | Ok leaves edit mode and signals one refresh. Non-ok or an error keeps the edited id. The busy marker is cleared in every case. |
| TransactionList.Table.SaveEdit | frontend/src/components/TransactionList.tsx:46-66 | The whole handler; the draft is never cleared. |
| TransactionList.CsvRows | frontend/src/components/TransactionList.tsx:74 | One comma-joined line per row, in list order. |
| TransactionList.Csv | frontend/src/components/TransactionList.tsx:74 | The header and the row lines joined by "\n" (a definition; see CsvLinesRecoverable). |
| TransactionList.JoinAvoids | frontend/src/components/TransactionList.tsx:74 | A join of pieces free of a character other than the separator is free of it too. |
| TransactionList.CsvLinesRecoverable | frontend/src/components/TransactionList.tsx:74 | With no line break in any cell, the export splits into the header "ID,Date,Category,Description,Amount" followed by one line per row. |
| TransactionList.CsvCellsRecoverable | frontend/src/components/TransactionList.tsx:74 | With no comma in any cell, a line splits back into its five cells. |
| TransactionList.CsvCommaShiftsColumns | frontend/src/components/TransactionList.tsx:74 | Cells are never quoted. A description with one comma splits into two columns, which shifts the amount to a sixth column. |
| SummaryCards.TotalExpenses | frontend/src/components/SummaryCards.tsx:13 | The left-fold sum of the amounts (a definition; see the TotalExpenses lemmas). |
| SummaryCards.TotalExpensesAppend | frontend/src/components/SummaryCards.tsx:13 | The total over two lists is the sum of their totals. |
| SummaryCards.TotalExpensesReversed | frontend/src/components/SummaryCards.tsx:13 | The total over the dashboard's reversed list equals the total over the server's order. |
| SummaryCards.TotalExpensesNonNegative | frontend/src/components/SummaryCards.tsx:13 | Non-negative amounts give a non-negative total. |
| SummaryCards.Progress | frontend/src/components/SummaryCards.tsx:89 | The bar never exceeds 100. |
| SummaryCards.ProgressMeaning | frontend/src/components/SummaryCards.tsx:89 | For a positive budget the bar is 100 iff total >= budget. Below that, progress × budget = total × 100. The bar is never negative while the total is not. |
| SummaryCards.IsOverBudget | frontend/src/components/SummaryCards.tsx:90 | `totalExpenses > budget`, false for a NaN budget (a definition; see OverBudgetFillsBar). |
| SummaryCards.OverBudgetFillsBar | frontend/src/components/SummaryCards.tsx:89-90 | Over budget implies a full bar. Spending exactly the budget fills the bar without being over budget. |
| SummaryCards.LoadedBudget | frontend/src/components/SummaryCards.tsx:41-44 | No stored key keeps the budget. A non-empty stored text sets the budget to its parse. |
| SummaryCards.BudgetSurvivesReload | frontend/src/components/SummaryCards.tsx:41-52 | A budget written by the change handler, NaN included, is read back unchanged by the loading effect. |
| SummaryCards.SaveRequest | frontend/src/components/SummaryCards.tsx:64-69 | No request iff the text does not parse. The sent initial balance minus the total expenses is exactly the typed value. |
| SummaryCards.Cards.constructor | frontend/src/components/SummaryCards.tsx:15-19 | Budget 1000, initial balance 5000, not editing, empty field, loading. |
| SummaryCards.Cards.FetchProfile | frontend/src/components/SummaryCards.tsx:22-38 | Ok takes the returned initial balance. A failure or an error keeps 5000. The spinner stops in every case. |
| SummaryCards.Cards.LoadBudget | frontend/src/components/SummaryCards.tsx:41-44 | The budget becomes `LoadedBudget` of the storage. |
| SummaryCards.Cards.HandleBudgetChange | frontend/src/components/SummaryCards.tsx:48-52 | The state and the `monthly_budget` key receive the same parsed value; no other key changes. |
| SummaryCards.Cards.Balance | frontend/src/components/SummaryCards.tsx:46 | The initial balance minus the total expenses (a definition; see SaveBalance). |
| SummaryCards.Cards.StartEditingBalance | frontend/src/components/SummaryCards.tsx:54-57 | The field is seeded with the current balance (initial balance − total) and editing starts. |
| SummaryCards.Cards.CancelEditingBalance | frontend/src/components/SummaryCards.tsx:59-62 | Editing ends and the field is cleared. |
| SummaryCards.Cards.SetEditBalanceValue | frontend/src/components/SummaryCards.tsx:109 | The balance field holds the typed text. |
| SummaryCards.Cards.SaveBalance | frontend/src/components/SummaryCards.tsx:64-87 | Unparseable text: no request and no change. Otherwise typed + total is sent. Ok takes the result and leaves editing; failure changes nothing. If the server echoes the value, the balance becomes exactly the typed value. |
| ExpensePieChart.FirstSeen | frontend/src/components/ExpensePieChart.tsx:13-21 | At most one name per row; no names iff no rows. |
| ExpensePieChart.Buckets | frontend/src/components/ExpensePieChart.tsx:13-21 | One bucket per name, holding that category's total. |
| ExpensePieChart.FirstSeenDistinct | frontend/src/components/ExpensePieChart.tsx:14-19 | No category gets two buckets. |
| ExpensePieChart.FirstSeenCovers | frontend/src/components/ExpensePieChart.tsx:18 | A name has a bucket iff it is the category of some row. |
| ExpensePieChart.FirstSeenPrefix | frontend/src/components/ExpensePieChart.tsx:18 | The buckets of any prefix of the rows are a prefix of the final buckets, i.e. buckets are in first-occurrence order. |
| ExpensePieChart.TotalOfAbsent | frontend/src/components/ExpensePieChart.tsx:16-18 | A category with no rows totals zero. |
| ExpensePieChart.Grouping | frontend/src/components/ExpensePieChart.tsx:13-21 | The reference grouping: the buckets of the first-seen categories (a definition; GroupByCategory is proved against it). |
| ExpensePieChart.SumValuesStep | frontend/src/components/ExpensePieChart.tsx:16 | One more row adds its amount to the bucket sum exactly when its category has a bucket. |
| ExpensePieChart.GroupingSum | frontend/src/components/ExpensePieChart.tsx:13-21 | The bucket values sum to the total of all amounts, so merging adds and never overwrites. |
| ExpensePieChart.GroupingStepFound | frontend/src/components/ExpensePieChart.tsx:15-16 | A row whose category already has a bucket adds its amount to that bucket only. |
| ExpensePieChart.GroupingStepNew | frontend/src/components/ExpensePieChart.tsx:17-18 | A row with a new category pushes one bucket holding its amount. |
| ExpensePieChart.FindBucket | frontend/src/components/ExpensePieChart.tsx:14 | Returns the first bucket with that name, or none when no bucket has it. |
| ExpensePieChart.GroupByCategory | frontend/src/components/ExpensePieChart.tsx:13-21 | The reduce loop computes exactly the declarative grouping. |
| ExpensePieChart.ColorIndex | frontend/src/components/ExpensePieChart.tsx:48 | Always a valid index into the six colours; index i < 6 gets colour i. |
| ExpensePieChart.NeighbouringSlicesDiffer | frontend/src/components/ExpensePieChart.tsx:48 | Any six consecutive slices get six different colours. |
| ExpensePieChart.Render | frontend/src/components/ExpensePieChart.tsx:23-49 | "No data" iff there are no buckets. Otherwise one slice per bucket, slice k coloured `COLORS[k % 6]`. |
| ExpensePieChart.NoDataIffNoRows | frontend/src/components/ExpensePieChart.tsx:13-29 | The "No data" panel appears exactly when there are no rows. |
| ChatInterface.Reply | frontend/src/components/ChatInterface.tsx:35-44 | An assistant message: the response text on ok, "Error: Could not get response." on non-ok, "Error: Network issue." on an error. |
| ChatInterface.RepliesDistinguishOutcomes | frontend/src/components/ChatInterface.tsx:35-44 | Equal replies mean the same kind of outcome, unless the server's text equals a fixed one. |
| ChatInterface.IsBlank | frontend/src/components/ChatInterface.tsx:21 | `!input.trim()` (a definition; see Strings.TrimEmpty). |
| ChatInterface.SendButtonDisabled | frontend/src/components/ChatInterface.tsx:116 | The button is disabled when the trimmed input is empty or a reply is loading (a definition; see EnterBypassesLoading). |
| ChatInterface.EnterBypassesLoading | frontend/src/components/ChatInterface.tsx:110-116 | While loading the button cannot send, but Enter still reaches `sendMessage`. |
| ChatInterface.Chat.constructor | frontend/src/components/ChatInterface.tsx:7-9 | Empty log, empty input, not loading. |
| ChatInterface.Chat.SetInput | frontend/src/components/ChatInterface.tsx:109 | The input field holds the typed text. |
| ChatInterface.Chat.BeginSend | frontend/src/components/ChatInterface.tsx:20-33 | Blank input changes nothing and sends nothing. Otherwise the untrimmed input is appended as the user's message, the input is cleared, loading starts, and the request carries the same text. |
| ChatInterface.Chat.CompleteSend | frontend/src/components/ChatInterface.tsx:35-46 | Exactly one assistant message is appended; loading ends. |
| ChatInterface.Chat.SendMessage | frontend/src/components/ChatInterface.tsx:20-47 | Earlier messages are never changed. An accepted send appends exactly the user message and one reply. |
| BackendMain.Pow2 | backend/main.py:115 | Every power of two is at least 1. |
| BackendMain.Pow2Add | backend/main.py:115 | 2^(a+b) = 2^a · 2^b. |
| BackendMain.Backoff | backend/main.py:104-115 | The base delay before retry k: `initial_delay` doubled k times (a definition; see BackoffIsPower). |
| BackendMain.GenerateContentWithRetry | backend/main.py:101-120 | At most `retries` calls, and every call but the last was rate limited. The last call decides: its text is returned, another error is raised at once, and a rate limit is raised only on the last attempt. Delay k is `initial_delay` doubled k times. No attempts return None. |
| BackendMain.BackoffIsPower | backend/main.py:104-115 | Doubling the delay k times multiplies it by 2^k. |
| BackendMain.BackoffTotal | backend/main.py:105-114 | n delays add up to `initial_delay·(2^n − 1)`. |
| BackendMain.DefaultBackoffBound | backend/main.py:101-114 | With the defaults (3 attempts, 2 s) the waits total at most 6 s before jitter. |
| BackendMain.PredictCategory | backend/main.py:30-46 | No response, an empty text or any exception gives "Miscellaneous". |
| BackendMain.Strip | backend/main.py:42 | Python's `str.strip()` (a definition; see PredictCategoryShape). |
| BackendMain.PredictCategoryShape | backend/main.py:41-42 | A non-empty reply gives the slice of the reply left after removing whitespace on both sides, with no whitespace at either end. The prediction is empty exactly when the model's text is non-empty whitespace. |
| BackendMain.MaxId | backend/models.py:8 | Bounds every id in use and is never negative. |
| BackendMain.Without | backend/main.py:63-64 | The store with every row of that id removed (a definition; see WithoutKeeps). |
| BackendMain.WithoutKeeps | backend/main.py:64 | Removing an id keeps exactly the rows whose id differs. |
| BackendMain.RemoveAtIsWithout | backend/main.py:61-64 | With unique ids, deleting the found row removes exactly that id. |
| BackendMain.WithoutAbsent | backend/main.py:61-63 | Removing an id nobody has changes nothing. |
| BackendMain.RemoveAtKeepsUnique | backend/main.py:63-64 | Removing one row keeps the remaining ids unique. |
| BackendMain.DeleteRemovesOne | backend/main.py:61-66 | A present id loses exactly one row, and no row with that id remains. |
| BackendMain.SetField | backend/main.py:75 | Setting one field takes that field from the request and keeps id, date, owner and the other fields. |
| BackendMain.Overwritten | backend/main.py:74-75 | Amount, category and description come from the request; id, date and owner are kept. |
| BackendMain.ReadTransactions | backend/main.py:82-83 | At most `limit` rows (fewer at the end of the store), row k being stored row skip+k. |
| BackendMain.ListTransactions | backend/main.py:82 | With no query (as the dashboard asks) only the first 100 stored rows come back, in store order. |
| BackendMain.PagesConcatenate | backend/main.py:82-83 | A page of a rows and the next page of b rows together are the page of a+b rows. |
| BackendMain.Store.constructor | backend/main.py:7 | The store starts empty. |
| BackendMain.Store.Find | backend/main.py:60 | The index of a row with that id, or none iff no row has it. |
| BackendMain.Store.CreateTransaction | backend/main.py:48-57 | Only an empty category is replaced by the prediction; a non-empty one is stored verbatim. The new row gets a fresh id and is appended. Ids stay unique. |
| BackendMain.Store.DeleteTransaction | backend/main.py:59-66 | A missing id is a 404 and changes nothing. Otherwise exactly the row with that id is removed and the order is kept. |
| BackendMain.Store.UpdateTransaction | backend/main.py:68-79 | A missing id is a 404 and changes nothing. Otherwise only that row is overwritten, through the `setattr` loop. |
| BackendMain.Store.GetUserProfile | backend/main.py:164-172 | A 5000.0 profile is created only when none exists; otherwise the first profile is returned and nothing changes. |
| BackendMain.Store.UpdateUserProfile | backend/main.py:174-185 | Upserts the first profile's balance and returns the requested value. |

## Left out

- Rendering, styling, scrolling, the Blob/anchor download of the CSV, and `confirm`/`alert`. `confirm` is a boolean input and `alert` is a recorded `Alert` value.
- Console logging and the artificial one-second delays before the form, delete and save requests.
- Concurrency: each handler runs as one sequential step. Overlapping refreshes or sends, whose results land in completion order, are not modelled.
- Floating point: amounts are exact `real`s, so IEEE rounding is not modelled. `parseFloat`, `toString` and `toFixed` are parameters, not definitions.
- SummaryCards.Progress: a zero budget is excluded, and a NaN budget has no `real` value, so the NaN bar widths these would give are not modelled.
- The URLs of the requests that the table and the cards send (`/transactions/{id}`, `/profile/`), the `Content-Type` header they add, and the JSON encoding of bodies. The requests are modelled by what they carry.
- Api.BuildHeaders: header names are compared exactly. A `Headers` object or a tuple list passed as `options.headers` is not modelled, and neither is `fetch`'s case-insensitive header matching.
- The Supabase client, the login page, the landing page, JWT verification in `backend/auth.py`, and the one-off diagnostic scripts. These are foreign calls or static markup.
- The chat endpoint `/chat/` (backend/main.py:122-161): its own retry loop only produces fixed reply strings around the model call, and the model is foreign.
- The generative model, its prompt text, `random.uniform` jitter and `time.sleep`. The model is an oracle giving each call's outcome; the delays are recorded before jitter.
- BackendMain.Store.CreateTransaction: takes the outcome of the retrying model call as an input rather than calling the model. The prompt built from the description is not modelled.
- SQLAlchemy sessions, commit/refresh and the CORS middleware. The store is a class holding sequences of rows and profiles.
- Rows are listed in store order; SQL without ORDER BY is assumed to return insertion order.
- A new row's id is the largest id in use plus one, as SQLite assigns rowids. The creation date is an input.
- BackendMain.ReadTransactions: `skip` and `limit` are natural numbers. What a database does with negative values differs between SQLite and PostgreSQL.
- NextConfig.LoadEnv: the file is read as UTF-16LE, and `EnvFile.Text` holds the text after that decoding. So the model cannot show what a UTF-8 file gives. Its bytes decode to code units without any "\n" or "=", so the program loads no entry from it. Unpaired surrogate code units have no `char` value here.
- Common.Transaction.description is a string, while the schema allows a null description. A null description, and the "null" the CSV template literal would write for it, are not modelled. The backend rows do carry `Option<string>` descriptions.
- Dashboard.Page: the dashboard renders its children only while it is not loading, so every refresh unmounts them and remounts them with fresh state. For example, an edit open in the table is dropped when the form adds a row. In the model the `Form`, `Table` and `Cards` objects persist across refreshes, so that reset is not modelled.
- File and environment access: whether files exist and what the environment holds are inputs. `shutil.copy` is only recorded as a flag.
- TransactionList.Table.EditAmount: an amount that parsed to NaN and an absent amount are both `None` in the draft. Both are sent as a missing number, so their JSON encodings (null vs omitted) are not distinguished.
