# URL shortener core: short codes and the `urls` table

This project models the core of a small URL-shortening service, `backend/app.py`:

- **Short-code generation.** `generate_short_code` builds a code of `length` characters (default `SHORT_CODE_LENGTH = 6`). Each character is drawn from `ascii_letters + digits`, 62 symbols.
- **The `urls` table.** The table is `short_code VARCHAR(10) UNIQUE NOT NULL`, `long_url TEXT NOT NULL`. It is created by `CREATE TABLE IF NOT EXISTS`, written by a single `INSERT` and read by a `SELECT`.
- **Two request handlers.** `shorten_url` (`POST /api/shorten`) and `redirect_url` (`GET /<short_code>`) decide which response to send and what happens to the table.

Modules, leaf first:

- `Wrappers` (`wrappers.dfy`): `Option` and `Result`.
- `ShortCode` (`short_code.dfy`): the alphabet and generation, as pure functions.
  - Randomness is not modelled. Each `random.choice` is an input `Draw`, an index in `[0, 62)`.
  - `CodeDraws` is the six draws of one default-length code.
  - A code reads back to its draws, so generation is a bijection between draw sequences and letter-and-digit strings of the same length.
- `UrlTable` (`url_table.dfy`): what the three SQL statements do to the table.
  - A database is `NoTable` or `Table(urls)`, where `urls` maps short_code to long_url.
  - `Insert` fails when a value holds U+0000, which psycopg2 refuses before sending. It also fails when the table is missing, when the code does not fit `VARCHAR(10)`, or when the code is already present (the UNIQUE constraint). Otherwise it adds exactly one row.
  - A code longer than ten characters whose excess is all spaces fits `VARCHAR(10)`: PostgreSQL stores it cut to ten characters.
  - `Select` is an exact-key read. A code holding U+0000 fails in the same way.
- `Handlers` (`handlers.dfy`): the handlers' decisions as functions of three things: the request, whether `psycopg2.connect` succeeded, and the database before the request.
  - `Shorten` returns the response and the database after the request.
  - `Redirect` returns only a response.
  - `Initialize` returns only the database.
  - The lemmas state the status codes, the table-change rules, the round trip "shorten, then redirect", idempotence of table creation, and an invariant on the stored rows.
  - Over any series of shorten requests, they also show that the table only grows, that no code is handed out twice, and that every handed-out code still redirects to its URL.
- `App` (`app.dfy`): class `Database`, whose fields `hasTable` and `urls` are the table that the handlers change in place. Each of its methods is the imperative form of one handler, proved against the functions of `Handlers`:
  - `InitializeDb` and `ShortenUrl` modify the object.
  - `RedirectUrl` has no `modifies` clause, so the frame itself proves that a lookup changes nothing.

Where the code differs from what the service is described as doing elsewhere, the model follows the code:

- There is no retry loop. The comment at `backend/app.py:86` speaks of retry logic, but the handler generates one code and makes one `INSERT`. A collision is rolled back and answered 500.
- There is no URL validation or normalisation. Whitespace-only strings and strings without a scheme are stored as they are. Any non-empty url that holds U+0000 is refused by psycopg2 with a `ValueError`.
  - That error is not a `psycopg2.Error`, so the except branch at `backend/app.py:104` does not run.
  - Nothing was committed, so no row is stored, and Flask answers 500.
- The request field is `url`, and the redirect route is `/<short_code>`.
- `redirect_url` also answers 500 when the `SELECT` raises a `psycopg2.Error` (`backend/app.py:137-139`). In the model this happens when the table does not exist.
- The table can be missing when `initialize_db` could not connect. Then every `INSERT` and `SELECT` fails with `UndefinedTable` (a value holding U+0000 is refused earlier, by psycopg2's `ValueError`), and both handlers answer 500.

## Model

| member | source | states |
|---|---|---|
| `ShortCode.GenerateShortCode` | backend/app.py:58-61 | the code has exactly `length` characters, each a letter or a digit, and position k holds the symbol that the k-th draw selects |
| `ShortCode.Symbol` | backend/app.py:60 | draw 0-25 selects `a`-`z`, 26-51 selects `A`-`Z`, 52-61 selects `0`-`9` (the order of `ascii_letters + digits`) |
| `ShortCode.IndexOf` | backend/app.py:60 | every letter or digit is selected by some draw |
| `ShortCode.SymbolInjective` | backend/app.py:60 | the 62 symbols of the alphabet are distinct |
| `ShortCode.AlphabetIsAlphanumeric` | backend/app.py:60 | a character is in `ascii_letters + digits` if and only if it is an ASCII letter or digit |
| `ShortCode.DrawsOf` | backend/app.py:58-61 | reading the draws back from a code gives one draw per character |
| `ShortCode.DrawsOfGenerate` | backend/app.py:58-61 | the draws can be recovered from the generated code |
| `ShortCode.GenerateDrawsOf` | backend/app.py:58-61 | every letter-and-digit string is generated by some draws |
| `ShortCode.GenerateInjective` | backend/app.py:58-61 | different draws always generate different codes |
| `UrlTable.CreateTableIfNotExists` | backend/app.py:43-50 | afterwards the table exists; an existing table is left as it is; a new table is empty |
| `UrlTable.StoredCode` | backend/app.py:46 | the value `VARCHAR(10)` stores has at most ten characters. It is a prefix of the code, the code itself when that fits, and everything cut off is spaces |
| `UrlTable.Insert` | backend/app.py:91-94 | a code or url holding U+0000 fails with psycopg2's `ValueError`. Otherwise the insert succeeds if and only if the table exists, the code fits `VARCHAR(10)` and its stored value is not yet a key. On success exactly that key is added, mapped to `url`, and every other row is unchanged. Any other failure on an existing table with NUL-free values that fit is the UNIQUE violation |
| `UrlTable.Select` | backend/app.py:122-126 | fails if and only if the code holds U+0000 or the table is missing; otherwise returns the stored URL if and only if the code is a key |
| `UrlTable.InsertGrowsByOne` | backend/app.py:91-95 | a successful insert grows the table by exactly one row |
| `UrlTable.SelectAfterInsert` | backend/app.py:122-126 | after an insert of a code of at most ten characters, a SELECT of that code returns its URL, and a SELECT of any other code returns what it returned before |
| `UrlTable.TrailingSpacesTruncated` | backend/app.py:46 | `"abcdefghij  "` is stored as `"abcdefghij"`, while `"abcdefghijk"` is refused as too long |
| `UrlTable.NulRefused` | backend/app.py:91-94 | an insert whose code or url holds U+0000 fails with the client-side error, whatever the table holds; a lookup of a code holding U+0000 fails the same way |
| `UrlTable.CreateTableIdempotent` | backend/app.py:43-51 | creating the table twice is the same as once, and existing rows are kept |
| `Handlers.Initialize` | backend/app.py:37-56 | with a connection a table exists afterwards; an existing table, or any table without a connection, is left as it is |
| `Handlers.Shorten` | backend/app.py:73-109 | answers only 201, 400, 500 or 503. A 201 needs a non-empty url, a connection and a table. Its code is the generated one, was free, and the new table is the old one plus code → url. Any other answer leaves the database unchanged |
| `Handlers.Redirect` | backend/app.py:113-141 | answers only 302, 404, 500 or 503. A 302 goes to exactly the URL stored under the code in an existing table, with a connection. A 404 means the table exists and lacks the code |
| `Handlers.StatusCode` | backend/app.py:79-139 | `Created` is sent as 201 and `Found` as 302; these are the only statuses below 400, and every other response is 4xx or 5xx |
| `Handlers.ShortenStatuses` | backend/app.py:73-109 | shorten_url answers only 201, 400, 500 or 503 |
| `Handlers.ShortenMissingUrl` | backend/app.py:75-79 | the answer is 400 if and only if `url` is missing, null or empty, and then the table is unchanged |
| `Handlers.ShortenUnavailable` | backend/app.py:81-83 | for a non-empty url, 503 if and only if there is no connection, and then the table is unchanged |
| `Handlers.ShortenCreatedIff` | backend/app.py:85-107 | 201 if and only if the url is non-empty and free of U+0000, there is a connection, the table exists and the one generated code is not yet taken |
| `Handlers.GeneratedCodeStorable` | backend/app.py:87-94 | a generated code holds no U+0000 and fits `VARCHAR(10)` uncut, so it is stored as it is |
| `Handlers.ShortenNulUrl` | backend/app.py:91-109 | with a connection, a url holding U+0000 is answered 500 and nothing is written |
| `Handlers.ShortenSuccess` | backend/app.py:87-102 | on 201 the returned code is the generated one. It has six letters or digits, was free and fits `VARCHAR(10)`. The table becomes the old table plus the one row code → url and grows by one |
| `Handlers.ShortenFailureLeavesTable` | backend/app.py:73-109 | every answer other than 201 leaves the database exactly as it was (rollback on 500) |
| `Handlers.ShortenCollision` | backend/app.py:86-107 | with a connection, if the generated code is already taken, the answer is 500, the table is unchanged and there is no second attempt |
| `Handlers.ShortenWithoutTable` | backend/app.py:89-107 | if the table was never created, the insert fails and the answer is 500 |
| `Handlers.ShortenThenRedirect` | backend/app.py:87-132 | redirecting the code of a successful shorten leads to the submitted URL |
| `Handlers.CommittedRowIsReported` | backend/app.py:95-102 | if the table changed, the response is 201 with the code of the one row added |
| `Handlers.RedirectStatuses` | backend/app.py:113-141 | redirect_url answers only 302, 404, 500 or 503 |
| `Handlers.RedirectOutcomes` | backend/app.py:115-139 | each outcome, in both directions: 302 to exactly the stored URL when the code is a key, 404 when it is not, 500 when the table is missing or the code holds U+0000, 503 when there is no connection |
| `Handlers.InitializeIdempotent` | backend/app.py:37-56 | running initialize_db twice is the same as running it once |
| `Handlers.InitializePreservesRows` | backend/app.py:43-51 | an existing table is left as it is; with a connection, a missing table is created empty |
| `Handlers.HandlersPreserveWellFormed` | backend/app.py:73-109 | shorten and initialize keep every stored code a six-character letter-and-digit string and every stored URL non-empty and free of U+0000 |
| `Handlers.WellFormedCodesFit` | backend/app.py:44-47 | every stored code fits the `VARCHAR(10)` column |
| `Handlers.ShortenAllExtends` | backend/app.py:91-95 | over any series of shorten requests, no row is ever changed or removed |
| `Handlers.ShortenAllRowCount` | backend/app.py:91-107 | over any series of shorten requests, exactly one row is added per 201 and none per failure |
| `Handlers.ShortenAllCodes` | backend/app.py:87-132 | over any series of shorten requests, every 201 code still redirects to its URL at the end, and no two 201 responses carry the same code |
| `Handlers.ShortenAllFresh` | backend/app.py:91-94 | a code handed out by a later request was not in the table before the series |
| `Handlers.ShortenAsWritten` | backend/app.py:95-107 | as written, the database after the request is the one `Shorten` leaves, and the gauge is registered after any 201. The answer differs from `Shorten`'s exactly when the gauge was already registered and the insert succeeded; it is then 500 |
| `Handlers.AsWrittenLosesCommittedRow` | backend/app.py:95-107 | as written, once the `urls_shortened` gauge is registered, a successful insert is answered 500 although its row is committed |
| `Handlers.AsWrittenFirstRequest` | backend/app.py:95-102 | in the trace of the finding: on an empty table in a fresh process, the request for `https://google.com` with draws `[0,0,0,0,0,0]` is answered 201 `aaaaaa` and registers the gauge |
| `Handlers.AsWrittenSecondRequest` | backend/app.py:95-107 | in the trace of the finding: the next request, with draws `[1,0,0,0,0,0]`, commits `baaaaa` and is answered 500 |
| `Handlers.AsWrittenSecondShortenFails` | backend/app.py:95-102 | as written, two requests for the same non-empty, NUL-free url in a fresh process on an empty table, with different draws, are answered 201 with the first code and then 500; both rows are stored, under distinct codes |
| `App.Database.InitializeDb` | backend/app.py:37-56 | with a connection the table exists afterwards; the rows are never changed |
| `App.Database.ShortenUrl` | backend/app.py:73-109 | the new state and response are those of `Shorten`. On 201 the code was free and the rows gain exactly code → url; otherwise the rows are unchanged |
| `App.Database.RedirectUrl` | backend/app.py:113-141 | answers as `Redirect` on the current table: 503 without a connection; 500 without a table or for a code holding U+0000; otherwise 302 to the stored URL or 404. It changes nothing |

## Findings

| source | as written | input that shows it | evidently intended | confidence | as-written member | corrected member |
|---|---|---|---|---|---|---|
| backend/app.py:99 | After the commit, `metrics.info('urls_shortened', ...)` registers a new gauge named `urls_shortened` on every successful request. A second registration of the same name raises `ValueError`, which `except psycopg2.Error` does not catch, so the request ends in 500 while its row stays committed. | Two requests `{"url": "https://google.com"}` in one process. Their draws give the codes `aaaaaa` and `baaaaa`. The first is answered 201. The second is answered 500, and both rows are stored. | Count shortened URLs and answer 201 with the code for every committed row. | medium: it rests on `prometheus_flask_exporter`'s `info` creating and registering a gauge on each call, and on `prometheus_client` refusing duplicate names; not executed | `Handlers.AsWrittenSecondShortenFails` | `Handlers.CommittedRowIsReported` |

The class `App.Database` and every lemma about `Handlers.Shorten` use the corrected behaviour: the metric never affects the response. `Handlers.ShortenAsWritten` exists only to exhibit the finding.

## Left out

- **Flask plumbing.** Routing, `jsonify`, `redirect`, `abort` and the response bodies are not modelled. Responses are the `Response` datatype and its status code. `Found` is the handler's decision to redirect; how Werkzeug encodes the stored value into the `Location` header, or refuses it (a value with CR or LF), is not modelled.
- **The request body.** The model takes `data.get('url')` as an optional string. Three cases are not modelled:
  - a request without a JSON body;
  - a body that is not a JSON object (where `data.get` itself fails);
  - a `url` value that is not a string (a number, list or object, which psycopg2 would adapt or reject).
- **Connections and configuration.** `psycopg2.connect`, the environment settings (`backend/app.py:16-35`) and `conn.close()` in `finally` are not modelled. Each handler receives a boolean saying whether a connection was obtained. Closing has no effect on the table.
- **Other database errors.** The model covers the failures that follow from the schema and from psycopg2's handling of strings: U+0000, missing table, code too long, duplicate code. Failures that depend on the server, such as disk, permissions or serialization, are not modelled.
- **The except branch of `initialize_db`.** Lines 53-54 run only with a connection, when `CREATE TABLE` itself fails. The model has no path into them: `CreateTableIfNotExists` cannot fail. A missing connection is the `if conn:` guard at `backend/app.py:40`, which skips the whole `try`.
- UrlTable.Insert: JSON strings holding a lone UTF-16 surrogate (`"\ud800"`) are not modelled, because a Dafny `char` is a Unicode scalar value. In the source, psycopg2 cannot encode such a string. The resulting error is not a `psycopg2.Error`, so the request ends in 500 with no row stored; the same holds for such a code in `redirect_url`.
- **Concurrency.** Each handler call is one atomic step on the table. Concurrent requests are taken in some sequential order, which is the order the UNIQUE constraint imposes.
- **Observational side effects.** Prometheus metrics and `print` diagnostics (`backend/app.py:7, 13, 33, 54, 106, 138`) are not modelled, apart from the registration at line 99 that the finding above is about.
- **Lazy initialisation.** The `before_request` flag that runs `initialize_db` once per process (`backend/app.py:65-70`) is process lifecycle. `Database.InitializeDb` can be called at any point instead.
- **Columns filled by the database.** The `SERIAL id` and the `created_at` timestamp (`backend/app.py:45, 48`) are not kept. A row is the pair short_code → long_url.
- **Randomness.** The random source is an input. Distributions and collision probabilities are not modelled.
- **Code length.** The model fixes the length of the handler's code at the default 6 (`CodeDraws`). `GenerateShortCode` takes any length.
- **Other endpoints.** URL-format validation, scheme normalisation, the health and readiness endpoints and a connection pool are not part of `backend/app.py`, so they are not modelled.
- **Frontend and tests.** The frontend and the test files are not part of this model. The tests call routes and fields that `backend/app.py` does not define.
