# Tournament resolution and caching, modelled in Dafny

This project models the data core of the Tak tournament prototype UI, a Deno web app. The core has two parts.

- **The `Tournament` resolver** (`src/models/tournament.ts`). It finds a tournament's metadata (`TournamentInfo`) in one of two places:
  - a record in the `Deno.Kv` key/value store, under the key `["tournament-info", id]`;
  - otherwise, a bundled table of default tournaments. That table points at a JSON info document and, optionally, a roster CSV URL. When the document has no players, the roster is fetched and parsed into them.

  The resolver also saves validated records to the store and lists every known id.
- **The route data layer** (`routes.ts`).
  - `fetchGamesResponse` reads the games API through `ApiResponseCache`.
  - `getTournamentData` assembles a tournament's info and status. The status is memoised in `GeneratedTournamentStatusCache`.
  - The `/tournaments/:id` handler chooses a status code, or renders a page with a per-group projection of the status.

How the source's parts appear in the model:

- **JavaScript values** from `JSON.parse`, the store and the caches are the datatype `Values.Value`.
- **Truthiness** is explicit (`Values.Truthy`).
- **The schema guards** (`isTournamentInfo`, `isTournamentInfoFromJson`, `isTournamentStatus`, `isGameListResponse`) are oracle functions in `Values.Guards`.
- **Reading a file, fetching text and fetching JSON** are maps in `Values.Env`. A missing key means the call throws.
- **Exceptions** are `Values.Result`.
- **The store and the caches** are instances of one class holding a `map`, `Stores.Store`. The `Deno.Kv` is a `Store<seq<string>>`, and each cache is a `Store<string>`. `Get` yields the entry or `Nullish` (`Stores.Lookup`), and `Set` updates the map in place.
- **`kv.list({ prefix: KEY })`** is `TournamentModel.Listed`: the store's keys that lie strictly under the namespace. Deno KV's prefix selection leaves out the prefix key itself.
- **The default and known tournament tables** are parameters of type `Values.Table`: the ids in `Object.keys` order, plus the entries.
- **`analyzeTournamentProgress`** is an opaque function parameter (`Routes.Analyzer`).
- **`String.prototype.trim` and `split`** are modelled exactly, with ECMAScript's whitespace set, in `Text`.

Behaviour that one might expect, and that the code does not have; the model follows the code:

- Roster parsing in `src/models/tournament.ts` is not best-effort: a line without a comma makes it throw.
- Neither roster parser discards empty lines. `filter(Boolean)` runs on arrays, which are always truthy, so it drops nothing.
- An invalid record in the store does not fall through to the default data. `loadInfoFromKv` throws, and `load` catches the exception and returns false (`TournamentModel.InvalidRecordIsFatal`).
- Network and file faults in `getTournamentData` are not caught: they propagate (`Routes.GetData` returns `Err`).
- Bad upstream data is not answered 400: the handler answers 404 (see Findings).
- `listAllIds` has a definite order for the default ids: they come first, in table order.

## Model

| member | source | states |
|---|---|---|
| Text.Trim | src/models/tournament.ts:15-16 | `trim` gives a string with no whitespace at either end, no longer than the input, made of the input's characters |
| Text.TrimPads | src/models/tournament.ts:15-16 | the input is the trimmed string padded with whitespace only on both sides |
| Text.TrimIdempotent | src/models/tournament.ts:15-18 | trimming twice is trimming once, so a line's second `trim` before splitting changes nothing |
| Text.Split | src/models/tournament.ts:15-16 | `split` yields at least one piece; more than one exactly when the separator occurs; no piece holds it; joining the pieces gives the input back |
| Text.SplitJoin | src/models/tournament.ts:15-16 | splitting a join of separator-free pieces gives back exactly those pieces |
| Stores.Store.Set | src/models/tournament.ts:58 | `kv.set` (and `cache.set`, routes.ts:56 and 104) writes the one key and leaves every other key as it was |
| TournamentModel.KeyOfId | src/models/tournament.ts:10-12 | the key of an id lies strictly under the namespace `["tournament-info"]` and ends with the id |
| TournamentModel.KeyOfIdInjective | src/models/tournament.ts:10-12 | two ids share a key exactly when they are equal |
| TournamentModel.ParseRow | src/models/tournament.ts:16-18 | a line parses exactly when its trimmed text has a comma, else throws (`parts[1]` undefined); fields come out trimmed and comma-free |
| Text.Lines | src/models/tournament.ts:15 | the lines hold no newline and their join by "\n" is the trimmed document, which determines them (`Text.SplitJoin`) |
| TournamentModel.ParsePlayersCsv | src/models/tournament.ts:14-21 | one player per line, in order, no header skipped and none dropped; throws exactly when a line has no comma |
| TournamentModel.ParseRowFields | src/models/tournament.ts:15-18 | a row is its trimmed first and second fields; later fields are ignored |
| TournamentModel.ParsePlayersCsvRows | src/models/tournament.ts:14-21 | for a document made of given rows: one player per row, in order, and it throws exactly when a row lacks a comma |
| TournamentModel.BlankDocumentThrows | src/models/tournament.ts:15-18 | a blank document is one empty line with no comma, so parsing throws |
| TournamentModel.CleanRow | src/models/tournament.ts:15-18 | `username,group` with clean fields parses to exactly those fields |
| TournamentModel.TrimTrailingNewline | src/models/tournament.ts:15 | a final newline is trimmed away before splitting |
| TournamentModel.TwoLines | src/models/tournament.ts:15 | two rows each ended by a newline give exactly two lines, with no empty third |
| TournamentModel.TwoRows | src/models/tournament.ts:14-21 | a two-row roster like `alice,groupA\nbob,groupB\n` gives the two rows' players, in order |
| TournamentModel.ParsedTwo | src/models/tournament.ts:14-21 | a document of two lines that both parse gives their two players, in order |
| TournamentModel.ParsedRows | src/models/tournament.ts:14-21 | if every line parses, the result is the list of those rows |
| TournamentModel.KvLookup | src/models/tournament.ts:62-78 | no store or a falsy value gives false; a truthy value failing `isTournamentInfo` throws; otherwise the value is the info |
| TournamentModel.DefaultLookup | src/models/tournament.ts:80-107 | an unknown id gives false; an unreadable or invalid document throws; a valid document needing no roster is the info; with no players and a roster URL, a failed fetch throws, a roster line without a comma throws, and otherwise the info is the document with the parsed roster as players |
| TournamentModel.Resolve | src/models/tournament.ts:33-45 | a valid store record wins; an invalid one gives nothing and the defaults are not tried; otherwise the default data decides, and any exception gives nothing |
| TournamentModel.StoreRecordWins | src/models/tournament.ts:35-36 | with a valid store record, the result does not depend on the default table, the files or the network |
| TournamentModel.InvalidRecordIsFatal | src/models/tournament.ts:72-73 | an invalid truthy store record makes loading fail, whatever the default data holds |
| TournamentModel.DefaultFallback | src/models/tournament.ts:33-45 | a tournament the store does not hold, with a valid bundled document needing no roster, resolves to that document |
| TournamentModel.BadRosterLineFails | src/models/tournament.ts:98-101 | when the roster is fetched, one line without a comma makes loading fail |
| TournamentModel.NoFetchWhenPlayersPresent | src/models/tournament.ts:98-103 | with players present or no roster URL, the roster is not fetched and the document's info is used unchanged |
| TournamentModel.SavedRecordResolves | src/models/tournament.ts:53-60 | after a valid save, loading the id yields the saved record |
| TournamentModel.StoredIds | src/models/tournament.ts:113-116 | the ids are exactly `key[1]` of the listed keys: every listed key's second part is in, including keys of more than two parts, and nothing else is |
| TournamentModel.Tournament.constructor | src/models/tournament.ts:28-31 | a new tournament has its id and store and no info |
| TournamentModel.Tournament.LoadInfoFromKv | src/models/tournament.ts:62-78 | the result and the new `info` are those of `KvLookup`; `info` is assigned only on success |
| TournamentModel.Tournament.LoadInfoFromDefaultData | src/models/tournament.ts:80-107 | the result and the new `info` are those of `DefaultLookup`; `info` is assigned only on success |
| TournamentModel.Tournament.Load | src/models/tournament.ts:33-45 | returns true exactly when resolution finds info, assigns that info, and leaves `info` alone and the store unchanged otherwise |
| TournamentModel.Tournament.LoadNew | src/models/tournament.ts:47-51 | the static `load` gives a fresh tournament whose info is the resolution |
| TournamentModel.Tournament.Save | src/models/tournament.ts:53-60 | returns true exactly when the data passes `isTournamentInfo`; then only its key is written, otherwise nothing |
| TournamentModel.Tournament.ListAllIds | src/models/tournament.ts:109-120 | no duplicates; the ids are exactly the default ids and the stored ids; the default ids come first, in table order |
| Routes.Row | routes.ts:39-42 | a row's fields are the untrimmed first and second comma-split fields; with no comma the group is undefined and the username is the whole trimmed line |
| Routes.ParsePlayersCsv | routes.ts:38-45 | the first line is dropped: one player per remaining line, in order; it never throws and drops no row |
| Routes.RowFields | routes.ts:39-42 | a row is its first two fields exactly as written; later fields are ignored |
| Routes.ParsePlayersCsvRows | routes.ts:38-45 | for a header followed by rows, one player per row, in order |
| Routes.RowsAgreeUpToTrim | routes.ts:39-42 | where the models variant accepts a line, its row is this variant's row with fields trimmed |
| Routes.HeaderDropped | routes.ts:38-45 | where the models variant parses a document, this variant gives its players minus the first, untrimmed |
| Routes.FetchOutcome | routes.ts:47-58 | a cached value passing the guard is returned; otherwise the fetched payload itself if valid, null if not, and an exception if the fetch fails; any returned value passes the guard |
| Routes.CacheAfterFetch | routes.ts:47-58 | the cache changes only on a miss, only at the url, only to the returned valid payload; an all-valid cache stays all-valid |
| Routes.SecondFetchHits | routes.ts:48-51 | after a successful call, the next call for the url returns the same value and writes nothing, whatever the network says |
| Routes.FetchGamesResponse | routes.ts:47-58 | the result and new cache are `FetchOutcome` and `CacheAfterFetch` of the old cache |
| Routes.GetData | routes.ts:60-109 | unknown id gives 404; an unreadable document throws; an invalid one gives 400; no roster URL gives info without status; a valid memoised status is returned with no fetch or write; otherwise the games are fetched through the cache (a failure throws, a null response gives 400 with no status write), then the roster (a failure throws), and the info gets the parsed roster, the status is the analysis of it and the games, and it is written at the id; the status cache changes nowhere else; errors carry no info and successes always do |
| Routes.StatusMemoised | routes.ts:84-86 | once a valid status has been computed, the next request returns it without fetching and writes nothing |
| Routes.InvalidStatusIgnored | routes.ts:84-86 | a memoised status failing the guard is treated as absent: the outcome and the games cache are those with no status memoised |
| Routes.GetTournamentData | routes.ts:60-109 | the result and both new caches are those of `GetData` on the old caches |
| Routes.PlayersInGroup | routes.ts:124 | the selected players are exactly those whose group equals the name |
| Routes.PlayersInGroupAppend | routes.ts:124 | the selection keeps the players' original order |
| Routes.GroupStatus | routes.ts:120-129 | for a `groupStage` status, one view per group, in order, with its name, winner, winner method and exactly its players in their original order (`PlayersInGroup`); otherwise null |
| Routes.RespondAsWritten | routes.ts:113-118 | missing info is answered 404 before the error is looked at; a page is given exactly when there is info and no error |
| Routes.InvalidDocumentAnswered404 | routes.ts:70-72 | a known tournament with an invalid info document produces `{ error: 400 }` and is answered 404 |
| Routes.NeverAnswered400 | routes.ts:111-118 | as written, no request is answered 400 |
| Routes.Respond | routes.ts:113-118 | with the error checked first, an error is answered with its own code, missing info with 404, and otherwise the page |
| Routes.ReplyCodes | routes.ts:60-118 | with the error checked first: 404 exactly for an unknown id; 400 exactly for an invalid info document or an invalid games payload on a status miss |

## Left out

- The `new Date(...)` conversion of `dateRange` (routes.ts:74-80). Date parsing happens in the runtime, so dates stay strings here.
- Oak router registration, the redirect from `/`, the tournament list page and Eta template rendering. These are HTTP and UI plumbing. `Routes.Reply` stands for the rendered page.
- The empty stub route `/tournaments/:id/:groupIndex`, which has no behaviour.
- `console.error` logging.
- An exception escaping `getTournamentData` becomes a server error in Oak. The model stops at `Err`.
- Async interleaving and concurrent cache races. The model is sequential: two overlapping cache misses are not modelled.
- The schema guards and `analyzeTournamentProgress` are imported from remote modules and are oracles here.
- `cache.ts` and `data/data.ts` are not part of this model. The caches are plain maps, and the tables are parameters.
- The tables are looked up with `id in entries`. Ids that name inherited object properties (such as `toString`) are not modelled.
- Tournament-type-specific fields of `TournamentInfo`, and the status fields that the handler does not read.
- TournamentModel.Tournament.ListAllIds: the model does not fix the order of the stored ids after the default ids. That order comes from the store's key order, which is not modelled.
- Routes.FetchGamesResponse: the cache hit test also checks truthiness. Every value that passes the guard is truthy, so the contracts leave it out.

## Findings

| source | as written | input that shows it | evidently intended | confidence | as-written member | corrected member |
|---|---|---|---|---|---|---|
| routes.ts:113-118 | the handler tests `!tournamentInfo` before `error`, and every error result (`{ error: 400 }`, `{ error: 404 }`) has no `tournamentInfo`, so every error is answered 404 and the `if (error)` branch is dead | a known id whose info document fails `isTournamentInfoFromJson`, or whose games API payload fails `isGameListResponse` on a status-cache miss: `getTournamentData` returns `{ error: 400 }` and the reply is 404 | answer the result's own error code (400 for bad upstream data), and 404 only for an unknown tournament | high; not executed | Routes.RespondAsWritten | Routes.Respond |
