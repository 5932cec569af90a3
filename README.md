# gptdarr: the add decision, the configuration store and record cleaning

gptdarr lets an assistant ask a Radarr (movies) or Sonarr (series) server to
track titles. This project models the logic behind that:

- the per-title **add decision** of the controllers;
- the **configuration store** they read;
- the **record cleaning** applied to catalog records.

All of it is modelled in Dafny, and the properties below are proved.

## The add decision

Given a query (name, year), `add` does the following:

- it looks the title up in the service's catalog;
- it builds a registration request from the first candidate;
- it decides whether the title is:
  - unknown,
  - queued (movies only),
  - tracked and unreleased,
  - tracked with a file,
  - tracked and force-searched (movies only),
  - created,
  - refused by the create request.

It returns one response record `{success, message, title, year, imdbId,
tmdbId, errors}` and never throws: every failure is caught and reported as
"Unexpected error occurred".

Every network reply is a parameter of the model (`Reconcile.Net`):

- the lookup (a failure, a `null` body, or a list of candidates);
- the queue details;
- the status and body of each POST.

`add` therefore becomes a deterministic function. It returns a `Run`: the
response, plus the trace of calls it sent (lookup, queue check, search,
create). The trace is what lets properties such as "no create is sent for a
tracked title" be stated.

Five controller variants are modelled:

- `Radarr`: the current movie controller, a class whose constructor
  normalises its URL and root folder. Faithful quirks:
  - the force-search flag is `config || true`, so it is always truthy;
  - `movieFileId !== 0` counts a missing file id as a file;
  - the queue is checked only for a truthy `id`, while "tracked" means `id`
    is defined, so `id = 0` skips the queue check yet counts as tracked.

  `MovieAdd` is the reference definition. The `Add` method follows the source
  statement by statement and is proved equal to it.
- `Sonarr`: the current series controller.
- `ClassesRadarr`: the legacy movie controller. It has no queue check, and it
  force-searches only when an environment flag says `'true'`.
- `ClassesSonarr`: the legacy series controller, whose request is written
  inline.
- `ModulesSonarr`: the intermediate series controller, which takes its profile
  ids from the environment.

The three series controllers share one decision, `Series.SeriesAdd`. It is
parameterised by how each controller builds its request from the catalog
match (`Reconcile.Builder`). The response record (`Reconcile.Respond`, the
`generateResponseStructure` every file repeats) is shared as well. So is the
sequential `bulkAdd` (`Reconcile.BulkResults`/`BulkTrace`).

The lookup of the two current controllers logs `data.length` before
returning. A `null` lookup body therefore throws there and ends in the
catch-all response. The legacy controllers have no such logging: for them a
`null` body reports "No results found".

## The configuration store and record cleaning

`Config.Store` is the configuration store. It models:

- the tables `REQUIRED_CONFIG`, `DEFAULT_CONFIG` and `ENV_MAPPING`;
- `get`/`set` on two-level paths;
- `parseValue`;
- loading from the environment and from command-line arguments;
- the missing list of `validateRequired`;
- the three serialisers, which share one quoting rule.

`Utils` models `cleanObject`. It edits a record in place: it replaces `id` by
`inLibrary: true` and deletes a fixed list of keys.

## Model

| member | source | states |
|---|---|---|
| Reconcile.Respond | src/modules/radarr.js:199-209 | the response carries `success` and `message`; each optional field passed as `undefined` takes its default (`''` for title, year and ids, `null` for errors) and any other value is kept |
| Reconcile.Unexpected | src/modules/radarr.js:181-186 | the catch-all response is unsuccessful, says "Unexpected error occurred", has empty title, year and ids, and `errors` null |
| Reconcile.NoResults | src/modules/radarr.js:94-99 | the no-match response is unsuccessful, says "No results found", carries the query's name and year (when defined), and has empty ids and null errors |
| Reconcile.EnvValue | classes/radarr.js:32 | an environment variable is a string exactly when it is set, and `undefined` otherwise |
| Reconcile.WithApiSuffix | src/modules/radarr.js:16-18 | the URL ends with `/api/v3` afterwards, is unchanged when it already did, is exactly the URL followed by `/api/v3` when it did not, and keeps the configured URL as its prefix |
| Reconcile.WithApiSuffixIdempotent | src/modules/sonarr.js:14-16 | applying the suffix rule to its own result changes nothing |
| Reconcile.BulkResults | src/modules/radarr.js:189-197 | a bulk add over the first `n` items yields exactly `n` responses |
| Reconcile.BulkResultsAt | src/modules/radarr.js:192-195 | response `i` of a bulk add is the response of adding item `i` alone |
| Reconcile.BulkResultsEach | src/modules/radarr.js:192-195 | every response of a bulk add is that of its own item, for all positions at once |
| Reconcile.BulkTracePrefix | src/modules/radarr.js:192-195 | the bulk add sends the items' calls in input order: the calls of the first `m` items are a prefix of the calls of the first `n` |
| Json.Field | src/modules/radarr.js:105 | reading a missing property gives `undefined` |
| Json.Or | src/modules/radarr.js:8-11 | `v \|\| fallback` is `v` when `v` is truthy and the fallback otherwise, and it is truthy when either is |
| Json.Default | src/modules/radarr.js:199 | a default parameter applies exactly when `undefined` is passed |
| Paths.Normalize | src/modules/radarr.js:12 | the result has no run of separators, is no longer than the input, and keeps its first and last character |
| Paths.NormalizeKeepsNormal | src/modules/radarr.js:12 | a path with no run of separators is already normal |
| Paths.NormalizeIdempotent | src/modules/radarr.js:211-215 | normalising twice is normalising once |
| Paths.NormalizeAfterNormal | src/modules/radarr.js:215 | normalising a normal root followed by text that does not continue its last separator normalises only the text |
| Paths.JoinUnderRoot | src/modules/radarr.js:215 | joining a normal root without a trailing separator and a non-empty folder puts the root and one separator in front |
| Paths.Place | src/modules/radarr.js:212-215 | a title's path has no run of separators and, under a normal root and for a non-empty folder, starts with the root followed by `/` |
| Paths.StripTrailingSeparator | src/modules/radarr.js:31 | at most one trailing `/` is removed, and only when there is one |
| Paths.EndsWithSeparator | src/modules/radarr.js:31 | a path ends in `/` exactly when its last character is `/` |
| Paths.RootFolder | src/modules/radarr.js:12-31 | the kept root folder never ends in `/` and has no run of separators |
| Strings.NatToString | src/config/config.js:132 | the decimal text of a natural number is non-empty digits without a leading zero |
| Strings.DigitsValueOfNatToString | src/config/config.js:86-87 | reading the digits of a natural number gives the number back |
| Strings.IntToStringRoundTrip | src/config/config.js:86-87 | an integer's text is numeric and `Number` reads it back as the integer |
| Strings.Lower | src/modules/radarr.js:73 | `toLowerCase` keeps the length and lower-cases each character |
| Strings.Upper | src/config/config.js:110 | `toUpperCase` keeps the length and upper-cases each character |
| Strings.TrimStart | src/config/config.js:135 | only leading white space is removed, and all of it |
| Strings.TrimEnd | src/config/config.js:135 | only trailing white space is removed, and all of it |
| Radarr.CheckQueueStatusSpec | src/modules/radarr.js:60-85 | the queue check fails open (failure, non-list body or empty list give no status), reads only the first entry, ignores case, and reports downloading or importing exactly for those two statuses; a first entry that is not an object or has no string `status` (where `toLowerCase` throws or yields `undefined`) also gives no status |
| Radarr.PolicyFields | src/modules/radarr.js:216-225 | the policy keys: both profile ids are the controller's, monitored, released, the add options that search for the movie, and the path placed under the root folder |
| Radarr.BuildRequest | src/modules/radarr.js:211-226 | a request exists exactly when the match has a string `folder`; it keeps every other field of the match and sets the profile ids, `monitored`, `minimumAvailability`, the add options (`searchForMovie: true`, episode flags false) and the path under the root folder |
| Radarr.MovieAdd | src/modules/radarr.js:87-187 | every `add` starts with the lookup and reports one of the controller's messages |
| Radarr.MovieDecide | src/modules/radarr.js:104-112 | after the lookup, the queue check (for a truthy id) only extends the calls sent so far |
| Radarr.MovieExisting | src/modules/radarr.js:114-166 | the tracked-title branch only extends the calls sent so far and reports one of the controller's messages |
| Radarr.MovieCreate | src/modules/radarr.js:168-179 | the create branch only extends the calls sent so far and reports one of the controller's messages |
| Radarr.AddReachesDecide | src/modules/radarr.js:92-101 | with candidates, `add` builds the request from the first and continues after the lookup alone |
| Radarr.DecideReachesExisting | src/modules/radarr.js:105-114 | a tracked request the queue does not hold reaches the existence branch after the lookup and any queue check |
| Radarr.DecideReachesCreate | src/modules/radarr.js:105-168 | an untracked request goes straight to creation: no queue check |
| Radarr.DecideIgnoresLookup | src/modules/radarr.js:101-179 | after the request is built, the decision reads only the queue, search and create replies |
| Radarr.NoResultsSendsOnlyLookup | src/modules/radarr.js:94-99 | an empty lookup reports "No results found" with the query's name and year, and sends nothing after the lookup |
| Radarr.FailuresAreUnexpected | src/modules/radarr.js:44-186 | a failed lookup, a `null` body (which throws at `data.length`) and a first match without a string folder all end in the catch-all response after the lookup alone |
| Radarr.OnlyFirstCandidateMatters | src/modules/radarr.js:101 | candidates after the first never change the response or the calls |
| Radarr.QueuedTitleIsSkipped | src/modules/radarr.js:105-111 | a truthy id that the queue reports as downloading or importing gives the queue message about the match, and sends no search and no create |
| Radarr.TrackedTitleOutcome | src/modules/radarr.js:114-166 | for a tracked title the queue does not hold, the message is chosen by availability, then `movieFileId !== 0`, then the force flag; the forced case sends exactly one search for `[id]`, and status 201 gives "Movie is downloading now" while any other status gives "An error has occurred" |
| Radarr.TrackedTitleNeverCreated | src/modules/radarr.js:114-166 | a tracked title is never reported as a success and never sent for creation |
| Radarr.ZeroIdSkipsQueueButIsTracked | src/modules/radarr.js:105-114 | `id = 0` skips the queue check, yet is still treated as tracked: no success and no create |
| Radarr.MissingFileIdCountsAsFile | src/modules/radarr.js:116-122 | a tracked, released match without `movieFileId` reports "already exists, doing nothing" |
| Radarr.ForcedFlagLeavesNoIdleOutcome | src/modules/radarr.js:115-123 | with a truthy force flag, as every constructed controller has, "exists, but isn't downloaded" never appears |
| Radarr.ForcedDecideNeverIdle | src/modules/radarr.js:105-166 | the same, from the queue check on |
| Radarr.ForcedExistingNeverIdle | src/modules/radarr.js:119-161 | the same, within the tracked-title branch |
| Radarr.UntrackedTitleCreatedOnce | src/modules/radarr.js:168-179 | an untracked match sends exactly one create with the built request; 201 reports "Movie added and downloading", another status reports "Error adding movie" with the body as errors, and a rejection or unreadable body is the catch-all |
| Radarr.SuccessMeansCreated | src/modules/radarr.js:170-174 | success is reported exactly when an untracked first match was created with status 201 |
| Radarr.ExistingWithFileIsStable | src/modules/radarr.js:121-122 | for a tracked, released title with a file, the answer depends on neither POST reply, and no search or create is sent |
| Radarr.RadarrController.constructor | src/modules/radarr.js:7-32 | the URL ends with `/api/v3`; the profile id defaults to 1; the force flag is `configured \|\| true` and so always truthy; the root folder is normalised and has no trailing `/` |
| Radarr.RadarrController.Add | src/modules/radarr.js:87-187 | the statement-by-statement `add` computes exactly the reference decision, response and calls, for the controller's flag and request builder |
| Radarr.RadarrController.BulkAdd | src/modules/radarr.js:189-197 | one response per movie in input order, each that of `add(movie.title, movie.year)`; the calls are each movie's calls, movie after movie |
| Series.SeriesAdd | src/modules/sonarr.js:57-94 | a series `add` reports one of the series messages, never checks the queue or searches, and sends either the lookup alone or the lookup and one create of an untracked built request |
| Series.NoResultsSendsOnlyLookup | modules/sonarr.js:21-23 | an empty or `null` lookup reports "No results found" with the query's name and year, and sends no POST |
| Series.FailuresAreUnexpected | classes/sonarr.js:53-56 | a failed lookup or a throwing builder gives the catch-all response after the lookup alone, and a rejected create is never a success (its full response is stated by `Series.UntrackedTitleCreatedOnce`) |
| Series.OnlyFirstCandidateMatters | src/modules/sonarr.js:67 | candidates after the first never change the response or the calls |
| Series.TrackedTitleIsSkipped | src/modules/sonarr.js:69-73 | a tracked match reports "Series already exists" with the match's title, year and ids, and nothing is sent after the lookup |
| Series.UntrackedTitleCreatedOnce | src/modules/sonarr.js:75-86 | an untracked match sends exactly one create; 201 reports "Series added", another status reports "Error adding series" with the body as errors, and a rejection or unreadable error body is the catch-all |
| Series.SuccessMeansCreated | src/modules/sonarr.js:77-81 | success is reported exactly when an untracked first match was created with status 201 |
| Series.BulkAdd | src/modules/sonarr.js:96-104 | one response per item, in input order, each that of `add(item.seriesName, item.seriesYear)` |
| Sonarr.PolicyFields | src/modules/sonarr.js:122-132 | the policy keys: the controller's language and quality profile ids, season folders, monitored, released, the add options, and the path under the root folder |
| Sonarr.BuildRequest | src/modules/sonarr.js:118-134 | a request exists exactly when the match has a string `folder`; it keeps every other field of the match and sets the policy keys |
| Sonarr.SonarrController.constructor | src/modules/sonarr.js:7-30 | the URL ends with `/api/v3`; the quality profile defaults to 1 and the language profile is 1; the root folder has no trailing `/` |
| Sonarr.SonarrController.Add | src/modules/sonarr.js:32-94 | an empty lookup gives "No results found" with the query; a failed or `null` lookup gives the catch-all; no queue check or search; otherwise it sends the lookup alone or one create of the untracked request built from the first match |
| Sonarr.SonarrController.BulkAdd | src/modules/sonarr.js:96-104 | one response per item, in input order, each that of the controller's `add` |
| ClassesRadarr.BuildRequest | classes/radarr.js:90-104 | the request keeps the match's other fields, sets profile 3 twice, monitored and released, and a path of `/mnt/Movies/` followed by the folder's text |
| ClassesRadarr.LegacyMovieAdd | classes/radarr.js:20-67 | every legacy `add` starts with the lookup and reports one of its messages |
| ClassesRadarr.LegacyDecide | classes/radarr.js:30-61 | the decision after the lookup sends at most one more call |
| ClassesRadarr.LegacyExisting | classes/radarr.js:30-52 | the tracked branch sends at most one call, and that call is the search for `[id]` |
| ClassesRadarr.LegacyCreate | classes/radarr.js:54-61 | the create branch sends exactly one call |
| ClassesRadarr.Add | classes/radarr.js:20-67 | the statement-by-statement `add` computes exactly the reference decision, with the force flag read from the environment |
| ClassesRadarr.BulkAdd | classes/radarr.js:69-76 | one response per movie in input order, each that of `add(movie.title, movie.year)`; the calls are each movie's calls in order |
| ClassesRadarr.AddReachesDecide | classes/radarr.js:22-28 | with candidates, the decision is taken on the request built from the first |
| ClassesRadarr.NoResultsSendsOnlyLookup | classes/radarr.js:24-26 | an empty or `null` lookup reports "No results found" with the query, and sends nothing else |
| ClassesRadarr.NeverChecksQueue | classes/radarr.js:20-52 | the legacy controller never asks for the queue |
| ClassesRadarr.SearchExactlyWhenWanted | classes/radarr.js:32-48 | a search is sent exactly when the first match is tracked, has no file, is available and the environment flag is `'true'`; it is the only search and is for `[id]` |
| ClassesRadarr.SearchReplyIgnored | classes/radarr.js:33-51 | the forcing message does not depend on the search's status or body |
| ClassesRadarr.TrackedTitleNeverCreated | classes/radarr.js:30-52 | a tracked title is never sent for creation and never reported as a success |
| ClassesRadarr.SuccessMeansCreated | classes/radarr.js:54-58 | success is reported exactly when an untracked first match was created with status 201 |
| ClassesRadarr.UntrackedTitleCreatedOnce | classes/radarr.js:54-61 | an untracked match sends exactly one create; 201 reports "Movie added", another status "Error adding movie" with the body, and a rejection or unreadable error body is the catch-all |
| ClassesRadarr.RejectedSearchIsUnexpected | classes/radarr.js:34-66 | a wanted search whose `fetch` is rejected gives the catch-all response, after the lookup and the search |
| ClassesSonarr.Request | classes/sonarr.js:25-38 | the inline request keeps the match's other fields, sets language profile 1, quality profile 3, season folders and monitored, and a path of `/mnt/TV_Shows/` followed by the folder's text |
| ClassesSonarr.Add | classes/sonarr.js:17-57 | an empty or `null` lookup gives "No results found"; no queue check or search; only the lookup, or the lookup and one create of an untracked request |
| ClassesSonarr.MatchIsCreatedOrTracked | classes/sonarr.js:25-51 | with a match, the title is either reported as existing (tracked) or sent for creation; building never drops it |
| ClassesSonarr.BulkAdd | classes/sonarr.js:59-72 | one response per item, in input order, each that of `add(item.seriesName, item.seriesYear)` |
| ModulesSonarr.PolicyFields | modules/sonarr.js:70-80 | the profile ids are the environment's text (or `undefined`), and the path is `/mnt/TV_Shows/` followed by the folder |
| ModulesSonarr.BuildRequest | modules/sonarr.js:67-82 | the request keeps the match's other fields, takes both profile ids from the environment, and places the folder's text under `/mnt/TV_Shows/` |
| ModulesSonarr.Add | modules/sonarr.js:17-44 | an empty or `null` lookup gives "No results found"; no queue check or search; only the lookup, or the lookup and one create of an untracked request |
| ModulesSonarr.UnsetProfilesStillSent | modules/sonarr.js:67-82 | without the profile variables the create is still sent, with both profile ids `undefined` |
| ModulesSonarr.BulkAdd | modules/sonarr.js:46-53 | one response per item, in input order, each that of `add(item.seriesName, item.seriesYear)` |
| Config.Defaults | src/config/config.js:16-34 | the defaults have the three sections, quality profile 3 for both services, forced search on, logging on, the local URLs, and empty API keys and root folders |
| Config.At | src/config/config.js:92-98 | reading a key a section lacks gives `undefined` |
| Config.Put | src/config/config.js:74-80 | after `set(p, v)`, `get(p)` is `v` and every other two-level path reads as before |
| Config.ParseValue | src/config/config.js:82-90 | `'true'` and `'false'` become exactly the booleans; any other result is a number or the string itself |
| Config.TrimUnchanged | src/config/config.js:86 | a string without surrounding white space is its own trim |
| Config.ParseValueOfDecimal | src/config/config.js:86-87 | a decimal integer string becomes its number |
| Config.ParseValueOfDisplay | src/config/config.js:82-90 | a boolean or an integer reads back as itself from its text |
| Config.TextStaysText | src/config/config.js:89 | a string holding an ASCII character that no JavaScript numeric string can hold (not a digit, sign, white space, `.`, exponent or radix letter, hex letter or letter of `Infinity`) stays the same string |
| Config.NonDecimalStaysText | src/config/config.js:89 | a string (other than `true`/`false`) holding a character that is not a digit, a sign or white space is no decimal literal and stays the same string |
| Config.Load | src/config/config.js:56-72 | loading keeps the store's sections |
| Config.LoadLastRow | src/config/config.js:57-62 | the last row sets a path only when it maps that path and its key is defined |
| Config.LoadUnmapped | src/config/config.js:56-72 | loading keeps the value of every path no row maps |
| Config.LoadMapped | src/config/config.js:56-72 | a mapped path takes the parsed source value when its key (lower-cased for arguments) is defined, and keeps its value otherwise |
| Config.EnvMappingPathsDistinct | src/config/config.js:37-48 | no two rows of the mapping set the same path |
| Config.Emitted | src/config/config.js:129-131 | only rows of the mapping whose value is shown are emitted |
| Config.EmittedStep | src/config/config.js:129-134 | one more row extends the emitted rows by that row exactly when its value is neither undefined nor empty |
| Config.EmittedComplete | src/config/config.js:129-134 | every row whose value is shown is emitted |
| Config.EmittedAppend | src/config/config.js:129-134 | the emitted rows keep mapping order: the filter distributes over concatenation |
| Config.EscapeQuotes | src/config/config.js:150 | escaping never shortens text and leaves text without `"` unchanged |
| Config.UnescapeEscapeQuotes | src/config/config.js:150 | escaping double quotes loses nothing: unescaping gives the text back |
| Config.FormatValue | src/config/config.js:146-154 | a string without space, backslash or quote is emitted as is, any other string is wrapped in quotes, and a boolean becomes `true`/`false` |
| Config.FormatValueRoundTrip | src/config/config.js:146-154 | the quoting rule is unambiguous: every string value is read back from its formatted text |
| Config.Args | src/config/config.js:140-157 | one `--key=value` argument per emitted row, in order |
| Config.FindKeyFirst | src/config/config.js:105-107 | the lookup of a path's key finds the first row with that path |
| Config.FindKeyAbsent | src/config/config.js:105-107 | the lookup finds nothing for a path no row has |
| Config.FalsyPaths | src/config/config.js:102-104 | at most one report per required path |
| Config.FalsyPathsSound | src/config/config.js:102-104 | only required paths whose value is falsy are reported |
| Config.FalsyPathsComplete | src/config/config.js:102-104 | every required path whose value is falsy is reported |
| Config.FalsyPathsAppend | src/config/config.js:102-113 | the report keeps table order: it distributes over concatenation |
| Config.FalsyPathsSnoc | src/config/config.js:102-113 | one more path grows the report by that path exactly when its value is falsy |
| Config.FalsyPathsOfService | src/config/config.js:102-113 | for a service whose URL is set and whose key and folder are not, exactly the key and folder are reported |
| Config.FalsyPathsOfSix | src/config/config.js:102-113 | the same for both services together, in table order |
| Config.OnlyKeysAndFoldersFalsy | src/config/config.js:102-113 | with both URLs set and no keys or folders, the report is the four API key and root folder paths, in table order |
| Config.Report | src/config/config.js:108-111 | one report entry per path, in order |
| Config.MissingEntryOfMapped | src/config/config.js:105-110 | a mapped path is reported under its dotted path and the key of its first row, or under the upper-cased `section_key` when that key is empty |
| Config.MissingEntryOfUnmapped | src/config/config.js:109-110 | an unmapped path is reported under its upper-cased `section_key` |
| Config.MissingEntryOfRow | src/config/config.js:105-110 | each mapping row's path is reported under that row's own key |
| Config.ReportOfFour | src/config/config.js:108-111 | the report entries of four paths are the four entries in order |
| Config.KeysAndFoldersRows | src/config/config.js:6-48 | the required API keys and root folders are rows 2, 4, 6 and 8 of the mapping |
| Config.KeysAndFoldersReport | src/config/config.js:105-111 | these four paths are reported as `sonarr.apiKey` (`SONARR_API_KEY`), `sonarr.rootFolder` (`SONARR_ROOT_FOLDER`), `radarr.apiKey` (`RADARR_API_KEY`) and `radarr.rootFolder` (`RADARR_ROOT_FOLDER`) |
| Config.DefaultsFalsyPaths | src/config/config.js:16-104 | with nothing configured, the falsy required paths are the two API keys and the two root folders |
| Config.DefaultsReport | src/config/config.js:100-114 | with nothing configured, `validateRequired` reports exactly those four paths with their environment keys, in table order |
| Config.TableSections | src/config/config.js:6-48 | both tables refer only to the three default sections |
| Config.Store.constructor | src/config/config.js:51-54 | a new store is the defaults with the environment loaded over them |
| Config.Store.Get | src/config/config.js:92-98 | reading a key the section lacks gives `undefined` |
| Config.Store.Set | src/config/config.js:74-80 | the store afterwards is `Put` of the old store: the path is set and nothing else changes |
| Config.Store.LoadFromEnv | src/config/config.js:56-63 | the store afterwards is the old one with every set environment variable's parsed value at its path |
| Config.Store.LoadFromArgs | src/config/config.js:65-72 | the same, for the arguments under lower-cased keys |
| Config.Store.LoadRows | src/config/config.js:57-62 | the loop over the rows computes `Load` of the old store |
| Config.Store.MissingRequired | src/config/config.js:100-114 | the missing list is exactly the report of the falsy required paths, in table order, with their keys |
| Config.Store.MissingOf | src/config/config.js:101-113 | the `missing.push` loop computes that report |
| Config.Store.ToEnvString | src/config/config.js:127-136 | one `KEY=value` line per shown mapping row, in mapping order, the whole trimmed |
| Config.Store.LinesOf | src/config/config.js:128-134 | the `output +=` loop computes the lines of the emitted rows |
| Config.Store.CommandArgs | src/config/config.js:139-158 | the argument list is one formatted argument per shown row, in mapping order |
| Config.Store.ArgsOf | src/config/config.js:140-157 | the `args.push` loop computes that list |
| Config.Store.ToNpxCommand | src/config/config.js:138-160 | `npx gptdarr` followed by the arguments joined by spaces |
| Config.Store.ToMCPFormat | src/config/config.js:162-192 | the server entry runs `npx gptdarr` with exactly the argument list the npx command joins |
| Utils.Without | modules/utils.js:18-20 | the listed keys are gone and every remaining key keeps its value |
| Utils.WithoutSnoc | modules/utils.js:18-20 | deleting one more listed key removes exactly that key |
| Utils.MarkerKeysNotRemoved | modules/utils.js:2-10 | neither `id` nor `inLibrary` is on the removal list |
| Utils.Strip | modules/utils.js:13-20 | the same properties as `Cleaned`, for any removal list that holds neither marker key |
| Utils.Cleaned | modules/utils.js:1-23 | no `id` and no listed key remains; with `id`, `inLibrary` is true; without `id`, exactly the listed keys are removed and `inLibrary` is neither added nor changed; every other key keeps its value |
| Utils.StripIdempotent | modules/utils.js:13-20 | stripping twice is stripping once |
| Utils.CleanedIdempotent | modules/utils.js:13-20 | cleaning a cleaned record changes nothing |
| Utils.Dict.constructor | modules/utils.js:1 | the object holds the given fields |
| Utils.DeleteAll | modules/utils.js:18-20 | the `delete` loop leaves the old fields without the listed keys |
| Utils.CleanObject | modules/utils.js:1-23 | the object is edited in place into `Cleaned` of its old fields, and the same object is returned |

## Left out

- Transport is left out: URLs, headers, the encoding of the lookup term, and the serialisation of POST bodies. `sendMovieToRadarr` and `sendSeriesToSonarr` appear only as a create call carrying the request record. Their `JSON.stringify` drops `undefined` fields; the model keeps them.
- Logging (`logger.*`, `console.*`) is left out, and the logger is assumed not to fail. Its file appends run inside `add`'s `try`, so a failing append would turn the outcome into the catch-all response.
- Lookup bodies other than a list of objects or `null` are left out, because the model has no such reply: a number, an object, or a list whose first element is not an object (e.g. `[null]`, where `lookupResult.folder` throws and the source answers "Unexpected error occurred").
- `process.exit` and `fs.existsSync` in the constructors become preconditions. The existence of the root folder is a parameter, `folderExists`.
- Radarr.RadarrController.constructor and Sonarr.SonarrController.constructor: the `TypeError`s these constructors throw are excluded by their preconditions. The cases are a root folder that is not a string, where `path.normalize` throws, and a truthy URL that is not a string, where `.endsWith` throws. For example, `RADARR_ROOT_FOLDER=""` loads as the number `0`, and the source's constructor then throws. The model does not capture a controller that fails to construct.
- The console output and exit of `validateRequired` are left out; only its missing list is modelled.
- Sonarr `bulkAdd` returns un-awaited promises that run concurrently. Only their values are modelled, so those `bulkAdd`s carry no trace and no interleaving.
- `toMCPFormat` builds JSON text. It is modelled as the `McpServer` value that text serialises.
- Number parsing: `parseValue` reads decimal integers with an optional sign, and empty or all-white-space text as `0`. Other numeric syntax (fractions, exponents, hex, `Infinity`) is not modelled and stays a string.
- Numbers are integers throughout: there is no floating point.
- `toLowerCase`, `toUpperCase` and `trim` are modelled on ASCII only.
- `path.normalize` and `path.join` are modelled as collapsing runs of `/` and joining with `/`. `.` and `..` segments, other platforms' separators and relative roots are not modelled.
- Configuration paths are exactly two levels deep. `get` and `set` on a section that does not exist (which throw in the source) are excluded by preconditions.
- `{ ...DEFAULT_CONFIG }` copies only the top level, so `set` also changes the shared default sections. With a single store this is not observable, and it is not modelled.
- The defaults' `logging.logPath` depends on the home directory. It is modelled as a parameter, `home`, and no property is stated about it.
- Config.ParseValue: its contract does not state which number a numeric string becomes. `Config.ParseValueOfDecimal` states that for decimal strings.
