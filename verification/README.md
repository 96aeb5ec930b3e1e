# Repository-aggregation service: query builder, error mapper and log-level parser

This project models in Dafny the three pieces of pure logic in a small Go service. The service lists recently created public repositories from a code-hosting API.

- **Search-query builder** (`SearchQuery.ToGithubQuery`, model/query.go). It turns the optional `owner`, `license` and `language` filters, plus a "public only" flag, into the hosting API's search syntax. The flag writes `is:public`, and each non-empty field writes one `key:value` qualifier. Every qualifier, `is:public` included, is written with `strings.Builder.WriteString` followed by one space. The written text is then trimmed with `strings.TrimSpace`.
- **Error mapper** (`NewAPIError`, model/errors.go). It maps an internal error reason to the `{code, message}` record the API returns.
- **Log-level parser** (`StringToLogrusLogType`, logger/logger.go). It lower-cases the configured level name and picks one of four logrus levels. Any other name falls back to the error level.

Modules:

- `GoStrings` (go_strings.dfy) models the library string operations the Go code calls.
  - `unicode.IsSpace` is modelled exactly. It covers the Latin-1 spaces and the Unicode White_Space runes above them.
  - `strings.TrimSpace` (model/query.go) is modelled with its two halves, the left trim and the right trim.
  - `strings.ToLower` (logger/logger.go) is modelled per rune.
  - `HasPrefix`, `Contains` and `Join` are not called by the Go code. They are helpers for stating properties of the results, with the meaning of the Go functions of the same name.
  - A Go string is modelled as its sequence of runes.
- `Query` (query.dfy) holds the search filter and the builder. The builder is modelled write by write. It is paired with a reference definition: the list of present qualifiers joined by single spaces.
- `Errors` (errors.dfy) holds the error record and the switch on the reason, as Go runs it. Go cases do not fall through. It also holds the grouped-case variant that was evidently intended (see Findings).
- `Logger` (logger.dfy) holds the logrus level enumeration (all seven levels) and the parser.

## Model

| member | source | states |
|---|---|---|
| GoStrings.IsSpace | model/query.go:30 | no contract of its own: it lists exactly the runes Go's `unicode.IsSpace` accepts, the white space `strings.TrimSpace` removes; `TrimSpace` and the lemmas below are stated in terms of it |
| GoStrings.TrimSpace | model/query.go:30 | the result is what is left of the input between an all-white-space prefix and an all-white-space suffix, and it neither starts nor ends with white space |
| GoStrings.TrimSpaceIdempotent | model/query.go:30 | trimming an already trimmed string changes nothing |
| GoStrings.TrimSpaceFixesExactlyTrimmed | model/query.go:30 | trimming leaves a string unchanged if and only if it has no white space at either end |
| GoStrings.TrimSpaceEmptyIffAllSpace | model/query.go:30 | trimming yields the empty string if and only if the input is all white space |
| GoStrings.TrimSpaceKeepsPrefix | model/query.go:14-16 | a leading qualifier with no white space at its ends survives trimming as a prefix, whatever follows it |
| GoStrings.ToLower | logger/logger.go:25 | lower-casing keeps the length and maps every rune separately |
| GoStrings.ToLowerIdempotent | logger/logger.go:25 | lower-casing twice is the same as lower-casing once |
| GoStrings.JoinContainsEach | model/query.go:18-28 | every joined qualifier occurs as a contiguous part of the joined text |
| Query.ToGithubQuery | model/query.go:11-31 | the query has no white space at either end; it starts with `is:public` whenever public repositories are requested; it is empty if and only if the flag is off and all three fields are empty |
| Query.WriteQualifier | model/query.go:18-28 | no contract of its own: one conditional `WriteString(key + value + " ")`, written only when the value is non-empty; `Query.WriteMatchesAdd` states what each write adds |
| Query.BuilderContents | model/query.go:12-28 | the builder's text before trimming is empty if and only if the flag is off and all three fields are empty; otherwise it starts with a non-space rune and ends in the space written after the last qualifier |
| Query.WriteMatchesAdd | model/query.go:18-28 | if the text written so far is the qualifiers so far, each followed by one space, then one more conditional write keeps it so, adding the new qualifier exactly when its value is non-empty |
| Query.BuilderIsSpaceTerminatedFragments | model/query.go:12-28 | the builder's text before trimming is exactly the present qualifiers in write order, each followed by one space |
| Query.QueryIsJoinedFragments | model/query.go:11-31 | for every input, the query equals the present qualifiers joined by single spaces, with trailing white space (from the last field value) removed |
| Query.CleanQueryIsJoinedFragments | model/query.go:11-31 | when no field value ends in white space, the query is exactly the present qualifiers joined by single spaces |
| Query.FragmentPresence | model/query.go:14-28 | `is:public` is present if and only if requested; `owner:`+owner, `license:`+license and `language:`+language are each present if and only if that field is non-empty |
| Query.FragmentsInWriteOrder | model/query.go:14-28 | the qualifiers always come in the order is:public, owner, license, language, each at most once |
| Query.FragmentCount | model/query.go:14-28 | the number of qualifiers is the flag plus the number of non-empty fields |
| Query.QueryTrimIdempotent | model/query.go:30 | trimming the finished query again changes nothing |
| Query.EmptyQuery | model/query.go:14-30 | with the flag off and all fields empty, the query is the empty string |
| Query.QualifiersAppearVerbatim | model/query.go:15-27 | with field values that do not end in white space, each requested qualifier appears verbatim in the query |
| Query.FullQueryVerbatim | model/query.go:15-30 | with the flag on and three non-empty values that do not end in white space, the query is exactly `is:public owner:O license:L language:G`; values are not escaped |
| Errors.ReasonSwitch | model/errors.go:9-29 | the switch without fall-through: control leaves it if and only if the reason is `RATE_LIMITER_ERROR` or `INVALID_DATA_FOUND` (empty case bodies); every case that returns echoes the reason as the code, and only `RATE_LIMIT_REACHED` returns the rate-limit message |
| Errors.NewAPIError | model/errors.go:8-35 | `RATE_LIMIT_REACHED` keeps its code and gets the rate-limit message; `RATE_LIMITER_ERROR` and `INVALID_DATA_FOUND` get code `GENERIC_ERROR`; every other reason, `FETCH_ERROR` included, is echoed as the code; all but the rate-limit reason get the internal-server-error message |
| Errors.CodeIsReasonOrGeneric | model/errors.go:9-34 | the code is always the reason string or `GENERIC_ERROR` |
| Errors.GenericCodeExactly | model/errors.go:16-17 | the code is `GENERIC_ERROR` if and only if the reason is one of the two empty cases or is the string `GENERIC_ERROR` itself |
| Errors.MessageIsInternalUnlessRateLimited | model/errors.go:13-33 | the message is the rate-limit text if and only if the reason is `RATE_LIMIT_REACHED`; otherwise it is the internal-server-error text |
| Errors.ReasonRecoverableFromCode | model/errors.go:18-28 | whenever the code is not `GENERIC_ERROR`, it equals the reason |
| Errors.NewAPIErrorGrouped | model/errors.go:16-22 | with the three internal reasons grouped in one case list, every reason is reported as its own code, with the same messages as before |
| Errors.WrittenDiffersFromGroupedOnEmptyCases | model/errors.go:16-18 | the written and grouped mappings differ if and only if the reason is `RATE_LIMITER_ERROR` or `INVALID_DATA_FOUND` |
| Errors.InvalidDataLosesItsCode | model/errors.go:17 | as written, an `INVALID_DATA_FOUND` error is reported as `GENERIC_ERROR`; with the grouped case it keeps its code |
| Logger.StringToLogrusLogType | logger/logger.go:24-38 | the result is always one of error, warn, info and debug; any result other than error is the level whose name is the lower-cased input; "warn", "info" and "debug" (after lower-casing) select their levels |
| Logger.ParsesLevelName | logger/logger.go:27-34 | "error", "warn", "info" and "debug" parse to Error, Warn, Info and Debug |
| Logger.ErrorIsTheFallback | logger/logger.go:35-36 | the error level is chosen if and only if the lower-cased input is not "warn", "info" or "debug" |
| Logger.CaseInsensitive | logger/logger.go:25 | an input parses to the same level as its lower-case form |
| Logger.UpperCaseSpellings | logger/logger.go:25-34 | "DEBUG", "Warn", "İNFO" (dotted capital I) and "ERROR" select debug, warn, info and error |
| Logger.UnknownNamesSelectError | logger/logger.go:35-36 | "", "warning", "trace" and "panic" select the error level |
| Logger.DefaultLevelIsDebug | config/config.go:79 | the default configured level "debug" selects the debug level |

## Left out

- service/github_service.go: the search call, the `time.Now` formatting and the printing are network and console I/O with no logic to state.
- The concurrent language-enrichment engine, its rate-limit admission (`AllowN`) and its order-preserving merge: their implementation is not in the modelled files. service/github_service_test.go only describes them.
- The token-bucket rate limiter belongs to a third-party library. Its seeding in main.go is startup I/O.
- main.go: HTTP server, CORS, signal handling and shutdown.
- config/config.go: `Load` reads the filesystem through a third-party loader. Only the default level literal "debug" is used, in `DefaultLevelIsDebug`.
- controller/api_controller.go: HTTP glue that only prints.
- model/repository.go and model/github.go: plain struct declarations with no behaviour.
- `logger.Setup`: sets the process-wide logrus formatter and level (global mutable state).
- Errors.NewAPIError: Go passes an `error` value and reads its `Error()` string. The model takes that string directly. A nil `error` makes the Go code panic, and that case is not modelled.
- GoStrings.ToLower: covers only the runes whose lower-case form is ASCII: `A`–`Z`, U+0130 (→ `i`) and U+212A KELVIN SIGN (→ `k`). All other runes are left unchanged, where Go would lower-case letters such as `É`. This cannot change a comparison with an ASCII level name, because no other rune lower-cases to an ASCII letter.
- Go strings are byte sequences that may hold invalid UTF-8. The model works on sequences of Unicode scalar values, so Go's replacement of invalid bytes is not modelled.

## Findings

| source | as written | input that shows it | evidently intended | confidence | as-written member | corrected member |
|---|---|---|---|---|---|---|
| model/errors.go:16-17 | `case "RATE_LIMITER_ERROR":` and `case "INVALID_DATA_FOUND":` have empty bodies. Go does not fall through, so both leave the switch and return code `GENERIC_ERROR`. | reason `INVALID_DATA_FOUND` gives code `GENERIC_ERROR` | the three internal reasons share the `FETCH_ERROR` body (one case list), so the code is the reason, as the message "contact our support with the reason code" expects | medium; not executed | Errors.NewAPIError (witness: Errors.InvalidDataLosesItsCode) | Errors.NewAPIErrorGrouped (agreement elsewhere: Errors.WrittenDiffersFromGroupedOnEmptyCases) |
