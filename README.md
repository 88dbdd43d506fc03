# Translation façade: origin policy, translate route and daily audit log

This project models in Dafny the logic of a small Express service. The
service accepts `POST /translate` requests carrying Myanmar text and a target
language. It forwards each one to an external translation provider and
answers with an audit record. It also appends that record as one JSON line
to a log file named after the current date. Browser callers must come from a
fixed allow-list of origins.

The model has three parts.

- **Origin policy** (`origin_policy.dfy`, with `ascii.dfy`). This is the
  callback the CORS middleware consults. An absent or empty `Origin` header
  is allowed. A present one loses one trailing `/`, is lower-cased, and must
  then equal some lower-cased allow-list entry exactly.
- **Translate route** (`translate.dfy`). The handler is the method
  `TranslationService.Translate`. It authorizes (403), validates (400) and
  calls the provider once. A failure gives 500. On success it builds the
  record, issues one log append and answers 200. The part after validation
  is the method `Forward`. `Serve` puts the CORS check in front of the
  handler. The method's contract ties the response, the provider
  requests and the log appends to the functions `Respond`, `CallsMade` and
  `AppendsMade`. The promises of the source are proved about those
  functions.
- **Audit log** (`log_files.dfy`, `json.dfy`, `jsonl.dfy`).
  - `getLogFilePath` takes the date before the first `T` of the clock
    reading and names the file `logs/translations-<date>.jsonl`.
  - `JSON.stringify` of the record is modelled exactly, together with a
    reader for it.
  - The proofs show three things. A serialized record holds no newline.
    The reader inverts the serializer. A partition the route creates
    reads back, line by line, as exactly the records appended to it, in
    the order the appends were issued. A partition that already held
    newline-terminated lines keeps them in front.

The provider, the clock and the UUID generator are parameters of the
handler. A `ProviderReply` is the outcome of the HTTP call. `now` and
`later` are the two clock readings the handler makes: one for the record's
timestamp (index.js:73) and one inside `getLogFilePath` (index.js:49). `id`
is the generated request id. The bearer token is a constant of the service
object.

Some behaviour of index.js worth knowing:

- `!origin` also lets an empty `Origin` header through.
- A provider entry without `translatedText` does not throw at index.js:70.
  The route then answers 200 and logs a record whose `output` is omitted
  (`TranslateRoute.EntryWithoutTextAnswered`).
- `const { text, target } = req.body` (index.js:62) sits inside the `try`.
  If `req.body` were undefined, it would throw, and an authorized request
  would get 500 `Translation failed` with no provider request
  (`TranslateRoute.MissingBodyFails`). Under Express 4, `express.json()`
  always sets `req.body` to at least `{}`, so this branch is not reached
  there. Express 4 is also the version under which index.js starts at all:
  Express 5's router refuses the bare `'*'` path of `app.options('*', ...)`
  (index.js:38) at start-up.
- The clock is read twice. Near midnight a record can therefore land in the
  partition of the following date. `AppendsMade` proves that the record goes
  to its own date's partition when both readings share a date.

## Model

| member | source | states |
|---|---|---|
| `Ascii.LowerChar` | index.js:28-29 | `A`-`Z` move up by 32 to `a`-`z`, every other character is kept, and no result is an upper-case letter |
| `Ascii.ToLower` | index.js:28-29 | lower-casing keeps the length and maps each character through ASCII `LowerChar` |
| `Ascii.ToLowerIdempotent` | index.js:28-29 | lower-casing twice is lower-casing once |
| `Ascii.EqIgnoreCaseIff` | index.js:28-29 | two strings have equal lower-cased forms iff they have the same length and agree position by position up to ASCII case |
| `Ascii.EqIgnoreCaseSlash` | index.js:28-29 | adding one `/` to both strings does not change whether they are equal up to case |
| `Ascii.LowerCharSlash` | index.js:28-29 | only `/` lower-cases to `/` |
| `Ascii.ToLowerAppend` | index.js:28-29 | lower-casing distributes over concatenation |
| `OriginPolicy.StripOneTrailingSlash` | index.js:28 | `origin.replace(/\/$/, '')` removes exactly one final `/` when there is one and otherwise returns the input |
| `OriginPolicy.Normalize` | index.js:28 | the compared form has no upper-case letter and is one character shorter than the origin exactly when the origin ends in `/` |
| `OriginPolicy.Listed` | index.js:29 | only a form without upper-case letters can equal a lower-cased entry |
| `OriginPolicy.OriginAllowed` | index.js:26-33 | the callback's verdict: `None` and `""` are allowed (`AbsentOriginAllowed`); a non-empty origin is allowed iff it matches an entry up to case (`AllowedIff`) |
| `OriginPolicy.AbsentOriginAllowed` | index.js:27 | a request without an Origin header, or with an empty one, is allowed |
| `OriginPolicy.AllowedIff` | index.js:27-30 | a non-empty origin is allowed iff, up to letter case, it is some entry followed by `/` (when it ends in `/`) or some entry itself (when it does not) |
| `OriginPolicy.AllowedIffEntryOrSlash` | index.js:27-30 | with no entry ending in `/`, a non-empty origin is allowed iff, up to letter case, it is some entry or some entry followed by one `/` |
| `OriginPolicy.AllowedByEntry` | index.js:29-30 | naming a matching entry is enough to be allowed |
| `OriginPolicy.StripCommutesWithLower` | index.js:28 | stripping the slash and lower-casing commute |
| `OriginPolicy.CaseInsensitive` | index.js:28-29 | origins equal up to letter case get the same verdict |
| `OriginPolicy.TrailingSlashInsensitive` | index.js:28 | adding one `/` to an origin not ending in `/` does not change the verdict |
| `OriginPolicy.ExtensionDenied` | index.js:29 | matching is exact: an entry extended by anything but a single `/` is not admitted by that entry |
| `OriginPolicy.PrefixedDenied` | index.js:29 | matching is exact at the front too: text put before an entry not ending in `/` is not admitted by that entry |
| `OriginPolicy.DoubleSlashDenied` | index.js:28-29 | only one slash is stripped: with no entry ending in `/`, an origin ending in `//` is denied |
| `OriginPolicy.AllowedOriginsNoSlash` | index.js:13-18 | no entry of the fixed allow-list ends in `/` |
| `OriginPolicy.MixedCaseWithSlashAllowed` | index.js:13-30 | `HTTPS://YourDomain.com/` is allowed by the fixed list |
| `OriginPolicy.LookalikeDenied` | index.js:13-33 | `https://yourdomain.com.evil` is denied by the fixed list |
| `OriginPolicy.DoubleSlashOfEntryDenied` | index.js:13-33 | `https://yourdomain.com//` is denied by the fixed list |
| `Json.EscapeChar` | index.js:80 | QuoteJSONString for one character: plain characters are copied; quote, backslash and control characters become a backslash escape; no output contains a newline |
| `Json.EscapeString` | index.js:80 | an escaped string holds no newline, and a string with nothing to escape is unchanged |
| `Json.Quote` | index.js:80 | a JSON string literal holds no newline |
| `Json.Member` | index.js:80 | a `"key":"value"` member holds no newline when its separator and key hold none |
| `Json.MemberOfPlainKey` | index.js:80 | a member whose key needs no escape is the quoted key, `:`, the quoted value |
| `Json.RecordKeysPlain` | index.js:72-78 | the five record keys need no escape |
| `Json.Serialize` | index.js:72-80 | `JSON.stringify(record)` holds no newline |
| `Json.RecordLine` | index.js:80 | the appended data is newline-terminated and has no other newline |
| `Json.ReadEscapedString` | index.js:80 | reading an escaped string up to its closing quote gives the string and the rest back |
| `Json.ParseSerialize` | index.js:72-80 | reading a serialized record gives the record back, including an absent output |
| `Json.SerializeInjective` | index.js:72-80 | distinct records have distinct lines |
| `LogFiles.DatePrefix` | index.js:49 | `split('T')[0]` is a prefix without `T`, followed by a `T` unless it is the whole string |
| `LogFiles.DatePrefixUnique` | index.js:49 | those three properties determine the date prefix |
| `LogFiles.DateOfIsoTimestamp` | index.js:49 | for a `YYYY-MM-DDTHH:mm:ss.sssZ` timestamp the date is its first ten characters |
| `LogFiles.LogFileName` | index.js:49-52 | `translations-<date>.jsonl`; the date is recovered from it (`DateOfLogFileNameInverts`) and two readings give the same name iff they share the date (`SamePartitionIff`) |
| `LogFiles.LogFilePath` | index.js:50-52 | the partition lies in the `logs` directory |
| `LogFiles.DateOfLogFileName` | index.js:52 | a name recognised as a partition is `translations-` + date + `.jsonl` |
| `LogFiles.DateOfLogFileNameInverts` | index.js:52 | the date is recovered from the file name |
| `LogFiles.SamePartitionIff` | index.js:48-53 | two clock readings name the same file iff they share the date part |
| `LogFiles.IsoLogFileName` | index.js:48-53 | for an ISO timestamp the path is `logs` / `translations-YYYY-MM-DD.jsonl` |
| `JsonLines.Content` | index.js:80 | the text the appends of the log leave in one partition, starting from an absent file; it is newline-terminated and its lines are the appended records (`PartitionLines`) |
| `JsonLines.SplitAtNewline` | index.js:80 | text made of a newline-free line, `\n` and a rest splits into exactly that line and that rest |
| `JsonLines.TerminatedSplit` | index.js:80 | non-empty newline-terminated text is its first line, `\n` and a newline-terminated rest |
| `JsonLines.LinesAppend` | index.js:80 | appending text to a newline-terminated file adds exactly the lines of that text |
| `JsonLines.OneLine` | index.js:80 | a newline-free line with its `\n` reads as that one line |
| `JsonLines.AppendLine` | index.js:80 | appending a newline-free line and its `\n` to a newline-terminated file keeps it terminated and adds that one line |
| `JsonLines.PartitionLines` | index.js:80-82 | after record appends, a partition is newline-terminated and its lines are the serialized records appended to it |
| `JsonLines.DecodeSerializeAll` | index.js:80 | serialized records read back as those records |
| `JsonLines.DecodeLinesAppend` | index.js:80 | two runs of lines that each read back read back together as both runs of records |
| `JsonLines.PartitionFrom` | index.js:80 | a partition that already held newline-terminated text keeps its lines, followed by the serialized records appended to it |
| `JsonLines.PartitionDecodesFrom` | index.js:80 | a partition that already held the lines of some records reads back as those records followed by the ones appended to it |
| `JsonLines.PartitionDecodes` | index.js:80-82 | a partition reads back as exactly the records appended to it, in the order the appends were issued |
| `TranslateRoute.CorsRejection` | index.js:32 | the CORS error gives status 500 with the CORS message, distinct from the handler's `Translation failed` |
| `TranslateRoute.Authorized` | index.js:58 | the bearer check; it passes iff the header is exactly `Bearer <token>` (`AuthorizedIff`) |
| `TranslateRoute.HasInput` | index.js:62-63 | a body was parsed and both fields are non-empty; without it the answer is 400, or 500 without a body (`Respond`) |
| `TranslateRoute.AuthorizedIff` | index.js:57-59 | the request is authorized iff the header is exactly `Bearer <token>` |
| `TranslateRoute.ReadTranslation` | index.js:70 | reading `translations[0].translatedText` fails iff there is no reply, no array or an empty one; otherwise it yields the first entry's property, possibly absent |
| `TranslateRoute.Respond` | index.js:55-89 | 403 `Unauthorized` iff unauthorized; 400 `Missing text or target` iff authorized with a body whose text or target is missing or empty; 500 `Translation failed` iff authorized and either no body was parsed or the provider result cannot be read; otherwise 200 with the record of `now`, `id`, the text, the provider's output and the target |
| `TranslateRoute.CallsMade` | index.js:57-68 | no provider request on a 403, on a 400 or when no body was parsed; otherwise exactly one, for the text and target with source `my`, and no retry |
| `TranslateRoute.AppendsMade` | index.js:70-84 | one append iff the answer is 200, of the answered record's line, to the partition of the second clock reading; none otherwise; never more appends than provider requests |
| `TranslateRoute.MyanmarToEnglish` | index.js:55-89 | `{text: "မင်္ဂလာပါ", target: "en"}` with the right token and provider text `Hello` gives the 200 record, one provider request and one log line |
| `TranslateRoute.MissingBodyFails` | index.js:56-87 | an authorized request without a parsed body gets 500 `Translation failed` and causes no provider request |
| `TranslateRoute.RecordCall` | index.js:65-78 | under the correspondence, each record names a provider request for that record's input and target, with source `my` |
| `TranslateRoute.CallsAscend` | index.js:65-78 | under the correspondence, later records come from strictly later provider requests, so no request is behind two records |
| `TranslateRoute.CallWithoutRecord` | index.js:65-87 | a provider request that ends in the generic failure keeps the correspondence |
| `TranslateRoute.CallWithRecord` | index.js:65-80 | a provider request followed by the record built from it extends the correspondence with that request |
| `TranslateRoute.EntryWithoutTextAnswered` | index.js:70-84 | a provider entry without `translatedText` gives 200 with an absent output |
| `TranslateRoute.TranslationService.constructor` | index.js:45 | a new service holds its token, with no provider requests, no log and no records |
| `TranslateRoute.TranslationService.Translate` | index.js:55-89 | the handler answers `Respond`, adds `CallsMade` to the provider requests and `AppendsMade` to the log, adds the answered record behind the new append, and ties it to the provider request just issued; it keeps every append a record line and every record tied to its own earlier provider request |
| `TranslateRoute.TranslationService.Forward` | index.js:65-84 | after validation: exactly one provider request for the text and target; an unreadable result gives the generic failure with nothing logged; otherwise the record of `now`, `id` and the provider's output is appended, as its line, to the partition of the second clock reading, and answered with 200 |
| `TranslateRoute.TranslationService.Serve` | index.js:25-33 | a denied origin is rejected by the error handler with no provider request and no change to the log or its records; an allowed one goes to the handler with the handler's full effect |
| `TranslateRoute.TranslationService.PartitionsReadBack` | index.js:80-82 | every partition of the service reads back as the records appended to it |

## Left out

- Express, cors-package and dotenv wiring is not modelled. This covers
  `app.use`, the request-logging middleware, `app.options` header echoing,
  `GET /health` and `app.listen` (index.js:1-11, 20-23, 34-43, 91-98). Only
  the CORS origin callback is modelled, in `Serve`. The CORS response
  headers are not modelled either.
- The axios request to the translation API (index.js:65-68) is replaced by
  the `ProviderReply` parameter. The API key and the URL are not modelled.
- `fs.existsSync` / `fs.mkdirSync` (index.js:51) are not modelled. The model
  does not capture a failing `mkdirSync`, which would throw after the
  provider call and turn the answer into a 500.
- `fs.appendFile` and its callback (index.js:80-82) are not modelled as I/O.
  The log is the sequence of append requests the service issues. An append
  that fails after the response is not modelled. Neither are concurrent
  requests or the atomicity of appends.
- JsonLines.PartitionDecodes: it, `PartitionLines` and `PartitionsReadBack`
  assume each partition is absent when the service starts. A file left by an
  earlier process on the same date is covered by `PartitionFrom` and
  `PartitionDecodesFrom` when it ends in a newline. A file ending in a
  partial line from a failed append is not covered: the first new line would
  merge with it.
- JsonLines.PartitionDecodes: the order it proves is the order in which the
  appends were issued. `fs.appendFile` is asynchronous, so the file holds
  that order only if the writes complete in the order they were issued.
- `uuidv4()` and `new Date()` are parameters. The model does not enforce
  that ids are UUID-shaped or that clock readings are ISO-shaped. It does
  not constrain the order of the two clock readings.
- Console output (index.js:21, 31, 81, 86) is diagnostics only and is not
  modelled.
- `toLowerCase` is modelled for ASCII letters only, not full Unicode case
  mapping.
- The token comes from `process.env` (index.js:45) in the source; the model
  takes it as a plain string. When the variable is unset, the source
  compares against the literal `Bearer undefined`. The model does not
  capture that.
- `req.body` is modelled as absent (undefined) or as an object. Under
  Express 4, the version index.js runs under, it is always an object, so the
  absent case is never reached. The model keeps it so that the handler's
  answer is defined for every request.
- Request body fields are modelled as absent or as strings. JSON numbers,
  booleans, objects and `null` in `text` or `target` are not modelled.
  Neither is a non-string `translatedText`.
- Strings are sequences of Unicode scalar values. So the lone UTF-16
  surrogates that `JSON.stringify` would escape as `\udxxx` cannot occur.
- The log path is modelled relative to the program's directory, as the pair
  (`logs`, file name). The `__dirname` part of `path.join` is not modelled.
  `IsIsoTimestamp` covers only years 0 to 9999. `DatePrefix` is general.
- A CORS denial goes to Express's default error handler. Its response is
  modelled as status 500 with the error message, not as the error page
  itself.
