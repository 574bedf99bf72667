# curl2json-demo in Dafny

This project models the core of curl2json-demo, a web tool that turns a pasted `curl` command into an HTTP request, sends it and lets the user filter the JSON response and show it as a table. The model covers four parts.

- **The curl interpreter**:
  - `Tokenizer`: the scanner.
  - `CurlParser`: the flag dispatch loop over a request draft, and the resolution of body, Content-Type, method, `-G` query folding and `Basic` authorization.
  - `CurlProperties`: what the dispatch loop computes, stated field by field, plus the resolution rules.
- **The request sender** (`RequestSender`):
  - the fetch call that is made: body, headers, credentials mode and proxy rewrite;
  - the result envelope: 1,048,576-character truncation, JSON/non-JSON classification and error mapping.
- **Key extraction** (`JsonKeys`): every dotted key path of a JSON value, deduplicated and sorted by depth; and the context of the cursor in a JMESPath expression.
- **The application store** (`AppStore`): the three-step wizard as a class with the store's fields, its setters, bounded step navigation, reset, and the derived `hasData`, `filteredArray` and `canGoNext`.

`Text`, `Encoding`, `JsonValues` and `Wrappers` model what the core borrows from JavaScript:
- `String.prototype.trim`, `\s`, `indexOf` and `lastIndexOf`;
- `encodeURIComponent`, UTF-8, and base64 (section 4 of RFC 4648, with a decoder and a round-trip proof);
- JSON values.

The imperative code of the source is modelled as methods, each proved equal to a specification function:
- `Tokenize`, `ParseCurl`, `SendCurlRequest`, `Traverse` and `ContextFromExpression`;
- the loop bodies `DispatchToken` and `ScanQuoted`;
- `BuildForm`, the whole `forEach` that fills the `FormData`.

The properties are then proved about those functions. The store is a `class` whose methods state its whole new state.

Library calls are parameters:
- `JSON.parse`, `JSON.stringify`, `URLSearchParams`, `new URL` and the JMESPath search are fields of `CurlParser.Host` or arguments;
- `localeCompare` is an abstract comparison `lc`;
- the network is the `FetchOutcome` datatype: timeout, failure, response with status and text, or a failed read of the body.

Behaviour of the code worth noting:
- **POST default.** The method defaults to POST when no token anywhere equals `-X` or `--request`, even one consumed as another option's argument.
- **`--opt=val`.** It gives the two tokens `--opt` and `=val`.
- **Password.** The password is the text between the first and the second `:` of the `-u` argument, not everything after the first `:`.
- **Empty headers count as absent.** Cookies are included only for a non-empty Cookie header. An empty `Authorization` or `Content-Type` header is replaced by the default, because the code uses `||`.
- **Case of `curl`.** The leading token must be exactly `curl`; the case-insensitive check belongs to a caller that is not part of this model.
- **Truncation unit.** The truncation limit counts characters of the response text, not bytes.
- **Empty data.** Raw data is passed to the JSON parser even when it is empty. A body of `""` therefore stays a string body and still makes the method POST.

## Model

| member | source | states |
|---|---|---|
| Text.Trim | src/utils/curlParser.js:80 | the result is an infix of the input with only whitespace removed before and after it, and it neither starts nor ends with whitespace |
| Text.IndexOf | src/utils/curlParser.js:103 | -1 exactly when the character is absent; otherwise a position holding it with no earlier occurrence |
| Text.LastIndexOf | src/utils/jsonKeyExtractor.js:48 | -1 exactly when the character is absent; otherwise a position holding it with no later occurrence |
| Text.AsciiUpper | src/utils/curlParser.js:98 | same length; each lower-case ASCII letter is upper-cased and every other character is kept |
| Tokenizer.Tokenize | src/utils/curlParser.js:1-77 | the index-driven scanner returns exactly the token list `Lex` specifies for its input |
| Tokenizer.ScanFlag | src/utils/curlParser.js:15-24 | a flag token runs from its `-` up to the first whitespace or `=` (or the end), and the index stops there |
| Tokenizer.ScanBuffer | src/utils/curlParser.js:26-74 | a quoted or unquoted buffer is read and pushed only when non-empty, in agreement with `Lex` |
| Tokenizer.ScanQuoted | src/utils/curlParser.js:34-67 | the buffer and the stopping index are the text and the remaining input of `Quoted`: escapes decoded, stopping after the closing quote or at the end |
| Tokenizer.QuotedStep | src/utils/curlParser.js:36-67 | one turn inside quotes: an escape pair gives its character, the matching quote closes, any other character is kept |
| Tokenizer.ScanWord | src/utils/curlParser.js:68-72 | an unquoted word runs to the first whitespace or the end |
| Tokenizer.LexTokensNonEmpty | src/utils/curlParser.js:74 | no token is empty: `""` and `''` produce no token |
| Tokenizer.LexLeadingSpace | src/utils/curlParser.js:8-12 | whitespace before the tokens is discarded |
| Tokenizer.LexWord | src/utils/curlParser.js:14-73 | a word without whitespace (and without `=` if it is a flag) followed by whitespace or the end is exactly one token |
| Tokenizer.LexFlagThen | src/utils/curlParser.js:14-24 | a flag without `=` followed directly by `=` is one token that stops before the `=` |
| Tokenizer.LexFlagWithValue | src/utils/curlParser.js:18-22 | `--opt=val` yields the two tokens `--opt` and `=val` |
| Tokenizer.QuotedOfEscapePrefix | src/utils/curlParser.js:34-67 | inside quotes, an escaped string reads back as itself, followed by whatever the text after it reads as |
| Tokenizer.QuotedOfEscape | src/utils/curlParser.js:37-65 | a string written with the escapes `\n`, `\t`, `\r`, `\\` and backslash-quote reads back, up to its closing quote, as itself |
| Tokenizer.LexQuotedRoundTrip | src/utils/curlParser.js:28-74 | a quoted, escaped string is one token holding exactly the string, or no token when the string is empty |
| Tokenizer.LexUnterminatedQuote | src/utils/curlParser.js:34-67 | an unterminated quote around text with no backslash and no quote is one token holding that text, raw control characters included |
| Tokenizer.LexUnterminatedEscaped | src/utils/curlParser.js:34-67 | an unterminated quote around any escaped string reads back that string as the last token (none when it is empty) |
| Tokenizer.LexTrailingBackslash | src/utils/curlParser.js:37-40 | a backslash that is the last character of an unterminated quote is kept as it is, since no character follows it to escape |
| CurlParser.NextPos | src/utils/curlParser.js:94-169 | each turn of the dispatch loop advances the cursor by one or two tokens |
| CurlParser.WithDefault | src/utils/curlParser.js:179 | a header default: a non-empty value already there is kept, otherwise `v` is set; no other key changes |
| CurlParser.ResolveBody | src/utils/curlParser.js:174-187 | the resolved body is the form list exactly when the last body option was `-F` |
| CurlParser.ParseCurl | src/utils/curlParser.js:79-209 | the parser returns `ParseCurlSpec`: trim, tokenize, the two prefix errors, the dispatch loop from token 1, then resolution |
| CurlParser.DispatchToken | src/utils/curlParser.js:94-169 | one turn of the loop moves the cursor as `NextPos` says and updates the draft as `Step` says |
| CurlParser.HeaderOption | src/utils/curlParser.js:100-159 | `-H`, `-A`, `-e` and `-b` write their header as `Step` says |
| CurlParser.ValueOption | src/utils/curlParser.js:96-163 | `-X`, the data options, `-F` and `-u` update the draft as `Step` says |
| CurlParser.HeaderArgument | src/utils/curlParser.js:102-108 | the `-H` argument is split at its first `:` with both halves trimmed; no `:` gives no header |
| CurlParser.UrlencodeArgument | src/utils/curlParser.js:118-127 | the `--data-urlencode` part percent-encodes what follows the first `=`, or the whole argument |
| CurlParser.FormArgument | src/utils/curlParser.js:136-145 | the `-F` field is split at the first `=`; `@name` becomes a file reference; no `=` gives no field |
| CurlParser.ResolveDraft | src/utils/curlParser.js:172-209 | the resolution code computes `Resolve` of the dispatched draft |
| CurlProperties.Cursors | src/utils/curlParser.js:94-169 | the positions the loop visits lie in the token list, and the start is visited exactly when it is in range |
| CurlProperties.ArgumentNotCursor | src/utils/curlParser.js:96-163 | a token consumed as an option's argument is never visited as a token itself |
| CurlProperties.LastCursor | src/utils/curlParser.js:94-169 | a found position lies between the start and the end of the tokens, and its token writes the selected field |
| CurlProperties.LastCursorIsLast | src/utils/curlParser.js:94-169 | `LastCursor` is the greatest visited position writing the field, and None means that no visited position writes it |
| CurlProperties.DispatchMethod | src/utils/curlParser.js:96-99 | the method is the upper-cased argument of the last `-X` (`GET` when missing or empty), else unchanged |
| CurlProperties.DispatchHeader | src/utils/curlParser.js:100-159 | each header holds the value of the last `-H`/`-A`/`-e`/`-b` writing that exact name; other headers are unchanged |
| CurlProperties.DispatchBodyType | src/utils/curlParser.js:110-147 | the body type is that of the last `-d`, `--data-urlencode` or `-F` |
| CurlProperties.DispatchBody | src/utils/curlParser.js:110-130 | the body is built by adding every data piece of the visited tokens in order |
| CurlProperties.AccumulateAppend | src/utils/curlParser.js:113-128 | adding two runs of pieces is adding the first, then the second |
| CurlProperties.AccumulateRaw | src/utils/curlParser.js:113 | repeated `-d` data is concatenated with no separator |
| CurlProperties.AccumulateEncoded | src/utils/curlParser.js:128 | after a non-empty body each `--data-urlencode` part is joined on with `&` |
| CurlProperties.UrlencodePieceNonEmpty | src/utils/curlParser.js:118-128 | a non-empty argument gives a non-empty part |
| CurlProperties.UrlencodePieceSplit | src/utils/curlParser.js:119-124 | `k=v` keeps `k=` and percent-encodes `v`, and the encoding decodes back to the UTF-8 bytes of `v` |
| CurlProperties.DispatchForm | src/utils/curlParser.js:134-147 | every visited `-F` with a `=` pushes its field, in order, and nothing removes one |
| CurlProperties.FormFieldAt | src/utils/curlParser.js:137-144 | `-F k=@name` is a file reference to `name` and `-F k=v` a plain value; the key stops at the first `=` |
| CurlProperties.DispatchAuth | src/utils/curlParser.js:160-163 | the credential is the argument of the last `-u` (empty when missing), else unchanged |
| CurlProperties.DispatchGetMode | src/utils/curlParser.js:131-133 | GET mode is on exactly when it was on or some visited token is `-G` |
| CurlProperties.DispatchUrl | src/utils/curlParser.js:164-166 | the URL is the last visited `http://`/`https://` token; without one, the final token when it is visited, is no option and no URL was set |
| CurlProperties.ConsumedFinalArgumentIsNoUrl | src/utils/curlParser.js:164-172 | with no scheme-prefixed token, a final token consumed as an argument does not become the URL, so there is none |
| CurlProperties.SplitHeaderAt | src/utils/curlParser.js:102-108 | `name: value` splits at the first `:` and both sides are trimmed |
| CurlProperties.SplitHeaderNone | src/utils/curlParser.js:104 | an `-H` argument without `:` writes no header |
| CurlProperties.ResolvedBodyPresent | src/utils/curlParser.js:174-187 | the body is non-null exactly for `-F`, or for data that is urlencoded or does not parse as JSON `null` |
| CurlProperties.ResolveNeedsUrl | src/utils/curlParser.js:172 | resolution fails, with the missing-URL message, exactly when no URL was found; the body type is kept |
| CurlProperties.ResolveMethod | src/utils/curlParser.js:189-191 | POST exactly when no `-X`/`--request` token occurs anywhere, a body is present and GET mode is off; otherwise the dispatched method |
| CurlProperties.ResolveMultipart | src/utils/curlParser.js:175-177 | with `-F` the body is the form list and Content-Type is forced to multipart/form-data, even over a header and under `-G` |
| CurlProperties.ResolveUrlencoded | src/utils/curlParser.js:178-198 | urlencoded: Content-Type defaults to application/x-www-form-urlencoded; `-G` moves the string to the query instead of the body |
| CurlProperties.ResolveJson | src/utils/curlParser.js:180-198 | parsed JSON becomes the body and Content-Type defaults to application/json; under `-G` a string is appended verbatim, another value through the query serializer |
| CurlProperties.ResolveNonJson | src/utils/curlParser.js:180-198 | non-JSON raw data stays a string and Content-Type is untouched; `-G` appends it to the query |
| CurlProperties.ResolveNoBody | src/utils/curlParser.js:174-198 | without data there is no body, no Content-Type is added and the URL stays |
| CurlProperties.ResolveBodyHeaders | src/utils/curlParser.js:174-187 | the body decision writes no header other than Content-Type |
| CurlProperties.ResolveAuth | src/utils/curlParser.js:200-205 | a non-empty credential sets `Authorization: Basic …` unless a non-empty one was given; otherwise the header is untouched |
| CurlProperties.ResolveOtherHeaders | src/utils/curlParser.js:174-205 | resolution changes no header other than Content-Type and Authorization |
| CurlProperties.CredentialParts | src/utils/curlParser.js:202 | `user:password` splits at the first `:` |
| CurlProperties.CredentialExtraColon | src/utils/curlParser.js:202 | a password containing `:` is cut at its first `:` |
| CurlProperties.CredentialNoColon | src/utils/curlParser.js:202 | a credential without `:` has an empty password |
| CurlProperties.BasicAuthDecodes | src/utils/curlParser.js:202-204 | the header is `Basic ` followed by base64 that decodes to the UTF-8 bytes of the percent-encoded `user:password` |
| CurlProperties.ParseCurlErrors | src/utils/curlParser.js:79-172 | parsing fails exactly for no tokens, a first token other than `curl`, or no URL, each with its own message |
| CurlProperties.BlankInputIsEmpty | src/utils/curlParser.js:80-81 | blank input is the empty-input error |
| Encoding.Utf8Char | src/utils/curlParser.js:203 | one to four bytes; a single byte exactly for ASCII, holding the character's code |
| Encoding.PercentBytes | src/utils/curlParser.js:124 | three characters per byte, each `%` or an upper-case hexadecimal digit |
| Encoding.EncodeURIComponent | src/utils/curlParser.js:124 | the result holds only unreserved characters, `%` and upper-case hexadecimal digits, and is no shorter than the input |
| Encoding.DecodePercentBytes | src/utils/curlParser.js:124 | `%XY` escapes decode back to the bytes they were made from |
| Encoding.DecodeEncodeURIComponent | src/utils/curlParser.js:124 | percent-decoding the result gives the UTF-8 bytes of the input |
| Encoding.Base64 | src/utils/curlParser.js:203 | four characters per started group of three bytes |
| Encoding.Base64RoundTrip | src/utils/curlParser.js:203 | base64 decoding gives back exactly the encoded bytes |
| RequestSender.ParsedBodyMatchesType | src/utils/curlParser.js:175-176 | a parsed request has the form list as body exactly when its type is multipart |
| RequestSender.FormPart | src/utils/requestSender.js:31-38 | a field keeps its key; a plain value is sent as is, a file reference as its name, one with an empty name as "[object Object]" |
| RequestSender.BuildForm | src/utils/requestSender.js:30-40 | one form entry per field, in order |
| RequestSender.ResponseEnvelope | src/utils/requestSender.js:62-80 | success with the status; the text is a prefix of at most 1,048,576 characters; truncated exactly above that, and then nonJson and null data; otherwise parsed data or nonJson |
| RequestSender.BuildOptions | src/utils/requestSender.js:22-47 | the payload and headers built in place are `Outgoing` of the request |
| RequestSender.Settle | src/utils/requestSender.js:55-83 | the envelope filled field by field is `OutcomeEnvelope` of the outcome |
| RequestSender.SendCurlRequest | src/utils/requestSender.js:3-86 | the sender returns `SendSpec`: the parse error envelope, a rejection for an invalid proxy, or the call made and its envelope |
| RequestSender.ProxyTarget | src/utils/requestSender.js:50-53 | the target computed is `Target`: the URL itself, or the normalised proxy followed by the percent-encoded URL |
| RequestSender.SendParseFailure | src/utils/requestSender.js:4-18 | a parse failure makes no call: success false, the parser's message, status null, data null, text empty |
| RequestSender.SendCredentials | src/utils/requestSender.js:25 | cookies are included exactly when the last option writing a Cookie header wrote a non-empty value |
| RequestSender.OutgoingRules | src/utils/requestSender.js:28-47 | a payload only for a present body and a method other than GET; form entries in order; only an object body is stringified and only then may Content-Type be added; no other header changes |
| RequestSender.OutgoingText | src/utils/requestSender.js:44-46 | a string, number or boolean body is sent as its `String` form |
| RequestSender.ProxyBaseIdempotent | src/utils/requestSender.js:51 | the normalised proxy ends in `/` and normalising again changes nothing |
| RequestSender.ProxyBaseTrailingSlash | src/utils/requestSender.js:51 | a proxy with or without one trailing `/` gives the same prefix; only one `/` is removed |
| RequestSender.TargetWithoutProxy | src/utils/requestSender.js:50-53 | without a proxy the request URL is fetched as it is |
| RequestSender.TargetThroughProxy | src/utils/requestSender.js:50-53 | through a proxy the URL is appended percent-encoded, holds no `/`, `:`, `?` or `#`, and decodes back to the original's UTF-8 bytes |
| RequestSender.InvalidProxyRejects | src/utils/requestSender.js:51 | a proxy `new URL` rejects makes the whole call reject |
| RequestSender.TruncatedSkipsParse | src/utils/requestSender.js:68-72 | above the limit the envelope does not depend on the JSON parser: no parse is attempted |
| RequestSender.OutcomeSuccess | src/utils/requestSender.js:62-80 | success exactly when a response text was read, whatever the HTTP status, which is then reported |
| RequestSender.OutcomeErrors | src/utils/requestSender.js:81-83 | a transport error gives success false, null data, empty text, and the timeout message for an abort, else the message, else the error's name |
| RequestSender.SendSettles | src/utils/requestSender.js:55-85 | once parsed and past the proxy, the call carries the request's method and target, and the envelope depends on the outcome alone |
| JsonKeys.AddAllContents | src/utils/jsonKeyExtractor.js:4-18 | adding to the set keeps the old keys first, adds no duplicate, and holds exactly the old and the added keys |
| JsonKeys.AddAllAppend | src/utils/jsonKeyExtractor.js:16-21 | adding two runs of keys is adding the first, then the second |
| JsonKeys.Traverse | src/utils/jsonKeyExtractor.js:6-23 | the recursive walk leaves the set as it was with every path of the value added in visiting order |
| JsonKeys.TraverseItems | src/utils/jsonKeyExtractor.js:11-13 | an array walks each element under the same prefix |
| JsonKeys.TraverseEntries | src/utils/jsonKeyExtractor.js:14-21 | an object adds each own key's dotted path, then walks its value under that path |
| JsonKeys.PathsSound | src/utils/jsonKeyExtractor.js:11-21 | every produced path is the dotted text of a chain of own keys from the root |
| JsonKeys.PathsComplete | src/utils/jsonKeyExtractor.js:11-21 | the dotted text of every chain of own keys is produced |
| JsonKeys.PathsReach | src/utils/jsonKeyExtractor.js:11-21 | a path is produced if and only if it is the text of a key chain |
| JsonKeys.TopLevelKeys | src/utils/jsonKeyExtractor.js:16-18 | every own key of a top-level object is a path as it is |
| JsonKeys.NestedKeys | src/utils/jsonKeyExtractor.js:17-20 | a nested value's paths appear below its key's path |
| JsonKeys.ArrayAddsNoSegment | src/utils/jsonKeyExtractor.js:11-13 | an array's paths are exactly its elements' paths under the same prefix |
| JsonKeys.PrimitiveNoPaths | src/utils/jsonKeyExtractor.js:7-22 | null and primitives have no paths |
| JsonKeys.Insert | src/utils/jsonKeyExtractor.js:27-35 | inserting adds exactly the one key and keeps depth order |
| JsonKeys.InsertNoDup | src/utils/jsonKeyExtractor.js:27 | inserting a new key keeps the keys distinct |
| JsonKeys.SortKeys | src/utils/jsonKeyExtractor.js:27-35 | the sort is a permutation, ordered by non-decreasing segment count, and keeps distinct keys distinct |
| JsonKeys.DepthSortedPairs | src/utils/jsonKeyExtractor.js:29-33 | depth order holds between any two positions |
| JsonKeys.InsertComparatorSorted | src/utils/jsonKeyExtractor.js:27-35 | inserting keeps the list sorted by the whole comparator |
| JsonKeys.SortComparatorSorted | src/utils/jsonKeyExtractor.js:27-35 | neighbours are in comparator order: by depth, then by `localeCompare` |
| JsonKeys.ExtractedKeys | src/utils/jsonKeyExtractor.js:3-36 | the extracted keys are distinct, ordered by depth, and exactly the paths of the value |
| JsonKeys.ExtractKeys | src/utils/jsonKeyExtractor.js:3-36 | `extractKeys` returns the specified list: distinct, depth-ordered, exactly the paths |
| JsonKeys.Clamp | src/utils/jsonKeyExtractor.js:41 | `substring(0, cursor)` ends within the expression |
| JsonKeys.LastSeparator | src/utils/jsonKeyExtractor.js:44-52 | -1 or a separator position with no separator after it |
| JsonKeys.LastSeparatorUnique | src/utils/jsonKeyExtractor.js:47-52 | any separator position with none after it is the last separator |
| JsonKeys.ContextFromExpression | src/utils/jsonKeyExtractor.js:39-56 | the loop over the separators' `lastIndexOf` computes `Context`: the prefix up to the last separator before the cursor |
| JsonKeys.ContextShape | src/utils/jsonKeyExtractor.js:41-55 | the context is a prefix of the text before the cursor; empty exactly when that text has no separator, else ending at its last one |
| JsonKeys.ContextIgnoresRest | src/utils/jsonKeyExtractor.js:41 | characters at or after the cursor do not change the context |
| AppStore.DataOr | src/stores/app.js:14 | a truthy saved value is restored as it is; a missing or falsy one as null |
| AppStore.KeysFor | src/stores/app.js:74-84 | the watcher's keys: none for a primitive, otherwise distinct, depth-ordered and exactly the value's paths |
| AppStore.RestoreNothing | src/stores/app.js:11-19 | with nothing saved: empty strings, false flags, null data, step 1, no keys |
| AppStore.RestoreValues | src/stores/app.js:11-20 | every saved string is restored as it is, a missing one as `''`; each flag is true exactly when saved as true; a non-zero step is kept, else step 1; truthy data is kept, else null; the keys are the watcher's for the restored data; loading starts false |
| AppStore.Prev | src/stores/app.js:135-140 | back by one above step 1, otherwise unchanged |
| AppStore.Next | src/stores/app.js:142-147 | forward by one below the number of steps (3), otherwise unchanged |
| AppStore.WalkStaysInRange | src/stores/app.js:135-147 | from steps 1..3 any sequence of back and forward moves stays in 1..3 |
| AppStore.PrevNextInverse | src/stores/app.js:135-147 | away from the ends, forward undoes back and back undoes forward |
| AppStore.Query | src/utils/jmesPathHelper.js:3-6 | an empty expression returns the data itself |
| AppStore.Row | src/stores/app.js:45 | objects and null are kept; any other value becomes `{value: v}` |
| AppStore.Rows | src/stores/app.js:43-46 | no rows unless the value is an array, else one row per element, in order |
| AppStore.Store.constructor | src/stores/app.js:8-84 | the store starts in the restored state, with the keys the watcher derives |
| AppStore.Store.SetCurlText | src/stores/app.js:91-94 | only `curlText` changes |
| AppStore.Store.SetLoading | src/stores/app.js:96-98 | only `loading` changes |
| AppStore.Store.SetError | src/stores/app.js:100-103 | only `error` changes |
| AppStore.Store.SetRawData | src/stores/app.js:105-108 | `rawData` changes and the watcher recomputes the keys; nothing else changes; there is data exactly when the new value is not null or the text is non-empty, and on step 1 the wizard may then advance exactly then |
| AppStore.Store.SetRawText | src/stores/app.js:110-113 | only `rawText` changes; there is data exactly when `rawData` is not null or the new text is non-empty, and on step 1 the wizard may then advance exactly then |
| AppStore.Store.SetTruncated | src/stores/app.js:115-118 | only `truncated` changes |
| AppStore.Store.SetNonJson | src/stores/app.js:120-123 | only `nonJson` changes |
| AppStore.Store.SetExpr | src/stores/app.js:125-128 | only `expr` changes |
| AppStore.Store.SetCurrentStep | src/stores/app.js:130-133 | only `currentStep` changes, to any number, unchecked |
| AppStore.Store.PrevStep | src/stores/app.js:135-140 | only `currentStep` changes, as `Prev` says |
| AppStore.Store.NextStep | src/stores/app.js:142-147 | only `currentStep` changes, as `Next` says |
| AppStore.Store.ResetData | src/stores/app.js:149-156 | clears error, flags, data and text (so the keys too) and keeps command, expression and step; afterwards there is no data, the wizard cannot advance from step 1, and not from step 2 while the expression is empty |
| AppStore.Store.Filtered | src/stores/app.js:39 | with no expression the filtered value is the raw text for non-JSON responses, else the data |
| AppStore.Store.FilteredArray | src/stores/app.js:43-46 | every row is an object or null, and there is one per element of an array result, none otherwise |
| AppStore.GateMatchesNext | src/stores/app.js:47-56 | on steps 1..3, where the wizard may advance `nextStep` moves forward, and where `nextStep` would stay put the wizard may not advance |

## Left out

- Strings are sequences of Unicode scalar values. JavaScript counts UTF-16 code units, so lengths differ for text outside the Basic Multilingual Plane.
- ResponseEnvelope: the 1,048,576 limit counts characters, not UTF-16 code units; the two agree on text in the Basic Multilingual Plane.
- Text.AsciiUpper: `toUpperCase` is modelled for ASCII letters only. Other letters are kept as they are.
- Encoding.EncodeURIComponent: the `URIError` that `encodeURIComponent` throws for a lone surrogate cannot arise, since Dafny strings hold no surrogates. Neither can the parser exception that would follow from it.
- JsonValues.Obj: a JSON object is a list of entries, which may repeat a key; a JavaScript object cannot. `JsonKeys.Paths` then lists a repeated key's paths once per entry, and the deduplication in `ExtractKeys` keeps one of each.
- Headers and JSON objects are maps or entry lists.
  - The insertion order of header keys is not kept.
  - The special behaviour of a JavaScript object key named `__proto__` is not modelled.
- These library calls are parameters, not definitions: `JSON.parse`, `JSON.stringify`, `URLSearchParams(...).toString()`, `new URL(...)` and the JMESPath search. The search includes its `{__error}` fallback.
- `FormData` is modelled as the ordered list of its entries. `console.warn` is left out.
- JSON numbers are represented by their JavaScript text.
- Both encodings of the `Basic` header are covered by one model: `Buffer.from(...).toString('base64')` and `btoa` agree on the ASCII text that the percent-encoding produces.
- The network call is one `FetchOutcome` value. These are left out: `fetch`, `async`/`await`, `AbortController`, the 30 s `setTimeout`, and the `clearTimeout` that the error path skips.
- Store persistence and reactivity are left out: `localStorage`, `saveToLocalStorage`, `defineStore`, `ref`/`computed`, and the unused `unwatchers` list.
- AppStore.Store.SetRawData: the key watcher is modelled synchronously, inside the setter and `ResetData`. Vue runs it after the change, and its deep watching of in-place mutations of `rawData` is not modelled.
- AppStore.Store.constructor: restoring from malformed saved JSON throws in the source and is not modelled. A saved `currentStep` is an integer, so non-numeric values are not modelled.
- AppStore.Store.Filtered: beyond an empty expression, the filtered value is whatever the abstract JMESPath search returns.
- JsonKeys.SortKeys: `Array.prototype.sort` is modelled as a stable insertion sort with the same comparator. That is the engine's result whenever the comparator is consistent.
- JsonKeys.SortComparatorSorted: full comparator order is proved under the precondition that `localeCompare` is sign-antisymmetric. Depth order is proved for every comparator.
- CurlParser.ParseCurl: the loop body is split into `DispatchToken`, `HeaderOption` and `ValueOption`, and they test the flags in a different order from the single `if` chain of the source. `DispatchToken` tests `-H`, `-A`, `-e` and `-b` first, then the other flags that take an argument, then `-G`. The source tests `-X` first, `-H` second, and `-G` between `--data-urlencode` and `-F`. Each branch is chosen by the token being one of its own fixed flag spellings, and no spelling belongs to two branches, so the same branch runs for every token. The URL test comes last in both.
- RequestSender.ErrorMessage: `String(e)` of an error with an empty message is modelled as the error's name.
- src/api/index.js (a network client for a local backend) is not part of this model.
- Only `query` from src/utils/jmesPathHelper.js is modelled, as `AppStore.Query`.
