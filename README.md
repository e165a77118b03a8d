# A Dafny model of the product-data extraction pipeline

The system takes a batch of product-page URLs and a free-text instruction. It fetches each page, cuts the HTML down to the part worth sending to a language model, asks the model for a JSON object, and turns the reply into one flat record per URL. It keeps progress snapshots as it goes, and the records can be exported as CSV. The pipeline exists in two generations, and each is modelled as written rather than merged:

- **The first generation** is `app/actions.ts` with the helpers in `lib/utils/`. It is a sequential loop that keeps one progress snapshot and one cancel flag in module state. The loop records one record per URL. Cancellation is thrown past the per-URL catch.
- **The second generation** is `lib/services/extraction-service.ts` with `lib/services/ai-service.ts`. It is the same pipeline with up to three attempts per URL. The wait after a failure depends on whether the failure was a rate limit. This generation has its own reducer, prompt, model choice and parser.

Supporting pieces: the BWS URL salvage, the keyed progress store with expiry, the server-sent progress stream, and the CSV writer.

## Layout

One module per source file, plus four shared modules:

- `wrappers.dfy` (`Wrappers`): `Option` and `Result`, which stand for `null` returns and thrown exceptions.
- `strings.dfy` (`Strings`): the JavaScript string operations the pipeline uses. These are trimming, substring search, `substring(0, n)`, `split`/`join`, ASCII case mapping and the few regular-expression replacements that can be stated exactly. Characters stand for UTF-16 code units.
- `records.dfy` (`Records`): parsed JSON values and records. A record is a JavaScript object: a list of distinct own keys in the order `Object.keys` gives them. Array-index keys ("0", "8", "10") come first in ascending numeric order, and the other keys follow in creation order. Writing an existing key keeps its position. Assigning `__proto__` on an object that does not own that key creates no key. Converting a parsed value to text (`String(v)`, `join`, a template literal) is partial: it throws on an object that owns a "toString" key, since JSON cannot make that value callable, and on an array holding such an object. A loop that converts values is left, with its half-built object, at the first value that throws.
- `runtime.dfy` (`Runtime`): what the pipeline takes from its platform. `Runtime` carries `JSON.parse`, `JSON.stringify`, URL parsing, `parseInt` and a regular-expression `Engine`. `World` carries the replies of `fetch` and of the model, and the cancel and reset requests that complete while an extraction awaits. Each is a value passed in, so every property holds for all of their behaviours. `Sound(e)` states the one guarantee assumed of a regular-expression engine: matches are pieces of the input, and deleting matches only deletes.
- `html_extractor.dfy`, `prompt_generator.dfy`, `data_parser.dfy`, `actions.dfy`: the first generation.
- `ai_service.dfy`, `extraction_service.dfy`: the second generation.
- `bws_extractor.dfy`, `redis_client.dfy`, `extraction_progress.dfy`, `export_utils.dfy`: the supporting pieces.

Where the source changes state in place, the model does too:

- `Actions.Extractor` holds the progress snapshot and the cancel flag.
- `RedisClient.Store` holds a map from key to a value and its expiry.
- `ExtractionProgress.Emitter` holds the last JSON sent, the active flag and the frames enqueued so far.
- The two extraction loops and the CSV writer are methods with loop invariants.

Each such method is proved equal to a specification function, and the properties are proved as lemmas about those functions.

Outside calls are recorded in order as `Call`s (fetch, model call, sleep), so the waits are checked as data rather than performed.

## Model

| member | source | states |
|---|---|---|
| PromptGenerator.EcommercePrompt | lib/utils/prompt-generator.ts:4-5 | the prompt is built exactly when `new URL(url)` parses; otherwise the call fails with the URL parser's error message |
| PromptGenerator.PromptContainsInputs | lib/utils/prompt-generator.ts:8-28 | every built prompt contains the URL, the user's instruction and the HTML verbatim |
| PromptGenerator.PromptSiteBlocks | lib/utils/prompt-generator.ts:30-49 | the base template is a prefix of the prompt; what follows is the grocery tips exactly for Woolworths/Coles hosts, the Amazon tips exactly for other amazon.com hosts, and nothing otherwise |
| ExportUtils.FlatKeysHas | lib/utils/export-utils.ts:6 | a key occurs in the flattened key list exactly when some record has it |
| ExportUtils.Dedup | lib/utils/export-utils.ts:6 | removing duplicates keeps exactly the same set of keys |
| ExportUtils.DedupOrder | lib/utils/export-utils.ts:6 | the deduplicated list has no repeats and keeps the order of first appearance |
| ExportUtils.HeaderKeys | lib/utils/export-utils.ts:6-8 | the header names each key of each record exactly once, in first-seen order, and no other key |
| ExportUtils.Doubled | lib/utils/export-utils.ts:15 | doubling the quotes keeps every other character |
| ExportUtils.Cell | lib/utils/export-utils.ts:12-18 | a missing, null or undefined value gives an empty cell; a string with a comma, quote or line feed is wrapped in quotes whose inside un-doubles to the string; any other value is its printed text |
| ExportUtils.BodySnoc | lib/utils/export-utils.ts:10-21 | each record appends exactly its row and a line feed to the body |
| ExportUtils.ExportToCsv | lib/utils/export-utils.ts:3-21 | nothing for an empty list, otherwise the header line followed by one line per record, as the loop builds it |
| ExportUtils.UndoubleDoubled | lib/utils/export-utils.ts:15 | un-doubling the doubled quotes gives back the original string |
| ExportUtils.QuoteRoundTrip | lib/utils/export-utils.ts:15 | stripping the outer quotes of a quoted cell and un-doubling gives back the value |
| ExportUtils.QuotedDoubled | lib/utils/export-utils.ts:15 | an RFC 4180 reader inside a quoted field stops at the closing quote and reads back the original value |
| ExportUtils.UnquotedPlain | lib/utils/export-utils.ts:17 | an unquoted cell without a comma reads back as itself up to the next separator |
| ExportUtils.QuotedField | lib/utils/export-utils.ts:14-15 | a quoted cell followed by a separator or the end of line reads back as the value |
| ExportUtils.PlainField | lib/utils/export-utils.ts:17 | a cell that needs no quotes reads back as itself |
| ExportUtils.FieldEncode | lib/utils/export-utils.ts:12-18 | every string value, whether or not the rule quotes it, reads back unchanged |
| ExportUtils.FieldsJoin | lib/utils/export-utils.ts:11-19 | joining encoded cells with commas reads back as exactly the list of values |
| ExportUtils.RowFields | lib/utils/export-utils.ts:11-19 | a row reads back as one field per header column, each the value's printed text (empty for missing or null) |
| ExportUtils.RowSingleLine | lib/utils/export-utils.ts:11-19 | a row has no line feed when no value holds one, even though quoted cells may contain commas and quotes |
| ExportUtils.Rows | lib/utils/export-utils.ts:10-21 | one row per record, the i-th row built from the i-th record |
| ExportUtils.BodyLines | lib/utils/export-utils.ts:10-21 | the body splits at line feeds into exactly the rows, in record order |
| ExportUtils.CsvLines | lib/utils/export-utils.ts:3-21 | with no line feed in keys or values, the text splits into the header line and then one line per record |
| RedisClient.ProgressKeys | lib/utils/redis-client.ts:39-42 | a progress key never collides with the latest-id key, and distinct ids have distinct progress keys |
| RedisClient.Lookup | lib/utils/redis-client.ts:48 | a key reads back its value exactly while it is present and not yet expired |
| RedisClient.ProgressIn | lib/utils/redis-client.ts:47-63 | no progress when the key is missing, expired or holds the empty string; an object is returned as is; a non-empty string goes through the JSON parser, whose failure gives no progress |
| RedisClient.Store.constructor | lib/utils/redis-client.ts:4-7 | the store starts empty |
| RedisClient.Store.SetKey | lib/utils/redis-client.ts:39 | `set` with `ex` overwrites the key with the value and an expiry at the given time |
| RedisClient.Store.StoreProgress | lib/utils/redis-client.ts:25-45 | writes the snapshot stamped with the time and the id under the progress key, then the id under the latest-id key, both for 1800 s |
| RedisClient.Store.GetProgress | lib/utils/redis-client.ts:47-63 | returns the progress the store holds for the id at that time |
| RedisClient.Store.GetLatestExtractionId | lib/utils/redis-client.ts:66-68 | returns whatever live value the latest-id key holds |
| RedisClient.Store.IsExtractionActive | lib/utils/redis-client.ts:71-77 | true exactly when progress is found, was written less than five minutes ago and is below 100% |
| RedisClient.Store.CancelExtraction | lib/utils/redis-client.ts:80-89 | does nothing without progress; otherwise rewrites the snapshot with status "Cancelled" and percent 100 |
| RedisClient.StoreThenRead | lib/utils/redis-client.ts:25-63 | a stored snapshot and the latest id read back until 1800 s after the write and are gone after; no other key changes |
| RedisClient.ActiveMeans | lib/utils/redis-client.ts:71-77 | active means: progress exists, was updated within the last 300000 ms, and is below 100% |
| RedisClient.CancelledNeverActive | lib/utils/redis-client.ts:71-89 | after a cancel the extraction is not active at any later time |
| RedisClient.CancelIdempotent | lib/utils/redis-client.ts:80-89 | cancelling twice within the expiry changes only `lastUpdated`: the second cancel writes the same cancelled snapshot |
| ExtractionProgress.JsonsAppend | app/api/extraction-progress/route.ts:31-36 | the progress JSONs of two runs of frames are those of the first followed by those of the second |
| ExtractionProgress.SendStep | app/api/extraction-progress/route.ts:22-86 | an inactive stream does nothing; every snapshot read becomes the last JSON; a progress frame goes out exactly when the JSON changed and the enqueue succeeds; the next poll is at 200 ms below 100%, at 1000 ms after a read error whose frame went out; 100% schedules the close after 1000 ms, with the "Complete" frame exactly when it can be enqueued; a failed enqueue deactivates and schedules nothing |
| ExtractionProgress.GoUnfold | app/api/extraction-progress/route.ts:70 | while a poll is scheduled, the next reading runs one more call on the state the last call left |
| ExtractionProgress.Emitter.constructor | app/api/extraction-progress/route.ts:18-19 | the closure starts with an empty last JSON, active, with nothing written |
| ExtractionProgress.Emitter.SendProgress | app/api/extraction-progress/route.ts:22-86 | updates `lastProgressJson` and `isActive`, appends the frames and returns what is scheduled, exactly as one call from the old state |
| ExtractionProgress.Emitter.Start | app/api/extraction-progress/route.ts:17-90 | the first call and then one call per scheduled poll leave the state, frames and schedule of the stream over the readings |
| ExtractionProgress.GoDeduped | app/api/extraction-progress/route.ts:30-33 | polling keeps the last JSON equal to the last progress frame sent, so no frame repeats its predecessor |
| ExtractionProgress.NoRepeatedProgress | app/api/extraction-progress/route.ts:30-33 | no two consecutive progress frames of the stream carry the same JSON |
| ExtractionProgress.GoExtends | app/api/extraction-progress/route.ts:36 | later calls only append frames; what was written is never changed |
| ExtractionProgress.FirstReadingSent | app/api/extraction-progress/route.ts:18-43 | the first snapshot is always sent (the last JSON starts empty); if its enqueue fails the stream writes nothing and goes inactive |
| ExtractionProgress.GoStops | app/api/extraction-progress/route.ts:36-66 | once no poll is scheduled, further readings change nothing |
| ExtractionProgress.StreamEnds | app/api/extraction-progress/route.ts:36-66 | once the stream is closing or inactive, later readings change nothing |
| ExtractionProgress.GoSnoc | app/api/extraction-progress/route.ts:70 | one more reading while polling is one more call after the others |
| ExtractionProgress.GoPollActive | app/api/extraction-progress/route.ts:23-70 | a poll is only ever scheduled by an active stream |
| ExtractionProgress.CompleteClosesStream | app/api/extraction-progress/route.ts:46-66 | a 100% snapshot read while polling ends the stream: the progress frame if it changed, then the "Complete" frame if it goes through, then the close after 1000 ms and nothing more |
| ExtractionProgress.GoRetries | app/api/extraction-progress/route.ts:71-80 | n failed reads in a row, each with its error frame sent, write n error frames and keep retrying after 1000 ms |
| ExtractionProgress.ReadErrorsRetryForever | app/api/extraction-progress/route.ts:71-80 | a stream whose reads all fail writes one error frame per read and never closes |
| Strings.Trim | lib/utils/data-parser.ts:11 | `trim()` never lengthens the text and leaves no white space at either end |
| Strings.StripFencesLeavesNoFence | lib/utils/data-parser.ts:12 | deleting every "```json" and "```" left to right leaves no "```" in the text |
| Strings.ReplaceRuns | lib/utils/data-parser.ts:59-60 | after replacing every run of a character class by one space, no character of the class other than a space remains |
| Strings.TitleCasePreservesShape | lib/utils/bws-extractor.ts:27-30 | capitalising the first letter of each word keeps the length and the number of words |
| Records.PutInserts | lib/utils/data-parser.ts:24 | a new key is inserted at its `Object.keys` position and every other entry is kept in order |
| Records.PutKeepsJsOrder | lib/utils/data-parser.ts:24 | writing a key keeps the keys distinct and in `Object.keys` order |
| Records.AssignedGet | lib/utils/data-parser.ts:24-45 | after the assignment loop a key reads its converted last value, unless it is `__proto__` and the object did not own it; otherwise the initial value |
| Records.AssignedKeyOrder | lib/utils/data-parser.ts:24-45 | the assignment loop keeps the keys distinct and in `Object.keys` order |
| Records.TryCopyInto | lib/utils/data-parser.ts:24-45 | the `forEach` loop ends with nothing as soon as a conversion throws, and otherwise with exactly the object the specified assignments build |
| Records.TryAssignedGet | lib/utils/data-parser.ts:24-45 | after a loop that did not throw, a key reads its converted last value, unless it is `__proto__` and the object did not own it; otherwise the initial value |
| Records.TryAssignedKeyOrder | lib/utils/data-parser.ts:24-45 | a loop that did not throw keeps the keys distinct and in `Object.keys` order |
| Records.ToStr | lib/services/ai-service.ts:291-296 | `String(v)` is "null" for null, "true" or "false", the number's text, the string itself and "" for an empty array; an object that prints at all prints as "[object Object]" |
| Records.ToStrFails | lib/services/ai-service.ts:291-296 | `String(v)` throws exactly when `v`, or an element of an array at any depth, is an object that owns a "toString" key |
| Records.ArrayTextParts | lib/services/ai-service.ts:291-296 | an array whose elements all print, with one element at least and no comma in the element texts, prints as those texts joined by ","; splitting at the commas gives the texts back |
| Records.Flatten | lib/utils/data-parser.ts:25-45 | the flattening fails (the `join` throws) exactly on an array that cannot be printed; otherwise the value is never nested: an object always becomes a string, an array that prints becomes a string (its element texts joined by ", ", stated by `Records.FlattenArrayJoins`), and any other value is copied unchanged |
| Records.FlattenObject | lib/utils/data-parser.ts:31-40 | an object with a member that cannot be printed is stored as its `JSON.stringify` text; an object whose members all print is stored as its "k: v" pairs joined by ", " |
| Records.FlattenArrayJoins | lib/utils/data-parser.ts:26-28 | an array whose elements all print is stored as their texts joined by ", ": a `null` element as the empty string, any other element as `String` prints it |
| Records.FlattenArrayExample | lib/utils/data-parser.ts:26-28 | the array `["a", 1, null]` is stored as "a, 1, " |
| Records.FlattenStringifiesExample | lib/utils/data-parser.ts:31-40 | the object `{"dims":{"toString":"x"}}` is stored as its `JSON.stringify` text |
| Records.FlattenThrowsExample | lib/utils/data-parser.ts:26-28 | the array `[{"toString":"x"}]` makes the flattening throw |
| Records.FlattenConverts | lib/utils/data-parser.ts:24-45 | the first-generation loop throws exactly when an entry holds an array that cannot be printed; objects never make it throw |
| Records.FlattenIndexKeysExample | lib/utils/data-parser.ts:31-34 | the nested object `{"10":"yes","8":"no"}` prints as "8: no, 10: yes" |
| Records.StringValue | lib/services/ai-service.ts:291-296 | the conversion throws exactly on the values `String` cannot print; otherwise the result is a string, a number or `null`: those are kept, anything else becomes its `String(...)` text |
| Records.StringValueThrowsExample | lib/services/ai-service.ts:293-295 | `String` throws on the object `{"toString":"y"}` |
| Records.StringValueConverts | lib/services/ai-service.ts:289-297 | the second-generation loop throws exactly when an entry holds a value `String` cannot print |
| DataParser.CleanedText | lib/utils/data-parser.ts:10-13 | the cleaned reply holds no code fence |
| DataParser.AggressiveText | lib/utils/data-parser.ts:56-61 | the aggressively cleaned reply holds no line terminator |
| DataParser.BraceSpanFrom | lib/utils/data-parser.ts:64 | a match starts with "{", ends with "}" and occurs in the text at or after the start position |
| DataParser.BraceSpan | lib/utils/data-parser.ts:64 | a match of `/\{.*\}/` starts with "{", ends with "}" and is found in the text |
| DataParser.BraceSpanOnOneLine | lib/utils/data-parser.ts:59-64 | on a text without line breaks the match runs from the first "{" to the last "}", and exists exactly when that "}" comes after that "{" |
| DataParser.BraceSpanBetween | lib/utils/data-parser.ts:64 | on one line, the first "{" and the last "}" after it delimit the match |
| DataParser.NoBraceSpan | lib/utils/data-parser.ts:64-65 | on one line without "{" there is no match |
| DataParser.FromParsed | lib/utils/data-parser.ts:24-45 | a record is built from a parsed value exactly when `Object.entries` accepts it (it is not `null`) and no conversion of its values throws |
| DataParser.Built | lib/utils/data-parser.ts:16-45 | a record is built exactly when the parse succeeded, gave something other than `null`, and every value converted |
| DataParser.BuiltRunsThrough | lib/utils/data-parser.ts:16-48 | a first-generation attempt yields a record exactly when its parse gives a value other than `null` none of whose values is an array that cannot be printed |
| DataParser.ErrorRecordFields | lib/utils/data-parser.ts:130 | the error record has `error` "Failed to parse extracted data" and `url` the URL |
| DataParser.ColesFallback | lib/utils/data-parser.ts:108-127 | the Coles record is produced exactly when `new URL` parses and the lower-cased host contains "coles.com.au" |
| DataParser.ParseProductData | lib/utils/data-parser.ts:7-132 | the method's control flow (first parse and its loop, left when a conversion throws; salvage and its loop, likewise; Coles fallback; error record) returns exactly the record the three attempts decide |
| DataParser.BuiltIsFlat | lib/utils/data-parser.ts:24-46 | copying a parsed object through the conversion leaves no nested object or array in the record |
| DataParser.DecideIsFlat | lib/utils/data-parser.ts:19-130 | whichever attempt wins, its record is flat |
| DataParser.ParsedRecordIsFlat | lib/utils/data-parser.ts:7-132 | no field of any outcome is a nested object or array: arrays are joined, objects written as "k: v" pairs |
| DataParser.BuiltFields | lib/utils/data-parser.ts:19-46 | when every value converts, field k of the built record is the converted last value the object gives k (unless k is `__proto__`, which assignment does not create), else the initial value |
| DataParser.PrimaryRecordFields | lib/utils/data-parser.ts:10-48 | when the first attempt runs through, every reply key other than `__proto__` reads as its flattened last value, `sourceUrl` is the URL unless the reply sets it, and no other key appears |
| DataParser.PrimaryAbandoned | lib/utils/data-parser.ts:16-53 | when the first attempt does not run through (the parse fails, gives `null`, or `join` throws on an array), the record is what the salvage and the fallbacks decide |
| DataParser.SalvagedRecordFields | lib/utils/data-parser.ts:49-101 | when the first attempt does not run through and the salvage does, every span key other than `__proto__` reads as its flattened last value, and `sourceUrl` and `_salvaged: true` fill in keys the span lacks |
| DataParser.FallbackRecord | lib/utils/data-parser.ts:107-130 | when neither attempt runs through (a parse fails, gives `null`, or `join` throws), a Coles host gets `productName`, `sourceUrl`, `_salvaged: true` and the partial-data error; any other host gets exactly the error record |
| DataParser.ColesRecordFields | lib/utils/data-parser.ts:118-123 | the Coles record reads back its four fields |
| DataParser.ColesProductNameShape | lib/utils/data-parser.ts:112-116 | the product name is the capture after "/product/" up to the next "/" or "-", with hyphens turned into spaces and only letter case changed; "Coles Product" when there is no capture |
| DataParser.FencedReplyExample | lib/utils/data-parser.ts:10-48 | a reply fenced as a json code block parses to `sourceUrl` then its field |
| DataParser.ChattyReplyExample | lib/utils/data-parser.ts:53-101 | a reply with prose around the object is salvaged: `sourceUrl`, `_salvaged: true`, then its field |
| DataParser.NoJsonReplyExample | lib/utils/data-parser.ts:129-130 | a reply without an object, for a non-Coles host, gives the error record |
| DataParser.PrimaryBody | lib/utils/data-parser.ts:16-48 | a first parse yielding `{"a": 1}` gives that field after `sourceUrl` |
| DataParser.SalvagedBody | lib/utils/data-parser.ts:64-101 | a salvage yielding `{"a": 1}` gives that field after `sourceUrl` and `_salvaged` |
| DataParser.ErrorPath | lib/utils/data-parser.ts:107-130 | both parses failing on a non-Coles host gives the error record |
| DataParser.ParsedRecordKeyOrder | lib/utils/data-parser.ts:7-132 | every outcome lists each key once, index keys first in ascending order, the others in creation order |
| DataParser.FixedRecordsKeyOrder | lib/utils/data-parser.ts:19-130 | the initial, error and Coles records are literals whose keys are distinct and in `Object.keys` order |
| DataParser.IndexKeyGoesFirst | lib/utils/data-parser.ts:19-24 | copying an index key "0" into `{sourceUrl}` places it before `sourceUrl` |
| DataParser.ArrayReplyExample | lib/utils/data-parser.ts:16-48 | the reply `[{"name":"Milk"}]` gives the record with key "0" ("name: Milk") first and `sourceUrl` after it |
| DataParser.StringifiedObjectExample | lib/utils/data-parser.ts:24-45 | the reply object `{"specs":{"dims":{"toString":"x"}}}` gives `sourceUrl` and then `specs` as the `JSON.stringify` text of its value |
| DataParser.ThrowingJoinExample | lib/utils/data-parser.ts:24-130 | the reply `{"tags":[{"toString":"x"}]}` makes `join` throw in both attempts, so the record is the Coles fallback or the error record |
| DataParser.PlainObjectReply | lib/utils/data-parser.ts:10-66 | a one-line object literal without white space or backticks is what both attempts parse |
| DataParser.TrimNewlines | lib/utils/data-parser.ts:11-13 | trimming a text between two line feeds, with no white space at its ends, leaves the text |
| DataParser.PlainCleaned | lib/utils/data-parser.ts:10-13 | a text without backticks or white space at its ends is unchanged by the first clean-up |
| DataParser.UnchangedByAggressiveCleaning | lib/utils/data-parser.ts:56-61 | a one-line text without backticks, white space at its ends or doubled spaces is unchanged by the aggressive clean-up |
| BwsExtractor.ProductIdNone | lib/utils/bws-extractor.ts:14-20 | there is no product id (and the result is `null`) exactly when `/\/products?\/([^/]+)/` matches at no position |
| BwsExtractor.ProductIdShape | lib/utils/bws-extractor.ts:14-15 | the id is a non-empty piece of the URL right after "/products/" or "/product/", holding no "/" and running to a "/" or the end |
| BwsExtractor.ProductNameCaptureNone | lib/utils/bws-extractor.ts:23 | there is no name capture exactly when `/\/products?\/[^/]+\/([^?]+)/` matches at no position |
| BwsExtractor.ProductNameCaptureShape | lib/utils/bws-extractor.ts:23 | the capture is a non-empty piece of the URL right after a "/", holding no "?" and running to a "?" or the end |
| BwsExtractor.PriceDigits | lib/utils/bws-extractor.ts:37 | the price capture at a match starts with a digit, holds only digits and ".", and sits right after the "$" |
| BwsExtractor.PriceCapture | lib/utils/bws-extractor.ts:37-38 | no price exactly when `/\$([0-9]+(\.[0-9]+)?)/` matches nowhere; otherwise a non-empty capture starting with a digit that follows a "$" in the URL |
| BwsExtractor.CategoryCapture | lib/utils/bws-extractor.ts:50-51 | no category exactly when `/bws\.com\.au\/([^/]+)\//` matches nowhere; otherwise a non-empty segment without "/" found between "bws.com.au/" and a "/" |
| BwsExtractor.FirstOf | lib/utils/bws-extractor.ts:41-47 | the volume and alcohol fields are a matched string or `null` |
| BwsExtractor.Params | lib/utils/bws-extractor.ts:34 | `Object.fromEntries` of the query parameters has each key once |
| BwsExtractor.ExtractBwsProductInfo | lib/utils/bws-extractor.ts:4-80 | `null` exactly when the URL lacks "bws.com.au", has no product id, or `new URL` throws |
| BwsExtractor.BwsRecordFields | lib/utils/bws-extractor.ts:62-72 | a query parameter's last value wins over any field; otherwise `productId`, `productName`, `sourceUrl`, `_salvaged: true`, the title-cased `category` (or `null`) and "$" + price (or `undefined`) as the URL gives them, plus `volume` and `alcoholPercentage`, and no other key |
| BwsExtractor.BwsFieldsGet | lib/utils/bws-extractor.ts:62-70 | each of the object literal's eight keys reads its field and no other key is present |
| BwsExtractor.ParamsWin | lib/utils/bws-extractor.ts:71 | spreading the parameters last makes them override the literal's fields and leaves other keys alone |
| BwsExtractor.BwsRecordKeyOrder | lib/utils/bws-extractor.ts:62-72 | the BWS record lists its keys in `Object.keys` order: numeric query parameters first, then the literal's keys and the other parameters in creation order |
| BwsExtractor.ProductNameShape | lib/utils/bws-extractor.ts:23-30 | the product name has as many characters and words as the capture (or the id) with hyphens as spaces, each the same character with only word starts upper-cased |
| ExtractionService.NumMax | lib/services/extraction-service.ts:89 | `Math.max` with a NaN operand is NaN; otherwise it is at least both operands and equal to one of them |
| ExtractionService.NumMin | lib/services/extraction-service.ts:98 | `Math.min` with a NaN operand is NaN; otherwise it is at most both operands and equal to one of them |
| ExtractionService.RetryAfter | lib/services/extraction-service.ts:76-82 | a non-empty `retry-after-ms` header is parsed as is, else a non-empty `retry-after` header is parsed and multiplied by 1000, else the wait is 0 |
| ExtractionService.RateLimitWait | lib/services/extraction-service.ts:88-89 | the rate-limit wait is the requested wait plus 5 s, never below 10 s, and NaN exactly when the header did not parse |
| ExtractionService.Backoff | lib/services/extraction-service.ts:98 | the backoff is the current wait times 2^retries, capped at 30 s, and NaN exactly when the wait is |
| ExtractionService.StringifyObjectFields | lib/services/extraction-service.ts:59-63 | the in-place `forEach` over the keys computes the stringified record |
| ExtractionService.StringifyFieldsShape | lib/services/extraction-service.ts:57-64 | afterwards no field is an object, the keys and their order are unchanged, and each key reads its stringified old value |
| ExtractionService.StringifyGet | lib/services/extraction-service.ts:59-63 | reading a key of the stringified record is stringifying what the key read before |
| ExtractionService.AttemptsFrom | lib/services/extraction-service.ts:47-52 | the loop calls the AI service at least once and at most three times |
| ExtractionService.CountGenerateAppend | lib/services/extraction-service.ts:52-54 | model calls of consecutive runs add up |
| ExtractionService.AtMostThreeModelCalls | lib/services/extraction-service.ts:47-108 | a URL makes at most as many model calls as attempts, and at most three |
| ExtractionService.RetryPushes | lib/services/extraction-service.ts:52-107 | the loop pushes at most one record; nothing exactly when the third attempt fails with a rate limit; the give-up record exactly when all three fail and the last is not a rate limit |
| ExtractionService.ReturnedRecordPushed | lib/services/extraction-service.ts:52-64 | when the attempts before one that returns a record all threw, exactly that record, stringified, is pushed |
| ExtractionService.PlainFailures | lib/services/extraction-service.ts:96-105 | three failures that are not rate limits wait 10 s and then 20 s, and end with the give-up record |
| ExtractionService.RateLimitedThrice | lib/services/extraction-service.ts:71-95 | three rate limits without headers wait 10 s three times and push nothing |
| ExtractionService.BackoffAfterRateLimit | lib/services/extraction-service.ts:89-100 | a rate-limit wait replaces the current wait, so a later backoff doubles it (10 s, then 30 s after capping) |
| ExtractionService.RetryWaits | lib/services/extraction-service.ts:71-100 | every finite wait is at least 10 s, and when no failure is a rate limit every wait is finite and at most 30 s |
| ExtractionService.BackoffAboveFloor | lib/services/extraction-service.ts:98 | a backoff from a wait of at least 5 s lies between 10 s and 30 s |
| ExtractionService.RetryExtraction | lib/services/extraction-service.ts:47-108 | the `while` loop with its counters, rate-limit waits, backoffs and `break` makes exactly the calls and pushes of the retry rule |
| ExtractionService.ProcessUrl | lib/services/extraction-service.ts:28-119 | one URL: a failed fetch or non-OK status gives only the fetch error record; otherwise the retry loop, then a 5 s pause unless it is the last URL |
| ExtractionService.ExtractProductData | lib/services/extraction-service.ts:10-153 | the URLs are processed in order and the results are the records of each URL in turn |
| ExtractionService.RunNext | lib/services/extraction-service.ts:19-120 | each URL appends its calls and records after those of the URLs before it |
| ExtractionService.PipelineNeverRateLimited | lib/services/extraction-service.ts:54-74 | the AI service only throws the URL parser's error, which is never a rate limit |
| ExtractionService.PipelineRetry | lib/services/extraction-service.ts:47-108 | with the AI service in the loop, a parseable URL gets exactly one model call and its record; an unparseable one waits 10 s and 20 s and gets the give-up record |
| ExtractionService.ParsedUrlRetry | lib/services/extraction-service.ts:52-66 | with the AI service in the loop, a parseable URL ends the loop on the first attempt: one model call, and the attempt's record pushed unchanged, since it holds no object field |
| ExtractionService.UnparsedUrlRetry | lib/services/extraction-service.ts:96-105 | an unparseable URL fails three times without model calls and gets the give-up record |
| ExtractionService.OneRecordPerUrl | lib/services/extraction-service.ts:17-120 | in the composed pipeline every URL yields exactly one record, so the results line up with the URLs |
| ExtractionService.ForUrlPushesOne | lib/services/extraction-service.ts:28-119 | every URL, fetched or not, pushes exactly one record |
| ExtractionService.PauseBetweenUrls | lib/services/extraction-service.ts:110-115 | a fetched page starts with the fetch and ends with the 5 s pause exactly when it is not the last URL |
| HtmlExtractor.StripAllOnlyDeletes | lib/utils/html-extractor.ts:51-58 | deleting every match of a list of patterns in turn yields a subsequence of the page, so never a longer text |
| HtmlExtractor.FirstQualifying | lib/utils/html-extractor.ts:39-46 | the index found is that of a pattern whose capture is longer than 500 characters, and no earlier pattern's capture qualifies; no index means no pattern qualifies |
| HtmlExtractor.GenericExcerpt | lib/utils/html-extractor.ts:63-68 | the generic path never returns more than 30000 characters |
| HtmlExtractor.GenericExcerptFromPage | lib/utils/html-extractor.ts:39-68 | for any sound regular-expression engine, the generic path's result is a subsequence of the page (a capture, a stripped page or a prefix of either) and no longer than it |
| HtmlExtractor.ReduceGeneric | lib/utils/html-extractor.ts:29-68 | the loop that stops at the first qualifying capture, the chain of deletions when nothing qualified, and the truncation compute exactly the generic excerpt |
| HtmlExtractor.FirstMatch | lib/utils/html-extractor.ts:82-84 | there is no match exactly when every alternative fails, and a match found is what one of the alternatives returns |
| HtmlExtractor.PartsTextLength | lib/utils/html-extractor.ts:88-112 | the concatenated whole matches of the parts are at most (number of parts) times the page length |
| HtmlExtractor.SiteExcerptShape | lib/utils/html-extractor.ts:79-123 | a site helper returns a piece of the page longer than 500, or a concatenation of part matches longer than 500, or the first 30000 characters of the page |
| HtmlExtractor.ColesExcerpt | lib/utils/html-extractor.ts:125-145 | the Coles helper never returns more than 50000 characters |
| HtmlExtractor.ColesExcerptFromPage | lib/utils/html-extractor.ts:132-138 | the Coles result is a subsequence of the page: scripts, styles and vector images are deleted and a prefix kept |
| HtmlExtractor.RouteFor | lib/utils/html-extractor.ts:12-25 | a host containing "woolworths.com.au" always takes the Woolworths helper, a Coles host the Coles helper unless it also names Woolworths, and the generic path is taken exactly when no listed site name occurs |
| HtmlExtractor.ExtractRelevantHtml | lib/utils/html-extractor.ts:6-76 | an unparseable URL yields the first 30000 characters; otherwise the host, lower-cased, picks the helper whose result is returned |
| HtmlExtractor.SiteExcerptExceedsGenericBound | lib/utils/html-extractor.ts:12-84 | for any sound engine, a Woolworths page whose product-details capture is longer than 30000 characters is reduced to that capture whole, a piece of the page beyond the generic bound |
| AiService.RouteForB | lib/services/ai-service.ts:17-26 | any host containing "amazon" takes the Amazon helper, "jbhifi" the JB Hi-Fi helper unless it also names Amazon, and the generic path is taken exactly when none of the three names occurs |
| AiService.ExtractRelevantHtmlB | lib/services/ai-service.ts:11-77 | the reducer of the extraction service returns the helper's result for its host, or the first 30000 characters when the URL does not parse |
| AiService.RelevantHtmlBShape | lib/services/ai-service.ts:11-213 | on the exception path the result is the first 30000 characters; on the generic path at most 30000 characters and a subsequence of the page; on a site path a text longer than 500 or the first 30000 characters |
| AiService.SiteName | lib/services/ai-service.ts:222-227 | the prompt names the site by the first of "amazon", "jbhifi", "walmart", "ebay", "target" the host contains, and says "this e-commerce site" exactly when it contains none |
| AiService.SiteSpecificPrompt | lib/services/ai-service.ts:218-219 | building the prompt fails, with the URL error, exactly when the URL does not parse |
| AiService.SitePromptContainsInputs | lib/services/ai-service.ts:230-252 | the prompt opens by naming the site and carries the URL, the instruction and the reduced HTML verbatim |
| AiService.SelectAppropriateModel | lib/services/ai-service.ts:258-269 | "gpt-4o" is chosen exactly when the instruction is longer than 500 and the HTML longer than 50000 characters, "gpt-3.5-turbo" otherwise |
| AiService.ShortExcerptsUseDefaultModel | lib/services/ai-service.ts:64-73 | on the generic and the exception paths the reduced HTML is at most 30000 characters, so the larger model is never chosen there |
| AiService.ParseProductDataB | lib/services/ai-service.ts:274-345 | the parse, the salvage of the brace span and the error record are tried in the source's order, an attempt being left when `String` throws, and yield the specified record |
| AiService.BuiltRunsThroughB | lib/services/ai-service.ts:283-299 | a second-generation attempt yields a record exactly when its parse gives a value other than `null` all of whose values `String` can print |
| AiService.ParsedRecordBIsScalar | lib/services/ai-service.ts:291-297 | every field of the parsed record is a string, a number or `null`: other values are replaced by their `String(...)` text |
| AiService.PrimaryRecordBFields | lib/services/ai-service.ts:283-299 | when the first attempt runs through, each reply key other than `__proto__` maps to its last value converted, `sourceUrl` maps to the URL unless the reply has its own, and no other key is present |
| AiService.SalvagedRecordBFields | lib/services/ai-service.ts:305-336 | when the first attempt does not run through and the salvage of the brace span does, the span's keys other than `__proto__` map to their converted values, and `sourceUrl` and `_salvaged` ("true") fill in keys the span lacks; no other key is present |
| AiService.ParsedRecordBKeyOrder | lib/services/ai-service.ts:274-345 | every outcome lists each key once, index keys first in ascending order, the others in creation order |
| AiService.ArrayReplyBExample | lib/services/ai-service.ts:283-299 | the reply `[{"name":"Milk"}]` gives the record with key "0" ("[object Object]") first and `sourceUrl` after it |
| AiService.FailedRecordB | lib/services/ai-service.ts:338-343 | when neither attempt runs through (a parse fails, gives `null`, or `String` throws), the result is the record with the parse-error message and the URL |
| AiService.ThrowingStringExample | lib/services/ai-service.ts:283-343 | the reply `{"x":{"toString":"y"}}` makes `String` throw in both attempts, so the result is the error record |
| AiService.ObjectPrintsAsObject | lib/services/ai-service.ts:293-295 | an object without its own "toString" becomes "[object Object]" |
| AiService.ExtractDataWithAI | lib/services/ai-service.ts:347-378 | the attempt throws exactly when the URL does not parse (the prompt builder's error escapes the `try`), and then without calling the model |
| AiService.AttemptReturnsScalar | lib/services/ai-service.ts:358-377 | on a parseable URL the attempt makes one model call and returns a record of scalar fields, whether the call answers or fails |
| Actions.ModelFor | app/actions.ts:154-156 | "gpt-4o" is asked for exactly when the lower-cased host contains "coles.com.au", "gpt-3.5-turbo" otherwise |
| Actions.ModelledCollaborators | app/actions.ts:134-156 | with this module's reducer, prompt builder and model choice, the prompt fails exactly on a URL that does not parse, with the URL error, and the larger model is asked for exactly on a Coles host |
| Actions.Caught | app/actions.ts:214-236 | the per-URL catch leaves the run exactly on an `Error` whose message is "Extraction cancelled"; any other error gives a record naming the URL whose error begins "Failed to process <url>: " |
| Actions.ForUrl | app/actions.ts:81-237 | each loop body yields a record exactly when it does not throw the cancellation, the record names its URL (`sourceUrl` on success, `url` and the error on failure), and the 2-second pause happens exactly after a success that is not the last URL |
| Actions.Fetched | app/actions.ts:111-149 | after the fetch (a failed fetch or a non-OK status is caught) the step keeps the same per-URL guarantees |
| Actions.Prompted | app/actions.ts:151-166 | a prompt that throws is caught; otherwise one model call is made; the per-URL guarantees hold |
| Actions.Answered | app/actions.ts:161-172 | a failing model call is caught and a cancel pending after it stops the run; the per-URL guarantees hold |
| Actions.Parsed | app/actions.ts:183-213 | the pushed record carries `sourceUrl` equal to the URL, whatever the parser returned, and the pause follows exactly when more URLs remain |
| Actions.Extractor.constructor | app/actions.ts:14-33 | the progress starts with empty texts and zero counts, and the cancel flag cleared |
| Actions.Extractor.UpdateProgress | app/actions.ts:23-25 | the stored progress becomes the given snapshot |
| Actions.Extractor.GetExtractionProgress | app/actions.ts:28-30 | returns the stored progress |
| Actions.Extractor.CancelExtraction | app/actions.ts:36-39 | sets the cancel flag |
| Actions.Extractor.ResetCancellation | app/actions.ts:42-45 | clears the cancel flag |
| Actions.Extractor.RunRequests | app/actions.ts:36-45 | the cancel and reset requests that complete during an await leave the flag as the last of them set it |
| Actions.Extractor.Catch | app/actions.ts:214-236 | the catch block computes the specified step and publishes the error snapshot unless it rethrows |
| Actions.Extractor.ProcessUrl | app/actions.ts:81-237 | the loop body computes the specified step for the flag it was entered with; the flag afterwards is the step's, and the stored progress is the last snapshot it published |
| Actions.Extractor.AfterFetch | app/actions.ts:111-149 | the code after the fetch computes the specified step and leaves the progress at its last snapshot |
| Actions.Extractor.PromptAndAsk | app/actions.ts:151-172 | the prompt and the model call compute the specified step and leave the progress at its last snapshot |
| Actions.Extractor.Finish | app/actions.ts:174-213 | parsing, pushing the record, the completion snapshot and the pause compute the specified step |
| Actions.Extractor.Advance | app/actions.ts:81-237 | one iteration turns the trace of the first i URLs into the trace of the first i + 1 |
| Actions.Extractor.RunLoop | app/actions.ts:81-237 | the loop computes the trace of all URLs, stopping at the first cancellation; the stored progress is its last snapshot |
| Actions.Extractor.ExtractProductData | app/actions.ts:60-270 | the run returns the specified outcome (the records, or the cancellation error), publishes the specified snapshots in order and leaves the stored progress at the last of them |
| Actions.CancelledStays | app/actions.ts:83-86 | once the cancellation error is thrown no later URL changes the trace |
| Actions.OneRecordPerUrl | app/actions.ts:187-190 | a run that is not cancelled has exactly one record per URL, in the order of the URLs, each naming its URL |
| Actions.RunsToTheEnd | app/actions.ts:81-86 | loop bodies that neither throw the cancellation nor set the flag when entered with it cleared let the loop run to the end |
| Actions.UrlRunsToTheEnd | app/actions.ts:111-121 | with no cancel request and no error carrying the cancellation message, a URL entered with the flag cleared neither cancels nor sets it |
| Actions.CancelBeforeRunIgnored | app/actions.ts:64-65 | the flag is cleared at the start, so with no cancel during the run it finishes with one record per URL, each naming its URL |
| Actions.SnapshotEnds | app/actions.ts:68-74 | the first snapshot is at 0 % with the batch size; a finished run ends with the 95 % "Generating spreadsheet..." snapshot and then the 100 % completion snapshot whose index is the batch size |
| Actions.FirstSnapshot | app/actions.ts:68-74 | the loop never removes the initial snapshot |
| Actions.SuccessSnapshots | app/actions.ts:91-209 | a URL fetched, prompted and answered with no cancel pending publishes the fetching, analyzing, extracting, processing and completed snapshots in order, and then the waiting snapshot unless it is the last URL |
| Actions.OneUrlPercents | app/actions.ts:96-198 | with one URL that succeeds the percentages published are 0, 5, 40, 65, 100, 95, 95, 100: progress reaches 100 and then falls back to 95 |
| Actions.TwoUrlPercents | app/actions.ts:96-208 | with two URLs that each publish the success snapshots, the percents are 0, 5, 25, 40, 60, 75, 50, 50, 75, 90, 110, 95, 95, 100 |
| Actions.PercentExceedsHundred | app/actions.ts:96-208 | a run over two URLs fetched, prompted and answered with no cancel publishes 14 snapshots whose percents are 0, 5, 25, 40, 60, 75, 50, 50, 75, 90, 110, 95, 95, 100: the second "Processing extracted data..." reports 110 % |

## Left out

- The React components and hooks, the pages and layout, and `app/action.ts`: user interface, or an earlier variant built on concurrent fan-out and blob uploads.
- The headless-browser, scraping-API and Browse AI fetchers, and `enrichBwsProductData`: network clients whose behaviour lies outside the repository.
- The XLSX workbook, its base64 data URL and the sanitising copy made for it (app/actions.ts:249-255, lib/services/extraction-service.ts:122-149), and `revalidatePath`: library output that no other part reads.
- The `url-processing` browser event (lib/services/extraction-service.ts:22-26): a UI notification that only runs in a browser.
- `exportToJSON` and the Blob and anchor download in `lib/utils/export-utils.ts`: browser I/O around `JSON.stringify`.
- The logger, and `generateExtractionId`, which draws on the clock and on randomness.
- The Redis client's construction and credentials. The store is a map from key to value and expiry, and the clock is a parameter.
- `fetch`, `generateText`, `JSON.parse`, `JSON.stringify`, `new URL`, `parseInt` and regular-expression matching are values passed in (`Runtime`, `World`, `Engine`). Every property is proved for all of their behaviours, so no property depends on how they are implemented.
- Timers and `sleep`: a wait is recorded as a `SleepCall` with its duration, and the stream's timers as the delay before the next poll. Nothing is actually delayed.
- Concurrency is modelled only as the cancel and reset requests that complete while the first-generation loop awaits (`World.during`). Interleavings at other points cannot change anything the loop reads.
- The HTML patterns of both reducers, and the BWS volume and alcohol patterns, are kept as their literal text and matched by the engine. Only `Sound` is assumed of that engine. The fence, brace-span, whitespace and BWS id, name, price and category patterns are modelled character by character.
- Strings are sequences of UTF-16 code units, and case mapping is ASCII only, so lengths and title-casing are exact only for such text.
- ExtractionService.StringifyObjectFields returns a new record rather than writing the fields of the pushed object in place. Nothing else holds that object while it is rewritten.
- The `catch` around the header parsing (lib/services/extraction-service.ts:83-86) is not modelled, because `parseInt` cannot throw. A header it cannot read gives NaN, and the NaN wait is modelled.
- In the second generation the rate-limit branch is never taken. `extractDataWithAI` catches every model error itself, so the only failure that reaches the retry loop is the URL error of the prompt builder, and that is not a rate limit. The retry loop is therefore proved for any sequence of attempt outcomes (`RetryFrom`), and then specialised to the real attempt (`PipelineNeverRateLimited`).
- Actions.Round rounds the exact fraction half up, while the source rounds a double-precision product. Where the exact percent ends in .5 the source can publish one less: with 4 URLs, the "Analyzing" percent of the third is 67 in the source and 68 here; with 40 URLs, the "Fetching" percent of index 23 is 57 in the source and 58 here.
- Actions.Extractor.ExtractProductData: the percents it publishes are the exact-fraction ones, so at the .5 cases above a snapshot can be one higher than the source's.
- Actions.SuccessSnapshots: the percents stated are the exact-fraction ones, with the same difference at the .5 cases.
- ExportUtils.Cell: a nested value on which `join` throws (an object that owns "toString") is shown as an empty cell (`Shown`) instead of ending the export with a `TypeError`. Neither pipeline stores a nested value (`DataParser.ParsedRecordIsFlat`, `AiService.ParsedRecordBIsScalar`), so no record that reaches the export holds one.
- Inherited properties of `Object.prototype` are not modelled: a header such as `constructor`, read on a record that lacks it, is treated as missing. Only own keys are modelled, so the prototype change a `__proto__` assignment makes is not.
- ExportUtils.CsvLines: the split into lines is proved only when no key and no value holds a line feed. A quoted string with a line feed spans lines, as RFC 4180 allows, and is read back per field (`QuotedField`) but not per file. An array or object value is written as JavaScript prints it, unquoted even when that text holds a comma, as the source does.
