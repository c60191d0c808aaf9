# Job ingestion pipeline — a Dafny model

This project models the core of a job-feed importer. The server side is:

- a **scheduler** (`cronService.js`) that seeds the built-in Jobicy RSS feeds and queues one import task per active feed URL on every sweep, with an overlap guard;
- a **worker** (`jobWorker.js`, `processJob`) that runs one task. It creates a run record and fetches the feed, then imports the postings and finalizes the record;
- a **fetcher** (`jobFetcherService.js`) that requests a feed, with retries and exponential back-off. It parses the XML (`xmlParser.js`), extracts the items, and turns each one into a canonical posting (`jobTransformer.js`);
- an **importer** (`jobImportService.js`) that validates postings and upserts them by `jobId` in batches. It counts new, updated and failed postings, and writes cumulative counters to the run record after each batch.

On the client side, it models the import-history table's presentation helpers (`ImportHistoryTable.tsx`) and the pager (`Pagination.tsx`).

## How the model is built

Each source file has one Dafny module:

| source | module |
|---|---|
| `jobTransformer.js` | `JobTransformer` |
| `xmlParser.js` | `XmlParser` |
| `jobFetcherService.js` | `JobFetcher` |
| `jobImportService.js` | `JobImport`, plus `RunRecord` for the run-record operations |
| `jobWorker.js` | `JobWorker` |
| `cronService.js` | `CronService` |
| `ImportHistoryTable.tsx` | `ImportHistory` |
| `Pagination.tsx` | `Pagination` |

`Wrappers`, `Strings`, `Numbers` and `Seqs` hold the shared helpers: `Result`/`Option`, trimming, substring search, decimal printing, `Min`/`Max` and sequence associativity.

Everything the code does through a library, a database or the network becomes an explicit parameter.

**Foreign code and I/O:**
- The md5 digest is a function `digest: string -> string`.
- The two xml2js passes and the regular-expression repairs are fields of an `XmlToolkit`.
- The HTTP outcome of retry `n` is `net(n)`.

**Stores and faults:**
- The job collection is a map from `jobId` to posting.
- Store errors are a map from `jobId` to the thrown message.
- The run-record collection carries an optional "unreachable" message.
- The feed collection is a sequence in storage order, with unique URLs.

**Clocks and the queue:**
- Clock readings are plain integers.
- The Bull queue is the sequence of URLs handed to it.

JavaScript truthiness is modelled explicitly: `raw.a || raw.b || d`, `!value`, and `parseInt(...) || 100`.

The `async` control flow runs in program order. Every `try`/`catch` becomes a `Result` or an outcome datatype, so each error path is part of a function's result.

## Model

| member | source | states |
|---|---|---|
| JobTransformer.AsWrittenKeyCollides | server/src/utils/jobTransformer.js:3-8 | As written, the hashed identifier `${link}-${title}-${date}` does not determine its three fields. The items link "x-a", title "b" and link "x", title "a-b" hash the same text. |
| JobTransformer.SplitEscaped | server/src/utils/jobTransformer.js:3-8 | An escaped field followed by a separator reads back as exactly that field and the rest. This is the decoding half of the corrected key. |
| JobTransformer.IdentifierKeyInjective | server/src/utils/jobTransformer.js:3-8 | For the corrected key (fields escaped before joining with '-'), equal hashed texts imply equal link, title and date fields. |
| JobTransformer.GenerateJobId | server/src/utils/jobTransformer.js:3-8 | The id is the digest of the text `${link}-${title}-${date}` exactly as the code builds it. Its properties are stated by GenerateJobIdDeterministic and AsWrittenItemsShareJobId. |
| JobTransformer.GenerateJobIdDeterministic | server/src/utils/jobTransformer.js:3-8 | Items that agree on link, title and publication date hash the same text `${link}-${title}-${date}`, so they get the same generated id whatever else they carry, for any digest. |
| JobTransformer.AsWrittenItemsShareJobId | server/src/utils/jobTransformer.js:3-22 | Two items with no guid or id, link "x-a" with title "b" and link "x" with title "a-b", differ in their link and title yet get the same jobId under every digest, so the second is taken for the first. |
| JobTransformer.CorrectedJobIdSeparates | server/src/utils/jobTransformer.js:3-8 | With the corrected key (fields escaped before joining) and a digest without collisions, items whose link, title or date differ always get different ids. |
| JobTransformer.ResolveJobId | server/src/utils/jobTransformer.js:12-22 | The jobId is the trimmed text of the truthy `guid`. Failing that, it is the trimmed truthy `id`. Failing that, it is the trimmed digest of the code's `${link}-${title}-${date}` text. |
| JobTransformer.GuidDecidesJobId | server/src/utils/jobTransformer.js:12-22 | Two items with the same truthy guid get the same jobId, however their other fields differ. |
| JobTransformer.ResolveTitle | server/src/utils/jobTransformer.js:23 | The title is the item's truthy title value, text or nested, or the text "Untitled Position" when the title is absent or empty. |
| JobTransformer.ResolveCompany | server/src/utils/jobTransformer.js:24 | The company is the first truthy field of company, company_name and organization, or "Unknown" when none is. |
| JobTransformer.ResolveLocation | server/src/utils/jobTransformer.js:25 | The location is the first truthy field of location, region and city, or "Remote". |
| JobTransformer.ResolveUrl | server/src/utils/jobTransformer.js:33 | The URL is the value of the first truthy field of link, url and guid, text or nested, or the empty text. |
| JobTransformer.ResolveJobType | server/src/utils/jobTransformer.js:35-40 | The type is the printed job_type when truthy, else jobType, else type, else the type named by the source URL. The result is never empty unless a field is an object that prints as nothing, so the 'Full-time' fallback of line 40 is dead. |
| JobTransformer.ResolveCategory | server/src/utils/jobTransformer.js:41-46 | The category is the printed category when truthy, else categories, else job_category, else the one the source URL names. It is non-empty except for an object that prints as nothing. |
| JobTransformer.ResolveRegion | server/src/utils/jobTransformer.js:47 | The region is the printed region when truthy, else location, else the one the source URL names. |
| JobTransformer.Transform | server/src/utils/jobTransformer.js:10-58 | The transform succeeds exactly for a non-null item whose description chain ends in text. A null item throws the "reading 'guid'" error, and an object description throws the `replace` error. A posting records its source feed, is active, keeps the raw item, and has a description of at most 5000 characters. |
| JobTransformer.NestedGuidsShareJobId | server/src/utils/jobTransformer.js:12-22 | Every accepted item whose guid is an object gets the same jobId, "[object Object]", so all such items collide. |
| JobTransformer.StripTags | server/src/utils/jobTransformer.js:64 | Tag stripping never lengthens the text. Afterwards no '<' is followed anywhere by a '>', so no tag survives. What is kept is stated by the four lemmas below. |
| JobTransformer.StripTagsKeepsText | server/src/utils/jobTransformer.js:64 | Text before the first '<' is kept character for character, and the stripping continues behind it. |
| JobTransformer.StripTagsDropsTag | server/src/utils/jobTransformer.js:64 | A '<', everything up to the first '>' after it, and that '>' are removed; nothing behind them is touched. |
| JobTransformer.StripTagsKeepsUnclosed | server/src/utils/jobTransformer.js:64 | A '<' with no '>' after it is not a match, so it and everything behind it are kept. |
| JobTransformer.StripTagsKeepsPlain | server/src/utils/jobTransformer.js:64 | Text without '<' comes out unchanged. |
| JobTransformer.DecodeEntities | server/src/utils/jobTransformer.js:65-70 | The six entity replacements, applied in the code's order, never lengthen the text, and leave text without '&' unchanged. |
| JobTransformer.EntitiesKeepPlain | server/src/utils/jobTransformer.js:65-70 | Each of the six patterns starts with '&', so each replacement leaves text without '&' unchanged. |
| JobTransformer.CollapseWhitespace | server/src/utils/jobTransformer.js:71 | After collapsing, no two adjacent characters are whitespace and the only whitespace left is ' '. The text is empty exactly when the input was, its first character is kept or becomes ' ', and a non-blank text stays non-blank. What is kept is stated by the three lemmas below. |
| JobTransformer.CollapseKeepsWord | server/src/utils/jobTransformer.js:71 | A stretch without whitespace is copied character for character, and the collapsing continues behind it. |
| JobTransformer.CollapseRun | server/src/utils/jobTransformer.js:71 | A whole run of whitespace, of any length and any whitespace characters, becomes exactly one ' '. |
| JobTransformer.CollapseKeepsCollapsed | server/src/utils/jobTransformer.js:71 | Text whose whitespace is already single spaces comes out unchanged. |
| JobTransformer.CutKeepsShape | server/src/utils/jobTransformer.js:73 | Cutting a trimmed, collapsed text to 5000 characters keeps it collapsed and its start trimmed. The end stays trimmed unless the cut fell inside the text. |
| JobTransformer.TrimCutShape | server/src/utils/jobTransformer.js:71-73 | Trimming, then cutting, a collapsed text gives at most 5000 characters with no leading whitespace, single spaces only, and no trailing whitespace below the cap. |
| JobTransformer.TrimAndCut | server/src/utils/jobTransformer.js:72-73 | The final two steps of the cleaning produce the bounded, collapsed, trimmed shape. |
| JobTransformer.CleanDescription | server/src/utils/jobTransformer.js:60-74 | An empty description gives "". Any description gives at most 5000 characters, with no leading whitespace, only single plain spaces, and no trailing whitespace unless the cap cut it. Which characters survive is stated by the lemmas below. |
| JobTransformer.CleanDescriptionOfPlainText | server/src/utils/jobTransformer.js:60-74 | For text without '<' or '&', only whitespace changes: runs become one space, then the ends are trimmed and the text is cut to 5000 characters. |
| JobTransformer.CleanDescriptionKeepsCleanText | server/src/utils/jobTransformer.js:60-74 | A trimmed, single-spaced text of at most 5000 characters without '<' or '&' comes out unchanged. |
| JobTransformer.CleanDescriptionKeepsWords | server/src/utils/jobTransformer.js:60-74 | For any three words x, y and z, `<p>x <strong>y</strong> &nbsp; z</p>` cleans to "x y z": the tags go, the entity becomes a space, and the three spaces around it become one. |
| JobTransformer.CleanDescriptionExample | server/src/utils/__tests__/jobTransformer.test.js:45-59 | The test's description `<p>Great <strong>opportunity</strong> &nbsp; here</p>` cleans to exactly "Great opportunity here". That is stronger than the test's "contains" check. |
| JobTransformer.ExtractJobType | server/src/utils/jobTransformer.js:76-81 | The type is always Full-time, Part-time or Contract. It is Part-time exactly when the URL says part-time but not full-time, and Contract exactly when it says neither but says contract. |
| JobTransformer.LookupCategory | server/src/utils/jobTransformer.js:94-98 | The result is the value of the first table key the source contains. If no key is contained, it is the default. It is always the default or some table value. |
| JobTransformer.FirstContained | server/src/utils/jobTransformer.js:94-96 | The index found is of a contained key, and no earlier key is contained. |
| JobTransformer.LookupCategoryFirst | server/src/utils/jobTransformer.js:83-99 | With a non-empty default and non-empty values, the lookup is never empty. It returns the value of the first contained key. |
| JobTransformer.ExtractCategory | server/src/utils/jobTransformer.js:83-99 | The category is never empty. It is 'General' when the URL contains no category key, and otherwise the category of the first key in map order. |
| JobTransformer.ExtractRegion | server/src/utils/jobTransformer.js:101-106 | The region is France, USA, UK or empty. France wins over USA, and USA over UK, each exactly when its marker is the first one present. |
| JobTransformer.MissingIsTrimEmpty | server/src/utils/jobTransformer.js:111 | A field counts as missing exactly when trimming leaves it empty. |
| JobTransformer.CountMissing | server/src/utils/jobTransformer.js:108-131 | The count of missing fields among the first k is at most k. It is zero exactly when none of them is missing. |
| JobTransformer.MissingUpToSpec | server/src/utils/jobTransformer.js:108-126 | The collected messages are one per missing field, every one a field's message. Missing field i's message sits right after those of the missing fields before it. |
| JobTransformer.MissingUpToLength | server/src/utils/jobTransformer.js:108-126 | Exactly one message is collected per missing field. |
| JobTransformer.MissingUpToAt | server/src/utils/jobTransformer.js:108-126 | A missing field's message is placed after those of the earlier missing fields, whatever fields follow. |
| JobTransformer.MissingUpToMessages | server/src/utils/jobTransformer.js:108-126 | Every collected message is one of the required-field messages. |
| JobTransformer.ValidateJob | server/src/utils/jobTransformer.js:108-131 | Validation throws exactly when the title or the URL is an object or array, since `.trim` is not a function on it: a nested title gives "job.title.trim is not a function", and otherwise a nested URL gives the `url` message. When it returns, the posting is valid exactly when there are no error messages. |
| JobTransformer.ValidateJobSpec | server/src/utils/jobTransformer.js:108-131 | Validation returns exactly when title and URL are text. Then the posting is valid iff none of jobId, title, url and source is blank, and every blank one is reported, one message each, in field order. |
| XmlParser.StripControl | server/src/utils/xmlParser.js:17 | The result has no character in U+0000-U+0008, U+000B, U+000C or U+000E-U+001F. Every other character keeps its number of occurrences. |
| XmlParser.StripControlAppend | server/src/utils/xmlParser.js:17 | Removal works character by character: cleaning a concatenation is cleaning each part. |
| XmlParser.StripControlKeepsClean | server/src/utils/xmlParser.js:17 | A text without those characters is left exactly as it is. |
| XmlParser.StripControlIdempotent | server/src/utils/xmlParser.js:17 | Cleaning twice is cleaning once. |
| XmlParser.CleanXml | server/src/utils/xmlParser.js:4-20 | A non-string body comes back unchanged. A string stays a string and ends without control characters. |
| XmlParser.Fallback | server/src/utils/xmlParser.js:46-59 | On a body that is not a string, the fallback pass always fails, because `xmlData.replace` throws. |
| XmlParser.ParseXml | server/src/utils/xmlParser.js:22-66 | The primary pass on the cleaned body wins. When it fails, the fallback's tree is returned. The result is an error exactly when both passes fail, and the error is "Failed to parse XML: " plus the primary pass's message. |
| XmlParser.FallbackIgnoresCleaning | server/src/utils/xmlParser.js:46-57 | Once the primary pass has failed, the cleaning repairs play no part in the outcome, because the fallback reads the original body. |
| XmlParser.ParseFailureMentionsParse | server/src/utils/xmlParser.js:63 | Every parse failure's message contains both "parse" and "XML", so the fetcher will not retry it. |
| XmlParser.AsList | server/src/utils/xmlParser.js:77-81 | An array is its own item list, and any other value becomes a one-element list. |
| XmlParser.ExtractJobs | server/src/utils/xmlParser.js:68-91 | A falsy tree or a text gives no items, and a root array is its own list. `channel.item` takes precedence over a top-level `item`. |
| XmlParser.RssShape | server/src/utils/xmlParser.js:76-79 | A channel's repeated items give their list, and a single item gives a one-element list. A top-level `item` beside the channel is ignored. |
| XmlParser.ItemShape | server/src/utils/xmlParser.js:80-84 | Without a channel, a top-level `item` is used. An object with neither yields no items. |
| XmlParser.ValueOf | server/src/utils/xmlParser.js:27-39 | A parsed object or array reaches the transformer as a nested value, and text as text. Its printed form is what `String` makes of it. |
| XmlParser.ItemOf | server/src/utils/xmlParser.js:27-39 | An item is null exactly when the parser produced `null` for it (`emptyTag: null`). What the transformer reads from the other items is stated by `ItemOfReadsTree`. |
| XmlParser.ItemOfReadsTree | server/src/utils/xmlParser.js:27-39 | For an object item, property k is present exactly when the tree has a non-null k. It carries that value, or its printed form, and is truthy exactly when the tree's value is truthy. A string item (`<item>x</item>` under `explicitArray: false`) has exactly one of the properties the transformer reads: the inherited `String.prototype.link`, a truthy method printed as native code. An array item has none. |
| XmlParser.TextItemReadsLinkMethod | server/src/utils/jobTransformer.js:3-33 | A text-only item is transformed. Its jobId is the digest of the `link` method's printed text followed by "--", its title is 'Untitled Position' and its URL is the method itself. Validation then throws "job.url.trim is not a function" (line 119), so the import rejects the item with that reason. |
| XmlParser.AttributedGuidsShareJobId | server/src/utils/xmlParser.js:29 | Since attributes merge into objects, every accepted item whose guid carries an attribute gets the same jobId "[object Object]". |
| XmlParser.NestedDescriptionRejected | server/src/utils/xmlParser.js:29 | An item whose description has attributes or children is rejected by the transform. |
| JobFetcher.HttpErrorClassification | server/src/services/jobFetcherService.js:23-24 | The thrown "HTTP status: text" message counts as a parsing error (the test of line 54) exactly when the server's status text does. |
| JobFetcher.RejectedStatusNotParsing | server/src/services/jobFetcherService.js:16-21 | The HTTP client's "Request failed with status code N", thrown by the request for a non-2xx status, never counts as a parsing error at line 54. |
| JobFetcher.NoMarkerLetters | server/src/services/jobFetcherService.js:54 | A text with neither 'p' nor 'X' is never classified as a parsing error. |
| JobFetcher.CountAccepted | server/src/services/jobFetcherService.js:33-42 | No more items are accepted than were fetched. |
| JobFetcher.TransformItem | server/src/services/jobFetcherService.js:34-41 | An item yields a posting exactly when its transform does not throw. The posting names the fetched URL as its source and is active. |
| JobFetcher.TransformAll | server/src/services/jobFetcherService.js:33-42 | The postings are those of the accepted items, one each, all sourced from the URL and active. |
| JobFetcher.TransformAllAppend | server/src/services/jobFetcherService.js:33-42 | The transform works item by item: a feed's postings are those of its first part followed by those of the rest. |
| JobFetcher.Attempt | server/src/services/jobFetcherService.js:16-42 | A request error throws its message, and a non-2xx status throws the HTTP client's message. A 2xx other than 200 throws the status line. A 200 fails exactly when the body does not parse. Postings come from this URL. |
| JobFetcher.RetryLoop | server/src/services/jobFetcherService.js:50-73 | At most one more attempt than the retries left, and the waits are the back-off delays in order. Every attempt before the last failed with a non-parsing error while below the cap. The result is the last attempt's postings or error, and a failure is final only when it is a parsing error or the retries are used up. Success iff no error, and a failure has no postings. |
| JobFetcher.FetchFromUrl | server/src/services/jobFetcherService.js:12-74 | The same promises in terms of the network's responses: every request before the last failed, did not name parsing, and had retries left. The fetch resolves to a result record, never throws, and names its URL. |
| JobFetcher.FetchJobs | server/src/services/jobFetcherService.js:12 | From retry count 0: between one and four requests, every one but the last failed with a retryable error, and a successful fetch carries the postings of its last request. |
| JobFetcher.BackoffSchedule | server/src/services/jobFetcherService.js:56-59 | From a fresh start, at most 4 requests are made (three retries, line 9), with waits of 1000, 2000 and 4000 ms in turn. |
| JobFetcher.ParseFailureNotRetried | server/src/services/jobFetcherService.js:53-72 | A 200 response that both parse passes reject ends the fetch after one request, with the parse error. |
| JobFetcher.HttpErrorRetried | server/src/services/jobFetcherService.js:23-59 | A 2xx response other than 200 is retried after the back-off, while retries remain, unless the server's status text mentions parsing. |
| JobFetcher.RejectedStatusRetried | server/src/services/jobFetcherService.js:50-72 | A response outside 2xx, which the request at lines 16-21 rejects, is always retried while retries remain. A fetch that ends on one fails with the HTTP client's message. |
| JobFetcher.RejectedResult | server/src/services/jobFetcherService.js:86-92 | A rejected fetch becomes a failure record for its own URL, with no postings and the rejection's reason. |
| JobFetcher.FetchFromMultipleSources | server/src/services/jobFetcherService.js:76-95 | There is one result per URL, in input order. A fulfilled fetch gives its own record, and a rejected one a failure record carrying its URL. |
| JobFetcher.FanOutKeepsOrder | server/src/services/jobFetcherService.js:76-95 | Result i belongs to URL i. |
| JobImport.SomeTrimmedDiffersSpec | server/src/services/jobImportService.js:100-104 | The field comparison holds exactly when some field differs after trimming. |
| JobImport.HasSignificantChanges | server/src/services/jobImportService.js:97-105 | A significant change is one of title, description, location, company or jobType that differs after trimming. |
| JobImport.SignificantChangesIrreflexiveSymmetric | server/src/services/jobImportService.js:97-105 | A posting never differs significantly from itself, and the test is symmetric. |
| JobImport.SignificantChangesIgnoreOtherFields | server/src/services/jobImportService.js:97-105 | Changing any uncompared field, or surrounding whitespace, is never a significant change. |
| JobImport.DetailId | server/src/services/jobImportService.js:84 | The failure's id is never empty, and it is the jobId whenever that is non-empty. |
| JobImport.ImportItem | server/src/services/jobImportService.js:62-91 | An item is rejected exactly when validation throws, finds errors, or the store throws; then the store is untouched. The detail carries the id, the item and the reason: the thrown TypeError, the validation errors joined, or the store's message. An item is created iff its jobId is new, and updated iff stored and significantly changed. Only that jobId's posting may change. |
| JobImport.NestedTitleOrUrlRejected | server/src/services/jobImportService.js:62-90 | A transformed item whose title or URL is an object is rejected with the `.trim` TypeError (the title's first), and the store is untouched. |
| JobImport.Count | server/src/services/jobImportService.js:75-82 | One item bumps at most one counter, and it has a failure detail exactly when it failed. |
| JobImport.ProcessBatch | server/src/services/jobImportService.js:54-95 | The counters never exceed the number of items, and every failure has its detail. |
| JobImport.ProcessBatchFrame | server/src/services/jobImportService.js:54-95 | A batch never removes a posting. It changes or adds only the postings of its own items' jobIds. |
| JobImport.ProcessBatchFrameAt | server/src/services/jobImportService.js:54-95 | The frame of a batch, one jobId at a time. |
| JobImport.ProcessBatchStores | server/src/services/jobImportService.js:62-80 | After a batch, every valid item whose store calls succeed is stored. |
| JobImport.ProcessBatchAppend | server/src/services/jobImportService.js:54-95 | Processing two lists in turn is processing their concatenation: the store carries over, and the tallies and details add up. |
| JobImport.CountersGrow | server/src/services/jobImportService.js:27-30 | The counters and failure details of a longer run extend those of its prefix. |
| JobImport.CheckpointsGrow | server/src/services/jobImportService.js:27-36 | Successive checkpoints written to the run record never decrease. |
| JobImport.ImportSettles | server/src/services/jobImportService.js:62-80 | After importing items with distinct jobIds, every valid item without a store error is stored with no significant change against it. |
| JobImport.SettledImportIsQuiet | server/src/services/jobImportService.js:62-80 | Importing already-settled items creates and updates nothing, and leaves the store unchanged. |
| JobImport.ReimportIsQuiet | server/src/services/jobImportService.js:62-80 | Importing the same items (distinct jobIds) a second time creates and updates nothing. |
| JobImport.NumBatchesIsCeiling | server/src/services/jobImportService.js:23 | The number of loop passes is the ceiling of n / size: the batches cover all items and the last one is not empty. |
| JobImport.ImportJobsStops | server/src/services/jobImportService.js:23 | With a positive size, the loop makes exactly that many passes. Each pass starts inside the list, and the last pass reaches its end. |
| JobImport.Batches | server/src/services/jobImportService.js:23-24 | There is one slice per pass, each non-empty and at most the batch size. All but the last are full. |
| JobImport.BatchesPartition | server/src/services/jobImportService.js:23-24 | The slices, put back together, are the input: every item is in exactly one batch, in order. |
| JobImport.BatchSlice | server/src/services/jobImportService.js:23-24 | Batch m is the slice `jobs.slice(m·size, (m+1)·size)` the loop takes on pass m, and that pass starts inside the list. |
| JobImport.BatchStartIsProduct | server/src/services/jobImportService.js:23 | Pass m starts at m times the batch size. |
| JobImport.PrefixStep | server/src/services/jobImportService.js:23-30 | Importing the first `end` items is importing the first i, then the items between. |
| JobImport.ImporterComposes | server/src/services/jobImportService.js:54-95 | `processBatch` composes over prefixes, which the batch loop relies on. |
| JobImport.Run | server/src/services/jobImportService.js:23-43 | After m passes, the loop index is at m times the size and m checkpoints have been written. |
| JobImport.Checkpoints | server/src/services/jobImportService.js:32-36 | One checkpoint per pass. |
| JobImport.CheckpointsAreCumulative | server/src/services/jobImportService.js:27-36 | Checkpoint k holds the counters of all items in the first k + 1 batches. |
| JobImport.RunImportsPrefix | server/src/services/jobImportService.js:23-30 | While each pass began inside the list, the store and tally after m passes are those of importing every item before the next start in one go. |
| JobImport.RunCheckpoints | server/src/services/jobImportService.js:27-36 | The checkpoints written are the cumulative counters after each batch. |
| JobImport.CheckpointWrite | server/src/services/jobImportService.js:107-113 | A checkpoint's write leaves the record holding its counters, whatever earlier checkpoints wrote. |
| JobImport.RunLogs | server/src/services/jobImportService.js:32-36 | After the loop, the run record holds the last checkpoint's counters. With no items, it is untouched. |
| JobImport.RunToEnd | server/src/services/jobImportService.js:23-43 | After the last pass, the store and tally are those of importing all items at once. Each checkpoint is cumulative, and the record holds the last one. |
| JobImport.ImportJobsIsPerItem | server/src/services/jobImportService.js:11-52 | `importJobs` returns what importing the items one by one gives, so the result does not depend on the batch size. totalFetched is the item count, and totalImported is new plus updated. |
| JobImport.ImportJobs | server/src/services/jobImportService.js:11-52 | One checkpoint is written per batch, the ceiling of n / size. totalFetched is the number of items, and totalImported is new plus updated. |
| JobImport.ImportJobsCheckpoints | server/src/services/jobImportService.js:23-43 | There is one checkpoint per batch, with the cumulative counters so far. The run record ends with the last checkpoint. |
| JobImport.ImportJobsKeepsRecords | server/src/services/jobImportService.js:107-113 | Checkpoints only change counters. Every run record keeps its id, file name, status, start time and duration. |
| JobImport.ImportJobsKeepsRecord | server/src/services/jobImportService.js:107-113 | The same, for one record. |
| JobImport.NegativeBatchSizeNeverEnds | server/src/services/jobImportService.js:8-23 | As written, a negative BATCH_SIZE is kept, and the loop index never reaches the end of a non-empty list. |
| JobImport.LoopIndexNeverRises | server/src/services/jobImportService.js:23 | With a non-positive step, the loop index never rises above 0, and after the first pass it is at most the step. |
| JobImport.SliceIndex | server/src/services/jobImportService.js:24 | A `slice` bound within the list is kept, and a negative one counts back from the end, down to 0. |
| JobImport.SliceOfPass | server/src/services/jobImportService.js:24 | For a positive size, `jobs.slice(i, i + size)` is the list from i up to i + size, both capped at its length. |
| JobImport.LaterSlicesEmpty | server/src/services/jobImportService.js:23-24 | With a non-positive size, every pass after the first takes an empty slice. |
| JobImport.ImportJobsAsWritten | server/src/services/jobImportService.js:8-52 | With the batch size as the code computes it, the loop spins forever exactly when the size is not positive and the list is not empty. Otherwise it finishes, as the batched import for a positive size, and with zero counters and nothing written for an empty list. |
| JobImport.ImportJobsAsWrittenEnds | server/src/services/jobImportService.js:11-52 | When the loop ends, the store and the counters are those of importing the items one by one. The set of run records is kept, and a given record keeps its file name, status and start time. |
| JobImport.SpinningLoopStaysPut | server/src/services/jobImportService.js:23-36 | Once the loop spins, every later pass imports nothing and rewrites the same checkpoint, so the state after the first pass is kept forever. |
| JobImport.BatchSize | server/src/services/jobImportService.js:8 | The corrected batch size is always positive. It is the parsed setting when that is positive, and agrees with the code except where the code takes a negative value. |
| RunRecord.CreateImportLog | server/src/services/jobImportService.js:115-127 | Creation fails exactly on a store error (rethrown) or a missing file name. Otherwise a new id gets a processing record started now, with zero counters, and every other record is unchanged. |
| RunRecord.UpdateImportLog | server/src/services/jobImportService.js:107-113 | Only the three counters of the named record change. A store error or a missing record changes nothing and is swallowed. |
| RunRecord.UpdateOverwrites | server/src/services/jobImportService.js:107-113 | A checkpoint overwrites the previous one: only the latest counters remain. |
| RunRecord.FinalizeImportLog | server/src/services/jobImportService.js:129-147 | Finalizing sets status, error, end time and statistics. Absent details keep the stored ones. The duration is measured from the stored start, and only when there is one. Other records are untouched, and errors are swallowed. |
| RunRecord.CreateThenFinalize | server/src/services/jobImportService.js:115-147 | A record created at `start` and finalized ends in the given status, with duration `measuredAt - start`. |
| RunRecord.FinalizeStarted | server/src/services/jobImportService.js:129-147 | Finalizing a started record gives the status, error and file name, and the duration since its start. |
| JobWorker.FetchErrorMessage | server/src/workers/jobWorker.js:25 | The thrown message is never empty. It is the fetch error whenever that is non-empty. |
| JobWorker.ProcessJob | server/src/workers/jobWorker.js:11-69 | The handler never settles exactly when the record was created, the fetch succeeded and the import loop does not end. When it resolves, it names its URL after progress 10, 40, 90, 100; when it throws, the job store is untouched and at most progress 10 was reported. |
| JobWorker.CreateFailureIsRethrown | server/src/workers/jobWorker.js:15-67 | When the run record cannot be created, that error is thrown at once, with no progress, no record change and no import. |
| JobWorker.FetchFailureFinalizesFailed | server/src/workers/jobWorker.js:20-67 | A failed fetch throws its message after progress 10. The record ends failed, with zero counters, that message, and the duration since its start. Nothing is imported. |
| JobWorker.SuccessReturnsStats | server/src/workers/jobWorker.js:28-48 | A successful fetch whose import loop ends reports progress 10, 40, 90, 100, whatever happens to the record store. It returns the URL and the statistics of importing the fetched postings one by one. |
| JobWorker.SuccessFinalizesCompleted | server/src/workers/jobWorker.js:38 | When the import loop ends and finalization reaches the store, the record is completed, with no error and the duration since its start. |
| JobWorker.SuccessRecordsStats | server/src/workers/jobWorker.js:30-38 | When the import loop ends and finalization reaches the store, the record holds that import's statistics, failure details included. |
| JobWorker.NoRecordLeftProcessing | server/src/workers/jobWorker.js:11-69 | When the handler created a run record, finalization reaches the store and the import loop ends, that record is no longer processing when the handler returns or throws. |
| JobWorker.RecordLeftProcessingExactly | server/src/workers/jobWorker.js:11-69 | Once the record is created, it is left processing exactly when finalization fails (its error is swallowed, lines 52-65) or the fetch succeeded and the import loop never ends. |
| JobWorker.NegativeBatchSizeHangs | server/src/workers/jobWorker.js:28-36 | With a batch size the code computes as negative and a non-empty feed, the handler never settles: it reported 10 and 40, the store holds the import of `jobs.slice(0, size)`, and the record stays processing. |
| JobWorker.ProcessJobProgress | server/src/workers/jobWorker.js:11-69 | The handler reports the progress of the stage it reached, and resolves exactly when it created the record, the fetch succeeded and the import loop ended. |
| JobWorker.ProgressOfRises | server/src/workers/jobWorker.js:20-40 | Each possible list of progress reports rises strictly. It ends at 100 exactly for a run that got through the import. |
| JobWorker.ProgressRises | server/src/workers/jobWorker.js:20-40 | A run's progress reports rise strictly, and reach 100 exactly when the handler resolves. |
| CronService.Upsert | server/src/services/cronService.js:69-73 | An upsert keeps the stored URLs, and adds the seed's URL at the end when it was not stored. |
| CronService.UpsertSpec | server/src/services/cronService.js:69-73 | With unique URLs, only the feed with the seed's URL takes the seed's fields; every other feed is unchanged. A new feed is appended exactly when the URL was not stored, and URLs stay unique. |
| CronService.UpsertAt | server/src/services/cronService.js:69-73 | The upsert rewrites the feed with the seed's URL and no other. |
| CronService.UpsertAppends | server/src/services/cronService.js:69-73 | An upsert of a URL not stored appends the new active feed. |
| CronService.UpsertHolds | server/src/services/cronService.js:69-73 | After an upsert, the seed is stored with its fields in place. |
| CronService.UpsertKeepsHeld | server/src/services/cronService.js:69-73 | An upsert of another URL keeps a stored seed in place. |
| CronService.SetSeedIdempotent | server/src/services/cronService.js:71 | Applying a seed's `$set` twice is applying it once. |
| CronService.SeedAllUrls | server/src/services/cronService.js:68-74 | Seeding keeps URLs unique, and stores exactly the old URLs plus the seeds' URLs. |
| CronService.SeedAllSeeds | server/src/services/cronService.js:68-74 | After seeding, every seed is stored with its fields in place. |
| CronService.SeedAllKeepsHeld | server/src/services/cronService.js:68-74 | Seeding other URLs keeps a stored seed in place. |
| CronService.SeededIsFixed | server/src/services/cronService.js:68-74 | Seeding feeds that are already seeded changes nothing. |
| CronService.SeedAllSplit | server/src/services/cronService.js:68-74 | Seeding in two runs is seeding once. |
| CronService.SeedAllFresh | server/src/services/cronService.js:68-74 | Seeding a store that holds none of the seeds' URLs appends one new active feed per seed, in seed order. |
| CronService.DefaultFeedsDistinct | server/src/services/cronService.js:15-58 | The eight built-in feeds have pairwise different URLs. |
| CronService.DistinctByLength | server/src/services/cronService.js:15-58 | Seeds whose URLs differ pairwise in length have pairwise different URLs. |
| CronService.ReseedingIsFixed | server/src/services/cronService.js:68-74 | Seeding again after a full seeding, completely or up to a failing upsert, changes nothing, and URLs stay unique. |
| CronService.ResumedSeedingCompletes | server/src/services/cronService.js:68-79 | A seeding cut short by a failing upsert, followed by a complete one, is one complete seeding. |
| CronService.InitializeIsIdempotent | server/src/services/cronService.js:13-80 | `initializeJobFeeds` is idempotent: after a complete run, running it again, completely or not, changes nothing. At most one feed is stored per URL. |
| CronService.InterruptedSeedingCompletes | server/src/services/cronService.js:13-80 | A run of `initializeJobFeeds` interrupted by a store error, followed by a normal run, leaves the same feeds as one uninterrupted run. |
| CronService.InitializeJobFeeds | server/src/services/cronService.js:13-80 | From a store with unique URLs, URLs stay unique, and the stored URLs are the old ones plus those of the built-in feeds upserted before any failing upsert; the error itself is swallowed. |
| CronService.ActiveFeeds | server/src/services/cronService.js:94 | The active feeds are exactly the stored feeds that are active. |
| CronService.ActiveConcat | server/src/services/cronService.js:94 | The active feeds of a concatenation are those of each part. |
| CronService.AllActive | server/src/services/cronService.js:94 | A store whose feeds are all active is its own active list. |
| CronService.ActiveUrlsDistinct | server/src/services/cronService.js:94-108 | The URLs queued in one sweep are pairwise different. |
| CronService.MarkPending | server/src/services/cronService.js:111-118 | Marking keeps the number of feeds. |
| CronService.MarkPendingSpec | server/src/services/cronService.js:111-118 | Marking makes each active feed whose update succeeded pending at `now`, and changes nothing else. URLs are kept, and so is whether any feed is active. |
| CronService.MarkPendingAt | server/src/services/cronService.js:111-118 | The marking of the feed at one index. |
| CronService.MarkPendingKeeps | server/src/services/cronService.js:111-118 | Marking keeps the URLs and whether any feed is active. |
| CronService.MarkAfterInactive | server/src/services/cronService.js:111-118 | Marking a store whose active feeds all follow its inactive ones leaves the inactive ones alone and marks the rest pending. |
| CronService.SeedFresh | server/src/services/cronService.js:96-99 | Seeding a store with no active feed and none of the built-in URLs leaves exactly the new feeds active, in seed order. |
| CronService.EnqueueFreshFeeds | server/src/services/cronService.js:108-118 | Queueing, with no errors, from a store whose only active feeds are new ones queues those and marks them pending. |
| CronService.FetchAndQueueJobs | server/src/services/cronService.js:82-127 | A sweep is skipped exactly when another holds the guard. It leaves the guard as it found it, and only appends to the queue. |
| CronService.OverlapIsSkipped | server/src/services/cronService.js:83-86 | While a sweep is in flight, a scheduled or a manual (lines 152-155) sweep changes nothing. |
| CronService.TriggerManualFetch | server/src/services/cronService.js:152-155 | A manual fetch is skipped exactly when a sweep holds the guard, leaves the guard as it found it, and only appends to the queue. |
| CronService.GuardHeldThroughout | server/src/services/cronService.js:88-126 | The guard is raised before the first store call and held until the end. A sweep started meanwhile is skipped, and the guard is down again on every path. |
| CronService.SweepQueuesActiveFeeds | server/src/services/cronService.js:94-118 | With active feeds stored, a sweep seeds nothing. It queues exactly the active feeds' URLs, in storage order, each once, and marks them pending. |
| CronService.SweepSeedsWhenEmpty | server/src/services/cronService.js:96-106 | With no active feed, a sweep seeds the built-in feeds and reads again. If that read is empty, it queues nothing. |
| CronService.SweepSwallowsErrors | server/src/services/cronService.js:122-126 | A failed read or enqueue ends the sweep as failed, with nothing queued and the guard down. A failed first read leaves the feeds as they were. |
| CronService.FirstSweepQueuesDefaults | server/src/services/cronService.js:94-118 | On a store without active or built-in feeds, an error-free sweep appends the built-in feeds, active and pending. It queues their URLs in list order and leaves the stored feeds untouched. |
| CronService.NewScheduler | server/src/services/cronService.js:7-11 | A new service is idle and unscheduled. Its schedule is the environment's non-empty setting, and never empty. |
| CronService.Start | server/src/services/cronService.js:129-142 | Starting leaves a schedule in place and changes nothing when one already exists. |
| CronService.Stop | server/src/services/cronService.js:144-150 | Stopping leaves no schedule, and does nothing when there is none. |
| CronService.StartStopLaws | server/src/services/cronService.js:129-150 | Starting twice is starting once, and stopping twice is stopping once. Stop undoes a start made from the stopped state, and vice versa. |
| ImportHistory.StatusVariantOfRecord | client/src/components/ImportHistoryTable.tsx:34-47 | Over the stored statuses, each badge style belongs to exactly one status: failed is destructive, completed filled, processing secondary, pending outline. Different statuses get different badges. |
| ImportHistory.StatusVariant | client/src/components/ImportHistoryTable.tsx:34-47 | Only "completed" gets the filled badge, only "processing" the secondary one, and only "failed" the destructive one; every other string, "pending" included, gets the outline. |
| ImportHistory.FormatDuration | client/src/components/ImportHistoryTable.tsx:49-56 | The text is "N/A" exactly when the duration is absent or zero. |
| ImportHistory.FormatDurationShapes | client/src/components/ImportHistoryTable.tsx:51-55 | Under a minute the text is whole seconds plus "s". From a minute on, it is minutes and the remaining seconds, under 60. |
| ImportHistory.LeadingDigits | client/src/components/ImportHistoryTable.tsx:52-55 | The decimal prefix used to read a duration text back. |
| ImportHistory.ReadSecondsText | client/src/components/ImportHistoryTable.tsx:52 | The "<s>s" form reads back as s seconds. |
| ImportHistory.ReadMinutesText | client/src/components/ImportHistoryTable.tsx:55 | The "<m>m <s>s" form reads back as 60 m + s seconds. |
| ImportHistory.ReadFormattedDuration | client/src/components/ImportHistoryTable.tsx:49-56 | Every non-zero duration's text reads back as its whole seconds (round trip). |
| ImportHistory.FormatDurationInjective | client/src/components/ImportHistoryTable.tsx:49-56 | Durations with different whole seconds never show the same text. |
| ImportHistory.FailedDetails | client/src/components/ImportHistoryTable.tsx:209-230 | The failed-jobs list is shown exactly when the record has at least one failure detail. |
| ImportHistory.FailedDetailsAccount | client/src/components/ImportHistoryTable.tsx:217-229 | The list shows the first min(5, n) failures in order, and announces more exactly when there are over five. The shown and announced numbers add up to n. |
| ImportHistory.MoreLine | client/src/components/ImportHistoryTable.tsx:226-229 | The overflow line is "... and ", then a run of decimal digits that reads back as the number of failures not shown, then " more". |
| Pagination.Range | client/src/components/Pagination.tsx:25-27 | The loop yields max(0, hi - lo + 1) consecutive integers from lo. |
| Pagination.PageNumbersIsCenteredWindow | client/src/components/Pagination.tsx:15-30 | For a page in range, the buttons are an independently defined window: min(5, pages) pages starting at page - 2, pulled inside 1..pages. |
| Pagination.PageNumbers | client/src/components/Pagination.tsx:15-30 | For any page and page count, at most five page numbers, consecutive and ascending, all within 1..pages. |
| Pagination.PageWindow | client/src/components/Pagination.tsx:15-30 | There are min(5, pages) consecutive ascending pages inside 1..pages, including the current one. The first page opens the window and the last closes it. With two pages to spare on each side, the current page is in the middle. |
| Pagination.Buttons | client/src/components/Pagination.tsx:50-59 | There is one button per page number, in order. It is marked current exactly for the current page. |
| Pagination.RenderRules | client/src/components/Pagination.tsx:32-69 | The pager shows exactly when there are at least two pages. Previous is disabled exactly on page 1, and Next exactly on the last page, so an enabled arrow leads to a page in range. |
| Pagination.Render | client/src/components/Pagination.tsx:32-69 | Nothing is rendered for one page or fewer. Otherwise there are at most five page buttons, each for a page within 1..pages. |
| Pagination.OneCurrentButton | client/src/components/Pagination.tsx:50-59 | For a page in range, exactly one button is marked current. |

## Left out

- JobImport.ProcessBatch: the items of a batch are processed one after another, in list order. The code starts all of them together under `Promise.all`, so two differences follow. First, the failure details of one batch are pushed in the order the items' store calls settle, which the model cannot know; the model lists them in item order, so its detail list is right only up to a reordering within each batch (the counters are exact). Second, where jobIds repeat within one batch, two items with the same new jobId both see "no posting": the code counts both as new, or fails the second on the unique index, while the model counts one new posting and, if the second changed, one update.
- XmlParser.ItemOf: for a string item the code's `rawData` is the string itself. The model stores the item's one readable property, the inherited `link` method, instead. No modelled step reads `rawData`; the import only stores it.
- JobImport.ImportJobsIsPerItem: the failure details are those of item order; the code's list may differ from it by a reordering within each batch, as above.
- JobWorker.SuccessRecordsStats: the stored failure details likewise hold only up to a reordering within each batch.
- JobTransformer.CleanDescription: the 5000-character cap counts Unicode scalar values. `.substring(0, 5000)` counts UTF-16 code units, so text outside the Basic Multilingual Plane is cut earlier in the code, and a surrogate pair may be split.
- JobTransformer.Transform: the publication date is kept as the feed's text. `new Date(...)`, and the clock reading used when no date field is present, are left opaque.
- JobTransformer.ResolveTitle: the title and URL keep the parser's value, text or nested, because validation treats the two differently. Company, location, jobType, category, region and salary are kept as the text `String` makes of a nested value, since nothing in the modelled core calls a method on them; the code stores the object itself. The Mongoose schema's casting of the posting on save is not part of this model.
- JobTransformer.GenerateJobIdCorrected: the escaped key is a corrected definition only; the import pipeline uses the code's own key, as written.
- JobImport.BatchSize: the positive batch size is a corrected definition only; the worker imports with the size the code computes, negative values included.
- The `error.stack` field of a failure detail (`jobImportService.js:86`) is not stored: it depends on the runtime. The reason, the id and the item are stored.
- The md5 digest is a parameter. The model proves only what holds for any digest function.
- The xml2js parsers, and the regular-expression repairs of attributes and CDATA (`xmlParser.js:8-14,55-57`), are parameters. Only the control-character removal is modelled character by character.
- The axios request timeout (`REQUEST_TIMEOUT`), the request headers, and the real waiting of `delay` are left out. The waits are returned as numbers.
- All logging is left out.
- node-cron's timing is left out; the scheduler is modelled as started or stopped.
- Feed timestamps (`createdAt`, `updatedAt`) and `lastError` are left out: no modelled step writes them.
- The Bull queue is modelled as the sequence of URLs added to it. Its own retries, concurrency (`QUEUE_CONCURRENCY`) and job ids are left out.
- The worker process's startup, the health-check server and signal handling (`jobWorker.js:71` onward) are left out.
- The queue module, the controllers, the models and the database connection are not part of this model. Their behaviour enters only as the store and queue parameters above.

Points where the code's behaviour is easy to misread, and which the model follows:
- A store error fails only its own item; the rest of the batch goes on.
- The run record's duration is computed from a second clock reading taken while finalizing, not from the end time it stores.
- A checkpoint is written after every batch.
- An object-valued `guid` gives the jobId "[object Object]", whatever the guid's text.

## Findings

| source | as written | input that shows it | evidently intended | confidence | as-written member | corrected member |
|---|---|---|---|---|---|---|
| server/src/utils/jobTransformer.js:4-6 | the identifier is `${link}-${title}-${date}`, and '-' may also occur inside the fields | link "x-a" with title "b", and link "x" with title "a-b", both hash "x-a-b-" | the same three fields, and only those, give the same generated jobId | not executed | JobTransformer.AsWrittenItemsShareJobId | JobTransformer.CorrectedJobIdSeparates |
| server/src/services/jobImportService.js:8-23 | the setting falls back to 100 only when it parses to NaN or 0, so a negative one is kept, and `i += batchSize` then never reaches `jobs.length` | BATCH_SIZE=-1 with one fetched posting: i takes the values 0, -1, -2, ... forever, and the worker never settles | a non-positive setting falls back to 100, so the loop ends | not executed | JobWorker.NegativeBatchSizeHangs | JobImport.BatchSize |
