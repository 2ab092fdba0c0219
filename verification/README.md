# Google Cloud Storage gateway: a Dafny model

This project models the core of `service/google-storage.py`. That file is a small HTTP
service that puts a bucket of Google Cloud Storage behind four endpoints:

- `/datasets/<bucket>/entities` lists objects as a streamed JSON array of entities.
- `/download/<bucket>/<path>` streams one object in byte ranges.
- `/upload/<bucket>` writes the file parts of a multipart request.
- `/sink/<bucket>` applies a JSON array of upsert/delete entities.

The model keeps the logic these endpoints run and replaces the store, the clock and
the libraries they call with values and function parameters:

- `Since` models the `since` query parameter. The code rewrites a `±HH:MM` offset into the
  `+HHMM` form its parser accepts. Both the rewrite as written and the rewrite as
  intended are modelled (see Findings).
- `Listing` models the listing generator:
  - the three-way blob filter (age floor, root-only, folder placeholders);
  - the entity record, and the signed URL with its default expiry of 2183-09-08 13:15;
  - the `[` `,` `]` framing driven by the `first` flag;
  - the loop that asks for the next page while a token is returned and the page was full.

  The store's answers to successive listing calls are a sequence of pages. Running out of
  pages means a listing call failed, and the stream then stops without its closing `]`.
  `Framing` holds the text-level facts about the framing: the pieces join to
  `"[" + ",".join(...) + "]"`, and an empty listing is `[]`.
- `Download` models the ranged read loop as a method with a loop invariant. The reads
  are `[0, C]`, then `[kC+1, (k+1)C]` (inclusive ends), and the loop stops after the first
  read shorter than `C`, with `C` = 10 MiB. An object of `S` bytes takes one read when
  `S < C`, two when `C <= S <= 2C`, and `ceil(S/C)` otherwise. So the count is not
  `ceil(S/C)` at `S = 0` (one read) or at `S = C` (two reads, the second empty).
- `Upload` models the target-path rule: a part without a file name is skipped, and a
  truthy `local_path` header puts the name under `local_path + "/"`. It also models the
  writes this produces.
- `Sink` models the fold over the posted entities: key lookups, the `_deleted` truthiness
  test, the content-type default, and deleting a missing object as a no-op. The first
  error aborts the request and keeps the writes already made.
- `Store` is the bucket as a map from names to objects, with effects and a run that
  stops at the first failure. `JsonValue` is a decoded JSON value with Python
  truthiness, dict lookup and iteration. `Py` holds Python's negative-index slicing and
  truthiness of optional strings.

## Model

| member | source | states |
|---|---|---|
| Py.At | service/google-storage.py:65 | `since[-3]` yields a character exactly when `-len <= -3`, i.e. the string has at least three characters, and that character is the third from the end; otherwise indexing raises |
| Since.RewriteAsWritten | service/google-storage.py:65-67 | the rewrite raises exactly when `since` is shorter than three characters, and leaves it unchanged when the third-to-last character is not a colon |
| Since.RewriteAsWrittenEffect | service/google-storage.py:65-67 | with a colon in third-to-last place, the result is the text before the last seven characters, then `+`, the two hour digits and the two minute digits: the colon and the character before the sign are both gone |
| Since.RewriteAsWrittenLosesDigit | service/google-storage.py:66-67 | on `body + d + sign + HH:MM` the code yields `body + "+HHMM"`: the digit `d` before the sign is lost |
| Since.Rewrite | service/google-storage.py:61-67 | the intended rewrite shortens a string with an offset by exactly one character, keeps everything before the offset, and leaves any other string unchanged |
| Since.RewriteReplacesOffset | service/google-storage.py:61-67 | the intended rewrite turns `body ±HH:MM` into `body +HHMM` for any body |
| Since.AsWrittenDropsOneCharacter | service/google-storage.py:65-67 | where both rewrite, the code's result is the intended result with one more character removed, the one just before the sign |
| Since.AsWrittenExample | service/google-storage.py:65-68 | `...00:00:00.123456+02:00` becomes `...00.12345+0200` as written and `...00.123456+0200` as intended |
| Since.NormaliseAsWritten | service/google-storage.py:58-72 | no `since` gives no floor; the request fails exactly when `since` is shorter than three characters; a `since` without an offset goes to the parser as is; a `since` of seven or more characters with an offset is parsed as its first `n-7` characters, `+`, the hour digits and the minute digits |
| Since.EmptySinceFails | service/google-storage.py:58-72 | `?since=` fails the request instead of dropping the filter |
| Since.Normalise | service/google-storage.py:58-72 | the intended floor: absent without `since`, otherwise the parse of the rewritten text, which for an offset-bearing `since` is everything before the offset, `+`, the hour digits and the minute digits; it never fails |
| Since.FloorAsWrittenVsIntended | service/google-storage.py:58-72 | on every offset-bearing `since` of seven or more characters, the intended floor parses the intended rewrite and the code parses that same text with the character before the sign removed |
| Since.NormaliseAgreesWithoutOffset | service/google-storage.py:58-72 | without an offset to rewrite, the intended floor is the parse of `since` itself and agrees with the code whenever the code does not raise |
| Listing.Screen | service/google-storage.py:94-103 | a blob is emitted exactly when it is not older than the floor, not in a subfolder unless subfolders were asked for, and not a folder placeholder; a name ending in `/` is never emitted |
| Listing.ExpiryOf | service/google-storage.py:82-85 | an absent or empty `expire` gives 2183-09-08 13:15; any other value is what the parser makes of it |
| Listing.MakeEntity | service/google-storage.py:97-112 | `_id` and `file_id` are the blob name, `updated` and `_updated` are the shown update time, `generation` is copied, and `file_url` is present exactly when signing is on, signed with the request's expiry |
| Listing.EntitiesOfMembers | service/google-storage.py:93-112 | the entities of a page are exactly the entities made from its kept blobs |
| Listing.PageEntitiesMembers | service/google-storage.py:92-127 | the entities of several pages are exactly those of some page |
| Listing.EmitItemsMatches | service/google-storage.py:89-119 | `EmitItems`, the `for blob in iterator` loop: the per-blob loop with its `first` flag yields the JSON of the kept blobs, separated by commas and with no leading comma at the start of the array, and clears the flag exactly when it emitted something |
| Listing.FinishesIff | service/google-storage.py:120-124 | the listing loop ends exactly when some page has no next-page token or fewer results than the limit |
| Listing.VisitedShape | service/google-storage.py:92-127 | the pages consumed are a prefix of the store's answers, every consumed page but the last asked for another one, and the last one stops the loop |
| Listing.DriveOutput | service/google-storage.py:89-128 | `Drive`, the `while True` loop: the stream is the framed JSON of the kept blobs of the consumed pages, followed by `]` exactly when the loop ended normally |
| Listing.DriveRequests | service/google-storage.py:87-127 | `Drive`, the `while True` loop: the first listing call carries no token; call `i+1` carries the token of page `i`, which was present, and page `i` was full; there is one call per consumed page, plus the call that failed if the stream broke |
| Listing.ListingOutput | service/google-storage.py:82-128 | `Generate`, the whole generator: an unparseable `expire` yields nothing; otherwise the body is `"[" + ",".join(dumps) + "]"` (without the `]` if a call failed), and an empty complete listing is `[]` |
| Listing.ListingRequests | service/google-storage.py:87-127 | `Generate`, the whole generator: every call uses the requested prefix and the configured limit; the first has no token, and each later one passes on the previous page's token |
| Listing.ThreePages | service/google-storage.py:120-127 | `Generate`: two full pages with tokens followed by a short page make exactly three calls and complete the array |
| Listing.EmittedEntity | service/google-storage.py:93-112 | every emitted entity comes from a kept blob of a consumed page and carries its name, generation and update time; it has a URL exactly when `do_not_sign` is not set, signed with the default expiry when `expire` is absent |
| Listing.GetEntities | service/google-storage.py:52-90 | the endpoint as written fails before producing any body exactly when `since` is shorter than three characters; otherwise, with a parseable expiry, the body starts with `[` and at least one listing call is made |
| Listing.GetEntitiesFloor | service/google-storage.py:58-87 | the endpoint lists with no floor when `since` is absent, with the parse of `since` when it has no offset, and with the parse of the digit-short rewrite when it has one |
| Listing.GetEntitiesIntended | service/google-storage.py:52-90 | the corrected endpoint never fails on `since`; with a parseable expiry its body starts with `[` and at least one listing call is made |
| Listing.GetEntitiesAgreement | service/google-storage.py:58-72 | the code and the corrected endpoint give the same stream whenever `since` is absent or indexable without an offset; on `?since=` only the corrected one lists |
| Listing.QueryFlags | service/google-storage.py:53-56 | `with_subfolders` and `do_not_sign` are tested for being non-empty, not for their meaning: `with_subfolders=false` includes subfolders, `do_not_sign=false` turns signing off, and an empty value counts as absent |
| Framing.FrameText | service/google-storage.py:89-128 | the pieces `[`, the dumps with commas between, and `]` join to `"[" + ",".join(dumps) + "]"`, and to `[]` when nothing was emitted |
| Framing.ConcatInterleave | service/google-storage.py:114-116 | the pieces yielded from the start of the array join to `",".join(dumps)` |
| Framing.ConcatSeparated | service/google-storage.py:114-116 | the pieces yielded after something was written join to `"," + ",".join(dumps)` |
| Framing.InterleaveIndex | service/google-storage.py:114-116 | from the start of the array, dumps sit at even positions and commas at odd positions |
| Framing.PiecesAppend | service/google-storage.py:89-119 | yielding two runs of blobs in turn, with the `first` flag carried over, is the same as yielding them as one run |
| Download.ReadRange | service/google-storage.py:156-160 | a range read returns `min(last+1, size) - min(first, size)` bytes |
| Download.Generate | service/google-storage.py:152-162 | chunk `k` is the read of `[0, C]` or `[kC+1, (k+1)C]`; the chunks join to the whole object; every chunk but the last has at least `C` bytes and the last fewer; none exceeds `C+1` bytes; the number of reads is `ReadCount(size)` |
| Download.ProgressNext | service/google-storage.py:158-162 | after a full read the object has no missing byte before the next read's start, and the next read continues the chunks with no gap or overlap |
| Download.LastChunkShort | service/google-storage.py:159 | a read that returns fewer than `C` bytes means the object ends inside it |
| Download.CountFromChunks | service/google-storage.py:156-162 | the number of reads is 1 below `C`, 2 up to `2C`, and otherwise the number of started chunks |
| Upload.Target | service/google-storage.py:186-191 | the object name ends with the file name; it is the file name exactly when `local_path` is absent or empty, and `local_path + "/" + filename` otherwise |
| Upload.Classify | service/google-storage.py:184-194 | a part is skipped exactly when its file name is empty |
| Upload.StepsIndex | service/google-storage.py:183-194 | the request's steps are its parts' steps, in order |
| Upload.EmptyFilenamesIgnored | service/google-storage.py:183-185 | `UploadAll`, the `for file in files` loop: parts without a file name change nothing: the upload equals the upload of the named parts alone |
| Upload.UploadKeys | service/google-storage.py:183-194 | `UploadAll`: a successful upload adds exactly the target names of its named parts to the bucket |
| Upload.UploadFrame | service/google-storage.py:183-194 | `UploadAll`: an object no named part targets is left as it was |
| Upload.UploadLastPartWins | service/google-storage.py:183-194 | `UploadAll`: a named part's target holds that part's body and content type unless a later part targets the same name |
| Upload.UploadStopsAtFirstFailure | service/google-storage.py:183-195 | `UploadAll`: an upload performs the writes before the first refused one, keeps them, and reports that refusal; with no refusal it performs all |
| Sink.ContentType | service/google-storage.py:208 | an absent `content_type` becomes `application/json`; a string is passed on as is; `null` means no content type; anything else fails |
| Sink.Decode | service/google-storage.py:205-219 | a non-object fails, and a missing `filename` is reported first; an entry decodes exactly when it is an object with a string `filename`, with `data` and `_deleted`, and with either a truthy `_deleted` or an acceptable `content_type`; the decoded effect carries that file name, is a delete exactly when `_deleted` is truthy, and an upsert stores the serialised `data` with the entry's content type |
| Sink.DecodeEntry | service/google-storage.py:206-219 | an entry built from a name, data, a `_deleted` flag and an optional content type decodes to a delete of that name when the flag is truthy, to a write of the serialised data with the given or default content type otherwise, and fails only on a content type that is neither text nor null |
| Sink.Steps | service/google-storage.py:205-220 | one step per posted entity, in order |
| Sink.SinkStopsAtFirstFailure | service/google-storage.py:204-223 | `SinkBatch`, the `for entity in entities` loop: the sink applies the entities before the first one that fails to decode or is refused, keeps those writes, and fails; with no failure it applies all |
| Sink.DeleteOfMissingObject | service/google-storage.py:212-217 | `SinkBatch`: an entry with a truthy `_deleted` whose object does not exist succeeds and leaves the bucket unchanged |
| Sink.UpsertWrites | service/google-storage.py:206-220 | `SinkBatch`: an entity with a falsy `_deleted` and no `content_type` stores the serialised `data` as `application/json` under its file name |
| Sink.RequiredKeys | service/google-storage.py:206-212 | an entity missing `data` or `_deleted` fails |
| Sink.SinkReplay | service/google-storage.py:204-223 | `SinkBatch`: posting the same body twice leaves the bucket and the outcome as posting it once |
| Store.Apply | service/google-storage.py:212-219 | a write stores the object under its name, a delete removes the name, a delete of a missing name changes nothing, and no other name is touched |
| Store.ApplyAllLastWins | service/google-storage.py:205-219 | after a run of effects, each name holds what its last effect made of it, and names no effect mentions are untouched |
| Store.ApplyAllIdempotent | service/google-storage.py:205-219 | applying the same effects again changes nothing |
| Store.RunStopsAtFirstFailure | service/google-storage.py:204-223 | `Run`, the loop over a request's steps: a request applies exactly the effects before its first failure, with no rollback, and reports that failure |
| Store.RunReplay | service/google-storage.py:204-223 | `Run`: running a request again on its own result changes neither the bucket nor the outcome |
| JsonValue.Lookup | service/google-storage.py:206-212 | a key is missing exactly when no field has it; otherwise the value is that of its last occurrence |
| JsonValue.Elements | service/google-storage.py:202-205 | iterating `null`, a boolean or a number raises; iterating an array yields its items, an object its distinct keys in first-occurrence order, and a string its characters; the iteration is empty exactly when the value is falsy |
| JsonValue.Keys | service/google-storage.py:202-205 | the keys of a decoded object are distinct, include every key of the text, and are exactly the keys a lookup finds |
| JsonValue.KeysFirstOccurrence | service/google-storage.py:202-205 | the keys of every prefix of the text are a prefix of the keys of the whole, so keys come in first-occurrence order |
| JsonValue.RepeatedKeyVisitedOnce | service/google-storage.py:202-205 | `{"a": 1, "b": 2, "a": 3}` is iterated as `"a", "b"` |

## Left out

- Routing, request parsing and response streaming by the web framework. Each endpoint is a function from its inputs to its output pieces and bucket.
- Credentials, the storage client and URL signing. `sign(name, expiry)` is a parameter.
- `strptime` for `since` and `expire`, `str(blob.updated)` and `json.dumps` are parameters. Update times are integers ordered as the datetimes they stand for.
- The `DT_PATTERN` and `LIMIT` environment settings are parameters. An unset `LIMIT` (`None`) is not modelled.
- Logging, including the `logger` global, which exists only when the file runs as a script.
- Store failures are a predicate `refused(name)` on the object written. The listing's failures are running out of pages. The store's internal paging inside one listing call is part of what a page is.
- Listing.GetEntities: the response setup at lines 131-137 is left out. Its `except` cannot catch errors raised later inside the generator, and the model shows those as a stream without its closing `]`.
- Download: a read is a slice clamped to the object's end. The store answers a range that starts past the end with HTTP 416 Range Not Satisfiable, which would raise mid-stream when the size is C, C+1 or kC+1. The model instead returns an empty last chunk there.
- Download: the response's Content-Type header and other error statuses (for example a failing first read) are not modelled.
- Upload: multipart parsing is not modelled. The request is one part per form field, because a lookup by field name returns that field's first file.
- Sink: the HTTP status of a failed request is not modelled. The code passes the exception's class name to `abort`, and the model only records that the request failed and where.
- Sink.ContentType: it does not say what the store does with a JSON `null` or non-string content type. Null is passed as "no content type", and any other non-string is taken to fail the write.
- JsonValue: floating-point numbers are not modelled. JSON numbers are integers, and only their truthiness matters here.
- Concurrency between requests (the server is threaded) is not modelled. Each request runs alone on the bucket it sees.

## Findings

| source | as written | input that shows it | evidently intended | confidence | as-written member | corrected member |
|---|---|---|---|---|---|---|
| service/google-storage.py:65-69 | `since[-3]` raises IndexError on a `since` shorter than three characters, and `except ValueError` does not catch it, so the request fails | `?since=` (empty), or `?since=ab` | a `since` that cannot be parsed drops the filter, like any other unparseable value | high, not executed | Since.NormaliseAsWritten, Since.EmptySinceFails, Listing.GetEntities | Since.Normalise, Since.NormaliseAgreesWithoutOffset, Listing.GetEntitiesIntended, Listing.GetEntitiesAgreement |
| service/google-storage.py:66-67 | after the colon is removed, `since[:-6]` cuts one character too many: the last fractional-second digit goes, or the `.` when there is only one digit, and then `%f` fails and the filter is dropped | `2024-01-01 00:00:00.123456+02:00` becomes `2024-01-01 00:00:00.12345+0200`; `2024-01-01 00:00:00.5+02:00` becomes `2024-01-01 00:00:00.+0200` | replace only the `±HH:MM` offset with `+HHMM` (`since[:-5]` after removing the colon) | medium, not executed | Since.RewriteAsWritten, Since.RewriteAsWrittenLosesDigit, Listing.GetEntitiesFloor | Since.Rewrite, Since.RewriteReplacesOffset, Since.FloorAsWrittenVsIntended |

`Listing.GetEntities` is the endpoint as written and uses `Since.NormaliseAsWritten`. `Listing.GetEntitiesIntended` is the corrected endpoint and uses `Since.Normalise`.
