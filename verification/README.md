# Trade capture pipeline — a Dafny model

This project models the per-record trade pipeline of a trade-capture service.
A canonical trade comes from a CSV or JSON upload or from the inbound feed.
The service then:

1. files the trade in an in-memory **audit store** under a freshly issued id
   (`TradeStore.store`), which is also written into the trade's `canonicalId`;
2. **transforms** it into a platform trade (`TradeTransformer`): the account
   number is masked to `****` plus its last four characters, the security id
   is rejected when null or blank and otherwise upper-cased (the
   `^[A-Z0-9]{3,}$` pattern only raises a warning), and the trade type is
   normalised to `B`, `S` or `U`;
3. wraps it with the deployment's platform id and **publishes** it, keyed by
   the security id (`TradeService.processTrade`, `KafkaPublisher.publish`).

A trade whose transformation fails stays audited and is not published. The
upload entry point (`processFileUpload`) routes on the lower-cased file-name
suffix (`.csv` or `.json`). It runs every decoded record through
`processTrade`, in order, and returns how many records there were.

Modules:

| file | module | models |
|---|---|---|
| `wrappers.dfy` | `Wrappers` | `Option` for Java `null`, `Result` for a call that may throw |
| `text.dfy` | `Text` | `toUpperCase`, `toLowerCase`, `trim`, `isBlank`, `endsWith` |
| `trades.dfy` | `Trades` | `CanonicalTrade`, `PlatformTrade`, `PlatformTradeWrapper` as datatypes |
| `transformer.dfy` | `Transformer` | `TradeTransformer`, as pure functions |
| `audit.dfy` | `Audit` | `TradeStore`, as a class over a `map<string, CanonicalTrade>` |
| `pipeline.dfy` | `Pipeline` | `TradeService`, as a class holding the store and an outbox of published messages |

The broker is replaced by the service's `outbox`. This is the sequence of
messages handed to the publisher, in order, each with the routing key it was
sent under. The store's random UUIDs are replaced by a serial counter
rendered in decimal (`Audit.IdOf`). The model only relies on each issued id
being new, and proves that from the rendering being injective. The audit store
keeps two ghost histories: `issued`, the ids in issue order, and `trail`, the
trades as filed. The upload methods state their effect on the store through
these histories.

`processTrade` has no account-number check. It audits every trade before
transforming it (`TradeService.java:47`), and the upload count is the number of
decoded records.

## Model

| member | source | states |
|---|---|---|
| `Transformer.MaskAccountNumber` | src/main/java/com/example/instructions/util/TradeTransformer.java:37-44 | A null account, or one of at most four characters, becomes exactly `****`. Otherwise the result has length 8: `****` followed by the account's last four characters. The result is always a masked account. |
| `Transformer.MaskDependsOnlyOnLastFour` | src/main/java/com/example/instructions/util/TradeTransformer.java:42-43 | Two long accounts that share their last four characters mask alike, so nothing before those four characters can be read from the mask. |
| `Transformer.MaskIsIdempotent` | src/main/java/com/example/instructions/util/TradeTransformer.java:37-44 | Masking an already masked account leaves it unchanged. |
| `Transformer.MatchesSecurityIdPattern` | src/main/java/com/example/instructions/util/TradeTransformer.java:16 | `^[A-Z0-9]{3,}$`: an id that matches is already upper-case and is not blank. |
| `Transformer.ValidateAndFormatSecurityId` | src/main/java/com/example/instructions/util/TradeTransformer.java:46-55 | Fails exactly when the id is null or blank. Otherwise it returns the id upper-cased, at the same length and with no lower-case letter left. The warning flag is set exactly when the upper-cased id does not match `^[A-Z0-9]{3,}$`; the pattern never affects the value or the outcome. |
| `Transformer.SecurityIdFormattingIsIdempotent` | src/main/java/com/example/instructions/util/TradeTransformer.java:47-54 | An accepted, upper-cased id is accepted again unchanged, with the same warning. |
| `Transformer.SecurityIdExample` | src/main/java/com/example/instructions/util/TradeTransformer.java:50-54 | `abc123` gives `ABC123` with no warning. |
| `Transformer.SecurityIdWarningExample` | src/main/java/com/example/instructions/util/TradeTransformer.java:16 | `ab-12` gives `AB-12` with a warning and is not rejected. |
| `Transformer.SecurityIdRejectExamples` | src/main/java/com/example/instructions/util/TradeTransformer.java:47-49 | A blank id and a null id both fail. |
| `Transformer.NormalizeTradeType` | src/main/java/com/example/instructions/util/TradeTransformer.java:57-68 | Normalisation is total and always yields `B`, `S` or `U`. A null trade type yields `U`. |
| `Transformer.NormalizeIgnoresCase` | src/main/java/com/example/instructions/util/TradeTransformer.java:59 | Spellings with the same upper-case form normalise alike. |
| `Transformer.NormalizeIgnoresPadding` | src/main/java/com/example/instructions/util/TradeTransformer.java:59-62 | Leading and trailing characters up to U+0020 do not change the result. |
| `Transformer.TradeTypeCode` | src/main/java/com/example/instructions/util/TradeTransformer.java:60-67 | The `switch` always yields `B`, `S` or `U`. It yields `B` exactly for `BUY` and `B`, and `S` exactly for `SELL` and `S`. |
| `Transformer.CodesAreFixedPoints` | src/main/java/com/example/instructions/util/TradeTransformer.java:60-66 | Each of `B`, `S` and `U` normalises to itself. |
| `Transformer.NormalizeIsIdempotent` | src/main/java/com/example/instructions/util/TradeTransformer.java:57-68 | Normalising an already normalised trade type changes nothing. |
| `Transformer.TradeTypeBuyExample` | src/main/java/com/example/instructions/util/TradeTransformer.java:61 | `buy` gives `B`. |
| `Transformer.TradeTypePaddedBuyExample` | src/main/java/com/example/instructions/util/TradeTransformer.java:59-61 | ` b ` gives `B`: the padding is trimmed away. |
| `Transformer.TradeTypeSellExample` | src/main/java/com/example/instructions/util/TradeTransformer.java:62 | `SELL` gives `S`. |
| `Transformer.TradeTypeShortSellExample` | src/main/java/com/example/instructions/util/TradeTransformer.java:62 | `s` gives `S`. |
| `Transformer.TradeTypeUnknownExamples` | src/main/java/com/example/instructions/util/TradeTransformer.java:58-66 | `hold` and null both give `U`. |
| `Transformer.MaskExamples` | src/main/java/com/example/instructions/util/TradeTransformer.java:37-44 | `9876543210` gives `****3210`; `12` and null give `****`. |
| `Transformer.TransformToPlatformTrade` | src/main/java/com/example/instructions/util/TradeTransformer.java:18-35 | Fails exactly when the security id is null or blank. On success the account is masked, the security id is the upper-cased input and is not blank, and the type is one of `B`, `S` or `U`. Amount and timestamp are copied unchanged. |
| `Transformer.TransformIgnoresAuditFields` | src/main/java/com/example/instructions/util/TradeTransformer.java:28-34 | The canonical id, quantity and price play no part in the platform trade, so stamping the audit id before transforming changes nothing. |
| `Transformer.NullAccountIsFullyMasked` | src/main/java/com/example/instructions/util/TradeTransformer.java:20 | A trade without an account number still transforms, and its account becomes `****`. |
| `Text.TrimIgnoresPadding` | src/main/java/com/example/instructions/util/TradeTransformer.java:59 | `trim` returns the same result whatever padding of characters up to U+0020 surrounds a string. |
| `Text.Trim` | src/main/java/com/example/instructions/util/TradeTransformer.java:59 | The result of `trim` neither starts nor ends with a character up to U+0020, and is never longer than its input. That the result is the input with only such characters cut from its ends is stated by `Text.TrimIsInfix`. |
| `Text.TrimIsInfix` | src/main/java/com/example/instructions/util/TradeTransformer.java:59 | `trim` returns a contiguous slice of its input, and every character it cuts off on either side is at most U+0020. |
| `Text.TrimStart` | src/main/java/com/example/instructions/util/TradeTransformer.java:59 | The leading half of `trim`: the result is a suffix of the input, every character cut off is at most U+0020, and the result does not start with such a character. |
| `Text.TrimEnd` | src/main/java/com/example/instructions/util/TradeTransformer.java:59 | The trailing half of `trim`: the result is a prefix of the input, every character cut off is at most U+0020, and the result does not end with such a character. |
| `Text.ToUpperKeepsBlankness` | src/main/java/com/example/instructions/util/TradeTransformer.java:47-50 | Upper-casing keeps a string blank or non-blank, so an accepted id stays non-blank after upper-casing. |
| `Trades.Stamp` | src/main/java/com/example/instructions/service/TradeStore.java:19 | Setting the canonical id changes that field and no other. |
| `Audit.DecimalIsInjective` | src/main/java/com/example/instructions/service/TradeStore.java:18 | Distinct serials give distinct ids, which is what makes each issued id fresh. |
| `Audit.FilingKeepsConsistent` | src/main/java/com/example/instructions/service/TradeStore.java:17-22 | The next serial's id is not yet a key. Filing a trade stamped with it, and appending both to the histories, keeps the store's invariant. |
| `Audit.TradeStore.Store` | src/main/java/com/example/instructions/service/TradeStore.java:17-23 | Returns an id that was not already a key. Afterwards the map holds the old entries unchanged, plus the trade stamped with that id under that id. Nothing is removed or overwritten. The id and the stamped trade are appended to the store's histories. |
| `Audit.TradeStore.Get` | src/main/java/com/example/instructions/service/TradeStore.java:25-27 | Returns the stored trade exactly when the id is a key, and `None` (Java `null`) for an id never issued. A returned trade carries the id it was looked up by. |
| `Audit.TradeStore.IssuedAreDistinct` | src/main/java/com/example/instructions/service/TradeStore.java:17-22 | The ids issued by successive `store` calls are pairwise distinct. |
| `Audit.TradeStore.EntriesCarryTheirIds` | src/main/java/com/example/instructions/service/TradeStore.java:19-21 | Every stored trade's `canonicalId` is the key it is stored under. |
| `Audit.StoreThenGet` | src/main/java/com/example/instructions/service/TradeStore.java:21-26 | `get` right after `store` returns the stored trade, and its `canonicalId` is the returned id. |
| `Audit.StoreTwice` | src/main/java/com/example/instructions/service/TradeStore.java:15-22 | Two successive `store` calls issue different ids and keep both trades. |
| `Pipeline.PublicationsOf` | src/main/java/com/example/instructions/service/TradeService.java:50-64 | A trade gives rise to one message exactly when it transforms. The message wraps the platform id and the transformed trade, and is safe to send: keyed by its security id, with a masked account. |
| `Pipeline.NullAccountIsPublished` | src/main/java/com/example/instructions/service/TradeService.java:44-64 | With no account-number check, a trade without an account but with a valid security id is published, with account `****`. |
| `Pipeline.PublicationsCount` | src/main/java/com/example/instructions/service/TradeService.java:101-105 | A run publishes one message per transformable record, so it never publishes more messages than it has records. |
| `Pipeline.PublicationsAreSafe` | src/main/java/com/example/instructions/service/KafkaPublisher.java:27-29 | Every message a run publishes is keyed by its trade's security id and carries the platform id. Its account is masked, its type is `B`/`S`/`U`, and its security id is upper-cased and not blank. |
| `Pipeline.InvalidTradesPublishNothing` | src/main/java/com/example/instructions/service/TradeService.java:68-69 | Records whose security ids are all null or blank publish nothing. |
| `Pipeline.AllValidPublishAll` | src/main/java/com/example/instructions/service/TradeService.java:50-64 | If every record has a non-null, non-blank security id, a run publishes exactly one message per record. |
| `Pipeline.FileFormatOf` | src/main/java/com/example/instructions/service/TradeService.java:80-85 | A routed name is present and ends, once lower-cased, in the suffix it was routed by: `.csv` for CSV and `.json` for JSON. |
| `Pipeline.FileFormatCsvSuffix` | src/main/java/com/example/instructions/service/TradeService.java:80-81 | Any name ending in a suffix that lower-cases to `.csv` (`.CSV`, `.Csv`, ...) is routed to the CSV path. |
| `Pipeline.FileFormatJsonSuffix` | src/main/java/com/example/instructions/service/TradeService.java:82-83 | Any name ending in a suffix that lower-cases to `.json` is routed to the JSON path. |
| `Pipeline.FileFormatIgnoresCase` | src/main/java/com/example/instructions/service/TradeService.java:80-82 | Names that differ only in letter case are routed alike. |
| `Pipeline.FileFormatRejects` | src/main/java/com/example/instructions/service/TradeService.java:84-85 | A null name, and any name whose lower-cased form ends in neither `.csv` nor `.json`, is not routed. |
| `Pipeline.KeyOf` | src/main/java/com/example/instructions/service/KafkaPublisher.java:28 | The routing key of a published wrapper is its trade's security id. |
| `Pipeline.TradeService.Publish` | src/main/java/com/example/instructions/service/KafkaPublisher.java:27-29 | Appends exactly one message, keyed by `wrapper.trade.security`, to the outbox. |
| `Pipeline.TradeService.ProcessTrade` | src/main/java/com/example/instructions/service/TradeService.java:44-73 | Adds exactly one audit entry, under a fresh id, before transforming. The entry stays even when the transformation fails. The outbox grows by exactly the trade's publications: one wrapper `(platformId, transform(trade))` on success, nothing on failure. No failure escapes, and the outbox invariant (every message safe) is kept. |
| `Pipeline.TradeService.ProcessCsv` | src/main/java/com/example/instructions/service/TradeService.java:91-108 | The count equals the number of records. Each record is audited once, in input order, under its own new id. The outbox grows by the records' publications in order, and records that fail transformation are counted too. |
| `Pipeline.TradeService.ProcessJson` | src/main/java/com/example/instructions/service/TradeService.java:110-118 | Returns the list's size after running each record through `processTrade` once, in order, with the same audit and outbox effect as the CSV path. |
| `Pipeline.TradeService.ProcessFileUpload` | src/main/java/com/example/instructions/service/TradeService.java:75-89 | An unsupported or null file name fails with `UnsupportedFileType`, and neither the store nor the outbox changes. Otherwise the call returns the record count, and every record is audited and published as `ProcessCsv` states. |

## Left out

- Publishing to the broker is replaced by the outbox. The asynchronous send, its completion callback and a send failure (logged only, `KafkaPublisher.java:30-37`) are not modelled. A publish in the model always appends.
- The inbound feed listener (`KafkaListenerService.java`) is not modelled. It only calls `processTrade` for each non-null message.
- The HTTP controller (`TradeController.java`) is not modelled, including its empty-file check, and neither is the application bootstrap.
- CSV and JSON decoding through Jackson is not modelled. An upload is given the sequence of records its decoder yields. So is opening the input stream, and an `IOException` while reading.
- Rendering the platform trade as JSON for the log (`TradeService.java:53-58`) is not modelled. Its failure is caught and only logged, so in the model, publication depends on the transformation alone.
- Logging is not modelled: the masking and unknown-type warnings, and the failure log that carries the audit id. The security-id pattern warning is kept as a flag.
- The generic `catch (Exception e)` in `processTrade` (`TradeService.java:70-72`) is not modelled. It covers failures other than the transformation's, such as a `null` element in a JSON array (a `NullPointerException` in `store`, before anything is filed) or a send that throws synchronously. Decoded records are never null in the model.
- Concurrency of the `ConcurrentHashMap` and of concurrent callers is not modelled. Use is sequential.
- Random UUIDs are replaced by decimal serials. Only freshness is modelled, not the UUID format or its collision probability.
- Aliasing is not modelled. `CanonicalTrade` is a value: the store keeps the stamped trade, whereas the Java store keeps the caller's object, and later changes by the caller would show in the audit map.
- `Audit.TradeStore.Get`: takes a non-null id. A `null` id makes `ConcurrentHashMap.get` throw; no caller in the core passes one.
- `Text.ToUpper` and `Text.ToLower` map only the ASCII letters. Java's default-locale, Unicode-aware `toUpperCase`/`toLowerCase` (for instance `ß` to `SS`, or the Turkish dotted `İ`) are not modelled. `trim` (characters up to U+0020) and `isBlank` (`Character.isWhitespace`) are modelled exactly.
- `Transformer.MaskAccountNumber`: lengths and the last-four slice count Unicode scalar values, not UTF-16 code units as Java's `length()` and `substring` do (`TradeTransformer.java:38, 43`). An account holding a character above U+FFFF masks differently. For example, Java masks `"😀😀😀"` (length 6) to `"****😀😀"`, while the model sees 3 characters and returns `"****"`. A lone surrogate left by Java's slice cannot be represented.
- `Pipeline.TradeService.ProcessCsv`: the count is an unbounded `nat`. Java's `int count` with `count++` (`TradeService.java:92, 104`) wraps to a negative value past 2^31-1 records, and the model does not capture that wrap-around.
- `Pipeline.TradeService.ProcessJson`: the count is the unbounded `|records|`. Java's `trades.size()` (`TradeService.java:117`) is an `int`, and no list can report more than 2^31-1 elements.
- `Pipeline.TradeService.ProcessFileUpload`: returns `Success(|decoded|)` as an unbounded `nat`. The `int` wrap-around of the CSV count past 2^31-1 records is not modelled, for the reason given for `ProcessCsv`.
- `BigDecimal` amounts and prices and `LocalDateTime` timestamps are opaque carriers (`Trades.Decimal`, `Trades.DateTime`). They are only copied.
- The platform id comes from configuration (`app.platform-id`). Here it is a constructor argument of `TradeService`.
