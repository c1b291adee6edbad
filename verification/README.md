# Concept Master: a Dafny model of the request handlers and client store

Concept Master (概念大师) turns a topic, a pasted text, an uploaded image or a
file into a product-concept card. Cards follow one of five templates. A
language model fills them in, and an image service illustrates them. This
project models the deterministic core behind that flow:

- `POST /api/generate` (`GenerateRoute`):
  - validates the request;
  - assembles the context from the selected search hits;
  - de-duplicates their sources;
  - builds the prompt from the template;
  - recovers the JSON object from the model's text with the greedy `\{[\s\S]*\}` match;
  - falls back to the template's placeholders.
- `GET`/`POST`/`DELETE /api/history` (`HistoryRoute`):
  - a list of saved generations capped at 100 records, newest first;
  - paged with `parseInt`ed `limit`/`offset` and `Array.prototype.slice`.
- `POST /api/search` (`SearchRoute`):
  - validates the keyword and sends one Tavily query;
  - normalises the hits into `SearchResult`s (ids, default title, 200-character snippet, the first three pre-selected);
  - implements `extractDomain`.
- `POST /api/image` (`ImageRoute`): validates the description, composes the prompt with the style text, and falls back to a placeholder picture seeded by the clock.
- The search helpers (`SearchLib`): the Bing and Brave result mappings, the provider choice, and `formatSearchResults`.
- The client store (`AppStore`): the initial state, the single-field setters, `toggleResultSelection`, `reset`, and the persisted subset.
- The shared types and catalogues (`Types`):
  - entry kinds;
  - the five templates with their lookup;
  - card formats;
  - image styles;
  - history records;
  - hot topics.

`JsText` gives the JavaScript built-ins these handlers rely on a precise
meaning:

- truthiness and `||` on optional strings;
- `trim`, `parseInt`, decimal rendering of numbers;
- `slice` with negative and NaN bounds;
- `indexOf`, `replace` with a string pattern, `join` and `split`.

`Wrappers` holds `Option` and `Result`.

Everything outside the process is a parameter:

- An outbound call (the chat model, Tavily, the image service, Bing, Brave) is the reply value it produced.
- `JSON.parse` is a function `string -> Option<...>`.
- The URL parser is a hostname function `string -> Option<string>`.
- Clock readings are natural numbers.

Every handler returns a "run": its response plus the outbound requests it
made. So "rejected before any upstream call" appears as an empty request list.
The history list is a value that each history handler takes and returns.
`GET` returns it too, because it sorts the list in place.

Strings are sequences of Unicode scalar values. JavaScript measures `length`
and `slice` in UTF-16 code units. The two agree for text in the Basic
Multilingual Plane.

## Model

| member | source | states |
|---|---|---|
| `Types.ParseEntryType` | src/types/index.ts:5 | The four entry kinds and their wire names are in one-to-one correspondence. A recognised name maps back to its kind, and every kind's name is recognised. |
| `Types.Templates` | src/types/index.ts:43-111 | The catalogue has five templates with pairwise distinct ids. Each template is well formed: at least four fields, distinct keys, positive length limits. No field label or hint contains a line break. |
| `Types.ProductConcept` | src/types/index.ts:44-57 | The product-concept template is well formed, with five single-line fields. |
| `Types.MarketingCreative` | src/types/index.ts:58-71 | The marketing template is well formed, with five single-line fields. |
| `Types.BrandStory` | src/types/index.ts:72-84 | The brand-story template is well formed, with four single-line fields. |
| `Types.FeatureIntro` | src/types/index.ts:85-97 | The feature template is well formed, with four single-line fields. |
| `Types.ComparisonReview` | src/types/index.ts:98-110 | The comparison template is well formed, with four single-line fields. |
| `Types.FindById` | src/app/api/generate/route.ts:24 | `find` by id returns the first entry with that id. It returns nothing exactly when no entry has the id. |
| `Types.FindTemplate` | src/app/api/generate/route.ts:24-27 | A found template is in the catalogue, carries the requested id, and is well formed with single-line fields. Not found means no catalogue entry has that id. |
| `Types.ProductConceptTemplate` | src/types/index.ts:44-57 | Looking up `product-concept` finds the 产品概念卡 template with its five keys and hints in order. |
| `Types.CardSpecs` | src/types/index.ts:125-130 | There are four card presets, exactly one per card format. |
| `Types.EachSpecOnce` | src/types/index.ts:125-130 | The preset list names each card format exactly once. |
| `Types.ParseImageStyle` | src/types/index.ts:166 | The four image styles and their wire names are in one-to-one correspondence. |
| `Types.HotTopics` | src/types/index.ts:222-229 | Six hot topics with pairwise distinct ids. |
| `JsText.Trim` | src/app/api/search/route.ts:22 | The trimmed text is a contiguous piece of the input with only whitespace before and after it, and with no whitespace at either of its own ends. It is empty exactly when the input is all whitespace. |
| `JsText.TrimPadded` | src/app/api/search/route.ts:22 | Padding a text whose ends are not blank with whitespace on both sides and trimming gives back exactly that text. |
| `JsText.TrimStart` | src/app/api/search/route.ts:22 | Removes exactly the leading run of whitespace. |
| `JsText.TrimEnd` | src/app/api/search/route.ts:22 | Removes exactly the trailing run of whitespace. |
| `JsText.ParseInt` | src/app/api/history/route.ts:11-12 | Empty or all-blank text is NaN. A number is read only when the first non-blank character is a sign or a digit. A negative result needs a leading `-`. |
| `JsText.NatToString` | src/app/api/search/route.ts:52 | A number renders as a non-empty run of decimal digits, with no leading zero unless the number is zero. |
| `JsText.DigitsValueOfNatToString` | src/app/api/history/route.ts:11-12 | Reading the decimal digits of a rendered number gives the number back. |
| `JsText.ParseMagnitudeOfNatToString` | src/app/api/history/route.ts:11-12 | The unsigned part of `parseInt` reads a rendered number back. |
| `JsText.ParseIntOfNatToString` | src/app/api/history/route.ts:11-12 | `parseInt` inverts decimal rendering: `parseInt(String(n)) == n`. |
| `JsText.NatToStringInjective` | src/app/api/search/route.ts:52 | Distinct numbers render as distinct texts. |
| `JsText.RelativeIndex` | src/app/api/history/route.ts:16 | A `slice` bound resolves within `[0, length]`. Negative bounds count from the end. NaN counts as 0. |
| `JsText.Slice` | src/app/api/history/route.ts:16 | A slice is the contiguous run between the resolved bounds, or empty when they cross. |
| `JsText.SlicePrefix` | src/app/api/search/route.ts:54 | `slice(0, n)` is the first `min(n, length)` elements. |
| `JsText.ReplaceFirst` | src/app/api/search/route.ts:79 | Text without the pattern is returned unchanged. Otherwise the first occurrence, and only it, is replaced: the text before it and after it are kept as they are. |
| `JsText.IndexOfFrom` | src/app/api/search/route.ts:79 | `indexOf` gives the first occurrence at or after the start, or none when there is none. |
| `JsText.IndexOfChar` | src/app/api/generate/route.ts:163 | The first position of a character, or none when the character is absent. |
| `JsText.LastIndexOfChar` | src/app/api/generate/route.ts:163 | The last position of a character, or none when the character is absent. |
| `JsText.Split` | src/app/api/generate/route.ts:100-102 | The handler itself never calls `split`. `Split` is the inverse of the `join('\n')` at these lines, and `JoinSplit`, `SplitJoin` and `FieldDescriptionsLines` use it to read a joined text back into its pieces. Its contract says it always yields at least one piece, as JavaScript's `split` does. |
| `JsText.Join` | src/lib/search.ts:107-111 | No pieces join to the empty text. Otherwise the text starts with the first piece, followed by the separator when there is more than one piece. |
| `JsText.JoinContainsEach` | src/lib/search.ts:107-111 | Every piece appears in the joined text. |
| `JsText.JoinSnoc` | src/lib/search.ts:107-111 | Joining one more piece appends one separator and the piece. |
| `JsText.JoinSplit` | src/lib/search.ts:107-111 | Splitting and re-joining with the same separator gives back the text. |
| `JsText.SplitJoin` | src/lib/search.ts:107-111 | Joining separator-free pieces and splitting again gives back the pieces, so `join` is invertible on them. |
| `GenerateRoute.Dedup` | src/app/api/generate/route.ts:79 | `Array.from(new Set(xs))` has no repeats, holds exactly the values of `xs`, and is no longer than `xs`. |
| `GenerateRoute.DedupKeepsFirstOccurrenceOrder` | src/app/api/generate/route.ts:79 | The de-duplicated values appear in the order of their first occurrences. |
| `GenerateRoute.UniqueSources` | src/app/api/generate/route.ts:79 | A single pass with a seen-set computes the same list as the set-based reference. |
| `GenerateRoute.SourcesOf` | src/app/api/generate/route.ts:41-44 | `sources.push` collects each selected hit's source label, in order. |
| `GenerateRoute.HitBlocksNumbered` | src/app/api/generate/route.ts:39-45 | The reference section is one block per selected hit, in input order, with the i-th block numbered i + 1. |
| `GenerateRoute.HitBlocksContainEach` | src/app/api/generate/route.ts:39-45 | Every selected hit's numbered block appears in the reference section. |
| `GenerateRoute.BuildContext` | src/app/api/generate/route.ts:33-68 | Each entry kind is accepted or refused by its own rule:<br>• a non-empty topic, else 请输入主题;<br>• pasted text of at least 50 characters, else 请输入至少50个字符;<br>• an image URL, else 请上传图片;<br>• a file is always accepted.<br>An unknown kind is refused with 无效的入口类型, and every refusal is a 400. A topic's context is `主题：<topic>` and a blank line, then, when hits are selected, `参考数据：` and their numbered blocks in order; its sources are the hits' labels. Pasted text is quoted after 用户提供的内容：. An image or a file gives its fixed text. Only a topic contributes sources. |
| `GenerateRoute.FieldLines` | src/app/api/generate/route.ts:100-101 | One hint line per template field, in field order. |
| `GenerateRoute.FieldDescriptionsLines` | src/app/api/generate/route.ts:100-102 | Reading the joined hint block back line by line gives exactly one line per field, in field order. |
| `GenerateRoute.BuildPrompt` | src/app/api/generate/route.ts:99-125 | The prompt opens by naming the template, contains the context, the field hints and the first two keys as an example JSON object, and ends asking for JSON only. |
| `GenerateRoute.MatchBraces` | src/app/api/generate/route.ts:163 | The regex finds a match exactly when the first `{` precedes the last `}`. The match is then the leftmost, longest brace-delimited span. |
| `GenerateRoute.JsonSpan` | src/app/api/generate/route.ts:163-166 | The matched text exists exactly when some `{` precedes some `}`. It is then the text from the first `{` through the last `}`, the leftmost longest brace-delimited span. |
| `GenerateRoute.Placeholders` | src/app/api/generate/route.ts:172-175 | The default content has exactly the template's keys. |
| `GenerateRoute.PlaceholdersLastWins` | src/app/api/generate/route.ts:172-175 | A key maps to the hint of the last field that carries it. |
| `GenerateRoute.PlaceholdersOfDistinctKeys` | src/app/api/generate/route.ts:172-175 | With distinct keys, every field's key maps to its own hint. |
| `GenerateRoute.ModelText` | src/app/api/generate/route.ts:153-158 | A thrown call or a status that is not ok gives no text. Otherwise the text is the message content, with a missing or empty content read as the empty text. |
| `GenerateRoute.GenerateContent` | src/app/api/generate/route.ts:128-187 | The content is the placeholder map when:<br>• the call threw;<br>• the status is not ok;<br>• there is no brace span;<br>• the span does not parse.<br>Anything else is exactly what parsing the matched span produced. |
| `GenerateRoute.FallbackHasTemplateKeys` | src/app/api/generate/route.ts:171-185 | When the model gives nothing usable, the content holds exactly the template's keys, each with its own hint. |
| `GenerateRoute.Post` | src/app/api/generate/route.ts:11-87 | Refusals:<br>• a missing template id is refused with 请选择模板;<br>• an unknown template is refused with 模板不存在;<br>• for a known template whose context cannot be built, the answer is the context's own refusal (请输入主题, 请输入至少50个字符 or 请上传图片);<br>• every refusal is a 400 and sends no prompt.<br>When the template exists and the context builds, exactly one prompt is sent. It is `buildPrompt` of that template and context. The answer carries the generated content, the elapsed time and the de-duplicated sources. |
| `GenerateRoute.SourcesAreDistinctSelectedLabels` | src/app/api/generate/route.ts:39-85 | When the template exists and the context builds, so that the handler answers with content, the answer's sources have no repeats and are no more than the selected hits. They are exactly the selected hits' labels, and only for topic requests. |
| `GenerateRoute.ShortTextRejected` | src/app/api/generate/route.ts:48-51 | Any pasted text shorter than fifty characters is refused with 请输入至少50个字符 before any model call. |
| `GenerateRoute.RepeatedSourceReportedOnce` | src/app/api/generate/route.ts:39-79 | For any topic and any existing template, selecting the same hit twice yields its site once in `sources`. |
| `HistoryRoute.InsertByTime` | src/app/api/history/route.ts:15 | Inserting into a newest-first list keeps it newest first and adds exactly that record. |
| `HistoryRoute.SortByNewest` | src/app/api/history/route.ts:14-15 | The sort returns a newest-first rearrangement of the list: same records, same multiplicities. |
| `HistoryRoute.SortKeepsOrderedStore` | src/app/api/history/route.ts:14-15 | A list already newest first is left exactly as it is. |
| `HistoryRoute.Get` | src/app/api/history/route.ts:9-22 | `GET` leaves the list sorted newest first. It answers the page cut from that list by the parsed `offset` and `limit`, with `total` the full list length. Every listed record is a stored record. |
| `HistoryRoute.Page` | src/app/api/history/route.ts:14-16 | Every record of a page comes from the list. The page is empty when `offset` or `limit` is not a number. |
| `HistoryRoute.PageIsRun` | src/app/api/history/route.ts:16 | For non-negative `offset` and `limit`, the page is the run `[offset, offset + limit)`, cut at the list's end. |
| `HistoryRoute.PageAtMostLimit` | src/app/api/history/route.ts:11-16 | A page holds at most a non-negative `limit` records. It is empty when `limit` or `offset` is not a number. |
| `HistoryRoute.NegativeLimitCountsBack` | src/app/api/history/route.ts:16 | `limit=-1` with offset 0 lists every record but the oldest: a negative end counts back from the list's end. |
| `HistoryRoute.DefaultsParse` | src/app/api/history/route.ts:11-12 | The default texts `20` and `0` read as the numbers 20 and 0. |
| `HistoryRoute.GetDefaults` | src/app/api/history/route.ts:11-16 | With `limit` and `offset` absent or empty, `GET` lists the twenty newest records. |
| `HistoryRoute.NewRecord` | src/app/api/history/route.ts:29-39 | The record takes two clock readings. Its id is `history-` followed by the first, and reads back to it. Its creation time is the second. Its topic defaults to the empty text. The entry kind, template id, template name, content, image URL and card format are copied unchanged from the posted data. The thumbnail is absent. |
| `HistoryRoute.PushCapped` | src/app/api/history/route.ts:41-46 | `unshift` then cap: the new record comes first, followed by the earlier records in their order, with only the oldest dropped. The length is `min(old + 1, 100)`. |
| `HistoryRoute.Post` | src/app/api/history/route.ts:25-52 | After `POST` the list holds at most 100 records, starting with the new one, followed by a prefix of the earlier list. The answer carries the new id. |
| `HistoryRoute.PushCappedKeepsNewestFirst` | src/app/api/history/route.ts:41-46 | Pushing a record no older than any held keeps the list newest first. |
| `HistoryRoute.PostKeepsNewestFirst` | src/app/api/history/route.ts:14-46 | Records posted in clock order keep the list newest first, so a later `GET` does not reorder it. |
| `HistoryRoute.RemoveId` | src/app/api/history/route.ts:64 | `filter` keeps exactly the records whose id differs and never grows the list. |
| `HistoryRoute.RemoveIdConcat` | src/app/api/history/route.ts:64 | Filtering distributes over concatenation, so kept records stay in their relative order. |
| `HistoryRoute.RemoveIdCount` | src/app/api/history/route.ts:64 | The number of records removed is the number that carried the id. |
| `HistoryRoute.Delete` | src/app/api/history/route.ts:55-70 | A missing or empty id is a 400 and leaves the list untouched. Otherwise the list becomes the `filter` result: the records with another id, in their order and multiplicity. The number removed is the number with that id. |
| `SearchRoute.QueryText` | src/app/api/search/route.ts:37 | The query is the keyword followed by the fixed market-research terms. |
| `SearchRoute.ExtractDomain` | src/app/api/search/route.ts:77-84 | A missing or unparsable URL gives 未知来源. Otherwise the result is no longer than the hostname. |
| `SearchRoute.ExtractDomainStripsLeadingWww` | src/app/api/search/route.ts:79 | A hostname starting with `www.` loses exactly that prefix. |
| `SearchRoute.ExtractDomainKeepsPlainHost` | src/app/api/search/route.ts:79 | A hostname without `www.` is returned unchanged. |
| `SearchRoute.ExtractDomainRemovesInnerWww` | src/app/api/search/route.ts:79 | The first `www.` is removed wherever it occurs, not only at the start. |
| `SearchRoute.NormaliseHit` | src/app/api/search/route.ts:51-58 | Hit i gets:<br>• id `result-<i+1>`;<br>• its title, or 无标题 when the title is missing or empty;<br>• the first 200 characters of the content, all of it when shorter, or the empty text without content;<br>• the URL or the empty text;<br>• the given source, else the extracted domain;<br>• selected exactly when i < 3. |
| `SearchRoute.Normalise` | src/app/api/search/route.ts:51-58 | One result per hit, in the same order, each normalised at its own index. |
| `SearchRoute.NormalisedIdsDistinct` | src/app/api/search/route.ts:52 | Result ids are pairwise distinct. |
| `SearchRoute.SelectedCountFrom` | src/app/api/search/route.ts:57 | In a list whose selected entries are exactly the first three, any suffix counts its positions below 3. |
| `SearchRoute.PreselectsFirstThree` | src/app/api/search/route.ts:57 | Exactly `min(3, n)` results start out selected. |
| `SearchRoute.Post` | src/app/api/search/route.ts:18-74 | A missing keyword, or one shorter than two characters once trimmed, is a 400 with no upstream query. Otherwise exactly one query is sent, with `limit` defaulting to 10. Results are returned exactly when the reply is 2xx, and `total` is their count. A failed reply is a 500 naming its status. A thrown call is a 500 with its message or 搜索失败，请重试. |
| `SearchLib.BingHits` | src/lib/search.ts:50-55 | The Bing mapping keeps length and order, with `name` as title and `displayUrl` as source. |
| `SearchLib.SearchWithBing` | src/lib/search.ts:22-56 | Without a key, it fails without a call. Otherwise it makes one Bing call and succeeds exactly on a 2xx reply. A missing page list reads as no results. Error messages name the missing key or the status. |
| `SearchLib.BraveHits` | src/lib/search.ts:79-86 | The Brave mapping succeeds exactly when every URL parses. It then keeps length and order with the hostname as source. Otherwise it fails at the first unparsable URL. |
| `SearchLib.SearchWithBrave` | src/lib/search.ts:59-87 | Without a key, it fails without a call. Otherwise it makes one Brave call. A 2xx reply yields the mapped results. Error messages name the missing key or the status. |
| `SearchLib.Search` | src/lib/search.ts:90-104 | It calls Bing exactly when the Bing key is set, and Brave exactly when only the Brave key is set. With neither key set, it fails with `No search API configured`. It never calls more than one provider. |
| `SearchLib.FormatSearchResults` | src/lib/search.ts:107-111 | Every hit's numbered block appears in the rendered text. |
| `SearchLib.Entries` | src/lib/search.ts:109 | One numbered block per result, the i-th numbered i + 1. |
| `SearchLib.IndentedConcat` | src/lib/search.ts:109 | Concatenating texts whose line breaks are all followed by a space keeps that property. |
| `SearchLib.IndentedSeparatorFree` | src/lib/search.ts:109-110 | Such text contains no blank line, so it cannot contain the block separator. |
| `SearchLib.EntryIndented` | src/lib/search.ts:109 | A block built from single-line fields has only indented line breaks. |
| `SearchLib.FormatSplitsIntoEntries` | src/lib/search.ts:107-111 | When no title, snippet or source contains a line break, splitting the text at blank lines gives back exactly the numbered blocks, in order. So n results are separated by exactly n − 1 blank lines. |
| `SearchLib.FormatSmallCases` | src/lib/search.ts:107-111 | No results render as the empty text. One result renders as its block alone. |
| `ImageRoute.StyleText` | src/app/api/image/route.ts:11-29 | An absent style means `minimal`. Each style name selects its own description. Any other name renders as `undefined`. |
| `ImageRoute.FullPrompt` | src/app/api/image/route.ts:29 | The image prompt is the description, then the style text, then the fixed quality suffix. |
| `ImageRoute.FallbackUrl` | src/app/api/image/route.ts:67 | The placeholder is a picsum.photos seed URL that ends with the `/1024/1024` size. |
| `ImageRoute.FallbackUrlSeed` | src/app/api/image/route.ts:67 | The placeholder's seed segment is the clock reading and reads back to it. |
| `ImageRoute.FallbackUrlInjective` | src/app/api/image/route.ts:67 | Distinct clock readings give distinct placeholder URLs. |
| `ImageRoute.Post` | src/app/api/image/route.ts:18-72 | A missing description, or one shorter than five characters once trimmed, is a 400 with no upstream request. Otherwise one prompt is sent and a picture is always answered: the service's URL (or the empty text) on a 2xx reply, else the clock-seeded placeholder flagged as a fallback. The duration is the later reading minus the start; on the fallback path the seed is its own reading. |
| `AppStore.Initial` | src/store/useAppStore.ts:71-87 | The initial state:<br>• step 0;<br>• no entry kind;<br>• style `minimal`;<br>• card format `xiaohongshu`;<br>• no results or sources;<br>• empty texts;<br>• nothing uploaded, chosen or generated;<br>• not loading. |
| `AppStore.AgreeEverywhere` | src/store/useAppStore.ts:15-69 | States that agree on every field are equal. |
| `AppStore.ToggleSelection` | src/store/useAppStore.ts:99-104 | Each result with the id has its selection negated, with absent counted as false. Every other result is unchanged. The length is kept. |
| `AppStore.ToggleTwice` | src/store/useAppStore.ts:99-104 | Toggling the same id twice restores every result's selection truth value. Results that had an explicit flag come back identical. |
| `AppStore.Dispatch` | src/store/useAppStore.ts:94-124 | Every setter writes its own field with the given value and leaves every other field unchanged. `toggleResultSelection` writes only the results. `reset` restores the initial state. |
| `AppStore.SetterIdempotent` | src/store/useAppStore.ts:94-122 | Applying the same setter twice is the same as applying it once. |
| `AppStore.ResetForgets` | src/store/useAppStore.ts:124 | The state after `reset` does not depend on the state before. |
| `AppStore.Partialize` | src/store/useAppStore.ts:128-132 | What is persisted is the entry kind, the card format and the image style, taken unchanged from the state; the persisted record has no other field. |
| `AppStore.PartializeExactly` | src/store/useAppStore.ts:128-132 | Two states persist identically exactly when they agree on the entry kind, card format and image style. |
| `AppStore.PersistedChangesOnlyThrough` | src/store/useAppStore.ts:94-132 | Only the entry-kind, card-format and image-style setters and `reset` can change what is persisted. |

## Left out

- Network calls, request headers, API keys and request bodies other than the prompt or query text: each outbound call is the reply value it produced.
- `request.json()` failing on a malformed body. This is the 500 `catch` branch of the generate, search and history handlers. In the image handler it is a placeholder-picture answer. The model's requests are always well-formed records.
- Non-string JSON values where text is expected, such as a numeric keyword whose `trim` throws. A `limit` that is neither absent nor a number is also out.
- `JSON.parse` is a function parameter, not a JSON parser. The URL parser is a hostname function parameter.
- `Date.now()` and `new Date()` are clock parameters, one per reading: the history id and creation time are two readings, and so are the placeholder seed and the duration on the image fallback path. The ISO timestamp of a history record is its millisecond value. Dates that do not parse are out, since they would give `NaN` comparator results.
- `console.error` logging.
- Lengths and slices count Unicode scalar values, not UTF-16 code units. Text outside the Basic Multilingual Plane measures shorter here than in JavaScript.
- Integer precision of JavaScript numbers: `parseInt` of more than 15 digits and the arithmetic on it are unbounded here.
- `STYLE_PROMPTS` lookups of inherited property names, such as `constructor`, which interpolate a function's source text: every unknown style reads as `undefined`.
- The history list is single-threaded, with no interleaving of concurrent requests.
- HistoryRoute.SortByNewest: the order among records created in the same millisecond is not stated. The model inserts stably, as the built-in sort does, but no lemma says so.
- GenerateRoute.BuildPrompt: states the prompt's opening, its closing and the pieces it contains, not the exact layout of blank lines and the fixed requirement list.
- SearchLib.SearchWithBing: the request URL is not modelled (endpoint override, `URLSearchParams` encoding, `count=20`, market). Only which provider was called is recorded. The same holds for the Brave query string.
- The store's zustand mechanics: subscriptions, the storage backend, rehydration, and the persisted key name. Only the state transitions and the persisted projection are modelled.
- Type declarations without behaviour (`Card`, `UserPreferences`, `StreamEvent`, the request and response interfaces) are not modelled separately. The handlers' own request and response datatypes stand in for them.
