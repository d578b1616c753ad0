# g2b bid-announcement monitor: a verified model of the scraper core

The g2b scraper (`scripts/scrape.ts`) watches the Korean public procurement
portal (나라장터) for new bid announcements of one agency. A run has four parts:

1. Browser navigation gets to the search form and the results table. It relies
   on fuzzy element signatures because the portal offers no stable selectors.
2. The results table is turned into announcement records.
3. The records are compared with the `announcements` store. Unseen ones are
   inserted with `is_sent = false`.
4. The new ones are posted to a webhook in chunks of ten and then marked sent.

This project models that core in Dafny and proves properties of the model:

- `wrappers.dfy` (`Wrappers`): `Option`, first-match search as JavaScript's
  `find`/`findIndex` give it, `map`, and keeping the `Some` entries in order.
- `text.dfy` (`Text`): the string operations the script relies on.
  - `trim` over the ECMAScript white-space and line-terminator set.
  - `includes`, and `\d` as ASCII digits.
  - `String(n)`, `padStart`, and decimal numerals with their values.
- `extractor.dfy` (`Extractor`): the row extractor run inside the results frame.
  - The title-link fallbacks and the date and agency columns.
  - The `bidno=(\d+)&` identifier, as a leftmost regular-expression match.
  - The `forEach` loop that collects the records.
- `signatures.dfy` (`Signatures`): the element signatures.
  - Popup close controls, and the popup scan itself.
  - The "detailed conditions" toggle vocabulary.
  - The agency label outside the global chrome.
  - The main search button with its exclusions.
  - The content-frame text.
- `navigation.dfy` (`Navigation`): the navigation decisions.
  - Arrival verification with the direct-URL fallback.
  - The ten-round content-frame search.
  - Opening the detailed conditions.
  - The main-search click with its fallback.
- `dates.dfy` (`Dates`): `formatDate` as `YYYY/MM/DD`.
- `notifier.dfy` (`Notifier`): the embeds and the chunked webhook posts.
- `changedetector.dfy` (`ChangeDetector`): `run`.
  - The store is a `class` whose `rows` map is updated in place.
  - The per-item lookup/insert loop, then the notification, then the bulk `is_sent` update.
- `pipeline.dfy` (`Pipeline`): a whole run. A failed navigation yields no items, as `scrapeG2B`'s catch-all gives it.

The browser, the store and the webhook are represented by what they report:

- The browser is modelled by element attributes, frame texts and layout checks. A failed browser read is `None`.
- The store's behaviour for each item is a `StoreFaults` value: a lookup error code and an insert failure.
- The webhook sink is the sequence of payloads posted.

### Two behaviours of the code worth knowing

- **When `is_sent` becomes true.** The code awaits `sendDiscordNotification` and then marks every new id sent, unconditionally (`scripts/scrape.ts:681-686`).
  - That notifier returns early when no webhook is configured, and only logs a failed POST.
  - So the new ids are marked sent even when nothing was posted.
  - `ChangeDetector.Run` and `ChangeDetector.RunMarksExactlyNewItems` model this: the marking does not depend on `webhookConfigured` or on the sink. `RunRows` does not even take the webhook as an input.
- **A failed attribute read in the popup scan.** Only the layout check and the click are guarded per element (`scripts/scrape.ts:51-57`).
  - A failure reading `textContent`, `alt` or `className` (lines 42-44) reaches the outer `catch` (line 61) and ends the whole scan, not just that element.
  - `Signatures.DismissPopups` models that: the scan stops at the first unreadable element.

## Model

| member | source | states |
|---|---|---|
| Text.Trim | scripts/scrape.ts:42 | The result is a contiguous piece of the input with no JavaScript white space at either end, and everything cut off before and after it is white space. It is empty exactly when the input is all white space. |
| Text.OccursAtConcat | scripts/scrape.ts:557 | An occurrence of `u + v` at `i` is exactly an occurrence of `u` at `i` followed by one of `v` right after it. |
| Text.DecimalRoundTrip | scripts/scrape.ts:437-438 | The numeral `String(n)` writes for a natural number reads back as that number. |
| Text.IntToStringValue | scripts/scrape.ts:436-439 | `String(year)` reads back as the year: its digits for a non-negative year, and a minus sign before the digits of `-year` for a negative one. |
| Text.IntToString | scripts/scrape.ts:436-439 | `${year}` in the template: for a non-negative year its shortest numeral, with no leading zero except for 0 itself; for a negative one a minus sign followed by the numeral of `-year`. |
| Extractor.TitleLink | scripts/scrape.ts:542 | The title element is `div.tl a` when present, else `td.tl a` when present, else whatever the query for any `a` found. It is missing exactly when all three queries find nothing. |
| Extractor.CellTexts | scripts/scrape.ts:551 | One text per cell, in cell order, each the trimmed cell text. |
| Extractor.DateOf | scripts/scrape.ts:552 | The date is the first cell text with a `\d{4}/\d{2}/\d{2}` prefix. It is "" exactly when no cell text has one. |
| Extractor.AgencyOf | scripts/scrape.ts:553 | The agency is the first cell text mentioning 국토지리정보원 or 수요기관, and "Unknown" when none does. |
| Extractor.DigitRunUnique | scripts/scrape.ts:557 | A digit run that is followed by a non-digit or the end of the string is the maximal run `\d+` consumes at that position. |
| Extractor.BidnoAtSpec | scripts/scrape.ts:557 | An anchored attempt of `bidno=(\d+)&` succeeds with capture `d` exactly when the pattern matches there with that capture. |
| Extractor.SearchBidno | scripts/scrape.ts:557 | The capture returned is the match at the leftmost position where the pattern matches. No match is reported only when the pattern matches nowhere. |
| Extractor.DeriveId | scripts/scrape.ts:555-561 | Without `bidno=` in the link the id is `title + "_" + date`. With it, the id is "" when the regular expression does not match, and otherwise the non-empty digit capture of its leftmost match. |
| Extractor.HasDatePrefix | scripts/scrape.ts:552 | The text starts with four ASCII digits, `/`, two digits, `/`, two digits, as `/^\d{4}\/\d{2}\/\d{2}/` tests. |
| Extractor.DigitRun | scripts/scrape.ts:557 | The greedy `\d+` at a position: the result is all digits, occurs at that position, and is followed by a non-digit or the end of the string. |
| Extractor.BidnoAt | scripts/scrape.ts:557 | The match attempt of `bidno=(\d+)&` anchored at one position: the key, the greedy digit run, and a `&` right after it. Its meaning is stated by `Extractor.BidnoAtSpec`. |
| Extractor.ExtractRow | scripts/scrape.ts:538-573 | What one row contributes to `results`. Its meaning is stated by `Extractor.ExtractRowSpec`. |
| Extractor.ExtractRowSpec | scripts/scrape.ts:538-573 | A row with fewer than 5 cells or no title link gives nothing. A row with a blank title gives nothing. Otherwise the record has the trimmed non-empty title, the link's href, the status "Open", and the date, agency and id derived from the row. |
| Extractor.ExtractAll | scripts/scrape.ts:538-575 | The `results` the `forEach` returns: the records of the rows that give one, in row order, never more than there are rows. Its membership, order and splitting are stated by the `ExtractAll*` lemmas. |
| Extractor.ExtractResults | scripts/scrape.ts:533-575 | The `forEach` loop returns exactly the records of the rows that give one, in row order. |
| Extractor.ExtractAllAppend | scripts/scrape.ts:538-574 | Extraction is row by row: the output for two halves of a table is the two outputs concatenated. |
| Extractor.DroppedRowIsInvisible | scripts/scrape.ts:540-548 | A row that gives nothing can be removed from the table without changing the output. |
| Extractor.ExtractAllMembers | scripts/scrape.ts:538-574 | A record is in the output exactly when some row gives it. |
| Extractor.ExtractAllOrder | scripts/scrape.ts:538-574 | The records of rows `i < j` appear in the output in that order. |
| Signatures.IsPopupClose | scripts/scrape.ts:46-50 | The close signature: the trimmed text is 닫기 or 창닫기 or contains 오늘 하루 열지, or `alt` is 닫기 or 창닫기, or the class name is a non-empty string containing `close`. |
| Signatures.ShouldClose | scripts/scrape.ts:46-52 | An element is clicked when its attributes were read, they have the close signature, and the layout check reports `offsetParent !== null`. |
| Signatures.DismissPopups | scripts/scrape.ts:37-63 | The scan clicks exactly the visible elements with the close signature that come before the first element whose attributes could not be read. The clicks are in document order. |
| Signatures.IsDetailToggle | scripts/scrape.ts:268-271 | The toggle vocabulary: the trimmed text is exactly 상세조건, 상세조건 열기 or 검색조건 더보기. |
| Signatures.InGlobalChrome | scripts/scrape.ts:313 | The element or one of its ancestors has class `gnb` or `top_menu`, or id `header`. |
| Signatures.IsAgencyLabel | scripts/scrape.ts:311-315 | The element is outside the global chrome and its trimmed text is exactly 수요기관 or 발주기관. |
| Signatures.FindAgencyLabel | scripts/scrape.ts:309-316 | The label found is the first candidate whose trimmed text is 수요기관 or 발주기관 and that is outside `.gnb`, `#header` and `.top_menu`. None is found exactly when there is no such candidate. |
| Signatures.ButtonLabel | scripts/scrape.ts:472 | The label is the trimmed text if non-empty, else the `value` if non-empty, else the `alt` attribute. |
| Signatures.IsSearchSignature | scripts/scrape.ts:478-481 | A non-empty id containing `btnS0001`, `btnSearch` or `S0001`, or the label 검색 or 조회, or a string class name containing `btn_search` or `search`. |
| Signatures.ExcludedById | scripts/scrape.ts:484 | A non-empty id containing `gnb`, `global`, `header` or `Global`. |
| Signatures.ExcludedByClass | scripts/scrape.ts:488 | A string class name containing `gnb` or `top`. |
| Signatures.ExcludedByText | scripts/scrape.ts:491 | A non-empty label containing 해당 검색어. |
| Signatures.IsMainSearchButton | scripts/scrape.ts:478-494 | The search signature holds and none of the three exclusions does. |
| Signatures.IsContentFrameText | scripts/scrape.ts:220 | The frame text contains 공고명 and also 수요기관 or 발주기관. |
| Signatures.FrameText | scripts/scrape.ts:218 | A frame's text, or "" when reading it failed, as `.catch(() => '')` gives. |
| Navigation.IsMarkerInput | scripts/scrape.ts:165-167 | An input whose id contains `inqrBgnDt` or `dminInstCd`, or whose name is exactly `taskClCd`. |
| Navigation.MarkersPresent | scripts/scrape.ts:162-169 | The marker check holds when the page evaluation returned and some input matches a marker selector. A failed evaluation leaves it false, as the empty `catch` does. |
| Navigation.VerifyArrival | scripts/scrape.ts:161-205 | The direct URL is tried exactly when the title is still 나라장터 and no marker input is found. The run continues exactly when a marker input is on the menu page, or on the direct-URL page after a fallback. |
| Navigation.DirectPageOnlyReadOnFallback | scripts/scrape.ts:171-192 | When the fallback is not taken, the outcome does not depend on the direct-URL page: that page is loaded and checked only on the fallback. |
| Navigation.FindContentFrame | scripts/scrape.ts:213-235 | The frame chosen is the first frame, in the first round, with the content signature. A frame whose text could not be read (taken as "") is never chosen. The top page is used exactly when no frame in any of the ten rounds has it. |
| Navigation.OpenDetailedSearch | scripts/scrape.ts:243-281 | Nothing is clicked exactly when the agency input is visible. Otherwise the first element with the toggle text is clicked when there is one, else the `btnSearchToggle` element when it exists. |
| Navigation.ClickMainSearch | scripts/scrape.ts:467-511 | The candidate clicked is the first one with the search signature and none of the id, class or text exclusions. The button-area fallback is clicked exactly when there is no such candidate and the area exists. |
| Dates.TwoDigitsValue | scripts/scrape.ts:437-438 | The two-character zero-padded field reads back as the number. |
| Dates.TwoDigits | scripts/scrape.ts:437-438 | `String(n).padStart(2, '0')` for `n < 100`: exactly two ASCII digits. `Dates.TwoDigitsValue` pins its value. |
| Dates.FormatDate | scripts/scrape.ts:435-440 | The output is the year as `String` writes it, then `/`, a two-digit month and `/`, a two-digit day. |
| Dates.FormatDateRoundTrip | scripts/scrape.ts:435-440 | Parsing `formatDate`'s output gives back the year, the 1-based month and the day, negative years included. |
| Dates.FormatDateMatchesDateColumn | scripts/scrape.ts:435-440 | For four-digit years the output has exactly ten characters and has the `YYYY/MM/DD` shape the date column is recognised by. |
| Notifier.ToEmbed | scripts/scrape.ts:595-604 | One embed per item: the prefixed title, the link, green, the date and agency fields, and the `ID:` footer. Its content is pinned by `Notifier.EmbedRoundTrip`. |
| Notifier.Header | scripts/scrape.ts:616 | The first post's summary line with the item count. |
| Notifier.PayloadsFrom | scripts/scrape.ts:608-618 | The chunk loop from offset `i`: one message per `slice(i, i + 10)`, with the header only on the message at offset 0. Its count and contents are stated by `Notifier.PayloadsFromCount` and `Notifier.PayloadsFromConcat`. |
| Notifier.Payloads | scripts/scrape.ts:595-618 | Every message the notifier posts for the items: the chunk loop from offset 0 over their embeds, with the item count in the header. `Notifier.PayloadsSpec` states its shape. |
| Notifier.EmbedRoundTrip | scripts/scrape.ts:595-604 | An embed carries the whole record: the title, link, date, agency and id can be read back from it. |
| Notifier.SendNotification | scripts/scrape.ts:589-630 | Nothing is posted without a webhook. Otherwise the posts are exactly the chunk payloads of the items, in order. |
| Notifier.PayloadsSpec | scripts/scrape.ts:606-618 | For k items there are ceil(k/10) posts, each carrying 1 to 10 embeds. Their embeds concatenate to all the items' embeds in order. Only the first post carries the header with the count k. |
| Notifier.PayloadsFromCount | scripts/scrape.ts:608 | The chunk loop from offset `i` posts ceil((k - i)/10) messages. |
| Notifier.PayloadsFromConcat | scripts/scrape.ts:608-609 | The chunks from offset `i` concatenate to the embeds from `i` on. |
| ChangeDetector.LookupIn | scripts/scrape.ts:644-648 | Without a store error the lookup finds the id exactly when a row with that id is stored. For a missing id it answers the "no rows" code `PGRST116`. |
| ChangeDetector.MarkSentIn | scripts/scrape.ts:686 | The bulk update sets `is_sent` on exactly the listed ids that are stored. It changes nothing else and adds no rows. |
| ChangeDetector.Store.Insert | scripts/scrape.ts:660-670 | The insert succeeds exactly when it is not failed and the id is new. It then adds the record with `is_sent = false` and changes nothing else. |
| ChangeDetector.Store.Lookup | scripts/scrape.ts:644-648 | The reply is what `LookupIn` gives for the current rows. |
| ChangeDetector.Store.MarkSent | scripts/scrape.ts:686 | The rows become `MarkSentIn` of the old rows and the ids. |
| ChangeDetector.Step | scripts/scrape.ts:642-677 | One loop iteration: skip on a lookup error other than `PGRST116` or when found; otherwise insert and collect the item when the insert succeeds. |
| ChangeDetector.Dedup | scripts/scrape.ts:640-678 | The loop over the whole batch, as a left fold of `Step`. |
| ChangeDetector.RunRows | scripts/scrape.ts:635-689 | The store after a run: unchanged for an empty batch, else the loop's rows with the new ids marked sent. |
| ChangeDetector.Run | scripts/scrape.ts:632-691 | An empty batch changes nothing. Otherwise the loop produces the dedup result. The new items are posted when a webhook is set, and their ids are then marked sent in either case. |
| ChangeDetector.DedupSubsequence | scripts/scrape.ts:640-678 | The new items are a subsequence of the scraped items. |
| ChangeDetector.StepInsertsOnlyNewItems | scripts/scrape.ts:642-677 | One loop iteration keeps the invariant below: old rows unchanged, each new item inserted once with `is_sent = false` under a previously absent id, nothing else added. |
| ChangeDetector.DedupStore | scripts/scrape.ts:640-678 | After the loop, the rows are the old rows plus exactly one `is_sent = false` record per new item. The new items' ids are distinct and were absent before. |
| ChangeDetector.DedupWithoutIdleItem | scripts/scrape.ts:642-678 | An item whose iteration leaves the state unchanged can be taken out of the batch without changing the loop's result. |
| ChangeDetector.LookupErrorItemIgnored | scripts/scrape.ts:650-653 | An item whose lookup fails with a code other than `PGRST116` has no effect on the store or the new items. |
| ChangeDetector.InsertFailureItemIgnored | scripts/scrape.ts:672-676 | An item whose insert fails is neither stored nor reported as new, and the rest of the batch is processed as if it were absent. |
| ChangeDetector.StoredItemIgnored | scripts/scrape.ts:655 | An item whose id was already stored has no effect on the store or the new items, whatever the store answers for it. |
| ChangeDetector.DedupInsertsUnseenItem | scripts/scrape.ts:655-676 | An item whose id is absent, whose lookup answers "no rows" and whose insert succeeds is inserted with `is_sent = false` and appended to the new items. |
| ChangeDetector.DedupReportsAllUnseen | scripts/scrape.ts:640-678 | With a store that behaves normally, a batch of distinct ids none of which is stored is reported in full, in order. |
| ChangeDetector.RerunAddsNothing | scripts/scrape.ts:642-678 | A batch whose ids are all stored adds no rows and reports nothing new. |
| ChangeDetector.RunMarksExactlyNewItems | scripts/scrape.ts:680-689 | After a run, every row that was stored is unchanged, whatever its `is_sent`. Each new item is stored with `is_sent = true`, and no other row is added. When nothing is new, the store is unchanged. |
| Pipeline.ScrapeItems | scripts/scrape.ts:192-205 | A fatal navigation gives no items; otherwise the items are the table's extraction. There are never more items than rows. |
| Pipeline.FailedNavigationLeavesStoreAlone | scripts/scrape.ts:581-583 | A run whose navigation fails gets no items from the catch-all and so, through the early exit at lines 635-638, leaves the store unchanged. |
| Pipeline.RerunOfStoredTableChangesNothing | scripts/scrape.ts:632-691 | Running again over a table whose records are all stored leaves the store unchanged and notifies nothing. |

## Left out

- Browser I/O is not modelled: Puppeteer launch, page loads, waits and timeouts, screenshots, debug dumps and logging. The model receives what the browser reports as inputs.
- The portal-entry and menu navigation before the arrival check (`scripts/scrape.ts:66-153`) is not modelled. That includes the menu signatures, new-tab detection and the initial popup pass. Only the arrival check at the end of it is modelled.
- The agency-filter step is not modelled: deriving the input from the label, the lookup popup and its frame, and typing the agency code (`scripts/scrape.ts:319-425`). Only the label search is modelled (`Signatures.FindAgencyLabel`).
- The date-range step's clock and date arithmetic are not modelled: "today minus six months" through `Date.setMonth`, the date-input heuristics and the typing (`scripts/scrape.ts:431-460`). Only `formatDate` is modelled, over the integers `getFullYear`, `getMonth` and `getDate` return.
- Signatures.DismissPopups: the frames are flattened into one sequence in frame order. A failure of `frame.$$` is treated like a failed attribute read, which also ends the scan.
- Navigation.ClickMainSearch and Navigation.OpenDetailedSearch: when a browser read inside them throws, `scrapeG2B`'s catch-all ends the run with no items. The model covers only reads that succeed. `Pipeline.ScrapeItems` covers the arrival failure alone.
- Navigation.FindContentFrame: the one-second wait between rounds is not modelled. A frame that disappears between rounds is represented only by the next round's frame list.
- The store, the webhook, the environment, `process.exit` and `fetch` are external services, represented by `StoreFaults`, the payload sequence and the `webhookConfigured` flag.
- The error returned by the bulk `is_sent` update is ignored by the code (`scripts/scrape.ts:686`). The model treats that update as always applying.
- Text.NatToDecimal and Text.IntToString: from 10^21 on JavaScript's `String` writes exponent notation, which the model does not. Every year, month, day and item count the code formats is far below that.
- JavaScript `String.prototype.trim` uses the Unicode `Zs` category. `Text.IsJsSpace` lists its members as of Unicode 15.
- `src/app/page.tsx`, the read-only dashboard, is not part of this model.
