# Digital Database Citation Downloader, modelled in Dafny

This Chrome extension crawls the result pages of a digital library. It opens every article or chapter
in a background tab, clicks that page's citation download buttons, and follows the "next page" link
until no pages are left. A second tool in the popup merges the downloaded RIS citation files into one
file. It then checks the merged records against a numbered list of expected titles and writes a report.

The model covers the three pieces of sequential logic inside the extension:

- `ris_merge.dfy` (module `RisMerge`): `mergeRisFiles` from popup.js. It covers title-list cleaning,
  the line scan that splits RIS texts into records at `TY  -` lines and collects `TI  -` titles, the
  missing-title filter, the report text and the merged text. The scan is a nested loop over string
  buffers, as in the source (`ScanRisFiles`). It is proved equal to a line-level specification
  (`Scan`, `Records`, `RecoveredTitles`), and the lemmas are stated about that specification.
- `crawl.dfy` (module `Crawl`): the `tasks` record of background.js and its transitions. Pure
  functions (`Handle`, `Stop`, `ProcessNext`) give each transition: the new record, the browser calls
  and popup messages it issues as events, and whether processing continues. The class `CrawlTasks`
  holds the record's fields and updates them in place. Its methods are proved to follow those
  functions and to keep the invariant `Inv`.
- `content.dfy` (module `Content`): `collectLinks` and `downloadCitation` from content.js. These run
  over what the script observes instead of a DOM:
  - a list of matched elements;
  - the optional results-count text;
  - the optional next-page button;
  - for each attempt, the exception it raised or the selectors that were found.
- `text.dfy` (modules `Text` and `Seqs`): the JavaScript string and collection behaviour the three
  files rely on. This covers `trim` and its whitespace set, `startsWith`, `includes`, `split('\n')`,
  `join`, `substring`, decimal formatting and `parseInt` of digits, and a `Set` read back in
  insertion order (`Dedup`).
- `messages.dfy` (modules `Wrappers` and `Messages`): the runtime messages that content.js and
  background.js exchange.

Some behaviour is stated as the code has it:

- content.js:4 replies `{ success }`, and `success` there is the whole result object of
  `downloadCitation`. That object is always truthy. So background.js:131 takes its failure branch only
  when no reply arrives, and a failed download is still reported as progress
  (`Crawl.FailedDownloadCountsAsProgress`).
- A rejected `tabs.create` (background.js:83, 115) ends `processNextUrl` right after the call: nothing
  is assigned and nothing is rescheduled, so a running crawl stalls with its record unchanged
  (`Crawl.TabCreateFailureStalls`). The model represents this as the new tab `None`.
- A rejected `tabs.sendMessage` (background.js:130) ends `processNextUrl` before anything else
  happens. The item tab is left open, `current` does not move, and nothing is rescheduled. The model
  represents this as the reply `SendFailed`.
- In the code:
  - `processedUrls` is declared and cleared but never filled or consulted, so no item is skipped as
    already processed;
  - `total` is replaced, never revised upward;
  - background.js keeps the crawl only in memory, and a crawl cannot be resumed. The popup does store
    a `downloadState` (popup.js:166-172) to redraw its progress bar (popup.js:121-135); that is
    display state and is left out;
  - a failed item is not reported as an error.

## Model

| member | source | states |
|---|---|---|
| Text.TrimSpec | popup.js:7 | `trim` returns a trimmed text no longer than its input. The result is empty exactly when the input is all whitespace, and an already trimmed text is returned unchanged |
| Text.TrimStartSpec | popup.js:7 | removing leading whitespace leaves a suffix, drops only whitespace and stops at a non-whitespace character |
| Text.TrimEndSpec | popup.js:7 | removing trailing whitespace leaves a prefix, drops only whitespace and stops at a non-whitespace character |
| Text.Contains | content.js:39 | `includes` holds exactly when the substring occurs at some position |
| Text.SplitLines | popup.js:21 | `split('\n')` gives at least one piece, and no piece holds a line feed |
| Text.JoinSplitLines | popup.js:6 | joining the pieces of `split('\n')` with line feeds gives the text back |
| Text.SplitLinesJoin | popup.js:46 | splitting a line-feed join of lines that hold no line feed gives the lines back |
| Text.DecimalString | popup.js:43-46 | `${n}` is a non-empty run of decimal digits |
| Text.DecimalRoundTrip | content.js:22 | `parseInt` of the decimal text of n is n |
| Text.LeadingDigits | popup.js:7 | the run of `\d` at the head of a text is all digits and is followed by a non-digit or the end |
| Seqs.Dedup | content.js:33-50 | a `Set` read back with `Array.from` holds no repeats and holds exactly the values inserted |
| Seqs.DedupFirstSeenOrder | content.js:50 | values come back in the order of their first insertion |
| Seqs.DedupPair | content.js:40 | two inserted values collapse to one exactly when they are equal |
| RisMerge.CleanTitlesTrimmed | popup.js:6-8 | every kept title is non-empty and trimmed |
| RisMerge.CleanTitlesInOrder | popup.js:6-8 | the kept titles are the cleaned lines in input order |
| RisMerge.CleanTitlesKeepsNonEmpty | popup.js:6-8 | every non-empty cleaned line is kept, as often as it occurs, so only empty ones are dropped |
| RisMerge.CleanNumberedTitle | popup.js:7 | cleaning `n. title` removes exactly the number, the dot and the space, and gives back a trimmed title |
| RisMerge.ScanLineInto | popup.js:22-35 | one line applied to the string buffers does to them what the line-level scan step does to its state |
| RisMerge.ScanTextInto | popup.js:21-35 | the lines of one file applied to the string buffers do to them what the line-level scan does to its state |
| RisMerge.ScanRisFiles | popup.js:16-39 | the records built are the texts of the scan's records after the single final flush, and the title set is the scan's title set |
| RisMerge.ScanLineKeepsLines | popup.js:22-35 | one scan step adds the line to the records-plus-buffer exactly when it is not blank |
| RisMerge.ScanLinesKeepsLines | popup.js:20-36 | over any lines, records-plus-buffer grows by exactly the non-blank lines, in order |
| RisMerge.LinesPreserved | popup.js:20-39 | the records laid end to end are the non-blank lines of all files, file after file, with none lost, repeated or reordered |
| RisMerge.RecordTextsKeepLines | popup.js:20-39 | concatenating the record texts gives every non-blank input line followed by a line feed |
| RisMerge.RecordTextAppend | popup.js:27-33 | the text of two line runs laid end to end is the two texts concatenated |
| RisMerge.ScanLineWellFormed | popup.js:23-34 | one scan step keeps every record non-empty, keeps type lines only at record heads, and keeps a type line at the head of the buffer once a record has been pushed |
| RisMerge.ScanLinesWellFormed | popup.js:20-36 | the same holds over any run of lines |
| RisMerge.RecordBoundaries | popup.js:23-27 | no record is empty, no record holds a `TY  -` line after its first line, and every record after the first begins with one |
| RisMerge.FirstRecordStart | popup.js:23-39 | there are records exactly when some line is not blank, and the first record begins with the first non-blank line, a type line or not |
| RisMerge.ScanLinesAppend | popup.js:20-22 | scanning two runs of lines is scanning the second from where the first left off |
| RisMerge.ScanNextFile | popup.js:18-21 | one more file continues from the previous files' state, with the unflushed buffer carried over |
| RisMerge.LinesJoinOpenRecord | popup.js:28-34 | lines without a type line extend the open buffer by their non-blank lines and push no record, so a later file's leading lines join the previous file's last record |
| RisMerge.TitleLineIsNotTypeLine | popup.js:23-28 | a `TI  -` line is never taken for a `TY  -` line |
| RisMerge.ScanLinesTitles | popup.js:28-30 | the scan adds exactly the titles of the `TI  -` lines it reads |
| RisMerge.TitlesInMembers | popup.js:28-30 | a title is among those of a run of lines exactly when one of its `TI  -` lines yields it |
| RisMerge.RecoveredTitlesExactly | popup.js:28-30 | the recovered set is exactly the trimmed text after position 6 of every `TI  -` line in all files, including lines before any `TY  -` |
| RisMerge.MissingTitlesInOrder | popup.js:42 | the missing titles are, in list order, the listed titles that are not in the recovered set, matched exactly |
| RisMerge.MissingTitlesKeepDuplicates | popup.js:42 | a title that was not recovered is missing as many times as it is listed |
| RisMerge.NumberedAt | popup.js:46 | line i of the numbered list is `${i + 1}. ` followed by the i-th missing title |
| RisMerge.NumberedListReadsBack | popup.js:46 | the numbered list, read back as a title file, gives the titles back when they are non-empty, trimmed and free of line feeds |
| RisMerge.ReportListReadsBack | popup.js:42-46 | for any inputs, the report's missing list, read back as a title file, gives exactly the missing titles |
| RisMerge.CleanTitlesNoLineFeeds | popup.js:6-8 | cleaning never introduces a line feed |
| RisMerge.AuditOfThreeTitles | popup.js:42-45 | with titles A, B, C and A, C recovered: 2 successes, 3 in total, and B missing |
| RisMerge.RecordTextsAt | popup.js:49 | there is one record text per record, each the text of its record |
| RisMerge.MergedTextLayout | popup.js:49 | joining the record texts with a line feed lays the records out with exactly one empty line between consecutive records. No records give the empty text |
| RisMerge.MergeRisFiles | popup.js:2-49 | the merged text is the records separated by single empty lines, and the report is the text of the audit of the cleaned titles against the recovered titles |
| Content.FindMatch | content.js:20 | the match found is the leftmost position where `of `, digits and ` results` occur. No match means there is none anywhere |
| Content.ParseTotalResultsSpec | content.js:17-24 | the count is 20 without a span or without a match, and otherwise is the number at the leftmost match |
| Content.ResultCountReadsBack | content.js:20-22 | `of N results` is read as N |
| Content.SeparatedCountFallsBack | content.js:18-24 | `of 1,234 results` does not match, so the count stays 20 |
| Content.HrefsStep | content.js:36-47 | the links collected so far grow by one element exactly as a `Set` insertion of its qualifying link |
| Content.TitlesStep | content.js:36-47 | the titles collected so far grow by one element exactly as a `Set` insertion of its qualifying title |
| Content.GatherLinks | content.js:33-48 | the links and titles are the de-duplicated, first-seen-ordered links and titles of the qualifying elements |
| Content.QualifyingHrefsMembers | content.js:38-40 | a link is gathered exactly when some qualifying element carries it |
| Content.QualifyingTitlesMembers | content.js:42-45 | a title is gathered exactly when some qualifying element's trimmed text is that non-empty title |
| Content.CollectedLinks | content.js:33-50 | the links are distinct and are exactly the links of the qualifying elements, each naming `/article/` or `/chapter/` |
| Content.CollectedTitles | content.js:33-46 | the titles are distinct, non-empty, trimmed texts of qualifying elements only |
| Content.QualifyingPair | content.js:36-47 | two qualifying cards with titles contribute their two links and their two trimmed titles, in order |
| Content.TitlesNotAlignedWithLinks | content.js:39-58 | any two qualifying cards with different links and the same non-empty title give two links but one title, so titles are not aligned with links by index |
| Content.CollectLinks | content.js:14-71 | with no qualifying link it fails and sends nothing. Otherwise it sends the links, titles and count, then the next page only if the button exists, is enabled and has a link, and succeeds. A sent link list is never empty |
| Content.DownloadCitation | content.js:78-138 | it makes at most three attempts and succeeds at the first that finds both buttons for the page's kind. It fails only on the third attempt, with that attempt's error, and never leaves the loop without returning |
| Crawl.StopKeepsInv | background.js:60-76 | stopping leaves an idle record that satisfies the invariant |
| Crawl.HandleKeepsInv | background.js:14-57 | every message keeps `total` equal to the length of `urls`, `0 <= current <= total`, an empty processed set, and an idle record empty |
| Crawl.ProcessNextKeepsInv | background.js:79-158 | every processing step keeps the same invariant |
| Crawl.Apply | background.js:14-158 | any message or step keeps the invariant |
| Crawl.Run | background.js:2-158 | after any sequence of messages and steps from a valid record, the invariant holds |
| Crawl.StopIdempotent | background.js:60-76 | a second stop changes nothing and closes nothing |
| Crawl.StartDownloadSpec | background.js:20-32 | start is ignored while running. From idle it gives a fresh running record with the new tab and requests links from that tab |
| Crawl.IdleIgnoresPageMessages | background.js:15-37 | `nextPageFound` and `linksCollected` change nothing and issue nothing when idle |
| Crawl.LinksCollectedSpec | background.js:33-53 | a missing list is reported and changes nothing. An empty list is reported and leaves the crawl running with an empty queue and nothing scheduled. A non-empty list restarts the queue and starts processing |
| Crawl.ItemStepSpec | background.js:111-157 | an item opens its tab and requests the citation. The position moves by exactly one unless the request fails. Progress is reported only for a reply, and the tab is then closed |
| Crawl.FailedDownloadCountsAsProgress | background.js:131-149 | a reply carrying a failed download is still reported as progress |
| Crawl.PaginationSpec | background.js:80-103 | at the end of the queue with a pending page, the queue is reset, the page's tab becomes the crawl tab, links are requested, and no completion is reported |
| Crawl.CompletionSpec | background.js:105-108 | at the end of the queue with no pending page, exactly one completion is reported, then a stop that leaves the crawl idle |
| Crawl.StaleTimerReportsCompletion | background.js:80-108 | a step that runs after a stop reports completion again and changes nothing |
| Crawl.TabCreateFailureStalls | background.js:79-116 | when `tabs.create` rejects, for an item or for the next page, only the open call is issued; the record is unchanged and nothing is scheduled |
| Crawl.ProgressInRange | background.js:144-149 | in any run, every progress report (c, n) has 1 <= c <= n |
| Crawl.TwoLinkCrawl | background.js:14-158 | a two-link crawl issues exactly the calls and reports of the source, including the final stop closing the last item tab again |
| Crawl.CrawlTasks.constructor | background.js:2-11 | the record starts idle and empty |
| Crawl.CrawlTasks.StopDownload | background.js:60-76 | from any record, the fields become those of `Stop`, the tab close is logged, and the invariant holds afterwards |
| Crawl.CrawlTasks.OnMessage | background.js:14-57 | the fields and log follow `Handle`, and the invariant is kept |
| Crawl.CrawlTasks.ProcessNextUrl | background.js:79-158 | the fields and log follow `ProcessNext`, and the invariant is kept |

## Left out

- File reads (`File.text()`), `Blob`, `URL.createObjectURL` and `chrome.downloads.download` in
  `mergeRisFiles` are left out. So is its `{ success }` result and its `catch`. The model produces the
  two texts that are saved.
- The popup's progress display and its `downloadState` in `chrome.storage.local` (popup.js:121-135,
  166-172, 179, 202) are user interface and are left out.
- Every `chrome.*` call of background.js is recorded as an event and not performed. The new tab id
  (or `None` when `tabs.create` rejects) and the citation reply are inputs to a step.
- Timers (`setTimeout`) and the `tabs.onUpdated` load waits are left out. Each transition is one
  atomic step, so interleavings are not modelled. One example is a stop arriving while
  `processNextUrl` awaits, which can push `current` past a reset `total`.
- A rejected `tabs.remove` inside `processNextUrl` (background.js:134, 152) is not modelled. It would
  end the step early. `stopDownload` catches its own rejection.
- The DOM, `querySelector`, `MutationObserver`, `waitForElement` (content.js:141-167) and the button
  clicks are left out. The matched elements, the next-page button and the selectors found on each
  attempt are inputs.
- Content.CollectLinks: the `catch` of content.js:72-74 is not modelled. Sending `linksCollected` is
  taken to succeed.
- Content.DownloadCitation requires one view for each of the three possible attempts. Views after
  the deciding attempt are ignored. This is a requirement of the model, not of the source.
- Content.ParseTotalResults: `parseInt` is exact here. JavaScript loses precision above 2^53.
- RisMerge.TitleOf: `substring(6)` counts characters. JavaScript counts UTF-16 code units, so the two
  differ only when a character outside the Basic Multilingual Plane stands in the first six positions
  of a `TI  -` line.
- The popup's UI handlers and the progress percentage (popup.js:78-204) are UI and floating point.
- `console` logging is left out.
