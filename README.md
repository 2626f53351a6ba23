# Crawl orchestration of the Nuri-Jangter bid-notice crawler, in Dafny

This project models the core of a crawler for bid notices on the Korean
public-procurement site Nuri-Jangter. The crawler does the following:

- It walks the notice list page by page.
- It hands each row to a per-notice processor. The processor skips what the
  checkpoint already records or what the deduplication store has seen. It then
  fetches the detail page through an escalating recovery ladder (soft reset,
  hard reset, restoring the pagination), builds the notice record and applies a
  quality gate.
- It keeps a JSON checkpoint, so that an interrupted crawl resumes where it
  stopped.
- It sorts the collection newest first and writes it to the storage sinks.
- It can replay the failed items of the last checkpoint through the list's
  search box.

The parsers for the list and detail pages, the record schema, the retry
combinator, the CSV sink and the command-line entry point are modelled too.

Every browser, file system and clock interaction is a parameter. A datatype
describes what the browser or the disk does: what a list page shows, whether
a write succeeds, which exception a call raises. The model then states what
the code does for every such behaviour. Objects that the source updates in
place are classes:

- the checkpoint manager
- the deduplication store
- the notice collection
- the shared statistics counters
- the processor, the engine and the replayer
- the retry context

Pure helpers, such as the text cleaning, the label lookup, the schema
validation and the fingerprint, are functions with lemmas.

The modules are:

- `Wrappers`, `Text` and `Values`: shared helpers for Option and Result, the
  Python string operations used, and Python-like field values.
- `Checkpoint`: `src/checkpoint/manager.py`.
- `Dedup`: `src/utils/deduplication.py`.
- `Schema`: `src/models/schema.py`.
- `ListParser`: `src/parser/list_parser.py`.
- `DetailParser`: `src/parser/detail_parser.py`.
- `Navigator`: `src/crawler/navigator.py`.
- `Processor`: `src/crawler/processor.py`.
- `Engine`: `src/crawler/engine.py`.
- `RetryManager`: `src/crawler/retry_manager.py`.
- `Retry`: `src/utils/retry.py`.
- `CsvStorage`: `src/storage/csv_storage.py`.
- `Launcher`: `main.py`.

Behaviour that the code has as written, and that the model keeps:

- **Checkpoint page is one ahead.** After a successful page turn the engine
  sets `checkpoint.current_page` to the new page number and then calls
  `advance_page()`. The checkpoint therefore records page n+1 while the loop
  is on page n (engine.py:246-248). A resumed crawl starts one page past the
  page it was on. `Engine.CrawlerEngine.TurnPage` states this.
- **One shared error counter.** Item failures and page failures count on the
  same `stats['errors']` (processor.py:135 and engine.py:262). The ceiling of
  10 page errors (engine.py:265) therefore also counts item failures.
- **No cursor move on a page error.** After a page-level exception only the
  loop's local page counter moves on (engine.py:270). The checkpoint cursor
  stays where it was.
- **Early-exit threshold is fixed.** It is hard-coded to 30 (processor.py:39),
  although a comment says it should come from the configuration.
- **Failed restore is only logged.** When restoring the pagination fails after
  a soft or hard reset, the failure is only logged and the ladder goes on
  (processor.py:196-200, 214-218).
- **Quality gate.** A notice is rejected when at least 4 of its 5 critical
  fields are empty and it has no notes (processor.py:106-117). The comment
  there says 3; the code says 4.
- **Stale total count.** The quality gate pops the notice straight off the
  list (processor.py:116), so `BidNoticeList.total_count` keeps the count from
  before the pop. `Schema.NoticeList.PopLast` states this.
- **Validation failures in Methods 1 and 2.** When the new-tab or modal method
  parses a page without an opening date, the validation failure is swallowed.
  The fetch then ends with "tried all methods" (processor.py:289-296,
  320-327, 489-490). Only the in-page method re-raises its own validation
  failure (processor.py:484-487).
- **Contact popup never merged in the in-page method.** The in-page method
  calls `extract_contact_popup`, which the detail parser does not define
  (processor.py:387). The resulting error is caught, so the contact popup is
  never merged there. The detail parser's own `parse_page` does merge it
  (detail_parser.py:70-77).
- **Replayer removes a just-added entry.** After a successful search the
  replayer removes every failed entry with that id, including one that
  `process_notice` has just added when the retry failed again
  (retry_manager.py:105-108 with processor.py:129-135).
  `RetryManager.Replayer.RetryOne` states this.
- **`N/A` only for a missing size.** In `to_flat_dict` a file size of `None`
  is written as `None`. `N/A` appears only when the key is missing
  (schema.py:180-184).

## Model

| member | source | states |
|---|---|---|
| Checkpoint.StateOf | src/checkpoint/manager.py:19-25 | a state name is accepted only if it is the value of one of the five states, and it parses back to that state |
| Checkpoint.StateNameRoundTrip | src/checkpoint/manager.py:19-25 | every state written to the file is read back as the same state |
| Checkpoint.Encode | src/checkpoint/manager.py:130-140 | the saved document carries the save time as `last_updated` |
| Checkpoint.Decode | src/checkpoint/manager.py:104-109 | a document loads exactly when its state is missing or a valid state name; missing keys become their defaults (page 1, empty lists) |
| Checkpoint.DecodeEncode | src/checkpoint/manager.py:91-152 | a checkpoint written by a save is loaded back unchanged (the save/load round trip) |
| Checkpoint.WithoutId | src/checkpoint/manager.py:201-204 | the remaining failed entries are exactly those with another id; the list shrinks exactly when the id was present |
| Checkpoint.WithoutIdAppend | src/checkpoint/manager.py:201-204 | removing an id filters each part of a list independently and keeps the order |
| Checkpoint.CheckpointManager.constructor | src/checkpoint/manager.py:39-67 | a fresh manager is INITIALIZED on page 1 with no items, no statistics and nothing read from disk |
| Checkpoint.CheckpointManager.InitializeCrawl | src/checkpoint/manager.py:69-89 | a new crawl is IN_PROGRESS from page 1, with empty item lists, zeroed statistics stamped with the start time, and the given metadata |
| Checkpoint.CheckpointManager.LoadCheckpoint | src/checkpoint/manager.py:91-121 | loading succeeds exactly for a stored, decodable file and then takes over its whole progress; otherwise nothing changes |
| Checkpoint.CheckpointManager.SaveCheckpoint | src/checkpoint/manager.py:123-157 | a save writes the current progress only when forced or when the interval is reached; a failed write leaves the old file and the counter |
| Checkpoint.CheckpointManager.MarkItemProcessed | src/checkpoint/manager.py:159-172 | the id is appended, the processed count is updated, and a save happens exactly when the interval is reached |
| Checkpoint.CheckpointManager.MarkItemFailed | src/checkpoint/manager.py:174-192 | a failed entry is appended with its error, time and non-empty details, the failed count is updated, and nothing is saved |
| Checkpoint.CheckpointManager.RemoveFailedItem | src/checkpoint/manager.py:194-211 | every entry with the id is dropped; only when something was dropped are the count updated and a save forced |
| Checkpoint.CheckpointManager.AdvancePage | src/checkpoint/manager.py:225-229 | the cursor moves one page on and `pages_crawled` records the pages before it |
| Checkpoint.CheckpointManager.SetState | src/checkpoint/manager.py:231-240 | the state becomes the given one |
| Checkpoint.CheckpointManager.CompleteCrawl | src/checkpoint/manager.py:242-266 | the crawl ends COMPLETED or FAILED with an end time, and a forced save writes it |
| Checkpoint.CheckpointManager.UpdateStatistics | src/checkpoint/manager.py:268-275 | the statistics are merged with the new values winning and the other keys kept |
| Checkpoint.CheckpointManager.GetResumeInfo | src/checkpoint/manager.py:277-290 | a crawl can resume exactly when it is IN_PROGRESS or PAUSED; page and counts are reported as stored |
| Checkpoint.CheckpointManager.ClearCheckpoint | src/checkpoint/manager.py:310-317 | the file is gone after a successful delete and unchanged after a failed one |
| Checkpoint.ResumeAfterForcedSave | tests/test_checkpoint.py:48-75 | a forced save followed by a load in a fresh manager gives back page 5 and both processed ids |
| Checkpoint.AutoSaveAtInterval | tests/test_checkpoint.py:145-168 | with a save interval of 3, two processed items write nothing and the third writes the checkpoint |
| Dedup.KeyValues | src/utils/deduplication.py:59-65 | one normalised value per key field |
| Dedup.FingerprintOnlyReadsKeyFields | src/utils/deduplication.py:48-69 | items that agree on the key fields get the same hash |
| Dedup.JoinInjective | src/utils/deduplication.py:68 | joining parts that do not contain the separator loses nothing |
| Dedup.DistinctKeysDistinctKeyStrings | src/utils/deduplication.py:59-69 | key tuples that differ and contain no "\|" give different hashed strings |
| Dedup.PipeInKeyValueCollides | src/utils/deduplication.py:59-68 | a key value containing "\|" lets two different key tuples share a hashed string |
| Dedup.PlainKeyValue | src/utils/deduplication.py:61-65 | a stripped, lower-case string is its own normalised key value |
| Dedup.KeyInfo | src/utils/deduplication.py:100-103 | the stored item info has exactly the key fields, each with its raw value |
| Dedup.LoadedSeenItems | src/utils/deduplication.py:133-161 | a dedup file is used only if it was written with the same key fields; otherwise nothing is loaded |
| Dedup.DeduplicationManager.constructor | src/utils/deduplication.py:25-46 | an enabled store with a file starts from the file's seen items; otherwise it starts empty |
| Dedup.DeduplicationManager.LoadSeenItems | src/utils/deduplication.py:133-161 | loading replaces the store with the file's items, or leaves it unchanged when the file gives none |
| Dedup.DeduplicationManager.MarkAsSeen | src/utils/deduplication.py:87-108 | an enabled store records the hash with the key info, and every item with that hash is a duplicate from then on; a disabled store ignores the item; nothing seen is forgotten |
| Dedup.DeduplicationManager.Save | src/utils/deduplication.py:110-131 | an enabled store with a file writes its key fields and items; a failure before opening leaves the file and one while writing leaves it unreadable |
| Dedup.DeduplicationManager.Clear | src/utils/deduplication.py:163-167 | after clearing, no item is a duplicate |
| Dedup.DeduplicationManager.Len | src/utils/deduplication.py:183-185 | the length is the number of hashes seen |
| Dedup.SaveLoadRoundTrip | src/utils/deduplication.py:110-161 | a saved store is read back with the same seen items by a store with the same key fields |
| Dedup.FingerprintsAppend | src/utils/deduplication.py:220-237 | the hashes of a concatenation are the union of the hashes of the parts |
| Dedup.KeepFirstCovers | src/utils/deduplication.py:220-237 | keep-first keeps every hash of the list, each exactly once |
| Dedup.ReverseReverse | src/utils/deduplication.py:224-237 | reversing twice gives back the list |
| Dedup.KeepLastByReversal | src/utils/deduplication.py:224-237 | keep-last, done as keep-first on the reversed list reversed back, keeps the last item of each hash in list order |
| Dedup.KeepLastCovers | src/utils/deduplication.py:224-237 | keep-last also keeps every hash exactly once |
| Dedup.DeduplicateList | src/utils/deduplication.py:200-245 | "first" keeps the first item of each hash and "last" keeps the last, in list order; any other mode is an error |
| Dedup.KeepFirstThroughStore | src/utils/deduplication.py:226-235 | the loop through a fresh store keeps the first item of each hash, and the store ends up holding every hash of the list |
| Dedup.Positions | src/utils/deduplication.py:264-276 | the positions listed hold the hash and ascend |
| Dedup.PositionsComplete | src/utils/deduplication.py:264-276 | every position holding the hash is listed |
| Dedup.FindDuplicates | src/utils/deduplication.py:247-276 | exactly the hashes occurring at least twice are reported, each with all its positions in ascending order |
| Dedup.GroupPositions | src/utils/deduplication.py:264-270 | every hash occurring in the list is grouped with all its positions |
| Dedup.FingerprintList | src/utils/deduplication.py:264-268 | the hash of each item, in list order |
| Schema.ParseDates | src/models/schema.py:129-135 | `None` and "" become `None`; any other value is kept |
| Schema.ParseAttachedFiles | src/models/schema.py:137-145 | a list is kept and anything else becomes the empty list |
| Schema.AttachedFileOf | src/models/schema.py:32-49 | an attached file is built exactly when the filename is a string and the optional fields are absent, null or strings |
| Schema.AttachedFileRoundTrip | src/models/schema.py:32-49 | the dict form of an attached file validates back to the same file |
| Schema.AttachedFilesOf | src/models/schema.py:137-145 | a list of files validates exactly when every element does, keeps its length, and holds each element's validated file at its position |
| Schema.Build | src/models/schema.py:51-136 | a notice is built exactly when every text field, the attached files and the additional info are acceptable; it then holds exactly the text fields whose value survives validation with those values, the validated files, the additional info ({} when absent, None when None) and the crawl time |
| Schema.FileLabels | src/models/schema.py:179-184 | one label per attached file, in order |
| Schema.ExtraEntries | src/models/schema.py:186-190 | each additional-info key becomes an `extra_` key holding the value's text |
| Schema.FlatKeysDistinct | src/models/schema.py:172-190 | the keys the flat dict adds never collide with a text field or with each other |
| Schema.SpreadExtras | src/models/schema.py:186-190 | spreading the extras keeps every existing key and adds only prefixed keys |
| Schema.ExtraKeysArePrefixed | src/models/schema.py:186-190 | every spread key carries the `extra_` prefix |
| Schema.DumpText | src/models/schema.py:177 | the dump has every text field, `None` where the notice has none |
| Schema.ToFlatDict | src/models/schema.py:172-197 | every field is present; attached files are joined into one string when there are any; a non-empty additional info is replaced by its `extra_` keys |
| Schema.NoticeList.constructor | src/models/schema.py:199-217 | a new collection is empty with a count of 0 |
| Schema.NoticeList.AddNotice | src/models/schema.py:219-222 | the notice is appended and the count is the list length |
| Schema.NoticeList.PopLast | src/crawler/processor.py:116 | the last notice is removed and the count is left as it was |
| ListParser.CleanText | src/parser/list_parser.py:119-122 | cleaned text has no surrounding whitespace, single spaces inside, and is no longer than the input |
| ListParser.CleanTextIdempotent | src/parser/list_parser.py:119-122 | cleaning twice is cleaning once |
| ListParser.CleanTextKeepsWords | src/parser/list_parser.py:119-122 | text without whitespace is unchanged |
| ListParser.CleanTextFixed | src/parser/list_parser.py:119-122 | the texts cleaning leaves alone are exactly the single-spaced ones without surrounding whitespace |
| ListParser.WithColumn | src/parser/list_parser.py:79-107 | a present column sets its field to the cleaned cell text and touches no other field; only that column needs to be readable |
| ListParser.RowFields | src/parser/list_parser.py:74-107 | each of the five fields is filled exactly from its column, and the detail flag is set exactly when the name column exists; only the five columns need to be readable |
| ListParser.ParseRow | src/parser/list_parser.py:70-117 | a row gives no notice exactly when one of the five columns read cannot be read or its cleaned number is absent or empty; otherwise it gives the row's fields |
| ListParser.ParseRowAgree | src/parser/list_parser.py:74-107 | two rows that agree on the five columns read give the same notice |
| ListParser.OtherColumnIgnored | src/parser/list_parser.py:74-107 | a column the parser does not read, even an unreadable one, never changes the notice of a row |
| ListParser.ParsedRowsNumbered | src/parser/list_parser.py:56-63 | every parsed notice has a non-empty number, and there are no more notices than rows |
| ListParser.ParsePage | src/parser/list_parser.py:33-68 | a grid that never loads gives no notices; otherwise the notices of the rows, in row order |
| ListParser.PageNumbers | src/parser/list_parser.py:246-253 | exactly the numbers of the all-digit link texts |
| ListParser.MaxOf | src/parser/list_parser.py:255-256 | the maximum is one of the numbers and no number exceeds it |
| ListParser.GetTotalPages | src/parser/list_parser.py:231-262 | no total exactly when there is no pagination or no numeric link; otherwise the largest link number |
| ListParser.NextPageAfterSelected | src/parser/list_parser.py:158-166 | a selected page n leads to page n+1 |
| ListParser.GoToNextPage | src/parser/list_parser.py:142-229 | the numbered button for the next page is clicked when it exists; otherwise the next-group button when that exists |
| DetailParser.CleanText | src/parser/detail_parser.py:538-560 | cleaned text has no whitespace or colon at either end and single spaces inside |
| DetailParser.CleanTextFixed | src/parser/detail_parser.py:538-560 | the texts cleaning leaves alone are exactly the single-spaced ones without whitespace or colon at either end |
| DetailParser.Search | src/parser/detail_parser.py:567-580 | a search finds the leftmost match position, or reports that there is none |
| DetailParser.FindDateTime | src/parser/detail_parser.py:570-573 | the leftmost date-space-time match, or none anywhere |
| DetailParser.FindDate | src/parser/detail_parser.py:575-578 | the leftmost date match, or none anywhere |
| DetailParser.FindTime | src/parser/detail_parser.py:575-578 | the leftmost time match, or none anywhere |
| DetailParser.CleanOpeningDate | src/parser/detail_parser.py:562-582 | without both a date and a time the text is unchanged; a date followed (after optional whitespace) by a time gives that date, one space and that time; otherwise the first date and the first time found, in the shape "YYYY/MM/DD HH:MM" |
| DetailParser.JoinDateTime | src/parser/detail_parser.py:570-579 | the result is the ten characters of the date, one space, and the five characters of the time |
| DetailParser.CleanOpeningDateIdempotent | src/parser/detail_parser.py:562-582 | a cleaned date-time is cleaned to itself |
| DetailParser.NoSeparatorUnchanged | src/parser/detail_parser.py:562-582 | text without '/' or '-' is returned unchanged |
| DetailParser.KoreanDateKept | src/parser/detail_parser.py:562-582 | a date written with Korean units is returned as it is |
| DetailParser.ValidateFieldValue | src/parser/detail_parser.py:377-428 | values that are too long, date-like outside date fields, phone numbers without digits, e-mails without '@', values that are too short and search-filter status texts are rejected, and nothing else is |
| DetailParser.Lookup | src/parser/detail_parser.py:430-457 | a key has a value exactly when some entry carries it |
| DetailParser.LookupUnique | src/parser/detail_parser.py:162-305 | in a dict, each entry's key looks up that entry's value |
| DetailParser.Put | src/parser/detail_parser.py:162-305 | assigning a key replaces its value in place or appends a new entry |
| DetailParser.PutKeepsUnique | src/parser/detail_parser.py:162-305 | assignment keeps the keys unique and stores the value |
| DetailParser.FindValueByLabels | src/parser/detail_parser.py:430-457 | labels are tried in order: the answer is that of the first label anything answers, its exact key's value or else its first non-blacklisted fuzzy hit; nothing is found exactly when no label has an exact or fuzzy answer |
| DetailParser.FuzzyScan | src/parser/detail_parser.py:446-455 | the value of the first non-blacklisted entry whose label contains, or is contained in, the wanted one: every earlier entry misses; none exactly when no entry hits |
| DetailParser.MappedValue | src/parser/detail_parser.py:362-375 | a field gets a value only when it is non-empty and passes validation; the opening date is cleaned first |
| DetailParser.MappedFieldsValid | src/parser/detail_parser.py:307-375 | every mapped field is a schema field with a non-empty, valid value |
| DetailParser.MappedNeedsAnswer | src/parser/detail_parser.py:307-375 | a field for which no label answers stays unmapped |
| DetailParser.MapToSchema | src/parser/detail_parser.py:307-375 | the mapping loop over all schema fields |
| DetailParser.PairRow | src/parser/detail_parser.py:227-248 | a TH directly followed by a TD stores a new label; the loop matches its specification |
| DetailParser.LaterStrategiesKeep | src/parser/detail_parser.py:209-303 | strategies 2 and 3 never change a label an earlier strategy stored |
| DetailParser.AllTableDataUnique | src/parser/detail_parser.py:162-305 | the extracted table never holds a label twice |
| DetailParser.HeaderPairs | src/parser/detail_parser.py:171-207 | strategy 1 over the page's header cells |
| DetailParser.TablePairs | src/parser/detail_parser.py:209-253 | strategy 2 over the tables outside the search filter |
| DetailParser.LabelPairs | src/parser/detail_parser.py:255-303 | strategy 3, adding only labels not yet stored |
| DetailParser.ExtractAllTableData | src/parser/detail_parser.py:162-305 | the three strategies in turn give a table with unique labels |
| DetailParser.AfterLastDot | src/parser/detail_parser.py:497-499 | the text after the last '.', which holds no '.' |
| DetailParser.FileType | src/parser/detail_parser.py:497-499 | a file has a type exactly when its name has a '.'; the type is the lower-cased extension |
| DetailParser.FileOf | src/parser/detail_parser.py:477-510 | a grid link gives a file whose name has at least two characters and whose type follows from the name |
| DetailParser.PlainFileOf | src/parser/detail_parser.py:516-534 | an area link gives a file whose name is longer than two characters, without size or type |
| DetailParser.AttachedFilesShape | src/parser/detail_parser.py:459-536 | the grid files win when there are any; every file name has at least two characters |
| DetailParser.ParseAttachedFiles | src/parser/detail_parser.py:459-536 | the collection loop over both strategies |
| DetailParser.WithMapped | src/parser/detail_parser.py:83 | every mapped field overrides the base record and the other keys are kept |
| DetailParser.Assemble | src/parser/detail_parser.py:33-96 | the notice is the base record with the mapped fields, the source URL and, when any were found, the attached files |
| DetailParser.ParsePage | src/parser/detail_parser.py:33-96 | parsing keeps every base key and always records the page URL |
| DetailParser.PageFieldsValid | src/parser/detail_parser.py:33-96 | every field the page fills is a schema field with a non-empty, valid value |
| Navigator.TargetGroupStart | src/crawler/navigator.py:265-267 | the group start is the first page of the ten-page group holding the target |
| Navigator.RestorePagination | src/crawler/navigator.py:246-329 | page 1 needs nothing; otherwise modals are closed, the next-group jumps are made and the page is clicked; a missing next-group button fails before any page click |
| Navigator.Page23TakesTwoJumps | src/crawler/navigator.py:265-293 | page 23 is in the group starting at 21, two jumps from page 1 |
| Navigator.CloseModalRounds | src/crawler/navigator.py:482-548 | at most three clean-up rounds, each while a modal is still open |
| Processor.Stats.constructor | src/crawler/engine.py:93-110 | all counters start at 0 |
| Processor.OpenDetail | src/crawler/processor.py:258-490 | the new tab, the modal and the in-page load are tried in that order; a parse is accepted only with an opening date; otherwise "tried all methods" |
| Processor.FetchOutcome | src/crawler/processor.py:137-495 | a row without a number, or one the ladder never finds, gives back the base record; a parsed detail always has an opening date |
| Processor.FetchDetailPage | src/crawler/processor.py:137-495 | the ladder escalates to a soft reset only when the row is not visible, and to a hard reset only when that fails; the pagination is restored only after a reset, on pages past the first |
| Processor.Construct | src/crawler/processor.py:76-101 | a valid record becomes the notice; otherwise, when the row's number, name and agency are strings or absent, the fallback notice holds the number (or ""), the name and agency (or "Unknown"), no files, the crawl time and `{raw_data, parse_error}` as additional info; a non-string one makes the fallback fail too |
| Processor.FallbackBuilds | src/crawler/processor.py:84-98 | the fallback dict always validates into exactly the fallback notice when the row's texts are strings or absent, and never otherwise |
| Processor.EmptyCount | src/crawler/processor.py:106-110 | the number of empty critical fields is at most the number of critical fields |
| Processor.EmptyCountPositions | src/crawler/processor.py:106-110 | the count is the number of positions holding an empty field |
| Processor.CountEmptyCritical | src/crawler/processor.py:106-110 | the counting loop gives the count of empty critical fields |
| Processor.Outcome | src/crawler/processor.py:72-135 | a fetch failure fails the notice; a collected notice is never too sparse |
| Processor.NoticeProcessor.constructor | src/crawler/processor.py:18-39 | the processor shares the engine's objects, and the duplicate run starts at 0 with a threshold of 30 |
| Processor.NoticeProcessor.ProcessNotice | src/crawler/processor.py:41-135 | a processed id is skipped; a duplicate is skipped and extends the duplicate run; otherwise the run resets, and the notice is collected and committed, or recorded as failed with one more error |
| Processor.NoticeProcessor.FailNotice | src/crawler/processor.py:129-135 | a failure appends a failed entry under the number (or "unknown") and counts one error |
| Processor.NoticeProcessor.CommitNotice | src/crawler/processor.py:101-127 | a too-sparse notice is removed again and recorded as failed; otherwise it is counted, marked as seen and marked as processed |
| Engine.KeyLessTransitive | src/crawler/engine.py:278-283 | the sort-key order is transitive |
| Engine.KeyLessTotal | src/crawler/engine.py:278-283 | any two different sort keys are ordered |
| Engine.KeyLessIrreflexive | src/crawler/engine.py:278-283 | no key sorts below itself |
| Engine.KeyNotLessTransitive | src/crawler/engine.py:278-283 | "not below" is transitive, so the descending order is consistent |
| Engine.Insert | src/crawler/engine.py:278-283 | insertion adds exactly the one notice |
| Engine.InsertSorted | src/crawler/engine.py:278-283 | insertion into a descending list keeps it descending |
| Engine.SortDescending | src/crawler/engine.py:278-283 | the result is a permutation sorted newest first by (announcement date, number) |
| Engine.CrawlerEngine.constructor | src/crawler/engine.py:43-120 | the engine owns a fresh collection, counters and processor wired to its checkpoint and store |
| Engine.CrawlerEngine.ProcessRows | src/crawler/engine.py:234-241 | every handled row went through the processor (skip, extract and error counters together grow by exactly the number handled); processing stops right after the duplicate run reaches the threshold and not before |
| Engine.CrawlerEngine.TurnPage | src/crawler/engine.py:244-251 | after a page turn the loop is on page n+1 and the checkpoint records n+2 |
| Engine.CrawlerEngine.CrawlListPages | src/crawler/engine.py:205-271 | pages crawled ascend from the checkpoint's page, stay within the page limit and each count once; every visit but the last went on to the next page number, a page error under the ceiling among them; an interrupt, no next page and a failed turn end the loop (unless the early exit came first), and the error ceiling ends it exactly when a page error passes it; a last loaded page with rows that left the duplicate run at the threshold ends it with the early exit |
| Engine.CrawlerEngine.VisitPage | src/crawler/engine.py:210-271 | one pass: a loaded page counts once; a page error adds one error and goes on to the next page number unless the count passes 10; no next page and a failed turn stop; an interrupt stops exactly when it occurs; a loaded page with rows stops with the early exit exactly when the duplicate run is at the threshold afterwards |
| Engine.CrawlerEngine.PageError | src/crawler/engine.py:260-268 | a page error counts one error and stops the crawl once there are more than 10 |
| Engine.CrawlerEngine.SaveData | src/crawler/engine.py:273-295 | an empty collection saves nothing; otherwise it is sorted newest first as a permutation and offered to every sink, a failing sink not stopping the rest |
| Engine.CrawlerEngine.Run | src/crawler/engine.py:122-190 | a fresh crawl starts unless a resume loads; a failed browser or an empty list URL ("List page URL not configured") raises; a normal end is COMPLETED, saves the collection sorted newest first to every sink and writes the dedup store; an interrupt is PAUSED with a forced checkpoint save and a dedup write and leaves the collection unsaved; an error is FAILED with one more error and leaves the dedup file alone |
| Engine.CrawlerEngine.Fail | src/crawler/engine.py:186-190 | the error is counted, the crawl completes as FAILED and the error is re-raised |
| RetryManager.SelectTargetFirst | src/crawler/retry_manager.py:195-203 | the target is the first row whose number contains the id; no match means every row was passed over |
| RetryManager.RetriedIds | src/crawler/retry_manager.py:94-98 | every failed entry with a non-empty id is tried, and no empty id is |
| RetryManager.RetriedIdsAppend | src/crawler/retry_manager.py:94-98 | the ids tried grow entry by entry |
| RetryManager.Replayer.constructor | src/crawler/retry_manager.py:16-32 | the replayer works on the processor's own checkpoint and store |
| RetryManager.Replayer.FindTarget | src/crawler/retry_manager.py:195-203 | the scan loop stops at the first matching row |
| RetryManager.Replayer.SearchAndProcess | src/crawler/retry_manager.py:125-213 | success exactly when a result row carries the id, after that row was processed; otherwise nothing changes |
| RetryManager.Replayer.RetryOne | src/crawler/retry_manager.py:101-112 | after a successful retry no failed entry with that id remains and the dedup store is written (or its write fails) as `save` does; an unsuccessful one leaves checkpoint and dedup file unchanged |
| RetryManager.Replayer.ProcessRetries | src/crawler/retry_manager.py:72-123 | one pass over a snapshot of the loaded failed entries, ids tried in order, and a save requested exactly when there were entries |
| Retry.CalculateDelay | src/utils/retry.py:51-62 | the delay is the exponential delay capped at the maximum |
| Retry.DelayNondecreasing | src/utils/retry.py:51-62 | with a factor of at least 1 the delays never shrink |
| Retry.DefaultDelays | src/utils/retry.py:27-62 | the default delays are 1, 2, 4, 8 and then 10 seconds |
| Retry.StopAt | src/utils/retry.py:115-147 | retrying stops at the first final attempt, or at the last allowed one |
| Retry.WithRetry | src/utils/retry.py:115-147 | the call is repeated until it returns, raises something not to retry, or the attempts run out; each retry is announced with its delay |
| Retry.RetryContext.constructor | src/utils/retry.py:247-257 | a new context has handed out no attempt and holds no exception |
| Retry.RetryContext.Iter | src/utils/retry.py:259-262 | iteration restarts the count |
| Retry.RetryContext.Next | src/utils/retry.py:264-273 | another attempt while attempts remain; afterwards the last exception is raised, or the iteration stops |
| Retry.RetryContext.ExitAttempt | src/utils/retry.py:288-308 | success is swallowed; a retryable failure is remembered and swallowed with a sleep only while attempts remain; anything else propagates |
| Retry.RunContext | src/utils/retry.py:231-308 | with `max_attempts` > 0 a loop over the context ends after the same attempts, with the same outcome, as the wrapper; with `max_attempts` <= 0 it stops silently after no attempt, where the wrapper raises RuntimeError |
| CsvStorage.FlattenScalars | src/storage/csv_storage.py:51-66 | a null becomes empty text and a string stays as it is |
| CsvStorage.FlattenItem | src/storage/csv_storage.py:39-68 | one cell per key of the record, no key added or lost |
| CsvStorage.Keep | src/storage/csv_storage.py:98-99 | the kept priority fields are exactly those present |
| CsvStorage.KeepInOrder | src/storage/csv_storage.py:98-99 | the kept priority fields stay in priority order |
| CsvStorage.HeaderFor | src/storage/csv_storage.py:98-103 | the header lists exactly the given fields |
| CsvStorage.HeaderForOrdered | src/storage/csv_storage.py:86-103 | the header has the priority fields first in their order, then the rest ascending, each once |
| CsvStorage.FieldnameSet | src/storage/csv_storage.py:80-84 | the field names are exactly the keys of some flattened record |
| CsvStorage.CollectFieldnames | src/storage/csv_storage.py:70-105 | the header holds every record key once, priority fields first |
| CsvStorage.Save | src/storage/csv_storage.py:107-153 | empty data writes nothing; otherwise one flattened row per record under the collected header |
| CsvStorage.CleanCell | src/storage/csv_storage.py:214-218 | an empty cell loads as `None`; anything else is kept |
| CsvStorage.Load | src/storage/csv_storage.py:197-226 | one record per stored row, keyed by the header |
| CsvStorage.SaveThenLoad | src/storage/csv_storage.py:107-226 | saving and loading gives each field of a record its flattened value, with `None` for empty cells and for fields the record lacked |
| Launcher.EffectiveResume | main.py:156-174 | a requested resume is dropped exactly when the checkpoint records a completed crawl |
| Launcher.NoResumeIgnoresCheckpoint | main.py:159-174 | without a resume request the checkpoint makes no difference |
| Launcher.ContinuesExactlyWhenUnfinished | main.py:159-174 | the crawl continues exactly when a loadable checkpoint holds a crawl that did not complete |
| Launcher.Main | main.py:234-312 | a dry run stops; otherwise a clear request deletes the checkpoint, a resume is asked for unless disabled, and the scheduled mode follows the flag or the configuration |
| Launcher.ClearedStartsFresh | main.py:294-305 | a cleared checkpoint always means a fresh start |
| Launcher.CompletedThenFresh | main.py:159-174 | a completed crawl is followed by a fresh one even when a resume is asked for |

## Left out

- Playwright and the DOM are not modelled. Every page, frame, locator, click and
  wait is replaced by an oracle datatype describing what the browser shows or
  does. XPath selection, the SPA handling, frame search (`_find_detail_context`,
  `_find_best_frame`), `navigate_to_page`, `reload_list_page`,
  `close_detail_modal` and `ensure_on_list_page` are outside the model; their
  effects appear only as oracle outcomes.
- `rate_limit`, `wait_for_page_load` and every `time.sleep` are left out, because
  sleeping has no observable effect on the model. Retry delays are returned as
  values instead of being slept.
- The clock is the parameter `now`. `duration_seconds` is left out because it is
  floating-point time arithmetic.
- File I/O is a field holding what lies on disk: absent, unreadable or a stored
  document. JSON encoding, the temporary-file rename, directories and
  permissions are not modelled.
- `backup_checkpoint` is not modelled; it only copies the file.
- SHA-256 is an uninterpreted function value `hash`, so no collision resistance
  is assumed.
- CSV quoting, the encoding and `append` are not modelled; cells are plain text
  values.
- `get_statistics` and logging are left out, because they only report.
- The schedulers (`run_scheduled`, `src/scheduler.py`) and the JSON storage are
  not part of this model.
- `with_async_retry` is not modelled; it is the same logic as `with_retry` over
  coroutines.
- The `retry_failed_items` stub (retry_manager.py:34-70) and the engine's
  `retry_failed_items` are not modelled; they only log.
- Python dictionaries are maps, so insertion order is lost where the source
  iterates a dict. `str()` of a nested value is approximated by a fixed
  rendering. The detail parser's label table keeps its insertion order as a
  sequence, because the fuzzy lookup depends on it.
- `\s` is the full Unicode whitespace set of `str.isspace`. `\d`, `isdigit()`
  and `int()` (`Text.ParseInt`, used for the selected page number) accept only
  the ASCII digits 0-9, so Unicode digits and `_` separators are not accepted;
  `int()` does allow surrounding whitespace and one sign. `lower()` is ASCII
  lower-casing.
- Schema.Build: a `crawled_at` key in the dict is ignored and the notice is
  always stamped with `now`; pydantic would parse such a value as a datetime.
  No dict the crawler builds carries that key.
- Checkpoint.CheckpointManager.CompleteCrawl: `datetime.fromisoformat` on the
  stored `start_time` (manager.py:253-257) raises for a start time that is not
  an ISO timestamp string, for example one taken from a hand-edited checkpoint,
  and then the forced save does not happen. The model always saves, because it
  does not model timestamps as dates; `duration_seconds` is left out with it.
- Engine.CrawlerEngine.CrawlListPages: the loop stops when the sequence of page
  visits runs out, so a crawl that never ends in the source is modelled only up
  to a finite number of pages. The page-limit exit is stated only as
  `maxPages > 0`, not with the page number it was reached at.
- Engine.CrawlerEngine.Run: an interrupt is modelled only between pages, not in
  the middle of one. The collection it saves (`crawled`) is stated only as the
  collection after the page loop, not in terms of the rows processed.
- Engine.SortDescending: states sortedness and permutation but not the
  stability of Python's sort.
- RetryManager.Replayer.ProcessRetries: does not tie each entry of `succeeded`
  to the search result for that entry; `RetryOne` states that connection per
  entry.
- RetryManager.NumberText: a bid number that is not a string makes the scan
  raise; the model stops the scan there instead of modelling the exception text.
- Retry.RetryContext.ExitAttempt: requires that an attempt was handed out,
  which is how the context is always used (`__exit__` follows `__next__`).
