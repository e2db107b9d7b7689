# opencode-workflow, modelled in Dafny

This project models the sequential core of the opencode-workflow plugins and tools, and proves properties of that model. The core has three parts.

**The context manager** (`plugin/context-manager/`) builds a token-budgeted context bundle for one task.
- `TokenCounter` (`token_counter.dfy`) estimates a text's size as one token per four characters, rounded up. It also cuts a text to a token ceiling at a line or word boundary.
- `SpecExtractor` (`spec_extractor.dfy`) holds the line-oriented parsers:
  - the heading sections of the specification;
  - the checklist task records and their indented details;
  - the acceptance criteria;
  - the keyword extraction and the relevance filters.
- `BundleGenerator` (`bundle_generator.dfy`) holds:
  - the bracketed progress-log parser;
  - the 70/30 recent-history selector, newest first;
  - the four-bucket budget filler;
  - the bundle's token total.

**The Ralph Wiggum loop** (`plugin/ralph-wiggum/`) retries one task with an agent until it reports completion.
- `TaskExecutor` (`task_executor.dfy`) holds:
  - the bounded iteration loop, which ends in one of four statuses: complete, CI failed, error or out of iterations;
  - the prompt and context builders;
  - the progress-log entry text.
- `CiEnforcer` (`ci_enforcer.dfy`) runs type-check, lint, test and an optional build, in that order, and ANDs the results. It also merges partial configuration updates.
- `Coordination` (`coordination.dfy`) models the epic coordinator. It cuts the tasks into fixed-size batches and runs each task through the executor, turning a thrown error into an `error` result. It stores the results in a map keyed by task, and stops the run of groups after the first group that is not all complete. `plugin/ralph-wiggum/wave-coordinator.ts` is the same code with "epic" renamed to "wave". The one module models both files, and the table cites the epic coordinator's lines.

**The Python tools** (`tool/`)
- `PyNames` (`py_names.dfy`) is the snake-case naming rule both savers share.
- `SaveYtQuery` (`save_yt_query.dfy`) covers the query subject, the next free version number and the markdown file of a saved YouTube query.
- `SaveResearch` (`save_research.dfy`) covers the topic folder name, the next free version and the research markdown file.
- `YtTranscript` (`yt_transcript.dfy`) extracts the 11-character video identifier, and covers the transcript tool's early return when there is none.

`Common` and `Text` hold the shared value types and string operations. These include `Option`, filtering, splitting and joining, trimming, and JavaScript's and Python's white-space classes.

**How the model is built**
- Regular expressions become hand-written matchers that take the same branches as the regex engine.
- Floating-point shares become exact integer arithmetic. For example, `Math.floor(max * 0.15)` becomes `15 * max / 100`, and the 80% cut-off test becomes `5 * index > 4 * maxChars`.
- Timestamps become an abstract key function, `timeOf`.
- The agent, the shell, the documents read from disk and the executor called by the coordinators are oracle parameters.
- Where the source updates state step by step, the model is a class or method with loop invariants. Each such method is proved against a specification function, and the lemmas are stated about that function.

`fitWithinBudget` is documented as fitting the content within the token budget (`plugin/context-manager/bundle-generator.ts:123`), but the source lets the total exceed it, and the model follows the source:
- The files and progress buckets compare each item only with its own reserved share, and the truncated spec section gets the marker appended after truncation. So the bundle's total can exceed `maxTokens`. `FitCanExceedBudget` and `TruncationCanExceedBudget` show inputs where this happens, and `FitTotal` states the bound that does hold.
- The log header the task executor appends (`## [ts] - TASK - Iteration n`) is not a header the bundle generator's progress parser accepts, so those entries are never read back. `LogHeaderNotParsed` states this.

## Model

| member | source | states |
|---|---|---|
| Text.LowerChar | plugin/context-manager/spec-extractor.ts:193 | a lower-cased character is not upper case and is a word character iff the original was |
| Text.Lower | plugin/context-manager/spec-extractor.ts:193 | lower-casing keeps the length and maps each character on its own |
| Text.LowerAppend | plugin/context-manager/spec-extractor.ts:121 | lower-casing distributes over concatenation |
| Text.Split | plugin/context-manager/spec-extractor.ts:13 | `split('\n')` gives at least one piece, none containing the separator |
| Text.JoinSplit | plugin/context-manager/spec-extractor.ts:13 | the pieces joined with the separator give back the text |
| Text.SplitWhere | plugin/context-manager/spec-extractor.ts:195 | splitting at each separator character gives at least one piece, none containing a separator |
| Text.PyWords | tool/save_yt_query.py:61 | `str.split()` gives non-empty words without whitespace |
| Text.TrimLeft | plugin/context-manager/spec-extractor.ts:24 | stripping from the left leaves a suffix that does not start with a stripped character |
| Text.TrimLeftPad | plugin/ralph-wiggum/task-executor.ts:372 | a run of stripped characters in front of a text that does not start with one is removed entirely |
| Text.TrimRight | plugin/context-manager/spec-extractor.ts:24 | stripping from the right leaves a prefix that does not end with a stripped character |
| Text.Span | plugin/context-manager/bundle-generator.ts:32 | the run counted is the longest opening run of characters passing the test |
| Text.SpaceThenLine | plugin/context-manager/spec-extractor.ts:19 | `\s+(.+)$` captures a non-empty end of the text without a line terminator |
| Text.BackOff | plugin/context-manager/spec-extractor.ts:19 | backtracking the whitespace run stops at a character that can start the capture |
| Text.SpaceThenRun | plugin/context-manager/spec-extractor.ts:81 | `\s*(.+)` captures a non-empty run without a line terminator |
| Text.TrailingDigits | plugin/context-manager/spec-extractor.ts:143 | the run counted is the longest run of digits at the end of the text |
| Text.NatToString | tool/save_research.py:77 | a number is printed as a non-empty string of decimal digits |
| Text.DigitsValueOfNat | tool/save_research.py:77 | the printed digits read back as the number |
| TokenCounter.EstimateTokens | plugin/context-manager/token-counter.ts:5-21 | four times the estimate covers the text's length and falls short of it plus four: the character count divided by four, rounded up |
| TokenCounter.EstimateEmpty | plugin/context-manager/token-counter.ts:11-21 | the empty text costs no tokens |
| TokenCounter.EstimateMonotone | plugin/context-manager/token-counter.ts:11-21 | a longer text never costs fewer tokens |
| TokenCounter.EstimateConcat | plugin/context-manager/token-counter.ts:11-21 | two texts estimated apart cost at least as much as the two joined |
| TokenCounter.EstimateTokensForArray | plugin/context-manager/token-counter.ts:26-28 | an empty list of texts costs nothing |
| TokenCounter.EstimateArrayAppend | plugin/context-manager/token-counter.ts:26-28 | the estimate of two lists joined is the sum of their estimates |
| TokenCounter.EstimateArrayBoundsElement | plugin/context-manager/token-counter.ts:26-28 | each text's estimate is at most the list's estimate |
| TokenCounter.ExceedRelativeBudget | plugin/context-manager/token-counter.ts:33-36 | with a budget of the current count plus a reserve, the text exceeds it iff its own estimate exceeds the reserve |
| TokenCounter.Prefix | plugin/context-manager/token-counter.ts:50 | `substring(0, end)` is a prefix of the text whose length is the end index clamped into the text |
| TokenCounter.LastIndexOf | plugin/context-manager/token-counter.ts:53-54 | the result is -1 or an index holding the character, and no later index holds it |
| TokenCounter.TruncateToTokenBudget | plugin/context-manager/token-counter.ts:41-63 | a text within budget is returned unchanged; the result is always a prefix of the text; for a non-negative budget the result fits the budget |
| TokenCounter.TruncateCutPoint | plugin/context-manager/token-counter.ts:48-62 | an over-budget text is cut at its last newline among the first `4 * maxTokens` characters when one lies beyond 80% of that limit, else at its last such space, else at the limit; the cut character is dropped |
| TokenCounter.LastBeyond | plugin/context-manager/token-counter.ts:53-58 | the last occurrence of a character before the limit lies beyond 80% of the limit iff some occurrence does |
| SpecExtractor.MatchHeading | plugin/context-manager/spec-extractor.ts:19 | a heading match has one to six leading `#`, a non-empty title that ends the line, and something between the hashes and the title |
| SpecExtractor.HeadingAfter | plugin/context-manager/spec-extractor.ts:19 | once the first hashes are read, a match keeps at least those hashes, stays within one to six, and its title ends the line |
| SpecExtractor.ScanLine | plugin/context-manager/spec-extractor.ts:19-35 | one pass of the loop body moves the scan state exactly as the per-line step: a heading closes the open section and opens a new one, other lines join the open section or are dropped |
| SpecExtractor.ParseMarkdownSections | plugin/context-manager/spec-extractor.ts:12-45 | the sections returned are those of the content split at newlines, the open section flushed at the end |
| SpecExtractor.Headings | plugin/context-manager/spec-extractor.ts:29-31 | each section is paired, position by position, with its title and level |
| SpecExtractor.ScanHeadings | plugin/context-manager/spec-extractor.ts:18-36 | at every point of the scan, the closed sections followed by the open one carry the headings of the heading lines read so far, in order |
| SpecExtractor.SectionsFollowHeadings | plugin/context-manager/spec-extractor.ts:12-45 | there is exactly one section per heading line, in document order, with that heading's title and `#` count |
| SpecExtractor.SectionLevels | plugin/context-manager/spec-extractor.ts:19-29 | every section's level lies between 1 and 6 |
| SpecExtractor.HeadingLevels | plugin/context-manager/spec-extractor.ts:19-29 | every heading line's level lies between 1 and 6 |
| SpecExtractor.ScanPreamble | plugin/context-manager/spec-extractor.ts:33-35 | lines before any heading leave the scan state empty |
| SpecExtractor.SectionsPreamble | plugin/context-manager/spec-extractor.ts:33-35 | a document with no heading line has no sections |
| SpecExtractor.ScanBlock | plugin/context-manager/spec-extractor.ts:32-35 | after a heading, the lines up to the next heading accumulate in the open section in order |
| SpecExtractor.SectionsBlock | plugin/context-manager/spec-extractor.ts:23-42 | a heading followed by non-heading lines adds exactly one section, with the heading's title and level and content the heading line plus its body joined by newlines and trimmed |
| SpecExtractor.CheckboxPrefix | plugin/context-manager/spec-extractor.ts:57 | the checklist opening `-\s*\[.\]\s*` found is no longer than the line |
| SpecExtractor.DetailRun | plugin/context-manager/spec-extractor.ts:68-74 | the detail lines read are exactly the opening run of lines indented by two spaces that are not checklist items; the line after the run is not one |
| SpecExtractor.SpaceThenWord | plugin/context-manager/spec-extractor.ts:76 | a matched `\s*(\w+)` captures at least one character |
| SpecExtractor.TrimAll | plugin/context-manager/spec-extractor.ts:83-88 | each comma-separated part is trimmed, with the number of parts unchanged |
| SpecExtractor.DetailsOfRun | plugin/context-manager/spec-extractor.ts:68-90 | the details of a task are the fold of the detail-line steps over exactly the run of detail lines after its line |
| SpecExtractor.ReadDetailLine | plugin/context-manager/spec-extractor.ts:76-89 | one detail line updates complexity, dependencies and files exactly as one step of the detail-line fold does |
| SpecExtractor.ReadTaskDetails | plugin/context-manager/spec-extractor.ts:63-90 | the inner loop leaves complexity, dependencies and files as the detail-line fold over the lines after the task defines them |
| SpecExtractor.ParseTaskInfo | plugin/context-manager/spec-extractor.ts:50-103 | the record returned is that of the first checklist line carrying the identifier, or none |
| SpecExtractor.TaskInfoNone | plugin/context-manager/spec-extractor.ts:53-102 | no record is returned iff no line is a checklist line with that identifier |
| SpecExtractor.TaskInfoFirstMatch | plugin/context-manager/spec-extractor.ts:59-98 | the record comes from the first matching line: its description and the details of the lines after it |
| SpecExtractor.TaskInfoSkip | plugin/context-manager/spec-extractor.ts:53-59 | lines before the first match have no effect on the record |
| SpecExtractor.DetailsDefault | plugin/context-manager/spec-extractor.ts:63-65 | with no detail lines the record keeps complexity `medium`, no dependencies and no files |
| SpecExtractor.DetailsStopAtFirstOtherLine | plugin/context-manager/spec-extractor.ts:71-74 | lines after the first non-detail line are ignored |
| SpecExtractor.DetailsUnmentioned | plugin/context-manager/spec-extractor.ts:76-89 | detail lines that do not mention a field leave that field unchanged |
| SpecExtractor.DetailsLastWins | plugin/context-manager/spec-extractor.ts:76-89 | a line mentioning a field overwrites it: complexity lower-cased, dependencies and files split at commas and trimmed |
| SpecExtractor.RelevanceIsTrailingNumber | plugin/context-manager/spec-extractor.ts:141-152 | the heuristic holds iff the identifier ends in a digit, whatever the description |
| SpecExtractor.ParseAcceptanceCriteria | plugin/context-manager/spec-extractor.ts:108-135 | the criteria returned are the criterion lines, in order, tagged with the task identifier, that pass the relevance test |
| SpecExtractor.CriteriaStep | plugin/context-manager/spec-extractor.ts:112-131 | one more line adds its criterion exactly when it is a criterion line and relevant, and nothing otherwise |
| SpecExtractor.CriteriaKept | plugin/context-manager/spec-extractor.ts:121-152 | a criterion is kept iff its lower-cased description contains the lower-cased identifier or the identifier ends in a digit; in the latter case every criterion line is kept |
| SpecExtractor.KeywordText | plugin/context-manager/spec-extractor.ts:193-194 | the lower-cased, punctuation-blanked description has the description's length |
| SpecExtractor.ExtractKeywords | plugin/context-manager/spec-extractor.ts:191-201 | a word is a keyword iff it is a piece of the lower-cased, punctuation-blanked description split at white space, is longer than three characters and is not a stop word |
| SpecExtractor.KeywordsOccur | plugin/context-manager/spec-extractor.ts:191-201 | every keyword is a lower-case run of word characters that occurs in the lower-cased description |
| SpecExtractor.PieceOccurs | plugin/context-manager/spec-extractor.ts:193-196 | every piece of the split keyword text is lower-case word characters occurring in the lower-cased description |
| SpecExtractor.FindRelevantSpecSections | plugin/context-manager/spec-extractor.ts:157-186 | the sections returned are those that pass the keyword, level and file test, in input order |
| SpecExtractor.SelectSections | plugin/context-manager/spec-extractor.ts:166-183 | the loop keeps exactly the sections that pass the test, in order |
| SpecExtractor.RelevantSectionsSpec | plugin/context-manager/spec-extractor.ts:157-186 | the result is an order-preserving subsequence of the sections, and a section is in it iff it mentions a keyword, has level at most 2 or mentions a task file |
| SpecExtractor.CriteriaTexts | plugin/context-manager/spec-extractor.ts:248 | each criterion becomes `id: description`, in order |
| SpecExtractor.Contents | plugin/context-manager/spec-extractor.ts:236 | each section becomes its content, in order |
| SpecExtractor.ExtractForTask | plugin/context-manager/spec-extractor.ts:206-260 | the task record is parsed from the tasks document when present; spec sections are selected only when the spec document and a record are both present; criteria come from the acceptance document when present; each missing document gives an empty result |
| BundleGenerator.Bracketed | plugin/context-manager/bundle-generator.ts:32 | a matched `\[([^\]]+)\]` captures a non-empty text without `]`, and the input is exactly that text in brackets followed by the rest |
| BundleGenerator.BracketedOf | plugin/context-manager/bundle-generator.ts:32 | a non-empty text without `]`, put in brackets, is read back whole together with what follows it |
| BundleGenerator.AfterTaskId | plugin/context-manager/bundle-generator.ts:32 | the rest of a header match keeps the timestamp and task identifier already read |
| BundleGenerator.AfterTimestamp | plugin/context-manager/bundle-generator.ts:32 | after the timestamp, a match keeps it and captures a non-empty task identifier without `]` |
| BundleGenerator.MatchProgressHeader | plugin/context-manager/bundle-generator.ts:32-45 | a header match captures a non-empty timestamp and a non-empty task identifier, neither containing `]` |
| BundleGenerator.FieldValue | plugin/context-manager/bundle-generator.ts:48-75 | a matched `^Key:\s*(.+)$` captures a non-empty value without a line terminator |
| BundleGenerator.ApplyField | plugin/context-manager/bundle-generator.ts:46-77 | a detail line never changes an entry's timestamp, task identifier or iteration |
| BundleGenerator.ScanLine | plugin/context-manager/bundle-generator.ts:32-77 | one pass of the loop body moves the scan exactly as the per-line step: a header closes the open entry and opens a new one, other lines update the open entry's fields |
| BundleGenerator.ParseProgressEntries | plugin/context-manager/bundle-generator.ts:24-86 | the entries returned are those of the content split at newlines, the open entry flushed at the end |
| BundleGenerator.EntryHeaders | plugin/context-manager/bundle-generator.ts:41-45 | each entry is paired, position by position, with its header fields |
| BundleGenerator.ScanProgressHeaders | plugin/context-manager/bundle-generator.ts:30-78 | at every point of the scan, the open entry has a non-empty timestamp and the closed entries followed by the open one carry the headers read so far, in order |
| BundleGenerator.EntriesFollowHeaders | plugin/context-manager/bundle-generator.ts:24-86 | there is exactly one entry per header line, in document order, with that header's fields |
| BundleGenerator.ScanProgressPreamble | plugin/context-manager/bundle-generator.ts:46 | lines before any header leave the scan empty |
| BundleGenerator.ProgressPreambleIgnored | plugin/context-manager/bundle-generator.ts:46 | a log without a header line has no entries |
| BundleGenerator.ApplyFields | plugin/context-manager/bundle-generator.ts:46-77 | applying an entry's body lines never changes its timestamp, task or iteration |
| BundleGenerator.FieldLastWins | plugin/context-manager/bundle-generator.ts:48-76 | an Agent, Action, Tests, Commit or Status field holds the value of the last body line that sets it: a later line overwrites an earlier one |
| BundleGenerator.FieldUnmentioned | plugin/context-manager/bundle-generator.ts:48-76 | a text field that no body line sets keeps the value it had |
| BundleGenerator.FilesLastWins | plugin/context-manager/bundle-generator.ts:58-61 | the file list is the last `Files:` line's value split at commas, each part trimmed |
| BundleGenerator.FilesUnmentioned | plugin/context-manager/bundle-generator.ts:58-61 | without a `Files:` line the file list keeps the value it had |
| BundleGenerator.ScanHeaderOpens | plugin/context-manager/bundle-generator.ts:34-45 | a header line closes the open entry (kept if it has a timestamp) and opens one holding only the header's fields |
| BundleGenerator.ScanBody | plugin/context-manager/bundle-generator.ts:46-77 | lines that are not headers, read while an entry is open, fill in that entry and leave the closed entries alone |
| BundleGenerator.ScanEntryBlock | plugin/context-manager/bundle-generator.ts:30-78 | a header followed by non-header lines leaves the earlier entries closed and the header's entry open with the body lines' fields applied |
| BundleGenerator.LastEntryOfBlock | plugin/context-manager/bundle-generator.ts:24-86 | the entries of a log ending in a header and its body are those before the header plus the header's entry with the body lines' fields applied |
| BundleGenerator.InsertDesc | plugin/context-manager/bundle-generator.ts:93-95 | inserting into the sorted list adds exactly one element |
| BundleGenerator.SortDesc | plugin/context-manager/bundle-generator.ts:93-95 | sorting keeps the number of entries |
| BundleGenerator.InsertDescSorted | plugin/context-manager/bundle-generator.ts:93-95 | inserting into a list sorted most recent first keeps it sorted |
| BundleGenerator.InsertDescKeys | plugin/context-manager/bundle-generator.ts:93-95 | every element after insertion is the inserted one or was already there |
| BundleGenerator.InsertDescMultiset | plugin/context-manager/bundle-generator.ts:93-95 | insertion adds exactly the inserted element to the multiset |
| BundleGenerator.SortDescSpec | plugin/context-manager/bundle-generator.ts:93-95 | the sort puts the most recent first and is a permutation of the entries |
| BundleGenerator.InsertDescStable | plugin/context-manager/bundle-generator.ts:93-95 | among the entries of one timestamp, the inserted one goes after those already there |
| BundleGenerator.SortDescStable | plugin/context-manager/bundle-generator.ts:93-95 | the sort is stable: entries with equal timestamps keep their log order |
| BundleGenerator.FilterSortedDesc | plugin/context-manager/bundle-generator.ts:98-101 | filtering a list sorted most recent first keeps it sorted |
| BundleGenerator.InsertDescFilterMultiset | plugin/context-manager/bundle-generator.ts:93-101 | inserting into the sorted list adds the new entry to a filter of it exactly when the entry passes the filter |
| BundleGenerator.SortDescFilterMultiset | plugin/context-manager/bundle-generator.ts:93-101 | sorting does not change which entries pass a filter, nor how often |
| BundleGenerator.SortDescFilterSize | plugin/context-manager/bundle-generator.ts:93-101 | sorting does not change how many entries pass a filter |
| BundleGenerator.Take | plugin/context-manager/bundle-generator.ts:105-107 | `slice(0, n)` keeps the first `n` elements, or all when there are fewer |
| BundleGenerator.FormatEntries | plugin/context-manager/bundle-generator.ts:110-119 | each selected entry becomes its formatted block, in order |
| BundleGenerator.HeaderLineParses | plugin/context-manager/bundle-generator.ts:112 | the header line written for an entry is read back by the header pattern as that entry's timestamp, task and iteration, whatever follows on the line, when timestamp and task are non-empty and hold no `]` |
| BundleGenerator.IterationNumberOf | plugin/context-manager/bundle-generator.ts:44 | an iteration number written in decimal inside brackets is read back as the same number |
| BundleGenerator.FormatEntryHeader | plugin/context-manager/bundle-generator.ts:112-118 | every formatted entry block starts with a line the progress parser reads back as the entry's header |
| BundleGenerator.EmptyFieldIsMissing | plugin/context-manager/bundle-generator.ts:113-118 | a text field that is present but empty is shown with its default text, exactly as a missing one |
| BundleGenerator.GetRecentProgress | plugin/context-manager/bundle-generator.ts:91-120 | at most `progressHistory` blocks are returned |
| BundleGenerator.SharesAddUp | plugin/context-manager/bundle-generator.ts:105-106 | the task share `ceil(0.7 h)` and the context share `floor(0.3 h)` add up to `h` |
| BundleGenerator.GroupFacts | plugin/context-manager/bundle-generator.ts:93-101 | each group of the sorted log is sorted most recent first and holds exactly the log's entries passing its test, each as often as in the log |
| BundleGenerator.SelectedEntriesCount | plugin/context-manager/bundle-generator.ts:104-107 | the selection holds the lesser of the task's entries and its share, plus the lesser of the other entries and their share |
| BundleGenerator.SelectedEntriesSpec | plugin/context-manager/bundle-generator.ts:91-107 | the selection is the task's own entries, most recent first, followed by entries of other tasks, most recent first; each half is drawn from its group of the log, and no entry of the group left out is more recent than any picked one |
| BundleGenerator.SelectedGroups | plugin/context-manager/bundle-generator.ts:91-107 | the first `OwnCount` picked entries are the task's own and the rest other tasks', each half most recent first and drawn from the log |
| BundleGenerator.PickedMostRecent | plugin/context-manager/bundle-generator.ts:91-107 | each half of the selection is drawn from its group of the log, and no entry of the group left out is more recent than a picked one |
| BundleGenerator.TakeMostRecent | plugin/context-manager/bundle-generator.ts:105-106 | a prefix of a group sorted most recent first is drawn from the group, and nothing left out of it is more recent than anything in it |
| BundleGenerator.LaterNotNewer | plugin/context-manager/bundle-generator.ts:93-95 | in the log sorted most recent first, nothing from a position on is more recent than anything before it |
| BundleGenerator.SelectedIs | plugin/context-manager/bundle-generator.ts:104-107 | the final `slice(0, progressHistory)` never cuts, because the two shares add up to the history |
| BundleGenerator.PickFacts | plugin/context-manager/bundle-generator.ts:104-107 | taking a prefix of each sorted group and joining them keeps each half in its group and sorted |
| BundleGenerator.CapFillSpec | plugin/context-manager/bundle-generator.ts:153-158 | the criteria kept are a subsequence of the criteria, the running count is their estimate, and it stays within the criteria share |
| BundleGenerator.ShareFillSpec | plugin/context-manager/bundle-generator.ts:161-174 | because the ceiling moves with the running count, the files and progress kept are exactly those whose own estimate fits the reserve |
| BundleGenerator.SpecFillSpec | plugin/context-manager/bundle-generator.ts:177-191 | the whole spec sections kept are a subsequence of the sections and the count stays within the budget; when the fill stops, its last kept text is a section cut to the tokens left plus the truncation marker |
| BundleGenerator.SpecFillStopped | plugin/context-manager/bundle-generator.ts:188 | once a truncated section is added, no later section is looked at |
| BundleGenerator.SpecStepKeeps | plugin/context-manager/bundle-generator.ts:178-190 | each section offered keeps the fill's invariant |
| BundleGenerator.SpecSkipsWhenLittleLeft | plugin/context-manager/bundle-generator.ts:178-190 | a section that does not fit while 100 tokens or fewer are left is skipped without changing the fill, and a later section that still fits is kept after it |
| BundleGenerator.TruncatedSectionLast | plugin/context-manager/bundle-generator.ts:184-188 | a section truncated with more than 100 tokens left ends the fill without counting its tokens |
| BundleGenerator.SpecFillTotal | plugin/context-manager/bundle-generator.ts:176-191 | the spec sections bring the count to at most the budget plus the marker's tokens |
| BundleGenerator.TruncatedLastBound | plugin/context-manager/bundle-generator.ts:186-187 | the truncated section costs at most the tokens left plus the marker's |
| BundleGenerator.FitTotal | plugin/context-manager/bundle-generator.ts:125-194 | the bundle costs at most the budget plus the marker, unless the first three buckets already exceed it |
| BundleGenerator.FitBuckets | plugin/context-manager/bundle-generator.ts:145-174 | the criteria kept are a subsequence within 15% of the budget; the files and progress kept are those whose own estimate fits 5% and 30% of the budget |
| BundleGenerator.BundleTokensSum | plugin/context-manager/bundle-generator.ts:219-224 | the bundle total is the sum of the four buckets' estimates |
| BundleGenerator.BundleTokensBound | plugin/context-manager/bundle-generator.ts:216-224 | the reported total is bounded as in `FitTotal` |
| BundleGenerator.FitCanExceedBudget | plugin/context-manager/bundle-generator.ts:168-174 | with a budget of 100, four 30-token progress blocks are all kept and the bundle holds 120 tokens |
| BundleGenerator.FourEntriesKept | plugin/context-manager/bundle-generator.ts:153-191 | with a budget of 100 and only progress blocks, all four 30-token blocks are kept and nothing else |
| BundleGenerator.TruncationCanExceedBudget | plugin/context-manager/bundle-generator.ts:184-187 | with a budget of 200, a 1000-character section is cut to 800 characters and the marker brings the bundle to 210 tokens |
| BundleGenerator.Generator.constructor | plugin/context-manager/bundle-generator.ts:15-19 | the budget and history default to 8000 and 10 and are stored as given |
| BundleGenerator.Generator.FitWithinBudget | plugin/context-manager/bundle-generator.ts:125-194 | the four loops produce the tiered fill: criteria against 15%, files against 5% and progress against 30% above the running count, and spec sections against the whole budget |
| BundleGenerator.Generator.FillSpec | plugin/context-manager/bundle-generator.ts:177-191 | the spec loop keeps what the spec fill keeps, stopping after the first truncated section |
| BundleGenerator.Generator.Generate | plugin/context-manager/bundle-generator.ts:199-234 | the bundle holds the extraction's sections and criteria, the task's files, the recent progress when there is a log, fitted to the budget, with their total estimate |
| TaskExecutor.AfterDash | plugin/ralph-wiggum/task-executor.ts:373-374 | what follows `^\s*-\s*` is a suffix of the line |
| TaskExecutor.BacktickItem | plugin/ralph-wiggum/task-executor.ts:373 | a matched backtick item is non-empty and opens the rest of the line enclosed in backticks |
| TaskExecutor.PlainItem | plugin/ralph-wiggum/task-executor.ts:374 | a matched plain item is a non-empty prefix of the rest of the line |
| TaskExecutor.ListedFile | plugin/ralph-wiggum/task-executor.ts:372-380 | a file taken from a list line is non-empty and either stood in backticks on the line or contains `/` |
| TaskExecutor.ScanFilesStopped | plugin/ralph-wiggum/task-executor.ts:360-362 | once the next task heading is met, no later line changes the files |
| TaskExecutor.ExtractFilesToModify | plugin/ralph-wiggum/task-executor.ts:346-390 | the loop returns the files of the line-by-line scan: enter the task at a line naming it, leave at the next `TASK-` heading, collect list items while in a files section |
| TaskExecutor.FilesAreListed | plugin/ralph-wiggum/task-executor.ts:346-390 | every file returned was read off a list line of the document |
| TaskExecutor.FileStepFiles | plugin/ralph-wiggum/task-executor.ts:352-386 | each line adds at most one file, the one its list item names, at the end |
| TaskExecutor.AfterDashOf | plugin/ralph-wiggum/task-executor.ts:372-373 | `^\s*-\s*` consumes any indentation, the dash and any gap after it, leaving what follows |
| TaskExecutor.BacktickListed | plugin/ralph-wiggum/task-executor.ts:372-376 | a list line whose item is a non-empty text in backticks always yields that text, whatever follows it |
| TaskExecutor.PlainListed | plugin/ralph-wiggum/task-executor.ts:373-379 | a plain list item, read up to the first space or `(`, is taken iff it holds `/` |
| TaskExecutor.FileStepFacts | plugin/ralph-wiggum/task-executor.ts:352-386 | one line enters the task only if it names it, opens the files section only inside the task at a files header, and adds a file only inside an open files section, the one it lists |
| TaskExecutor.FilesAfterHeader | plugin/ralph-wiggum/task-executor.ts:346-390 | every file returned was listed on a line after a files header, which came after a line naming the task |
| TaskExecutor.CollectsListedFile | plugin/ralph-wiggum/task-executor.ts:370-384 | inside the task and an open files section, a line that names no task and is no files header adds exactly the file it lists (or nothing), and a heading or bold label closes the section |
| TaskExecutor.EntersTaskAndSection | plugin/ralph-wiggum/task-executor.ts:354-368 | a line naming the task enters it, and inside the task a files header opens the files section, neither adding a file |
| TaskExecutor.NoMentionNoFiles | plugin/ralph-wiggum/task-executor.ts:354-371 | a document with no line naming the task yields no files and never enters the task |
| TaskExecutor.StopsAtNextTask | plugin/ralph-wiggum/task-executor.ts:360-362 | inside the task, a `TASK-` heading that does not name the task ends the scan: later lines add nothing |
| TaskExecutor.ChunksFrom | plugin/ralph-wiggum/task-executor.ts:396 | splitting always yields at least one piece |
| TaskExecutor.ChunksJoin | plugin/ralph-wiggum/task-executor.ts:396 | the pieces from a position on, joined with `## [`, give the text from that position |
| TaskExecutor.SplitEntriesJoin | plugin/ralph-wiggum/task-executor.ts:396 | splitting at `## [` at line starts loses nothing: the pieces joined with `## [` give back the log |
| TaskExecutor.ChunksCut | plugin/ralph-wiggum/task-executor.ts:396 | the split from a position cuts at every line-start `## [` it meets and nowhere else: each marker between pieces stands at one, and no position inside a piece is one |
| TaskExecutor.SplitEntriesCuts | plugin/ralph-wiggum/task-executor.ts:396 | `split(/^## \[/m)` cuts the log exactly at its line-start `## [` markers: every marker between two pieces is one, and none lies inside a piece |
| TaskExecutor.SliceFrom | plugin/ralph-wiggum/task-executor.ts:397 | `slice(start)` is a suffix; `slice(-0)` is the whole list; a negative start keeps that many elements from the end, or all |
| TaskExecutor.ExtractRecentProgress | plugin/ralph-wiggum/task-executor.ts:395-398 | with count 0 every non-blank entry is kept, with a positive count the last `count` of them, each with `## [` put back in front, in log order |
| TaskExecutor.RecentProgressEntries | plugin/ralph-wiggum/task-executor.ts:396-397 | every entry returned starts with `## [` followed by text that is not blank |
| TaskExecutor.GenerateContext | plugin/ralph-wiggum/task-executor.ts:142-189 | the context holds the whole spec and acceptance documents when present, the task's files from the tasks document, the recent progress window, and nothing for an absent document |
| TaskExecutor.PromptCarriesContext | plugin/ralph-wiggum/task-executor.ts:256-294 | the prompt opens with the task heading and contains the task identifier, each part of the context joined as the template joins it, and the `<complete/>` signal |
| TaskExecutor.OutputSummary | plugin/ralph-wiggum/task-executor.ts:319 | output of at most 500 characters is kept whole; longer output becomes its first 500 characters plus `...` |
| TaskExecutor.LogEntryLines | plugin/ralph-wiggum/task-executor.ts:316-322 | a log entry opens with a newline, the header and the status line, and ends with the output summary and the `---` rule |
| TaskExecutor.LogHeaderNotParsed | plugin/ralph-wiggum/task-executor.ts:316-317 | the header the executor appends is not one the bundle generator's progress parser accepts, because the task identifier is written without brackets |
| TaskExecutor.ExecuteFromStep | plugin/ralph-wiggum/task-executor.ts:62-128 | an iteration that returns ends the loop with its result and records; one that goes on leaves the result to the later iterations and adds its records to the log first |
| TaskExecutor.OutcomeCases | plugin/ralph-wiggum/task-executor.ts:63-127 | an iteration returns `complete` iff the output has the signal and the gate passes or is not required, `ci_failed` iff the signal is there and a required gate fails, `error` iff the error message contains `CRITICAL`; it never returns `max_iterations` |
| TaskExecutor.ExecuteFirstReturn | plugin/ralph-wiggum/task-executor.ts:62-136 | the loop returns the result of the first iteration that returns; `max_iterations` comes only when every iteration went on |
| TaskExecutor.ExecuteStatus | plugin/ralph-wiggum/task-executor.ts:54-137 | `complete` and `ci_failed` carry the agent's output of an iteration within the ceiling that had the signal, with the gate passed or failed; `error` carries a `CRITICAL` message; `max_iterations` reports the ceiling and the human-intervention text |
| TaskExecutor.ExecuteLog | plugin/ralph-wiggum/task-executor.ts:78-116 | the log holds one record per iteration run, in order, plus one more `ci_failed_final` record when the gate rejects a completion; each iteration's first record carries the status its outcome gives (`error`, `completed`, `ci_failed` or `in_progress`) and the answer or error text |
| TaskExecutor.OutcomeRecords | plugin/ralph-wiggum/task-executor.ts:78-116 | one iteration logs one record, or two on a rejected completion, all for that iteration; an iteration that goes on logs `error` after a non-critical throw, `ci_failed` when the required gate is red and `in_progress` otherwise; a returning one logs `error` or `completed`, then `ci_failed_final` on a rejected completion |
| TaskExecutor.ExecuteLogEnd | plugin/ralph-wiggum/task-executor.ts:78-116 | the log ends with `completed` after a completion, with `completed` then `ci_failed_final` after a rejected one, and with `error` after a critical error |
| TaskExecutor.Executor.constructor | plugin/ralph-wiggum/task-executor.ts:44-49 | the executor keeps the configuration it is given |
| TaskExecutor.Executor.RunIteration | plugin/ralph-wiggum/task-executor.ts:63-127 | the loop body yields the iteration's outcome for the agent's answer to the prompt built from that iteration's documents |
| TaskExecutor.Executor.ExecuteTask | plugin/ralph-wiggum/task-executor.ts:54-137 | the loop over iterations 1 to the ceiling returns the result and appends the log records that the iteration-by-iteration definition gives |
| TaskExecutor.AttemptsAt | plugin/ralph-wiggum/task-executor.ts:65-74 | the agent is asked, on each iteration, the prompt built from that iteration's context |
| CiEnforcer.Names | plugin/ralph-wiggum/ci-enforcer.ts:34-57 | the result's check names, in insertion order |
| CiEnforcer.Outcomes | plugin/ralph-wiggum/ci-enforcer.ts:37-57 | one outcome per check, in order, each the outcome of running that check's command |
| CiEnforcer.EnforceResults | plugin/ralph-wiggum/ci-enforcer.ts:33-63 | the results name type-check, lint and test, then build only when a build command is configured; each check passes iff its command exits with 0; the whole passes iff every check run passes |
| CiEnforcer.OutcomesFirstThree | plugin/ralph-wiggum/ci-enforcer.ts:37-50 | the first three checks are type-check, lint and test, each passing iff its command exits with 0 |
| CiEnforcer.AllPassedSnoc | plugin/ralph-wiggum/ci-enforcer.ts:35-56 | one more check leaves the verdict passed iff it was passed and the new check passed |
| CiEnforcer.MergedNothing | plugin/ralph-wiggum/ci-enforcer.ts:98-100 | an update with no fields leaves the configuration as it was |
| CiEnforcer.MergedIdempotent | plugin/ralph-wiggum/ci-enforcer.ts:98-100 | applying the same update twice is the same as applying it once |
| CiEnforcer.MergedThen | plugin/ralph-wiggum/ci-enforcer.ts:98-100 | two updates in a row are one update whose fields come from the second where it has them, else from the first |
| CiEnforcer.MergedFields | plugin/ralph-wiggum/ci-enforcer.ts:98-100 | each field of the new configuration is the update's where the update has it, and the old one otherwise |
| CiEnforcer.CIEnforcer.constructor | plugin/ralph-wiggum/ci-enforcer.ts:24-28 | the enforcer keeps the configuration it is given |
| CiEnforcer.CIEnforcer.RunCheck | plugin/ralph-wiggum/ci-enforcer.ts:68-93 | a check passes iff the command run in the working directory exits with 0; a thrown error is a failure |
| CiEnforcer.CIEnforcer.Enforce | plugin/ralph-wiggum/ci-enforcer.ts:33-63 | the results are the outcomes of the configured checks in order, and the verdict is passed iff every one of them passed |
| CiEnforcer.CIEnforcer.UpdateConfig | plugin/ralph-wiggum/ci-enforcer.ts:98-100 | the configuration becomes the old one merged with the update |
| CiEnforcer.CIEnforcer.GetConfig | plugin/ralph-wiggum/ci-enforcer.ts:105-107 | a copy of the current configuration is returned |
| Coordination.BatchesFromFlatten | plugin/ralph-wiggum/epic-coordinator.ts:126-128 | the batches cut from a position on, put back together, are the tasks from that position |
| Coordination.BatchesFlatten | plugin/ralph-wiggum/epic-coordinator.ts:123-131 | the batches, put back together, are the task list: nothing lost, duplicated or reordered |
| Coordination.BatchesFromCount | plugin/ralph-wiggum/epic-coordinator.ts:126-128 | cutting from a position gives as many batches as the remaining tasks divided by the size, rounded up |
| Coordination.BatchesFromSizes | plugin/ralph-wiggum/epic-coordinator.ts:126-128 | each batch holds one to `size` tasks, and every batch but the last holds exactly `size` |
| Coordination.BatchesShape | plugin/ralph-wiggum/epic-coordinator.ts:123-131 | there are `ceil(n / size)` batches, each of one to `size` tasks, all full except possibly the last |
| Coordination.ResultsOfKeys | plugin/ralph-wiggum/epic-coordinator.ts:58-64 | the results map is keyed by exactly the tasks of the group |
| Coordination.ResultsOfLast | plugin/ralph-wiggum/epic-coordinator.ts:58-64 | each task's entry holds the result of its last call: a duplicated task keeps the later result |
| Coordination.LastOccurrence | plugin/ralph-wiggum/epic-coordinator.ts:58-64 | every task of the list has a last call |
| Coordination.AllCompleteIff | plugin/ralph-wiggum/epic-coordinator.ts:67-70 | a group is all-complete iff the last call of every task returned `complete`; a group with no tasks is all-complete |
| Coordination.RaisedFails | plugin/ralph-wiggum/epic-coordinator.ts:137-157 | an error thrown at a task's last call makes the group fail |
| Coordination.Group.constructor | plugin/ralph-wiggum/epic-coordinator.ts:12-16 | a group starts pending with its number and tasks |
| Coordination.UpToFailureSpec | plugin/ralph-wiggum/epic-coordinator.ts:85-118 | the results returned are a prefix of the planned results, non-empty when there is a group, all complete but the last, and cut short only after a group that did not complete |
| Coordination.UpToFailureAt | plugin/ralph-wiggum/epic-coordinator.ts:92-115 | from each group on, its result is returned, followed by the later ones only if it completed |
| Coordination.FlattenHead | plugin/ralph-wiggum/epic-coordinator.ts:50-65 | the next batch is the next slice of the task list |
| Coordination.PlannedAt | plugin/ralph-wiggum/epic-coordinator.ts:92-94 | the result planned for each group is the result of running that group with its runner |
| Coordination.Coordinator.constructor | plugin/ralph-wiggum/epic-coordinator.ts:26-30 | the coordinator keeps `maxParallel`, 3 by default |
| Coordination.Coordinator.BatchTasks | plugin/ralph-wiggum/epic-coordinator.ts:123-131 | the loop returns the batches `tasks.slice(i, i + size)` for `i = 0, size, 2 size, ...` |
| Coordination.Coordinator.ExecuteTaskWithErrorHandling | plugin/ralph-wiggum/epic-coordinator.ts:137-157 | the executor is called with a ceiling of 10; its result is returned, and a thrown error becomes an `error` result with no iterations, empty output and the message |
| Coordination.Coordinator.RunBatch | plugin/ralph-wiggum/epic-coordinator.ts:52-56 | one settled result per task of the batch, in batch order |
| Coordination.Coordinator.RunTasks | plugin/ralph-wiggum/epic-coordinator.ts:48-65 | running the batches one after the other leaves the map each task's results stored in list order gives |
| Coordination.Coordinator.StoreBatch | plugin/ralph-wiggum/epic-coordinator.ts:59-64 | storing a batch's results extends the map by those tasks, in batch order |
| Coordination.Coordinator.ExecuteGroup | plugin/ralph-wiggum/epic-coordinator.ts:36-80 | the group's result is its number, its results map and whether every result is `complete`; the group is left `complete` or `failed` accordingly |
| Coordination.Coordinator.ExecuteAll | plugin/ralph-wiggum/epic-coordinator.ts:85-118 | the groups run in order up to and including the first that does not complete; groups after it are not touched |
| PyNames.DropSpecials | tool/save_yt_query.py:17 | only word characters, whitespace and hyphens remain, and lower-case input stays free of upper-case letters |
| PyNames.StripUnderscores | tool/save_yt_query.py:19 | the result neither starts nor ends with an underscore |
| PyNames.SnakeCaseShape | tool/save_yt_query.py:16-19 | the snake-case name is made of lower-case letters, digits and underscores, with no underscore at either end (an underscore of the text survives beside the one a run of spaces becomes, so `a_ _b` gives `a___b`) |
| PyNames.DropSpecialsAlnum | tool/save_yt_query.py:17 | dropping special characters keeps every letter and digit, in order |
| PyNames.CollapseAlnum | tool/save_yt_query.py:18 | collapsing runs of spaces and hyphens keeps every letter and digit, in order |
| PyNames.TrimLeftAlnum | tool/save_yt_query.py:19 | stripping leading underscores keeps every letter and digit |
| PyNames.TrimRightAlnum | tool/save_yt_query.py:19 | stripping trailing underscores keeps every letter and digit |
| PyNames.SnakeCaseKeepsAlnum | tool/save_yt_query.py:16-19 | the letters and digits of the name are exactly those of the lower-cased text, in order |
| PyNames.CollapseRun | tool/save_yt_query.py:18 | a run of spaces and hyphens becomes a single underscore |
| PyNames.DropSpecialsNone | tool/save_yt_query.py:17 | a text with no special characters is left as it is |
| PyNames.CollapseNoSeparator | tool/save_yt_query.py:18 | a text with no spaces or hyphens is left as it is |
| PyNames.SnakeNameFixed | tool/save_yt_query.py:16-19 | a name already in snake case is left as it is |
| PyNames.SnakeCaseIdempotent | tool/save_yt_query.py:16-19 | applying the rule twice gives the same name as applying it once |
| PyNames.MaxOr0 | tool/save_yt_query.py:81 | `max(versions, default=0)` is at least every version, and is 0 or one of them |
| SaveYtQuery.SanitizeFilename | tool/save_yt_query.py:14-23 | the name is at most `max_length` long, in snake case, a prefix of the untruncated snake-case name, and equal to it when that fits; when cut, only underscores are dropped between its end and `max_length`, so it is non-empty whenever the snake-case name is and `max_length` is positive |
| SaveYtQuery.CutSnakeName | tool/save_yt_query.py:21-22 | cutting a snake-case name at `max_length` and stripping trailing underscores leaves a snake-case prefix that lost only underscores before the cut, and keeps the first character |
| Text.TrimRightDropped | tool/save_yt_query.py:22 | every character `rstrip` removes is one of the stripped characters |
| SaveYtQuery.SubjectWords | tool/save_yt_query.py:61-65 | the subject words are the first `min(6, n)` of the `n` words of the lower-cased query that are not question words, in their order |
| SaveYtQuery.KeptWordRank | tool/save_yt_query.py:61-65 | a word of the query that is not a question word and has fewer than six such words before it is a subject word, at its rank among them |
| Common.FilterRank | tool/save_yt_query.py:62 | a kept element stands in the filtered list at the count of kept elements before it |
| Common.FilterConcat | tool/save_yt_query.py:62 | filtering a concatenation filters each part |
| SaveYtQuery.ExtractQuerySubject | tool/save_yt_query.py:26-66 | the subject is a non-empty snake-case name of at most 50 characters; it is `query` when the snake-case form of the joined subject words is empty, and otherwise the sanitised join |
| SaveYtQuery.SnakeWordsSubject | tool/save_yt_query.py:65-66 | when the subject words are snake-case names whose `_`-join has at most 50 characters, the subject is exactly that join |
| PyNames.JoinSnakeNames | tool/save_yt_query.py:65 | non-empty snake-case names joined with `_` form a non-empty snake-case name |
| SaveYtQuery.OnlyRemovedWords | tool/save_yt_query.py:62-66 | a query made only of question words gets the subject `query` |
| SaveYtQuery.NoneKept | tool/save_yt_query.py:62 | when every word is a question word, none is kept |
| SaveYtQuery.VersionSource | tool/save_yt_query.py:74-79 | every version collected comes from a file whose name starts with the base name and ends in `_v<n>.md` |
| SaveYtQuery.VersionCollected | tool/save_yt_query.py:74-79 | every such file's version is collected |
| SaveYtQuery.VersionsSpec | tool/save_yt_query.py:74-79 | a number is collected iff some file in the directory starting with the base name carries it as its `_v<n>.md` suffix |
| SaveYtQuery.NextVersionAbove | tool/save_yt_query.py:69-81 | the next version is above every version already on disk for the base name |
| SaveYtQuery.NextVersionLeast | tool/save_yt_query.py:69-81 | the next version is 1 or one more than a version on disk: the least number above all of them |
| SaveYtQuery.OutputNameVersion | tool/save_yt_query.py:109 | the file name written starts with the subject and carries the version as its `_v<n>.md` suffix |
| SaveYtQuery.DigitSuffixIs | tool/save_yt_query.py:77 | a digit run preceded by a non-digit is counted exactly |
| SaveYtQuery.SaveThenScan | tool/save_yt_query.py:107-109 | once the file of the chosen version is written, the next save of the same subject picks the version after it |
| SaveYtQuery.PrefixSubjectsShareVersions | tool/save_yt_query.py:74 | the prefix test makes subjects share versions: with `ai_tools_v3.md` on disk, the subject `ai` gets version 4 |
| SaveYtQuery.GetNextVersion | tool/save_yt_query.py:69-81 | the loop returns 1 for a missing directory and otherwise one more than the greatest version found, 0 when none is |
| SaveYtQuery.TitleFrom | tool/save_yt_query.py:126 | `str.title` keeps the length and every non-letter; each letter stays the same letter and is upper-case iff the character before it is not a letter (the first one iff none precedes it) |
| SaveYtQuery.Spaced | tool/save_yt_query.py:126 | each underscore becomes a space and nothing else changes |
| SaveYtQuery.TitleOnlyChangesCase | tool/save_yt_query.py:126 | `str.title` changes only the case of letters |
| SaveYtQuery.Frontmatter | tool/save_yt_query.py:114-122 | the front matter is fenced by `---` lines and has a `video_id` line iff a non-empty identifier is given, seven lines then and six otherwise |
| SaveYtQuery.KeyLinePrefixes | tool/save_yt_query.py:116-121 | only the `video_id` line of the front matter starts with `video_id: ` |
| SaveYtQuery.QueryMarkdownLayout | tool/save_yt_query.py:112-145 | after the front matter come the title from the subject, then the query, source link and answer sections with their blank lines, fifteen lines in all |
| SaveYtQuery.Save | tool/save_yt_query.py:84-156 | the saved file is named from the query subject and the next version, and holds the markdown layout above |
| SaveResearch.SanitizeTopic | tool/save_research.py:15-20 | the folder name is in snake case |
| SaveResearch.SanitizeTopicKeepsAlnum | tool/save_research.py:15-20 | the folder name keeps exactly the letters and digits of the lower-cased topic, in order |
| SaveResearch.SanitizeTopicIdempotent | tool/save_research.py:15-20 | sanitizing a folder name again leaves it unchanged |
| SaveResearch.SearchLeftmost | tool/save_research.py:31 | the unanchored search finds the match at the leftmost position where there is one |
| SaveResearch.SearchFound | tool/save_research.py:31 | the search finds a match iff the pattern matches at some position, and what it finds is a match |
| SaveResearch.TrailingTextIgnored | tool/save_research.py:31 | the pattern has no end anchor: `output_v<n>.md` followed by anything still gives version `n` |
| SaveResearch.OutputFileVersion | tool/save_research.py:69 | the file written, `output_v<n>.md`, is read back as version `n` |
| SaveResearch.VersionSource | tool/save_research.py:28-33 | every version collected comes from a file whose name starts with `output_v` and matches the pattern |
| SaveResearch.VersionCollected | tool/save_research.py:28-33 | every such file's version is collected |
| SaveResearch.NextVersionAbove | tool/save_research.py:23-35 | the next version is above every version on disk |
| SaveResearch.NextVersionLeast | tool/save_research.py:23-35 | the next version is 1 or one more than a version on disk: the least number above all of them |
| SaveResearch.SaveThenScan | tool/save_research.py:68-69 | once the file of the chosen version is written, the next save picks the version after it |
| SaveResearch.GetNextVersion | tool/save_research.py:23-35 | the loop returns 1 for a missing directory and otherwise one more than the greatest version found, 0 when none is |
| SaveResearch.MetaLinesAt | tool/save_research.py:79-84 | one front-matter line per metadata item, in order |
| SaveResearch.BulletsAt | tool/save_research.py:96-97 | one bullet line per finding, in order |
| SaveResearch.NumberedAt | tool/save_research.py:110-111 | one line per source, numbered from 1, in order |
| SaveResearch.FrontmatterShape | tool/save_research.py:75-86 | the front matter is fenced by `---`, its version line carries the version's decimal digits, and the metadata lines sit between the creation line and the closing fence |
| SaveResearch.FindingsSectionShape | tool/save_research.py:93-98 | the findings section is absent iff there are no findings; otherwise it is the heading, a blank line, one bullet per finding and a blank line |
| SaveResearch.SourcesSectionShape | tool/save_research.py:107-112 | the sources section is absent iff there are no sources; otherwise it is the heading, a blank line, the numbered sources and a blank line |
| SaveResearch.Save | tool/save_research.py:38-123 | the folder is the sanitized topic, the version is the next one in it, the file is `output_v<version>.md`, and its lines are the research layout |
| SaveResearch.FrontmatterLines | tool/save_research.py:74-86 | the lines appended are the front matter, metadata in order |
| SaveResearch.FindingsLines | tool/save_research.py:92-98 | the lines appended are the findings section |
| SaveResearch.SourcesLines | tool/save_research.py:106-112 | the lines appended are the sources section |
| YtTranscript.IdAfter | tool/yt_transcript.py:37 | whatever the alternation captures is an 11-character identifier of letters, digits, `_` and `-` |
| YtTranscript.SearchId | tool/yt_transcript.py:41-44 | whatever the search with the URL pattern finds is a well-formed identifier |
| YtTranscript.BareId | tool/yt_transcript.py:38 | whatever the bare pattern accepts is a well-formed identifier |
| YtTranscript.ExtractVideoId | tool/yt_transcript.py:36-46 | whatever is extracted is a well-formed identifier |
| YtTranscript.SearchIdLeftmost | tool/yt_transcript.py:42 | the search returns the match at the leftmost position where the URL pattern matches |
| YtTranscript.SearchIdNone | tool/yt_transcript.py:42 | the search finds nothing iff the URL pattern matches at no position |
| YtTranscript.NoIdIff | tool/yt_transcript.py:41-46 | no identifier is extracted iff the URL pattern matches nowhere and the bare pattern does not match either |
| YtTranscript.PrefixedId | tool/yt_transcript.py:37-44 | the first URL form in the text followed by an identifier gives that identifier, whatever comes after it |
| YtTranscript.IdAfterFinds | tool/yt_transcript.py:37 | the alternation takes the first URL form that matches at the position |
| YtTranscript.PrefixesExclusive | tool/yt_transcript.py:37 | at most one URL form matches at a position |
| YtTranscript.LinkId | tool/yt_transcript.py:29-37 | a watch, short, embed or `/v/` link gives its identifier, ignoring trailing parameters |
| YtTranscript.SchemeIgnored | tool/yt_transcript.py:29-37 | a scheme and host prefix with no `y` in it, such as `https://www.`, does not change the identifier |
| YtTranscript.NoAltAt | tool/yt_transcript.py:37 | no URL form matches at a position that does not hold `y` |
| YtTranscript.BareIdUnchanged | tool/yt_transcript.py:34-44 | a bare identifier is returned unchanged |
| YtTranscript.NoRoom | tool/yt_transcript.py:37 | no URL form followed by an identifier fits in a text of at most 12 characters |
| YtTranscript.StartTranscriptSpec | tool/yt_transcript.py:59-62 | the request stops with an error naming the URL iff no identifier is extracted; otherwise it goes on with a well-formed identifier |

## Left out

- File I/O: document contents and directory listings are parameters. This covers `existsSync`, `readFileSync` and `appendFileSync` in the TypeScript sources, and `mkdir`, `write_text` and `iterdir` in the Python tools. A missing document is `None`, and whether a directory exists is a boolean parameter of `GetNextVersion`.
- The agent and its session: `createChildSession` and the response-shape normalisation in `runImplementer` are an oracle that returns a text or a thrown message. The `client.app.log` calls are not modelled.
- Shell execution in `runCheck`: only the exit code, or the fact that the call threw, is modelled.
- Concurrency: the tasks that `Promise.all` starts in one batch are run one after another, in list order. `duration` and `Date.now` are not modelled.
- Wall-clock time: `toISOString` timestamps are parameters, and `new Date(...).getTime()` is an abstract key function. Invalid dates, whose comparisons give `NaN`, are not modelled.
- Floating point: every share and threshold is exact integer arithmetic. The transcript duration in the YouTube tool is not modelled.
- Unicode: JavaScript's `\s` and Python's white space are exact character lists, but `\w`, `\d` and case conversion (`lower` and `str.title` included) cover ASCII only.
- `TokenCounter.EstimateTokens`, `TokenCounter.TruncateToTokenBudget` and `TaskExecutor.OutputSummary`: a Dafny `char` is a whole code point, while JavaScript's `length`, `substring` and `slice` count UTF-16 code units. For text outside the Basic Multilingual Plane the source's estimates and cut points differ from the model's: `"😀😀😀"` is six units, so 2 tokens in the source and 1 in the model. JavaScript can also cut a surrogate pair in half, which the model cannot express.
- `Coordination.ResultsOf` and `Coordination.GroupResult`: the results are a Dafny `map`, which has no order. The source's `Map` iterates in first-insertion order, and the plugin's summary lists the results in that order (`plugin/ralph-wiggum/index.ts:158`). The model does not capture that order. The CI outcomes, which also come in order, are kept as a sequence.
- `json.dumps` for non-string research metadata: the model takes the rendered text as given (`SaveResearch.MetaValue.Json`).
- `SaveYtQuery.SanitizeFilename`: takes a `nat` `max_length`. A negative `max_length`, which Python's slicing would read from the end, is not modelled.
- `BundleGenerator.Generator.constructor`: takes a `nat` `progressHistory`. A negative history is not modelled.
- `Coordination.Coordinator.BatchTasks`: requires a positive batch size (or no tasks). With a size of zero or less the source's loop never ends.
- `Coordination.Coordinator.ExecuteAll`: states the untouched status only for groups that were not reached and do not alias a reached one. The final status of each group that ran is stated by `ExecuteGroup`.
- The `if (result)` guard when storing a task's result: every result the executor returns is an object, so the guard always holds and is not modelled.
- The in-place sort in `getRecentProgress` is a stable insertion sort over a sequence (`BundleGenerator.SortDesc`). Its mutation of the caller's array, which the caller never reads again, is not modelled.
- The research saver's `None` defaults for sources, findings and metadata are modelled as empty lists, which is what `or []` and `or {}` turn them into.
- The transcript request itself in `get_transcript`: only the early return without an identifier is modelled.
- The tools `count_tokens.py`, `google_search.py` and `warmup_ollama.py`, the TypeScript tool wrappers, and the plugins' `index.ts` registration glue are not part of this model.
- No round trip between the task executor's log writer and the bundle generator's progress parser: their header formats differ (`TaskExecutor.LogHeaderNotParsed`).
