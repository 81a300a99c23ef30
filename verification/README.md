# Verified model of the arXiv ingestion pipeline

This project models the parts of the system that have to be right when processes crash, messages are
delivered twice, clocks disagree and users press the button again, and proves what they guarantee:

* **Ingestion protocol** (`Pipeline`, `PipelineSafety`, `PipelineResults`, `PipelineProgress`, `Refinement`): poller,
  fetcher group and two worker groups over partitioned append-only topics with manual commits, as a state machine
  in which a crash, a lost acknowledgement or a lost commit may fall between any two operations and the workers'
  pre-check and guarded upsert are separate steps. `Poller`, `Fetcher` and `Worker` hold the processes themselves, as
  classes with loops, retries and dead letters; `Refinement` proves that what they do with a page, a paper or a
  message is a run of the state machine, so its theorems speak about that code; `PollerWalk` says what a walk sends
  and counts in terms of arXiv's answers alone.
* **Database** (`Guard`, `Store`, `AuthorList`, `Locks`): the guard of the upsert as a function on a paper's
  row, the four tables and the transaction that writes them, the author order, and row locks of concurrent
  writers.
* **Request budget** (`RateLimit`): the Redis reservation script with its expiring key, and its clients.
* **Search and suggestions** (`Search`, `Fusion`, `Pick`): the windowed query, reciprocal-rank fusion, and the
  capped greedy choice of suggestions.
* **Chunking** (`Utf8`, `Chunker`, `ChunkerForm`): token windows and UTF-8 boundaries (sections 3 and 4 of RFC 3629).
* **Design jobs** (`DesignLease`): the job row as a lease.
* **Figures and labels** (`Figures`, `Geometry`, `Labels`): the HTML event machine as a tree function, exact
  segment, circle and rectangle tests, the drawn curves, and greedy label placement.
* **Keys** (`Versions`): seen-set members and version parsing. `Prelude`, `Ordering` and `Documents` are shared.

`dafny verify dfyconfig.toml` checks everything.

## Where the code differs from what is written or expected

Each of these is stated with the exact condition under which the expectation is met.

* DECISIONS.md:318-319 says either topic may be replayed in any order. Replaying abstracts keeps a full-text row
  exactly when none of them is newer than it (`Guard.AbstractReplayKeepsFullText`, `Guard.FastAndSlowCommute`).
* A dead letter whose own send fails is only logged (rust/fetcher/src/main.rs:299-305) and its message is
  committed. A run whose dead letters all arrive loses no paper
  (`PipelineProgress.DeliveredLettersLoseNothing`); every paper can be lost by letters that do not
  (`PipelineProgress.UndeliveredLettersLosePapers`). A crash between produce and mark loses nothing, as
  DECISIONS.md:127-131 says (`Poller.MarkedWasProduced`).
* schemas/ratelimit.lua:9-11 says a queue of waiting callers is never cut short by the key's expiry. That holds
  exactly while the last wait plus the next interval fits the TTL (`RateLimit.TtlConditionIsExact`);
  `RateLimit.ExpiryCanBreakSpacing` is a history for which it does not.
* A category walk can end without any warning and with papers unseen: an empty page is returned as it is on the
  fourth attempt (rust/poller/src/main.rs:288-297). `Poller.SilenceIsSafeExactly` says exactly when;
  `Poller.EmptyAnswersEndTheWalk` is such a walk.
* Authors are shown in the spelling of the first document ever stored that lists them, not of the paper that is
  read. `Store.OwnSpellingExactly` says when the two agree, `Store.SecondSpellingIsNotShown` and
  `Store.StoreTwoSpellings` give two papers for which they do not.
* In the figure parser a captioned panel inside a caption ends the outer caption early
  (`Figures.CaptionIsOwn`, `Figures.TrappedCaptionIsCut`).
* `finish_design` does not check who holds the row. A run that outlives its lease can be joined by another
  (`DesignLease.ClaimStealsExactlyWhenOverdue`), and its result is shown under its own version, model and prompt
  exactly when the last granted claim was for the same ones (`DesignLease.ResultIsLabelledExactly`).
* A finished design is generated again, without a reset, once a claim for another version, model or prompt came in
  between: the row keeps one design only. A model setting that is changed and changed back does this, and so does
  an older full text that takes the paper's version back (python/arxiv_common/src/arxiv_common/db.py:79-81).
  `DesignLease.FinishedIsKeptExactly` gives the condition, `DesignLease.GeneratedAgainAfterAnother` a run.

## Model

| member | source | states |
|---|---|---|
| PipelineResults.NoPaperLost | rust/poller/src/main.rs:245-254 | In every run with crashes anywhere, once the fast group or both the fetcher and the full-text group are drained, each member of the seen set has a row for its paper or a dead letter of that very version; with no dead letter lost, a row or a delivered dead letter. |
| PipelineProgress.EveryRunCanBeDrained | rust/fetcher/src/main.rs:140-161 | Every reachable state can be continued by ordinary steps (restarts, documents that the message schema accepts produced, checked, written and committed, no dead letter) to one where all groups are drained and committed. |
| PipelineProgress.DeliveredLettersLoseNothing | python/worker/src/arxiv_worker/main.py:130-154 | No run whose dead letters all arrive loses a seen version, once all groups are drained. |
| PipelineProgress.UndeliveredLettersLosePapers | rust/fetcher/src/main.rs:297-306 | For every paper there is a run with undelivered dead letters after which all groups are drained, the version is marked seen, and neither a row nor a letter exists. |
| PipelineProgress.CrashesRepeatMessages | rust/fetcher/src/main.rs:140-161 | Duplicates do happen, for every paper and document: a crash of the poller between send and mark and one of the fetcher between send and commit leave both topics with the message twice. |
| PipelineResults.CommittedMeansAccounted | rust/fetcher/src/main.rs:140-161 | Every message below a committed offset of any group has an outcome: a chunked document, a row, or a dead letter. |
| PipelineResults.FullTextPrevails | python/arxiv_common/src/arxiv_common/db.py:79-81 | If a paper's last chunked message is full text and no version on papers.new is newer, then in every interleaving, once the full-text group is past it, the row is that document or the message was dead-lettered. |
| PipelineResults.RowsAreWholeMessages | python/worker/src/arxiv_worker/main.py:65-94 | In every reachable state a paper's row is, whole, one of its chunked messages or the abstract document of one of its new messages. |
| PipelineResults.TwoPhaseRunsAreAtomic | python/worker/src/arxiv_worker/main.py:79-94 | Every run with the unlocked pre-check and the upsert as separate steps equals a run in which they are one step: same logs, rows, dead letters, positions and commits. |
| PipelineResults.AtomicStepIsTwoPhase | python/worker/src/arxiv_worker/main.py:79-94 | And each atomic step is one or two of the separate steps, so nothing is gained or lost by fusing them. |
| PipelineSafety.RunKeepsInv | rust/fetcher/src/main.rs:176-222 | All invariants (seen was produced, messages on their partitions, outcomes behind positions, rows are messages, full text anchored) hold after every run. |
| Refinement.WalkRunsTheProtocol | rust/poller/src/main.rs:199-280 | A whole category walk, whatever fails in it, is a run of send, mark and crash steps of the state machine with the same seen set and log. |
| Refinement.FetcherRunsTheProtocol | rust/fetcher/src/main.rs:176-222 | Handling a paper is a run of produce steps, one per document that arrives, and a dead-letter step if all attempts fail. |
| Refinement.AttemptIsSteps | python/worker/src/arxiv_worker/main.py:79-94 | One processing attempt is a check step followed by a write or a retry step, with the same effect on the rows. |
| Refinement.WorkerRunsTheProtocol | python/worker/src/arxiv_worker/main.py:100-128 | Handling a message is a run of check, write, retry and dead-letter steps of its lane alone, ending settled unless the process died. |
| Documents.WordsAreCounted | python/arxiv_common/src/arxiv_common/models.py:58-67 | The token count of an abstract document is the number of places where a word starts, at least one (`Documents.FromAbstract`). |
| Worker.AttemptsAreOneUpsert | python/worker/src/arxiv_worker/main.py:108-128 | However many attempts and wherever the connection breaks, even after a commit: the message acts on its row as one guarded upsert or not at all; it is stored or skipped exactly as the guard says; other papers are untouched. |
| Worker.HowAMessageEnds | python/worker/src/arxiv_worker/main.py:108-128 | From the faults alone: the first faultless attempt stores or skips the message, with the embeddings of that attempt; it is dead-lettered after three failed attempts, as db_unavailable exactly when the third lost its connection; the process dies on the first connection that cannot be opened again. |
| Worker.FinishedExactly | python/worker/src/arxiv_worker/main.py:100-128 | A readable message ends stored or skipped if and only if one of three attempts meets no fault and every connection lost before it was opened again, and dead-lettered if and only if all three fail and no connection stays closed; garbage is dead-lettered at once. |
| Worker.RunIsReplay | python/worker/src/arxiv_worker/main.py:159-187 | A run of messages acts on a paper's row as the replay of its finished documents in order, plus possibly some unfinished ones. |
| Worker.RedeliveryIsHarmless | python/worker/src/arxiv_worker/main.py:180-185 | Consuming any tail of a run again leaves every paper's document unchanged, whatever retries it takes, provided every readable message ends stored or skipped both times. |
| Worker.RedeliveryLeavesTheTables | python/worker/src/arxiv_worker/main.py:180-185 | Then the links, the chunk numbers and the chunk texts of all papers are unchanged too. |
| Worker.Worker.Process | python/worker/src/arxiv_worker/main.py:79-94 | The pre-check, embedding, summary and upsert have exactly the specified effect on the stored documents, for every fault; when it writes, the row carries the summary of this attempt and the model, and keeps the old ones when summaries are off. |
| Worker.Worker.Handle | python/worker/src/arxiv_worker/main.py:100-128 | Exactly one of processed and failed grows by one, unless the process dies; a dead letter carries its reason and number of attempts. |
| Worker.Worker.Run | python/worker/src/arxiv_worker/main.py:159-187 | The loop handles messages in order; the committed offset is the last one acknowledged and never passes a message without an outcome; it stops early exactly at a death or when the quota is met. |
| Fetcher.AttemptsSendThePaper | rust/fetcher/src/main.rs:193-221 | Only valid documents of this very paper are sent, at most one per attempt; the paper counts as sent exactly when some attempt succeeds, otherwise all three attempts were used. |
| Fetcher.SentIsWhatWasDownloaded | rust/fetcher/src/main.rs:193-221 | From the downloads alone: the topic gets, in order, the document of every attempt up to the first that succeeds, or of three, unless a send was refused; each holds the chunks of the page's text, else of the PDF's, else of no text, from the best source that is enabled and has any. |
| Fetcher.DowngradeMeansNothingBetter | rust/fetcher/src/main.rs:257-283 | A paper goes out as PDF text or abstract-only only from an attempt in which every better enabled source answered and had no text: a failed download costs an attempt, never quality. |
| Fetcher.Fetcher.Process | rust/fetcher/src/main.rs:241-255 | One attempt appends exactly the document it has to send, the chunks of the text its source names, unless the send was refused or there is none, and reports that source exactly when the send was acknowledged. |
| Fetcher.Fetcher.Handle | rust/fetcher/src/main.rs:176-222 | Exactly one of the four counters goes up, by one, the one of the source that was sent, and a dead letter is written exactly for failures. |
| Fetcher.Fetcher.Run | rust/fetcher/src/main.rs:140-165 | The total of the counters equals the number of messages handled; the committed offset is the last one acknowledged and never passes them; the loop stops early exactly when the quota is met. |
| Poller.MarkedWasProduced | rust/poller/src/main.rs:221-257 | In every walk, finished or broken off by any failure, every newly marked member was produced; in a completed one fetched = produced + seen + invalid. |
| Poller.WalkCoversPrefix | rust/poller/src/main.rs:204-266 | On a fixed valid feed the entries read are a contiguous prefix, the seen set gains exactly their members, and the date reported with the cap warning is the earliest of theirs. |
| Poller.SilentWalkMissesNothing | rust/poller/src/main.rs:258-278 | On a good feed, with a seen set closed towards older entries and no trap page, a walk that returns Ok without page error or cap warning leaves every entry seen, and produced if it was not seen before. |
| Poller.SilenceIsSafeExactly | rust/poller/src/main.rs:283-314 | Silence implies completeness for all such seen sets if and only if no page that the walk from an empty seen set reaches, short of the feed's end and not caught by the cap warning, comes back empty on the fourth attempt. |
| Poller.EmptyAnswersEndTheWalk | rust/poller/src/main.rs:283-314 | For every non-empty feed whose first page comes back empty four times, the walk from an empty seen set ends silently with papers unseen. |
| Poller.CategoryPoller.FetchPageWithRetry | rust/poller/src/main.rs:283-314 | The attempt loop returns what the specification of four attempts says. |
| Poller.CategoryPoller.PollCategory | rust/poller/src/main.rs:199-280 | The loop's seen set, log, statistics, result and warning are those of the specified walk. |
| PollerWalk.PollIsFaithful | rust/poller/src/main.rs:199-280 | From arXiv's answers alone, whatever fails: only papers of valid entries not seen before are sent; a dry run sends and marks nothing; a completed walk has sent exactly the new papers in order, marked exactly the valid entries, and counts every entry read as seen, invalid or produced; it ends at the page cap, a failed page, or the first page that is empty, shows nothing new or is the last, and warns exactly when it ends at the cap with news on its last page. |
| PollerWalk.WalkReads | rust/poller/src/main.rs:203-266 | The same from wherever a walk stands: its pages are answers to requests for consecutive offsets, and a failure leaves all entries before the one it hit dealt with. |
| PollerWalk.FetchTriesFour | rust/poller/src/main.rs:283-314 | A page is the first useful one of four answers, or the fourth; there is none exactly when the fourth request fails after three useless ones. |
| Guard.ReplayIsSurvivor | python/arxiv_common/src/arxiv_common/db.py:70-81 | Replaying any history of writes leaves the document named by a fold-free definition: the last full text, unless a newer abstract came later, then the last abstract. |
| Guard.ReplaySuffixHarmless | python/arxiv_common/src/arxiv_common/db.py:52-56 | Re-applying any suffix of any history changes nothing. |
| Guard.AbstractReplayKeepsFullText | python/arxiv_common/src/arxiv_common/db.py:36-42 | Replaying abstracts keeps a full-text row if and only if none of them is newer. |
| Guard.FastAndSlowCommute | python/arxiv_common/src/arxiv_common/db.py:79-81 | An abstract and a full text commute if and only if the abstract is not newer, and then the full text stays. |
| Store.Database.HasFullText | python/arxiv_common/src/arxiv_common/db.py:36-42 | The query on the row answers for the document behind it. |
| Store.Database.UpsertPaper | python/arxiv_common/src/arxiv_common/db.py:45-142 | The transaction writes all of the document or nothing, as the guard says; every paper stays whole, field by field; missing authors are added in this document's spelling and existing ones keep theirs; a new summary and its model replace the old ones, a missing one leaves them. |
| Store.InsertAuthors | python/arxiv_common/src/arxiv_common/db.py:107-122 | Inserting in name order gives each distinct author one link, at the first position of its name; a new author row carries the name listed there, an existing one is kept as it is. |
| Store.InsertChunks | python/arxiv_common/src/arxiv_common/db.py:124-141 | The rows are exactly the document's chunks, each with its own section and text without their NUL characters, its token count and its embedding; it fails exactly when two chunks share a number. |
| Store.StoredPaperIsItsDocument | python/arxiv_common/src/arxiv_common/db.py:94-141 | Whatever was written before: the row, the chunks and the links of a stored paper are its document's, field by field, each author linked at a place no later than any where the same name is listed; of title, abstract, section and text exactly the NUL characters are missing. |
| Store.StripNulStrips | python/arxiv_common/src/arxiv_common/text.py:26-28 | Exactly the NUL characters are removed and the order of the others is kept. |
| Store.OthersStayWhole | python/arxiv_common/src/arxiv_common/db.py:61-142 | Replacing one paper's rows leaves every other paper's rows, links and chunks exactly those of its document. |
| Store.OneAnswer | python/arxiv_common/src/arxiv_common/db.py:307-309 | The ordered aggregate has exactly one answer: the names on the rows of the document's authors, later duplicates removed, in document order. |
| Store.AuthorsReadBack | python/arxiv_common/src/arxiv_common/db.py:307-309 | Up to normalisation, what is read is the document's author list with later duplicates removed, although the rows were inserted in name order. |
| Store.OwnSpellingExactly | python/arxiv_common/src/arxiv_common/db.py:110-117 | It is in the document's own spelling if and only if the first document ever stored that lists each author spells it so. |
| Store.SecondSpellingIsNotShown | python/arxiv_common/src/arxiv_common/db.py:112-114 | Of two papers that spell one author differently, the second one stored shows the first one's spelling. |
| Store.StoreTwoSpellings | python/arxiv_common/src/arxiv_common/db.py:45-142 | Storing any two such documents, whatever their chunks, in an empty database leads there: every answer for the second paper is in the first one's spelling. |
| Store.TablesFollowDocuments | python/arxiv_common/src/arxiv_common/db.py:107-141 | Two states with the same documents have the same links, chunk numbers and texts, and rows up to the summary columns. |
| Store.ChunkNumbersAreContiguous | python/arxiv_common/src/arxiv_common/db.py:124-141 | A stored paper's chunk numbers are exactly 0..n-1 when its document's are. |
| AuthorList.FirstInsertedIsFirstListed | python/arxiv_common/src/arxiv_common/db.py:109-122 | The first entry inserted under a name is the first in the author list, so ON CONFLICT DO NOTHING keeps the right position. |
| AuthorList.InsertionOrderIsLockOrder | python/arxiv_common/src/arxiv_common/db.py:108-109 | Author rows are locked in exactly the order that the deadlock argument uses. |
| Locks.NoWaitCycle | python/arxiv_common/src/arxiv_common/db.py:61-122 | In every reachable state of any number of writers, the waits-for relation has no cycle. |
| Locks.DeadlockFree | python/arxiv_common/src/arxiv_common/db.py:61-122 | Following the waits from any unfinished writer ends at one that can step. |
| Locks.AllWritersFinish | python/arxiv_common/src/arxiv_common/db.py:61-122 | Every run takes at most one step per lock and commit of all documents, and can go on, without timeouts, until all writers are done. |
| Locks.UnsortedWritersDeadlock | python/arxiv_common/src/arxiv_common/db.py:108-109 | Without the sort, for any two papers listing the same two authors in opposite order, a run of lock steps from the start ends with both writers waiting and neither able to step. |
| RateLimit.Budget.Reserve | schemas/ratelimit.lua:16-26 | The script returns the wait of the next slot in the history of reservations, expiry included. |
| RateLimit.ExpiryIsInvisible | schemas/ratelimit.lua:9-11 | While each wait plus the next interval fits the TTL, slots are those of a key that never expires. |
| RateLimit.TtlConditionIsExact | schemas/ratelimit.lua:20-26 | Every possible later caller is spaced by its interval if and only if the last wait plus that interval fits the TTL. |
| RateLimit.ExpiryCanBreakSpacing | schemas/ratelimit.lua:20-26 | For every interval and TTL, after a burst of callers whose waits outgrow the TTL, a caller that comes as the key expires gets a slot less than the interval after the last one. |
| RateLimit.SlotsAreSpaced | schemas/ratelimit.lua:13-15 | Any two slots are at least the later caller's interval apart. |
| RateLimit.SlotIsEarliest | schemas/ratelimit.lua:20-26 | Nobody waits longer than the spacing asks for: a slot is the earliest time, not before the call, that keeps the caller's interval from every earlier slot. |
| RateLimit.FifoAndBoundedWait | schemas/ratelimit.lua:20-26 | With one interval, slots come in reservation order and a caller with n slots ahead waits at most n + 1 intervals. |
| RateLimit.WaitsStayShort | rust/common/src/ratelimit.rs:97-105 | k callers that sleep out their slot before asking again never wait more than k intervals, and a TTL of k + 1 intervals never expires under them. |
| RateLimit.SendsAreSpaced | rust/common/src/ratelimit.rs:20-24 | Sends that leave at most 50 ms after their slots are spaced by the later caller's interval less 50 ms, for any processes and any mix of intervals on the key. |
| RateLimit.MinimaAreKept | rust/common/src/ratelimit.rs:124-126 | So a caller that adds the guard to its own minimum keeps at least that minimum from every earlier send of any process. |
| RateLimit.UniformSendsAreSpaced | python/arxiv_common/src/arxiv_common/ratelimit.py:66-88 | With one minimum and k processes that sleep out their slots a TTL of k + 1 intervals is enough, and none waits more than k of them. |
| RateLimit.MinInterval.Wait | rust/common/src/ratelimit.rs:43-55 | In-process releases are at least the minimum apart and none waits longer than that. |
| RateLimit.SharedMinInterval.Wait | rust/common/src/ratelimit.rs:97-112 | A shared release comes after its slot's wait; a fallback release at least the minimum after this process's previous release. |
| Search.WindowRefinesExhaustive | python/arxiv_common/src/arxiv_common/db.py:209-233 | The windowed query equals the top k of the best chunk per paper over the whole corpus if and only if the window holds k papers or all of them. |
| Search.AnswersAreUnique | python/arxiv_common/src/arxiv_common/db.py:222-232 | On every input each query has exactly one answer. |
| Search.AnswersAreNearest | python/arxiv_common/src/arxiv_common/db.py:209-241 | The exhaustive answer holds at most k chunks of different papers, nearest first, each as near as any of its paper, and nearer ones are never left out; the windowed answer is that for a window of the nearest chunks. |
| Fusion.DominanceIsKept | python/arxiv_common/src/arxiv_common/db.py:277-283 | A paper at least as good in both lists as another, and better in one, comes before it. |
| Fusion.NoKeywordKeepsDense | python/arxiv_common/src/arxiv_common/db.py:277-283 | With no keyword rows the fused list is the dense list. |
| Fusion.BothListsBeatOne | python/arxiv_common/src/arxiv_common/db.py:244-245 | Two places no worse than r beat every single place if and only if r is at most 61. |
| Fusion.FoundTwiceComesFirst | python/arxiv_common/src/arxiv_common/db.py:277-283 | So a paper in both lists at ranks up to 61 comes before every paper found in one list. |
| Fusion.FusedIsTheRanking | python/arxiv_common/src/arxiv_common/db.py:277-283 | The fused list is the k papers of either ranking with the highest sums of 1 / (60 + place), in order of score and then of name, each once. |
| Pick.GreedyIsAdmissible | python/query_api/src/arxiv_query_api/recommend.py:80-94 | For a positive limit the choice meets the per-source, external and total caps. |
| Pick.GreedyIsLexFirst | python/query_api/src/arxiv_query_api/recommend.py:85-94 | It is lexicographically first in rank order among all selections that meet them. |
| Pick.GreedyIsMaximal | python/query_api/src/arxiv_query_api/recommend.py:85-94 | Nothing can be added to it. |
| Pick.GreedyIsHalfOptimal | python/query_api/src/arxiv_query_api/recommend.py:85-94 | It has at least half as many items as any selection that meets the caps. |
| Pick.SourceCapsCoverLimit | python/query_api/src/arxiv_query_api/recommend.py:80 | The per-source cap times the number of sources is never below the limit. |
| Pick.RankedIsTheRanking | python/query_api/src/arxiv_query_api/recommend.py:75-78 | The candidates are ranked by falling score, then key, and as keys are unique no other order of them is. |
| Pick.PickCandidates | python/query_api/src/arxiv_query_api/recommend.py:74-95 | The loop with its counters and early exit returns the greedy choice on the ranked candidates. Told from the candidates alone: none that is excluded, by falling score and key, at most max(4, the share of each source) per source and max(1, 0.34 of the limit, rounded half to even) external ones, and an eligible candidate is left out only if better ones that were chosen fill its source, the external quota or the list; the limit is kept if and only if it is positive or no candidate is eligible. |
| Pick.GreedyIsPromised | python/query_api/src/arxiv_query_api/recommend.py:74-95 | The greedy choice on the ranking meets that promise for every list of candidates, exclusions and limit. |
| Chunker.WindowsClosedForm | rust/fetcher/src/chunk.rs:56-77 | There are 1 + ceil((n-max)/(max-overlap)) windows, or 1 if n is at most max, and the k-th starts at k(max-overlap). |
| Chunker.WindowsOverlapExactly | rust/fetcher/src/chunk.rs:61-76 | Consecutive windows share exactly the overlap and each brings a new token. |
| Chunker.WindowsReconstruct | rust/fetcher/src/chunk.rs:56-77 | Dropping the overlaps gives back the token sequence. |
| Chunker.NoGap | rust/fetcher/src/chunk.rs:61-64 | With an overlap of at least one the byte ranges leave no byte between the first and the last token uncovered. |
| Chunker.SlicesAreValid | rust/fetcher/src/chunk.rs:62-64 | A slice of valid UTF-8 is valid UTF-8. |
| Chunker.Chunk | rust/fetcher/src/chunk.rs:40-80 | The loops return the lead chunk and the chunks of all windows, numbered and cut at the cap, or the error exactly when an untokenizable section comes before the cap. |
| ChunkerForm.ChunksInClosedForm | rust/fetcher/src/chunk.rs:40-81 | Without loops: chunk 0 is title, blank line and abstract; then come, for every section of at least eight tokens in order, its windows at multiples of the step, each with the section's title, the trimmed text cut at whole characters and its number of tokens, blank ones left out, as many as fit the cap; an untokenizable section is an error if the cap was not reached before it. |
| Chunker.ChunksAreNumbered | rust/fetcher/src/chunk.rs:40-71 | Chunk i has number i, there are at most max_chunks, chunk 0 is title and abstract, the others hold 1 to max tokens. |
| Chunker.CapIsPrefix | rust/fetcher/src/chunk.rs:58-60 | Capped output is the first max_chunks of the output with any higher cap. |
| Chunker.ChunkerFillsTheTable | rust/fetcher/src/chunk.rs:66-71 | The chunk rows of a paper stored from this output are exactly 0..n-1. |
| Utf8.FloorCharBoundary | rust/fetcher/src/chunk.rs:83-89 | The loop finds the greatest boundary at or before the position. |
| Utf8.CeilCharBoundary | rust/fetcher/src/chunk.rs:91-97 | The loop finds the least boundary at or after the position. |
| Utf8.BoundarySplits | rust/fetcher/src/chunk.rs:83-97 | Cutting valid text at a boundary leaves two valid texts. |
| Utf8.BoundaryExactly | rust/fetcher/src/chunk.rs:83-97 | A position of valid text is a boundary if and only if both sides of it are valid. |
| DesignLease.OneActiveRun | python/arxiv_common/src/arxiv_common/db.py:442-478 | If every run ends within the stale limit of its claim or has died, at most one run is ever active, under any order of claims, finishes, resets and deaths. |
| DesignLease.FinishedIsKeptExactly | python/arxiv_common/src/arxiv_common/db.py:461-466 | With no reset and every run on time, a finished design is kept, and nothing is generated in its place, if and only if every later claim is for its version, model and prompt. |
| DesignLease.GeneratedAgainAfterAnother | python/arxiv_common/src/arxiv_common/db.py:464-466 | For any two different keys there is a run, on time and without a reset, in which a design done under the first is being generated again under the first after one for the second. |
| DesignLease.ResetAndFailureReopen | python/arxiv_common/src/arxiv_common/db.py:479-505 | A reset or a failure opens the row for any claim; a reset does not touch a run that is on; a finished row is open exactly for other versions, models and prompts. |
| DesignLease.DoneIsWrittenUnderItsKey | python/arxiv_common/src/arxiv_common/db.py:489-505 | A design on show was written by a run claimed for the version, model and prompt it is shown under. |
| DesignLease.ClaimStealsExactlyWhenOverdue | python/arxiv_common/src/arxiv_common/db.py:461-466 | While a run is active a claim starts a second one if and only if the lease is over. |
| DesignLease.ResultIsLabelledExactly | python/arxiv_common/src/arxiv_common/db.py:489-505 | In every run, timely or not, a result is shown under its own version, model and prompt if and only if the last granted claim was for the same ones, which is what the row says. |
| DesignLease.LateFinishIsMislabelled | python/arxiv_common/src/arxiv_common/db.py:497-505 | For every stale limit, a run that outlives it is joined by a second one and its result is shown under the other's key. |
| DesignLease.Designs.Claim | python/arxiv_common/src/arxiv_common/db.py:442-478 | The claim succeeds and rewrites the row exactly as its conflict clause says, and touches no other row. |
| DesignLease.Designs.Start | python/query_api/src/arxiv_query_api/design.py:432-452 | A job is not queued exactly for failed designs without a retry request, runs within their lease, and finished designs of the same key. |
| Figures.ParserIsTreeFunction | python/query_api/src/arxiv_query_api/figures.py:41-78 | On every element tree the counters return to zero and the figures are the outermost counted ones with all descendant images; their captions are their own if every caption part is heard. |
| Figures.FiguresAreOfThePage | python/query_api/src/arxiv_query_api/figures.py:41-78 | A figure is listed if and only if it comes from an outermost element of class ltx_figure and not ltx_table with a numbered caption and an image; it has the first six images below it. |
| Figures.ImagesAreBelow | python/query_api/src/arxiv_query_api/figures.py:49-52 | An address is among them if and only if it is that of an img element with a source somewhere below. |
| Figures.CaptionIsOwn | python/query_api/src/arxiv_query_api/figures.py:53-60 | The caption parts collected are the figure's own if and only if each is met with the counter above zero; it is enough that no own caption holds a nested figure with a caption. |
| Figures.TrappedCaptionIsCut | python/query_api/src/arxiv_query_api/figures.py:58-60 | A caption with such a nested figure loses the text after it. |
| Figures.FormulaShowsAsBlank | python/query_api/src/arxiv_query_api/figures.py:55-70 | A formula in a caption shows as a blank between the words around it. |
| Figures.FigureParser.Feed | python/query_api/src/arxiv_query_api/figures.py:41-78 | Feeding events to the parser object runs the machine. |
| Figures.FirstPerNumberIsFirst | python/query_api/src/arxiv_query_api/figures.py:84-88 | Deduplication keeps every number once, with its first figure, in page order. |
| Figures.ParseFigures | python/query_api/src/arxiv_query_api/figures.py:81-89 | The result is the first sixteen of those. |
| Geometry.SegHits | python/query_api/src/arxiv_query_api/static/explore.js:277-293 | True if and only if the segment has a point in the rectangle. |
| Geometry.HitsCircleIsCloser | python/query_api/src/arxiv_query_api/static/explore.js:296-299 | True if and only if the rectangle has a point closer to the centre than the radius. |
| Geometry.OverlapsGrownIsNotApart | python/query_api/src/arxiv_query_api/static/explore.js:294-295 | A grown rectangle overlaps another if and only if two of their points are closer than the padding along both axes. |
| Geometry.PieceIsTheCurve | python/query_api/src/arxiv_query_api/static/explore.js:133-141 | The blossom of a quadratic between two parameters draws exactly that piece of it. |
| Geometry.QuadDividesLegs | python/query_api/src/arxiv_query_api/static/explore.js:133-136 | A point of the curve divides the line between the points that divide its two legs, each in the share of the parameter. |
| Geometry.BendIsSideways | python/query_api/src/arxiv_query_api/static/explore.js:155-163 | The control point is off the middle of the line between the stars, at a right angle to it, by the bend times its length. |
| Geometry.Root | python/query_api/src/arxiv_query_api/static/explore.js:143-152 | The bisection stays in its range and brackets a sign change within 2^-24 of it. |
| Geometry.MissesCurve | python/query_api/src/arxiv_query_api/static/explore.js:155-172 | A rectangle whose grown form misses all sixteen chords misses the curve, if the curve's bend is at most 1024 times the padding. |
| Labels.PlaceLabels | python/query_api/src/arxiv_query_api/static/explore.js:309-357 | The loops give every star the place that the placement function names. |
| Labels.LabelsKeepApart | python/query_api/src/arxiv_query_api/static/explore.js:350-354 | Any two points of two labels differ by at least 4 pixels along some axis. |
| Labels.LabelIsClear | python/query_api/src/arxiv_query_api/static/explore.js:347-354 | A placed label is inside the margins, off every box, at least 3 pixels from every star's rim, and no point of a shown edge's pieces comes within its padding. |
| Labels.LabelsNeverCrossEdges | python/query_api/src/arxiv_query_api/static/explore.js:155-172 | When the labels avoid the pieces of all shown edges, no placed label contains a point of the curve drawn for a shown edge, for stars up to 9846 (links) or 36571 (trail) pixels apart along each axis. |
| Labels.SpotClearsItsStar | python/query_api/src/arxiv_query_api/static/explore.js:301-307 | Every spot of a star, straight or diagonal, keeps at least the star's radius plus the gap (plus 14 when far) from its centre. |
| Labels.HiddenMeansNoRoom | python/query_api/src/arxiv_query_api/static/explore.js:341-357 | A star has no label if and only if it is off the screen or each of its spots, on every side, near and far, for every wrapping, is cut by the border, a box, a star, an edge or the label of a better-ranked star. |
| Labels.BestSpotIsTaken | python/query_api/src/arxiv_query_api/static/explore.js:336-357 | A label gets the widest wrapping that has a free spot, and of its free spots one with the highest score. |
| Labels.SpotsAreBeside | python/query_api/src/arxiv_query_api/static/explore.js:301-307 | The spots lie on all eight sides of the star, at exactly its ring, near and far, in the size of the text. |
| Labels.PiecesAreOfShown | python/query_api/src/arxiv_query_api/static/explore.js:317-321 | The pieces to avoid are those of the shown edges and no others, each with its padding. |
| Labels.SegmentsOf | python/query_api/src/arxiv_query_api/static/explore.js:317-321 | The loops collect exactly the straight pieces of the shown edges with their padding. |
| Versions.SplitUndoesPrint | rust/poller/src/arxiv.rs:196-206 | Parsing a printed id and version gives both back for every non-empty id and u32 version, even with the letter v in the id; otherwise it is refused. |
| Versions.PrintUndoesSplit | rust/common/src/models.rs:38-45 | Printing undoes parsing if and only if the version has no sign and no leading zero. |
| Versions.SplitAccepts | rust/poller/src/arxiv.rs:196-206 | Accepted is exactly a non-empty id, the letter v, an optional plus sign and decimal digits whose value is below 2 to the 32, and that value is the version. |
| Versions.SeenMemberInjective | rust/common/src/models.rs:38-41 | Distinct (id, version) pairs never share a seen-set member. |

## Left out

- HTTP, Kafka, Redis and Postgres clients, metrics, logging, templates: sends, downloads, embeddings and database calls are inputs that say how each call went.
- Consumer-group rebalances with two live owners of one partition, and loss of data inside Kafka, Redis or Postgres. The two topics are taken to have the same number of partitions and one partitioner.
- The workers of modules Worker and Fetcher run alone; what other processes do between two of their calls is modelled in Pipeline, one Postgres transaction being one step.
- Malformed messages appear in Fetcher and Worker (dead-lettered at once) but not in Pipeline, whose topics hold only what poller and fetcher produce.
- Poller.SilentWalkMissesNothing: takes one fixed feed of valid entries, each listed once; feeds that change while they are read, and completeness after a failed page, are not covered, because the next walk stops at the first page without news.
- Seen-set closure across categories, which the code does not keep.
- scripts/backfill.py (it marks papers seen before its producer is flushed) and scripts/replay_dlq.py.
- NUL characters in fields that are not stripped of them (author names, categories, links), which Postgres refuses.
- Summary columns in replay theorems: a missing summary keeps the previous one, so they depend on history; timestamps too.
- Integer widths other than the u32 version: chunk numbers and token counts are unbounded, bigserial ids leave no gaps, times are whole milliseconds.
- `author_norm`, `trim`, the tokenizer, the figure-number pattern and URL joining are parameters; the tokenizer is taken to report positions in text order. White space in abstracts is the ASCII one.
- HNSW approximation, text-search ranking, embedding values and floating point: distances are exact with a fixed tie order, keyword ranks are given, scores and coordinates are reals; the rounding of drawn coordinates to a tenth of a pixel is not modelled.
- `candidates` and `Candidate.add`, which assemble what `pick` chooses from; every candidate they make has a reason. The external share, limit times 0.34, is taken exactly before rounding half to even.
- A design finish that was committed but not acknowledged and is then recorded as failed; the provider queues, the generators and the checks in `validate`.
- DesignLease.OneActiveRun: speaks of one row; rows of other papers and providers are independent (`DesignLease.Designs.Claim`).
- Unclosed `figure` and `figcaption` tags; other void or unclosed tags are covered.
- The spacing of a shared send right after a fallback send, which the code does not promise.
- D3 layout, zoom, hover, tooltips and panels. A star's spots are sorted by a given score; the rank order of stars is given.
- The semantic cache, watches, feeds and page rendering, which would only add easy members.
