# Verification of the wookie crawler, its search and its document similarity

This project models wookie's state-carrying cores in Dafny and proves what they guarantee
over whole runs and over all inputs. Code that updates state is a class or a method with a
loop. Its contract equates the new state with a specification function of the old one, and
lemmas about that function, over runs and inputs, carry the results.

**Phrase search** (`Split`, `Indexer`, `QueryText`, `PhraseScan`, `Search`). A document is
indexed as a map from token to positions. A search gets back only the postings of the query
tokens, rebuilds a position map with gaps from them, and runs an automaton without a failure
function over it. The automaton is exact on all documents if and only if the phrase does not
repeat its first token; `split::feed` never lists a token twice, so the search is exact for
the token list of every quoted phrase. It is exact for the literal phrase if and only if the
phrase repeats no word. The removal of the quoted phrases from the query text uses offsets
into the original text: the condition under which it is right and the one under which it
throws `std::out_of_range` are given exactly; every other query is mangled silently.

**The crawl engine** (`Crawl`, `CrawlRuns`, `CrawlPage`, `CrawlReach`, `CrawlProgress`,
`CrawlRefetch`, `CrawlThreads`, `CrawlOnce`, `CrawlCoverage`, `CrawlThreadReach`,
`CrawlStops`, `CrawlWindow`). At the coarse grain one completed fetch is one step. At the
fine grain claim, decision, feed, erasure and storing are separate steps of any number of
downloader threads; a handler that is not disturbed has the effect of the coarse step.
Proved at both grains: when all is at rest, every link that passed on an accepted page is
stored in this generation or failed, and a crawl ends when the links of the pages it meets
lead into a finite set of URLs. Claims exclude each other under every interleaving. At the
coarse grain a page stored in this generation is never fetched again for a link. At the fine
grain that holds of a reachable state if and only if no thread is past its decision to fetch
the page; erasing a claim before its page is stored lets a thread get there, as a run of two
threads shows. A 304 reply (RFC 9110, section 15.4.5) stores the data of the record that
holds the claim. On the path through `engine::found_in_page_cache` that is the cached
document. On the link path it is the empty placeholder, because `std::map::insert` does not
overwrite it: the stored page is emptied and only the links seen on an empty page are
demanded. With honest replies, the engine sees the links of every page it processes if and
only if every successful 304 finds a claim made from outside, or a page that has the same
links when it is empty; then everything reachable from the seed is stored. The same is
proved for threads.

**The recovery worker pool** (`Recovery`). URLs are conserved through read, push and reply;
the response is closed at most once, and only when nothing was dropped and as many bytes were
written as announced; a failed read strands its worker for good; every run ends.

**The pipeline** (`MetaInfo`, `Pipeline`). A stage acknowledges its queue only after the next
queue has taken the record, so no admitted record is lost before the last stage finished it.
Every record in a queue is an admitted one with exactly what the stages passed add to it, and
from every state an admitted record can pass all stages. Records only grow.

**Document frequency** (`Tfidf`, `Sharding`). Counting with strided threads and merging their
tables agrees with a sequential count exactly for the words no single thread counted 2^31
times, since `merge` narrows a count to int.

**Hash, n-grams, features** (`Murmur`, `NGrams`, `Similarity`). No change of a single block or
of the tail is lost before the finaliser. Each xor-shift of the finaliser is two-to-one, as `h` is
signed there. N-gram packing is faithful up to eight bytes without a zero byte; intersections
and the five features of a pair of documents are exact.

Assumptions the model makes: the store shows a write as soon as it is issued and writes
succeed; at the coarse grain, and where it is said for threads, a stored page can be read;
completions are not stamped earlier than the generation time; token identifiers are
injective on the tokens of one query; the index search returns documents that contain every
token asked for, with the postings of these tokens; a queue drops a record only when it is
acknowledged. Lower-casing, segmentation, URL parsing and resolution, page parsers and
filters are arbitrary functions.

`dafny verify dfyconfig.toml` checks the project.

## Model

| member | source | states |
|---|---|---|
| Split.Feed | include/wookie/split.hpp:33-59 | the map holds for every token of the text the list of its positions; the caller's vector gets the tokens not yet seen appended in order of first occurrence |
| Split.PositionsExact | include/wookie/split.hpp:44-51 | a position list is strictly increasing and holds exactly the places where the token stands |
| Split.VocabularyExact | include/wookie/split.hpp:44-53 | the token list never repeats a token, has exactly the words of the text, and orders them by first occurrence |
| Split.DistinctTextIsItsVocabulary | include/wookie/split.hpp:44-53 | a text without a repeated word is its own token list |
| Split.IndexPartitionsPositions | include/wookie/split.hpp:40-56 | the position lists cover 0..n-1 and are disjoint: every position is in the list of exactly one token, the one standing there |
| Split.IndexIsLossless | include/wookie/split.hpp:33-59 | two texts with the same index are the same text |
| Indexer.PrepareIndexes | lib/basic_elliptics_splitter.cpp:23-50 | `ids` and `objs` keep their contents and stay parallel: all tokens in alphabetical order, each with its own positions, then the base index with the document, neither when its input is empty |
| Indexer.AppendTokens | lib/basic_elliptics_splitter.cpp:34-37 | the tokens of the map are appended in alphabetical order, each position list at the same place of the other array |
| QueryText.OperatorsFound.Call | include/wookie/operators.hpp:124-142 | after each character the scanner holds the ranges between paired quote characters so far, the open quote if there is one, and all positions of minus signs |
| QueryText.Scan | include/wookie/operators.hpp:97-97 | the scanner handed back holds range i between quote characters 2i and 2i+1, half as many as there are quote characters, and all minus signs; its place in the text is reset by the move |
| QueryText.OperatorsFound.Moved | include/wookie/operators.hpp:119-122 | the vectors change hands, the other scanner's become empty, and the place of the scan is not taken over |
| QueryText.QuotesExact | include/wookie/operators.hpp:124-137 | ranges are in bounds, ordered, disjoint, free of quote characters and delimited by them |
| QueryText.QuotesCover | include/wookie/operators.hpp:124-137 | every quote character delimits a range, except an unpaired last one |
| QueryText.Prepare | include/wookie/operators.hpp:95-105 | the quoted phrases in order, and the text left by erasing each range at its offset in the original text, or the exception |
| QueryText.QuotedPhrasesExact | include/wookie/operators.hpp:100-101 | phrase i is the text between quote characters 2i and 2i+1 |
| QueryText.PrepareRemovesPhrases | include/wookie/operators.hpp:100-103 | the text left is the query without its phrases if and only if behind the first phrase that is not empty there are only empty ones that still start inside the shortened text |
| QueryText.EraseCutShort | include/wookie/operators.hpp:102-102 | an erasure that reaches behind the end, or whose length wraps around, leaves exactly the text in front of its offset |
| QueryText.ExciseThrowsIff | include/wookie/operators.hpp:100-103 | erasing ordered, disjoint ranges throws if and only if one of them starts behind the length less the lengths of those before it, also when an erasure is cut short |
| QueryText.PrepareThrowsIff | include/wookie/operators.hpp:100-103 | the query throws if and only if some phrase starts behind the text's length less the lengths of the phrases before it |
| QueryText.OnlyLastPhraseNonempty | include/wookie/operators.hpp:100-103 | that condition holds whenever every phrase but the last is empty |
| QueryText.StaleOffsetThrows | include/wookie/operators.hpp:100-103 | for `"aaaa" "b"` the second erasure starts past the end of the text |
| PhraseScan.ScanQuote | include/wookie/operators.hpp:206-253 | the scanning loop decides acceptance by the automaton |
| PhraseScan.AcceptsOnlyMatches | include/wookie/operators.hpp:219-253 | from every state consistent with what was read, acceptance implies a contiguous occurrence, for every phrase |
| PhraseScan.AcceptsEveryMatch | include/wookie/operators.hpp:219-253 | if the first token is not repeated, no occurrence ahead or under way is missed |
| PhraseScan.RepeatedFirstTokenIsMissed | include/wookie/operators.hpp:228-241 | for every phrase that repeats its first token there is a document that contains it and is rejected |
| PhraseScan.ExactIffFirstTokenOnce | include/wookie/operators.hpp:206-253 | the automaton is exact on all documents if and only if the phrase does not repeat its first token |
| PhraseScan.HitsExact | include/wookie/operators.hpp:193-210 | the iteration over the position map visits exactly its elements, in strictly increasing order of position |
| PhraseScan.ScanIsExact | include/wookie/operators.hpp:206-253 | for a duplicate-free phrase, acceptance means that a position is known and the phrase stands at consecutive positions |
| Search.BuildPositions | include/wookie/operators.hpp:192-202 | the position map of all postings of an entry; a position inserted first keeps its token |
| Search.InsertPositions | include/wookie/operators.hpp:200-201 | one posting's positions are added, a position already known keeps its token |
| Search.FirstPostingWins | include/wookie/operators.hpp:195-202 | of several postings with the same position the first one keeps it |
| Search.KnownPositionsExact | include/wookie/operators.hpp:192-202 | the rebuilt map holds exactly the positions of query tokens in the document, each with the identifier of the word standing there |
| Search.CheckQuotes | include/wookie/operators.hpp:204-256 | an entry is kept if and only if the automaton accepts every quoted phrase |
| Search.FindResult.Find | include/wookie/operators.hpp:145-178 | the request holds the phrases with their token lists and identifiers; the search is asked with the sorted vector of all tokens without duplicates; both tables between names and identifiers are filled; on an exception nothing changes |
| Search.RequestExact | include/wookie/operators.hpp:146-158 | each quote has its phrase, the tokens of its words and their identifiers; the request keeps the text left and its tokens |
| Search.AskedForEveryWord | include/wookie/operators.hpp:149-163 | the index search is asked for the words of the quoted phrases and of the text left, and for nothing else |
| Search.StrIndexesExact | include/wookie/operators.hpp:157-163 | that vector is in strict alphabetical order and has exactly the tokens of the phrases and of the rest |
| Search.TablesAreInverse | include/wookie/operators.hpp:167-173 | for an injective hash the two tables are inverse to each other and cover exactly the tokens |
| Search.FindResult.OnResultReady | include/wookie/operators.hpp:180-263 | the identifiers of the kept entries are appended in order, nothing on an error or an empty result, and the completion is called once |
| Search.QuoteOkExact | include/wookie/operators.hpp:192-255 | a phrase is accepted exactly when its token list stands in the document word after word |
| Search.IndexThenScan | include/wookie/operators.hpp:192-255 | from end to end: index a document, keep the query tokens' postings, rebuild the positions, scan; acceptance means that the token list of the phrase stands in the document |
| Search.SelectIsWanted | include/wookie/operators.hpp:189-260 | the entries kept are those whose documents contain the token list of every phrase |
| Search.WantedIdsExact | include/wookie/operators.hpp:189-260 | the identifiers delivered are those of the wanted entries, at increasing places of the answer |
| Search.DeliveredContainWords | include/wookie/operators.hpp:145-263 | every document delivered contains every word of the text left and of each phrase |
| Search.RunSearch | include/wookie/operators.hpp:145-263 | a whole search throws if and only if some phrase starts behind what the phrases before it have left; it fails when the index search fails; otherwise it delivers, in order, exactly the candidates that contain the token list of every phrase, and each contains every word of the text left |
| Search.LiteralPhraseIffDistinct | include/wookie/operators.hpp:151-155 | the token list stands for the literal phrase on all documents if and only if the phrase repeats no word |
| Crawl.EngineData.Download | lib/engine.cpp:137-141 | an unconditional fetch is queued, nothing else changes |
| Crawl.EngineData.FoundInPageCache | lib/engine.cpp:143-148 | the document becomes the claim unless one is in flight, and a fetch conditional on its time stamp is queued |
| Crawl.EngineData.InflightInsert | lib/engine.cpp:150-159 | true exactly if the URL was not in flight; an existing claim is kept |
| Crawl.EngineData.InflightErase | lib/engine.cpp:161-174 | the claim is returned and removed, or an empty document returned |
| Crawl.EngineData.StoreDocument | lib/engine.cpp:176-183 | the page is stored under its URL with content and time stamp, replacing an older one |
| Crawl.EngineData.AcceptedByFilters | lib/engine.cpp:196-199 | true if and only if every filter accepts |
| Crawl.EngineData.CheckLink | lib/engine.cpp:231-255 | true if and only if link and target are valid, the target is http or https with a host, differs from the page, and every URL filter accepts |
| Crawl.EngineData.ProcessLink | lib/engine.cpp:257-284 | a passing target not in flight is claimed, and fetched unless stored in this generation; otherwise nothing changes |
| Crawl.EngineData.ProcessReply | lib/engine.cpp:185-297 | the page is counted and stored under both URLs; if accepted, each distinct link of all parsers is processed in order |
| Crawl.EngineData.ProcessUrl | lib/engine.cpp:299-315 | the claim is erased; an error stops there; a 304 is processed with the content of the erased claim |
| CrawlPage.DomainFilterExact | lib/engine.cpp:51-70 | the filter exists exactly if the seed has a host, and lets through exactly the links that resolve to it |
| CrawlPage.LinksExact | lib/engine.cpp:219-227 | the links looked at are what any parser finds, in alphabetical order, each once |
| CrawlPage.GoodLinkIsClaimed | lib/engine.cpp:231-259 | a valid link with a valid http or https target that has a host, is another page and passes every URL filter ends up in flight |
| CrawlPage.CompletionClaimsGoodLinks | lib/engine.cpp:196-315 | after a completion whose content every filter accepts, the target of every good link of every parser is in flight, and being fetched or fresh |
| CrawlPage.NewClaimIsGoodLink | lib/engine.cpp:196-315 | every new claim is the target of a good link on a page that every filter accepts |
| CrawlPage.TargetsExact | lib/engine.cpp:196-255 | a page demands the targets of its good links and nothing else, and only if every filter accepts it |
| CrawlPage.DiscoverAllFetches | lib/engine.cpp:257-283 | each fetch added is for a different URL not in flight before, without condition if the page is not stored, else conditional on the stamp of the stored page, which is from before this generation |
| CrawlPage.CompletionExact | lib/engine.cpp:185-315 | a successful completion stores the content, on 304 that of the claim, under both URLs with the time of the reply and under no other, counts one page, takes its fetch out and adds fetches as above |
| CrawlPage.FailureOnlyErases | lib/engine.cpp:299-308 | a failed completion takes its fetch out, erases the claim and leaves everything else |
| CrawlPage.RequestsExact | lib/engine.cpp:137-148 | a request from outside queues one fetch; a cached document becomes the claim of a URL not in flight, and its stamp the condition |
| CrawlPage.HistoryExact | lib/engine.cpp:185-315 | each successful completion demands what its page shows, each request its URL, and only a failed completion counts as failed |
| CrawlPage.FailedExact | lib/engine.cpp:299-308 | over a run a URL counts as failed exactly if a completion of it came with an error |
| CrawlRuns.DiscoverAllEffect | lib/engine.cpp:231-284 | the link loop leaves the store alone, only adds claims and fetches, claims every passing target, and each new claim is an empty placeholder whose page is being fetched or fresh |
| CrawlRuns.CompletionEffect | lib/engine.cpp:185-315 | a successful completion makes its URL fresh, keeps fresh pages fresh, and then discovers links as above |
| CrawlRuns.StepKeepsCovered | lib/engine.cpp:185-315 | every step keeps: each demanded URL is outstanding, fresh or failed, and each claim not outstanding is fresh |
| CrawlRuns.Coverage | lib/engine.cpp:196-285 | in every run that ends with nothing outstanding, every passing link of every accepted page is stored in this generation or its fetch failed |
| CrawlReach.StepKeepsExpanded | lib/engine.cpp:207-285 | every step keeps: the links of every page stored in this generation have been demanded |
| CrawlReach.ReachableIsStored | lib/engine.cpp:185-315 | with honest replies and every successful 304 guarded, every URL reachable from the seed through pages whose fetch never failed is stored in this generation when nothing is outstanding |
| CrawlReach.ConsistentIffGuarded | lib/engine.cpp:258-314 | with honest replies the engine sees the links of every page it processes if and only if every successful 304 finds a claim made from outside, or a page that has the same links when it is empty |
| CrawlReach.NotModifiedLosesLinks | lib/engine.cpp:258-276 | a run in which a 304 to a link's conditional fetch empties the stored page, and the page behind it is never asked for although no fetch failed |
| CrawlReach.SeedRunIsNotGuarded | lib/engine.cpp:258-276 | in that run everything outside the engine is honest; it is the guard that fails |
| CrawlProgress.CompletionShape | lib/engine.cpp:185-315 | a completion takes one fetch out and adds only fetches of passing links whose pages are not fresh even afterwards |
| CrawlProgress.CompletionDecreases | lib/engine.cpp:185-315 | every completion, failed, redirected or late, of a page whose links lead into the set decreases the lexicographic measure of stale URLs, outstanding fetches of fresh URLs, and outstanding fetches |
| CrawlProgress.CrawlTerminates | lib/engine.cpp:185-315 | no infinite run of completions exists in which the links of the pages met lead into a finite set of URLs |
| CrawlProgress.FreshIsNotFed | lib/engine.cpp:258-283 | a step changes the number of fetches of a fresh URL only by its own completion or a request from outside |
| CrawlProgress.StoredPageIsNotRefetched | lib/engine.cpp:242-283 | once stored in this generation, a page stays so in every further run and no link has it fetched again |
| CrawlProgress.LinkFetchesAreCrawlable | lib/engine.cpp:51-70 | in every run links ask only for http and https URLs with a host, and only for the base host under the domain filter |
| CrawlRefetch.ClaimPersists | lib/engine.cpp:150-155 | a claim keeps its first document along every run until the URL's next completion |
| CrawlRefetch.NotModifiedStoresWinner | lib/engine.cpp:299-314 | a 304 stores the data of the record that holds the claim |
| CrawlRefetch.OutsideRefetchKeepsContent | lib/engine.cpp:143-148 | a refetch of a URL not in flight begun from outside and answered by 304 keeps the cached bytes |
| CrawlRefetch.LinkRefetchEmptiesContent | lib/engine.cpp:258-276 | a 304 for a claim that a link made always empties the stored page, leaves it fresh, and demands only the links seen on an empty page |
| CrawlRefetch.OtherClaimsAreEmpty | lib/engine.cpp:143-159 | in every run a claim not made from outside holds no data |
| CrawlRefetch.NotModifiedWithoutOutsideClaim | lib/engine.cpp:299-314 | in every run a 304 for a URL without a claim from outside empties the page, leaves it fresh, and demands only the links seen on an empty page |
| CrawlThreads.ActKeepsExclusive | lib/engine.cpp:150-174 | every single step of every thread keeps the claim bound |
| CrawlThreads.ClaimExclusion | lib/engine.cpp:257-283 | under every interleaving, threads holding a claim, outstanding link fetches and claims kept for fresh pages are at most one if the URL is in flight, plus the completed fetches no link asked for |
| CrawlThreads.AtMostOneLinkFetch | lib/engine.cpp:257-283 | from the start, with any number of threads and without such completions, at most one link fetch of a URL is outstanding, and its URL is in flight |
| CrawlThreads.NeverAskedHasOneFetch | lib/engine.cpp:257-283 | for a URL that nobody asks for from outside, at most one link fetch is ever outstanding, under every interleaving |
| CrawlThreads.SoloCompletionIsAtomic | lib/engine.cpp:299-315 | a handler that is not disturbed, run step by step, changes the shared state as the one-step model does and is idle again |
| CrawlThreads.SoloRequestIsAtomic | lib/engine.cpp:143-148 | a request with a cached document, taken as two steps, has the effect of the one step |
| CrawlThreads.ReclaimExact | lib/engine.cpp:143-147 | the repeated claim takes effect, with the stored document, only if the claim was erased meanwhile; the fetch is conditional on the stamp of that document |
| CrawlThreads.FailedReadIsFetched | lib/engine.cpp:261-266 | a page that cannot be read, or is not stored, is to be fetched without condition, and nothing else changes |
| CrawlOnce.NoneDecidedIsNotRefetched | lib/engine.cpp:257-283 | while stored pages can be read and no thread is past its decision on a fresh page, it stays fresh, none gets there, and no execution adds a link fetch of it |
| CrawlOnce.DecidedIsEnqueued | lib/engine.cpp:266-276 | a thread past its decision gets to hand the fetch to the downloader in at most one more step |
| CrawlOnce.FreshIsNotRefetchedIff | lib/engine.cpp:257-283 | in every state that any number of threads reach, no further execution in which stored pages can be read hands a fetch of a page stored in this generation to the downloader for a link, if and only if no thread is past its decision to fetch it |
| CrawlOnce.RefetchWindow | lib/engine.cpp:207-300 | from every state in which one thread has the page still to store and another meets a link to it, not in flight and not fresh, steps lead to a fresh page with a thread past its decision |
| CrawlCoverage.StepKeepsCovering | lib/engine.cpp:185-315 | every step of every thread keeps: each claim is outstanding, fresh, waiting to be asked for from outside, or in work; each demanded URL is that, or failed, or its link is still to be checked |
| CrawlCoverage.WatchedExact | lib/engine.cpp:185-315 | the history of threads: the start of a link scan demands what the page shows, a request its URL, and only an erasure with an error counts as failed |
| CrawlCoverage.CoverageUnderThreads | lib/engine.cpp:196-300 | under every interleaving, when all is at rest every URL asked for and every passing link of every accepted page is stored in this generation or a fetch of it failed |
| CrawlThreadReach.ErasedTells | lib/engine.cpp:299-314 | after erasing a claim a thread has the links that the web shows if and only if its reply was not a 304, or the claim held a document, or the page has the same links when it is empty |
| CrawlThreadReach.ActKeepsOpened | lib/engine.cpp:207-285 | every step of every thread keeps: the links of every page stored in this generation have been demanded, or a thread that stores the page is still in front of them |
| CrawlThreadReach.ReachableUnderThreads | lib/engine.cpp:185-315 | under every interleaving, with honest replies and every 304 guarded, when all is at rest every URL reachable from the seed through pages whose fetch never failed is stored in this generation |
| CrawlStops.StepLessens | lib/engine.cpp:185-315 | every step of every thread, on pages whose links lead into the set, decreases the lexicographic measure of stale URLs, fetches of fresh URLs anywhere, and work left |
| CrawlStops.ThreadsStop | lib/engine.cpp:185-315 | from no reachable state can the threads go on for ever without requests from outside, when the URLs asked for and the links of the pages met lead into a finite set and stored pages can be read |
| CrawlWindow.StoredPageIsRefetched | lib/engine.cpp:207-300 | with two threads a state is reachable from an empty start in which a page is stored in this generation and some further execution hands a fetch of it to the downloader for a link |
| Recovery.RecoveryHandler.OnRequest | processors/recovery.cpp:37-73 | 400 without a processor or count, 500 if a connection fails, each closing the response once; otherwise one processor per connection and nothing closed |
| Recovery.RecoveryHandler.OnUrls | processors/recovery.cpp:76-91 | the header announces the number of URLs, and every worker has taken its next URL in order; with fewer URLs than workers the launch gets to the first worker that would erase from the vector it runs over |
| Recovery.RecoveryHandler.ProcessNextUrl | processors/recovery.cpp:94-103 | the last URL of the stack is taken and read, or the worker finishes if there is none |
| Recovery.RecoveryHandler.FinishProcessor | processors/recovery.cpp:136-145 | exactly this worker leaves the processors, and the response is closed if none is left |
| Recovery.RecoveryHandler.OnRead | processors/recovery.cpp:106-132 | the data read is pushed; a failed read drops the URL and leaves its worker without a callback |
| Recovery.RecoveryHandler.OnPushed | processors/recovery.cpp:111-129 | the byte s is written after a successful push and f after a failed one, and the worker goes on to its next URL |
| Recovery.PushTellsOutcome | processors/recovery.cpp:111-123 | a completed push adds s or f by its outcome, and its URL to the answered ones |
| Recovery.BytesTellOutcomes | processors/recovery.cpp:94-134 | in every run byte i is s exactly if the i-th completed push succeeded, and the i-th answered URL is the one its worker was pushing |
| Recovery.LaunchedReads | processors/recovery.cpp:86-102 | worker k starts with the k-th URL from the end of the list |
| Recovery.NextUrlIsLast | processors/recovery.cpp:101-102 | after a push a worker reads the last URL of the stack |
| Recovery.StepConserves | processors/recovery.cpp:94-134 | every callback keeps the number of times each URL is on the stack, in work, answered or dropped |
| Recovery.StepKeepsInvariant | processors/recovery.cpp:94-145 | every callback keeps: processors are the unfinished workers, closed exactly when there are none, workers finish only on an empty stack, one byte per answer, stranded workers exactly if something was dropped |
| Recovery.LaunchIsSafeIff | processors/recovery.cpp:86-87 | the launch loop never erases from the vector it iterates over if and only if there are at least as many URLs as workers |
| Recovery.RunConserves | processors/recovery.cpp:76-145 | in every reachable state every URL is accounted for as often as it was found |
| Recovery.ClosedMeansComplete | processors/recovery.cpp:136-145 | at most one close; once closed nothing was dropped, the answered URLs are those found, and the bytes written are as many as announced |
| Recovery.ClosedIffNothingDropped | processors/recovery.cpp:94-145 | with no callback pending, the response is closed if and only if no read failed |
| Recovery.StrandedForever | processors/recovery.cpp:130-132 | a stranded worker stays so in every run, and the response is never closed |
| Recovery.RunIsBounded | processors/recovery.cpp:94-145 | a run has no more steps than three per URL on the stack plus what the workers have left to do |
| MetaInfo.Record.SetValue | include/wookie/application.hpp:72-81 | a field is added, a present one never overwritten |
| MetaInfo.Admit | processors/first_processor.cpp:81-83 | the admitted record has exactly URL and body of the request |
| MetaInfo.CountTerms | processors/feature_extractor.cpp:34-37 | exactly the words of the text, each with its number of occurrences |
| MetaInfo.ToPairs | processors/feature_extractor.cpp:42-44 | every entry of the map once |
| MetaInfo.ExtractFeatures | processors/feature_extractor.cpp:27-51 | unless set before, the field gives each word of the stored text its exact number of occurrences and sums up to the length of the text; every other field stays, and an ill-typed text leaves the record |
| MetaInfo.ExtractText | processors/html_processor.cpp:28-43 | the parse of the stored body becomes the text unless there is one; a page that cannot be parsed leaves the record; the record only grows |
| MetaInfo.AddStub | processors/stub_processor.cpp:30-39 | the stub field is added unless present; the record only grows |
| MetaInfo.RecordOnlyGrows | include/wookie/application.hpp:72-81 | along any sequence of stages that only add, the record extends the admitted one |
| Pipeline.DroppingKeepsSafe | include/wookie/application.hpp:231-239 | acknowledging a record that is safe further down loses no record |
| Pipeline.NewIsSafe | include/wookie/application.hpp:204-219 | whatever a step admits, and what a confirming stage makes of its record, is safe right after the step |
| Pipeline.StepKeepsInvariant | include/wookie/application.hpp:204-243 | every step keeps: admitted records, with exactly what the stages passed add to them, are in a queue or finished; what a stage confirmed is so behind that stage; only confirmed tasks are being acknowledged |
| Pipeline.StepKeepsGenuine | include/wookie/application.hpp:204-243 | every step keeps: each record in a queue, on its way, confirmed or finished is an admitted one processed by exactly the stages passed |
| Pipeline.NothingIsLost | include/wookie/application.hpp:204-243 | for any number of stages and any interleaving of redeliveries, failed pushes, lost replies and failed acknowledgements, every admitted record, processed by exactly the stages passed, is in some queue until the last stage has finished it, and the queues hold nothing else |
| Pipeline.RecordsExtendAdmitted | include/wookie/application.hpp:72-81 | with stages that only add, each such record extends an admitted one |
| Pipeline.GoodPassage | include/wookie/application.hpp:204-243 | from every state an admitted record can pass all stages, and ends finished with all that they add, every queue being as before |
| Pipeline.PutOnlyAdds | include/wookie/application.hpp:72-81 | a stage that sets one field only adds |
| Tfidf.Tf.FeedWord | include/wookie/tfidf.hpp:42-51 | the count of the word and the total grow by the number, in the arithmetic of size_t; no other count changes |
| Tfidf.ConversionsExact | include/wookie/tfidf.hpp:42-51 | conversions to size_t and int keep the number modulo 2^64 and 2^32 and land in range |
| Tfidf.FeedKeepsTotal | include/wookie/tfidf.hpp:42-51 | feeding keeps the total equal to the sum of all counts modulo 2^64 |
| Tfidf.TfIdf.Merge | include/wookie/tfidf.hpp:95-99 | every count of the other table is added after narrowing to int, also when it is the same table; another table stays; the total stays the sum |
| Tfidf.TfIdf.FeedWordForOneFile | include/wookie/tfidf.hpp:101-103 | the word joins the set of the current document |
| Tfidf.TfIdf.UpdateCollectedDf | include/wookie/tfidf.hpp:105-110 | each word of the set is counted once more, the set is emptied, the total stays the sum |
| Tfidf.TfIdf.UpdateTfidf | include/wookie/parser.hpp:189-202 | a document raises the document frequency of each of its words by one, and the term count of each by its occurrences |
| Sharding.LoadDocument | test/similarity/elliptics_parse_docs.cpp:172-188 | a document that loads is counted once per word, one that throws not at all |
| Sharding.LoadDocuments | test/similarity/elliptics_parse_docs.cpp:165-189 | one thread's table has for every word the number of documents of its stride that contain it |
| Sharding.ShardsPartition | test/similarity/elliptics_parse_docs.cpp:166-166 | the strides of all threads together count every document exactly once |
| Sharding.DocFreqCounts | test/similarity/elliptics_parse_docs.cpp:166-189 | the sequential frequency is the number of documents that contain the word |
| Sharding.ShardFreqCounts | test/similarity/elliptics_parse_docs.cpp:166-189 | the frequency of a thread is the number of documents of its stride that contain the word |
| Sharding.AddDocuments | test/similarity/elliptics_parse_docs.cpp:323-356 | joining and merging gives for every word the sum of all threads' counts, each narrowed to int, and the total is the sum of all counts |
| Sharding.MergedExactIff | include/wookie/tfidf.hpp:95-99 | the sum of the narrowed counts is the true sum if and only if no thread counted the word 2^31 times |
| Sharding.ShardedIsSequentialIff | test/similarity/elliptics_parse_docs.cpp:351-356 | the merged table agrees with a sequential count of a word exactly under that condition |
| Sharding.ShardedIsSequential | test/similarity/elliptics_parse_docs.cpp:351-356 | for fewer than 2^31 documents the merged table is the sequential count for every word |
| Murmur.Murmur | include/wookie/hash.hpp:26-65 | the loop over whole blocks, the tail and the finaliser compute the finalised block-by-block state |
| Murmur.Switch | include/wookie/hash.hpp:47-58 | the fall-through switch absorbs the remaining bytes as the little-endian word padded with zero bytes |
| Murmur.KnownHash | include/wookie/hash.hpp:26-65 | the hash of `abcdefghi` with seed 2, a block, a tail and both signs in the finaliser, is 0x49f4acc38a960c94 |
| Murmur.TimesInjective | include/wookie/hash.hpp:28-28 | multiplication by the constant modulo 2^64 is injective |
| Murmur.XorShiftIsItsOwnInverse | include/wookie/hash.hpp:40-40 | the unsigned xor-shift by 47 undoes itself |
| Murmur.MixInjective | include/wookie/hash.hpp:39-41 | mixing a block loses nothing |
| Murmur.AbsorbInjective | include/wookie/hash.hpp:39-44 | the step is injective in the state and in the block |
| Murmur.OneBlockIsNeverLost | include/wookie/hash.hpp:36-58 | equal-length inputs that differ in exactly one aligned block reach different states before the finaliser, for every seed |
| Murmur.TailIsNeverLost | include/wookie/hash.hpp:47-58 | the same for inputs that differ only behind the last whole block |
| Murmur.SignedXorShiftTwoToOne | include/wookie/hash.hpp:60-62 | the signed xor-shift maps a word and its complement together, and nothing else |
| Murmur.FinaliserCollisions | include/wookie/hash.hpp:60-62 | two states get the same hash if and only if they are equal or complementary, or become complementary after the first shift and the multiplication |
| NGrams.GenerateNgrams | include/wookie/parser.hpp:136-160 | the vector ends strictly sorted with exactly its old elements and the packed concatenations of four characters in a row |
| NGrams.WindowIs | include/wookie/parser.hpp:142-149 | a window is four characters in a row, joined |
| NGrams.PackIsLittleEndian | include/wookie/parser.hpp:151-152 | the number is the first eight bytes, little-endian, as a signed 64-bit number |
| NGrams.PackExact | include/wookie/parser.hpp:148-154 | two windows pack to the same number if and only if their first eight bytes agree up to trailing zeros |
| NGrams.PackIsFaithful | include/wookie/parser.hpp:48-51 | windows of at most eight bytes without a zero byte pack to the same number if and only if they are the same |
| NGrams.TwoByteTextIsFaithful | include/wookie/parser.hpp:48-51 | the size check on NGRAM_NUM suffices for characters of at most two bytes |
| NGrams.SameNgramsSameWindows | include/wookie/parser.hpp:136-160 | two texts with faithful windows have the same n-gram vector if and only if they have the same windows |
| NGrams.LongOrZeroWindowsCollide | include/wookie/parser.hpp:152-152 | longer windows, or windows with a zero byte, collide |
| Similarity.Intersect | test/similarity/similarity.hpp:22-34 | sorted, every value as often as both inputs have it; the buffer never overflows |
| Similarity.IntersectionOfSets | test/similarity/similarity.hpp:22-34 | of two strictly sorted vectors it is the strictly sorted vector of the common elements |
| Similarity.LearnElement.constructor | test/similarity/similarity.hpp:36-47 | label -1, not valid, everything else empty |
| Similarity.LearnElement.GenerateFeatures | test/similarity/similarity.hpp:51-69 | five features appended and valid set, or nothing changed and false if a document has no n-grams |
| Similarity.FeaturesCountWindows | test/similarity/similarity.hpp:51-69 | for faithful windows the features are the numbers of different windows of both documents, in common, of the request, and in common to all three |

## Left out

- Ranges of int: positions in the index and in the query text are unbounded, so texts of 2^31 words or characters are not covered.
- Search.RunSearch: the token hash is assumed injective on the tokens of the query and the index search to answer as promised; the constructor that waits is one call, without the condition variable.
- QueryText.Prepare: models `std::string::replace` for arguments converted to size_t; strings longer than int are not covered.
- Crawl.EngineData.ProcessLink: the read of a stored page is taken to succeed; the source downloads on any read error, also of a fresh page. For threads a failed read is a step (CrawlThreads.Act): claim exclusion, coverage and reachability hold with it, termination and CrawlOnce do without it. The callbacks of processors with a cached document are not called.
- Crawl.EngineData.ProcessReply: the callbacks of processors and fallback processors, also those with cached documents, are not called, so a processor that itself calls `download` is not covered; waiting for write results and logging are left out.
- CrawlProgress.StoredPageIsNotRefetched: covers completions handled one at a time and readable pages; CrawlOnce.FreshIsNotRefetchedIff is the statement for threads.
- CrawlRuns.Coverage: covers completions handled one at a time; CrawlCoverage.CoverageUnderThreads is the statement for threads. Completions are assumed not to be stamped before the generation time, and writes to succeed.
- CrawlReach.ReachableIsStored: covers completions handled one at a time; CrawlThreadReach.ReachableUnderThreads is the statement for threads. The web is assumed not to change during a run: replies for one URL end at the same URL and show the same links.
- CrawlProgress.CrawlTerminates, CrawlStops.ThreadsStop: requests from outside are each one more fetch and may go on for ever.
- CrawlThreads.SoloCompletionIsAtomic: the fine grain is modelled on values, one record of all threads, since its steps belong to several threads at once; the class methods are the coarse grain.
- URL parsing and resolution, redirects inside the downloader, text and port filters, the href parser, encodings and file types.
- Recovery.RecoveryHandler.OnUrls: with fewer URLs than workers the source erases from the vector it iterates over; what happens from there on is undefined and not modelled. The launch loop is one step that no callback of a read interleaves with; with callbacks on another thread the stack could run empty during the loop.
- The search for URLs that fails in recovery: the response is then never closed; no state follows from it.
- MetaInfo.ExtractText: the page parser is an arbitrary function that may throw; packing of field values is not modelled, a value of another type is an exception.
- MetaInfo.ToPairs: leaves the order of the hash map open.
- Pipeline.NothingIsLost: the queue service is a contract; error replies to the caller of a failed push are not part of the state.
- `tf::freq` and `tfidf::top`: floating-point frequencies and a sort by a comparator that is not a strict weak order.
- Sharding.LoadDocuments: the normalize path, which counts the text of a reply once more, is left out.
- Sharding.AddDocuments: the threads are run one after another, as each works on a parser of its own; packing, sending, throttling of pending writes, normalize requests and the n-grams of the learn elements are left out.
- Sharding.LoadDocument: an exception is taken to come from reading the file, before any word is counted, or from behind the counting, which it does not undo; one in the middle of the counting is not covered.
- Murmur.FinaliserCollisions: the third case is stated on the state behind the first shift and the multiplication.
- NGrams.GenerateNgrams: splitting a text into characters is a parameter.
- Training on the features, and the packing of learn elements.
- The HTTP server, the URL fetcher, Elliptics sessions, msgpack, configuration, logging, timers and command-line handling.
