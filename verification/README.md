# Verified model of the IPTV proxy

This project models the parts of the proxy where several behaviours have to fit together, and proves
what they promise, for all inputs and all executions:

- the **stream pool**, in which many clients share one segmenter process per stream key;
- the **playlist pipeline**: grouping by base name, priorities, merge and remove duplicates, sorting in
  natural order, and the final pass that folds duplicates into one channel with a fallback list;
- the **M3U** parser and printer, for the IPTV form of the EXTM3U and EXTINF tags of sections 4.3.1.1
  and 4.3.2.1 of RFC 8216;
- the **HTTP cache**: its reader, its four files per entry and its cleaner;
- the **buffering decoder** and the **merged programme guide**;
- the **stream response** with its retries and error streamers.

`dafny verify dfyconfig.toml` checks everything.

## How the model is built

Concurrent parts are step machines. A state is a value, `Enabled` says which steps may be taken, `Apply`
what they do, and theorems quantify over every run. In the stream pool (`stream_pool.dfy`) a step is one
access to shared state, so lookup and registration of a joiner are two steps, and so are the return of a
permit and the removal from the map. In the cache (`http_cache.dfy`) a step is one file-system call, any
call may fail, the process may die between any two, and files may be deleted from outside at any moment.
The classes of the sources are classes here too. Where a class and a step machine describe the same code
they use the same functions (`Segmenters.Signals`), or a lemma connects them (`HttpReaders.CloseRuns`,
`HttpStore.CleanedIsRemaining`).

Sequential code that changes things in place is written as methods over classes or maps, each tied by its
`ensures` to a specification that is a function of the old state; what the sources promise is proved about
that specification. A channel pointer is a handle, an index into `ChannelStore.Store.cells`, so that maps
keyed by channels and lists of channels can be stated exactly. Iteration over a Go map takes the keys in an
arbitrary order (`Buckets.KeysOf`), and the contracts do not depend on it. `sort.Slice` is known by its
contract only: given a strict weak order, a sorted permutation, not a stable one. That the comparators are
strict weak orders is proved.

Regular expressions of rules, templates, URL parsing, link generation, hashing and gzip are function
parameters. Of gzip it is assumed that decompressing undoes compressing, and of an empty pattern that it
matches everything; no other property is assumed of any of them.

## Where the code differs from its documentation or from what one might expect

- Several empty patterns in a rule: the documentation ranks an empty pattern below every pattern with text.
  The code remembers only the last empty pattern as such. `PatternMatching.TwoPassesAsIntended` gives the
  exact condition under which the documented priority results, `PatternMatching.TwoBlanksMisplace` an input
  for which it does not.
- A tvg-id that is a URL is rewritten when its channel is proxied, before the id is recorded. A later
  channel with an id is folded into an earlier one if and only if some earlier live channel has the id and
  proxying keeps it (`PlaylistIds.FoldedIffStarted`, for ids that are not themselves such a link); all
  channels of an id become one exactly when there is only one or the first keeps the id
  (`PlaylistIds.AllFoldIffFirstKeeps`). `PlaylistIds.UrlIdExample` is an input where two stay. The closed
  form of the fold has the precondition that proxying changes no id.
- A fallback list need not start with the best stream. `PlaylistFold.HeadIsTopIff` gives the exact
  condition: the first channel of the id has a URI, or a later one outranks it, or the second is the best of
  the later ones. `DuplicatesEndToEnd.HeadStreamNeedNotBeBest` is an input where it does not hold. It needs a
  channel without a URI. Parsing never yields one (`M3uFiles.DecodedHasUri`), the duplicate rules take no URI
  away (`DuplicatesEndToEnd.RulesKeepUris`), and every other place that sets a URI sets a parsed one. Where
  every channel has one, the best stream comes first in the list of every id
  (`PlaylistFold.UrisMakeTheHeadBest`), in particular in those of merged groups
  (`DuplicatesEndToEnd.MergeThenProcess`). The rest of the list is never sorted by priority.
- A joiner whose creator is refused the permit waits until its own context ends, and such a joiner is
  reachable (`StreamPoolSafety.WhoFreesAWaitingClient`, `StreamPoolSafety.EvictedForGood`,
  `StreamPoolSafety.JoinerOfEvicted`).
- Digit runs that do not fit 64 bits compare as zero. `NaturalOrder.NumericOrderIff` says exactly which
  numbers stand in numeric order; different names may tie (`NaturalOrder.DifferentNamesMayTie`).
- A track without a name is read back without one if and only if none of its attribute values has a comma
  (`M3uRoundTrip.EmptyNameReadBack`).
- Buffering with restarts is invisible exactly for decoders whose errors are final
  (`Prefetch.InvisibleIffFinal`); `Prefetch.RestartMayPassError` is an input where an item from behind an
  error comes first. The XML decoder is not of that kind: it reports a malformed element and goes on. The
  restart after the channel phase of the guide can therefore lose an error: the goroutine reads on behind it
  and notes the end of file in its place. `GuideErrors.ErrorUnreportedIff` says exactly when, and
  `GuideErrors.MalformedElementUnreported` is an input. The guide is sound all the same, and no programme
  that was read is lost (`GuideWriter.WriteTo`).

## Model

| member | source | states |
|---|---|---|
| Segmenters.Segmenter.SetReady | internal/streampool/segmenter.go:85-90 | only the first call sets the start error and closes `ready` |
| Segmenters.Segmenter.RemoveClient | internal/streampool/segmenter.go:132-136 | one client fewer, and the empty signal whenever the count is then zero or less |
| Segmenters.Segmenter.Stop | internal/streampool/segmenter.go:142-145 | cancels the segmenter and announces it empty, nothing else changes |
| Segmenters.ClientReader.Close | internal/streampool/client_reader.go:11-18 | the first Close deregisters the client, any later one changes nothing |
| Segmenters.EmptyExactlyAfterLastDeparture | internal/streampool/segmenter.go:128-136 | after n departures the segmenter is announced empty if and only if n reaches the number of clients |
| SegmenterPools.SegmenterPool.GetOrCreate | internal/streampool/segmenter_pool.go:21-36 | returns what the key maps to without change, or links a fresh segmenter counting one client; an error leaves the map alone |
| SegmenterPools.SegmenterPool.Remove | internal/streampool/segmenter_pool.go:38-50 | unlinks and stops exactly what the key maps to, every other segmenter untouched |
| SegmenterPools.SegmenterPool.StopAll | internal/streampool/segmenter_pool.go:52-62 | empties the map and stops every segmenter that was in it |
| StreamPoolSafety.StepKeepsInv | internal/streampool/streampool.go:62-131 | every step of a client, owner, process, poll or watcher keeps ownership, client accounting, permit accounting and the two cancellation rules |
| StreamPoolSafety.EveryRunIsSafe | internal/streampool/streampool.go:62-131 | those invariants hold in every state of every run |
| StreamPoolSafety.OneProcessPerKey | internal/streampool/streampool.go:71-77 | in every reachable state at most one segmenter process runs per stream key |
| StreamPoolSafety.OnlyItsOwnRemoveUnlinks | internal/streampool/segmenter_pool.go:38-50 | a linked segmenter stays under its key until the removal by its own creator or owner, and that removal unlinks it: no removal ever hits another creator's segmenter |
| StreamPoolSafety.UnlinkedForGood | internal/streampool/segmenter_pool.go:21-50 | a segmenter that has been unlinked is never linked again |
| StreamPoolSafety.PermitsConserved | internal/streampool/streampool.go:71-79 | permits taken equal the owners between acquire and release, and live processes never exceed a semaphore's size, although the permit is returned before the map entry goes |
| StreamPoolSafety.OnlyCreatorsTakePermits | internal/streampool/streampool.go:71-83 | a permit is taken exactly when a creator acquires and returned exactly when an owner releases; joiners take none |
| StreamPoolSafety.CountIsJoinsMinusDepartures | internal/streampool/segmenter.go:128-136 | the client counter always equals one for the creator plus joins minus departures, over whole runs |
| StreamPoolSafety.DepartsExactlyOnce | internal/streampool/streampool.go:85-102 | every call that was registered and has ended has deregistered exactly once, except the creator refused its permit |
| StreamPoolAnswers.AnswersAreRight | internal/streampool/streampool.go:85-102 | in every reachable state whoever has a reader has one of a stream reported ready without an error, whoever is turned away for a failed start one reported with an error, and a closed reader was of the first kind |
| StreamPoolAnswers.FirstReportCounts | internal/streampool/segmenter.go:77-112 | the start error of a ready segmenter is what its first report said, and no later one changes it; the exit of a process is reported as an error exactly when it failed and was not cancelled |
| StreamPoolAnswers.ReaderBySeeingReady | internal/streampool/streampool.go:85-102 | a client comes to a reader by one step only: finding `ready` closed and no start error |
| StreamPoolAnswers.EveryEndHasItsReason | internal/streampool/streampool.go:62-103 | a call that ends goes back to the one step that decides so: segmenter not built, no permit, own context done, start error seen, or reader closed |
| StreamPoolAnswers.ExitedBecause | internal/streampool/segmenter.go:77-82 | a process that has ended in success or failure ran and exited that way, or could not be started, which is a failure |
| StreamPoolAnswers.RemovedIsStopped | internal/streampool/segmenter_pool.go:38-50 | in every reachable state a segmenter whose owner is through with its removal has been cancelled and announced empty, and so has what a creator without permit unlinked once its call has ended |
| StreamPoolSafety.AnnouncedOnlyAfterZero | internal/streampool/segmenter.go:132-155 | a linked segmenter is announced empty only if at an earlier moment its count was zero |
| StreamPoolSafety.CancelledOnlyAfterZero | internal/streampool/streampool.go:116-126 | a process is cancelled while its segmenter is linked only after its count had reached zero |
| StreamPoolSafety.WhoFreesAWaitingClient | internal/streampool/streampool.go:85-90 | in every phase of its segmenter, the moves of a waiting client are its own context, and `ready` if and only if the outcome has been reported |
| StreamPoolSafety.EvictedForGood | internal/streampool/streampool.go:72-75 | a segmenter whose creator was refused the permit never becomes ready |
| StreamPoolSafety.JoinerOfEvicted | internal/streampool/streampool.go:66-90 | a run in which a joiner waits on such a segmenter |
| StreamPoolReclamation.StepDescends | internal/streampool/streampool.go:62-131 | every step other than a new request decreases a measure |
| StreamPoolReclamation.RestMeansReclaimed | internal/streampool/streampool.go:105-131 | a run can rest only where every call has ended, the map is empty and every permit is back |
| StreamPoolReclamation.Reclamation | internal/streampool/streampool.go:62-131 | once no requests arrive a run is bounded, and it rests if and only if everything is reclaimed, also when a join lands after the empty signal |
| StreamPoolReclamation.ReclaimingContinuation | internal/streampool/streampool.go:105-131 | from every reachable state some continuation without new requests reclaims everything |
| NaturalOrder.NaturalLess | internal/listing/m3u8/rules/playlist/sort_natural.go:8-45 | terminates and equals lexicographic order on token keys: digit runs by value, numbers before other characters, the end first |
| NaturalOrder.ExtractNumber | internal/listing/m3u8/rules/playlist/sort_natural.go:47-59 | the length of the leading digit run and its value, zero when it does not fit 64 bits |
| NaturalOrder.KeyLessIs | internal/listing/m3u8/rules/playlist/sort_natural.go:8-45 | one key is less than another if and only if at the first difference its token comes first, numbers by value and before anything else, other bytes by code, or it ends there and the other does not |
| NaturalOrder.KeyIs | internal/listing/m3u8/rules/playlist/sort_natural.go:13-59 | a key stands for the whole name, cut into runs of digits that are as long as they can be, with their values or zero beyond 64 bits, and single other bytes |
| NaturalOrder.NaturalIsStrictWeak | internal/listing/m3u8/rules/playlist/sort_natural.go:8-45 | natural order is a strict weak order, and names tie exactly when their token keys are equal |
| NaturalOrder.DifferentNamesMayTie | internal/listing/m3u8/rules/playlist/sort_natural.go:20-30 | "7" and "07" differ and tie |
| NaturalOrder.NumericOrderIff | internal/listing/m3u8/rules/playlist/sort_natural.go:20-30 | two numbers stand in numeric order if and only if both fit 64 bits, or the first does not and the second is zero or does not either and is no larger |
| NaturalOrder.TooLargeTiesWithZero | internal/listing/m3u8/rules/playlist/sort_natural.go:53-56 | any digit string above the 64-bit range ties with "0" |
| SortRule.ChannelLessIsStrictWeak | internal/listing/m3u8/rules/playlist/sort.go:24-38 | the channel comparator (pattern rank, missing field last, natural order) is a strict weak order |
| SortRule.GroupLessIsStrictWeak | internal/listing/m3u8/rules/playlist/sort.go:56-63 | so is the comparator of group names |
| SortRule.RankIs | internal/listing/m3u8/rules/playlist/sort.go:100-118 | the rank in a configured order is the least textual match, without one the least empty pattern, without either behind all |
| SortRule.SortGrouped | internal/listing/m3u8/rules/playlist/sort.go:44-86 | a permutation in which each group is contiguous, groups follow the comparator of their names and each group is sorted |
| SortRule.Apply | internal/listing/m3u8/rules/playlist/sort.go:17-87 | channels unchanged, the order permuted. When grouping, of any two channels the earlier has the value of the grouping field (empty without selector or field) with the smaller rank in the configured order, or the same rank and no natural order against it. Within a group, and everywhere when not grouping, channels with the sort field come before those without, smaller ranks first, natural order within a rank |
| PatternMatching.TwoPassesAsIntended | internal/listing/m3u8/rules/playlist/pattern_matcher/pattern_matcher.go:73-109 | the two-pass priority is the documented one if and only if no earlier one of several empty patterns precedes the first textual match |
| PatternMatching.OneBlankIsEnough | internal/listing/m3u8/rules/playlist/pattern_matcher/pattern_matcher.go:73-109 | with at most one empty pattern: the first textual match decides, else the empty pattern's rank |
| PatternMatching.TwoBlanksMisplace | internal/listing/m3u8/rules/playlist/pattern_matcher/pattern_matcher.go:79-81 | a concrete rule with two empty patterns for which the documented priority is missed |
| PatternMatching.PatternMatcher.ComputePriorities | internal/listing/m3u8/rules/playlist/pattern_matcher/pattern_matcher.go:73-93 | every channel's collected priorities, and the rank of the last empty pattern |
| PatternMatching.PatternMatcher.SetPriorities | internal/listing/m3u8/rules/playlist/pattern_matcher/pattern_matcher.go:95-109 | sets each collected channel's priority to its largest non-empty rank or the empty rank, independent of map order |
| PatternMatching.PatternMatcher.GroupChannels | internal/listing/m3u8/rules/playlist/pattern_matcher/pattern_matcher.go:28-62 | returns exactly the base-name classes of at least two channels with a changed field, each a permutation in non-increasing priority; only their members get priorities |
| PatternMatching.GroupMembers | internal/listing/m3u8/rules/playlist/pattern_matcher/pattern_matcher.go:31-52 | a channel is in a returned group if and only if its base name is the group's, so groups are disjoint, free of repetitions and of size at least two |
| PatternMatching.GroupReturnedIff | internal/listing/m3u8/rules/playlist/pattern_matcher/pattern_matcher.go:36-52 | a name is returned if and only if two channels reduce to it and the field of one that does is something else |
| PatternMatching.HeadIsBest | internal/listing/m3u8/rules/playlist/pattern_matcher/pattern_matcher.go:54-59 | the head of a group has the greatest priority of its class |
| PatternMatching.BaseNameIs | internal/listing/m3u8/rules/playlist/pattern_matcher/pattern_matcher.go:111-131 | the base name: every pattern stripped in turn from what the one before has left, spaces squeezed at the end; the field itself without patterns, nothing without the field |
| DuplicateRules.ProcessGroups | internal/listing/m3u8/rules/playlist/remove_duplicates.go:32-93 | whether the groups fail and, if not, every resulting channel are determined by the groups alone, whatever the order they are visited in |
| DuplicateRules.MergeGroup | internal/listing/m3u8/rules/playlist/merge_duplicates.go:34-92 | every member of one group gets the merge outcome computed from the head, nobody else changes; fails if and only if template or URL fails |
| DuplicateRules.RemoveGroup | internal/listing/m3u8/rules/playlist/remove_duplicates.go:33-91 | the same for remove-duplicates |
| DuplicateRules.Apply | internal/listing/m3u8/rules/playlist/merge_duplicates.go:25-31 | grouping followed by all groups: each member its outcome, all other channels as grouping left them |
| FinalValues.ApplyRule | internal/listing/m3u8/rules/playlist/merge_duplicates.go:42-91 | either rule, field by field of every channel: with `v` the text rendered from the head, each member of a merged group, and the head of a deduplicated one, has the name, the parsed URL, the attribute or the tag that the selector names set to `v`, a merged one also the head's tvg-id; a deduplicated group's other members are only marked removed; everything else is as grouping left it |
| FinalValues.FailsIff | internal/listing/m3u8/rules/playlist/remove_duplicates.go:65-84 | a group fails if and only if its text cannot be rendered, or is to be a URL and does not parse |
| FinalValues.SetThenField | internal/listing/m3u8/rules/playlist/merge_duplicates.go:74-88 | a selector reads back the field it has set |
| DuplicatesEndToEnd.MergeUnifiesIds | internal/listing/m3u8/rules/playlist/merge_duplicates.go:42-91 | after a merge every member has the id the head ends with |
| DuplicatesEndToEnd.MergedGroupFoldsIntoOne | internal/listing/m3u8/processor.go:39-62 | merge then fold: a merged group yields one result channel with the common id, of greatest priority among the live channels with a URI that carry it; its list holds the stream of every live member with a URI, and which stream is first and exactly when that is a best one are stated |
| DuplicatesEndToEnd.MergeThenProcess | internal/listing/m3u8/processor.go:35-70 | the merge rule followed by the final pass ends with that conclusion for every returned group with a live member; if every channel had a URI before, the list of each such group starts with the stream of its survivor |
| DuplicatesEndToEnd.RulesKeepUris | internal/listing/m3u8/rules/playlist/merge_duplicates.go:79-83 | if every channel has a URI before a duplicate rule, every channel has one after it |
| DuplicatesEndToEnd.RemoveKeepsOnlyHeads | internal/listing/m3u8/rules/playlist/remove_duplicates.go:40-89 | all members but the head end removed, the head keeps its flag and has the greatest priority, channels outside groups are untouched |
| DuplicatesEndToEnd.HeadStreamNeedNotBeBest | internal/listing/m3u8/processor.go:101-122 | three channels of one id whose fallback list, after the pass, starts with the worse of two streams |
| ChannelStore.Store.Add | internal/listing/m3u8/store/store.go:17-21 | appends a channel, giving it an id made from tvg-name or its name when it has none |
| ChannelStore.EnsuredId | internal/listing/m3u8/store/store.go:35-44 | a usable tvg-id stays, else it is the hash of a usable tvg-name, else of the name; no other attribute or field changes |
| PlaylistProcessor.Processor.AddStreamToChannel | internal/listing/m3u8/processor.go:101-122 | a better duplicate takes over the list in front, any other is appended, one without URI changes nothing |
| PlaylistProcessor.Processor.ProxyChannelAttributes | internal/listing/m3u8/processor.go:124-142 | every attribute that is a URL becomes its link under the name of the playlist, and all else stays; fails exactly when one of those links cannot be made |
| PlaylistProcessor.Processor.UpdateUris | internal/listing/m3u8/processor.go:64-68 | the URI of every proxied channel with streams is replaced, all other fields and channels unchanged, whatever the map order |
| PlaylistProcessor.Processor.Process | internal/listing/m3u8/processor.go:39-70 | the whole pass computes the fold over the store and the channels it keeps |
| PlaylistFold.UrisOfResult | internal/listing/m3u8/processor.go:64-68 | after the pass a channel of a proxied playlist with streams links to its whole list under its name, unless the link cannot be made; every other URI, and everything else, is untouched |
| PlaylistFold.ListedStreamsAre | internal/listing/m3u8/processor.go:90-99 | every stream of a list is that of a live channel: the name of its playlist, its URI, its hidden flag |
| PlaylistIds.AttributesAre | internal/listing/m3u8/processor.go:39-62 | after the pass, a channel of a proxied playlist that was live and not folded on arrival has exactly its URL attributes replaced by their links; every other channel has its own attributes |
| PlaylistIds.PassFailsIff | internal/listing/m3u8/processor.go:49-53 | the pass fails if and only if some such channel has a URL attribute for which no link can be made |
| PlaylistFold.FoldClosedForm | internal/listing/m3u8/processor.go:39-62 | per id one survivor, the earliest of greatest priority; its list is the strict running-maximum records reversed, then the others in store order |
| PlaylistFold.MembersAre | internal/listing/m3u8/processor.go:73-81 | the folded channels of an id are its first live channel and all live ones with a URI |
| PlaylistFold.MembersInOrder | internal/listing/m3u8/processor.go:101-104 | they come in store order and only the first may lack a URI |
| PlaylistFold.HeadStream | internal/listing/m3u8/processor.go:106-121 | which member's stream comes first, by position: the survivor's, or the second's if the survivor has no URI, the list then being the others in store order |
| PlaylistFold.HeadIsTopIff | internal/listing/m3u8/processor.go:106-121 | no member with a URI outranks the first stream's if and only if the first member has a URI, or a later one outranks it, or the second is the best of the later ones |
| PlaylistFold.HeadOfId | internal/listing/m3u8/processor.go:39-62 | both of these for the list of every id after the whole pass |
| PlaylistFold.UrisMakeTheHeadBest | internal/listing/m3u8/processor.go:39-62 | where every live channel has a URI, every list starts with the stream of the survivor, and no live channel of the id outranks it |
| PlaylistFold.StreamsConserved | internal/listing/m3u8/processor.go:55-59 | as multisets, all fallback lists together hold one stream per live channel with a URI |
| PlaylistFold.ResultShape | internal/listing/m3u8/processor.go:156-164 | the result is a subsequence of the store with distinct ids, has every live id, and its lists conserve the streams |
| PlaylistIds.FoldedOrKept | internal/listing/m3u8/processor.go:44-61 | a channel for which an entry is found makes no new one, at most it takes the entry over; any other live channel starts its own |
| PlaylistIds.RecordedIffStarted | internal/listing/m3u8/processor.go:83-88 | an id that is nobody's link is recorded if and only if a live channel that has and keeps it has been seen |
| PlaylistIds.FoldedIffStarted | internal/listing/m3u8/processor.go:44-61 | a live channel with such an id is folded if and only if an earlier live channel has the id and keeps it |
| PlaylistIds.AllFoldIffFirstKeeps | internal/listing/m3u8/processor.go:49-53 | all live channels of such an id become one if and only if there is one or the first keeps the id |
| PlaylistIds.UrlIdsAreNotFolded | internal/listing/m3u8/processor.go:124-142 | of two live channels with one id both stay if and only if the first one's id is rewritten |
| PlaylistIds.UrlIdExample | internal/listing/m3u8/processor.go:49-53 | a concrete store in which both stay |
| M3uText.StringLessIsStrictTotal | internal/parser/m3u8/encoder.go:55 | the order of printed pairs and tag keys is strict and total |
| M3uCodec.Decoder.ParseNextTrack | internal/parser/m3u8/decoder.go:82-124 | the line loop returns the next item and leaves the lines behind it, as the recursive reading of the lines says |
| M3uCodec.Decoder.Decode | internal/parser/m3u8/decoder.go:49-80 | header handling, errors and the final end of file over the decoder state |
| M3uCodec.Encoder.WriteHeader | internal/parser/m3u8/encoder.go:39-63 | writes one header line with the pairs sorted, at most once |
| M3uCodec.Encoder.Encode | internal/parser/m3u8/encoder.go:26-120 | what is appended in every case: header with the first track, sorted pairs and tags, the URI line; a closed encoder writes nothing, a missing URI is an error after the other lines |
| M3uMatching.PairsInOrder | internal/parser/m3u8/encoder.go:74-82 | attributes are printed in byte order of their printed pairs: of two, the earlier is the same or smaller at the first difference or ends there |
| M3uMatching.TagsInOrder | internal/parser/m3u8/encoder.go:94-99 | tags are printed in strict byte order of their keys |
| M3uReading.LinesAre | internal/parser/m3u8/decoder.go:85-86 | the lines scanned are the pieces of the text between newlines, each without one carriage return at its end, and without an empty last piece |
| M3uReading.TrimIs | internal/parser/m3u8/decoder.go:86 | trimming takes spaces only, from both ends, and leaves none there |
| M3uReading.ReadingIs | internal/parser/m3u8/decoder.go:82-124 | for any lines whatsoever, what a call returns and how many lines it takes, as an if and only if: the track of the last EXTINF line before the first address behind an EXTINF line, with the last value of each known tag in between; an error exactly for the first damaged EXTINF line or such an address that is no URL; else the end of the file |
| M3uReading.TagIs | internal/parser/m3u8/decoder.go:175-202 | a line is read as a tag if and only if it is `#`, a key without colon that starts with `EXT-X-` or is one of the five plain ones, a colon and the value |
| M3uReading.CallIs | internal/parser/m3u8/decoder.go:49-80 | a file is refused exactly for a first line without header, and then the next line is taken for the first; an empty file and a file read to its end give the end of the file again and again |
| M3uReading.NoiseChangesNothing | internal/parser/m3u8/decoder.go:88-107 | blank lines, comments and unknown tags change none of the results, wherever they stand |
| M3uReading.NoisyRoundTrip | internal/parser/m3u8/decoder.go:82-124 | a written file is read back however much of that is put between its lines |
| M3uMatching.InfoIs | internal/parser/m3u8/decoder.go:130-164 | for any EXTINF line: it is damaged if and only if the expression matches nowhere in it; else length, attributes and name are those of the first match, the name being what follows the last comma, and all of the rest only when there is neither comma nor attribute |
| M3uMatching.MatchIs | internal/parser/m3u8/decoder.go:14 | a text matches the EXTINF expression with given groups if and only if it is prefix, sign, digits, fraction, spaces and rest, each as long as it can be, with no newline in the rest |
| M3uMatching.AttrsFrom | internal/parser/m3u8/decoder.go:149 | the attributes found are pairs of the text, in order and without overlap, and no pair starts anywhere else but inside one |
| M3uMatching.LastPairWins | internal/parser/m3u8/decoder.go:150-154 | an attribute has the value of the last pair with its key |
| M3uRoundTrip.ExtInfReadBack | internal/parser/m3u8/decoder.go:130-164 | parsing a printed EXTINF line gives back name, length and attributes |
| M3uRoundTrip.EmptyNameReadBack | internal/parser/m3u8/decoder.go:156-161 | a nameless track reads back nameless if and only if no attribute value has a comma |
| M3uRoundTrip.FindAttrsInPairs | internal/parser/m3u8/decoder.go:149-154 | the attribute matches in printed pairs are exactly the pairs, in order |
| M3uRoundTrip.TagReadBack | internal/parser/m3u8/decoder.go:166-202 | a printed whitelisted tag is recognised and parsed to its key and value |
| M3uRoundTrip.TagSteps | internal/parser/m3u8/decoder.go:101-107 | reading printed tag lines fills exactly the printed tags into the track |
| M3uFiles.TrackReadBack | internal/parser/m3u8/decoder.go:82-124 | the text of one printable track is read as that track, leaving what follows |
| M3uFiles.DecodedHasUri | internal/parser/m3u8/decoder.go:109-116 | every track the decoder returns has a URI |
| M3uFiles.RoundTrip | internal/parser/m3u8/decoder.go:49-124 | for every list of printable tracks, the decoder's results on the encoder's output are exactly those tracks and then the end of the file for ever |
| M3uFiles.WriteAndRead | internal/parser/m3u8/encoder.go:26-120 | an encoder followed by a decoder is the identity on printable tracks |
| HttpCacheSafety.StepKeepsInv | internal/httpclient/reader.go:52-323 | every file call, network answer, read, failure, death and outside deletion keeps: a data file is the finished file of a completely read download |
| HttpCacheSafety.EveryRunIsSafe | internal/httpclient/reader.go:52-323 | that holds in every state of every run |
| HttpCacheSafety.PublishedByAMiss | internal/httpclient/reader.go:90-101 | a data file goes back to an earlier step that renamed the file of a download read to its end |
| HttpCacheSafety.HitIsTransparent | internal/httpclient/reader.go:239-257 | a hit read to its end has given exactly the bytes an earlier complete miss gave, and before its end a beginning of them |
| HttpCacheSafety.HitIsJustified | internal/httpclient/reader.go:148-237 | whatever is served from the cache was allowed by an earlier decision: metadata within its time to live, not past its Expires, or reported unmodified by the server |
| HttpCacheSafety.DownloadsIffUnjustified | internal/httpclient/reader.go:156-175 | once metadata has been read, the reader goes to the network if and only if none of these holds |
| HttpCacheSafety.MetadataImpliesBody | internal/httpclient/reader.go:86-109 | between operations metadata implies a complete data file, if nobody died inside an operation, no removal was refused and no cleaner run overlapped one |
| HttpReaders.Reader.SaveMetadata | internal/httpclient/storage.go:14-49 | both metadata files after success and after each kind of failure |
| HttpReaders.Reader.Cleanup | internal/httpclient/storage.go:50-55 | removes all four files that can be removed |
| HttpReaders.Reader.Close | internal/httpclient/reader.go:60-109 | the four files after closing: published, cleaned up, or untouched when a closer fails |
| HttpReaders.MissThenHit | internal/httpclient/reader.go:60-109 | closing a download that was read to its end and has its announced length, all file operations succeeding, and opening the entry again within its time to live serves the finished file of that download, under metadata with the time of closing |
| HttpReaders.IncompleteLeavesNothing | internal/httpclient/reader.go:60-109 | closing a download that was not read to its end, or whose length is not the announced one, removes all four files |
| HttpReaders.FailedCloserLeavesFiles | internal/httpclient/reader.go:63-84 | a closer that fails ends the reader with all four files as they were |
| HttpReaders.RenewalRestamps | internal/httpclient/reader.go:165-197 | metadata past its time to live that its Expires or the server still vouches for is written anew with the present time, with the validators of the answer or none; where that fails, the entry is served all the same in the first case and downloaded again in the second |
| HttpReaders.CloseRuns | internal/httpclient/reader.go:60-109 | what Close does is an execution of the step machine, so the theorems about runs apply to it |
| HttpStore.Store.RemoveEntry | internal/httpclient/store.go:174-195 | removes both data files and the metadata of a name; fails exactly when one that exists cannot be removed |
| HttpStore.Store.CleanExpired | internal/httpclient/store.go:86-172 | over a listing by name: after a successful run readable metadata is left if and only if it is no older than its retention, which must be positive, or than 24 hours without one; data stay exactly with such metadata, or with unreadable metadata, which goes; no other kind of file is left. A run fails exactly when a file that must go cannot be removed, and touches no other |
| HttpStore.OrphansOfGarbage | internal/httpclient/store.go:123-131 | after a run a data file lacks metadata if and only if that metadata was unreadable |
| HttpStore.TwoRunsSettle | internal/httpclient/store.go:86-172 | two runs leave nothing for a third: no orphan and no unexpected file |
| HttpStore.CleanedIsRemaining | internal/httpclient/store.go:96-167 | a run over the directory does to one entry what the cleaning step of the cache machine does |
| Prefetch.BaseDecoder.NextItem | internal/listing/streaming.go:38-50 | buffered items first, then the stored error, then the decoder |
| Prefetch.BaseDecoder.TickOnce | internal/listing/streaming.go:80-88 | one tick of the goroutine: reads to a full batch, or to an error that ends it and hands over the batch |
| Prefetch.BaseDecoder.StopBuffer | internal/listing/streaming.go:100-105 | waits for the goroutine, whose batch joins the buffer |
| Prefetch.BufferingIsInvisible | internal/listing/streaming.go:38-105 | along every schedule of starts, ticks, stops and requests the consumer gets the decoder's own results up to the first error, and for ever if errors are final |
| Prefetch.NextTakesOne | internal/listing/streaming.go:38-50 | an item given is one of those left, with items put back too; an error takes none, and the end of file comes only when none is left, also for a decoder that goes on behind its errors |
| Prefetch.TickKeepsRest | internal/listing/streaming.go:80-88 | reading ahead neither loses nor duplicates an item, also across errors that are not final |
| Prefetch.InvisibleIffFinal | internal/listing/streaming.go:38-105 | every schedule gives the decoder's own results, up to the first error or for ever, if and only if the decoder's errors are final |
| Prefetch.RestartMayPassError | internal/listing/streaming.go:52-94 | a decoder and a schedule of the buffering interface for which an item from behind an error comes first |
| Guides.Streamer.ProcessChannel | internal/listing/xmltv/streamer.go:166-205 | the guide after one channel element: first requested candidate id, written once, mapped unless the names disagree |
| Guides.Streamer.ProcessProgramme | internal/listing/xmltv/streamer.go:216-240 | the guide after one programme: written under the mapped id unless unmapped or repeated |
| GuideIntegrity.GuideIsSound | internal/listing/xmltv/streamer.go:166-240 | over any sources and any hash collisions: written channel ids are distinct and requested, every programme names a channel written before it, no two programmes share a key |
| GuideIntegrity.ChannelsClosedForm | internal/listing/xmltv/streamer.go:166-205 | the written channels are the first element for each id that is picked, and the ids known are exactly those picked |
| GuideContents.PickIs | internal/listing/xmltv/streamer.go:166-180 | the id picked is the channel's own if asked for, else the hash of the first name for which that is, else none |
| GuideContents.ChannelWrittenIff | internal/listing/xmltv/streamer.go:166-205 | a channel element is written if and only if it picks an id that no earlier one picks, under that id and with the name asked for, or else its own names |
| GuideContents.NamesMatchIs | internal/listing/xmltv/streamer.go:207-214 | a later element of an id counts as the same channel if and only if it shares a name with the first |
| GuideIntegrity.AddedIsFirst | internal/listing/xmltv/streamer.go:190-193 | the names kept for an id are those of the first element that picks it |
| GuideIntegrity.MappingClosedForm | internal/listing/xmltv/streamer.go:180-193 | a source key is mapped exactly to the id of the last element with that key that is the first for its id or shares a name with the first |
| GuideIntegrity.ProgrammesClosedForm | internal/listing/xmltv/streamer.go:216-240 | the written programmes are the first for each key among those of mapped channels |
| GuideContents.ProgrammeWrittenIff | internal/listing/xmltv/streamer.go:216-240 | a programme is written if and only if its channel is mapped and no earlier one of a mapped channel has the same text of mapped channel, start and id; it keeps its start and id |
| GuideContents.SameKeyIffSameStart | internal/listing/xmltv/streamer.go:226-239 | two programmes of one channel with equal ids count as repeated if and only if their starts are equal |
| GuideWriter.ProcessChannels | internal/listing/xmltv/streamer.go:98-133 | the loop ends with the error, the elements and the decoder state of the specified channel phase, and the guide is the fold over those elements |
| GuideWriter.ProcessProgrammes | internal/listing/xmltv/streamer.go:135-164 | the same for the programme phase |
| GuideSources.ReadChannelsKeeps | internal/listing/xmltv/streamer.go:98-133 | the channel phase handles no programme, puts the one it stops at back and loses nothing |
| GuideSources.EveryProgrammeOnce | internal/listing/xmltv/streamer.go:98-164 | unless the source ends in an error, every programme it yields reaches the merge exactly as often as it yields it, whatever the goroutine reads ahead and whichever elements are malformed; otherwise none reaches it more often |
| GuideErrors.SourceErrorIs | internal/listing/streaming.go:78-90 | what a source makes the guide end with: its first error, except that what follows it takes its place exactly when a programme comes before it, the goroutine ran into it before the channel phase, and into what follows before the programme phase |
| GuideErrors.ErrorUnreportedIff | internal/listing/streaming.go:82-85 | a source with an error counts as complete if and only if the end of file takes the place of its first error in this way |
| GuideErrors.MalformedElementUnreported | internal/parser/xmltv/decoder.go:64-76 | a concrete source with a malformed element that is never reported |
| GuideWriter.WriteTo | internal/listing/xmltv/streamer.go:49-96 | the guide is sound whatever the sources hold and whichever fails; all sources are read to the end exactly when none of them ends in an error, and then the guide is the two folds and every source's programmes reach the merge as often as it yields them |
| StreamProxy.Response.TryStream | internal/server/stream.go:148-211 | one attempt: the bytes written, and success, limit or empty stream |
| StreamProxy.Response.TryAllStreams | internal/server/stream.go:104-146 | a pass stops at the first source that writes something or breaks off; without one nothing is written and the flags say what was met |
| StreamProxy.Response.HandleStreamProxy | internal/server/stream.go:37-102 | the first such source of the first pass that has one answers, else after the second pass the limit streamer, the upstream error streamer or status 502 |
| StreamProxy.AnswerWithoutSource | internal/server/stream.go:83-101 | when nothing wins in either pass: the limit streamer of the first playlist if the second pass met a limit, else its upstream error streamer if it met an empty stream, else status 502 |
| StreamProxy.AnswerFromSource | internal/server/stream.go:69-81 | the first source, in order of passes and then of the list, that gives bytes or breaks off answers with what it gave, and nothing else is written |
| StreamProxy.SingleProducer | internal/server/stream.go:67-101 | everything written to a response has one producer |
| StreamProxy.AtMostTwoAttempts | internal/server/stream.go:69-81 | each source is tried at most once per pass and at most twice |

## Left out

- `Stop` and `stopAll` interleaved with requests: a late owner can then remove a newer segmenter. The map's own contract is `SegmenterPools.SegmenterPool.StopAll`; the theorems about runs are about runs without it.
- Segment directories on disk: their removal happens outside the lock, and no claim is made about them.
- Order in which a semaphore serves waiting creators, and real processes, pipes, timers and sockets: they are steps of the environment.
- Whether a reader that `GetReader` returned still has a live process: the code does not promise it.
- Global and client permits around a stream request: only their outcome enters, as a parameter of `StreamProxy.Response.HandleStreamProxy`.
- Channel rules, rule conditions, the order of several playlist rules, configuration, link encryption, metrics and logging: mostly one branch each.
- Fields of `Track` and `Channel` outside the modelled operations, and icons of guide elements, which are rewritten without changing what is kept.
- Nil entries in the pattern lists of a sort rule, which the code skips: the lists hold patterns only.
- Sorting.SortSlice: the body is a stand-in for `sort.Slice`; only the contract is used.
- DuplicateRules.MergeGroup: a final value without a selector, which the original would dereference, changes nothing in the model. Validation of the configuration rejects it (internal/config/rules/playlist/merge_duplicates.go:31-34).
- ETag validators: the original stores the header under `ETag` and looks it up under `Etag`, so it is never sent; the model has no ETag and a renewal rests on Last-Modified alone.
- NaturalOrder.NaturalLess: works on characters, which stand for the bytes of the original; the difference shows only beyond ASCII.
- M3uFiles.RoundTrip: lengths that `%.6g` prints in plain decimal. Other lengths are printed by an arbitrary function, since rounding is not modelled; nor are out-of-range lengths and the line-length limit of the scanner.
- M3uCodec.Encoder.Encode: does not model errors of the underlying writer.
- HttpCacheSafety.EveryRunIsSafe: readers of one entry follow one another, because they share a temporary file; a consumer stops reading at the first error.
- HttpReaders.Reader.Close: `Read` and the opening of a reader are steps of the machine only (`HttpCache.Deliver`, `HttpCache.Check`), because deaths and deletions from outside may fall between any two of them.
- Size limits, redirects and header forwarding of the HTTP client: they do not touch the files.
- GuideWriter.WriteTo: errors of the encoder, cancellation of the request and a decoder that cannot be created end the original earlier; every prefix of the written guide is sound by the same theorem. A source ends: from some call on its decoder gives one error for ever, and an end of file is final, as in internal/parser/xmltv/decoder.go:28-39 and 78-80.
- Data races of the buffering goroutine with a consumer that does not stop it first: all callers stop it.
